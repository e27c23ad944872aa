/**
 A committed interface change as a whole: the flushes done while compiling, the exit
 scripts in the order of the current generation, then the init scripts in the order of
 the next one, against the kernel.
 */
module Commit {
  import opened DepOrder
  import opened Options
  import opened Kernel
  import opened Interfaces
  import opened InterfaceScripts
  import opened Netdag
  import A = Addresses

  /** Two well-formed configurations that agree in kinds, and diffs that record the change. */
  ghost predicate IsChange(env: Env, ds: seq<IfDiff>, was: Config) {
    && WellFormed(was, env.fixed) && WellFormed(env.now, env.fixed) && SameKinds(was, env.now)
    && RecordsChange(env, ds, was)
  }

  lemma {:induction false} ChangeIsReadable(env: Env, ds: seq<IfDiff>, was: Config)
    requires IsChange(env, ds, was)
    ensures Readable(env, ds)
  {
    forall i | 0 <= i < |ds|
      ensures Deleted(env, ds[i]) ||
              (ds[i].name in env.now && ValidFamily(env.now[ds[i].name].v4) && ValidFamily(env.now[ds[i].name].v6))
    {
      assert RecordsIface(env, ds[i], Lookup(was, ds[i].name), Lookup(env.now, ds[i].name));
      if ds[i].name in env.now {
        assert forall fam :: env.now[ds[i].name].Fam(fam).Some? ==> env.now[ds[i].name].Fam(fam).value.Valid();
        assert env.now[ds[i].name].Fam(A.V4) == env.now[ds[i].name].v4;
        assert env.now[ds[i].name].Fam(A.V6) == env.now[ds[i].name].v6;
      }
    }
  }

  /** The compiler takes every such change: no interface of it is refused. */
  lemma {:induction false} ChangeIsSupported(env: Env, ds: seq<IfDiff>, was: Config, i: nat)
    requires IsChange(env, ds, was) && i < |ds|
    ensures forall skipped :: Supported(env, ds[i], skipped)
  {
    var d := ds[i];
    assert RecordsIface(env, d, Lookup(was, d.name), Lookup(env.now, d.name));
    if !Deleted(env, d) {
      AddressesRun(env, d, Lookup(was, d.name));
      assert WellFormedLink(env.now, env.fixed, d.name);
    }
  }

  ghost function At(ds: seq<IfDiff>, n: Name): (k: nat)
    requires n in Names(ds)
    ensures k < |ds| && ds[k].name == n
  {
    var k :| 0 <= k < |ds| && ds[k].name == n;
    k
  }

  /** What the compiler makes of a change, interface by interface. */
  ghost function CompiledOf(env: Env, ds: seq<IfDiff>): Output
    requires Readable(env, ds)
  {
    Output({},
           map n | n in env.now.Keys + Names(ds) :: DependenciesOf(env, ds, n),
           map n | n in Names(ds) && (Deleted(env, ds[At(ds, n)]) || Recreates(env, ds[At(ds, n)])) ::
             ExitScript(env, n),
           map n | n in Names(ds) && !Deleted(env, ds[At(ds, n)]) && FamReady(env, ds[At(ds, n)]) ::
             InitOf(env, ds[At(ds, n)], SkippedAt(env, ds, At(ds, n))),
           AllFlushes(env, ds))
  }

  ghost function DependenciesOf(env: Env, ds: seq<IfDiff>, n: Name): seq<Name>
    requires Readable(env, ds)
  {
    if n !in Names(ds) || Deleted(env, ds[At(ds, n)]) then [] else
    var d, skipped := ds[At(ds, n)], SkippedAt(env, ds, At(ds, n));
    (if n in env.fixed then [] else LinkDep(env, d, skipped)) +
    if env.now[n].bridge.Some? then [env.now[n].bridge.value] else []
  }

  lemma {:induction false} CompiledOne(env: Env, ds: seq<IfDiff>, i: nat)
    requires Readable(env, ds) && i < |ds| && Supported(env, ds[i], SkippedAt(env, ds, i))
    ensures CompiledAt(env, ds, i, CompiledOf(env, ds))
  {
    var n, out := ds[i].name, CompiledOf(env, ds);
    assert n in Names(ds) && At(ds, n) == i;
    assert out.deps[n] == DependenciesOf(env, ds, n);
    if !Deleted(env, ds[i]) {
      DependenciesAre(env, ds, i);
      assert out.init[n] == InitOf(env, ds[i], SkippedAt(env, ds, i));
    }
  }

  lemma {:induction false} DependenciesAre(env: Env, ds: seq<IfDiff>, i: nat)
    requires Readable(env, ds) && i < |ds| && !Deleted(env, ds[i])
    ensures forall x :: x in DependenciesOf(env, ds, ds[i].name) <==>
                        x in Dependencies(env, ds[i], SkippedAt(env, ds, i))
  {
    assert ds[i].name in Names(ds) && At(ds, ds[i].name) == i;
  }

  /** Every recorded change compiles. */
  lemma {:induction false} ChangeCompiles(env: Env, ds: seq<IfDiff>, was: Config)
    requires IsChange(env, ds, was)
    ensures Readable(env, ds) && IsCompiled(env, ds, CompiledOf(env, ds))
  {
    ChangeIsReadable(env, ds, was);
    CompiledRest(env, ds);
    var out := CompiledOf(env, ds);
    assert forall i :: 0 <= i < |ds| ==> CompiledAt(env, ds, i, out) by {
      forall i | 0 <= i < |ds| ensures CompiledAt(env, ds, i, out) {
        ChangeIsSupported(env, ds, was, i);
        CompiledOne(env, ds, i);
      }
    }
  }

  lemma {:induction false} CompiledRest(env: Env, ds: seq<IfDiff>)
    requires Readable(env, ds)
    ensures CompiledOf(env, ds).deps.Keys == env.now.Keys + Names(ds)
    ensures CompiledOf(env, ds).flushes == AllFlushes(env, ds)
    ensures forall n :: n !in Names(ds) ==> Untouched(n, CompiledOf(env, ds))
  {
  }

  // ---------- veth pairs ----------

  /** Why a device is marked: an earlier, unmarked end of a pair names it as its peer. */
  ghost predicate Marks(env: Env, ds: seq<IfDiff>, i: nat, x: Name)
    requires Readable(env, ds) && i < |ds|
  {
    Adds(env, ds[i]) && env.now[ds[i].name].link == Veth(x) && ds[i].name !in Skips(env, ds[..i])
  }

  lemma {:induction false} ReadablePrefix(env: Env, ds: seq<IfDiff>, k: nat)
    requires Readable(env, ds) && k <= |ds|
    ensures Readable(env, ds[..k])
  {
  }

  lemma {:induction false} SkipsMeans(env: Env, ds: seq<IfDiff>, k: nat, x: Name)
    requires Readable(env, ds) && k <= |ds|
    ensures x in Skips(env, ds[..k]) <==> exists i :: 0 <= i < k && Marks(env, ds, i, x)
  {
    if k == 0 {
    } else {
      SkipsMeans(env, ds, k - 1, x);
      assert ds[..k][..k - 1] == ds[..k - 1] && ds[..k][k - 1] == ds[k - 1];
      assert Marks(env, ds, k - 1, x) ==> x in Skips(env, ds[..k]);
    }
  }

  /** `n` is a veth end that this change creates. */
  ghost predicate NewEnd(env: Env, ds: seq<IfDiff>, n: Name)
    requires Readable(env, ds)
  {
    n in Names(ds) && Adds(env, ds[At(ds, n)]) && env.now[n].link.Veth?
  }

  ghost predicate SkippedEnd(env: Env, ds: seq<IfDiff>, n: Name)
    requires Readable(env, ds)
  {
    NewEnd(env, ds, n) && SkippedAt(env, ds, At(ds, n))
  }

  /** A veth end that stays and gets another peer. */
  ghost predicate Repeered(was: Config, now: Config, n: Name) {
    n in was && n in now && was[n].link.Veth? && now[n].link.Veth? && was[n].link != now[n].link
  }

  /**
   Its old peer goes and its new peer comes with the change: the end is taken along by the
   one and made again by the other.
   */
  ghost predicate Remade(was: Config, now: Config, n: Name) {
    Repeered(was, now, n) && was[n].link.peer !in now && now[n].link.peer !in was
  }

  /** The other end of an end that is created: created too, or there already with another peer. */
  lemma {:induction false} NewEndPeer(env: Env, ds: seq<IfDiff>, was: Config, n: Name)
    requires IsChange(env, ds, was) && Readable(env, ds) && NewEnd(env, ds, n)
    ensures var p := env.now[n].link.peer;
            && p in env.now && env.now[p].link == Veth(n) && p != n && n !in was && p in Names(ds)
            && if p in was then Repeered(was, env.now, p) && !Adds(env, ds[At(ds, p)]) else NewEnd(env, ds, p)
  {
    var k, p := At(ds, n), env.now[n].link.peer;
    assert RecordsIface(env, ds[k], Lookup(was, n), Lookup(env.now, n));
    assert WellFormedLink(env.now, env.fixed, n);
    assert p in was ==> WellFormedLink(was, env.fixed, p);
    assert Lookup(was, p) != Lookup(env.now, p);
    var i :| 0 <= i < |ds| && ds[i].name == p;
    assert p in Names(ds);
    assert RecordsIface(env, ds[At(ds, p)], Lookup(was, p), Lookup(env.now, p));
  }

  /** An end is only ever marked by its peer. */
  lemma {:induction false} MarkedByPeer(env: Env, ds: seq<IfDiff>, was: Config, i: nat, n: Name)
    requires IsChange(env, ds, was) && Readable(env, ds) && i < |ds| && Marks(env, ds, i, n)
    ensures n in env.now && env.now[n].link == Veth(ds[i].name) && NewEnd(env, ds, ds[i].name)
  {
    assert WellFormedLink(env.now, env.fixed, ds[i].name);
    assert ds[i].name in Names(ds) && At(ds, ds[i].name) == i;
  }

  /** Of a pair created in one change, the end that comes first makes the pair and the other is skipped. */
  lemma {:induction false} PairFirstMakes(env: Env, ds: seq<IfDiff>, was: Config, n: Name)
    requires IsChange(env, ds, was) && Readable(env, ds) && NewEnd(env, ds, n)
    requires NewEnd(env, ds, env.now[n].link.peer) && env.now[env.now[n].link.peer].link == Veth(n)
    ensures At(ds, n) < At(ds, env.now[n].link.peer) ==>
              !SkippedAt(env, ds, At(ds, n)) && SkippedAt(env, ds, At(ds, env.now[n].link.peer))
  {
    var p := env.now[n].link.peer;
    var i, j := At(ds, n), At(ds, p);
    if i < j {
      SkipsMeans(env, ds, i, n);
      forall m | 0 <= m < i ensures !Marks(env, ds, m, n) {
        if Marks(env, ds, m, n) { MarkedByPeer(env, ds, was, m, n); }
      }
      SkipsMeans(env, ds, j, p);
      assert Marks(env, ds, i, p);
    }
  }

  /** An end whose peer is there already makes the pair itself. */
  lemma {:induction false} LoneEndMakes(env: Env, ds: seq<IfDiff>, was: Config, n: Name)
    requires IsChange(env, ds, was) && Readable(env, ds) && NewEnd(env, ds, n) && env.now[n].link.peer in was
    ensures !SkippedEnd(env, ds, n)
  {
    NewEndPeer(env, ds, was, n);
    var i := At(ds, n);
    SkipsMeans(env, ds, i, n);
    forall m | 0 <= m < i ensures !Marks(env, ds, m, n) {
      if Marks(env, ds, m, n) { MarkedByPeer(env, ds, was, m, n); }
    }
  }

  /** What is known about an end that is created or made again, and its peer. */
  ghost predicate Paired(env: Env, ds: seq<IfDiff>, was: Config, m: Name)
    requires Readable(env, ds)
  {
    && (NewEnd(env, ds, m) ==>
          var p := env.now[m].link.peer;
          && p in env.now && env.now[p].link == Veth(m) && p != m && m !in was && p in Names(ds)
          && if p in was then Repeered(was, env.now, p) && !SkippedEnd(env, ds, m) && !Adds(env, ds[At(ds, p)])
             else NewEnd(env, ds, p) && (SkippedEnd(env, ds, m) <==> !SkippedEnd(env, ds, p)))
    && (Remade(was, env.now, m) ==>
          var q := env.now[m].link.peer;
          m in Names(ds) && q != m && NewEnd(env, ds, q) && env.now[q].link == Veth(m))
  }

  /** Of a pair created in one change exactly one end is skipped, in whatever order the ends come. */
  lemma {:induction false} OneEndIsSkipped(env: Env, ds: seq<IfDiff>, was: Config, n: Name)
    requires IsChange(env, ds, was) && Readable(env, ds)
    ensures Paired(env, ds, was, n)
  {
    if NewEnd(env, ds, n) {
      NewEndPeer(env, ds, was, n);
      var p := env.now[n].link.peer;
      if p in was {
        LoneEndMakes(env, ds, was, n);
      } else {
        PairFirstMakes(env, ds, was, n);
        PairFirstMakes(env, ds, was, p);
      }
    }
    if Remade(was, env.now, n) { RemadeByNewEnd(env, ds, was, n); }
  }

  lemma {:induction false} RemadeByNewEnd(env: Env, ds: seq<IfDiff>, was: Config, m: Name)
    requires IsChange(env, ds, was) && Readable(env, ds) && Remade(was, env.now, m)
    ensures var q := env.now[m].link.peer;
            m in Names(ds) && q != m && NewEnd(env, ds, q) && env.now[q].link == Veth(m)
  {
    var q := env.now[m].link.peer;
    assert WellFormedLink(env.now, env.fixed, m) && WellFormedLink(env.now, env.fixed, q);
    assert Lookup(was, m) != Lookup(env.now, m) && Lookup(was, q) != Lookup(env.now, q);
    var i :| 0 <= i < |ds| && ds[i].name == m;
    var j :| 0 <= j < |ds| && ds[j].name == q;
    assert m in Names(ds) && q in Names(ds);
    assert RecordsIface(env, ds[At(ds, q)], Lookup(was, q), Lookup(env.now, q));
  }

  // ---------- the dependencies are acyclic ----------

  lemma {:induction false} EdgesAre(env: Env, ds: seq<IfDiff>, was: Config, out: Output, x: Name, y: Name)
    requires IsChange(env, ds, was) && Readable(env, ds) && IsCompiled(env, ds, out) && Edge(out.deps, x, y)
    ensures x in env.now && y in env.now
    ensures (env.now[x].link.Vlan? && y == env.now[x].link.parent) || env.now[x].bridge == Some(y) ||
            (SkippedEnd(env, ds, x) && y == env.now[x].link.peer)
  {
    EdgeKinds(env, ds, out, x, y);
    assert WellFormedLink(env.now, env.fixed, x);
  }

  lemma {:induction false} EdgeKinds(env: Env, ds: seq<IfDiff>, out: Output, x: Name, y: Name)
    requires Readable(env, ds) && IsCompiled(env, ds, out) && Edge(out.deps, x, y)
    ensures x in env.now
    ensures (env.now[x].link.Vlan? && y == env.now[x].link.parent) || env.now[x].bridge == Some(y) ||
            (SkippedEnd(env, ds, x) && y == env.now[x].link.peer)
  {
    assert x !in Names(ds) ==> Untouched(x, out);
    var k := At(ds, x);
    assert CompiledAt(env, ds, k, out);
    CompiledEdge(env, ds, k, out, y);
  }

  lemma {:induction false} CompiledEdge(env: Env, ds: seq<IfDiff>, k: nat, out: Output, y: Name)
    requires Readable(env, ds) && k < |ds| && CompiledAt(env, ds, k, out) && Edge(out.deps, ds[k].name, y)
    ensures ds[k].name in env.now && y in Dependencies(env, ds[k], SkippedAt(env, ds, k))
  {
  }

  /** The dependency links written for a change never form a cycle. */
  lemma {:induction false} DepsAreAcyclic(env: Env, ds: seq<IfDiff>, was: Config, out: Output)
    requires IsChange(env, ds, was) && Readable(env, ds) && IsCompiled(env, ds, out)
    ensures Acyclic(out.deps)
  {
    var rank :| Ranked(env.now, rank);
    EdgesDescend(env, ds, was, out, rank);
    RankedIsAcyclic(out.deps, Fine(env, ds, rank));
  }

  /** The ranks of a configuration, with room for a skipped end above its peer. */
  ghost function Fine(env: Env, ds: seq<IfDiff>, rank: map<Name, nat>): map<Name, nat>
    requires Readable(env, ds) && rank.Keys == env.now.Keys
  {
    map n | n in rank :: 2 * rank[n] + if SkippedEnd(env, ds, n) then 1 else 0
  }

  lemma {:induction false} EdgesDescend(env: Env, ds: seq<IfDiff>, was: Config, out: Output, rank: map<Name, nat>)
    requires IsChange(env, ds, was) && Readable(env, ds) && IsCompiled(env, ds, out) && Ranked(env.now, rank)
    ensures Falls(out.deps, Fine(env, ds, rank))
  {
    forall x, y | Edge(out.deps, x, y)
      ensures x in rank && y in rank && Fine(env, ds, rank)[y] < Fine(env, ds, rank)[x]
    {
      EdgeDescends(env, ds, was, out, rank, x, y);
    }
  }

  lemma {:induction false} EdgeDescends(env: Env, ds: seq<IfDiff>, was: Config, out: Output, rank: map<Name, nat>,
                                        x: Name, y: Name)
    requires IsChange(env, ds, was) && Readable(env, ds) && IsCompiled(env, ds, out) && Edge(out.deps, x, y)
    requires Ranked(env.now, rank)
    ensures x in env.now && y in env.now && x in rank && y in rank
    ensures 2 * rank[y] + (if SkippedEnd(env, ds, y) then 1 else 0) <
            2 * rank[x] + if SkippedEnd(env, ds, x) then 1 else 0
  {
    EdgesAre(env, ds, was, out, x, y);
    if SkippedEnd(env, ds, x) && y == env.now[x].link.peer {
      OneEndIsSkipped(env, ds, was, x);
    }
  }
}
