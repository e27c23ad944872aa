/** Running a committed change, phase by phase, and the theorem about the whole. */
module CommitRun {
  import opened DepOrder
  import opened Options
  import opened Lyx
  import opened Kernel
  import opened Interfaces
  import opened InterfaceScripts
  import opened Netdag
  import opened Commit
  import A = Addresses

  // ---------- flushes done while compiling ----------

  function FlushOne(k: State, f: (Name, A.Fam)): State {
    if f.0 in k then k[f.0 := k[f.0].(addrs := A.Flush(k[f.0].addrs, f.1))] else k
  }

  function FlushEach(k: State, fs: seq<(Name, A.Fam)>): State {
    if fs == [] then k else FlushOne(FlushEach(k, fs[..|fs| - 1]), fs[|fs| - 1])
  }

  lemma {:induction false} FlushEachConcat(k: State, fs: seq<(Name, A.Fam)>, gs: seq<(Name, A.Fam)>)
    ensures FlushEach(k, fs + gs) == FlushEach(FlushEach(k, fs), gs)
  {
    if gs == [] {
      assert fs + gs == fs;
    } else {
      FlushEachConcat(k, fs, gs[..|gs| - 1]);
      assert (fs + gs)[..|fs + gs| - 1] == fs + gs[..|gs| - 1];
    }
  }

  /** The addresses of the families that stay enabled. */
  function Kept(i: Iface, s: set<A.Addr>): set<A.Addr> {
    set a | a in s && A.Enabled(i.Fam(a.fam))
  }

  lemma {:induction false} FlushIface(k: State, env: Env, n: Name)
    requires n in env.now
    ensures FlushEach(k, FlushesOf(env, n)) ==
            if n in k then k[n := k[n].(addrs := Kept(env.now[n], k[n].addrs))] else k
  {
    var i := env.now[n];
    var f4: seq<(Name, A.Fam)>, f6: seq<(Name, A.Fam)> :=
      if A.Enabled(i.v4) then [] else [(n, A.V4)], if A.Enabled(i.v6) then [] else [(n, A.V6)];
    FlushEachConcat(k, f4, f6);
    var l := FlushEach(k, f4);
    assert l == (if f4 == [] then k else FlushOne(k, (n, A.V4))) by { assert [(n, A.V4)][..0] == []; }
    assert FlushEach(l, f6) == (if f6 == [] then l else FlushOne(l, (n, A.V6))) by { assert [(n, A.V6)][..0] == []; }
    if n in k {
      var s := k[n].addrs;
      var t := if A.Enabled(i.v4) then s else A.Flush(s, A.V4);
      assert l == k[n := k[n].(addrs := t)];
      assert Kept(i, s) == if A.Enabled(i.v6) then t else A.Flush(t, A.V6);
      assert k[n := k[n].(addrs := t)][n := k[n].(addrs := Kept(i, s))] == k[n := k[n].(addrs := Kept(i, s))];
    }
  }

  /** The interface is diffed and stays. */
  ghost predicate Stays(env: Env, ds: seq<IfDiff>, n: Name) {
    exists i :: 0 <= i < |ds| && ds[i].name == n && !Deleted(env, ds[i])
  }

  ghost function Flushed(env: Env, ds: seq<IfDiff>, k: State): State
    requires Readable(env, ds)
  {
    map n | n in k ::
      if Stays(env, ds, n) && n in env.now then k[n].(addrs := Kept(env.now[n], k[n].addrs)) else k[n]
  }

  lemma {:induction false} FlushesAre(env: Env, ds: seq<IfDiff>, k: State)
    requires Readable(env, ds)
    ensures FlushEach(k, AllFlushes(env, ds)) == Flushed(env, ds, k)
  {
    if ds == [] {
      assert Flushed(env, ds, k) == k;
    } else {
      var d, rest := ds[|ds| - 1], ds[..|ds| - 1];
      ReadablePrefix(env, ds, |ds| - 1);
      FlushesAre(env, rest, k);
      FlushedAppend(env, ds, k);
      if Deleted(env, d) {
        assert AllFlushes(env, rest) + [] == AllFlushes(env, rest);
      } else {
        FlushEachConcat(k, AllFlushes(env, rest), FlushesOf(env, d.name));
        FlushIface(Flushed(env, rest, k), env, d.name);
      }
    }
  }

  lemma {:induction false} FlushedAppend(env: Env, ds: seq<IfDiff>, k: State)
    requires Readable(env, ds) && ds != []
    ensures Readable(env, ds[..|ds| - 1])
    ensures var d, l := ds[|ds| - 1], Flushed(env, ds[..|ds| - 1], k);
            Flushed(env, ds, k) == if Deleted(env, d) || d.name !in l then l
                                   else l[d.name := l[d.name].(addrs := Kept(env.now[d.name], l[d.name].addrs))]
  {
    var d, rest := ds[|ds| - 1], ds[..|ds| - 1];
    ReadablePrefix(env, ds, |ds| - 1);
    forall n ensures Stays(env, ds, n) <==> Stays(env, rest, n) || (n == d.name && !Deleted(env, d)) {
      StaysAppend(env, ds, n);
    }
    assert !Stays(env, rest, d.name);
    var l := Flushed(env, rest, k);
    var r := if Deleted(env, d) || d.name !in l then l
             else l[d.name := l[d.name].(addrs := Kept(env.now[d.name], l[d.name].addrs))];
    assert Flushed(env, ds, k).Keys == r.Keys;
    forall n | n in k ensures Flushed(env, ds, k)[n] == r[n] {
      StaysAppend(env, ds, n);
    }
  }

  lemma {:induction false} StaysAppend(env: Env, ds: seq<IfDiff>, n: Name)
    requires ds != []
    ensures Stays(env, ds, n) <==>
            Stays(env, ds[..|ds| - 1], n) || (n == ds[|ds| - 1].name && !Deleted(env, ds[|ds| - 1]))
  {
    var rest := ds[..|ds| - 1];
    if i :| 0 <= i < |rest| && rest[i].name == n && !Deleted(env, rest[i]) {
      assert ds[i] == rest[i];
    }
    if i :| 0 <= i < |ds| && ds[i].name == n && !Deleted(env, ds[i]) && i < |rest| {
      assert rest[i] == ds[i];
    }
  }

  // ---------- the exit scripts ----------

  /** The same devices, whatever their addresses. */
  ghost predicate SameDevices(k: State, l: State) {
    k.Keys == l.Keys && forall n :: n in k ==> k[n].link == l[n].link && k[n].master == l[n].master
  }

  /** The devices that the exit scripts delete. */
  ghost function Gone(env: Env, ds: seq<IfDiff>): set<Name>
    requires Readable(env, ds)
  {
    set n | n in Names(ds) && n !in env.fixed && (Deleted(env, ds[At(ds, n)]) || Recreates(env, ds[At(ds, n)]))
  }

  /** The ends that go along with a removed peer, to be made again by a new one. */
  ghost function Along(was: Config, now: Config): map<Name, Name> {
    map n | n in was && Remade(was, now, n) :: was[n].link.peer
  }

  lemma {:induction false} ExitScriptsAre(env: Env, ds: seq<IfDiff>, was: Config, out: Output, k: State)
    requires IsChange(env, ds, was) && Readable(env, ds) && IsCompiled(env, ds, out)
    requires SameDevices(k, Meaning(was, env.fixed))
    ensures IsExit(out.exit, Gone(env, ds), k)
    ensures out.exit.Keys <= was.Keys
  {
    forall n | n in out.exit
      ensures n in was && n in Names(ds)
      ensures if n in Gone(env, ds) then out.exit[n] == [DelLink(n)] && !k[n].link.Plain?
              else k[n].link.Plain? && out.exit[n] == [SetDown(n, None), FlushAll(n)]
    {
      assert n !in Names(ds) ==> Untouched(n, out);
      var i := At(ds, n);
      assert CompiledAt(env, ds, i, out);
      assert RecordsIface(env, ds[i], Lookup(was, n), Lookup(env.now, n));
      assert WellFormedLink(was, env.fixed, n);
    }
    forall n | n in Gone(env, ds) ensures n in out.exit {
      assert CompiledAt(env, ds, At(ds, n), out);
    }
  }

  lemma {:induction false} RemadeGoesAlong(env: Env, ds: seq<IfDiff>, was: Config, m: Name)
    requires IsChange(env, ds, was) && Readable(env, ds) && Remade(was, env.now, m)
    ensures var p := was[m].link.peer;
            && p in was && was[p].link == Veth(m) && p != m && p in Gone(env, ds) && m !in Gone(env, ds)
            && m !in env.fixed && p !in env.fixed
  {
    var p := was[m].link.peer;
    assert WellFormedLink(was, env.fixed, m);
    assert Lookup(was, p) != Lookup(env.now, p);
    var i :| 0 <= i < |ds| && ds[i].name == p;
    assert p in Names(ds);
    assert RecordsIface(env, ds[At(ds, p)], Lookup(was, p), Lookup(env.now, p));
    assert m in Names(ds) ==> RecordsIface(env, ds[At(ds, m)], Lookup(was, m), Lookup(env.now, m));
  }

  lemma {:induction false} AlongIs(env: Env, ds: seq<IfDiff>, was: Config, k: State)
    requires IsChange(env, ds, was) && Readable(env, ds)
    requires SameDevices(k, Meaning(was, env.fixed))
    ensures IsAlong(k, Gone(env, ds), Along(was, env.now))
  {
    forall m | m in Along(was, env.now)
      ensures var p := Along(was, env.now)[m];
              && m in k && m !in Gone(env, ds) && p in Gone(env, ds) && p in k && m != p
              && k[m].link == Veth(p) && k[p].link == Veth(m)
    {
      RemadeGoesAlong(env, ds, was, m);
    }
  }

  /** The kernel after the exit scripts. */
  ghost function AfterExit(env: Env, ds: seq<IfDiff>, was: Config, out: Output): State
    requires Readable(env, ds)
  {
    Removed(Flushed(env, ds, Meaning(was, env.fixed)), out.exit, Gone(env, ds), Along(was, env.now))
  }

  function Removed(k: State, scripts: map<Name, seq<Cmd>>, gone: set<Name>, along: map<Name, Name>): State {
    map n | n in k && n !in gone && n !in along :: Parted(if n in scripts then Emptied(k[n]) else k[n], gone)
  }

  /** The device when all of `gone` are deleted. */
  function Parted(d: Dev, gone: set<Name>): Dev {
    if d.master.Some? && d.master.value in gone then d.(master := None) else d
  }

  lemma {:induction false} FlushedShape(env: Env, ds: seq<IfDiff>, k: State)
    requires Readable(env, ds)
    ensures SameDevices(Flushed(env, ds, k), k)
  {
  }

  /** The kernel when the exit scripts start. */
  lemma {:induction false} BeforeExit(env: Env, ds: seq<IfDiff>, was: Config, out: Output)
    requires IsChange(env, ds, was) && Readable(env, ds) && IsCompiled(env, ds, out)
    ensures var m := Meaning(was, env.fixed);
            var k := Flushed(env, ds, m);
            && k == FlushEach(m, out.flushes) && SameDevices(k, m)
            && IsExit(out.exit, Gone(env, ds), k) && IsAlong(k, Gone(env, ds), Along(was, env.now))
    ensures out.exit.Keys <= was.Keys
  {
    var m := Meaning(was, env.fixed);
    FlushesAre(env, ds, m);
    FlushedShape(env, ds, m);
    ExitScriptsAre(env, ds, was, out, Flushed(env, ds, m));
    AlongIs(env, ds, was, Flushed(env, ds, m));
  }

  lemma {:induction false} ExitPhase(env: Env, ds: seq<IfDiff>, was: Config, out: Output, ex: seq<Name>)
    requires IsChange(env, ds, was) && Readable(env, ds) && IsCompiled(env, ds, out)
    requires NoDup(ex) && Covers(was, ex)
    requires Orderly(Meaning(was, env.fixed), ex, Gone(env, ds), Along(was, env.now))
    ensures RunScripts(Flushed(env, ds, Meaning(was, env.fixed)), ex, out.exit) == Some(AfterExit(env, ds, was, out))
  {
    BeforeExit(env, ds, was, out);
    ExitAll(Flushed(env, ds, Meaning(was, env.fixed)), Meaning(was, env.fixed), ex, out.exit,
            Gone(env, ds), Along(was, env.now));
  }

  /** An order has every interface of a configuration. */
  ghost predicate Covers(c: Config, ex: seq<Name>) {
    forall n :: n in c ==> n in ex
  }

  lemma {:induction false} ExitAll(k: State, m: State, ex: seq<Name>, scripts: map<Name, seq<Cmd>>, gone: set<Name>,
                                   along: map<Name, Name>)
    requires IsExit(scripts, gone, k) && IsAlong(k, gone, along) && NoDup(ex) && forall n :: n in scripts ==> n in ex
    requires SameDevices(k, m) && Orderly(m, ex, gone, along)
    ensures RunScripts(k, ex, scripts) == Some(Removed(k, scripts, gone, along))
  {
    OrderlySame(k, m, ex, gone, along);
    ExitRuns(k, ex, scripts, gone, along);
    ExitedAll(k, ex, scripts, gone, along);
  }

  lemma {:induction false} StackSame(k: State, l: State)
    requires SameDevices(k, l)
    ensures Stack(k) == Stack(l)
  {
  }

  lemma {:induction false} OrderlySame(k: State, l: State, ex: seq<Name>, gone: set<Name>, along: map<Name, Name>)
    requires SameDevices(k, l)
    ensures Orderly(k, ex, gone, along) <==> Orderly(l, ex, gone, along)
  {
    StackSame(k, l);
    assert forall y, n :: Above(k, along, y, n) <==> Above(l, along, y, n);
  }

  lemma {:induction false} ExitedAll(k: State, ex: seq<Name>, scripts: map<Name, seq<Cmd>>, gone: set<Name>,
                                     along: map<Name, Name>)
    requires IsAlong(k, gone, along) && gone <= scripts.Keys && forall n :: n in scripts ==> n in ex
    ensures Exited(k, ex, scripts, gone, along) == Removed(k, scripts, gone, along)
  {
  }

  // ---------- the init scripts ----------

  /** The device is created in this change, or created again. */
  ghost predicate AddsName(env: Env, ds: seq<IfDiff>, n: Name)
    requires Readable(env, ds)
  {
    n in Names(ds) && Adds(env, ds[At(ds, n)])
  }

  /** The device comes into being when the init scripts are run. */
  ghost predicate Comes(env: Env, ds: seq<IfDiff>, was: Config, n: Name)
    requires Readable(env, ds)
  {
    AddsName(env, ds, n) || Remade(was, env.now, n)
  }

  /** It comes into being with its peer. */
  ghost predicate ComesWithPeer(env: Env, ds: seq<IfDiff>, was: Config, n: Name)
    requires Readable(env, ds)
    ensures ComesWithPeer(env, ds, was, n) ==> n in env.now && env.now[n].link.Veth?
  {
    SkippedEnd(env, ds, n) || Remade(was, env.now, n)
  }

  /** The device is there once `done` have been set up: itself, or the end that makes the pair. */
  ghost predicate Here(env: Env, ds: seq<IfDiff>, was: Config, n: Name, done: seq<Name>)
    requires Readable(env, ds)
  {
    n in done || (ComesWithPeer(env, ds, was, n) && env.now[n].link.peer in done)
  }

  ghost function Settled(env: Env, ds: seq<IfDiff>, was: Config, n: Name, done: seq<Name>): set<A.Addr>
    requires Readable(env, ds)
  {
    if n in done || n !in Names(ds) || n !in env.now then AddrsOf(Lookup(env.now, n))
    else Starts(env, ds[At(ds, n)], Lookup(was, n))
  }

  /** Whether the device is up: as it was before its turn, but down if it came just now. */
  ghost function SettledUp(env: Env, ds: seq<IfDiff>, was: Config, n: Name, done: seq<Name>): bool
    requires Readable(env, ds)
  {
    if n in done || n !in Names(ds) || n !in env.now then UpOf(Lookup(env.now, n))
    else !Comes(env, ds, was, n) && UpOf(Lookup(was, n))
  }

  /** The bridge that is left of the one in the old configuration. */
  ghost function MasterLeft(was: Config, now: Config, n: Name): Option<Name> {
    var b := MasterOf(Lookup(was, n));
    if b.Some? && b.value !in now then None else b
  }

  ghost function SettledMaster(env: Env, ds: seq<IfDiff>, was: Config, n: Name, done: seq<Name>): Option<Name>
    requires Readable(env, ds)
  {
    if n in done || n !in Names(ds) || n !in env.now then MasterOf(Lookup(env.now, n))
    else if Comes(env, ds, was, n) then None else MasterLeft(was, env.now, n)
  }

  ghost function SettledDev(env: Env, ds: seq<IfDiff>, was: Config, n: Name, done: seq<Name>, link: Link): Dev
    requires Readable(env, ds)
  {
    Dev(link, Settled(env, ds, was, n, done), SettledUp(env, ds, was, n, done), SettledMaster(env, ds, was, n, done))
  }

  /** The kernel once `done` have been set up. */
  ghost function Expected(env: Env, ds: seq<IfDiff>, was: Config, done: seq<Name>): State
    requires Readable(env, ds)
  {
    var m := Meaning(env.now, env.fixed);
    map n | n in m && (Comes(env, ds, was, n) ==> Here(env, ds, was, n, done)) ::
      SettledDev(env, ds, was, n, done, m[n].link)
  }

  /** A device that stays has, after the flush, the addresses its commands start from. */
  lemma {:induction false} KeptIsStart(env: Env, d: IfDiff, was: Option<Iface>)
    requires d.name in env.now && !Recreates(env, d)
    ensures Kept(env.now[d.name], AddrsOf(was)) == Starts(env, d, was)
  {
    var now := env.now[d.name];
    TargetFam(A.V4, FamOf(was, A.V4));
    TargetFam(A.V6, FamOf(was, A.V6));
    assert now.Fam(A.V4) == now.v4 && now.Fam(A.V6) == now.v6;
    forall a ensures a in Kept(now, AddrsOf(was)) <==> a in Starts(env, d, was) {
      assert a.fam == A.V4 || a.fam == A.V6;
    }
  }

  /** What is known about a single name. */
  ghost predicate Facts(env: Env, ds: seq<IfDiff>, was: Config, out: Output, n: Name)
    requires Readable(env, ds)
  {
    && (n in was ==> WellFormedLink(was, env.fixed, n))
    && (n in env.now ==> WellFormedLink(env.now, env.fixed, n))
    && (n in was && n in env.now && !env.now[n].link.Vlan? ==>
          was[n].link == env.now[n].link || Repeered(was, env.now, n))
    && (n in was && n in env.now && env.now[n].link.Vlan? ==> was[n].link.Vlan?)
    && BridgeFacts(env, ds, was, n)
    && if n in Names(ds) then
         && CompiledAt(env, ds, At(ds, n), out)
         && RecordsIface(env, ds[At(ds, n)], Lookup(was, n), Lookup(env.now, n))
         && (Stays(env, ds, n) <==> !Deleted(env, ds[At(ds, n)]))
       else Untouched(n, out) && Lookup(was, n) == Lookup(env.now, n) && !Stays(env, ds, n)
  }

  /** The bridge of a port is there, and goes if and only if it is not configured any more. */
  ghost predicate BridgeFacts(env: Env, ds: seq<IfDiff>, was: Config, n: Name)
    requires Readable(env, ds)
  {
    && (MasterOf(Lookup(env.now, n)).Some? ==> MasterOf(Lookup(env.now, n)).value in env.now)
    && (MasterOf(Lookup(was, n)).Some? ==>
          var b := MasterOf(Lookup(was, n)).value;
          b in Gone(env, ds) <==> b !in env.now)
  }

  lemma {:induction false} BridgesGo(env: Env, ds: seq<IfDiff>, was: Config, b: Name)
    requires IsChange(env, ds, was) && Readable(env, ds) && b in was && was[b].link.Bridge? && b !in env.fixed
    ensures b in Gone(env, ds) <==> b !in env.now
  {
    if b !in env.now {
      assert Lookup(was, b) != Lookup(env.now, b);
      var i :| 0 <= i < |ds| && ds[i].name == b;
      assert b in Names(ds);
    }
    if b in Names(ds) {
      assert RecordsIface(env, ds[At(ds, b)], Lookup(was, b), Lookup(env.now, b));
    }
  }

  lemma {:induction false} BridgeFactsHold(env: Env, ds: seq<IfDiff>, was: Config, n: Name)
    requires IsChange(env, ds, was) && Readable(env, ds)
    ensures BridgeFacts(env, ds, was, n)
  {
    if n in was && was[n].bridge.Some? { BridgesGo(env, ds, was, was[n].bridge.value); }
  }

  lemma {:induction false} FactsHold(env: Env, ds: seq<IfDiff>, was: Config, out: Output, n: Name)
    requires IsChange(env, ds, was) && Readable(env, ds) && IsCompiled(env, ds, out)
    ensures Facts(env, ds, was, out, n)
  {
    FactsOfLinks(env, ds, was, n);
    BridgeFactsHold(env, ds, was, n);
    if n in Names(ds) {
      FactsOfDiff(env, ds, was, out, At(ds, n));
    } else {
      FactsOfOther(env, ds, was, n);
      assert Untouched(n, out);
    }
  }

  lemma {:induction false} FactsOfLinks(env: Env, ds: seq<IfDiff>, was: Config, n: Name)
    requires IsChange(env, ds, was)
    ensures n in was ==> WellFormedLink(was, env.fixed, n)
    ensures n in env.now ==> WellFormedLink(env.now, env.fixed, n)
    ensures n in was && n in env.now && !env.now[n].link.Vlan? ==>
              was[n].link == env.now[n].link || Repeered(was, env.now, n)
    ensures n in was && n in env.now && env.now[n].link.Vlan? ==> was[n].link.Vlan?
  {
  }

  lemma {:induction false} FactsOfDiff(env: Env, ds: seq<IfDiff>, was: Config, out: Output, i: nat)
    requires IsChange(env, ds, was) && Readable(env, ds) && IsCompiled(env, ds, out) && i < |ds|
    ensures CompiledAt(env, ds, i, out)
    ensures RecordsIface(env, ds[i], Lookup(was, ds[i].name), Lookup(env.now, ds[i].name))
    ensures Stays(env, ds, ds[i].name) <==> !Deleted(env, ds[i])
  {
  }

  lemma {:induction false} FactsOfOther(env: Env, ds: seq<IfDiff>, was: Config, n: Name)
    requires IsChange(env, ds, was) && n !in Names(ds)
    ensures Lookup(was, n) == Lookup(env.now, n) && !Stays(env, ds, n)
  {
    assert forall i :: 0 <= i < |ds| ==> ds[i].name in Names(ds);
  }

  /** The device after the exit scripts, if it is still there. */
  ghost function DevAfterExit(env: Env, ds: seq<IfDiff>, was: Config, out: Output, n: Name): Option<Dev>
    requires Readable(env, ds)
  {
    if n in AfterExit(env, ds, was, out) then Some(AfterExit(env, ds, was, out)[n]) else None
  }

  lemma {:induction false} DevAfterExitIs(env: Env, ds: seq<IfDiff>, was: Config, out: Output, n: Name)
    requires Readable(env, ds)
    ensures DevAfterExit(env, ds, was, out, n) ==
            if (n !in was && n !in env.fixed) || n in Gone(env, ds) || Remade(was, env.now, n) then None
            else Some(Parted(Dev(if n in env.fixed then Plain else was[n].link,
                                 if n in out.exit then {}
                                 else if Stays(env, ds, n) && n in env.now
                                 then Kept(env.now[n], AddrsOf(Lookup(was, n)))
                                 else AddrsOf(Lookup(was, n)),
                                 n !in out.exit && UpOf(Lookup(was, n)), MasterOf(Lookup(was, n))),
                             Gone(env, ds)))
  {
  }

  /** No family that stays enabled had addresses. */
  ghost predicate KeepsNone(was: Iface, now: Iface) {
    forall fam :: A.Enabled(now.Fam(fam)) ==> A.Target(fam, was.Fam(fam)) == {}
  }

  /** The device stays and so does its bridge, but it should no longer be a port of it. */
  ghost predicate Leaves(was: Config, now: Config, n: Name) {
    && n in was && was[n].bridge.Some? && was[n].bridge.value in now
    && if n in now then
         now[n].bridge == None && !Remade(was, now, n) && !(was[n].link.Vlan? && was[n].link != now[n].link)
       else was[n].link.Plain?
  }

  /** An end that gets another peer is made again, and had no addresses to keep; and no port leaves its bridge. */
  ghost predicate Fits(was: Config, now: Config, n: Name) {
    && (Repeered(was, now, n) ==> Remade(was, now, n) && KeepsNone(was[n], now[n]))
    && !Leaves(was, now, n)
  }

  /** After the exit scripts, everything is in place except what is to come. */
  lemma {:induction false} StartDevice(env: Env, ds: seq<IfDiff>, was: Config, out: Output, n: Name)
    requires Readable(env, ds) && Facts(env, ds, was, out, n) && Fits(was, env.now, n)
    ensures DevAfterExit(env, ds, was, out, n) ==
            if (n !in env.now && n !in env.fixed) || Comes(env, ds, was, n) then None
            else Some(SettledDev(env, ds, was, n, [], if n in env.fixed then Plain else env.now[n].link))
  {
    DevAfterExitIs(env, ds, was, out, n);
    if n in Names(ds) {
      StartChanged(env, ds, was, out, n);
    }
  }

  lemma {:induction false} StartChanged(env: Env, ds: seq<IfDiff>, was: Config, out: Output, n: Name)
    requires Readable(env, ds) && Facts(env, ds, was, out, n) && Fits(was, env.now, n) && n in Names(ds)
    ensures DevAfterExit(env, ds, was, out, n) ==
            if (n !in env.now && n !in env.fixed) || Comes(env, ds, was, n) then None
            else Some(SettledDev(env, ds, was, n, [], if n in env.fixed then Plain else env.now[n].link))
  {
    if n in env.now && !Recreates(env, ds[At(ds, n)]) {
      StartKept(env, ds, was, out, n);
    } else {
      DevAfterExitIs(env, ds, was, out, n);
      assert AddrsOf(None) == {};
    }
  }

  lemma {:induction false} StartKept(env: Env, ds: seq<IfDiff>, was: Config, out: Output, n: Name)
    requires Readable(env, ds) && Facts(env, ds, was, out, n) && Fits(was, env.now, n) && n in Names(ds)
    requires n in env.now && !Recreates(env, ds[At(ds, n)])
    ensures DevAfterExit(env, ds, was, out, n) ==
            if Comes(env, ds, was, n) then None
            else Some(SettledDev(env, ds, was, n, [], if n in env.fixed then Plain else env.now[n].link))
  {
    KeptFacts(env, ds, was, out, n);
    DevAfterExitIs(env, ds, was, out, n);
    if !Comes(env, ds, was, n) {
      KeptIsStart(env, ds[At(ds, n)], Lookup(was, n));
      StartMaster(env, ds, was, out, n);
    }
  }

  /** A changed device that is not created again: whether it is there after the exit scripts, and as what. */
  lemma {:induction false} KeptFacts(env: Env, ds: seq<IfDiff>, was: Config, out: Output, n: Name)
    requires Readable(env, ds) && Facts(env, ds, was, out, n) && Fits(was, env.now, n) && n in Names(ds)
    requires n in env.now && !Recreates(env, ds[At(ds, n)])
    ensures n !in out.exit && n !in Gone(env, ds) && Stays(env, ds, n)
    ensures Comes(env, ds, was, n) <==> (n !in was && n !in env.fixed) || Remade(was, env.now, n)
    ensures n !in env.fixed && !Comes(env, ds, was, n) ==> n in was && was[n].link == env.now[n].link
  {
  }

  /** The bridge that is left to a device after the exit scripts. */
  lemma {:induction false} StartMaster(env: Env, ds: seq<IfDiff>, was: Config, out: Output, n: Name)
    requires Readable(env, ds) && Facts(env, ds, was, out, n)
    ensures forall d: Dev :: d.master == MasterOf(Lookup(was, n)) ==>
              Parted(d, Gone(env, ds)) == d.(master := MasterLeft(was, env.now, n))
  {
  }

  lemma {:induction false} StartSame(env: Env, ds: seq<IfDiff>, was: Config, out: Output, n: Name)
    requires Readable(env, ds) && Facts(env, ds, was, out, n) && Fits(was, env.now, n)
    ensures n in AfterExit(env, ds, was, out) <==> n in Expected(env, ds, was, [])
    ensures n in AfterExit(env, ds, was, out) ==> AfterExit(env, ds, was, out)[n] == Expected(env, ds, was, [])[n]
  {
    StartDevice(env, ds, was, out, n);
    assert Comes(env, ds, was, n) ==> !Here(env, ds, was, n, []);
    assert DevAfterExit(env, ds, was, out, n).Some? <==> n in Expected(env, ds, was, []);
  }

  lemma {:induction false} ExpectedStart(env: Env, ds: seq<IfDiff>, was: Config, out: Output)
    requires IsChange(env, ds, was) && Readable(env, ds) && IsCompiled(env, ds, out)
    requires forall n :: Fits(was, env.now, n)
    ensures AfterExit(env, ds, was, out) == Expected(env, ds, was, [])
  {
    forall n ensures Facts(env, ds, was, out, n) { FactsHold(env, ds, was, out, n); }
    SameStart(env, ds, was, out);
  }

  lemma {:induction false} SameStart(env: Env, ds: seq<IfDiff>, was: Config, out: Output)
    requires Readable(env, ds) && forall n :: Facts(env, ds, was, out, n) && Fits(was, env.now, n)
    ensures AfterExit(env, ds, was, out) == Expected(env, ds, was, [])
  {
    var a, e := AfterExit(env, ds, was, out), Expected(env, ds, was, []);
    forall n ensures n in a <==> n in e ensures n in a ==> a[n] == e[n] {
      StartSame(env, ds, was, out, n);
    }
    assert a.Keys == e.Keys;
  }

  /** It is the turn of `n`: what it waits for is done, and a peer that waits for it is not. */
  ghost predicate Turn(env: Env, ds: seq<IfDiff>, was: Config, n: Name, done: seq<Name>)
    requires Readable(env, ds)
  {
    && n !in done && n in Names(ds) && n in env.now
    && (forall x :: x in Dependencies(env, ds[At(ds, n)], SkippedAt(env, ds, At(ds, n))) ==> x in done)
    && (NewEnd(env, ds, n) && !SkippedEnd(env, ds, n) ==> env.now[n].link.peer !in done)
    && (Remade(was, env.now, n) ==> env.now[n].link.peer in done)
  }

  lemma {:induction false} IsExpected(env: Env, ds: seq<IfDiff>, was: Config, done: seq<Name>, n: Name)
    requires Readable(env, ds) && n in env.now
    ensures n in Expected(env, ds, was, done) <==> (Comes(env, ds, was, n) ==> Here(env, ds, was, n, done))
    ensures n in Expected(env, ds, was, done) ==>
              Expected(env, ds, was, done)[n] == SettledDev(env, ds, was, n, done, Kind(env, n))
  {
  }

  lemma {:induction false} ReadyNow(env: Env, ds: seq<IfDiff>, was: Config, n: Name, done: seq<Name>)
    requires Readable(env, ds) && Turn(env, ds, was, n, done) && Paired(env, ds, was, n)
    requires WellFormedLink(env.now, env.fixed, n)
    requires NewEnd(env, ds, n) ==> Fits(was, env.now, env.now[n].link.peer)
    requires env.now[n].bridge.Some? ==>
               var b := env.now[n].bridge.value; b in env.now && b !in env.fixed && env.now[b].link.Bridge?
    ensures Ready(env, ds[At(ds, n)], SkippedAt(env, ds, At(ds, n)), Lookup(was, n), Expected(env, ds, was, done))
  {
    var k := Expected(env, ds, was, done);
    var i := At(ds, n);
    IsExpected(env, ds, was, done, n);
    match env.now[n].link
    case Vlan(p, _, _) => IsExpected(env, ds, was, done, p);
    case Veth(p) => IsExpected(env, ds, was, done, p);
    case _ =>
    if env.now[n].bridge.Some? {
      IsExpected(env, ds, was, done, env.now[n].bridge.value);
    }
  }

  /** Setting up `n` brings in `n`, and its peer if `n` makes the pair; others see no difference. */
  lemma {:induction false} HereAfter(env: Env, ds: seq<IfDiff>, was: Config, n: Name, m: Name, done: seq<Name>)
    requires Readable(env, ds) && m != n
    ensures Here(env, ds, was, m, done + [n]) <==>
            Here(env, ds, was, m, done) || (ComesWithPeer(env, ds, was, m) && env.now[m].link.peer == n)
  {
  }

  lemma {:induction false} OtherAfter(env: Env, ds: seq<IfDiff>, was: Config, n: Name, m: Name, done: seq<Name>)
    requires Readable(env, ds) && Paired(env, ds, was, n) && Paired(env, ds, was, m) && m != n
    requires !(NewEnd(env, ds, n) && !SkippedEnd(env, ds, n) && m == env.now[n].link.peer)
    ensures m in Expected(env, ds, was, done + [n]) <==> m in Expected(env, ds, was, done)
    ensures m in Expected(env, ds, was, done) ==>
              Expected(env, ds, was, done + [n])[m] == Expected(env, ds, was, done)[m]
  {
    HereAfter(env, ds, was, n, m, done);
    NotBrought(env, ds, was, n, m);
  }

  lemma {:induction false} NotBrought(env: Env, ds: seq<IfDiff>, was: Config, n: Name, m: Name)
    requires Readable(env, ds) && Paired(env, ds, was, n) && Paired(env, ds, was, m)
    requires !(NewEnd(env, ds, n) && !SkippedEnd(env, ds, n) && m == env.now[n].link.peer)
    ensures ComesWithPeer(env, ds, was, m) ==> env.now[m].link.peer != n
  {
  }

  /** An end that is made again starts without addresses. */
  lemma {:induction false} RemadeStarts(env: Env, d: IfDiff, was: Iface)
    requires d.name in env.now && OpAt(env, d) == OpNone && env.now[d.name].link.Veth? && !d.peer
    requires KeepsNone(was, env.now[d.name])
    ensures Starts(env, d, Some(was)) == {}
  {
    assert env.now[d.name].Fam(A.V4) == env.now[d.name].v4 && env.now[d.name].Fam(A.V6) == env.now[d.name].v6;
  }

  /** The peer that `n` brings along. */
  lemma {:induction false} PeerAfter(env: Env, ds: seq<IfDiff>, was: Config, out: Output, n: Name, done: seq<Name>)
    requires Readable(env, ds) && Turn(env, ds, was, n, done) && Paired(env, ds, was, n)
    requires NewEnd(env, ds, n) && !SkippedEnd(env, ds, n)
    requires Facts(env, ds, was, out, env.now[n].link.peer) && Fits(was, env.now, env.now[n].link.peer)
    ensures var p := env.now[n].link.peer;
            p in Expected(env, ds, was, done + [n]) && Expected(env, ds, was, done + [n])[p] == NewDev(Veth(n))
  {
    var p := env.now[n].link.peer;
    IsExpected(env, ds, was, done + [n], p);
    PeerStarts(env, ds, was, out, n);
  }

  lemma {:induction false} PeerStarts(env: Env, ds: seq<IfDiff>, was: Config, out: Output, n: Name)
    requires Readable(env, ds) && Paired(env, ds, was, n) && NewEnd(env, ds, n)
    requires Facts(env, ds, was, out, env.now[n].link.peer) && Fits(was, env.now, env.now[n].link.peer)
    ensures var p := env.now[n].link.peer; Starts(env, ds[At(ds, p)], Lookup(was, p)) == {}
  {
    var p := env.now[n].link.peer;
    if p in was {
      RemadeStarts(env, ds[At(ds, p)], was[p]);
    } else {
      StartsEmpty(env, ds[At(ds, p)], Lookup(was, p));
    }
  }

  ghost function SetUpOf(env: Env, ds: seq<IfDiff>, n: Name, k: State): State
    requires Readable(env, ds) && n in Names(ds) && n in env.now
  {
    var l := Added(env, ds[At(ds, n)], SkippedAt(env, ds, At(ds, n)), k);
    l[n := ConfiguredDev(env, n, l)]
  }

  lemma {:induction false} AfterSetup(env: Env, ds: seq<IfDiff>, was: Config, out: Output, n: Name, done: seq<Name>)
    requires Readable(env, ds) && Turn(env, ds, was, n, done) && (forall m :: Paired(env, ds, was, m))
    requires forall m :: Facts(env, ds, was, out, m) && Fits(was, env.now, m)
    ensures SetUpOf(env, ds, n, Expected(env, ds, was, done)) == Expected(env, ds, was, done + [n])
  {
    var e, r := Expected(env, ds, was, done + [n]), SetUpOf(env, ds, n, Expected(env, ds, was, done));
    forall m ensures m in r <==> m in e ensures m in r ==> r[m] == e[m] {
      assert Paired(env, ds, was, n) && Paired(env, ds, was, m);
      assert Facts(env, ds, was, out, m) && Fits(was, env.now, m);
      DeviceAfterSetup(env, ds, was, out, n, m, done);
    }
    assert r.Keys == e.Keys;
  }

  lemma {:induction false} DeviceAfterSetup(env: Env, ds: seq<IfDiff>, was: Config, out: Output, n: Name, m: Name,
                                            done: seq<Name>)
    requires Readable(env, ds) && Turn(env, ds, was, n, done) && Paired(env, ds, was, n) && Paired(env, ds, was, m)
    requires Facts(env, ds, was, out, m) && Fits(was, env.now, m)
    ensures var e, r := Expected(env, ds, was, done + [n]), SetUpOf(env, ds, n, Expected(env, ds, was, done));
            (m in r <==> m in e) && (m in r ==> r[m] == e[m])
  {
    if m == n {
      OwnAfter(env, ds, was, out, n, done);
    } else if NewEnd(env, ds, n) && !SkippedEnd(env, ds, n) && m == env.now[n].link.peer {
      PeerAfter(env, ds, was, out, n, done);
      SetUpOthers(env, ds, n, m, Expected(env, ds, was, done));
    } else {
      OtherAfter(env, ds, was, n, m, done);
      SetUpOthers(env, ds, n, m, Expected(env, ds, was, done));
    }
  }

  /** What setting up `n` does to another device: nothing, unless it is the peer that comes with it. */
  lemma {:induction false} SetUpOthers(env: Env, ds: seq<IfDiff>, n: Name, m: Name, k: State)
    requires Readable(env, ds) && n in Names(ds) && n in env.now && m != n
    ensures var r := SetUpOf(env, ds, n, k);
            if NewEnd(env, ds, n) && !SkippedEnd(env, ds, n) && m == env.now[n].link.peer
            then m in r && r[m] == NewDev(Veth(n))
            else (m in r <==> m in k) && (m in r ==> r[m] == k[m])
  {
  }

  lemma {:induction false} OwnAfter(env: Env, ds: seq<IfDiff>, was: Config, out: Output, n: Name, done: seq<Name>)
    requires Readable(env, ds) && Turn(env, ds, was, n, done) && Paired(env, ds, was, n)
    requires Facts(env, ds, was, out, n) && Fits(was, env.now, n)
    ensures var e, r := Expected(env, ds, was, done + [n]), SetUpOf(env, ds, n, Expected(env, ds, was, done));
            n in r && n in e && r[n] == e[n]
  {
    IsExpected(env, ds, was, done + [n], n);
    OwnMaster(env, ds, was, out, n, done);
  }

  /** Without a bridge in its configuration, the device has none when its turn comes. */
  lemma {:induction false} OwnMaster(env: Env, ds: seq<IfDiff>, was: Config, out: Output, n: Name, done: seq<Name>)
    requires Readable(env, ds) && Turn(env, ds, was, n, done) && Paired(env, ds, was, n)
    requires Facts(env, ds, was, out, n) && Fits(was, env.now, n)
    ensures var l := Added(env, ds[At(ds, n)], SkippedAt(env, ds, At(ds, n)), Expected(env, ds, was, done));
            env.now[n].bridge == None ==> ConfiguredDev(env, n, l).master == None
  {
    IsExpected(env, ds, was, done, n);
  }

  /** A node without an init script changes nothing. */
  lemma {:induction false} NoScript(env: Env, ds: seq<IfDiff>, was: Config, n: Name, done: seq<Name>)
    requires Readable(env, ds) && (forall m :: Paired(env, ds, was, m))
    requires n !in Names(ds) || (Deleted(env, ds[At(ds, n)]) && n !in env.now)
    ensures Expected(env, ds, was, done + [n]) == Expected(env, ds, was, done)
  {
    var k, e := Expected(env, ds, was, done), Expected(env, ds, was, done + [n]);
    forall m ensures m in k <==> m in e ensures m in k ==> k[m] == e[m] {
      assert Paired(env, ds, was, m);
      if m != n { HereAfter(env, ds, was, n, m, done); }
    }
    assert k.Keys == e.Keys;
  }

  ghost predicate WellFormedIface(c: Config, fixed: set<Name>, n: Name)
    requires n in c
  {
    && WellFormedLink(c, fixed, n) && ValidIface(Some(c[n]))
    && (c[n].bridge.Some? ==> var b := c[n].bridge.value; b in c && b !in fixed && c[b].link.Bridge?)
  }

  /** All that is known about a change and its compilation, name by name. */
  ghost predicate Known(env: Env, ds: seq<IfDiff>, was: Config, out: Output) {
    && Readable(env, ds)
    && (forall n :: Facts(env, ds, was, out, n))
    && (forall n :: Paired(env, ds, was, n))
    && (forall n :: n in was ==> ValidIface(Some(was[n])))
    && (forall n :: n in env.now ==> WellFormedIface(env.now, env.fixed, n))
    && out.deps.Keys == env.now.Keys + Names(ds)
  }

  lemma {:induction false} AllKnown(env: Env, ds: seq<IfDiff>, was: Config, out: Output)
    requires IsChange(env, ds, was) && Readable(env, ds) && IsCompiled(env, ds, out)
    ensures Known(env, ds, was, out)
  {
    forall n ensures Facts(env, ds, was, out, n) { FactsHold(env, ds, was, out, n); }
    forall n ensures Paired(env, ds, was, n) { OneEndIsSkipped(env, ds, was, n); }
    AllWellFormed(env, ds, was);
  }

  lemma {:induction false} AllWellFormed(env: Env, ds: seq<IfDiff>, was: Config)
    requires IsChange(env, ds, was)
    ensures forall n :: n in was ==> ValidIface(Some(was[n]))
    ensures forall n :: n in env.now ==> WellFormedIface(env.now, env.fixed, n)
  {
  }

  /** What a change needs besides its dependencies: ends that are made again come after the peers that make them. */
  ghost predicate Suits(was: Config, now: Config, order: seq<Name>) {
    forall n :: Fits(was, now, n) && (Remade(was, now, n) ==> Before(order, now[n].link.peer, n))
  }

  /** In a topological order of the dependencies, every interface gets its turn. */
  lemma {:induction false} ItsTurn(env: Env, ds: seq<IfDiff>, was: Config, out: Output, order: seq<Name>, i: nat)
    requires Known(env, ds, was, out) && NoDup(order) && Topological(out.deps, order) && Suits(was, env.now, order)
    requires i < |order| && order[i] in Names(ds) && order[i] in env.now
    ensures Turn(env, ds, was, order[i], order[..i])
  {
    var n := order[i];
    var k := At(ds, n);
    assert Facts(env, ds, was, out, n) && Paired(env, ds, was, n);
    forall x | x in Dependencies(env, ds[k], SkippedAt(env, ds, k)) ensures x in order[..i] {
      IsDependency(env, ds, was, out, n, x);
    }
    if NewEnd(env, ds, n) && !SkippedEnd(env, ds, n) { PeerWaits(env, ds, was, out, order, i); }
    if Remade(was, env.now, n) { BeforeAt(order, env.now[n].link.peer, i); }
  }

  lemma {:induction false} IsDependency(env: Env, ds: seq<IfDiff>, was: Config, out: Output, n: Name, x: Name)
    requires Known(env, ds, was, out) && n in Names(ds) && n in env.now
    requires x in Dependencies(env, ds[At(ds, n)], SkippedAt(env, ds, At(ds, n)))
    ensures Edge(out.deps, n, x)
  {
    assert Facts(env, ds, was, out, n) && Paired(env, ds, was, n) && WellFormedIface(env.now, env.fixed, n);
    DependencyIsThere(env, ds, was, n, x);
  }

  lemma {:induction false} DependencyIsThere(env: Env, ds: seq<IfDiff>, was: Config, n: Name, x: Name)
    requires Readable(env, ds) && n in Names(ds) && n in env.now
    requires Paired(env, ds, was, n) && WellFormedIface(env.now, env.fixed, n)
    requires x in Dependencies(env, ds[At(ds, n)], SkippedAt(env, ds, At(ds, n)))
    ensures x in env.now
  {
  }

  lemma {:induction false} PeerWaits(env: Env, ds: seq<IfDiff>, was: Config, out: Output, order: seq<Name>, i: nat)
    requires Known(env, ds, was, out) && NoDup(order) && Topological(out.deps, order) && Suits(was, env.now, order)
    requires i < |order| && NewEnd(env, ds, order[i]) && !SkippedEnd(env, ds, order[i])
    ensures env.now[order[i]].link.peer !in order[..i]
  {
    var n := order[i];
    var p := env.now[n].link.peer;
    assert Paired(env, ds, was, n) && Facts(env, ds, was, out, p);
    if p in was {
      assert Fits(was, env.now, p);
      BeforeAt(order, p, i);
    } else {
      assert Edge(out.deps, p, n);
    }
  }

  lemma {:induction false} InitStep(env: Env, ds: seq<IfDiff>, was: Config, out: Output, n: Name, done: seq<Name>)
    requires Known(env, ds, was, out) && n in out.init && Turn(env, ds, was, n, done)
    requires forall m :: Fits(was, env.now, m)
    ensures Exec(Expected(env, ds, was, done), out.init[n]) == Some(Expected(env, ds, was, done + [n]))
  {
    var i := At(ds, n);
    assert Facts(env, ds, was, out, n) && Paired(env, ds, was, n) && WellFormedIface(env.now, env.fixed, n);
    ReadyNow(env, ds, was, n, done);
    InitRuns(env, ds[i], SkippedAt(env, ds, i), Lookup(was, n), Expected(env, ds, was, done));
    AfterSetup(env, ds, was, out, n, done);
  }

  lemma {:induction false} InitTurn(env: Env, ds: seq<IfDiff>, was: Config, out: Output, order: seq<Name>, i: nat)
    requires Known(env, ds, was, out) && NoDup(order) && Topological(out.deps, order) && Suits(was, env.now, order)
    requires i < |order|
    ensures Brings(Expected(env, ds, was, order[..i]), Expected(env, ds, was, order[..i] + [order[i]]),
                   order[i], out.init)
  {
    assert Facts(env, ds, was, out, order[i]);
    if order[i] in out.init {
      ItsTurn(env, ds, was, out, order, i);
      assert forall m :: Fits(was, env.now, m);
      InitStep(env, ds, was, out, order[i], order[..i]);
    } else {
      NoScript(env, ds, was, order[i], order[..i]);
    }
  }

  /** The kernel before and after each of `order`. */
  ghost function Stages(env: Env, ds: seq<IfDiff>, was: Config, order: seq<Name>): seq<State>
    requires Readable(env, ds)
  {
    seq(|order| + 1, i requires 0 <= i <= |order| => Expected(env, ds, was, order[..i]))
  }

  ghost predicate Brings(k: State, l: State, n: Name, scripts: map<Name, seq<Cmd>>) {
    if n in scripts then Exec(k, scripts[n]) == Some(l) else k == l
  }

  lemma {:induction false} RunsThrough(ks: seq<State>, order: seq<Name>, scripts: map<Name, seq<Cmd>>)
    requires BringsAll(ks, order, scripts)
    ensures RunScripts(ks[0], order, scripts) == Some(ks[|order|])
  {
    if order == [] {
    } else {
      RunsThrough(ks[..|order|], order[..|order| - 1], scripts);
      assert Brings(ks[|order| - 1], ks[|order| - 1 + 1], order[|order| - 1], scripts);
    }
  }

  /** The init scripts of a topological order bring up the new configuration. */
  lemma {:induction false} InitPhase(env: Env, ds: seq<IfDiff>, was: Config, out: Output, order: seq<Name>)
    requires Known(env, ds, was, out) && NoDup(order) && Topological(out.deps, order) && Suits(was, env.now, order)
    ensures RunScripts(Expected(env, ds, was, []), order, out.init) == Some(Expected(env, ds, was, order))
  {
    var ks := Stages(env, ds, was, order);
    EachBrings(env, ds, was, out, order);
    RunsThrough(ks, order, out.init);
    assert order[..0] == [] && order[..|order|] == order;
  }

  lemma {:induction false} EachBrings(env: Env, ds: seq<IfDiff>, was: Config, out: Output, order: seq<Name>)
    requires Known(env, ds, was, out) && NoDup(order) && Topological(out.deps, order) && Suits(was, env.now, order)
    ensures BringsAll(Stages(env, ds, was, order), order, out.init)
  {
    var ks := Stages(env, ds, was, order);
    forall i | 0 <= i < |order| ensures Brings(ks[i], ks[i + 1], order[i], out.init) {
      InitTurn(env, ds, was, out, order, i);
      assert order[..i + 1] == order[..i] + [order[i]];
    }
  }

  ghost predicate BringsAll(ks: seq<State>, order: seq<Name>, scripts: map<Name, seq<Cmd>>) {
    |ks| == |order| + 1 && forall i :: 0 <= i < |order| ==> Brings(ks[i], ks[i + 1], order[i], scripts)
  }

  lemma {:induction false} ExpectedEnd(env: Env, ds: seq<IfDiff>, was: Config, done: seq<Name>)
    requires Readable(env, ds) && forall n :: n in env.now || n in Names(ds) ==> n in done
    ensures Expected(env, ds, was, done) == Meaning(env.now, env.fixed)
  {
  }

  // ---------- the whole change ----------

  /** The kernel after a committed change, or None if some command failed. */
  ghost function Committed(env: Env, out: Output, k: State, ex: seq<Name>, listing: seq<Name>): Option<State>
    requires Acyclic(out.deps)
  {
    match RunScripts(FlushEach(k, out.flushes), ex, out.exit)
    case None => None
    case Some(l) => RunScripts(l, Order(out.deps, listing), out.init)
  }

  /**
   A change compiled from any diff that records it, in any order of its interfaces, takes
   the kernel from the old configuration to the new one without a failing command, if the
   exit scripts take nothing along that is not meant to go, every veth end that gets another
   peer loses its old one and comes, without addresses to keep, after its new one, and no port
   leaves a bridge that stays.
   */
  lemma {:induction false} CommitCorrect(env: Env, ds: seq<IfDiff>, was: Config, out: Output, ex: seq<Name>,
                                         listing: seq<Name>)
    requires IsChange(env, ds, was) && Readable(env, ds) && IsCompiled(env, ds, out) && Acyclic(out.deps)
    requires NoDup(ex) && Covers(was, ex)
    requires forall n :: n in out.deps ==> n in listing
    requires Orderly(Meaning(was, env.fixed), ex, Gone(env, ds), Along(was, env.now))
    requires Suits(was, env.now, Order(out.deps, listing))
    ensures Committed(env, out, Meaning(was, env.fixed), ex, listing) == Some(Meaning(env.now, env.fixed))
  {
    FirstHalf(env, ds, was, out, ex);
    AllKnown(env, ds, was, out);
    SecondHalf(env, ds, was, out, listing);
  }

  lemma {:induction false} FirstHalf(env: Env, ds: seq<IfDiff>, was: Config, out: Output, ex: seq<Name>)
    requires IsChange(env, ds, was) && Readable(env, ds) && IsCompiled(env, ds, out)
    requires NoDup(ex) && Covers(was, ex) && forall n :: Fits(was, env.now, n)
    requires Orderly(Meaning(was, env.fixed), ex, Gone(env, ds), Along(was, env.now))
    ensures RunScripts(FlushEach(Meaning(was, env.fixed), out.flushes), ex, out.exit) ==
            Some(Expected(env, ds, was, []))
  {
    FlushesAre(env, ds, Meaning(was, env.fixed));
    ExitPhase(env, ds, was, out, ex);
    ExpectedStart(env, ds, was, out);
  }

  lemma {:induction false} SecondHalf(env: Env, ds: seq<IfDiff>, was: Config, out: Output, listing: seq<Name>)
    requires Known(env, ds, was, out) && Acyclic(out.deps) && forall n :: n in out.deps ==> n in listing
    requires Suits(was, env.now, Order(out.deps, listing))
    ensures RunScripts(Expected(env, ds, was, []), Order(out.deps, listing), out.init) ==
            Some(Meaning(env.now, env.fixed))
  {
    var order := Order(out.deps, listing);
    OrderIsTopological(out.deps, listing);
    InitPhase(env, ds, was, out, order);
    ExpectedEnd(env, ds, was, order);
  }
}
