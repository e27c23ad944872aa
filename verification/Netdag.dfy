/** The compiler at work: it writes scripts, dependency links and skip markers as it goes through the diffs. */
module Netdag {
  import opened DepOrder
  import opened Options
  import opened Lyx
  import opened Kernel
  import opened Interfaces
  import A = Addresses

  /** The next generation's directory, the current one's exit scripts, and the flushes done on the spot. */
  datatype Output = Output(skip: set<Name>, deps: Graph, exit: map<Name, seq<Cmd>>, init: map<Name, seq<Cmd>>,
                           flushes: seq<(Name, A.Fam)>)

  function FlushesOf(env: Env, n: Name): seq<(Name, A.Fam)>
    requires n in env.now
  {
    (if A.Enabled(env.now[n].v4) then [] else [(n, A.V4)]) + if A.Enabled(env.now[n].v6) then [] else [(n, A.V6)]
  }

  /** The diff and the configuration give the interface's address commands. */
  predicate FamReady(env: Env, d: IfDiff) {
    && d.name in env.now
    && ValidFamily(env.now[d.name].v4) && FamCmds(env, d, A.V4).Some?
    && ValidFamily(env.now[d.name].v6) && FamCmds(env, d, A.V6).Some?
  }

  /**
   The compiler can handle the interface, which does or does not come along with its peer. It
   knows how to make the device, and no link is made twice.
   */
  predicate Supported(env: Env, d: IfDiff, skipped: bool) {
    Deleted(env, d) ||
    (&& FamReady(env, d)
     && match env.now[d.name].link
        case Plain => d.name in env.fixed
        case Bridge => true
        case Veth(p) => Adds(env, d) && skipped ==> env.now[d.name].bridge != Some(p)
        case Vlan(p, tag, _) =>
          d.name in env.fixed ||
          ((Adds(env, d) || d.outerTag ==> tag != OtherTag) && env.now[d.name].bridge != Some(p)))
  }

  function InitOf(env: Env, d: IfDiff, skipped: bool): seq<Cmd>
    requires FamReady(env, d)
  {
    InitScript(env, d, skipped, FamCmds(env, d, A.V4).value, FamCmds(env, d, A.V6).value)
  }

  // ---------- how far the script of an interface gets ----------

  predicate AddReady(env: Env, d: IfDiff)
    requires d.name in env.now
  {
    match env.now[d.name].link
    case Plain => !Adds(env, d)
    case Vlan(_, tag, _) => Adds(env, d) ==> tag != OtherTag
    case _ => true
  }

  predicate BridgeReady(env: Env, d: IfDiff, skipped: bool)
    requires d.name in env.now
  {
    env.now[d.name].bridge.Some? && Adds(env, d) ==> env.now[d.name].bridge.value !in LinkDep(env, d, skipped)
  }

  predicate SetReady(env: Env, d: IfDiff)
    requires d.name in env.now
  {
    Adds(env, d) || d.name in env.fixed ||
    match env.now[d.name].link
    case Plain => false
    case Vlan(parent, tag, _) => env.now[d.name].bridge != Some(parent) && (d.outerTag ==> tag != OtherTag)
    case _ => true
  }

  /** The whole lines of the link part that are written, up to the first thing that fails. */
  function LinkLines(env: Env, d: IfDiff, skipped: bool): seq<Cmd>
    requires d.name in env.now
  {
    if !AddReady(env, d) then [] else
    if !BridgeReady(env, d, skipped) then AddPart(env, d, skipped) else
      AddPart(env, d, skipped) + [SetDown(d.name, env.now[d.name].bridge)] +
      if SetReady(env, d) then SetPart(env, d) else []
  }

  function AddrLines(fam: A.Fam, n: Name, ds: seq<A.AddrDiff>, above: Chain): seq<A.Cmd> {
    if ds == [] then [] else
      var rest, last := ds[..|ds| - 1], A.GenDiffAddr(fam, n, ds[|ds| - 1], above);
      AddrLines(fam, n, rest, above) +
      if A.GenDiffAddrs(fam, n, rest, above).Some? && last.Some? then last.value else []
  }

  function FamLines(env: Env, d: IfDiff, fam: A.Fam): seq<A.Cmd>
    requires d.name in env.now && ValidFamily(env.now[d.name].Fam(fam))
  {
    var (diff, above) := FamSource(env, d, fam);
    if FamCmds(env, d, fam).Some? then FamCmds(env, d, fam).value
    else if diff.Some? then AddrLines(fam, d.name, diff.value.addrs, [diff.value.op] + above) else []
  }

  /** The lines of an init script up to the first thing that fails, or up to the line that takes the device up. */
  function Begun(env: Env, d: IfDiff, skipped: bool): seq<Cmd>
    requires d.name in env.now && ValidFamily(env.now[d.name].v4) && ValidFamily(env.now[d.name].v6)
  {
    LinkLines(env, d, skipped) +
    if !LinkReady(env, d, skipped) then []
    else OnDev(d.name, FamLines(env, d, A.V4)) +
         if FamCmds(env, d, A.V4).Some? then OnDev(d.name, FamLines(env, d, A.V6)) else []
  }

  predicate LinkReady(env: Env, d: IfDiff, skipped: bool)
    requires d.name in env.now
  {
    AddReady(env, d) && BridgeReady(env, d, skipped) && SetReady(env, d)
  }

  /** An interface is supported exactly if nothing fails ... */
  lemma {:induction false} SupportedIff(env: Env, d: IfDiff, skipped: bool)
    requires !Deleted(env, d) && d.name in env.now
    ensures Supported(env, d, skipped) <==> LinkReady(env, d, skipped) && FamReady(env, d)
  {
  }

  /** ... and then all of its script is written, and not only its beginning. */
  lemma {:induction false} SupportedIsWritten(env: Env, d: IfDiff, skipped: bool)
    requires !Deleted(env, d) && FamReady(env, d) && LinkReady(env, d, skipped)
    ensures InitOf(env, d, skipped) == Begun(env, d, skipped) + if env.now[d.name].up then [SetUp(d.name)] else []
  {
    Regroup(AddPart(env, d, skipped), [SetDown(d.name, env.now[d.name].bridge)], SetPart(env, d),
            OnDev(d.name, FamLines(env, d, A.V4)), OnDev(d.name, FamLines(env, d, A.V6)),
            if env.now[d.name].up then [SetUp(d.name)] else []);
  }

  lemma {:induction false} WrittenIs(env: Env, d: IfDiff, skipped: bool, script: seq<Cmd>)
    requires !Deleted(env, d) && d.name in env.now
    requires ValidFamily(env.now[d.name].v4) && ValidFamily(env.now[d.name].v6)
    requires if !LinkReady(env, d, skipped) then script == LinkLines(env, d, skipped)
             else script == Begun(env, d, skipped) +
                            (if env.now[d.name].up && FamReady(env, d) then [SetUp(d.name)] else [])
    ensures LinkReady(env, d, skipped) && FamReady(env, d) ==> script == InitOf(env, d, skipped)
    ensures !(LinkReady(env, d, skipped) && FamReady(env, d)) ==> script == Begun(env, d, skipped)
  {
    if LinkReady(env, d, skipped) && FamReady(env, d) {
      SupportedIsWritten(env, d, skipped);
    } else {
      assert script + [] == script;
    }
  }

  lemma {:induction false} BegunWith(env: Env, d: IfDiff, skipped: bool, lines: seq<Cmd>, v4: seq<Cmd>, v6: seq<Cmd>)
    requires d.name in env.now && ValidFamily(env.now[d.name].v4) && ValidFamily(env.now[d.name].v6)
    requires LinkReady(env, d, skipped) && lines == LinkLines(env, d, skipped)
    requires v4 == OnDev(d.name, FamLines(env, d, A.V4))
    requires FamCmds(env, d, A.V4).Some? ==> v6 == OnDev(d.name, FamLines(env, d, A.V6))
    ensures Begun(env, d, skipped) == lines + (if FamCmds(env, d, A.V4).Some? then v4 + v6 else v4)
  {
    assert v4 + [] == v4;
  }

  lemma {:induction false} Regroup(a: seq<Cmd>, b: seq<Cmd>, c: seq<Cmd>, d: seq<Cmd>, e: seq<Cmd>, f: seq<Cmd>)
    ensures a + (b + c + d + e + f) == a + b + c + (d + e) + f
  {
  }

  /** What handling the diff of one interface does. */
  ghost predicate Step(env: Env, d: IfDiff, a: Output, b: Output) {
    if Deleted(env, d) then b == a.(exit := a.exit[d.name := ExitScript(env, d.name)])
    else
      && FamReady(env, d) && d.name in a.deps
      && var skipped := d.name in a.skip;
      && b.exit == (if Recreates(env, d) then a.exit[d.name := ExitScript(env, d.name)] else a.exit)
      && b.init == a.init[d.name := InitOf(env, d, skipped)]
      && b.skip == (if Adds(env, d) && env.now[d.name].link.Veth? && !skipped
                    then a.skip + {env.now[d.name].link.peer} else a.skip)
      && b.flushes == a.flushes + FlushesOf(env, d.name)
      && b.deps.Keys == a.deps.Keys && (forall n :: n in a.deps && n != d.name ==> b.deps[n] == a.deps[n])
      && forall x :: x in b.deps[d.name] <==> x in a.deps[d.name] || x in Dependencies(env, d, skipped)
  }

  // ---------- what the whole run produces ----------

  function Names(ds: seq<IfDiff>): set<Name> {
    set i | 0 <= i < |ds| :: ds[i].name
  }

  /** Every interface diffed is deleted or configured, and diffed once. */
  ghost predicate Readable(env: Env, ds: seq<IfDiff>) {
    && (forall i :: 0 <= i < |ds| ==>
          Deleted(env, ds[i]) ||
          (ds[i].name in env.now && ValidFamily(env.now[ds[i].name].v4) && ValidFamily(env.now[ds[i].name].v6)))
    && forall i, j :: 0 <= i < j < |ds| ==> ds[i].name != ds[j].name
  }

  /** Whether the device of diff `k` comes along with a peer created before. */
  ghost predicate SkippedAt(env: Env, ds: seq<IfDiff>, k: nat)
    requires Readable(env, ds) && k < |ds|
  {
    ds[k].name in Skips(env, ds[..k])
  }

  /** The scripts and dependencies of diff `k`. */
  ghost predicate CompiledAt(env: Env, ds: seq<IfDiff>, k: nat, out: Output)
    requires Readable(env, ds) && k < |ds|
  {
    var d := ds[k];
    && d.name in out.deps
    && if Deleted(env, d) then
         && d.name !in out.init && d.name in out.exit && out.exit[d.name] == ExitScript(env, d.name)
         && out.deps[d.name] == []
       else
         && FamReady(env, d)
         && d.name in out.init && out.init[d.name] == InitOf(env, d, SkippedAt(env, ds, k))
         && (d.name in out.exit <==> Recreates(env, d))
         && (d.name in out.exit ==> out.exit[d.name] == ExitScript(env, d.name))
         && forall x :: x in out.deps[d.name] <==> x in Dependencies(env, d, SkippedAt(env, ds, k))
  }

  /** Nothing has been written for an interface. */
  ghost predicate Untouched(n: Name, out: Output) {
    n !in out.init && n !in out.exit && (n in out.deps ==> out.deps[n] == [])
  }

  function AllFlushes(env: Env, ds: seq<IfDiff>): seq<(Name, A.Fam)>
    requires forall i :: 0 <= i < |ds| ==> Deleted(env, ds[i]) || ds[i].name in env.now
  {
    if ds == [] then [] else
      AllFlushes(env, ds[..|ds| - 1]) +
      if Deleted(env, ds[|ds| - 1]) then [] else FlushesOf(env, ds[|ds| - 1].name)
  }

  ghost predicate IsCompiled(env: Env, ds: seq<IfDiff>, out: Output)
    requires Readable(env, ds)
  {
    && (forall k :: 0 <= k < |ds| ==> CompiledAt(env, ds, k, out))
    && out.deps.Keys == env.now.Keys + Names(ds)
    && (forall n :: n !in Names(ds) ==> Untouched(n, out))
    && out.flushes == AllFlushes(env, ds)
  }

  lemma {:induction false} StepKeeps(env: Env, ds: seq<IfDiff>, k: nat, i: nat, a: Output, b: Output)
    requires Readable(env, ds) && i < k < |ds| && CompiledAt(env, ds, i, a) && Step(env, ds[k], a, b)
    ensures CompiledAt(env, ds, i, b)
  {
  }

  lemma {:induction false} StepMakes(env: Env, ds: seq<IfDiff>, k: nat, a: Output, b: Output)
    requires Readable(env, ds) && k < |ds| && Step(env, ds[k], a, b)
    requires a.skip == Skips(env, ds[..k]) && Untouched(ds[k].name, a) && ds[k].name in a.deps
    ensures CompiledAt(env, ds, k, b)
    ensures forall n :: n != ds[k].name && Untouched(n, a) ==> Untouched(n, b)
  {
  }

  lemma {:induction false} StepSkips(env: Env, ds: seq<IfDiff>, k: nat, a: Output, b: Output)
    requires Readable(env, ds) && k < |ds| && Step(env, ds[k], a, b) && a.skip == Skips(env, ds[..k])
    ensures b.skip == Skips(env, ds[..k + 1])
  {
    assert ds[..k + 1][..k] == ds[..k];
  }

  /** The first `k` diffs are compiled and the others untouched. */
  ghost predicate Progress(env: Env, ds: seq<IfDiff>, k: nat, out: Output)
    requires Readable(env, ds) && k <= |ds|
  {
    && out.skip == Skips(env, ds[..k]) && out.deps.Keys == env.now.Keys + Names(ds)
    && (forall i :: 0 <= i < k ==> CompiledAt(env, ds, i, out))
    && (forall i :: k <= i < |ds| ==> Untouched(ds[i].name, out))
    && (forall n :: n !in Names(ds) ==> Untouched(n, out))
    && out.flushes == AllFlushes(env, ds[..k])
  }

  lemma {:induction false} ProgressStep(env: Env, ds: seq<IfDiff>, k: nat, a: Output, b: Output)
    requires Readable(env, ds) && k < |ds| && Progress(env, ds, k, a) && Step(env, ds[k], a, b)
    ensures Progress(env, ds, k + 1, b)
  {
    assert ds[k].name in Names(ds);
    StepMakes(env, ds, k, a, b);
    StepSkips(env, ds, k, a, b);
    StepFlushes(env, ds, k, a, b);
    forall i | 0 <= i < k ensures CompiledAt(env, ds, i, b) {
      StepKeeps(env, ds, k, i, a, b);
    }
    assert b.deps.Keys == a.deps.Keys;
  }

  lemma {:induction false} StepFlushes(env: Env, ds: seq<IfDiff>, k: nat, a: Output, b: Output)
    requires Readable(env, ds) && k < |ds| && Step(env, ds[k], a, b) && a.flushes == AllFlushes(env, ds[..k])
    ensures b.flushes == AllFlushes(env, ds[..k + 1])
  {
    assert ds[..k + 1][..k] == ds[..k];
  }

  lemma {:induction false} ProgressEnd(env: Env, ds: seq<IfDiff>, out: Output)
    requires Readable(env, ds) && Progress(env, ds, |ds|, out)
    ensures IsCompiled(env, ds, out)
  {
    assert ds[..|ds|] == ds;
  }

  ghost predicate LinksOnlyAt(n: Name, a: Graph, b: Graph) {
    b.Keys == a.Keys && forall x :: x in a && x != n ==> b[x] == a[x]
  }

  /** Between the two outputs, only what is written for `n` may differ. */
  ghost predicate OnlyAt(n: Name, a: Output, b: Output) {
    && LinksOnlyAt(n, a.deps, b.deps)
    && (forall x :: x != n ==> (x in b.init <==> x in a.init) && (x in a.init ==> b.init[x] == a.init[x]))
    && (forall x :: x != n ==> (x in b.exit <==> x in a.exit) && (x in a.exit ==> b.exit[x] == a.exit[x]))
  }

  lemma {:induction false} TouchesOnly(n: Name, a: Output, b: Output, init: seq<Cmd>, exit: seq<Cmd>)
    requires LinksOnlyAt(n, a.deps, b.deps)
    requires b.init == a.init || b.init == a.init[n := init]
    requires b.exit == a.exit || b.exit == a.exit[n := exit]
    ensures OnlyAt(n, a, b)
  {
  }

  /** Diff `k` is the first to be refused: those before it are compiled, and nothing is written for those after it. */
  ghost predicate StoppedAt(env: Env, ds: seq<IfDiff>, k: nat, out: Output)
    requires Readable(env, ds) && k < |ds|
  {
    && !Supported(env, ds[k], SkippedAt(env, ds, k))
    && (forall i :: 0 <= i < k ==> Supported(env, ds[i], SkippedAt(env, ds, i)) && CompiledAt(env, ds, i, out))
    && (forall i :: k < i < |ds| ==> Untouched(ds[i].name, out))
    && ds[k].name in out.init && out.init[ds[k].name] == Begun(env, ds[k], SkippedAt(env, ds, k))
  }

  lemma {:induction false} StopsAt(env: Env, ds: seq<IfDiff>, k: nat, a: Output, b: Output)
    requires Readable(env, ds) && k < |ds| && Progress(env, ds, k, a)
    requires forall i :: 0 <= i < k ==> Supported(env, ds[i], SkippedAt(env, ds, i))
    requires !Supported(env, ds[k], SkippedAt(env, ds, k)) && OnlyAt(ds[k].name, a, b)
    requires ds[k].name in b.init && b.init[ds[k].name] == Begun(env, ds[k], SkippedAt(env, ds, k))
    ensures StoppedAt(env, ds, k, b)
  {
    forall i | 0 <= i < k ensures CompiledAt(env, ds, i, b) {
      assert ds[i].name != ds[k].name;
      assert CompiledAt(env, ds, i, a);
    }
  }

  class Compiler {
    const env: Env
    var skip: set<Name>
    var deps: Graph
    var exit: map<Name, seq<Cmd>>
    var init: map<Name, seq<Cmd>>
    var flushes: seq<(Name, A.Fam)>

    ghost function Out(): Output reads this { Output(skip, deps, exit, init, flushes) }

    /** A new generation with a node for every interface of the configuration and of the diff. */
    constructor (env: Env, names: set<Name>)
      ensures this.env == env
      ensures Out() == Output({}, map n | n in env.now.Keys + names :: [], map[], map[], [])
    {
      this.env := env;
      skip, exit, init, flushes := {}, map[], map[], [];
      deps := map n | n in env.now.Keys + names :: [];
    }

    /** Linking twice to the same dependee fails. */
    method AddDep(depender: Name, dependee: Name) returns (ok: bool)
      requires depender in deps
      modifies `deps
      ensures ok <==> dependee !in old(deps)[depender]
      ensures deps == if ok then old(deps)[depender := old(deps)[depender] + [dependee]] else old(deps)
    {
      ok := dependee !in deps[depender];
      if ok { deps := deps[depender := deps[depender] + [dependee]]; }
    }

    method GenVeth(n: Name, peer: Name) returns (ok: bool, ip: seq<Cmd>)
      requires n in deps
      modifies `skip, `deps
      ensures n in old(skip) ==>
                skip == old(skip) && ip == [] && (ok <==> peer !in old(deps)[n]) &&
                deps == if ok then old(deps)[n := old(deps)[n] + [peer]] else old(deps)
      ensures n !in old(skip) ==> ok && skip == old(skip) + {peer} && deps == old(deps) && ip == [AddVeth(n, peer)]
    {
      ok, ip := true, [];
      if n in skip {
        ok := AddDep(n, peer);
      } else {
        skip := skip + {peer};
        ip := [AddVeth(n, peer)];
      }
    }

    /** `tagged` says whether the tree read for the outer tag has one. */
    method GenVlan(n: Name, tagged: bool) returns (ok: bool, ip: seq<Cmd>)
      requires n in deps && n in env.now && env.now[n].link.Vlan?
      modifies `deps
      ensures ok <==> env.now[n].link.parent !in old(deps)[n] && (tagged ==> env.now[n].link.tag != OtherTag)
      ensures LinksOnlyAt(n, old(deps), deps)
      ensures ok ==> deps == old(deps)[n := old(deps)[n] + [env.now[n].link.parent]]
      ensures ok ==>
                var l := env.now[n].link;
                ip == if tagged then [AddVlan(n, l.parent, l.tag, l.vid)] else []
    {
      var link := env.now[n].link;
      ip := [];
      ok := AddDep(n, link.parent);
      if !ok || !tagged { return; }
      if link.tag == OtherTag { ok := false; return; }
      ip := [AddVlan(n, link.parent, link.tag, link.vid)];
    }

    method BridgeLinks(n: Name) returns (ok: bool)
      requires n in deps && n in env.now
      modifies `deps
      ensures var b := env.now[n].bridge;
              && (ok <==> b.Some? ==> b.value !in old(deps)[n])
              && deps == if ok && b.Some? then old(deps)[n := old(deps)[n] + [b.value]] else old(deps)
    {
      ok := true;
      if env.now[n].bridge.Some? { ok := AddDep(n, env.now[n].bridge.value); }
    }

    /** The address commands of one list of diffs, up to the first entry that lacks something. */
    method GenDiffAddrs(fam: A.Fam, n: Name, ds: seq<A.AddrDiff>, above: Chain) returns (ok: bool, cs: seq<A.Cmd>)
      ensures A.GenDiffAddrs(fam, n, ds, above) == if ok then Some(cs) else None
      ensures cs == AddrLines(fam, n, ds, above)
    {
      cs := [];
      for i := 0 to |ds|
        invariant A.GenDiffAddrs(fam, n, ds[..i], above) == Some(cs) && AddrLines(fam, n, ds[..i], above) == cs
      {
        assert ds[..i + 1][..i] == ds[..i];
        var more := A.GenDiffAddr(fam, n, ds[i], above);
        if more == None {
          FailedEntry(fam, n, ds, above, i);
          return false, cs;
        }
        cs := cs + more.value;
      }
      assert ds[..|ds|] == ds;
      return true, cs;
    }

    method GenIpAddrs(d: IfDiff, fam: A.Fam) returns (ok: bool, cs: seq<A.Cmd>)
      requires d.name in env.now && ValidFamily(env.now[d.name].Fam(fam))
      modifies `flushes
      ensures FamCmds(env, d, fam) == if ok then Some(cs) else None
      ensures cs == FamLines(env, d, fam)
      ensures flushes == if A.Enabled(env.now[d.name].Fam(fam)) then old(flushes) else old(flushes) + [(d.name, fam)]
    {
      var conf, src := env.now[d.name].Fam(fam), FamSource(env, d, fam);
      if !A.Enabled(conf) {
        flushes := flushes + [(d.name, fam)];
        return true, [];
      }
      if A.EnabledOp(src.0, src.1) == OpReplace {
        cs := [];
        for k := 0 to |conf.value.listed|
          invariant cs == A.SetConfAddrs(fam, conf.value, k)
        {
          cs := cs + [A.Add(A.Addr(fam, conf.value.listed[k], conf.value.addrs[conf.value.listed[k]]))];
        }
        return true, cs;
      }
      if src.0 == None { return true, []; }
      ok, cs := GenDiffAddrs(fam, d.name, src.0.value.addrs, [src.0.value.op] + src.1);
    }

    /** Type specific commands for a device that is created. */
    method AfspecAdd(d: IfDiff) returns (ok: bool, ip: seq<Cmd>)
      requires d.name in deps && deps[d.name] == [] && d.name in env.now && Adds(env, d)
      modifies `skip, `deps
      ensures ok <==> !env.now[d.name].link.Plain? &&
                      (env.now[d.name].link.Vlan? ==> env.now[d.name].link.tag != OtherTag)
      ensures ok ==> ip == AddPart(env, d, d.name in old(skip))
      ensures LinksOnlyAt(d.name, old(deps), deps)
      ensures ok ==> deps == old(deps)[d.name := LinkDep(env, d, d.name in old(skip))]
      ensures ok ==> skip == if env.now[d.name].link.Veth? && d.name !in old(skip)
                             then old(skip) + {env.now[d.name].link.peer} else old(skip)
    {
      match env.now[d.name].link {
        case Bridge =>
          ok, ip := true, [AddBridge(d.name)];
          assert deps == deps[d.name := []];
        case Veth(peer) =>
          ok, ip := GenVeth(d.name, peer);
          assert old(deps) == old(deps)[d.name := []];
          assert [] + [peer] == [peer];
        case Vlan(parent, _, _) =>
          ok, ip := GenVlan(d.name, true);
          assert [] + [parent] == [parent];
        case Plain => ok, ip := false, [];
      }
    }

    /** Type specific commands for a device that stays. */
    method AfspecSet(d: IfDiff) returns (ok: bool, ip: seq<Cmd>)
      requires d.name in deps && d.name in env.now && !Adds(env, d) && d.name !in env.fixed
      modifies `deps
      ensures ok <==>
              match env.now[d.name].link
              case Plain => false
              case Vlan(parent, tag, _) => parent !in old(deps)[d.name] && (d.outerTag ==> tag != OtherTag)
              case _ => true
      ensures ok ==> ip == SetPart(env, d)
      ensures LinksOnlyAt(d.name, old(deps), deps)
      ensures ok ==> deps == old(deps)[d.name := old(deps)[d.name] + LinkDep(env, d, false)]
    {
      assert old(deps)[d.name] + [] == old(deps)[d.name];
      assert old(deps)[d.name := old(deps)[d.name]] == old(deps);
      match env.now[d.name].link {
        case Bridge => ok, ip := true, [SetBridge(d.name)];
        case Vlan(_, _, _) => ok, ip := GenVlan(d.name, d.outerTag);
        case Veth(_) => ok, ip := true, [];
        case Plain => ok, ip := false, [];
      }
    }

    method IfaceDel(n: Name)
      modifies `exit
      ensures exit == old(exit)[n := ExitScript(env, n)]
    {
      exit := exit[n := if n in env.fixed then [SetDown(n, None), FlushAll(n)] else [DelLink(n)]];
    }

    /** The link part of an init script: creation or update around the line that takes the device down. */
    method GenLink(d: IfDiff) returns (ok: bool, lines: seq<Cmd>)
      requires d.name in deps && deps[d.name] == [] && d.name in env.now && !Deleted(env, d)
      modifies `skip, `deps
      ensures ok <==> LinkReady(env, d, d.name in old(skip))
      ensures lines == LinkLines(env, d, d.name in old(skip))
      ensures LinksOnlyAt(d.name, old(deps), deps)
      ensures ok ==> forall x :: x in deps[d.name] <==> x in Dependencies(env, d, d.name in old(skip))
      ensures ok ==> skip == if Adds(env, d) && env.now[d.name].link.Veth? && d.name !in old(skip)
                             then old(skip) + {env.now[d.name].link.peer} else old(skip)
    {
      ok, lines := true, [];
      if Adds(env, d) {
        ok, lines := AfspecAdd(d);
        if !ok { return false, []; }
      }
      ok := BridgeLinks(d.name);
      if !ok { return; }
      lines := lines + [SetDown(d.name, env.now[d.name].bridge)];
      if !Adds(env, d) && d.name !in env.fixed {
        var more;
        ok, more := AfspecSet(d);
        if ok { lines := lines + more; }
      }
    }

    /** Add the address commands to what is written of the init script. */
    method WriteInit(d: IfDiff, lines: seq<Cmd>, ghost skipped: bool) returns (ok: bool, script: seq<Cmd>)
      requires d.name in env.now && ValidFamily(env.now[d.name].v4) && ValidFamily(env.now[d.name].v6)
      requires LinkReady(env, d, skipped) && lines == LinkLines(env, d, skipped)
      modifies `flushes
      ensures ok <==> FamReady(env, d)
      ensures script == Begun(env, d, skipped) + (if env.now[d.name].up && ok then [SetUp(d.name)] else [])
      ensures ok ==> flushes == old(flushes) + FlushesOf(env, d.name)
    {
      var ok4, v4 := GenIpAddrs(d, A.V4);
      if !ok4 {
        BegunWith(env, d, skipped, lines, OnDev(d.name, v4), []);
        return false, lines + OnDev(d.name, v4) + [];
      }
      var ok6, v6 := GenIpAddrs(d, A.V6);
      BegunWith(env, d, skipped, lines, OnDev(d.name, v4), OnDev(d.name, v6));
      script := lines + (OnDev(d.name, v4) + OnDev(d.name, v6));
      return ok6, script + if ok6 && env.now[d.name].up then [SetUp(d.name)] else [];
    }

    /** The init script of an interface, or what gets written of it. */
    method GenInit(d: IfDiff) returns (ok: bool)
      requires d.name in deps && deps[d.name] == [] && !Deleted(env, d)
      requires d.name in env.now && ValidFamily(env.now[d.name].v4) && ValidFamily(env.now[d.name].v6)
      modifies `init, `skip, `deps, `flushes
      ensures ok <==> Supported(env, d, d.name in old(skip))
      ensures init == old(init)[d.name := if ok then InitOf(env, d, d.name in old(skip))
                                          else Begun(env, d, d.name in old(skip))]
      ensures LinksOnlyAt(d.name, old(deps), deps)
      ensures ok ==> forall x :: x in deps[d.name] <==> x in Dependencies(env, d, d.name in old(skip))
      ensures ok ==> skip == if Adds(env, d) && env.now[d.name].link.Veth? && d.name !in old(skip)
                             then old(skip) + {env.now[d.name].link.peer} else old(skip)
      ensures ok ==> flushes == old(flushes) + FlushesOf(env, d.name)
    {
      ghost var skipped := d.name in skip;
      SupportedIff(env, d, skipped);
      var script;
      ok, script := GenLink(d);
      if ok {
        ok, script := WriteInit(d, script, skipped);
      }
      WrittenIs(env, d, skipped, script);
      init := init[d.name := script];
    }

    /** The diff of one interface. */
    method GenIface(d: IfDiff) returns (ok: bool)
      requires d.name in deps && deps[d.name] == []
      requires Deleted(env, d) ||
               (d.name in env.now && ValidFamily(env.now[d.name].v4) && ValidFamily(env.now[d.name].v6))
      modifies this
      ensures ok <==> Supported(env, d, d.name in old(skip))
      ensures OnlyAt(d.name, old(Out()), Out())
      ensures ok ==> Step(env, d, old(Out()), Out())
      ensures !ok ==> init == old(init)[d.name := Begun(env, d, d.name in old(skip))]
    {
      ghost var a, script := Out(), ExitScript(env, d.name);
      if OpAt(env, d) == OpDelete {
        IfaceDel(d.name);
        TouchesOnly(d.name, a, Out(), [], script);
        return true;
      }
      if Recreates(env, d) {
        IfaceDel(d.name);
      }
      ok := GenInit(d);
      TouchesOnly(d.name, a, Out(), init[d.name], script);
    }

    /** All the diffs, in whatever order they come; stops at the first that cannot be handled. */
    method IfChange(ds: seq<IfDiff>) returns (ok: bool)
      requires Readable(env, ds)
      requires Out() == Output({}, map n | n in env.now.Keys + Names(ds) :: [], map[], map[], [])
      modifies this
      ensures ok <==> forall k :: 0 <= k < |ds| ==> Supported(env, ds[k], SkippedAt(env, ds, k))
      ensures ok ==> IsCompiled(env, ds, Out())
      ensures !ok ==> exists k :: 0 <= k < |ds| && StoppedAt(env, ds, k, Out())
    {
      for k := 0 to |ds|
        invariant Progress(env, ds, k, Out())
        invariant forall i :: 0 <= i < k ==> Supported(env, ds[i], SkippedAt(env, ds, i))
      {
        ghost var a := Out();
        NodeIsFresh(env, ds, k, a);
        ok := GenIface(ds[k]);
        if !ok {
          StopsAt(env, ds, k, a, Out());
          return;
        }
        ProgressStep(env, ds, k, a, Out());
      }
      ProgressEnd(env, ds, Out());
      return true;
    }
  }

  lemma {:induction false} NodeIsFresh(env: Env, ds: seq<IfDiff>, k: nat, a: Output)
    requires Readable(env, ds) && k < |ds| && Progress(env, ds, k, a)
    ensures ds[k].name in a.deps && a.deps[ds[k].name] == []
  {
    assert ds[k].name in Names(ds);
    assert Untouched(ds[k].name, a);
  }

  /** The dependency that comes with the kind of a device. */
  function LinkDep(env: Env, d: IfDiff, skipped: bool): seq<Name>
    requires d.name in env.now
  {
    match env.now[d.name].link
    case Vlan(parent, _, _) => [parent]
    case Veth(peer) => if Adds(env, d) && skipped then [peer] else []
    case _ => []
  }

  lemma {:induction false} FailedEntry(fam: A.Fam, n: Name, ds: seq<A.AddrDiff>, above: Chain, i: nat)
    requires i < |ds| && A.GenDiffAddr(fam, n, ds[i], above) == None
    ensures A.GenDiffAddrs(fam, n, ds, above) == None
    ensures AddrLines(fam, n, ds, above) == AddrLines(fam, n, ds[..i], above)
  {
    if i == |ds| - 1 {
    } else {
      assert ds[..|ds| - 1][..i] == ds[..i];
      FailedEntry(fam, n, ds[..|ds| - 1], above, i);
    }
  }
}
