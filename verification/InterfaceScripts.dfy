/** What the scripts of a single interface do to the kernel. */
module InterfaceScripts {
  import opened DepOrder
  import opened Options
  import opened Lyx
  import opened Kernel
  import opened Interfaces
  import A = Addresses

  /** Reading a configured family as a diff records its creation. */
  lemma {:induction false} ConfDiffRecords(f: Option<A.Family>)
    requires f.Some? ==> f.value.Valid()
    ensures A.RecordsFamily(ConfDiff(f), [Some("create"), None], None, f)
  {
    if f.Some? {
      var g := f.value;
      var d := ConfDiff(f).value;
      var above := [d.op] + [Some("create"), None];
      assert above == [None, Some("create"), None];
      assert OpOf([Some("create"), None]) == OpCreate;
      OpInherited(None, [Some("create"), None]);
      assert OpOf(above) == OpCreate;
      OpInherited(None, above);
      assert OpOf([None] + above) == OpCreate;
      OpInherited(None, [None] + above);
      assert d.enabled.Some? && [d.enabled.value.op, d.op] + [Some("create"), None] == [None] + above;
      forall i | 0 <= i < |d.addrs| ensures A.RecordsAddr(d.addrs[i], above, map[], g.addrs) {
        assert g.listed[i] in g.listed;
      }
      forall ip | A.Get(map[], ip) != A.Get(g.addrs, ip)
        ensures exists i :: 0 <= i < |d.addrs| && d.addrs[i].ip.value.val == ip
      {
        assert ip in g.listed;
        var i :| 0 <= i < |g.listed| && g.listed[i] == ip;
        assert d.addrs[i].ip.value.val == ip;
      }
    }
  }

  /** The configuration the addresses of a device start from: none if it is created, or created again. */
  function Origin(env: Env, d: IfDiff, was: Option<Iface>): Option<Iface>
    requires d.name in env.now
  {
    if Recreates(env, d) then None else was
  }

  lemma {:induction false} SourceRecords(env: Env, d: IfDiff, was: Option<Iface>, fam: A.Fam)
    requires d.name in env.now && RecordsIface(env, d, was, Some(env.now[d.name]))
    requires env.now[d.name].Fam(fam).Some? ==> env.now[d.name].Fam(fam).value.Valid()
    ensures A.RecordsFamily(FamSource(env, d, fam).0, FamSource(env, d, fam).1,
                            FamOf(Origin(env, d, was), fam), env.now[d.name].Fam(fam))
  {
    ConfDiffRecords(env.now[d.name].Fam(fam));
  }

  ghost predicate ValidIface(i: Option<Iface>) {
    i.Some? ==> forall fam :: i.value.Fam(fam).Some? ==> i.value.Fam(fam).value.Valid()
  }

  /** A family's addresses when the commands start: those of a disabled family are flushed already. */
  function StartOf(origin: Option<Iface>, now: Iface, fam: A.Fam): set<A.Addr> {
    if A.Enabled(now.Fam(fam)) then A.Target(fam, FamOf(origin, fam)) else {}
  }

  lemma {:induction false} TargetFam(fam: A.Fam, f: Option<A.Family>)
    ensures forall a :: a in A.Target(fam, f) ==> a.fam == fam
  {
  }

  /** The commands of one family, whatever the other family holds. */
  lemma {:induction false} FamilyRuns(env: Env, d: IfDiff, was: Option<Iface>, fam: A.Fam, other: set<A.Addr>)
    requires d.name in env.now && RecordsIface(env, d, was, Some(env.now[d.name])) && A.HasNone(other, fam)
    requires ValidIface(was) && ValidIface(Some(env.now[d.name]))
    ensures ValidFamily(env.now[d.name].Fam(fam)) && FamCmds(env, d, fam).Some?
    ensures A.Exec(other + StartOf(Origin(env, d, was), env.now[d.name], fam), FamCmds(env, d, fam).value) ==
            Some(other + A.Target(fam, env.now[d.name].Fam(fam)))
  {
    var now, origin := env.now[d.name].Fam(fam), FamOf(Origin(env, d, was), fam);
    assert env.now[d.name].Fam(fam).Some? ==> env.now[d.name].Fam(fam).value.Valid();
    assert was.Some? && was.value.Fam(fam).Some? ==> was.value.Fam(fam).value.Valid();
    SourceRecords(env, d, was, fam);
    A.FamilyCorrect(fam, d.name, FamSource(env, d, fam).0, FamSource(env, d, fam).1, other, origin, now);
    TargetFam(fam, origin);
    if !A.Enabled(now) {
      assert A.Flush(other + A.Target(fam, origin), fam) == other + {};
    }
  }

  /** Both families: from the flushed old addresses to the new ones. */
  lemma {:induction false} AddressesRun(env: Env, d: IfDiff, was: Option<Iface>)
    requires d.name in env.now && RecordsIface(env, d, was, Some(env.now[d.name]))
    requires ValidIface(was) && ValidIface(Some(env.now[d.name]))
    ensures ValidFamily(env.now[d.name].v4) && FamCmds(env, d, A.V4).Some?
    ensures ValidFamily(env.now[d.name].v6) && FamCmds(env, d, A.V6).Some?
    ensures A.Exec(Starts(env, d, was), FamCmds(env, d, A.V4).value + FamCmds(env, d, A.V6).value) ==
            Some(AddrsOf(Some(env.now[d.name])))
  {
    var now, o := env.now[d.name], Origin(env, d, was);
    var s4, s6 := StartOf(o, now, A.V4), StartOf(o, now, A.V6);
    TargetFam(A.V6, FamOf(o, A.V6));
    TargetFam(A.V4, now.v4);
    FamilyRuns(env, d, was, A.V4, s6);
    FamilyRuns(env, d, was, A.V6, A.Target(A.V4, now.v4));
    assert s4 + s6 == s6 + s4;
    assert s6 + A.Target(A.V4, now.v4) == A.Target(A.V4, now.v4) + s6;
    A.ExecConcat(s4 + s6, FamCmds(env, d, A.V4).value, FamCmds(env, d, A.V6).value);
  }

  /** The addresses of a device when its init script starts. */
  function Starts(env: Env, d: IfDiff, was: Option<Iface>): set<A.Addr>
    requires d.name in env.now
  {
    StartOf(Origin(env, d, was), env.now[d.name], A.V4) + StartOf(Origin(env, d, was), env.now[d.name], A.V6)
  }

  function Kind(env: Env, n: Name): Link
    requires n in env.now
  {
    if n in env.fixed then Plain else env.now[n].link
  }

  /** What the init script of an interface needs of the kernel. */
  ghost predicate Ready(env: Env, d: IfDiff, skipped: bool, was: Option<Iface>, k: State)
    requires d.name in env.now
  {
    && (if Adds(env, d) && !(skipped && env.now[d.name].link.Veth?) then d.name !in k
        else d.name in k && k[d.name].link == Kind(env, d.name) && k[d.name].addrs == Starts(env, d, was))
    && (Adds(env, d) ==>
          match env.now[d.name].link
          case Vlan(p, _, _) => p in k
          case Veth(p) => skipped || (p !in k && p != d.name)
          case _ => true)
    && var b := env.now[d.name].bridge;
       b.Some? ==> b.value in k && k[b.value].link.Bridge?
  }

  /** The kernel after the device has been added, if that is needed. */
  function Added(env: Env, d: IfDiff, skipped: bool, k: State): State
    requires d.name in env.now
  {
    if !Adds(env, d) || (env.now[d.name].link.Veth? && skipped) then k
    else
      var l := k[d.name := NewDev(env.now[d.name].link)];
      if env.now[d.name].link.Veth? then l[env.now[d.name].link.peer := NewDev(Veth(d.name))] else l
  }

  /** The device once it is configured; without a bridge in its configuration it keeps the one it has. */
  function ConfiguredDev(env: Env, n: Name, k: State): Dev
    requires n in env.now
  {
    Dev(Kind(env, n), AddrsOf(Some(env.now[n])), env.now[n].up,
        if env.now[n].bridge.Some? then env.now[n].bridge else if n in k then k[n].master else None)
  }

  lemma {:induction false} AddPartRuns(env: Env, d: IfDiff, skipped: bool, was: Option<Iface>, k: State)
    requires d.name in env.now && (!env.now[d.name].link.Plain? || d.name in env.fixed)
    requires Ready(env, d, skipped, was, k)
    ensures Exec(k, AddPart(env, d, skipped)) == Some(Added(env, d, skipped, k))
  {
    var cs := AddPart(env, d, skipped);
    if |cs| == 1 {
      assert cs == [cs[0]];
      Exec1Is(k, cs[0]);
    }
  }

  lemma {:induction false} StartsEmpty(env: Env, d: IfDiff, was: Option<Iface>)
    requires d.name in env.now && RecordsIface(env, d, was, Some(env.now[d.name])) && Adds(env, d)
    ensures Starts(env, d, was) == {}
  {
  }

  /** The commands after the device is there. */
  lemma {:induction false} RestRuns(env: Env, d: IfDiff, was: Option<Iface>, k: State, v4: seq<A.Cmd>, v6: seq<A.Cmd>)
    requires d.name in env.now && d.name in k && k[d.name].link == Kind(env, d.name)
    requires A.Exec(k[d.name].addrs, v4 + v6) == Some(AddrsOf(Some(env.now[d.name])))
    requires SetPart(env, d) in {[], [SetBridge(d.name)]}
    requires var b := env.now[d.name].bridge; b.Some? ==> b.value in k && k[b.value].link.Bridge?
    ensures Exec(k, ConfigurePart(env, d, v4, v6)) ==
            Some(k[d.name := ConfiguredDev(env, d.name, k)])
  {
    var n := d.name;
    var down, setp, up := [SetDown(n, env.now[n].bridge)], SetPart(env, d), if env.now[n].up then [SetUp(n)] else [];
    var l := k[n := k[n].Down(env.now[n].bridge)];
    var r := k[n := l[n].(addrs := AddrsOf(Some(env.now[n])))];
    Exec1Is(k, down[0]);
    Exec1Is(l, SetBridge(n));
    ExecConcat(k, down, setp);
    assert Exec(k, down + setp) == Some(l);
    AddressesOnDev(l, n, v4 + v6);
    assert l[n := l[n].(addrs := AddrsOf(Some(env.now[n])))] == r;
    assert OnDev(n, v4) + OnDev(n, v6) == OnDev(n, v4 + v6);
    ExecConcat(k, down + setp, OnDev(n, v4 + v6));
    assert down + setp + OnDev(n, v4 + v6) == down + setp + OnDev(n, v4) + OnDev(n, v6);
    BroughtUp(env, n, k, r, up);
    ExecConcat(k, down + setp + OnDev(n, v4) + OnDev(n, v6), up);
  }

  lemma {:induction false} BroughtUp(env: Env, n: Name, k: State, r: State, up: seq<Cmd>)
    requires n in env.now && n in k && k[n].link == Kind(env, n)
    requires r == k[n := k[n].Down(env.now[n].bridge).(addrs := AddrsOf(Some(env.now[n])))]
    requires up == if env.now[n].up then [SetUp(n)] else []
    ensures Exec(r, up) == Some(k[n := ConfiguredDev(env, n, k)])
  {
    Exec1Is(r, SetUp(n));
    assert r[n := r[n].(up := true)] == k[n := r[n].(up := true)];
  }

  /** The init script of an interface brings it to its new state and touches only it and a peer it creates. */
  lemma {:induction false} InitRuns(env: Env, d: IfDiff, skipped: bool, was: Option<Iface>, k: State)
    requires d.name in env.now && RecordsIface(env, d, was, Some(env.now[d.name]))
    requires ValidIface(was) && ValidIface(Some(env.now[d.name])) && WellFormedLink(env.now, env.fixed, d.name)
    requires Ready(env, d, skipped, was, k)
    ensures ValidFamily(env.now[d.name].v4) && FamCmds(env, d, A.V4).Some?
    ensures ValidFamily(env.now[d.name].v6) && FamCmds(env, d, A.V6).Some?
    ensures Exec(k, InitScript(env, d, skipped, FamCmds(env, d, A.V4).value, FamCmds(env, d, A.V6).value)) ==
            Some(Added(env, d, skipped, k)[d.name := ConfiguredDev(env, d.name, Added(env, d, skipped, k))])
  {
    AddressesRun(env, d, was);
    var v4, v6 := FamCmds(env, d, A.V4).value, FamCmds(env, d, A.V6).value;
    AddPartRuns(env, d, skipped, was, k);
    AddedIsThere(env, d, skipped, was, k);
    RestRuns(env, d, was, Added(env, d, skipped, k), v4, v6);
    ExecConcat(k, AddPart(env, d, skipped), ConfigurePart(env, d, v4, v6));
  }

  lemma {:induction false} AddedIsThere(env: Env, d: IfDiff, skipped: bool, was: Option<Iface>, k: State)
    requires d.name in env.now && RecordsIface(env, d, was, Some(env.now[d.name]))
    requires WellFormedLink(env.now, env.fixed, d.name) && Ready(env, d, skipped, was, k)
    ensures d.name in Added(env, d, skipped, k)
    ensures Added(env, d, skipped, k)[d.name].link == Kind(env, d.name)
    ensures Added(env, d, skipped, k)[d.name].addrs == Starts(env, d, was)
    ensures SetPart(env, d) in {[], [SetBridge(d.name)]}
    ensures var b := env.now[d.name].bridge;
            b.Some? ==> b.value in Added(env, d, skipped, k) && Added(env, d, skipped, k)[b.value].link.Bridge?
  {
    if Adds(env, d) { StartsEmpty(env, d, was); }
  }
}
