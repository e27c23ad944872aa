/** Exactly when a committed change works, and what that means over histories of changes. */
module CommitTheorems {
  import opened DepOrder
  import opened Options
  import opened Kernel
  import opened Interfaces
  import opened Netdag
  import opened Commit
  import opened CommitRun
  import opened CommitFailures
  import A = Addresses

  // ---------- exactly when a change works ----------

  /**
   Removals take nothing along that is not meant to go, every veth end that gets another peer
   loses its old one, has no addresses to keep and comes after its new one, and no port leaves a
   bridge that stays.
   */
  ghost predicate Works(env: Env, ds: seq<IfDiff>, was: Config, out: Output, ex: seq<Name>, listing: seq<Name>)
    requires Readable(env, ds) && Acyclic(out.deps)
  {
    && Orderly(Meaning(was, env.fixed), ex, Gone(env, ds), Along(was, env.now))
    && Suits(was, env.now, Order(out.deps, listing))
  }

  /**
   A committed change, compiled from any diff that records it, brings the kernel from the old
   to the new configuration if and only if it works in this sense.
   */
  lemma {:induction false} CommitCorrectIff(env: Env, ds: seq<IfDiff>, was: Config, out: Output, ex: seq<Name>,
                                            listing: seq<Name>)
    requires IsChange(env, ds, was) && Readable(env, ds) && IsCompiled(env, ds, out)
    requires NoDup(ex) && Covers(was, ex)
    requires forall n :: n in out.deps ==> n in listing
    ensures Acyclic(out.deps)
    ensures Committed(env, out, Meaning(was, env.fixed), ex, listing) == Some(Meaning(env.now, env.fixed)) <==>
            Works(env, ds, was, out, ex, listing)
  {
    DepsAreAcyclic(env, ds, was, out);
    if Works(env, ds, was, out, ex, listing) {
      CommitCorrect(env, ds, was, out, ex, listing);
    }
    if Committed(env, out, Meaning(was, env.fixed), ex, listing) == Some(Meaning(env.now, env.fixed)) {
      ReachedOrderly(env, ds, was, out, ex, listing);
      ReachedSuits(env, ds, was, out, ex, listing);
    }
  }

  lemma {:induction false} ReachedSuits(env: Env, ds: seq<IfDiff>, was: Config, out: Output, ex: seq<Name>,
                                        listing: seq<Name>)
    requires IsChange(env, ds, was) && Readable(env, ds) && IsCompiled(env, ds, out) && Acyclic(out.deps)
    requires NoDup(ex) && Covers(was, ex) && forall n :: n in out.deps ==> n in listing
    requires Committed(env, out, Meaning(was, env.fixed), ex, listing) == Some(Meaning(env.now, env.fixed))
    ensures Suits(was, env.now, Order(out.deps, listing))
  {
    var k, l := CommitReaches(env, ds, was, out, ex, listing);
    var order := Order(out.deps, listing);
    forall n ensures Fits(was, env.now, n) && (Remade(was, env.now, n) ==> Before(order, env.now[n].link.peer, n)) {
      if Repeered(was, env.now, n) {
        ReachedFits(env, ds, was, out, ex, order, k, l, n);
      } else {
        NoneLeaves(env, ds, was, out, ex, order, k, l, n);
      }
    }
  }

  lemma {:induction false} ReachedFits(env: Env, ds: seq<IfDiff>, was: Config, out: Output, ex: seq<Name>,
                                       order: seq<Name>, k: State, l: State, n: Name)
    requires Reached(env, ds, was, out, ex, order, k, l) && Repeered(was, env.now, n)
    ensures Fits(was, env.now, n) && Remade(was, env.now, n) && Before(order, env.now[n].link.peer, n)
  {
    NewPeerIsNew(env, ds, was, out, ex, order, k, l, n);
    OldPeerGoes(env, ds, was, out, ex, order, k, l, n);
    RemadeAfterMaker(env, ds, was, out, ex, order, k, l, n);
    RemadeKeepsNone(env, ds, was, out, order, l, n);
  }

  lemma {:induction false} ReachedOrderly(env: Env, ds: seq<IfDiff>, was: Config, out: Output, ex: seq<Name>,
                                          listing: seq<Name>)
    requires IsChange(env, ds, was) && Readable(env, ds) && IsCompiled(env, ds, out) && Acyclic(out.deps)
    requires NoDup(ex) && Covers(was, ex) && forall n :: n in out.deps ==> n in listing
    requires Committed(env, out, Meaning(was, env.fixed), ex, listing) == Some(Meaning(env.now, env.fixed))
    ensures Orderly(Meaning(was, env.fixed), ex, Gone(env, ds), Along(was, env.now))
  {
    var k, l := CommitReaches(env, ds, was, out, ex, listing);
    OrderlyWhenReached(env, ds, was, out, ex, Order(out.deps, listing), k, l);
    OrderlySame(k, Meaning(was, env.fixed), ex, Gone(env, ds), Along(was, env.now));
  }

  lemma {:induction false} DisorderSame(k: State, l: State, ex: seq<Name>, gone: set<Name>, along: map<Name, Name>,
                                        j: nat, y: Name)
    requires SameDevices(k, l)
    ensures Disorder(k, ex, gone, along, j, y) <==> Disorder(l, ex, gone, along, j, y)
  {
    StackSame(k, l);
  }

  lemma {:induction false} OrderlyWhenReached(env: Env, ds: seq<IfDiff>, was: Config, out: Output, ex: seq<Name>,
                                              order: seq<Name>, k: State, l: State)
    requires Reached(env, ds, was, out, ex, order, k, l)
    ensures Orderly(k, ex, Gone(env, ds), Along(was, env.now))
  {
    if !Orderly(k, ex, Gone(env, ds), Along(was, env.now)) {
      var j, y := FindDisorder(k, ex, Gone(env, ds), Along(was, env.now));
      DisorderFails(env, ds, was, out, ex, order, k, l, j, y);
    }
  }

  lemma {:induction false} FindDisorder(k: State, ex: seq<Name>, gone: set<Name>, along: map<Name, Name>)
    returns (j: nat, y: Name)
    requires !Orderly(k, ex, gone, along)
    ensures Disorder(k, ex, gone, along, j, y)
  {
    j, y :| && 0 <= j < |ex| && ex[j] in gone && y != ex[j] && Above(k, along, y, ex[j])
            && !((y in gone && y in ex[..j]) || (y in along && along[y] == ex[j]));
  }

  /** Removing a device after what takes it along aborts the run. */
  lemma {:induction false} RemovedLateFails(env: Env, ds: seq<IfDiff>, was: Config, out: Output, ex: seq<Name>,
                                            listing: seq<Name>, j: nat, y: Name)
    requires IsChange(env, ds, was) && Readable(env, ds) && IsCompiled(env, ds, out) && Acyclic(out.deps)
    requires NoDup(ex) && Covers(was, ex)
    requires Disorder(Meaning(was, env.fixed), ex, Gone(env, ds), Along(was, env.now), j, y) && y in Gone(env, ds)
    ensures Committed(env, out, Meaning(was, env.fixed), ex, listing) == None
  {
    var m := Meaning(was, env.fixed);
    BeforeExit(env, ds, was, out);
    DisorderSame(Flushed(env, ds, m), m, ex, Gone(env, ds), Along(was, env.now), j, y);
    AllKnown(env, ds, was, out);
    ExitFails(env, ds, was, out, ex, Flushed(env, ds, m), j, y);
  }

  lemma {:induction false} ExitFails(env: Env, ds: seq<IfDiff>, was: Config, out: Output, ex: seq<Name>, k: State,
                                     j: nat, y: Name)
    requires Known(env, ds, was, out) && NoDup(ex) && Covers(was, ex)
    requires SameDevices(k, Meaning(was, env.fixed))
    requires IsExit(out.exit, Gone(env, ds), k) && IsAlong(k, Gone(env, ds), Along(was, env.now))
    requires Disorder(k, ex, Gone(env, ds), Along(was, env.now), j, y) && y in Gone(env, ds)
    ensures RunScripts(k, ex, out.exit) == None
  {
    DisorderDevice(env, ds, was, out, k, ex, j, y);
    RemovedTooLate(k, ex, out.exit, Gone(env, ds), Along(was, env.now), j, y);
  }

  /** A veth pair can never be removed: whichever end goes first takes the other along. */
  lemma {:induction false} RemovingVethFails(env: Env, ds: seq<IfDiff>, was: Config, out: Output, ex: seq<Name>,
                                             listing: seq<Name>, n: Name)
    requires IsChange(env, ds, was) && Readable(env, ds) && IsCompiled(env, ds, out) && Acyclic(out.deps)
    requires NoDup(ex) && Covers(was, ex)
    requires n in was && was[n].link.Veth? && n !in env.now && was[n].link.peer !in env.now
    ensures Committed(env, out, Meaning(was, env.fixed), ex, listing) == None
  {
    var p := was[n].link.peer;
    RemovedPair(env, ds, was, out, n);
    var i :| 0 <= i < |ex| && ex[i] == n;
    var j :| 0 <= j < |ex| && ex[j] == p;
    if i < j {
      RemovedLateFails(env, ds, was, out, ex, listing, i, p);
    } else {
      RemovedLateFails(env, ds, was, out, ex, listing, j, n);
    }
  }

  /** Each end of a pair stands on the other. */
  lemma {:induction false} RemovedPair(env: Env, ds: seq<IfDiff>, was: Config, out: Output, n: Name)
    requires IsChange(env, ds, was) && Readable(env, ds) && IsCompiled(env, ds, out)
    requires n in was && was[n].link.Veth? && n !in env.now && was[n].link.peer !in env.now
    ensures var p, k := was[n].link.peer, Meaning(was, env.fixed);
            && p in was && n in Gone(env, ds) && p in Gone(env, ds)
            && n !in Along(was, env.now) && p !in Along(was, env.now)
            && n != p && Edge(Stack(k), n, p) && Edge(Stack(k), p, n)
  {
    AllKnown(env, ds, was, out);
    assert Facts(env, ds, was, out, n) && Facts(env, ds, was, out, was[n].link.peer);
  }

  /**
   A veth whose peer is exchanged for another end that was there before never gets it: no
   command adds or deletes a link for it, and the kernel does not reach the new configuration.
   */
  lemma {:induction false} ExchangedPeerFails(env: Env, ds: seq<IfDiff>, was: Config, out: Output, ex: seq<Name>,
                                              listing: seq<Name>, n: Name)
    requires IsChange(env, ds, was) && Readable(env, ds) && IsCompiled(env, ds, out)
    requires NoDup(ex) && Covers(was, ex) && forall m :: m in out.deps ==> m in listing
    requires Repeered(was, env.now, n) && env.now[n].link.peer in was
    ensures Acyclic(out.deps)
    ensures Committed(env, out, Meaning(was, env.fixed), ex, listing) != Some(Meaning(env.now, env.fixed))
    ensures n in out.init && n !in out.exit && NoLinkCommand(out.init[n], 0)
  {
    CommitCorrectIff(env, ds, was, out, ex, listing);
    assert !Fits(was, env.now, n);
    AllKnown(env, ds, was, out);
    ModificationLinks(env, ds, was, out, n);
  }

  /**
   A port that should leave its bridge, while both stay, never does: it is still a port of it
   whenever the commands all succeed.
   */
  lemma {:induction false} LeavingABridgeFails(env: Env, ds: seq<IfDiff>, was: Config, out: Output, ex: seq<Name>,
                                               listing: seq<Name>, n: Name)
    requires IsChange(env, ds, was) && Readable(env, ds) && IsCompiled(env, ds, out)
    requires NoDup(ex) && Covers(was, ex) && forall m :: m in out.deps ==> m in listing
    requires Leaves(was, env.now, n) && !Repeered(was, env.now, n)
    ensures Acyclic(out.deps)
    ensures var r := Committed(env, out, Meaning(was, env.fixed), ex, listing);
            && r != Some(Meaning(env.now, env.fixed))
            && (r.Some? && n in r.value ==> r.value[n].master == was[n].bridge)
  {
    CommitCorrectIff(env, ds, was, out, ex, listing);
    assert !Fits(was, env.now, n);
    var r := Committed(env, out, Meaning(was, env.fixed), ex, listing);
    if r.Some? {
      var k := FlushEach(Meaning(was, env.fixed), out.flushes);
      BeforeExit(env, ds, was, out);
      AllKnown(env, ds, was, out);
      PortStays(env, ds, was, out, ex, Order(out.deps, listing), k, RunScripts(k, ex, out.exit).value, r.value, n);
    }
  }

  // ---------- which links a change touches ----------

  predicate TouchesLink(c: Cmd) {
    c.AddBridge? || c.AddVeth? || c.AddVlan? || c.DelLink?
  }

  ghost predicate NoLinkCommand(cs: seq<Cmd>, from: nat) {
    forall i :: from <= i < |cs| ==> !TouchesLink(cs[i])
  }

  lemma {:induction false} ConfigureTouchesNone(env: Env, d: IfDiff, v4: seq<A.Cmd>, v6: seq<A.Cmd>)
    requires d.name in env.now && SetPart(env, d) in {[], [SetBridge(d.name)]}
    ensures NoLinkCommand(ConfigurePart(env, d, v4, v6), 0)
  {
    var up := if env.now[d.name].up then [SetUp(d.name)] else [];
    assert ConfigurePart(env, d, v4, v6) ==
           [SetDown(d.name, env.now[d.name].bridge)] + SetPart(env, d) + OnDev(d.name, v4) + OnDev(d.name, v6) + up;
  }

  /** The link commands of an init script are those that add the device. */
  lemma {:induction false} InitLinks(env: Env, ds: seq<IfDiff>, was: Config, out: Output, n: Name)
    requires Known(env, ds, was, out) && n in out.init
    ensures n in Names(ds) && n in env.now
    ensures var add := AddPart(env, ds[At(ds, n)], SkippedAt(env, ds, At(ds, n)));
            |add| <= |out.init[n]| && add == out.init[n][..|add|] && NoLinkCommand(out.init[n], |add|)
  {
    InitIs(env, ds, was, out, n);
    var d := ds[At(ds, n)];
    var v4, v6 := FamCmds(env, d, A.V4).value, FamCmds(env, d, A.V6).value;
    ConfigureTouchesNone(env, d, v4, v6);
    var add := AddPart(env, d, SkippedAt(env, ds, At(ds, n)));
    assert out.init[n] == add + ConfigurePart(env, d, v4, v6);
  }

  /**
   A modified interface is deleted once and added once if it is a VLAN whose parent or outer
   tag changed; any other modification, also that of a veth's peer, emits no link command.
   */
  lemma {:induction false} ModificationLinks(env: Env, ds: seq<IfDiff>, was: Config, out: Output, n: Name)
    requires Known(env, ds, was, out) && n in Names(ds) && n in was && n in env.now && n !in env.fixed
    ensures n in out.init
    ensures was[n].link == env.now[n].link || was[n].link.Veth? ==> n !in out.exit && NoLinkCommand(out.init[n], 0)
    ensures was[n].link != env.now[n].link && !was[n].link.Veth? ==>
              && was[n].link.Vlan? && env.now[n].link.Vlan? && n in out.exit && out.exit[n] == [DelLink(n)]
              && |out.init[n]| > 0 && NoLinkCommand(out.init[n], 1)
              && out.init[n][0] == AddVlan(n, env.now[n].link.parent, env.now[n].link.tag, env.now[n].link.vid)
  {
    assert Facts(env, ds, was, out, n);
    InitLinks(env, ds, was, out, n);
  }

  /** `a` makes the pair by its first command, and `b` adds nothing and waits for it. */
  ghost predicate MakesPairFor(out: Output, a: Name, b: Name) {
    && a in out.init && |out.init[a]| > 0 && out.init[a][0] == AddVeth(a, b) && NoLinkCommand(out.init[a], 1)
    && b in out.init && NoLinkCommand(out.init[b], 0) && Edge(out.deps, b, a)
  }

  /** Of a pair created in one change exactly one end makes it, in whatever order the ends come. */
  lemma {:induction false} OneEndMakesThePair(env: Env, ds: seq<IfDiff>, was: Config, out: Output, n: Name)
    requires IsChange(env, ds, was) && Readable(env, ds) && IsCompiled(env, ds, out)
    requires n in env.now && n !in was && env.now[n].link.Veth? && env.now[n].link.peer !in was
    ensures MakesPairFor(out, n, env.now[n].link.peer) <==> !MakesPairFor(out, env.now[n].link.peer, n)
  {
    var p := env.now[n].link.peer;
    AllKnown(env, ds, was, out);
    assert Facts(env, ds, was, out, n) && Paired(env, ds, was, n) && Facts(env, ds, was, out, p);
    if SkippedEnd(env, ds, n) {
      UnskippedMakes(env, ds, was, out, p, n);
    } else {
      UnskippedMakes(env, ds, was, out, n, p);
    }
  }

  lemma {:induction false} UnskippedMakes(env: Env, ds: seq<IfDiff>, was: Config, out: Output, a: Name, b: Name)
    requires Known(env, ds, was, out) && NewEnd(env, ds, a) && NewEnd(env, ds, b) && !SkippedEnd(env, ds, a)
    requires SkippedEnd(env, ds, b) && env.now[a].link == Veth(b) && env.now[b].link == Veth(a)
    ensures MakesPairFor(out, a, b) && !MakesPairFor(out, b, a)
  {
    assert Facts(env, ds, was, out, a) && Facts(env, ds, was, out, b);
    InitLinks(env, ds, was, out, a);
    InitLinks(env, ds, was, out, b);
    assert out.init[a][..1] == [AddVeth(a, b)];
    assert |out.init[b]| > 0 ==> !TouchesLink(out.init[b][0]);
    assert a in Dependencies(env, ds[At(ds, b)], SkippedAt(env, ds, At(ds, b)));
  }

  // ---------- histories of changes ----------

  /** A committed change and the directory listing its order was made from. */
  datatype Change = Change(env: Env, ds: seq<IfDiff>, out: Output, listing: seq<Name>)

  function ConfigAt(cs: seq<Change>, i: nat): Config
    requires i <= |cs|
  {
    if i == 0 then map[] else cs[i - 1].env.now
  }

  ghost predicate ValidChange(c: Change, was: Config) {
    && IsChange(c.env, c.ds, was) && Readable(c.env, c.ds) && IsCompiled(c.env, c.ds, c.out)
    && forall n :: n in c.out.deps ==> n in c.listing
  }

  /** Changes that follow each other on a machine with the given fixed devices. */
  ghost predicate IsHistory(fixed: set<Name>, cs: seq<Change>) {
    forall i :: 0 <= i < |cs| ==> cs[i].env.fixed == fixed && ValidChange(cs[i], ConfigAt(cs, i))
  }

  lemma {:induction false} HistoryAt(fixed: set<Name>, cs: seq<Change>, i: nat)
    requires IsHistory(fixed, cs) && i < |cs|
    ensures cs[i].env.fixed == fixed && ValidChange(cs[i], ConfigAt(cs, i)) && Acyclic(cs[i].out.deps)
  {
    assert cs[i].env.fixed == fixed && ValidChange(cs[i], ConfigAt(cs, i));
    DepsAreAcyclic(cs[i].env, cs[i].ds, ConfigAt(cs, i), cs[i].out);
  }

  /** The order in which the generation of a change is set up. */
  ghost function SetupOrder(c: Change): seq<Name> {
    if Acyclic(c.out.deps) then Order(c.out.deps, c.listing) else []
  }

  /** Exit scripts run in the reverse of the order in which the current generation was set up. */
  ghost function ExitOrder(cs: seq<Change>, i: nat): seq<Name>
    requires i < |cs|
  {
    if i == 0 then [] else Reverse(SetupOrder(cs[i - 1]))
  }

  ghost function KernelAfter(c: Change, k: State, ex: seq<Name>): Option<State> {
    if Acyclic(c.out.deps) then Committed(c.env, c.out, k, ex, c.listing) else None
  }

  ghost function KernelAt(fixed: set<Name>, cs: seq<Change>, i: nat): Option<State>
    requires i <= |cs|
  {
    if i == 0 then Some(Meaning(map[], fixed)) else
      match KernelAt(fixed, cs, i - 1)
      case None => None
      case Some(k) => KernelAfter(cs[i - 1], k, ExitOrder(cs, i - 1))
  }

  /** Change `i` works. */
  ghost predicate WorksAt(cs: seq<Change>, i: nat)
    requires i < |cs|
  {
    && Readable(cs[i].env, cs[i].ds) && Acyclic(cs[i].out.deps)
    && Works(cs[i].env, cs[i].ds, ConfigAt(cs, i), cs[i].out, ExitOrder(cs, i), cs[i].listing)
  }

  lemma {:induction false} ExitOrderCovers(fixed: set<Name>, cs: seq<Change>, i: nat)
    requires IsHistory(fixed, cs) && i < |cs|
    ensures NoDup(ExitOrder(cs, i)) && Covers(ConfigAt(cs, i), ExitOrder(cs, i))
  {
    if i == 0 {
    } else {
      var ex, c := ExitOrder(cs, i), ConfigAt(cs, i);
      assert NoDup(ex) && Covers(c, ex) by {
        assert ex == Reverse(SetupOrder(cs[i - 1])) && c == cs[i - 1].env.now;
        assert ValidChange(cs[i - 1], ConfigAt(cs, i - 1));
        ReversedCovers(cs[i - 1], ConfigAt(cs, i - 1));
      }
    }
  }

  lemma {:induction false} ReversedCovers(c: Change, was: Config)
    requires ValidChange(c, was)
    ensures NoDup(Reverse(SetupOrder(c))) && Covers(c.env.now, Reverse(SetupOrder(c)))
  {
    DepsAreAcyclic(c.env, c.ds, was, c.out);
    ReverseOrderVisitsDependersFirst(c.out.deps, c.listing);
  }

  /** The kernel reflects the configuration after `i` changes. */
  ghost predicate InStep(fixed: set<Name>, cs: seq<Change>, i: nat)
    requires i <= |cs|
  {
    KernelAt(fixed, cs, i) == Some(Meaning(ConfigAt(cs, i), fixed))
  }

  /** One more change, given that the kernel reflects the configuration so far. */
  lemma {:induction false} TrackStep(fixed: set<Name>, cs: seq<Change>, i: nat)
    requires IsHistory(fixed, cs) && i < |cs| && InStep(fixed, cs, i)
    ensures InStep(fixed, cs, i + 1) <==> WorksAt(cs, i)
  {
    var c := cs[i];
    HistoryAt(fixed, cs, i);
    ExitOrderCovers(fixed, cs, i);
    CommitCorrectIff(c.env, c.ds, ConfigAt(cs, i), c.out, ExitOrder(cs, i), c.listing);
  }

  ghost predicate WorkUpTo(cs: seq<Change>, i: nat)
    requires i <= |cs|
  {
    forall j :: 0 <= j < i ==> WorksAt(cs, j)
  }

  lemma {:induction false} StaysInStep(fixed: set<Name>, cs: seq<Change>, i: nat)
    requires i <= |cs| && InStep(fixed, cs, 0)
    requires forall j :: 0 <= j < i && InStep(fixed, cs, j) ==> InStep(fixed, cs, j + 1)
    ensures InStep(fixed, cs, i)
  {
    if i == 0 {
    } else {
      StaysInStep(fixed, cs, i - 1);
      assert InStep(fixed, cs, i - 1 + 1);
    }
  }

  /**
   Over every history of committed changes from an empty configuration, the kernel's devices,
   with their addresses, administrative states and bridges, are those of the configuration as
   long as the changes work ...
   */
  lemma {:induction false} KernelTracksConfig(fixed: set<Name>, cs: seq<Change>, i: nat)
    requires IsHistory(fixed, cs) && i <= |cs| && WorkUpTo(cs, i)
    ensures InStep(fixed, cs, i)
  {
    forall j | 0 <= j < i && InStep(fixed, cs, j) ensures InStep(fixed, cs, j + 1) {
      assert WorksAt(cs, j);
      TrackStep(fixed, cs, j);
    }
    StaysInStep(fixed, cs, i);
  }

  /** ... and the first change that does not work is exactly where they part. */
  lemma {:induction false} KernelPartsFromConfigIff(fixed: set<Name>, cs: seq<Change>, i: nat)
    requires IsHistory(fixed, cs) && i < |cs| && WorkUpTo(cs, i)
    ensures InStep(fixed, cs, i + 1) <==> WorksAt(cs, i)
  {
    KernelTracksConfig(fixed, cs, i);
    TrackStep(fixed, cs, i);
  }
}
