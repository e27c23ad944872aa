/** What a committed change that reaches the new configuration cannot have done. */
module CommitFailures {
  import opened DepOrder
  import opened Options
  import opened Kernel
  import opened Interfaces
  import opened InterfaceScripts
  import opened Netdag
  import opened Commit
  import opened CommitRun
  import A = Addresses
  import F = FreshAddresses

  // ---------- what commands leave alone ----------

  predicate Creates(c: Cmd, y: Name) {
    match c
    case AddBridge(n) => n == y
    case AddVeth(n, p) => n == y || p == y
    case AddVlan(n, _, _, _) => n == y
    case _ => false
  }

  /** The command may change the device `y`. */
  predicate Touches(c: Cmd, y: Name) {
    Creates(c, y) || c.DelLink? || ((c.FlushAll? || c.Address? || c.SetDown? || c.SetUp?) && c.name == y)
  }

  ghost predicate NoneCreates(cs: seq<Cmd>, y: Name) {
    forall i :: 0 <= i < |cs| ==> !Creates(cs[i], y)
  }

  ghost predicate NoneTouches(cs: seq<Cmd>, y: Name) {
    forall i :: 0 <= i < |cs| ==> !Touches(cs[i], y)
  }

  ghost predicate NoneDeletes(cs: seq<Cmd>) {
    forall i :: 0 <= i < |cs| ==> !cs[i].DelLink?
  }

  ghost function DevOf(k: State, y: Name): Option<Dev> {
    if y in k then Some(k[y]) else None
  }

  ghost function LinkOf(k: State, y: Name): Option<Link> {
    if y in k then Some(k[y].link) else None
  }

  lemma {:induction false} ExecKeepsDev(k: State, cs: seq<Cmd>, y: Name)
    requires NoneTouches(cs, y) && Exec(k, cs).Some?
    ensures DevOf(Exec(k, cs).value, y) == DevOf(k, y)
  {
    if cs == [] {
    } else {
      ExecKeepsDev(k, cs[..|cs| - 1], y);
    }
  }

  lemma {:induction false} ExecKeepsLink(k: State, cs: seq<Cmd>, y: Name)
    requires NoneCreates(cs, y) && Exec(k, cs).Some?
    ensures LinkOf(Exec(k, cs).value, y) in {None, LinkOf(k, y)}
  {
    if cs == [] {
    } else {
      ExecKeepsLink(k, cs[..|cs| - 1], y);
    }
  }

  lemma {:induction false} ExecKeepsPresent(k: State, cs: seq<Cmd>, y: Name)
    requires NoneDeletes(cs) && Exec(k, cs).Some? && y in k
    ensures y in Exec(k, cs).value
  {
    if cs == [] {
    } else {
      ExecKeepsPresent(k, cs[..|cs| - 1], y);
    }
  }

  // ---------- what a run of scripts leaves alone ----------

  lemma {:induction false} RunScriptsConcat(k: State, a: seq<Name>, b: seq<Name>, scripts: map<Name, seq<Cmd>>)
    ensures RunScripts(k, a + b, scripts) ==
            match RunScripts(k, a, scripts) case None => None case Some(l) => RunScripts(l, b, scripts)
  {
    if b == [] {
      assert a + b == a;
    } else {
      RunScriptsConcat(k, a, b[..|b| - 1], scripts);
      assert (a + b)[..|a + b| - 1] == a + b[..|b| - 1];
    }
  }

  /** A run that succeeds passes through a state before and one after each of its nodes. */
  lemma {:induction false} RunPasses(k: State, order: seq<Name>, scripts: map<Name, seq<Cmd>>, i: nat)
    returns (l: State, r: State)
    requires i < |order| && RunScripts(k, order, scripts).Some?
    ensures RunScripts(k, order[..i], scripts) == Some(l)
    ensures if order[i] in scripts then Exec(l, scripts[order[i]]) == Some(r) else r == l
    ensures RunScripts(r, order[i + 1..], scripts) == RunScripts(k, order, scripts)
  {
    var a, n, b := order[..i], order[i], order[i + 1..];
    assert order == a + ([n] + b) && order == (a + [n]) + b;
    RunScriptsConcat(k, a, [n] + b, scripts);
    RunScriptsConcat(k, a + [n], b, scripts);
    assert (a + [n])[..|a|] == a;
    l := RunScripts(k, a, scripts).value;
    r := RunScripts(k, a + [n], scripts).value;
  }

  lemma {:induction false} RunKeepsDev(k: State, order: seq<Name>, scripts: map<Name, seq<Cmd>>, y: Name)
    requires RunScripts(k, order, scripts).Some?
    requires forall i :: 0 <= i < |order| && order[i] in scripts ==> NoneTouches(scripts[order[i]], y)
    ensures DevOf(RunScripts(k, order, scripts).value, y) == DevOf(k, y)
  {
    if order == [] {
    } else {
      var n, rest := order[|order| - 1], order[..|order| - 1];
      RunKeepsDev(k, rest, scripts, y);
      if n in scripts { ExecKeepsDev(RunScripts(k, rest, scripts).value, scripts[n], y); }
    }
  }

  lemma {:induction false} RunKeepsLink(k: State, order: seq<Name>, scripts: map<Name, seq<Cmd>>, y: Name)
    requires RunScripts(k, order, scripts).Some?
    requires forall i :: 0 <= i < |order| && order[i] in scripts ==> NoneCreates(scripts[order[i]], y)
    ensures LinkOf(RunScripts(k, order, scripts).value, y) in {None, LinkOf(k, y)}
  {
    if order == [] {
    } else {
      var n, rest := order[|order| - 1], order[..|order| - 1];
      RunKeepsLink(k, rest, scripts, y);
      if n in scripts { ExecKeepsLink(RunScripts(k, rest, scripts).value, scripts[n], y); }
    }
  }

  lemma {:induction false} RunKeepsPresent(k: State, order: seq<Name>, scripts: map<Name, seq<Cmd>>, y: Name)
    requires RunScripts(k, order, scripts).Some? && y in k
    requires forall i :: 0 <= i < |order| && order[i] in scripts ==> NoneDeletes(scripts[order[i]])
    ensures y in RunScripts(k, order, scripts).value
  {
    if order == [] {
    } else {
      var n, rest := order[|order| - 1], order[..|order| - 1];
      RunKeepsPresent(k, rest, scripts, y);
      if n in scripts { ExecKeepsPresent(RunScripts(k, rest, scripts).value, scripts[n], y); }
    }
  }

  // ---------- what the init scripts leave alone ----------

  lemma {:induction false} ConfigureTouchesOnly(env: Env, d: IfDiff, v4: seq<A.Cmd>, v6: seq<A.Cmd>, y: Name)
    requires d.name in env.now && SetPart(env, d) in {[], [SetBridge(d.name)]}
    ensures NoneDeletes(ConfigurePart(env, d, v4, v6)) && NoneCreates(ConfigurePart(env, d, v4, v6), y)
    ensures y != d.name ==> NoneTouches(ConfigurePart(env, d, v4, v6), y)
  {
    var down, set_ := [SetDown(d.name, env.now[d.name].bridge)], SetPart(env, d);
    var up := if env.now[d.name].up then [SetUp(d.name)] else [];
    var cs := ConfigurePart(env, d, v4, v6);
    assert cs == down + set_ + OnDev(d.name, v4) + OnDev(d.name, v6) + up;
    forall i | 0 <= i < |cs| ensures !cs[i].DelLink? && !Creates(cs[i], y) && (y != d.name ==> !Touches(cs[i], y)) {
      assert cs[i] in down || cs[i] in set_ || cs[i] in OnDev(d.name, v4) || cs[i] in OnDev(d.name, v6) || cs[i] in up;
    }
  }

  /** The init script of an interface, taken apart. */
  lemma {:induction false} InitIs(env: Env, ds: seq<IfDiff>, was: Config, out: Output, m: Name)
    requires Known(env, ds, was, out) && m in out.init
    ensures m in Names(ds) && m in env.now && FamReady(env, ds[At(ds, m)])
    ensures var d := ds[At(ds, m)];
            && out.init[m] == AddPart(env, d, SkippedAt(env, ds, At(ds, m))) +
                              ConfigurePart(env, d, FamCmds(env, d, A.V4).value, FamCmds(env, d, A.V6).value)
            && SetPart(env, d) in {[], [SetBridge(m)]}
  {
    assert Facts(env, ds, was, out, m);
    assert WellFormedIface(env.now, env.fixed, m);
  }

  /** `m` makes `y`: it is `y`, or a new end that makes the pair and has `y` as its peer. */
  ghost predicate Maker(env: Env, ds: seq<IfDiff>, m: Name, y: Name)
    requires Readable(env, ds)
  {
    AddsName(env, ds, m) && (m == y || (NewEnd(env, ds, m) && !SkippedEnd(env, ds, m) && env.now[m].link == Veth(y)))
  }

  lemma {:induction false} InitLeavesAlone(env: Env, ds: seq<IfDiff>, was: Config, out: Output, m: Name, y: Name)
    requires Known(env, ds, was, out) && m in out.init
    ensures NoneDeletes(out.init[m])
    ensures !Maker(env, ds, m, y) ==> NoneCreates(out.init[m], y)
    ensures !Maker(env, ds, m, y) && m != y ==> NoneTouches(out.init[m], y)
  {
    InitIs(env, ds, was, out, m);
    var d := ds[At(ds, m)];
    var cs := AddPart(env, d, SkippedAt(env, ds, At(ds, m)));
    ConfigureTouchesOnly(env, d, FamCmds(env, d, A.V4).value, FamCmds(env, d, A.V6).value, y);
    AddLeavesAlone(env, ds, m, y);
    BothLeaveAlone(cs, ConfigurePart(env, d, FamCmds(env, d, A.V4).value, FamCmds(env, d, A.V6).value), y);
  }

  lemma {:induction false} AddLeavesAlone(env: Env, ds: seq<IfDiff>, m: Name, y: Name)
    requires Readable(env, ds) && m in Names(ds) && m in env.now
    ensures var cs := AddPart(env, ds[At(ds, m)], SkippedAt(env, ds, At(ds, m)));
            NoneDeletes(cs) && (!Maker(env, ds, m, y) ==> NoneCreates(cs, y) && NoneTouches(cs, y))
  {
  }

  lemma {:induction false} BothLeaveAlone(cs: seq<Cmd>, ds: seq<Cmd>, y: Name)
    ensures NoneDeletes(cs) && NoneDeletes(ds) ==> NoneDeletes(cs + ds)
    ensures NoneCreates(cs, y) && NoneCreates(ds, y) ==> NoneCreates(cs + ds, y)
    ensures NoneTouches(cs, y) && NoneTouches(ds, y) ==> NoneTouches(cs + ds, y)
  {
  }

  /** Nothing makes `y`. */
  lemma {:induction false} NoMaker(env: Env, ds: seq<IfDiff>, was: Config, out: Output, m: Name, y: Name)
    requires Known(env, ds, was, out) && y in was && y in env.now && y !in Gone(env, ds)
    requires Repeered(was, env.now, y) ==> env.now[y].link.peer in was
    ensures !Maker(env, ds, m, y)
  {
    assert Facts(env, ds, was, out, y) && Paired(env, ds, was, m);
  }

  /** Only the new peer makes an end again. */
  lemma {:induction false} OnlyMaker(env: Env, ds: seq<IfDiff>, was: Config, out: Output, m: Name, n: Name)
    requires Known(env, ds, was, out) && Repeered(was, env.now, n) && Maker(env, ds, m, n)
    ensures m == env.now[n].link.peer && m != n
  {
    assert Facts(env, ds, was, out, n) && Paired(env, ds, was, m);
  }

  // ---------- the two halves of a change ----------

  /** A change that reaches the new configuration, and the kernel before, between and after its scripts. */
  ghost predicate Reached(env: Env, ds: seq<IfDiff>, was: Config, out: Output, ex: seq<Name>, order: seq<Name>,
                          k: State, l: State)
  {
    && Known(env, ds, was, out) && NoDup(ex) && Covers(was, ex) && NoDup(order)
    && (forall n :: n in env.now ==> n in order)
    && SameDevices(k, Meaning(was, env.fixed))
    && IsExit(out.exit, Gone(env, ds), k) && IsAlong(k, Gone(env, ds), Along(was, env.now))
    && RunScripts(k, ex, out.exit) == Some(l) && RunScripts(l, order, out.init) == Some(Meaning(env.now, env.fixed))
  }

  lemma {:induction false} CommitReaches(env: Env, ds: seq<IfDiff>, was: Config, out: Output, ex: seq<Name>,
                                         listing: seq<Name>)
    returns (k: State, l: State)
    requires IsChange(env, ds, was) && Readable(env, ds) && IsCompiled(env, ds, out) && Acyclic(out.deps)
    requires NoDup(ex) && Covers(was, ex) && forall n :: n in out.deps ==> n in listing
    requires Committed(env, out, Meaning(was, env.fixed), ex, listing) == Some(Meaning(env.now, env.fixed))
    ensures Reached(env, ds, was, out, ex, Order(out.deps, listing), k, l)
  {
    k := FlushEach(Meaning(was, env.fixed), out.flushes);
    l := RunScripts(k, ex, out.exit).value;
    BeforeExit(env, ds, was, out);
    AllKnown(env, ds, was, out);
    OrderIsTopological(out.deps, listing);
  }

  // ---------- ends that get another peer ----------

  /** A device that nothing makes keeps its link, or goes. */
  lemma {:induction false} LinkStays(env: Env, ds: seq<IfDiff>, was: Config, out: Output, order: seq<Name>, l: State,
                                     y: Name)
    requires Known(env, ds, was, out) && y in was && y in env.now && y !in Gone(env, ds)
    requires Repeered(was, env.now, y) ==> env.now[y].link.peer in was
    requires RunScripts(l, order, out.init).Some?
    ensures LinkOf(RunScripts(l, order, out.init).value, y) in {None, LinkOf(l, y)}
  {
    forall i | 0 <= i < |order| && order[i] in out.init ensures NoneCreates(out.init[order[i]], y) {
      NoMaker(env, ds, was, out, order[i], y);
      InitLeavesAlone(env, ds, was, out, order[i], y);
    }
    RunKeepsLink(l, order, out.init, y);
  }

  /** About an end that gets another peer, and its two peers. */
  lemma {:induction false} RepeeredFacts(env: Env, ds: seq<IfDiff>, was: Config, out: Output, n: Name)
    requires Known(env, ds, was, out) && Repeered(was, env.now, n)
    ensures n !in env.fixed && n in Names(ds) && n !in Gone(env, ds) && n in out.init && !AddsName(env, ds, n)
    ensures var p := was[n].link.peer;
            && p in was && p != n && p !in env.fixed && was[p].link == Veth(n)
            && (p in env.now ==> p !in Gone(env, ds)) && (p !in env.now ==> p in Gone(env, ds))
    ensures var q := env.now[n].link.peer;
            && q in env.now && q != n
            && (q !in was ==>
                  NewEnd(env, ds, q) && !SkippedEnd(env, ds, q) && env.now[q].link == Veth(n) && q in out.init)
  {
    EndFacts(env, ds, was, out, n);
    OldPeerFacts(env, ds, was, out, n);
    NewPeerFacts(env, ds, was, out, n);
  }

  lemma {:induction false} EndFacts(env: Env, ds: seq<IfDiff>, was: Config, out: Output, n: Name)
    requires Known(env, ds, was, out) && Repeered(was, env.now, n)
    ensures n !in env.fixed && n in Names(ds) && n !in Gone(env, ds) && n in out.init && !AddsName(env, ds, n)
  {
    assert Facts(env, ds, was, out, n);
  }

  lemma {:induction false} OldPeerFacts(env: Env, ds: seq<IfDiff>, was: Config, out: Output, n: Name)
    requires Known(env, ds, was, out) && Repeered(was, env.now, n)
    ensures var p := was[n].link.peer;
            && p in was && p != n && p !in env.fixed && was[p].link == Veth(n)
            && (p in env.now ==> p !in Gone(env, ds)) && (p !in env.now ==> p in Gone(env, ds))
  {
    assert Facts(env, ds, was, out, n);
    assert Facts(env, ds, was, out, was[n].link.peer);
  }

  lemma {:induction false} NewPeerFacts(env: Env, ds: seq<IfDiff>, was: Config, out: Output, n: Name)
    requires Known(env, ds, was, out) && Repeered(was, env.now, n)
    ensures var q := env.now[n].link.peer;
            && q in env.now && q != n
            && (q !in was ==>
                  NewEnd(env, ds, q) && !SkippedEnd(env, ds, q) && env.now[q].link == Veth(n) && q in out.init)
  {
    assert Facts(env, ds, was, out, n);
    var q := env.now[n].link.peer;
    assert Facts(env, ds, was, out, q) && Paired(env, ds, was, q);
  }

  /** An end that nothing makes keeps its old peer, or is gone: its new peer is not from before. */
  lemma {:induction false} NewPeerIsNew(env: Env, ds: seq<IfDiff>, was: Config, out: Output, ex: seq<Name>,
                                        order: seq<Name>, k: State, l: State, n: Name)
    requires Reached(env, ds, was, out, ex, order, k, l) && Repeered(was, env.now, n)
    ensures env.now[n].link.peer !in was
  {
    RepeeredFacts(env, ds, was, out, n);
    ExitFewer(k, ex, out.exit, Gone(env, ds));
    if env.now[n].link.peer in was { LinkStays(env, ds, was, out, order, l, n); }
  }

  /** An end that is still there when its new peer is made stops the run: its old peer is removed. */
  lemma {:induction false} OldPeerGoes(env: Env, ds: seq<IfDiff>, was: Config, out: Output, ex: seq<Name>,
                                       order: seq<Name>, k: State, l: State, n: Name)
    requires Reached(env, ds, was, out, ex, order, k, l) && Repeered(was, env.now, n) && env.now[n].link.peer !in was
    ensures was[n].link.peer !in env.now
  {
    RepeeredFacts(env, ds, was, out, n);
    MakerNeedsRoom(env, ds, was, out, order, l, env.now[n].link.peer, n);
    if was[n].link.peer in env.now { PairSurvives(k, ex, out.exit, Gone(env, ds), n, was[n].link.peer); }
  }

  lemma {:induction false} MakerNeedsRoom(env: Env, ds: seq<IfDiff>, was: Config, out: Output, order: seq<Name>,
                                          l: State, q: Name, n: Name)
    requires Known(env, ds, was, out) && NewEnd(env, ds, q) && !SkippedEnd(env, ds, q) && env.now[q].link == Veth(n)
    requires q in out.init && q in order && RunScripts(l, order, out.init).Some?
    ensures n !in l
  {
    var i :| 0 <= i < |order| && order[i] == q;
    var a, b := RunPasses(l, order, out.init, i);
    if n in l {
      forall j | 0 <= j < i && order[..i][j] in out.init ensures NoneDeletes(out.init[order[..i][j]]) {
        InitLeavesAlone(env, ds, was, out, order[j], n);
      }
      RunKeepsPresent(l, order[..i], out.init, n);
      InitIs(env, ds, was, out, q);
      MakesPair(env, ds, out, a, q, n);
    }
  }

  /** The script of an end that makes a pair starts by adding it. */
  lemma {:induction false} MakesPair(env: Env, ds: seq<IfDiff>, out: Output, k: State, q: Name, n: Name)
    requires Readable(env, ds) && NewEnd(env, ds, q) && !SkippedEnd(env, ds, q) && env.now[q].link == Veth(n)
    requires q in out.init && FamReady(env, ds[At(ds, q)])
    requires var d := ds[At(ds, q)];
             out.init[q] == AddPart(env, d, SkippedAt(env, ds, At(ds, q))) +
                            ConfigurePart(env, d, FamCmds(env, d, A.V4).value, FamCmds(env, d, A.V6).value)
    ensures Exec(k, out.init[q]) ==
            match Exec1(k, AddVeth(q, n))
            case None => None
            case Some(l) => Exec(l, ConfigurePart(env, ds[At(ds, q)], FamCmds(env, ds[At(ds, q)], A.V4).value,
                                                  FamCmds(env, ds[At(ds, q)], A.V6).value))
  {
    var d := ds[At(ds, q)];
    var rest := ConfigurePart(env, d, FamCmds(env, d, A.V4).value, FamCmds(env, d, A.V6).value);
    assert out.init[q] == [AddVeth(q, n)] + rest;
    ExecConcat(k, [AddVeth(q, n)], rest);
    Exec1Is(k, AddVeth(q, n));
  }

  /** An end goes along with its removed peer. */
  lemma {:induction false} RemadeIsLost(env: Env, ds: seq<IfDiff>, was: Config, out: Output, ex: seq<Name>,
                                        order: seq<Name>, k: State, l: State, n: Name)
    requires Reached(env, ds, was, out, ex, order, k, l) && Remade(was, env.now, n)
    ensures n !in l
  {
    OldPeerFacts(env, ds, was, out, n);
    EndFacts(env, ds, was, out, n);
    assert k[n].link == Veth(was[n].link.peer);
    PeerIsLost(k, ex, out.exit, Gone(env, ds), Along(was, env.now), n, was[n].link.peer);
  }

  lemma {:induction false} PeerIsLost(k: State, ex: seq<Name>, scripts: map<Name, seq<Cmd>>, gone: set<Name>,
                                      along: map<Name, Name>, n: Name, p: Name)
    requires IsExit(scripts, gone, k) && IsAlong(k, gone, along) && NoDup(ex) && RunScripts(k, ex, scripts).Some?
    requires n in k && p in k && k[n].link == Veth(p) && p in gone && p in ex && n != p
    ensures n !in RunScripts(k, ex, scripts).value
  {
    var j :| 0 <= j < |ex| && ex[j] == p;
    assert Edge(Stack(k), n, p);
    AboveIsLost(k, ex, scripts, gone, along, j, n);
  }

  /** Until its new peer has been set up, nothing brings it back. */
  lemma {:induction false} StaysLost(env: Env, ds: seq<IfDiff>, was: Config, out: Output, order: seq<Name>, l: State,
                                     n: Name)
    requires Known(env, ds, was, out) && Repeered(was, env.now, n) && n !in order
    requires RunScripts(l, order, out.init).Some? && env.now[n].link.peer !in order
    ensures DevOf(RunScripts(l, order, out.init).value, n) == DevOf(l, n)
  {
    forall i | 0 <= i < |order| && order[i] in out.init ensures NoneTouches(out.init[order[i]], n) {
      if Maker(env, ds, order[i], n) { OnlyMaker(env, ds, was, out, order[i], n); }
      InitLeavesAlone(env, ds, was, out, order[i], n);
    }
    RunKeepsDev(l, order, out.init, n);
  }

  /** The script of an end that stays is just its configuration. */
  lemma {:induction false} RepeeredScript(env: Env, ds: seq<IfDiff>, was: Config, out: Output, n: Name)
    requires Known(env, ds, was, out) && Repeered(was, env.now, n)
    ensures n in out.init && n in Names(ds) && FamReady(env, ds[At(ds, n)]) && SetPart(env, ds[At(ds, n)]) == []
    ensures out.init[n] == ConfigurePart(env, ds[At(ds, n)], FamCmds(env, ds[At(ds, n)], A.V4).value,
                                         FamCmds(env, ds[At(ds, n)], A.V6).value)
  {
    EndFacts(env, ds, was, out, n);
    InitIs(env, ds, was, out, n);
  }

  lemma {:induction false} AfterDown(k: State, n: Name, master: Option<Name>, cs: seq<Cmd>)
    requires Exec(k, [SetDown(n, master)] + cs).Some?
    ensures n in k && Exec(k[n := k[n].Down(master)], cs) == Exec(k, [SetDown(n, master)] + cs)
  {
    ExecConcat(k, [SetDown(n, master)], cs);
    Exec1Is(k, SetDown(n, master));
  }

  lemma {:induction false} BeforeUp(k: State, n: Name, cs: seq<Cmd>, up: seq<Cmd>)
    requires up in {[], [SetUp(n)]} && Exec(k, cs + up).Some?
    ensures Exec(k, cs).Some?
    ensures var l, r := Exec(k, cs).value, Exec(k, cs + up).value;
            r == l || (n in l && r == l[n := l[n].(up := true)])
  {
    ExecConcat(k, cs, up);
    if up == [] {
    } else {
      Exec1Is(Exec(k, cs).value, SetUp(n));
    }
  }

  /** Configuring a device needs it to be there, and runs its address commands. */
  lemma {:induction false} ConfigureGives(env: Env, d: IfDiff, k: State, v4: seq<A.Cmd>, v6: seq<A.Cmd>)
    requires d.name in env.now && SetPart(env, d) == [] && Exec(k, ConfigurePart(env, d, v4, v6)).Some?
    ensures var r := Exec(k, ConfigurePart(env, d, v4, v6)).value;
            d.name in k && d.name in r && A.Exec(k[d.name].addrs, v4 + v6) == Some(r[d.name].addrs)
  {
    var n, b := d.name, env.now[d.name].bridge;
    var up := if env.now[n].up then [SetUp(n)] else [];
    var cs := OnDev(n, v4 + v6);
    assert ConfigurePart(env, d, v4, v6) == [SetDown(n, b)] + (cs + up);
    AfterDown(k, n, b, cs + up);
    BeforeUp(k[n := k[n].Down(b)], n, cs, up);
    AddressesRan(k[n := k[n].Down(b)], n, v4 + v6);
  }

  /** What address commands of a device that succeeded have done. */
  lemma {:induction false} AddressesRan(k: State, name: Name, cs: seq<A.Cmd>)
    requires name in k && Exec(k, OnDev(name, cs)).Some?
    ensures var r := Exec(k, OnDev(name, cs)).value;
            name in r && A.Exec(k[name].addrs, cs) == Some(r[name].addrs)
  {
    if cs == [] {
      assert OnDev(name, cs) == [];
    } else {
      assert OnDev(name, cs)[..|cs| - 1] == OnDev(name, cs[..|cs| - 1]);
      AddressesRan(k, name, cs[..|cs| - 1]);
    }
  }

  /** It comes after its new peer. */
  lemma {:induction false} RemadeAfterMaker(env: Env, ds: seq<IfDiff>, was: Config, out: Output, ex: seq<Name>,
                                            order: seq<Name>, k: State, l: State, n: Name)
    requires Reached(env, ds, was, out, ex, order, k, l) && Remade(was, env.now, n)
    ensures Before(order, env.now[n].link.peer, n)
  {
    RemadeIsLost(env, ds, was, out, ex, order, k, l, n);
    var i :| 0 <= i < |order| && order[i] == n;
    BeforeAt(order, env.now[n].link.peer, i);
    RepeeredScript(env, ds, was, out, n);
    var a, b := RunPasses(l, order, out.init, i);
    var d := ds[At(ds, n)];
    ConfigureGives(env, d, a, FamCmds(env, d, A.V4).value, FamCmds(env, d, A.V6).value);
    if env.now[n].link.peer !in order[..i] { StaysLost(env, ds, was, out, order[..i], l, n); }
  }

  /** Its peer makes it without addresses. */
  lemma {:induction false} MakerGivesNone(env: Env, ds: seq<IfDiff>, was: Config, out: Output, a: State, q: Name,
                                          n: Name)
    requires Known(env, ds, was, out) && NewEnd(env, ds, q) && !SkippedEnd(env, ds, q) && env.now[q].link == Veth(n)
    requires q != n && q in out.init && Exec(a, out.init[q]).Some?
    ensures DevOf(Exec(a, out.init[q]).value, n) == Some(NewDev(Veth(q)))
  {
    InitIs(env, ds, was, out, q);
    MakesPair(env, ds, out, a, q, n);
    var d := ds[At(ds, q)];
    var v4, v6 := FamCmds(env, d, A.V4).value, FamCmds(env, d, A.V6).value;
    ConfigureTouchesOnly(env, d, v4, v6, n);
    ExecKeepsDev(Exec1(a, AddVeth(q, n)).value, ConfigurePart(env, d, v4, v6), n);
  }

  lemma {:induction false} MadeBefore(env: Env, ds: seq<IfDiff>, was: Config, out: Output, order: seq<Name>, l: State,
                                      n: Name)
    requires Known(env, ds, was, out) && Remade(was, env.now, n) && NoDup(order) && n !in order
    requires RunScripts(l, order, out.init).Some? && env.now[n].link.peer in order
    ensures DevOf(RunScripts(l, order, out.init).value, n) == Some(NewDev(env.now[n].link))
  {
    var q := env.now[n].link.peer;
    RepeeredFacts(env, ds, was, out, n);
    var j :| 0 <= j < |order| && order[j] == q;
    var a, b := RunPasses(l, order, out.init, j);
    MakerGivesNone(env, ds, was, out, a, q, n);
    StaysLost(env, ds, was, out, order[j + 1..], b, n);
  }

  /** It had no addresses to keep. */
  lemma {:induction false} RemadeKeepsNone(env: Env, ds: seq<IfDiff>, was: Config, out: Output, order: seq<Name>,
                                           l: State, n: Name)
    requires Known(env, ds, was, out) && NoDup(order) && Remade(was, env.now, n)
    requires RunScripts(l, order, out.init) == Some(Meaning(env.now, env.fixed))
    requires Before(order, env.now[n].link.peer, n)
    ensures KeepsNone(was[n], env.now[n])
  {
    var i, j :| 0 <= i < j < |order| && order[i] == env.now[n].link.peer && order[j] == n;
    assert order[..j][i] == order[i];
    EndFacts(env, ds, was, out, n);
    var a, b := AroundItsTurn(env, ds, was, out, order, l, n, j);
    GetsItsAddresses(env, ds, was, out, a, b, n);
  }

  lemma {:induction false} AroundItsTurn(env: Env, ds: seq<IfDiff>, was: Config, out: Output, order: seq<Name>,
                                         l: State, n: Name, j: nat)
    returns (a: State, b: State)
    requires Known(env, ds, was, out) && NoDup(order) && Remade(was, env.now, n) && n in out.init
    requires RunScripts(l, order, out.init) == Some(Meaning(env.now, env.fixed))
    requires j < |order| && order[j] == n && env.now[n].link.peer in order[..j]
    ensures Exec(a, out.init[n]) == Some(b) && n in a && a[n].addrs == {}
    ensures n in b && b[n].addrs == AddrsOf(Some(env.now[n]))
  {
    a, b := RunPasses(l, order, out.init, j);
    MadeBefore(env, ds, was, out, order[..j], l, n);
    AfterIt(order, env.now[n].link.peer, j);
    StaysLost(env, ds, was, out, order[j + 1..], b, n);
  }

  lemma {:induction false} GetsItsAddresses(env: Env, ds: seq<IfDiff>, was: Config, out: Output, a: State, b: State,
                                            n: Name)
    requires Known(env, ds, was, out) && Repeered(was, env.now, n) && n in out.init && Exec(a, out.init[n]) == Some(b)
    requires n in a && a[n].addrs == {} && n in b && b[n].addrs == AddrsOf(Some(env.now[n]))
    ensures KeepsNone(was[n], env.now[n])
  {
    RepeeredScript(env, ds, was, out, n);
    EndFacts(env, ds, was, out, n);
    ItsTurnIsFresh(env, ds, was, out, a, b, n);
  }

  lemma {:induction false} ItsTurnIsFresh(env: Env, ds: seq<IfDiff>, was: Config, out: Output, a: State, b: State,
                                          n: Name)
    requires Known(env, ds, was, out) && Repeered(was, env.now, n) && n in Names(ds) && FamReady(env, ds[At(ds, n)])
    requires SetPart(env, ds[At(ds, n)]) == []
    requires Exec(a, ConfigurePart(env, ds[At(ds, n)], FamCmds(env, ds[At(ds, n)], A.V4).value,
                                   FamCmds(env, ds[At(ds, n)], A.V6).value)) == Some(b)
    requires n in a && a[n].addrs == {} && n in b && b[n].addrs == AddrsOf(Some(env.now[n]))
    ensures KeepsNone(was[n], env.now[n])
  {
    var d := ds[At(ds, n)];
    var v4, v6 := FamCmds(env, d, A.V4).value, FamCmds(env, d, A.V6).value;
    ConfigureGives(env, d, a, v4, v6);
    EndsFresh(env, ds, was, out, n, v4, v6);
  }

  lemma {:induction false} AfterIt(order: seq<Name>, q: Name, i: nat)
    requires NoDup(order) && i < |order| && q in order[..i]
    ensures q !in order[i + 1..] && order[i] !in order[i + 1..]
  {
  }

  lemma {:induction false} EndsFresh(env: Env, ds: seq<IfDiff>, was: Config, out: Output, n: Name, v4: seq<A.Cmd>,
                                     v6: seq<A.Cmd>)
    requires Known(env, ds, was, out) && Repeered(was, env.now, n) && n in Names(ds) && FamReady(env, ds[At(ds, n)])
    requires FamCmds(env, ds[At(ds, n)], A.V4) == Some(v4) && FamCmds(env, ds[At(ds, n)], A.V6) == Some(v6)
    requires A.Exec({}, v4 + v6) == Some(AddrsOf(Some(env.now[n])))
    ensures KeepsNone(was[n], env.now[n])
  {
    assert Facts(env, ds, was, out, n) && ValidIface(Some(was[n])) && WellFormedIface(env.now, env.fixed, n);
    F.FreshIface(env, ds[At(ds, n)], was[n], v4, v6);
  }

  // ---------- ports that leave their bridge ----------

  /** No command makes `y` a port. */
  ghost predicate NoneJoins(cs: seq<Cmd>, y: Name) {
    forall i :: 0 <= i < |cs| && cs[i].SetDown? && cs[i].name == y ==> cs[i].master == None
  }

  lemma {:induction false} ExecKeepsMaster(k: State, cs: seq<Cmd>, y: Name)
    requires NoneCreates(cs, y) && NoneDeletes(cs) && NoneJoins(cs, y) && Exec(k, cs).Some?
    ensures y in Exec(k, cs).value ==> y in k && Exec(k, cs).value[y].master == k[y].master
  {
    if cs == [] {
    } else {
      ExecKeepsMaster(k, cs[..|cs| - 1], y);
    }
  }

  lemma {:induction false} RunKeepsMaster(k: State, order: seq<Name>, scripts: map<Name, seq<Cmd>>, y: Name)
    requires RunScripts(k, order, scripts).Some?
    requires forall i :: 0 <= i < |order| && order[i] in scripts ==>
               var cs := scripts[order[i]]; NoneCreates(cs, y) && NoneDeletes(cs) && NoneJoins(cs, y)
    ensures var r := RunScripts(k, order, scripts).value; y in r ==> y in k && r[y].master == k[y].master
  {
    if order == [] {
    } else {
      var n, rest := order[|order| - 1], order[..|order| - 1];
      RunKeepsMaster(k, rest, scripts, y);
      if n in scripts {
        assert order[|order| - 1] == n;
        ExecKeepsMaster(RunScripts(k, rest, scripts).value, scripts[n], y);
      }
    }
  }

  /** An exit script lets go of no bridge that is not deleted. */
  lemma {:induction false} ExitKeepsMaster(k: State, order: seq<Name>, scripts: map<Name, seq<Cmd>>, gone: set<Name>,
                                           y: Name)
    requires IsExit(scripts, gone, k) && RunScripts(k, order, scripts).Some?
    requires y in k && k[y].master.Some? && k[y].master.value !in gone
    ensures var r := RunScripts(k, order, scripts).value; y in r ==> r[y].master == k[y].master
  {
    if order == [] {
    } else {
      var n, rest := order[|order| - 1], order[..|order| - 1];
      ExitKeepsMaster(k, rest, scripts, gone, y);
      var l := RunScripts(k, rest, scripts).value;
      ExitFewer(k, rest, scripts, gone);
      if n in scripts {
        ExitOneFewer(k, l, scripts, gone, n);
        if n !in gone { DownAndFlush(l, n); }
      }
    }
  }

  lemma {:induction false} InitJoins(env: Env, ds: seq<IfDiff>, was: Config, out: Output, n: Name)
    requires Known(env, ds, was, out) && n in out.init && n in env.now && env.now[n].bridge == None
    ensures NoneJoins(out.init[n], n)
  {
    InitIs(env, ds, was, out, n);
    var d := ds[At(ds, n)];
    var v4, v6 := FamCmds(env, d, A.V4).value, FamCmds(env, d, A.V6).value;
    ConfigureJoins(env, d, v4, v6);
  }

  lemma {:induction false} ConfigureJoins(env: Env, d: IfDiff, v4: seq<A.Cmd>, v6: seq<A.Cmd>)
    requires d.name in env.now && SetPart(env, d) in {[], [SetBridge(d.name)]} && env.now[d.name].bridge == None
    ensures NoneJoins(ConfigurePart(env, d, v4, v6), d.name)
  {
    var up := if env.now[d.name].up then [SetUp(d.name)] else [];
    assert ConfigurePart(env, d, v4, v6) ==
           [SetDown(d.name, None)] + SetPart(env, d) + OnDev(d.name, v4) + OnDev(d.name, v6) + up;
  }

  /** Nothing makes a port that leaves. */
  lemma {:induction false} NoMakerOfPort(env: Env, ds: seq<IfDiff>, was: Config, out: Output, m: Name, n: Name)
    requires Known(env, ds, was, out) && Leaves(was, env.now, n) && !Repeered(was, env.now, n)
    ensures !Maker(env, ds, m, n)
  {
    assert Facts(env, ds, was, out, n) && Facts(env, ds, was, out, m);
    if n in env.now { NoMaker(env, ds, was, out, m, n); }
  }

  lemma {:induction false} ScriptsKeepPort(env: Env, ds: seq<IfDiff>, was: Config, out: Output, m: Name, n: Name)
    requires Known(env, ds, was, out) && Leaves(was, env.now, n) && !Repeered(was, env.now, n) && m in out.init
    ensures NoneCreates(out.init[m], n) && NoneDeletes(out.init[m]) && NoneJoins(out.init[m], n)
  {
    NoMakerOfPort(env, ds, was, out, m, n);
    InitLeavesAlone(env, ds, was, out, m, n);
    if m == n {
      InitIs(env, ds, was, out, n);
      InitJoins(env, ds, was, out, n);
    }
  }

  /** A port that leaves a bridge which stays is still a port of it, whenever the scripts run through. */
  lemma {:induction false} PortStays(env: Env, ds: seq<IfDiff>, was: Config, out: Output, ex: seq<Name>,
                                     order: seq<Name>, k: State, l: State, r: State, n: Name)
    requires Known(env, ds, was, out) && Leaves(was, env.now, n) && !Repeered(was, env.now, n)
    requires SameDevices(k, Meaning(was, env.fixed)) && IsExit(out.exit, Gone(env, ds), k)
    requires RunScripts(k, ex, out.exit) == Some(l) && RunScripts(l, order, out.init) == Some(r)
    ensures n in r ==> r[n].master == was[n].bridge
  {
    assert Facts(env, ds, was, out, n);
    ExitKeepsMaster(k, ex, out.exit, Gone(env, ds), n);
    forall i | 0 <= i < |order| && order[i] in out.init
      ensures var cs := out.init[order[i]]; NoneCreates(cs, n) && NoneDeletes(cs) && NoneJoins(cs, n)
    {
      ScriptsKeepPort(env, ds, was, out, order[i], n);
    }
    RunKeepsMaster(l, order, out.init, n);
  }

  /** So no port leaves its bridge. */
  lemma {:induction false} NoneLeaves(env: Env, ds: seq<IfDiff>, was: Config, out: Output, ex: seq<Name>,
                                      order: seq<Name>, k: State, l: State, n: Name)
    requires Reached(env, ds, was, out, ex, order, k, l) && !Repeered(was, env.now, n)
    ensures !Leaves(was, env.now, n)
  {
    assert Facts(env, ds, was, out, n);
    if Leaves(was, env.now, n) {
      PortStays(env, ds, was, out, ex, order, k, l, Meaning(env.now, env.fixed), n);
    }
  }

  // ---------- removals that are not orderly ----------

  /** `y` is above the removed `ex[j]`, is not removed before it and not meant to go along. */
  ghost predicate Disorder(k: State, ex: seq<Name>, gone: set<Name>, along: map<Name, Name>, j: nat, y: Name) {
    && j < |ex| && ex[j] in gone && y != ex[j] && Above(k, along, y, ex[j])
    && !(y in gone && y in ex[..j]) && !(y in along && along[y] == ex[j])
  }

  lemma {:induction false} StandsHow(k: State, y: Name, x: Name)
    requires Edge(Stack(k), y, x)
    ensures y in k && x in k && (k[y].link == Veth(x) || (k[y].link.Vlan? && k[y].link.parent == x))
  {
  }

  /** A veth end above a removed device is its peer. */
  lemma {:induction false} AboveHow(k: State, gone: set<Name>, along: map<Name, Name>, y: Name, x: Name)
    requires IsAlong(k, gone, along) && Above(k, along, y, x) && y != x
    requires k[x].link.Veth? ==> k[x].link.peer in k && k[k[x].link.peer].link == Veth(x)
    requires x in k
    ensures y in k && !k[y].link.Plain?
    ensures k[y].link.Veth? && (k[y].link.peer in k ==> k[k[y].link.peer].link == Veth(y)) ==> k[y].link == Veth(x)
  {
    if Edge(Stack(k), y, x) {
      StandsHow(k, y, x);
    } else {
      var m :| m in along && along[m] == x && Edge(Stack(k), y, m);
      StandsHow(k, y, m);
    }
  }

  lemma {:induction false} DisorderDevice(env: Env, ds: seq<IfDiff>, was: Config, out: Output, k: State, ex: seq<Name>,
                                          j: nat, y: Name)
    requires Known(env, ds, was, out) && IsAlong(k, Gone(env, ds), Along(was, env.now))
    requires SameDevices(k, Meaning(was, env.fixed))
    requires IsExit(out.exit, Gone(env, ds), k) && Disorder(k, ex, Gone(env, ds), Along(was, env.now), j, y)
    ensures y in was
    ensures y !in Gone(env, ds) ==> y in env.now && (Repeered(was, env.now, y) ==> env.now[y].link.peer in was)
  {
    var x := ex[j];
    GoneFacts(env, ds, was, out, x);
    LinksFrom(env, ds, was, out, k, x);
    AboveHow(k, Gone(env, ds), Along(was, env.now), y, x);
    assert y in was && y !in env.fixed && k[y].link == was[y].link;
    LinksFrom(env, ds, was, out, k, y);
    StaysOrGoes(env, ds, was, out, y);
    if y !in Gone(env, ds) && Repeered(was, env.now, y) {
      assert was[y].link.peer == x;
      assert env.now[y].link.peer !in was ==> Remade(was, env.now, y);
    }
  }

  lemma {:induction false} GoneFacts(env: Env, ds: seq<IfDiff>, was: Config, out: Output, x: Name)
    requires Known(env, ds, was, out) && x in Gone(env, ds)
    ensures x in was && x !in env.fixed && (was[x].link.Veth? ==> x !in env.now)
  {
    assert Facts(env, ds, was, out, x);
  }

  lemma {:induction false} StaysOrGoes(env: Env, ds: seq<IfDiff>, was: Config, out: Output, y: Name)
    requires Known(env, ds, was, out) && y in was && y !in env.fixed
    ensures y in Gone(env, ds) || y in env.now
  {
    assert Facts(env, ds, was, out, y);
  }

  lemma {:induction false} LinksFrom(env: Env, ds: seq<IfDiff>, was: Config, out: Output, k: State, x: Name)
    requires Known(env, ds, was, out) && x in was && x !in env.fixed
    requires SameDevices(k, Meaning(was, env.fixed))
    ensures x in k && k[x].link == was[x].link
    ensures k[x].link.Veth? ==> k[x].link.peer in k && k[k[x].link.peer].link == Veth(x)
  {
    assert Facts(env, ds, was, out, x);
  }

  /** Disorder makes a command fail, or loses a device that is still configured. */
  lemma {:induction false} DisorderFails(env: Env, ds: seq<IfDiff>, was: Config, out: Output, ex: seq<Name>,
                                         order: seq<Name>, k: State, l: State, j: nat, y: Name)
    requires Known(env, ds, was, out) && NoDup(ex) && Covers(was, ex)
    requires SameDevices(k, Meaning(was, env.fixed))
    requires IsExit(out.exit, Gone(env, ds), k) && IsAlong(k, Gone(env, ds), Along(was, env.now))
    requires RunScripts(k, ex, out.exit) == Some(l)
    requires Disorder(k, ex, Gone(env, ds), Along(was, env.now), j, y)
    ensures y !in Gone(env, ds) && RunScripts(l, order, out.init) != Some(Meaning(env.now, env.fixed))
  {
    var gone, along := Gone(env, ds), Along(was, env.now);
    DisorderDevice(env, ds, was, out, k, ex, j, y);
    if y in gone {
      RemovedTooLate(k, ex, out.exit, gone, along, j, y);
    } else {
      AboveIsLost(k, ex, out.exit, gone, along, j, y);
      if RunScripts(l, order, out.init).Some? { LinkStays(env, ds, was, out, order, l, y); }
    }
  }

  lemma {:induction false} RemovedTooLate(k: State, ex: seq<Name>, scripts: map<Name, seq<Cmd>>, gone: set<Name>,
                                          along: map<Name, Name>, j: nat, y: Name)
    requires IsExit(scripts, gone, k) && IsAlong(k, gone, along) && NoDup(ex)
    requires Disorder(k, ex, gone, along, j, y) && y in gone && y in ex
    ensures RunScripts(k, ex, scripts) == None
  {
    var i := LaterThan(ex, j, y);
    TooLateFails(k, ex, scripts, gone, along, j, i);
  }

  lemma {:induction false} LaterThan(ex: seq<Name>, j: nat, y: Name) returns (i: nat)
    requires j < |ex| && y in ex && y != ex[j] && y !in ex[..j]
    ensures j < i < |ex| && ex[i] == y
  {
    assert ex == ex[..j] + ex[j..];
    var m :| 0 <= m < |ex[j..]| && ex[j..][m] == y;
    i := j + m;
  }
}
