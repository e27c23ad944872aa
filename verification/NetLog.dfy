/** Which actions one run of the `net` tool runs, of which generation, and in which order. */
module NetLog {
  import opened DepOrder
  import opened Net
  import opened NetHistory

  /** The interfaces whose action of a generation was run, one after the other. */
  function CallsOf(log: seq<Event>, gen: Name, a: Action): seq<Name> {
    if log == [] then [] else
      var e := log[|log| - 1];
      CallsOf(log[..|log| - 1], gen, a) + if e.gen == gen && e.action == a then [e.iface] else []
  }

  /** The stages of a run: teardown from the bridges down, then setup from the hardware up. */
  function Stage(a: Action): nat {
    match a
    case ExitBridge => 0 case ExitIp => 1 case ExitEthtool => 2
    case InitEthtool => 3 case InitIp => 4 case InitBridge => 5
  }

  predicate IsExitAction(a: Action) {
    a in {ExitBridge, ExitIp, ExitEthtool}
  }

  ghost predicate Staged(log: seq<Event>) {
    forall i, j :: 0 <= i < j < |log| ==> Stage(log[i].action) <= Stage(log[j].action)
  }

  /** Some interface on record has an exit action for a pipe whose closing fails. */
  ghost predicate SomeExitFails(t: Tree, lines: seq<Name>) {
    exists n, a :: n in lines && a in {ExitBridge, ExitIp} && EntryOf(t, n, a) == Script(true)
  }

  /** The run gets as far as tearing down the generation `c`. */
  ghost predicate TearsDown(d: Disk, f: Faults, c: Name) {
    !f.pipes && d.next.Holds? && d.gen == Holds(c)
  }

  /** The run gets as far as setting up the generation that `next` names. */
  ghost predicate SetsUp(trees: map<Name, Tree>, d: Disk, f: Faults) {
    && !f.pipes && d.next.Holds? && d.gen != Empty
    && (d.gen.Holds? ==> !SomeExitFails(TreeOf(trees, d.gen.name), Recorded(d.rdeps, d.gen.name)))
  }

  // ---------- logs in parts ----------

  lemma {:induction false} CallsConcat(a: seq<Event>, b: seq<Event>, gen: Name, x: Action)
    ensures CallsOf(a + b, gen, x) == CallsOf(a, gen, x) + CallsOf(b, gen, x)
  {
    if b == [] {
      assert a + b == a;
    } else {
      CallsConcat(a, b[..|b| - 1], gen, x);
      assert (a + b)[..|a + b| - 1] == a + b[..|b| - 1];
    }
  }

  lemma {:induction false} CallsOfEvents(g: Name, b: Action, ns: seq<Name>, gen: Name, a: Action)
    ensures CallsOf(Events(g, b, ns), gen, a) == if g == gen && a == b then ns else []
  {
    if ns == [] {
    } else {
      CallsOfEvents(g, b, ns[..|ns| - 1], gen, a);
      assert Events(g, b, ns)[..|ns| - 1] == Events(g, b, ns[..|ns| - 1]);
      assert ns == ns[..|ns| - 1] + [ns[|ns| - 1]];
    }
  }

  /** Three actions of one generation, one after the other. */
  function Three(t: Tree, gen: Name, a: Action, b: Action, c: Action, ns: seq<Name>): seq<Event> {
    Events(gen, a, Runnable(t, a, ns)) + Events(gen, b, Runnable(t, b, ns)) + Events(gen, c, Runnable(t, c, ns))
  }

  lemma {:induction false} CallsOfThree(t: Tree, gen: Name, a: Action, b: Action, c: Action, ns: seq<Name>, g: Name,
                                        x: Action)
    requires a != b && b != c && a != c
    ensures CallsOf(Three(t, gen, a, b, c, ns), g, x) == if g == gen && x in {a, b, c} then Runnable(t, x, ns) else []
  {
    CallsSum(Events(gen, a, Runnable(t, a, ns)), Events(gen, b, Runnable(t, b, ns)), Events(gen, c, Runnable(t, c, ns)),
             g, x);
    CallsOfEvents(gen, a, Runnable(t, a, ns), g, x);
    CallsOfEvents(gen, b, Runnable(t, b, ns), g, x);
    CallsOfEvents(gen, c, Runnable(t, c, ns), g, x);
    AmongNone(Runnable(t, x, ns));
  }

  lemma {:induction false} CallsSum(e1: seq<Event>, e2: seq<Event>, e3: seq<Event>, g: Name, x: Action)
    ensures CallsOf(e1 + e2 + e3, g, x) == CallsOf(e1, g, x) + CallsOf(e2, g, x) + CallsOf(e3, g, x)
  {
    CallsConcat(e1 + e2, e3, g, x);
    CallsConcat(e1, e2, g, x);
  }

  lemma {:induction false} AmongNone(r: seq<Name>)
    ensures r + [] + [] == r && [] + r + [] == r && [] + [] + r == r
  {
  }

  lemma {:induction false} ThreeStaged(t: Tree, gen: Name, a: Action, b: Action, c: Action, ns: seq<Name>)
    requires Stage(a) < Stage(b) < Stage(c)
    ensures Staged(Three(t, gen, a, b, c, ns))
    ensures forall i :: 0 <= i < |Three(t, gen, a, b, c, ns)| ==>
              Stage(a) <= Stage(Three(t, gen, a, b, c, ns)[i].action) <= Stage(c)
  {
  }

  lemma {:induction false} RunnableCount(t: Tree, a: Action, ns: seq<Name>, n: Name)
    ensures multiset(Runnable(t, a, ns))[n] == if EntryOf(t, n, a).Script? then multiset(ns)[n] else 0
  {
    if ns == [] {
    } else {
      RunnableCount(t, a, ns[..|ns| - 1], n);
      assert ns == ns[..|ns| - 1] + [ns[|ns| - 1]];
    }
  }

  // ---------- the log of a run ----------

  lemma {:induction false} SumIsNoPositive(t: Tree, a: Action, lines: seq<Name>)
    ensures SumRc(t, a, lines) <= 0
    ensures SumRc(t, a, lines) != 0 <==> exists n :: n in lines && a.IsPipe() && EntryOf(t, n, a) == Script(true)
  {
    if lines == [] {
    } else {
      var n, rest := lines[|lines| - 1], lines[..|lines| - 1];
      SumIsNoPositive(t, a, rest);
      assert lines == rest + [n];
      assert n in lines && forall m :: m in rest ==> m in lines;
    }
  }

  lemma {:induction false} TeardownRc(t: Tree, lines: seq<Name>)
    ensures DeactivateRc(t, lines) != 0 <==> SomeExitFails(t, lines)
  {
    SumIsNoPositive(t, ExitBridge, lines);
    SumIsNoPositive(t, ExitIp, lines);
    SumIsNoPositive(t, ExitEthtool, lines);
  }

  ghost function TeardownPart(trees: map<Name, Tree>, d: Disk, f: Faults): seq<Event> {
    if !f.pipes && d.next.Holds? && d.gen.Holds? then
      Three(TreeOf(trees, d.gen.name), d.gen.name, ExitBridge, ExitIp, ExitEthtool, Recorded(d.rdeps, d.gen.name))
    else []
  }

  ghost function SetupPart(trees: map<Name, Tree>, d: Disk, f: Faults): seq<Event>
    requires NextWellFormed(trees, d)
  {
    if SetsUp(trees, d, f) then
      var t := TreeOf(trees, d.next.name);
      Three(t, d.next.name, InitEthtool, InitIp, InitBridge, PassOrder(t))
    else []
  }

  lemma {:induction false} TornDownIs(trees: map<Name, Tree>, d: Disk, f: Faults)
    ensures TornDown(trees, d, f).log == TeardownPart(trees, d, f)
    ensures TornDown(trees, d, f).Go? <==> SetsUp(trees, d, f)
    ensures TornDown(trees, d, f).Stop? ==>
              TornDown(trees, d, f).exit in {PipesFailed, NothingToDo, NoCurrentName, TeardownFailed}
  {
    if d.gen.Holds? { TeardownRc(TreeOf(trees, d.gen.name), Recorded(d.rdeps, d.gen.name)); }
  }

  lemma {:induction false} ConcludedLog(d: Disk, m: Mem, rc: int, next: Name, f: Faults)
    ensures Concluded(d, m, rc, next, f).log == m.log
    ensures Concluded(d, m, rc, next, f).exit !in {PipesFailed, NothingToDo, NoCurrentName, TeardownFailed}
  {
  }

  lemma {:induction false} LogIs(trees: map<Name, Tree>, d: Disk, f: Faults)
    requires NextWellFormed(trees, d)
    ensures Run(trees, d, f).log == TeardownPart(trees, d, f) + SetupPart(trees, d, f)
    ensures SetsUp(trees, d, f) <==>
            Run(trees, d, f).exit !in {PipesFailed, NothingToDo, NoCurrentName, TeardownFailed}
  {
    TornDownIs(trees, d, f);
    var log := TeardownPart(trees, d, f);
    if SetsUp(trees, d, f) {
      SetupLog(trees, d, log, f);
    } else {
      assert log + [] == log;
    }
  }

  lemma {:induction false} SetupLog(trees: map<Name, Tree>, d: Disk, log: seq<Event>, f: Faults)
    requires NextWellFormed(trees, d) && SetsUp(trees, d, f)
    ensures SetUp(trees, d, log, d.next.name, f).log == log + SetupPart(trees, d, f)
    ensures SetUp(trees, d, log, d.next.name, f).exit !in {PipesFailed, NothingToDo, NoCurrentName, TeardownFailed}
  {
    var t, m := TreeOf(trees, d.next.name), Mem([], 0, d.deps, log);
    ActivationMeans(m, t, d.next.name);
    ConcludedLog(d, Activated(m, t, d.next.name), ActivateRc(t), d.next.name, f);
  }

  /** A run ends for a failed teardown if and only if an exit action on record fails that goes to a pipe. */
  lemma {:induction false} TeardownFailsIff(trees: map<Name, Tree>, d: Disk, f: Faults)
    requires NextWellFormed(trees, d)
    ensures Run(trees, d, f).exit == TeardownFailed <==>
            d.gen.Holds? && TearsDown(d, f, d.gen.name) &&
            SomeExitFails(TreeOf(trees, d.gen.name), Recorded(d.rdeps, d.gen.name))
  {
    if d.gen.Holds? { TeardownRc(TreeOf(trees, d.gen.name), Recorded(d.rdeps, d.gen.name)); }
  }

  /**
   Teardown runs each of the three exit actions of the current generation for every line on
   record that has it, in the order of the lines, so dependers first if they are.
   */
  lemma {:induction false} TeardownCalls(trees: map<Name, Tree>, d: Disk, f: Faults, c: Name, a: Action)
    requires NextWellFormed(trees, d) && TearsDown(d, f, c) && IsExitAction(a)
    ensures var lines, calls := Recorded(d.rdeps, c), CallsOf(Run(trees, d, f).log, c, a);
            && (forall n :: multiset(calls)[n] ==
                  if EntryOf(TreeOf(trees, c), n, a).Script? then multiset(lines)[n] else 0)
            && (NoDup(lines) ==> NoDup(calls))
            && forall g: Graph :: NoDup(lines) && Acyclic(g) && DependersFirst(g, lines) ==> DependersFirst(g, calls)
  {
    var t, lines := TreeOf(trees, c), Recorded(d.rdeps, c);
    CallsAre(trees, d, f, c, a);
    forall n ensures multiset(Runnable(t, a, lines))[n] == if EntryOf(t, n, a).Script? then multiset(lines)[n] else 0 {
      RunnableCount(t, a, lines, n);
    }
    if NoDup(lines) { RunnableKeepsOrder(t, map[], a, lines); }
    forall g: Graph | NoDup(lines) && Acyclic(g) && DependersFirst(g, lines)
      ensures DependersFirst(g, Runnable(t, a, lines))
    {
      RunnableKeepsOrder(t, g, a, lines);
    }
  }

  /**
   Setup runs each of the three init actions once for every interface that has it,
   dependencies first; three names are never interfaces.
   */
  lemma {:induction false} SetupCalls(trees: map<Name, Tree>, d: Disk, f: Faults, a: Action)
    requires NextWellFormed(trees, d) && SetsUp(trees, d, f) && !IsExitAction(a)
    ensures var t, calls := TreeOf(trees, d.next.name), CallsOf(Run(trees, d, f).log, d.next.name, a);
            && NoDup(calls) && DependenciesFirst(GraphOf(t), calls)
            && forall n :: n in calls <==>
                 n in t.ifaces && EntryOf(t, n, a).Script? && n !in {"deps", "rdeps", "admin-state"}
  {
    var t := TreeOf(trees, d.next.name);
    CallsAre(trees, d, f, d.next.name, a);
    PassRunsInDependencyOrder(Mem([], 0, map[], []), t, d.next.name, a);
  }

  lemma {:induction false} CallsAre(trees: map<Name, Tree>, d: Disk, f: Faults, g: Name, a: Action)
    requires NextWellFormed(trees, d)
    ensures CallsOf(Run(trees, d, f).log, g, a) ==
            if IsExitAction(a) then
              (if TearsDown(d, f, g) then Runnable(TreeOf(trees, g), a, Recorded(d.rdeps, g)) else [])
            else if SetsUp(trees, d, f) && d.next.name == g
            then Runnable(TreeOf(trees, g), a, PassOrder(TreeOf(trees, g))) else []
  {
    var p, q := CallsOf(TeardownPart(trees, d, f), g, a), CallsOf(SetupPart(trees, d, f), g, a);
    assert CallsOf(Run(trees, d, f).log, g, a) == p + q by {
      LogIs(trees, d, f);
      CallsConcat(TeardownPart(trees, d, f), SetupPart(trees, d, f), g, a);
    }
    TeardownPartCalls(trees, d, f, g, a);
    SetupPartCalls(trees, d, f, g, a);
    if IsExitAction(a) {
      assert p + [] == p;
    } else {
      assert [] + q == q;
    }
  }

  lemma {:induction false} TeardownPartCalls(trees: map<Name, Tree>, d: Disk, f: Faults, g: Name, a: Action)
    ensures CallsOf(TeardownPart(trees, d, f), g, a) ==
            if IsExitAction(a) && TearsDown(d, f, g) then Runnable(TreeOf(trees, g), a, Recorded(d.rdeps, g)) else []
  {
    if d.gen.Holds? {
      var c := d.gen.name;
      CallsOfThree(TreeOf(trees, c), c, ExitBridge, ExitIp, ExitEthtool, Recorded(d.rdeps, c), g, a);
    }
  }

  lemma {:induction false} SetupPartCalls(trees: map<Name, Tree>, d: Disk, f: Faults, g: Name, a: Action)
    requires NextWellFormed(trees, d)
    ensures CallsOf(SetupPart(trees, d, f), g, a) ==
            if !IsExitAction(a) && SetsUp(trees, d, f) && d.next.name == g
            then Runnable(TreeOf(trees, g), a, PassOrder(TreeOf(trees, g))) else []
  {
    if SetsUp(trees, d, f) {
      var t := TreeOf(trees, d.next.name);
      CallsOfThree(t, d.next.name, InitEthtool, InitIp, InitBridge, PassOrder(t), g, a);
    }
  }

  /** Nothing else is run ... */
  lemma {:induction false} NothingElseRuns(trees: map<Name, Tree>, d: Disk, f: Faults, g: Name, a: Action)
    requires NextWellFormed(trees, d)
    ensures IsExitAction(a) && !TearsDown(d, f, g) ==> CallsOf(Run(trees, d, f).log, g, a) == []
    ensures !IsExitAction(a) && !(SetsUp(trees, d, f) && d.next.name == g) ==> CallsOf(Run(trees, d, f).log, g, a) == []
  {
    CallsAre(trees, d, f, g, a);
  }

  /** ... and the stages come one after the other. */
  lemma {:induction false} RunIsStaged(trees: map<Name, Tree>, d: Disk, f: Faults)
    requires NextWellFormed(trees, d)
    ensures Staged(Run(trees, d, f).log)
  {
    LogIs(trees, d, f);
    if d.gen.Holds? {
      var c := d.gen.name;
      ThreeStaged(TreeOf(trees, c), c, ExitBridge, ExitIp, ExitEthtool, Recorded(d.rdeps, c));
    }
    if SetsUp(trees, d, f) {
      var t := TreeOf(trees, d.next.name);
      ThreeStaged(t, d.next.name, InitEthtool, InitIp, InitBridge, PassOrder(t));
    }
    StagedBoth(TeardownPart(trees, d, f), SetupPart(trees, d, f));
  }

  lemma {:induction false} StagedBoth(a: seq<Event>, b: seq<Event>)
    requires Staged(a) && Staged(b)
    requires forall i :: 0 <= i < |a| ==> Stage(a[i].action) <= 2
    requires forall i :: 0 <= i < |b| ==> 3 <= Stage(b[i].action)
    ensures Staged(a + b)
  {
  }

  /**
   Over every history: a generation whose first run got as far as saving its order is torn down
   by running each exit action of each of its interfaces once, dependers first.
   */
  lemma {:induction false} TeardownInHistory(ws: seq<World>, steps: seq<Step>, k: nat, c: Name, f: Faults, a: Action)
    requires IsHistory(ws, steps) && k < |ws| && NextWellFormed(ws[k].trees, ws[k].disk)
    requires TearsDown(ws[k].disk, f, c) && IsExitAction(a)
    requires c in ws[k].first && ws[k].first[c].exit !in {SetupFailed, ReverseFailed}
    ensures c in ws[k].trees
    ensures var t, calls := ws[k].trees[c], CallsOf(Run(ws[k].trees, ws[k].disk, f).log, c, a);
            && NoDup(calls) && (forall n :: n in calls <==> n in GraphOf(t) && EntryOf(t, n, a).Script?)
            && DependersFirst(GraphOf(t), calls)
  {
    TeardownCompleteIff(ws, steps, k, c);
    CallsAre(ws[k].trees, ws[k].disk, f, c, a);
    TeardownVisitsDependersFirst(ws[k].trees[c], ws[k].trees[c], a);
  }

  // ---------- failures of setup ----------

  /** An action fails in a way that is told: it cannot be resolved, or goes to a pipe whose closing fails. */
  ghost predicate InitFails(t: Tree, n: Name, a: Action) {
    EntryOf(t, n, a) == Unresolved || (a in {InitIp, InitBridge} && EntryOf(t, n, a) == Script(true))
  }

  /** The action of some interface fails that is listed before all that depend on it. */
  ghost predicate SomeInitFails(t: Tree, a: Action) {
    var ns := Dir(t.listing);
    exists k :: 0 <= k < |ns| && InitFails(t, ns[k], a) && !Needed(GraphOf(t), ns[..k], ns[k])
  }

  lemma {:induction false} OpenFailureIff(t: Tree, a: Action)
    requires !IsExitAction(a)
    ensures SomeOpenFailure(t, a, Dir(t.listing)) <==> SomeInitFails(t, a)
  {
    var ns := Dir(t.listing);
    if k: nat :| FailsInTheOpen(t, a, ns, k) {
      assert InitFails(t, ns[k], a);
    }
    if k :| 0 <= k < |ns| && InitFails(t, ns[k], a) && !Needed(GraphOf(t), ns[..k], ns[k]) {
      assert FailsInTheOpen(t, a, ns, k);
    }
  }

  lemma {:induction false} PassRc(t: Tree, a: Action)
    requires WellFormed(t) && !IsExitAction(a)
    ensures Reported(t, a, [], Dir(t.listing)) <= 0
    ensures Reported(t, a, [], Dir(t.listing)) != 0 <==> SomeInitFails(t, a)
  {
    DirMembers(t.listing);
    ReportedIff(t, a, Dir(t.listing));
    OpenFailureIff(t, a);
  }

  lemma {:induction false} SetupRc(t: Tree)
    requires WellFormed(t)
    ensures ActivateRc(t) != 0 <==>
            SomeInitFails(t, InitEthtool) || SomeInitFails(t, InitIp) || SomeInitFails(t, InitBridge)
  {
    PassRc(t, InitEthtool);
    PassRc(t, InitIp);
    PassRc(t, InitBridge);
  }

  /** A run ends for a failed setup if and only if some interface fails that is listed before all that depend on it. */
  lemma {:induction false} SetupFailsIff(trees: map<Name, Tree>, d: Disk, f: Faults)
    requires NextWellFormed(trees, d)
    ensures Run(trees, d, f).exit == SetupFailed <==>
            SetsUp(trees, d, f) &&
            exists a :: a in {InitEthtool, InitIp, InitBridge} && SomeInitFails(TreeOf(trees, d.next.name), a)
  {
    TornDownIs(trees, d, f);
    if SetsUp(trees, d, f) { SetupRc(TreeOf(trees, d.next.name)); }
  }
}
