/**
 The `net` tool: switching the system from one network generation to the next.

 A generation is a directory with one sub-directory per interface; `deps/` in it
 links to the interfaces it depends on and its action files hold the commands to
 run.  Activation walks the interfaces in dependency order once per kind of action
 and records the order in `deps`; teardown follows the reversed record in `rdeps`.
 */
module Net {
  import opened DepOrder

  datatype Action = InitEthtool | InitIp | InitBridge | ExitBridge | ExitIp | ExitEthtool {
    /** Actions piped to `ip` and `bridge`; the others are shell scripts. */
    predicate IsPipe() {
      this != InitEthtool && this != ExitEthtool
    }
  }

  /** What resolving an action file of an interface gives. */
  datatype Entry =
    | Absent                      // no such file
    | Unresolved                  // resolving fails for another reason
    | Script(closeFails: bool)    // there; whether closing it after piping fails

  datatype IfaceDir = IfaceDir(deps: seq<Name>, actions: map<Action, Entry>)

  /** A generation directory: its listing, in directory order, and its sub-directories. */
  datatype Tree = Tree(listing: seq<Name>, ifaces: map<Name, IfaceDir>)

  datatype GenFile = Missing | Empty | Holds(name: Name)

  /** One call of `run()`. */
  datatype Event = Ran(gen: Name, iface: Name, action: Action)

  predicate DirFilter(file: Name) {
    file !in ["deps", "rdeps", "admin-state"]
  }

  /** A directory listing without the filtered names. */
  function Dir(files: seq<Name>): seq<Name> {
    if files == [] then [] else
      Dir(files[..|files| - 1]) + if DirFilter(files[|files| - 1]) then [files[|files| - 1]] else []
  }

  function GraphOf(t: Tree): Graph {
    map n | n in t.ifaces && DirFilter(n) :: Dir(t.ifaces[n].deps)
  }

  /** A listing shows every entry once, and dependencies form no cycle. */
  ghost predicate WellFormed(t: Tree) {
    && Acyclic(GraphOf(t))
    && (forall n :: n in t.ifaces && DirFilter(n) ==> n in t.listing)
    && (forall n :: n in t.listing && DirFilter(n) ==> n in t.ifaces)
    && NoDup(t.listing)
  }

  function EntryOf(t: Tree, n: Name, a: Action): Entry {
    if n in t.ifaces && a in t.ifaces[n].actions then t.ifaces[n].actions[a] else Absent
  }

  /** What running the action of one interface returns; shell scripts never report. */
  function Rc(t: Tree, n: Name, a: Action): int {
    match EntryOf(t, n, a)
    case Absent => 0
    case Unresolved => -1
    case Script(closeFails) => if a.IsPipe() && closeFails then -1 else 0
  }

  /** The interfaces among `ns` that have the action. */
  function Runnable(t: Tree, a: Action, ns: seq<Name>): seq<Name> {
    if ns == [] then [] else
      var n := ns[|ns| - 1];
      Runnable(t, a, ns[..|ns| - 1]) + if EntryOf(t, n, a).Script? then [n] else []
  }

  function Events(gen: Name, a: Action, ns: seq<Name>): seq<Event> {
    seq(|ns|, i requires 0 <= i < |ns| => Ran(gen, ns[i], a))
  }

  function Recorded(files: map<Name, seq<Name>>, gen: Name): seq<Name> {
    if gen in files then files[gen] else []
  }

  // ---------- what a pass does to the state of the process ----------

  datatype Mem = Mem(list: seq<Name>, dep: nat, files: map<Name, seq<Name>>, log: seq<Event>)

  /** Finishing one visit of the walk: record the name, and run its action the first time. */
  function Visit(m: Mem, t: Tree, gen: Name, a: Action, x: Name): Mem {
    Mem(Add(m.list, x),
        if x in Recorded(m.files, gen) then m.dep else m.dep + 1,
        m.files[gen := Add(Recorded(m.files, gen), x)],
        if x in m.list || !EntryOf(t, x, a).Script? then m.log else m.log + [Ran(gen, x, a)])
  }

  function Fold<S>(f: (S, Name) -> S, s: S, xs: seq<Name>): S {
    if xs == [] then s else f(Fold(f, s, xs[..|xs| - 1]), xs[|xs| - 1])
  }

  lemma {:induction false} FoldConcat<S>(f: (S, Name) -> S, s: S, xs: seq<Name>, ys: seq<Name>)
    ensures Fold(f, s, xs + ys) == Fold(f, Fold(f, s, xs), ys)
  {
    if ys == [] {
      assert xs + ys == xs;
    } else {
      FoldConcat(f, s, xs, ys[..|ys| - 1]);
      assert (xs + ys)[..|xs + ys| - 1] == xs + ys[..|ys| - 1];
    }
  }

  /** All visits of a walk, one after the other. */
  function VisitAll(m: Mem, t: Tree, gen: Name, a: Action, xs: seq<Name>): Mem {
    Fold((q, x) => Visit(q, t, gen, a, x), m, xs)
  }

  lemma {:induction false} VisitAllConcat(m: Mem, t: Tree, gen: Name, a: Action, xs: seq<Name>, ys: seq<Name>)
    ensures VisitAll(m, t, gen, a, xs + ys) == VisitAll(VisitAll(m, t, gen, a, xs), t, gen, a, ys)
  {
    FoldConcat((q, x) => Visit(q, t, gen, a, x), m, xs, ys);
  }

  lemma {:induction false} RunnableAppend(t: Tree, a: Action, ns: seq<Name>, n: Name)
    ensures Runnable(t, a, ns + [n]) == Runnable(t, a, ns) + if EntryOf(t, n, a).Script? then [n] else []
  {
    assert (ns + [n])[..|ns + [n]| - 1] == ns;
  }

  lemma {:induction false} EventsAppend(gen: Name, a: Action, ns: seq<Name>, n: Name)
    ensures Events(gen, a, ns + [n]) == Events(gen, a, ns) + [Ran(gen, n, a)]
  {
  }

  lemma {:induction false} EventsGrow(t: Tree, gen: Name, a: Action, ns: seq<Name>, n: Name)
    ensures Events(gen, a, Runnable(t, a, ns + [n])) ==
            Events(gen, a, Runnable(t, a, ns)) + if EntryOf(t, n, a).Script? then [Ran(gen, n, a)] else []
  {
    RunnableAppend(t, a, ns, n);
    if EntryOf(t, n, a).Script? {
      EventsAppend(gen, a, Runnable(t, a, ns), n);
    } else {
      assert Runnable(t, a, ns + [n]) == Runnable(t, a, ns);
    }
  }

  /** The log grows by one event for every runnable name that is new on the list. */
  ghost predicate LogGrowth(m: Mem, r: Mem, t: Tree, gen: Name, a: Action) {
    && m.list <= r.list
    && r.log == m.log + Events(gen, a, Runnable(t, a, r.list[|m.list|..]))
  }

  lemma {:induction false} LogStep(t: Tree, gen: Name, a: Action, list: seq<Name>, log: seq<Event>, k: nat,
                                   log': seq<Event>, x: Name)
    requires k <= |list| && log' == log + Events(gen, a, Runnable(t, a, list[k..]))
    ensures log' + (if EntryOf(t, x, a).Script? then [Ran(gen, x, a)] else []) ==
            log + Events(gen, a, Runnable(t, a, (list + [x])[k..]))
  {
    assert (list + [x])[k..] == list[k..] + [x];
    EventsGrow(t, gen, a, list[k..], x);
  }

  lemma {:induction false} VisitLog(m: Mem, q: Mem, t: Tree, gen: Name, a: Action, x: Name)
    requires LogGrowth(m, q, t, gen, a)
    ensures LogGrowth(m, Visit(q, t, gen, a, x), t, gen, a)
  {
    if x !in q.list { LogStep(t, gen, a, q.list, m.log, |m.list|, q.log, x); }
  }

  /** A pass in closed form: first occurrences are recorded and run, in order. */
  lemma {:induction false} VisitAllMeans(m: Mem, t: Tree, gen: Name, a: Action, xs: seq<Name>)
    ensures VisitAll(m, t, gen, a, xs).list == AppendNew(m.list, xs)
    ensures Recorded(VisitAll(m, t, gen, a, xs).files, gen) == AppendNew(Recorded(m.files, gen), xs)
    ensures forall h :: h != gen ==> Recorded(VisitAll(m, t, gen, a, xs).files, h) == Recorded(m.files, h)
    ensures VisitAll(m, t, gen, a, xs).dep ==
            m.dep + |AppendNew(Recorded(m.files, gen), xs)| - |Recorded(m.files, gen)|
    ensures LogGrowth(m, VisitAll(m, t, gen, a, xs), t, gen, a)
  {
    if xs == [] {
      assert m.list[|m.list|..] == [];
    } else {
      VisitAllMeans(m, t, gen, a, xs[..|xs| - 1]);
      VisitLog(m, VisitAll(m, t, gen, a, xs[..|xs| - 1]), t, gen, a, xs[|xs| - 1]);
    }
  }

  // ---------- sub-sequences keep order ----------

  /** Two runnable members stand in the same order as in the whole sequence. */
  lemma {:induction false} RunnablePair(t: Tree, a: Action, ns: seq<Name>, i: nat, j: nat) returns (k: nat, l: nat)
    requires i < j < |Runnable(t, a, ns)|
    ensures k < l < |ns| && ns[k] == Runnable(t, a, ns)[i] && ns[l] == Runnable(t, a, ns)[j]
  {
    var rest := ns[..|ns| - 1];
    if j < |Runnable(t, a, rest)| {
      k, l := RunnablePair(t, a, rest, i, j);
    } else {
      RunnableMembers(t, a, rest);
      assert Runnable(t, a, rest)[i] in rest;
      k :| 0 <= k < |rest| && rest[k] == Runnable(t, a, rest)[i];
      l := |rest|;
    }
  }

  lemma {:induction false} RunnableMembers(t: Tree, a: Action, ns: seq<Name>)
    ensures forall n :: n in Runnable(t, a, ns) <==> n in ns && EntryOf(t, n, a).Script?
  {
    if ns == [] {
    } else {
      RunnableMembers(t, a, ns[..|ns| - 1]);
      assert ns == ns[..|ns| - 1] + [ns[|ns| - 1]];
    }
  }

  /** Keeping only the interfaces that have an action keeps both kinds of order. */
  lemma {:induction false} RunnableKeepsOrder(t: Tree, g: Graph, a: Action, ns: seq<Name>)
    requires NoDup(ns) && Acyclic(g)
    ensures NoDup(Runnable(t, a, ns))
    ensures DependenciesFirst(g, ns) ==> DependenciesFirst(g, Runnable(t, a, ns))
    ensures DependersFirst(g, ns) ==> DependersFirst(g, Runnable(t, a, ns))
  {
    var r := Runnable(t, a, ns);
    forall i, j | 0 <= i < j < |r|
      ensures r[i] != r[j]
      ensures DependenciesFirst(g, ns) ==> !Reaches(g, r[i], r[j])
      ensures DependersFirst(g, ns) ==> !Reaches(g, r[j], r[i])
    {
      var k, l := RunnablePair(t, a, ns, i, j);
    }
    forall i | 0 <= i < |r| ensures !Reaches(g, r[i], r[i]) {
      if Reaches(g, r[i], r[i]) {
        var y := FirstEdge(g, r[i], r[i]);
      }
    }
  }

  lemma {:induction false} DirMembers(files: seq<Name>)
    ensures forall n :: n in Dir(files) <==> n in files && DirFilter(n)
    ensures NoDup(files) ==> NoDup(Dir(files))
  {
    if files == [] {
    } else {
      DirMembers(files[..|files| - 1]);
      assert files == files[..|files| - 1] + [files[|files| - 1]];
    }
  }

  /** The order of one pass over a generation. */
  ghost function PassOrder(t: Tree): seq<Name>
    requires WellFormed(t)
  {
    Order(GraphOf(t), Dir(t.listing))
  }

  /**
   One pass over a generation from an empty visited list runs the action of every
   interface that has it exactly once, and never before those of the interfaces it
   depends on, however often shared dependencies are walked again.
   */
  lemma {:induction false} PassRunsInDependencyOrder(m: Mem, t: Tree, gen: Name, a: Action)
    requires WellFormed(t) && m.list == []
    ensures var r := VisitAll(m, t, gen, a, WalkAll(GraphOf(t), Dir(t.listing)));
            && r.list == PassOrder(t)
            && r.log == m.log + Events(gen, a, Runnable(t, a, PassOrder(t)))
    ensures NoDup(Runnable(t, a, PassOrder(t)))
    ensures forall n :: n in Runnable(t, a, PassOrder(t)) <==>
                        n in t.ifaces && DirFilter(n) && EntryOf(t, n, a).Script?
    ensures DependenciesFirst(GraphOf(t), Runnable(t, a, PassOrder(t)))
  {
    var g, ns := GraphOf(t), Dir(t.listing);
    VisitAllMeans(m, t, gen, a, WalkAll(g, ns));
    DirMembers(t.listing);
    OrderIsTopological(g, ns);
    RunnableKeepsOrder(t, g, a, PassOrder(t));
    RunnableMembers(t, a, PassOrder(t));
    assert PassOrder(t)[0..] == PassOrder(t);
  }

  // ---------- which failures a pass reports ----------

  /** The sum of the return codes of the listed interfaces; those of nested visits are dropped. */
  ghost function Reported(t: Tree, a: Action, list: seq<Name>, ns: seq<Name>): int
    requires Acyclic(GraphOf(t))
  {
    if ns == [] then 0 else
      var n, rest := ns[|ns| - 1], ns[..|ns| - 1];
      Reported(t, a, list, rest) +
      if n in AppendNew(list, WalkAll(GraphOf(t), rest)) then 0 else Rc(t, n, a)
  }

  /** The interface listed at `k` fails and is listed before every interface that depends on it. */
  ghost predicate FailsInTheOpen(t: Tree, a: Action, ns: seq<Name>, k: nat) {
    k < |ns| && Rc(t, ns[k], a) != 0 && !Needed(GraphOf(t), ns[..k], ns[k])
  }

  ghost predicate SomeOpenFailure(t: Tree, a: Action, ns: seq<Name>) {
    exists k :: FailsInTheOpen(t, a, ns, k)
  }

  lemma {:induction false} OpenFailureAppend(t: Tree, a: Action, ns: seq<Name>, n: Name)
    ensures SomeOpenFailure(t, a, ns + [n]) <==>
            SomeOpenFailure(t, a, ns) || (Rc(t, n, a) != 0 && !Needed(GraphOf(t), ns, n))
  {
    var all := ns + [n];
    assert all[..|ns|] == ns;
    if k: nat :| FailsInTheOpen(t, a, ns, k) {
      assert all[..k] == ns[..k];
      assert FailsInTheOpen(t, a, all, k);
    }
    if k: nat :| FailsInTheOpen(t, a, all, k) && k < |ns| {
      assert all[..k] == ns[..k];
      assert FailsInTheOpen(t, a, ns, k);
    }
    if Rc(t, n, a) != 0 && !Needed(GraphOf(t), ns, n) {
      assert FailsInTheOpen(t, a, all, |ns|);
    }
  }

  /**
   A pass reports failure exactly when some failing interface is listed before all
   interfaces that depend on it: a failure first met below another interface is lost.
   */
  lemma {:induction false} PassReportsFailureIff(t: Tree, a: Action)
    requires WellFormed(t)
    ensures Reported(t, a, [], Dir(t.listing)) != 0 <==>
            SomeOpenFailure(t, a, Dir(t.listing))
  {
    DirMembers(t.listing);
    ReportedIff(t, a, Dir(t.listing));
  }

  /** A failure of the second of two interfaces is lost if the first depends on it. */
  lemma {:induction false} SecondFailureIsLost(t: Tree, a: Action, x: Name, y: Name)
    requires WellFormed(t) && Dir(t.listing) == [x, y] && Edge(GraphOf(t), x, y) && Rc(t, x, a) == 0
    ensures Reported(t, a, [], Dir(t.listing)) == 0
  {
    PassReportsFailureIff(t, a);
    forall k: nat ensures !FailsInTheOpen(t, a, [x, y], k) {
      if k == 1 {
        EdgeReaches(GraphOf(t), x, y);
        assert [x, y][..k] == [x] && Needed(GraphOf(t), [x], y);
      }
    }
  }

  /** Two interfaces; the one listed first depends on the other, whose setup fails. */
  function Stacked(x: Name, y: Name): Tree {
    Tree([x, y], map[x := IfaceDir([y], map[]), y := IfaceDir([], map[InitIp := Script(true)])])
  }

  lemma {:induction false} DirOne(x: Name)
    requires DirFilter(x)
    ensures Dir([x]) == [x]
  {
    assert [x][..0] == [] && Dir([]) == [];
  }

  lemma {:induction false} DirTwo(x: Name, y: Name)
    requires DirFilter(x) && DirFilter(y)
    ensures Dir([x, y]) == [x, y]
  {
    DirOne(x);
    assert [x, y][..1] == [x];
  }

  lemma {:induction false} StackedGraph(x: Name, y: Name)
    requires DirFilter(x) && DirFilter(y) && x != y
    ensures GraphOf(Stacked(x, y)) == map[x := [y], y := []]
  {
    DirOne(y);
  }

  lemma {:induction false} TwoAcyclic(x: Name, y: Name)
    requires x != y
    ensures Acyclic(map[x := [y], y := []])
  {
    RankedIsAcyclic(map[x := [y], y := []], map[x := 1, y := 0]);
  }

  /** So a pass can return success although the setup of an interface failed. */
  lemma {:induction false} NestedFailureIsLost(x: Name, y: Name)
    requires DirFilter(x) && DirFilter(y) && x != y
    ensures WellFormed(Stacked(x, y)) && Rc(Stacked(x, y), y, InitIp) != 0
    ensures Reported(Stacked(x, y), InitIp, [], Dir(Stacked(x, y).listing)) == 0
  {
    StackedWellFormed(x, y);
    StackedRc(x, y);
    SecondFailureIsLost(Stacked(x, y), InitIp, x, y);
  }

  lemma {:induction false} StackedRc(x: Name, y: Name)
    requires x != y
    ensures Rc(Stacked(x, y), x, InitIp) == 0 && Rc(Stacked(x, y), y, InitIp) == -1
  {
  }

  lemma {:induction false} StackedWellFormed(x: Name, y: Name)
    requires DirFilter(x) && DirFilter(y) && x != y
    ensures WellFormed(Stacked(x, y)) && Dir(Stacked(x, y).listing) == [x, y] && Edge(GraphOf(Stacked(x, y)), x, y)
  {
    StackedGraph(x, y);
    TwoAcyclic(x, y);
    DirTwo(x, y);
    StackedListing(x, y);
  }

  lemma {:induction false} StackedListing(x: Name, y: Name)
    requires x != y
    ensures NoDup(Stacked(x, y).listing) && forall n :: n in Stacked(x, y).listing <==> n in Stacked(x, y).ifaces
  {
    assert Stacked(x, y).listing[0] == x && Stacked(x, y).listing[1] == y;
    assert Stacked(x, y).ifaces.Keys == {x, y};
  }

  lemma {:induction false} ReportedIff(t: Tree, a: Action, ns: seq<Name>)
    requires Acyclic(GraphOf(t)) && NoDup(ns) && forall n :: n in ns ==> n in GraphOf(t)
    ensures Reported(t, a, [], ns) <= 0
    ensures Reported(t, a, [], ns) != 0 <==> SomeOpenFailure(t, a, ns)
  {
    if ns == [] {
    } else {
      var n, rest := ns[|ns| - 1], ns[..|ns| - 1];
      assert ns == rest + [n];
      ReportedIff(t, a, rest);
      AppendNewMembers([], WalkAll(GraphOf(t), rest));
      VisitedIff(GraphOf(t), rest, n);
      OpenFailureAppend(t, a, rest, n);
    }
  }

  // ---------- one run of the tool, on values ----------

  /** The files of the net directory that outlive a run. */
  datatype Disk = Disk(gen: GenFile, next: GenFile, deps: map<Name, seq<Name>>, rdeps: map<Name, seq<Name>>)

  /** Operations of one run that fail; a failed reversal may leave any text in `rdeps`. */
  datatype Faults = Faults(pipes: bool, rdeps: Garbled, gen: bool, remove: bool)
  datatype Garbled = Fine | LeftAs(lines: seq<Name>)

  datatype Exit =
    | PipesFailed | NothingToDo | NoCurrentName | TeardownFailed | SetupFailed
    | ReverseFailed | GenFailed | RemoveFailed | Done

  datatype Outcome = Outcome(disk: Disk, log: seq<Event>, exit: Exit)

  function TreeOf(trees: map<Name, Tree>, gen: Name): Tree {
    if gen in trees then trees[gen] else Tree([], map[])
  }

  /** The generation that `next` names, if any, is well formed. */
  ghost predicate NextWellFormed(trees: map<Name, Tree>, d: Disk) {
    d.next.Holds? ==> WellFormed(TreeOf(trees, d.next.name))
  }

  /** One pass of activation, which ends by forgetting the visited list. */
  ghost function Pass(m: Mem, t: Tree, gen: Name, a: Action): Mem
    requires Acyclic(GraphOf(t))
  {
    VisitAll(m, t, gen, a, WalkAll(GraphOf(t), Dir(t.listing))).(list := [])
  }

  ghost function Activated(m: Mem, t: Tree, gen: Name): Mem
    requires Acyclic(GraphOf(t))
  {
    Pass(Pass(Pass(m, t, gen, InitEthtool), t, gen, InitIp), t, gen, InitBridge)
  }

  ghost function ActivateRc(t: Tree): int
    requires Acyclic(GraphOf(t))
  {
    var ns := Dir(t.listing);
    Reported(t, InitEthtool, [], ns) + Reported(t, InitIp, [], ns) + Reported(t, InitBridge, [], ns)
  }

  /** Return codes of the runnable lines of `rdeps`; every one of them is counted. */
  function SumRc(t: Tree, a: Action, lines: seq<Name>): int {
    if lines == [] then 0 else
      var n := lines[|lines| - 1];
      SumRc(t, a, lines[..|lines| - 1]) + if EntryOf(t, n, a).Script? then Rc(t, n, a) else 0
  }

  function DeactivateRc(t: Tree, lines: seq<Name>): int {
    SumRc(t, ExitBridge, lines) + SumRc(t, ExitIp, lines) + SumRc(t, ExitEthtool, lines)
  }

  function DeactivateLog(t: Tree, gen: Name, lines: seq<Name>): seq<Event> {
    Events(gen, ExitBridge, Runnable(t, ExitBridge, lines)) +
    Events(gen, ExitIp, Runnable(t, ExitIp, lines)) +
    Events(gen, ExitEthtool, Runnable(t, ExitEthtool, lines))
  }

  /** What follows activation: save the reversed order, make `next` current, drop the request. */
  function Concluded(d: Disk, m: Mem, rc: int, next: Name, f: Faults): Outcome {
    var d1 := d.(deps := m.files);
    if rc != 0 then Outcome(d1, m.log, SetupFailed) else
    if m.dep > 0 && f.rdeps.LeftAs? then
      Outcome(d1.(rdeps := d1.rdeps[next := f.rdeps.lines]), m.log, ReverseFailed) else
    var d2 := if m.dep > 0 then d1.(rdeps := d1.rdeps[next := Reverse(Recorded(m.files, next))]) else d1;
    if f.gen then Outcome(d2, m.log, GenFailed) else
    var d3 := d2.(gen := Holds(next));
    if f.remove then Outcome(d3, m.log, RemoveFailed) else
    Outcome(d3.(next := Missing), m.log, Done)
  }

  /** The part of a run that follows teardown. */
  ghost function SetUp(trees: map<Name, Tree>, d: Disk, log: seq<Event>, next: Name, f: Faults): Outcome
    requires Acyclic(GraphOf(TreeOf(trees, next)))
  {
    var t := TreeOf(trees, next);
    Concluded(d, Activated(Mem([], 0, d.deps, log), t, next), ActivateRc(t), next, f)
  }

  /** The first half of a run: read the requests and tear down the current generation. */
  datatype Gate = Stop(log: seq<Event>, exit: Exit) | Go(log: seq<Event>)

  function TornDown(trees: map<Name, Tree>, d: Disk, f: Faults): Gate {
    if f.pipes then Stop([], PipesFailed) else
    if !d.next.Holds? then Stop([], NothingToDo) else
    match d.gen
    case Empty => Stop([], NoCurrentName)
    case Missing => Go([])
    case Holds(curr) =>
      var lines := Recorded(d.rdeps, curr);
      var log := DeactivateLog(TreeOf(trees, curr), curr, lines);
      if DeactivateRc(TreeOf(trees, curr), lines) != 0 then Stop(log, TeardownFailed) else Go(log)
  }

  /** A whole run of `net do`. */
  ghost function Run(trees: map<Name, Tree>, d: Disk, f: Faults): Outcome
    requires NextWellFormed(trees, d)
  {
    match TornDown(trees, d, f)
    case Stop(log, exit) => Outcome(d, log, exit)
    case Go(log) => SetUp(trees, d, log, d.next.name, f)
  }

  // ---------- the process ----------

  lemma {:induction false} WalkDepsStep(m: Mem, t: Tree, gen: Name, a: Action, n: Name, i: nat)
    requires Acyclic(GraphOf(t)) && n in GraphOf(t) && i < |Dir(t.ifaces[n].deps)|
    ensures var g, files := GraphOf(t), Dir(t.ifaces[n].deps);
            if files[i] in t.ifaces then
              && files[i] in g && Rank(g, files[i]) < Rank(g, n)
              && VisitAll(VisitAll(m, t, gen, a, WalkDeps(g, n, files[..i])), t, gen, a, Walk(g, files[i])) ==
                 VisitAll(m, t, gen, a, WalkDeps(g, n, files[..i + 1]))
            else WalkDeps(g, n, files[..i + 1]) == WalkDeps(g, n, files[..i])
  {
    var g, files := GraphOf(t), Dir(t.ifaces[n].deps);
    assert files[..i + 1][..i] == files[..i];
    DirMembers(t.ifaces[n].deps);
    assert files[i] in files;
    if files[i] in t.ifaces {
      RankDecreases(g, n, files[i]);
      VisitAllConcat(m, t, gen, a, WalkDeps(g, n, files[..i]), Walk(g, files[i]));
    }
  }

  lemma {:induction false} WalkFinish(m: Mem, t: Tree, gen: Name, a: Action, n: Name)
    requires Acyclic(GraphOf(t)) && n in GraphOf(t)
    ensures var below := VisitAll(m, t, gen, a, WalkDeps(GraphOf(t), n, GraphOf(t)[n]));
            && Visit(below, t, gen, a, n) == VisitAll(m, t, gen, a, Walk(GraphOf(t), n))
            && (n in below.list <==> n in m.list)
  {
    var g := GraphOf(t);
    var w := WalkDeps(g, n, g[n]);
    WalkVisits(g, n);
    VisitAllMeans(m, t, gen, a, w);
    AppendNewMembers(m.list, w);
    assert Walk(g, n)[..|Walk(g, n)| - 1] == w;
  }

  lemma {:induction false} WalkAllStep(m: Mem, t: Tree, gen: Name, a: Action, i: nat)
    requires WellFormed(t) && i < |Dir(t.listing)|
    ensures var g, files := GraphOf(t), Dir(t.listing);
            && files[i] in g
            && VisitAll(m, t, gen, a, WalkAll(g, files[..i])).list == AppendNew(m.list, WalkAll(g, files[..i]))
            && VisitAll(VisitAll(m, t, gen, a, WalkAll(g, files[..i])), t, gen, a, Walk(g, files[i])) ==
               VisitAll(m, t, gen, a, WalkAll(g, files[..i + 1]))
            && Reported(t, a, m.list, files[..i + 1]) ==
               Reported(t, a, m.list, files[..i]) +
               if files[i] in AppendNew(m.list, WalkAll(g, files[..i])) then 0 else Rc(t, files[i], a)
  {
    var g, files := GraphOf(t), Dir(t.listing);
    DirMembers(t.listing);
    assert files[i] in files;
    assert files[..i + 1] == files[..i] + [files[i]];
    WalkAllAppend(g, files[..i], files[i]);
    ReportedAppend(t, a, m.list, files[..i], files[i]);
    VisitAllMeans(m, t, gen, a, WalkAll(g, files[..i]));
    VisitAllConcat(m, t, gen, a, WalkAll(g, files[..i]), Walk(g, files[i]));
  }

  lemma {:induction false} WalkAllAppend(g: Graph, ns: seq<Name>, n: Name)
    requires Acyclic(g) && n in g
    ensures WalkAll(g, ns + [n]) == WalkAll(g, ns) + Walk(g, n)
  {
    assert (ns + [n])[..|ns|] == ns;
  }

  lemma {:induction false} ReportedAppend(t: Tree, a: Action, list: seq<Name>, ns: seq<Name>, n: Name)
    requires Acyclic(GraphOf(t))
    ensures Reported(t, a, list, ns + [n]) ==
            Reported(t, a, list, ns) + if n in AppendNew(list, WalkAll(GraphOf(t), ns)) then 0 else Rc(t, n, a)
  {
    assert (ns + [n])[..|ns|] == ns;
  }

  class Process {
    const trees: map<Name, Tree>
    var ifaceList: seq<Name>
    var dep: nat
    var deps: map<Name, seq<Name>>
    var rdeps: map<Name, seq<Name>>
    var gen: GenFile
    var next: GenFile
    var log: seq<Event>

    constructor (trees: map<Name, Tree>, d: Disk)
      ensures this.trees == trees && OnDisk() == d && State() == Mem([], 0, d.deps, [])
    {
      this.trees := trees;
      ifaceList, dep, log := [], 0, [];
      deps, rdeps, gen, next := d.deps, d.rdeps, d.gen, d.next;
    }

    ghost function State(): Mem reads this { Mem(ifaceList, dep, deps, log) }

    ghost function OnDisk(): Disk reads this { Disk(gen, next, deps, rdeps) }

    method AddIf(ifname: Name)
      modifies `ifaceList
      ensures ifaceList == old(ifaceList) + [ifname]
    {
      ifaceList := ifaceList + [ifname];
    }

    method FindIf(ifname: Name) returns (found: bool)
      ensures found <==> ifname in ifaceList
    {
      for i := 0 to |ifaceList|
        invariant ifname !in ifaceList[..i]
      {
        if ifaceList[i] == ifname { return true; }
      }
      return false;
    }

    method SaveDep(gen: Name, ifname: Name)
      modifies `dep, `deps
      ensures deps == old(deps)[gen := Add(Recorded(old(deps), gen), ifname)]
      ensures dep == if ifname in Recorded(old(deps), gen) then old(dep) else old(dep) + 1
    {
      var lines := Recorded(deps, gen);
      deps := deps[gen := lines];
      for i := 0 to |lines|
        invariant ifname !in lines[..i]
      {
        if lines[i] == ifname { return; }
      }
      dep := dep + 1;
      deps := deps[gen := lines + [ifname]];
    }

    /** Recurses into the dependencies first, and only then asks whether the work is done. */
    method Deps(gen: Name, ifname: Name, action: Action) returns (rc: int)
      requires Acyclic(GraphOf(TreeOf(trees, gen))) && ifname in GraphOf(TreeOf(trees, gen))
      modifies `ifaceList, `dep, `deps, `log
      ensures State() ==
              VisitAll(old(State()), TreeOf(trees, gen), gen, action, Walk(GraphOf(TreeOf(trees, gen)), ifname))
      ensures rc == if ifname in old(ifaceList) then 0 else Rc(TreeOf(trees, gen), ifname, action)
      decreases Rank(GraphOf(TreeOf(trees, gen)), ifname)
    {
      var t := TreeOf(trees, gen);
      ghost var g, m := GraphOf(t), State();
      var files := Dir(t.ifaces[ifname].deps);
      for i := 0 to |files|
        invariant State() == VisitAll(m, t, gen, action, WalkDeps(g, ifname, files[..i]))
      {
        WalkDepsStep(m, t, gen, action, ifname, i);
        if files[i] in t.ifaces {
          var _ := Deps(gen, files[i], action);
        }
      }
      assert files[..|files|] == files;
      WalkFinish(m, t, gen, action, ifname);
      rc := Finish(gen, ifname, action);
    }

    /** What `deps()` does for the interface itself once its dependencies are done. */
    method Finish(gen: Name, ifname: Name, action: Action) returns (rc: int)
      modifies `ifaceList, `dep, `deps, `log
      ensures State() == Visit(old(State()), TreeOf(trees, gen), gen, action, ifname)
      ensures rc == if ifname in old(ifaceList) then 0 else Rc(TreeOf(trees, gen), ifname, action)
    {
      SaveDep(gen, ifname);
      var found := FindIf(ifname);
      if found {
        return 0;
      }
      rc := -1;
      match EntryOf(TreeOf(trees, gen), ifname, action) {
        case Absent => rc := 0;
        case Unresolved =>
        case Script(_) => rc := RunAction(gen, ifname, action);
      }
      AddIf(ifname);
    }

    method RunAction(gen: Name, ifname: Name, action: Action) returns (rc: int)
      requires EntryOf(TreeOf(trees, gen), ifname, action).Script?
      modifies `log
      ensures log == old(log) + [Ran(gen, ifname, action)]
      ensures rc == Rc(TreeOf(trees, gen), ifname, action)
    {
      log := log + [Ran(gen, ifname, action)];
      if action.IsPipe() {
        return if EntryOf(TreeOf(trees, gen), ifname, action).closeFails then -1 else 0;
      }
      return 0;
    }

    method Iter(gen: Name, action: Action) returns (rc: int)
      requires WellFormed(TreeOf(trees, gen)) && ifaceList == []
      modifies `ifaceList, `dep, `deps, `log
      ensures State() == Pass(old(State()), TreeOf(trees, gen), gen, action)
      ensures rc == Reported(TreeOf(trees, gen), action, [], Dir(TreeOf(trees, gen).listing))
    {
      var t := TreeOf(trees, gen);
      ghost var g, m := GraphOf(t), State();
      var files := Dir(t.listing);
      rc := 0;
      for i := 0 to |files|
        invariant State() == VisitAll(m, t, gen, action, WalkAll(g, files[..i]))
        invariant rc == Reported(t, action, [], files[..i])
      {
        WalkAllStep(m, t, gen, action, i);
        var r := Deps(gen, files[i], action);
        rc := rc + r;
      }
      assert files[..|files|] == files;
      ifaceList := [];
    }

    method RDeps(gen: Name, action: Action) returns (rc: int)
      modifies `log
      ensures log == old(log) + Events(gen, action, Runnable(TreeOf(trees, gen), action, Recorded(rdeps, gen)))
      ensures rc == SumRc(TreeOf(trees, gen), action, Recorded(rdeps, gen))
    {
      var t := TreeOf(trees, gen);
      rc := 0;
      if gen !in rdeps {
        return;
      }
      var lines := rdeps[gen];
      for i := 0 to |lines|
        invariant log == old(log) + Events(gen, action, Runnable(t, action, lines[..i]))
        invariant rc == SumRc(t, action, lines[..i])
      {
        assert lines[..i + 1][..i] == lines[..i];
        if EntryOf(t, lines[i], action).Script? {
          ghost var r := Runnable(t, action, lines[..i]);
          EventsAppend(gen, action, r, lines[i]);
          var r' := RunAction(gen, lines[i], action);
          rc := rc + r';
        }
      }
      assert lines[..|lines|] == lines;
    }

    method Deactivate(gen: Name) returns (rc: int)
      modifies `log
      ensures log == old(log) + DeactivateLog(TreeOf(trees, gen), gen, Recorded(rdeps, gen))
      ensures rc == DeactivateRc(TreeOf(trees, gen), Recorded(rdeps, gen))
    {
      var r1 := RDeps(gen, ExitBridge);
      var r2 := RDeps(gen, ExitIp);
      var r3 := RDeps(gen, ExitEthtool);
      return r1 + r2 + r3;
    }

    method Activate(gen: Name) returns (rc: int)
      requires WellFormed(TreeOf(trees, gen)) && ifaceList == []
      modifies `ifaceList, `dep, `deps, `log
      ensures State() == Activated(old(State()), TreeOf(trees, gen), gen)
      ensures rc == ActivateRc(TreeOf(trees, gen))
    {
      var r1 := Iter(gen, InitEthtool);
      var r2 := Iter(gen, InitIp);
      var r3 := Iter(gen, InitBridge);
      return r1 + r2 + r3;
    }

    /** `net do`, up to the point where the process ends. */
    method ActivateNext(f: Faults) returns (exit: Exit)
      requires NextWellFormed(trees, OnDisk()) && ifaceList == [] && dep == 0 && log == []
      modifies this
      ensures Outcome(OnDisk(), log, exit) == Run(trees, old(OnDisk()), f)
    {
      if f.pipes { return PipesFailed; }
      if !next.Holds? { return NothingToDo; }
      var name := next.name;
      match gen {
        case Empty => return NoCurrentName;
        case Missing =>
        case Holds(curr) =>
          var rc := Deactivate(curr);
          assert log == DeactivateLog(TreeOf(trees, curr), curr, Recorded(rdeps, curr));
          if rc != 0 { return TeardownFailed; }
      }
      exit := HandOver(name, f);
    }

    /** Set up the next generation, save its reversed order and make it current. */
    method HandOver(name: Name, f: Faults) returns (exit: Exit)
      requires WellFormed(TreeOf(trees, name)) && ifaceList == [] && dep == 0
      modifies this
      ensures Outcome(OnDisk(), log, exit) == SetUp(trees, old(OnDisk()), old(log), name, f)
    {
      var rc := Activate(name);
      if rc != 0 { return SetupFailed; }
      if dep > 0 {
        if f.rdeps.LeftAs? {
          rdeps := rdeps[name := f.rdeps.lines];
          return ReverseFailed;
        }
        rdeps := rdeps[name := Reverse(Recorded(deps, name))];
      }
      if f.gen { return GenFailed; }
      gen := Holds(name);
      if f.remove { return RemoveFailed; }
      next := Missing;
      return Done;
    }
  }
}
