/**
 What holds over every history of the `net` tool: generations are published by the
 user, their action files are edited, and `net do` runs, each time with any faults.
 */
module NetHistory {
  import opened DepOrder
  import opened Net

  /** From `m` to `r`: the names of the walk are on record and `log` was run. */
  ghost predicate Effect(m: Mem, r: Mem, t: Tree, gen: Name, log: seq<Event>)
    requires Acyclic(GraphOf(t))
  {
    && r.list == []
    && Recorded(r.files, gen) == AppendNew(Recorded(m.files, gen), WalkAll(GraphOf(t), Dir(t.listing)))
    && (forall h :: h != gen ==> Recorded(r.files, h) == Recorded(m.files, h))
    && r.dep == m.dep + |Recorded(r.files, gen)| - |Recorded(m.files, gen)|
    && r.log == m.log + log
  }

  lemma {:induction false} PassMeans(m: Mem, t: Tree, gen: Name, a: Action)
    requires WellFormed(t) && m.list == []
    ensures Effect(m, Pass(m, t, gen, a), t, gen, Events(gen, a, Runnable(t, a, PassOrder(t))))
  {
    VisitAllMeans(m, t, gen, a, WalkAll(GraphOf(t), Dir(t.listing)));
    assert PassOrder(t)[0..] == PassOrder(t);
  }

  /** A second pass finds everything on record. */
  lemma {:induction false} EffectTwice(m: Mem, p: Mem, r: Mem, t: Tree, gen: Name, l1: seq<Event>, l2: seq<Event>)
    requires Acyclic(GraphOf(t)) && Effect(m, p, t, gen, l1) && Effect(p, r, t, gen, l2)
    ensures Effect(m, r, t, gen, l1 + l2) && r.dep == p.dep
  {
    var w := WalkAll(GraphOf(t), Dir(t.listing));
    AppendNewMembers(Recorded(m.files, gen), w);
    AppendNewNothing(AppendNew(Recorded(m.files, gen), w), w);
  }

  /** The commands of activation: three passes in one and the same order. */
  ghost function ActivateLog(t: Tree, gen: Name): seq<Event>
    requires WellFormed(t)
  {
    Events(gen, InitEthtool, Runnable(t, InitEthtool, PassOrder(t))) +
    Events(gen, InitIp, Runnable(t, InitIp, PassOrder(t))) +
    Events(gen, InitBridge, Runnable(t, InitBridge, PassOrder(t)))
  }

  /** Only the first pass of an activation records anything; all three run in the same order. */
  lemma {:induction false} ActivationMeans(m: Mem, t: Tree, gen: Name)
    requires WellFormed(t) && m.list == []
    ensures Effect(m, Activated(m, t, gen), t, gen, ActivateLog(t, gen))
    ensures Activated(m, t, gen).dep == Pass(m, t, gen, InitEthtool).dep
  {
    var p1 := Pass(m, t, gen, InitEthtool);
    var p2 := Pass(p1, t, gen, InitIp);
    PassMeans(m, t, gen, InitEthtool);
    PassMeans(p1, t, gen, InitIp);
    PassMeans(p2, t, gen, InitBridge);
    var o := PassOrder(t);
    var e1, e2 := Events(gen, InitEthtool, Runnable(t, InitEthtool, o)), Events(gen, InitIp, Runnable(t, InitIp, o));
    EffectTwice(m, p1, p2, t, gen, e1, e2);
    EffectTwice(m, p2, Activated(m, t, gen), t, gen, e1 + e2, Events(gen, InitBridge, Runnable(t, InitBridge, o)));
  }

  /**
   Following `rdeps` at teardown, when it holds the reversed order of activation, runs
   every exit action of those interfaces once, and before those of anything they depended on.
   `before` is the generation as it was activated, `now` as it is when torn down.
   */
  lemma {:induction false} TeardownVisitsDependersFirst(before: Tree, now: Tree, a: Action)
    requires WellFormed(before)
    ensures var r := Runnable(now, a, Reverse(PassOrder(before)));
            && NoDup(r) && DependersFirst(GraphOf(before), r)
            && forall n :: n in r <==> n in GraphOf(before) && EntryOf(now, n, a).Script?
  {
    var g := GraphOf(before);
    DirMembers(before.listing);
    ReverseOrderVisitsDependersFirst(g, Dir(before.listing));
    RunnableKeepsOrder(now, g, a, Reverse(PassOrder(before)));
    RunnableMembers(now, a, Reverse(PassOrder(before)));
  }

  // ---------- histories ----------

  /** How a try to set up a generation ended, and the text a failed reversal left behind. */
  datatype Try = Try(exit: Exit, garbled: seq<Name>)

  function TryOf(exit: Exit, f: Faults): Try {
    Try(exit, if f.rdeps.LeftAs? then f.rdeps.lines else [])
  }

  /** `first` tells of the first run that tried to set up a generation. */
  datatype World = World(trees: map<Name, Tree>, disk: Disk, first: map<Name, Try>, last: GenFile)

  datatype Step =
    | Publish(gen: Name, tree: Tree)    // write a new generation, then `next`
    | Edit(gen: Name, tree: Tree)       // change action files of a generation
    | Do(faults: Faults)                // run the tool

  ghost predicate Allowed(w: World, s: Step) {
    match s
    case Publish(gen, tree) =>
      gen !in w.trees && gen !in w.disk.deps && gen !in w.disk.rdeps && gen !in w.first && WellFormed(tree)
    case Edit(gen, tree) =>
      && gen in w.trees && WellFormed(tree)
      && tree.listing == w.trees[gen].listing && GraphOf(tree) == GraphOf(w.trees[gen])
    case Do(_) => NextWellFormed(w.trees, w.disk)
  }

  ghost function After(w: World, s: Step): World
    requires Allowed(w, s)
  {
    match s
    case Publish(gen, tree) =>
      w.(trees := w.trees[gen := tree], disk := w.disk.(next := Holds(gen)), last := Holds(gen))
    case Edit(gen, tree) => w.(trees := w.trees[gen := tree])
    case Do(f) =>
      var r := Run(w.trees, w.disk, f);
      var tried := r.exit in {SetupFailed, ReverseFailed, GenFailed, RemoveFailed, Done};
      w.(disk := r.disk,
         first := if tried && w.disk.next.name !in w.first then w.first[w.disk.next.name := TryOf(r.exit, f)]
                  else w.first)
  }

  /** The worlds of a history that starts from an empty net directory. */
  ghost predicate IsHistory(ws: seq<World>, steps: seq<Step>) {
    && |ws| == |steps| + 1
    && ws[0] == World(map[], Disk(Missing, Missing, map[], map[]), map[], Missing)
    && forall i :: 0 <= i < |steps| ==> Allowed(ws[i], steps[i]) && ws[i + 1] == After(ws[i], steps[i])
  }

  /** A generation that was tried has its whole order on record. */
  ghost predicate Ordered(w: World, gen: Name) {
    && gen in w.trees && WellFormed(w.trees[gen])
    && Recorded(w.disk.deps, gen) == if gen in w.first then PassOrder(w.trees[gen]) else []
  }

  /** What a first try leaves in `rdeps`, for good. */
  function Left(t: Try, order: seq<Name>): seq<Name> {
    match t.exit
    case SetupFailed => []
    case ReverseFailed => t.garbled
    case _ => Reverse(order)
  }

  /** How the reversed order of a generation stands, by the outcome of its first try. */
  ghost predicate Reversed(w: World, gen: Name)
    requires Ordered(w, gen)
  {
    Recorded(w.disk.rdeps, gen) == if gen in w.first then Left(w.first[gen], PassOrder(w.trees[gen])) else []
  }

  /** The hand-over files name published generations, and a request is never forgotten. */
  ghost predicate HandOverInv(w: World) {
    && (w.disk.next.Holds? ==> w.disk.next.name in w.trees)
    && (w.disk.gen.Holds? ==> w.disk.gen.name in w.trees && w.disk.gen.name in w.first)
    && !w.disk.gen.Empty? && !w.disk.next.Empty?
    && (w.last.Holds? ==> w.disk.next == w.last || (w.disk.gen == w.last && w.disk.next == Missing))
    && (!w.last.Holds? ==> w.disk.next == Missing)
  }

  ghost predicate Inv(w: World) {
    && HandOverInv(w)
    && (forall gen :: gen in w.trees ==> Ordered(w, gen) && Reversed(w, gen))
    && forall gen :: gen in w.first ==> gen in w.trees
  }

  /** The records of activating a generation with nothing, or everything, on record. */
  lemma {:induction false} TryMeans(m: Mem, t: Tree, n: Name, tried: bool)
    requires WellFormed(t) && m.list == [] && m.dep == 0
    requires Recorded(m.files, n) == if tried then PassOrder(t) else []
    ensures Recorded(Activated(m, t, n).files, n) == PassOrder(t)
    ensures forall h :: h != n ==> Recorded(Activated(m, t, n).files, h) == Recorded(m.files, h)
    ensures Activated(m, t, n).dep == if tried then 0 else |PassOrder(t)|
    ensures Activated(m, t, n).log == m.log + ActivateLog(t, n)
  {
    ActivationMeans(m, t, n);
    if tried {
      var walk := WalkAll(GraphOf(t), Dir(t.listing));
      AppendNewMembers([], walk);
      AppendNewNothing(PassOrder(t), walk);
    }
  }

  /** What one try leaves in the records of the generation it sets up; it touches no other. */
  ghost predicate TryLeaves(d: Disk, f: Faults, r: Outcome, n: Name, o: seq<Name>, tried: bool) {
    && Recorded(r.disk.deps, n) == o
    && (forall h :: h != n ==> Recorded(r.disk.deps, h) == Recorded(d.deps, h)
                               && Recorded(r.disk.rdeps, h) == Recorded(d.rdeps, h))
    && Recorded(r.disk.rdeps, n) == (if tried then Recorded(d.rdeps, n) else Left(TryOf(r.exit, f), o))
    && r.exit in {SetupFailed, ReverseFailed, GenFailed, RemoveFailed, Done}
  }

  lemma {:induction false} ConcludedMeans(d: Disk, m: Mem, rc: int, n: Name, f: Faults, o: seq<Name>, tried: bool)
    requires Recorded(m.files, n) == o && m.dep == if tried then 0 else |o|
    requires forall h :: h != n ==> Recorded(m.files, h) == Recorded(d.deps, h)
    requires !tried ==> Recorded(d.rdeps, n) == []
    ensures TryLeaves(d, f, Concluded(d, m, rc, n, f), n, o, tried)
  {
    assert o == [] ==> Reverse(o) == [];
  }

  lemma {:induction false} SetUpMeans(trees: map<Name, Tree>, d: Disk, log: seq<Event>, n: Name, f: Faults, tried: bool)
    requires n in trees && WellFormed(trees[n])
    requires Recorded(d.deps, n) == if tried then PassOrder(trees[n]) else []
    requires !tried ==> Recorded(d.rdeps, n) == []
    ensures TryLeaves(d, f, SetUp(trees, d, log, n, f), n, PassOrder(trees[n]), tried)
    ensures SetUp(trees, d, log, n, f).log == log + ActivateLog(trees[n], n)
  {
    var t, m := trees[n], Mem([], 0, d.deps, log);
    TryMeans(m, t, n, tried);
    ConcludedMeans(d, Activated(m, t, n), ActivateRc(t), n, f, PassOrder(t), tried);
  }

  // ---------- every step keeps the invariant ----------

  /** `gen` becomes what `next` held and only then may `next` go; any other end changes neither. */
  ghost predicate HandsOver(d: Disk, r: Outcome) {
    if r.exit in {RemoveFailed, Done} then
      d.next.Holds? && r.disk.gen == d.next && r.disk.next == if r.exit == Done then Missing else d.next
    else
      r.disk.gen == d.gen && r.disk.next == d.next
  }

  lemma {:induction false} ConcludedHandsOver(d: Disk, m: Mem, rc: int, f: Faults)
    requires d.next.Holds?
    ensures HandsOver(d, Concluded(d, m, rc, d.next.name, f))
    ensures Concluded(d, m, rc, d.next.name, f).exit in {RemoveFailed, Done} ==> rc == 0
  {
  }

  /** A run hands over only after teardown, if any, and setup both reported no failure. */
  lemma {:induction false} RunHandsOver(trees: map<Name, Tree>, d: Disk, f: Faults)
    requires NextWellFormed(trees, d)
    ensures HandsOver(d, Run(trees, d, f))
    ensures Run(trees, d, f).exit in {RemoveFailed, Done} ==>
              && ActivateRc(TreeOf(trees, d.next.name)) == 0
              && (d.gen.Holds? ==>
                    DeactivateRc(TreeOf(trees, d.gen.name), Recorded(d.rdeps, d.gen.name)) == 0)
  {
    match TornDown(trees, d, f)
    case Stop(_, _) =>
    case Go(log) =>
      var t := TreeOf(trees, d.next.name);
      ConcludedHandsOver(d, Activated(Mem([], 0, d.deps, log), t, d.next.name), ActivateRc(t), f);
  }

  /** The records of a run, whichever way it ends. */
  lemma {:induction false} RunMeans(w: World, f: Faults)
    requires Inv(w)
    ensures NextWellFormed(w.trees, w.disk)
    ensures Run(w.trees, w.disk, f).disk == w.disk || Tries(w, f)
    ensures Tries(w, f) <==> Run(w.trees, w.disk, f).exit in {SetupFailed, ReverseFailed, GenFailed, RemoveFailed, Done}
    ensures Tries(w, f) ==> TryLeaves(w.disk, f, Run(w.trees, w.disk, f), w.disk.next.name,
                                      PassOrder(w.trees[w.disk.next.name]), w.disk.next.name in w.first)
  {
    if w.disk.next.Holds? {
      var n := w.disk.next.name;
      assert Ordered(w, n) && Reversed(w, n);
      match TornDown(w.trees, w.disk, f)
      case Stop(_, _) =>
      case Go(log) => SetUpMeans(w.trees, w.disk, log, n, f, n in w.first);
    }
  }

  /** The run gets past teardown. */
  ghost predicate Tries(w: World, f: Faults) {
    TornDown(w.trees, w.disk, f).Go? && w.disk.next.Holds? && Ordered(w, w.disk.next.name)
  }

  lemma {:induction false} RunKeepsRecords(w: World, f: Faults, gen: Name)
    requires Inv(w) && NextWellFormed(w.trees, w.disk) && gen in w.trees
    ensures Ordered(After(w, Do(f)), gen) && Reversed(After(w, Do(f)), gen)
  {
    RunMeans(w, f);
    assert Ordered(w, gen) && Reversed(w, gen);
  }

  lemma {:induction false} RunKeepsInv(w: World, f: Faults)
    requires Inv(w) && NextWellFormed(w.trees, w.disk)
    ensures Inv(After(w, Do(f)))
  {
    RunHandsOver(w.trees, w.disk, f);
    RunMeans(w, f);
    forall gen | gen in w.trees ensures Ordered(After(w, Do(f)), gen) && Reversed(After(w, Do(f)), gen) {
      RunKeepsRecords(w, f, gen);
    }
  }

  lemma {:induction false} EditKeepsInv(w: World, s: Step)
    requires Inv(w) && !s.Do? && Allowed(w, s)
    ensures Inv(After(w, s))
  {
    var v := After(w, s);
    forall gen | gen in v.trees ensures Ordered(v, gen) && Reversed(v, gen) {
      if gen in w.trees { assert Ordered(w, gen) && Reversed(w, gen); }
    }
  }

  /** Whatever happens, records and hand-over files stay consistent and requests are kept. */
  lemma {:induction false} HistoryKeepsInv(ws: seq<World>, steps: seq<Step>, k: nat)
    requires IsHistory(ws, steps) && k < |ws|
    ensures Inv(ws[k])
  {
    if k == 0 {
    } else {
      HistoryKeepsInv(ws, steps, k - 1);
      var s := steps[k - 1];
      assert ws[k - 1 + 1] == After(ws[k - 1], s);
      if s.Do? { RunKeepsInv(ws[k - 1], s.faults); } else { EditKeepsInv(ws[k - 1], s); }
    }
  }

  /**
   In every history, teardown of the generation in use follows what the first run that tried
   it left in `rdeps`, which no later run repairs: the full reversed order if that run got as
   far as saving it, whatever a failed reversal left, and nothing after a failed setup.
   */
  lemma {:induction false} TeardownCompleteIff(ws: seq<World>, steps: seq<Step>, k: nat, c: Name)
    requires IsHistory(ws, steps) && k < |ws| && ws[k].disk.gen == Holds(c)
    ensures c in ws[k].trees && c in ws[k].first && WellFormed(ws[k].trees[c])
    ensures Recorded(ws[k].disk.rdeps, c) == Left(ws[k].first[c], PassOrder(ws[k].trees[c]))
    ensures var o, t := PassOrder(ws[k].trees[c]), ws[k].first[c];
            Recorded(ws[k].disk.rdeps, c) == Reverse(o) <==>
            match t.exit case SetupFailed => o == [] case ReverseFailed => t.garbled == Reverse(o) case _ => true
    ensures ws[k].first[c].exit == SetupFailed ==>
              DeactivateLog(ws[k].trees[c], c, Recorded(ws[k].disk.rdeps, c)) == []
  {
    HistoryKeepsInv(ws, steps, k);
    assert Ordered(ws[k], c) && Reversed(ws[k], c);
    ReverseAt(PassOrder(ws[k].trees[c]));
  }

  /** A generation with one interface, whose setup may fail and which has an exit action. */
  function OneInterface(fails: bool): Tree {
    Tree(["e"], map["e" := IfaceDir([], map[InitIp := Script(fails), ExitIp := Script(false)])])
  }

  lemma {:induction false} OneInterfaceFacts(fails: bool)
    ensures WellFormed(OneInterface(fails))
    ensures GraphOf(OneInterface(fails)) == map["e" := []]
    ensures Dir(OneInterface(fails).listing) == ["e"]
  {
    assert GraphOf(OneInterface(fails)) == map["e" := []];
    RankedIsAcyclic(GraphOf(OneInterface(fails)), map[]);
    assert ["e"][..0] == [] && Dir([]) == [];
  }

  lemma {:induction false} OneReported(t: Tree, a: Action, n: Name)
    requires Acyclic(GraphOf(t))
    ensures Reported(t, a, [], [n]) == Rc(t, n, a)
  {
    assert [n][..0] == [] && WalkAll(GraphOf(t), []) == [];
  }

  lemma {:induction false} OneInterfaceRc(fails: bool)
    ensures Acyclic(GraphOf(OneInterface(fails)))
    ensures ActivateRc(OneInterface(fails)) == if fails then -1 else 0
  {
    OneInterfaceFacts(fails);
    OneActivateRc(OneInterface(fails), "e");
    OneInterfaceCodes(fails);
  }

  lemma {:induction false} OneActivateRc(t: Tree, n: Name)
    requires WellFormed(t) && Dir(t.listing) == [n]
    ensures ActivateRc(t) == Rc(t, n, InitEthtool) + Rc(t, n, InitIp) + Rc(t, n, InitBridge)
  {
    OneReported(t, InitEthtool, n);
    OneReported(t, InitIp, n);
    OneReported(t, InitBridge, n);
  }

  lemma {:induction false} OneInterfaceCodes(fails: bool)
    ensures var t := OneInterface(fails);
            && Rc(t, "e", InitEthtool) == 0 && Rc(t, "e", InitBridge) == 0
            && Rc(t, "e", InitIp) == if fails then -1 else 0
  {
  }

  lemma {:induction false} OneInterfaceRetried()
    ensures WellFormed(OneInterface(true)) && WellFormed(OneInterface(false))
    ensures ActivateRc(OneInterface(true)) != 0 && ActivateRc(OneInterface(false)) == 0
    ensures GraphOf(OneInterface(true)) == GraphOf(OneInterface(false))
  {
    OneInterfaceFacts(true);
    OneInterfaceFacts(false);
    OneInterfaceRc(true);
    OneInterfaceRc(false);
  }

  lemma {:induction false} OneInterfaceExits(t: Tree)
    requires t == OneInterface(false)
    ensures EntryOf(t, "e", ExitIp).Script?
  {
  }

  const CALM := Faults(false, Fine, false, false)

  /** Without faults and without a current generation, a run ends as the setup reports. */
  lemma {:induction false} CalmOutcome(trees: map<Name, Tree>, d: Disk, n: Name)
    requires d.next == Holds(n) && d.gen == Missing && WellFormed(TreeOf(trees, n))
    ensures Run(trees, d, CALM).exit == if ActivateRc(TreeOf(trees, n)) == 0 then Done else SetupFailed
  {
    var t := TreeOf(trees, n);
    assert Run(trees, d, CALM) ==
           Concluded(d, Activated(Mem([], 0, d.deps, []), t, n), ActivateRc(t), n, CALM);
  }

  /** `n` is published, not yet in use, and tried before or not. */
  ghost predicate Waiting(w: World, n: Name, t: Tree, tried: bool) {
    && Inv(w) && w.disk.next == Holds(n) && w.disk.gen == Missing
    && n in w.trees && w.trees[n] == t
    && if tried then n in w.first && w.first[n].exit == SetupFailed else n !in w.first
  }

  lemma {:induction false} FirstTryFails(w: World, n: Name, t: Tree)
    requires Waiting(w, n, t, false) && WellFormed(t) && ActivateRc(t) != 0
    ensures Allowed(w, Do(CALM)) && Waiting(After(w, Do(CALM)), n, t, true)
  {
    CalmOutcome(w.trees, w.disk, n);
    RunHandsOver(w.trees, w.disk, CALM);
    RunKeepsInv(w, CALM);
  }

  lemma {:induction false} EditedAfterFailure(w: World, n: Name, t: Tree, u: Tree)
    requires Waiting(w, n, t, true) && Allowed(w, Edit(n, u))
    ensures Waiting(After(w, Edit(n, u)), n, u, true)
  {
    EditKeepsInv(w, Edit(n, u));
  }

  lemma {:induction false} RetrySucceeds(w: World, n: Name, t: Tree)
    requires Waiting(w, n, t, true) && WellFormed(t) && ActivateRc(t) == 0
    ensures Allowed(w, Do(CALM))
    ensures var v := After(w, Do(CALM));
            v.disk.gen == Holds(n) && v.trees == w.trees && n in v.first && v.first[n].exit == SetupFailed
  {
    CalmOutcome(w.trees, w.disk, n);
    RunHandsOver(w.trees, w.disk, CALM);
  }

  lemma {:induction false} PublishedFirst(w0: World, t: Tree) returns (w1: World)
    requires w0 == World(map[], Disk(Missing, Missing, map[], map[]), map[], Missing) && WellFormed(t)
    ensures Allowed(w0, Publish("0", t)) && w1 == After(w0, Publish("0", t)) && Waiting(w1, "0", t, false)
  {
    EditKeepsInv(w0, Publish("0", t));
    w1 := After(w0, Publish("0", t));
  }

  /** A first setup that fails is followed by a successful one: nothing of the generation is ever torn down. */
  lemma {:induction false} RetryHistory(t1: Tree, t2: Tree) returns (ws: seq<World>, steps: seq<Step>)
    requires WellFormed(t1) && WellFormed(t2) && ActivateRc(t1) != 0 && ActivateRc(t2) == 0
    requires t1.listing == t2.listing && GraphOf(t1) == GraphOf(t2)
    ensures IsHistory(ws, steps) && |steps| == 4
    ensures ws[4].disk.gen == Holds("0") && "0" in ws[4].trees && ws[4].trees["0"] == t2
    ensures DeactivateLog(t2, "0", Recorded(ws[4].disk.rdeps, "0")) == []
  {
    var w0 := World(map[], Disk(Missing, Missing, map[], map[]), map[], Missing);
    ws, steps := [w0], [];
    var w := PublishedFirst(w0, t1);
    ws, steps := Extended(ws, steps, Publish("0", t1));
    FirstTryFails(w, "0", t1);
    ws, steps := Extended(ws, steps, Do(CALM));
    w := ws[2];
    EditedAfterFailure(w, "0", t1, t2);
    ws, steps := Extended(ws, steps, Edit("0", t2));
    w := ws[3];
    RetrySucceeds(w, "0", t2);
    ws, steps := Extended(ws, steps, Do(CALM));
    TeardownCompleteIff(ws, steps, 4, "0");
  }

  lemma {:induction false} Extended(ws: seq<World>, steps: seq<Step>, s: Step)
    returns (ws': seq<World>, steps': seq<Step>)
    requires IsHistory(ws, steps) && Allowed(ws[|steps|], s)
    ensures IsHistory(ws', steps') && |steps'| == |steps| + 1
    ensures ws'[|steps'|] == After(ws[|steps|], s)
  {
    ws', steps' := ws + [After(ws[|steps|], s)], steps + [s];
    forall i | 0 <= i < |steps'| ensures Allowed(ws'[i], steps'[i]) && ws'[i + 1] == After(ws'[i], steps'[i]) {
      if i < |steps| { assert steps'[i] == steps[i] && ws'[i] == ws[i] && ws'[i + 1] == ws[i + 1]; }
    }
  }

  /** Such a history exists: one interface with an exit action that is never run. */
  lemma {:induction false} RetryLosesTeardown() returns (ws: seq<World>, steps: seq<Step>)
    ensures IsHistory(ws, steps) && |steps| == 4
    ensures ws[4].disk.gen == Holds("0") && "0" in ws[4].trees
    ensures EntryOf(ws[4].trees["0"], "e", ExitIp).Script?
    ensures DeactivateLog(ws[4].trees["0"], "0", Recorded(ws[4].disk.rdeps, "0")) == []
  {
    OneInterfaceRetried();
    ws, steps := RetryHistory(OneInterface(true), OneInterface(false));
    OneInterfaceExits(ws[4].trees["0"]);
  }
}
