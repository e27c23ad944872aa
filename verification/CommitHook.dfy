/**
 confd's commit hook: every module it subscribes to also gets a passive hook at a lower
 priority.  The hooks count the modules of a transaction on CHANGE and count them down
 on DONE, so that services are reloaded once, at the very end.
 */
module CommitHook {
  datatype Event = Change | Done | Abort | Other

  /** Callbacks as the datastore makes them: a module's own on DONE, and its hook on any event. */
  datatype Call = PrimaryDone(mod: nat) | Hook(mod: nat, event: Event)

  datatype Reply = Ok | Refused

  class Core {
    var numChanges: int
    /** How many times the reload point was reached. */
    var reloads: nat

    constructor ()
      ensures numChanges == 0 && reloads == 0
    {
      numChanges, reloads := 0, 0;
    }

    method PostHook(event: Event) returns (r: Reply)
      modifies this
      ensures (numChanges, reloads) == After((old(numChanges), old(reloads)), event)
      ensures r == if event == Other then Refused else Ok
    {
      match event {
        case Change =>
          numChanges := numChanges + 1;
          return Ok;
        case Abort =>
          numChanges := 0;
          return Ok;
        case Done =>
          numChanges := numChanges - 1;
          if numChanges != 0 { return Ok; }
        case Other =>
          return Refused;
      }
      reloads := reloads + 1;
      return Ok;
    }
  }

  /** Counter and reloads after one hook call. */
  function After(s: (int, nat), event: Event): (int, nat) {
    match event
    case Change => (s.0 + 1, s.1)
    case Abort => (0, s.1)
    case Done => (s.0 - 1, if s.0 - 1 == 0 then s.1 + 1 else s.1)
    case Other => s
  }

  function Run(s: (int, nat), calls: seq<Call>): (int, nat) {
    if calls == [] then s else
      var t := Run(s, calls[..|calls| - 1]);
      match calls[|calls| - 1]
      case PrimaryDone(_) => t
      case Hook(_, event) => After(t, event)
  }

  lemma {:induction false} RunConcat(s: (int, nat), a: seq<Call>, b: seq<Call>)
    ensures Run(s, a + b) == Run(Run(s, a), b)
  {
    if b == [] {
      assert a + b == a;
    } else {
      RunConcat(s, a, b[..|b| - 1]);
      assert (a + b)[..|a + b| - 1] == a + b[..|b| - 1];
    }
  }

  // ---------- transactions ----------

  /** The hook calls of a kind in `calls`. */
  function Count(calls: seq<Call>, event: Event): nat {
    if calls == [] then 0 else
      Count(calls[..|calls| - 1], event) +
      if calls[|calls| - 1].Hook? && calls[|calls| - 1].event == event then 1 else 0
  }

  /** The first part of a transaction: every hook call is a CHANGE. */
  ghost predicate AllChanges(calls: seq<Call>) {
    forall i :: 0 <= i < |calls| ==> calls[i].Hook? && calls[i].event == Change
  }

  ghost predicate AllAborts(calls: seq<Call>) {
    forall i :: 0 <= i < |calls| ==> calls[i].Hook? && calls[i].event == Abort
  }

  /** The second part of a committed one: DONE only, the module's own callback before its hook's. */
  ghost predicate AllDone(calls: seq<Call>) {
    && (forall i :: 0 <= i < |calls| ==> calls[i].Hook? ==> calls[i].event == Done)
    && forall i :: 0 <= i < |calls| && calls[i].PrimaryDone? ==>
         exists j :: i < j < |calls| && calls[j] == Hook(calls[i].mod, Done)
  }

  datatype Transaction =
    | Committed(changes: seq<Call>, dones: seq<Call>)
    | Aborted(changes: seq<Call>, aborts: seq<Call>)

  /** Every hook that saw CHANGE sees one DONE, or, if the transaction is aborted, some hook is told. */
  ghost predicate Valid(t: Transaction) {
    && AllChanges(t.changes)
    && match t
       case Committed(changes, dones) => |changes| > 0 && AllDone(dones) && Count(dones, Done) == |changes|
       case Aborted(changes, aborts) =>
         && AllAborts(aborts)
         && (|changes| > 0 ==> |aborts| > 0)
  }

  function Calls(t: Transaction): seq<Call> {
    match t
    case Committed(changes, dones) => changes + dones
    case Aborted(changes, aborts) => changes + aborts
  }

  lemma {:induction false} ChangesCount(s: (int, nat), calls: seq<Call>)
    requires AllChanges(calls)
    ensures Run(s, calls) == (s.0 + |calls|, s.1)
  {
    if calls == [] {
    } else {
      ChangesCount(s, calls[..|calls| - 1]);
    }
  }

  lemma {:induction false} AbortsClear(s: (int, nat), calls: seq<Call>)
    requires AllAborts(calls)
    ensures Run(s, calls) == if calls == [] then s else (0, s.1)
  {
    if calls == [] {
    } else {
      AbortsClear(s, calls[..|calls| - 1]);
    }
  }

  /** DONE calls count down, and the reload point is reached when, and only when, the count gets to zero. */
  lemma {:induction false} DonesCountDown(s: (int, nat), calls: seq<Call>)
    requires (forall i :: 0 <= i < |calls| && calls[i].Hook? ==> calls[i].event == Done) && s.0 >= Count(calls, Done)
    ensures Run(s, calls) ==
            (s.0 - Count(calls, Done), if s.0 == Count(calls, Done) && s.0 > 0 then s.1 + 1 else s.1)
  {
    if calls == [] {
    } else {
      DonesCountDown(s, calls[..|calls| - 1]);
    }
  }

  lemma {:induction false} CountFrom(calls: seq<Call>, i: nat)
    requires i < |calls| && calls[i].Hook? && calls[i].event == Done
    ensures Count(calls[..i], Done) < Count(calls, Done)
  {
    if i == |calls| - 1 {
    } else {
      CountFrom(calls[..|calls| - 1], i);
      assert calls[..|calls| - 1][..i] == calls[..i];
    }
  }

  /**
   A committed transaction reaches the reload point exactly once: nowhere before its last
   hook call, and so not before every module's own DONE callback has run.
   */
  lemma {:induction false} CommitReloadsOnceAtTheEnd(r: nat, t: Transaction, k: nat)
    requires t.Committed? && Valid(t) && k <= |t.dones|
    ensures Run((0, r), Calls(t)) == (0, r + 1)
    ensures Run((0, r), t.changes + t.dones[..k]).1 ==
            if Count(t.dones[..k], Done) == |t.changes| then r + 1 else r
    ensures Run((0, r), t.changes + t.dones[..k]).1 == r + 1 ==>
              forall i :: k <= i < |t.dones| ==> !t.dones[i].PrimaryDone?
  {
    ChangesCount((0, r), t.changes);
    RunConcat((0, r), t.changes, t.dones);
    DonesCountDown((|t.changes|, r), t.dones);
    RunConcat((0, r), t.changes, t.dones[..k]);
    CountPrefix(t.dones, k);
    DonesCountDown((|t.changes|, r), t.dones[..k]);
    if Count(t.dones[..k], Done) == |t.changes| {
      forall i | k <= i < |t.dones| ensures !t.dones[i].PrimaryDone? {
        if t.dones[i].PrimaryDone? {
          var j :| i < j < |t.dones| && t.dones[j] == Hook(t.dones[i].mod, Done);
          CountFrom(t.dones, j);
          CountMonotone(t.dones, k, j);
        }
      }
    }
  }

  lemma {:induction false} CountPrefix(calls: seq<Call>, k: nat)
    requires k <= |calls|
    ensures Count(calls[..k], Done) <= Count(calls, Done)
  {
    if k == |calls| {
      assert calls[..k] == calls;
    } else {
      CountPrefix(calls[..|calls| - 1], k);
      assert calls[..|calls| - 1][..k] == calls[..k];
    }
  }

  lemma {:induction false} CountMonotone(calls: seq<Call>, k: nat, j: nat)
    requires k <= j <= |calls|
    ensures Count(calls[..k], Done) <= Count(calls[..j], Done)
  {
    CountPrefix(calls[..j], k);
    assert calls[..j][..k] == calls[..k];
  }

  /** An abort clears the counter, and no call of an aborted transaction reaches the reload point. */
  lemma {:induction false} AbortReloadsNever(r: nat, t: Transaction, k: nat)
    requires t.Aborted? && Valid(t) && k <= |Calls(t)|
    ensures Run((0, r), Calls(t)) == (0, r)
    ensures Run((0, r), Calls(t)[..k]).1 == r
  {
    AbortedRun(r, t.changes, t.aborts);
    if k <= |t.changes| {
      assert Calls(t)[..k] == t.changes[..k];
      ChangesCount((0, r), t.changes[..k]);
    } else {
      assert Calls(t)[..k] == t.changes + t.aborts[..k - |t.changes|];
      AbortedRun(r, t.changes, t.aborts[..k - |t.changes|]);
    }
  }

  lemma {:induction false} AbortedRun(r: nat, changes: seq<Call>, aborts: seq<Call>)
    requires AllChanges(changes) && AllAborts(aborts)
    ensures Run((0, r), changes + aborts) == (if aborts == [] then |changes| else 0, r)
  {
    RunConcat((0, r), changes, aborts);
    ChangesCount((0, r), changes);
    AbortsClear((|changes|, r), aborts);
  }

  function AllCalls(ts: seq<Transaction>): seq<Call> {
    if ts == [] then [] else AllCalls(ts[..|ts| - 1]) + Calls(ts[|ts| - 1])
  }

  function Commits(ts: seq<Transaction>): nat {
    if ts == [] then 0 else Commits(ts[..|ts| - 1]) + if ts[|ts| - 1].Committed? then 1 else 0
  }

  /** Over any sequence of transactions there is one reload per commit, and the counter is zero in between. */
  lemma {:induction false} OneReloadPerCommit(ts: seq<Transaction>)
    requires forall i :: 0 <= i < |ts| ==> Valid(ts[i])
    ensures Run((0, 0), AllCalls(ts)) == (0, Commits(ts))
  {
    if ts == [] {
    } else {
      var rest, t := ts[..|ts| - 1], ts[|ts| - 1];
      OneReloadPerCommit(rest);
      RunConcat((0, 0), AllCalls(rest), Calls(t));
      TransactionRuns(Commits(rest), t);
    }
  }

  lemma {:induction false} TransactionRuns(r: nat, t: Transaction)
    requires Valid(t)
    ensures Run((0, r), Calls(t)) == (0, if t.Committed? then r + 1 else r)
  {
    if t.Committed? { CommitReloadsOnceAtTheEnd(r, t, 0); } else { AbortReloadsNever(r, t, 0); }
  }
}
