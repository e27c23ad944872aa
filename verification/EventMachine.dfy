/**
 The PROFINET application as a state machine: callbacks of the stack may come between
 any two phases of the main loop, which handles what was pending when it woke up.
 */
module EventMachine {
  import opened ArList
  import opened ArEvents

  /** Where the main loop is; the phases come in this order. */
  datatype Pc = AtReady | AtAlarm | AtTimer | AtReleased | AtAbort | Waiting {
    function Rank(): nat {
      match this
      case AtReady => 0 case AtAlarm => 1 case AtTimer => 2
      case AtReleased => 3 case AtAbort => 4 case Waiting => 5
    }

    function Then(): Pc {
      match this
      case AtReady => AtAlarm case AtAlarm => AtTimer case AtTimer => AtReleased
      case AtReleased => AtAbort case AtAbort => Waiting case Waiting => Waiting
    }
  }

  datatype State = State(cap: nat, es: seq<Ar>, main: set<Event>, flags: set<Event>, pc: Pc,
                         alarmAllowed: bool, log: seq<Obs>)

  datatype Label =
    | ParametersDone(arep: Arep)     // state callback: parameter phase over
    | Aborted(arep: Arep)            // state callback: connection lost
    | SubmoduleReleased(arep: Arep)
    | AlarmArrived(arep: Arep)
    | Confirmed                      // alarm confirmation
    | Tick                           // timer callback
    | Wake                           // the main loop reads the pending events
    | Phase(demo: bool)              // the main loop passes one phase; `demo` asks for a process alarm

  function Never(arep: Arep): bool { false }

  function Always(arep: Arep): bool { true }

  function Signal(s: State, arep: Arep, event: Event, add: bool): State {
    if arep == FREE then s else
      s.(es := Signalled(s.es, s.cap, arep, event, add), main := s.main + {event})
  }

  function HandleAr(s: State, event: Event, gone: Arep -> bool): State {
    s.(es := AfterEvent(s.es, event, gone), main := s.main - {event}, log := s.log + Calls(s.es, event))
  }

  function HandleTimer(s: State, demo: bool): State {
    var t := s.(main := s.main - {Timer});
    if demo && t.alarmAllowed && t.es != [] then
      t.(log := t.log + [AlarmSent(t.es[0].arep)], alarmAllowed := false)
    else t
  }

  function HandleAborts(s: State): State {
    var t := HandleAr(s, Abort, Always);
    t.(alarmAllowed := true, log := t.log + [AbortDone])
  }

  /** A step that is not possible in a state leaves it as it is. */
  function Next(s: State, l: Label): State {
    match l
    case ParametersDone(arep) => Signal(s, arep, Ready, true)
    case Aborted(arep) => Signal(s, arep, Abort, false)
    case SubmoduleReleased(arep) => Signal(s, arep, Released, false)
    case AlarmArrived(arep) => Signal(s, arep, Alarm, false)
    case Confirmed => s.(alarmAllowed := true, log := s.log + [AlarmConfirmed])
    case Tick => s.(main := s.main + {Timer})
    case Wake => if s.pc == Waiting && s.main != {} then s.(flags := s.main, pc := AtReady) else s
    case Phase(demo) =>
      var t :=
        match s.pc
        case AtReady => if Ready in s.flags then HandleAr(s, Ready, Never) else s
        case AtAlarm => if Alarm in s.flags then HandleAr(s, Alarm, Never) else s
        case AtTimer => if Timer in s.flags then HandleTimer(s, demo) else s
        case AtReleased => if Released in s.flags then HandleAr(s, Released, Never) else s
        case AtAbort => if Abort in s.flags then HandleAborts(s) else s
        case Waiting => s;
      t.(pc := s.pc.Then())
  }

  function Run(s: State, ls: seq<Label>): State {
    if ls == [] then s else Next(Run(s, ls[..|ls| - 1]), ls[|ls| - 1])
  }

  lemma {:induction false} RunConcat(s: State, ks: seq<Label>, ls: seq<Label>)
    ensures Run(s, ks + ls) == Run(Run(s, ks), ls)
  {
    if ls == [] {
      assert ks + ls == ks;
    } else {
      RunConcat(s, ks, ls[..|ls| - 1]);
      assert (ks + ls)[..|ks + ls| - 1] == ks + ls[..|ls| - 1];
    }
  }

  function Init(cap: nat): State {
    State(cap, [], {}, {}, Waiting, true, [])
  }

  // ---------- handling an event is a filter ----------

  /** With nothing removed, handling clears the event everywhere and moves nothing. */
  lemma {:induction false} NeverKeepsAll(es: seq<Ar>, event: Event)
    ensures |AfterEvent(es, event, Never)| == |es|
    ensures forall i :: 0 <= i < |es| ==>
              AfterEvent(es, event, Never)[i] == Ar(es[i].arep, es[i].events - {event})
  {
    if es == [] {
    } else {
      NeverKeepsAll(es[..|es| - 1], event);
      var x := es[|es| - 1];
      assert event !in x.events ==> x.events - {event} == x.events;
    }
  }

  /** Survivors of handling keep their order and lose only the event; exactly the ARs gone are missing. */
  lemma {:induction false} AfterEventMembers(es: seq<Ar>, event: Event, gone: Arep -> bool)
    ensures forall y :: y in AfterEvent(es, event, gone) <==>
              exists x :: x in es && !(event in x.events && gone(x.arep)) && y == Ar(x.arep, x.events - {event})
  {
    if es == [] {
    } else {
      var x, rest := es[|es| - 1], es[..|es| - 1];
      AfterEventMembers(rest, event, gone);
      assert es == rest + [x];
      assert event !in x.events ==> x.events - {event} == x.events;
      assert forall y :: y in Handle(x, event, gone) <==>
                         !(event in x.events && gone(x.arep)) && y == Ar(x.arep, x.events - {event});
    }
  }

  lemma {:induction false} AfterEventPair(es: seq<Ar>, event: Event, gone: Arep -> bool, i: nat, j: nat)
    returns (k: nat, l: nat)
    requires i < j < |AfterEvent(es, event, gone)|
    ensures k < l < |es|
    ensures es[k].arep == AfterEvent(es, event, gone)[i].arep && es[l].arep == AfterEvent(es, event, gone)[j].arep
  {
    var rest := es[..|es| - 1];
    var r := AfterEvent(rest, event, gone);
    if j < |r| {
      k, l := AfterEventPair(rest, event, gone, i, j);
    } else {
      AfterEventMembers(rest, event, gone);
      assert r[i] in r;
      var x :| x in rest && r[i] == Ar(x.arep, x.events - {event});
      k :| 0 <= k < |rest| && rest[k] == x;
      l := |rest|;
    }
  }

  lemma {:induction false} AfterEventDistinct(es: seq<Ar>, event: Event, gone: Arep -> bool)
    requires Distinct(es)
    ensures Distinct(AfterEvent(es, event, gone))
  {
    var r := AfterEvent(es, event, gone);
    forall i, j | 0 <= i < j < |r| ensures r[i].arep != r[j].arep {
      var k, l := AfterEventPair(es, event, gone, i, j);
    }
  }

  lemma {:induction false} AfterEventLength(es: seq<Ar>, event: Event, gone: Arep -> bool)
    ensures |AfterEvent(es, event, gone)| <= |es|
  {
    if es == [] {
    } else {
      AfterEventLength(es[..|es| - 1], event, gone);
    }
  }

  lemma {:induction false} CallsHas(es: seq<Ar>, event: Event, i: nat)
    requires i < |es| && event in es[i].events
    ensures Handled(event, es[i].arep) in Calls(es, event)
  {
    if i == |es| - 1 {
    } else {
      CallsHas(es[..|es| - 1], event, i);
    }
  }

  ghost predicate Pending(es: seq<Ar>, e: Event, arep: Arep) {
    exists i :: 0 <= i < |es| && es[i].arep == arep && e in es[i].events
  }

  lemma {:induction false} PendingMore(rest: seq<Ar>, x: Ar, e: Event, arep: Arep)
    ensures Pending(rest + [x], e, arep) <==> Pending(rest, e, arep) || (x.arep == arep && e in x.events)
  {
    var es := rest + [x];
    assert es[|rest|] == x;
    if Pending(rest, e, arep) {
      var i :| 0 <= i < |rest| && rest[i].arep == arep && e in rest[i].events;
      assert es[i] == rest[i];
    }
  }

  /** The handler runs once for an AR with the event pending, and not for others. */
  lemma {:induction false} HandlerRunsOnce(es: seq<Ar>, event: Event, arep: Arep)
    requires Distinct(es)
    ensures multiset(Calls(es, event))[Handled(event, arep)] == if Pending(es, event, arep) then 1 else 0
  {
    if es == [] {
    } else {
      var x, rest := es[|es| - 1], es[..|es| - 1];
      assert es == rest + [x];
      HandlerRunsOnce(rest, event, arep);
      PendingMore(rest, x, event, arep);
      OneMoreCall(rest, x, event, arep);
    }
  }

  lemma {:induction false} OneMoreCall(rest: seq<Ar>, x: Ar, event: Event, arep: Arep)
    requires Distinct(rest + [x])
    ensures multiset(Calls(rest + [x], event))[Handled(event, arep)] ==
            multiset(Calls(rest, event))[Handled(event, arep)] + if x.arep == arep && event in x.events then 1 else 0
    ensures x.arep == arep ==> !Pending(rest, event, arep)
  {
    var es := rest + [x];
    assert es[..|rest|] == rest && es[|rest|] == x;
    if Pending(rest, event, arep) {
      var i :| 0 <= i < |rest| && rest[i].arep == arep && event in rest[i].events;
      assert es[i] == rest[i];
    }
  }

  // ---------- the invariant ----------

  /** Entries are real, distinct, fit the array, and every pending event is also in the loop's word. */
  ghost predicate Inv(s: State) {
    && |s.es| <= s.cap && AllLive(s.es) && Distinct(s.es)
    && forall i :: 0 <= i < |s.es| ==> s.es[i].events <= s.main && Timer !in s.es[i].events
  }

  lemma {:induction false} SignalKeepsInv(s: State, arep: Arep, event: Event, add: bool)
    requires Inv(s) && event != Timer
    ensures Inv(Signal(s, arep, event, add))
  {
  }

  lemma {:induction false} HandleKeepsInv(s: State, event: Event, gone: Arep -> bool)
    requires Inv(s)
    ensures Inv(HandleAr(s, event, gone))
  {
    var r := AfterEvent(s.es, event, gone);
    AfterEventDistinct(s.es, event, gone);
    AfterEventLength(s.es, event, gone);
    AfterEventMembers(s.es, event, gone);
    forall i | 0 <= i < |r|
      ensures Live(r[i]) && r[i].events <= s.main - {event} && Timer !in r[i].events
    {
      assert r[i] in r;
    }
  }

  lemma {:induction false} NextKeepsInv(s: State, l: Label)
    requires Inv(s)
    ensures Inv(Next(s, l))
  {
    match l
    case ParametersDone(arep) => SignalKeepsInv(s, arep, Ready, true);
    case Aborted(arep) => SignalKeepsInv(s, arep, Abort, false);
    case SubmoduleReleased(arep) => SignalKeepsInv(s, arep, Released, false);
    case AlarmArrived(arep) => SignalKeepsInv(s, arep, Alarm, false);
    case Confirmed =>
    case Tick =>
    case Wake =>
    case Phase(_) => PhaseKeepsInv(s, l);
  }

  lemma {:induction false} PhaseKeepsInv(s: State, l: Label)
    requires Inv(s) && l.Phase?
    ensures Inv(Next(s, l))
  {
    match s.pc
    case AtReady => HandleKeepsInv(s, Ready, Never);
    case AtAlarm => HandleKeepsInv(s, Alarm, Never);
    case AtTimer =>
    case AtReleased => HandleKeepsInv(s, Released, Never);
    case AtAbort => HandleKeepsInv(s, Abort, Always);
    case Waiting =>
  }

  /** In every reachable state the list is sound and no pending event is hidden from the loop. */
  lemma {:induction false} ReachableInv(cap: nat, ls: seq<Label>)
    ensures Inv(Run(Init(cap), ls))
  {
    if ls == [] {
    } else {
      ReachableInv(cap, ls[..|ls| - 1]);
      NextKeepsInv(Run(Init(cap), ls[..|ls| - 1]), ls[|ls| - 1]);
    }
  }

  // ---------- no event is lost ----------

  /** The phase of the loop that handles an event. */
  function PhaseOf(e: Event): Pc {
    match e
    case Ready => AtReady case Alarm => AtAlarm case Timer => AtTimer
    case Released => AtReleased case Abort => AtAbort
  }

  /** Since position `n` of the log the event was handled for the AR, or this round still will. */
  ghost predicate Owed(s: State, n: nat, e: Event, arep: Arep) {
    && n <= |s.log|
    && (Handled(e, arep) in s.log[n..] ||
        (Pending(s.es, e, arep) && e in s.flags && s.pc.Rank() <= PhaseOf(e).Rank()))
  }

  lemma {:induction false} SignalKeepsPending(s: State, a: Arep, event: Event, add: bool, e: Event, arep: Arep)
    requires Pending(s.es, e, arep)
    ensures Pending(Signal(s, a, event, add).es, e, arep)
  {
    var i :| 0 <= i < |s.es| && s.es[i].arep == arep && e in s.es[i].events;
    var r := Signal(s, a, event, add).es;
    assert i < |r| && r[i].arep == arep && e in r[i].events;
  }

  lemma {:induction false} HandleKeepsPending(s: State, event: Event, e: Event, arep: Arep)
    requires Pending(s.es, e, arep) && e != event
    ensures Pending(HandleAr(s, event, Never).es, e, arep)
  {
    NeverKeepsAll(s.es, event);
    var i :| 0 <= i < |s.es| && s.es[i].arep == arep && e in s.es[i].events;
    var r := AfterEvent(s.es, event, Never);
    assert r[i].arep == arep && e in r[i].events;
  }

  lemma {:induction false} HandleHandles(s: State, e: Event, gone: Arep -> bool, n: nat, arep: Arep)
    requires Pending(s.es, e, arep) && n <= |s.log|
    ensures Handled(e, arep) in HandleAr(s, e, gone).log[n..]
  {
    var i :| 0 <= i < |s.es| && s.es[i].arep == arep && e in s.es[i].events;
    CallsHas(s.es, e, i);
    assert HandleAr(s, e, gone).log[n..] == s.log[n..] + Calls(s.es, e);
  }

  /** The log only grows. */
  lemma {:induction false} NextExtendsLog(s: State, l: Label)
    ensures s.log <= Next(s, l).log
  {
  }

  lemma {:induction false} PhaseKeepsOwed(s: State, l: Label, n: nat, e: Event, arep: Arep)
    requires Owed(s, n, e, arep) && e != Timer && l.Phase? && Handled(e, arep) !in s.log[n..]
    ensures Owed(Next(s, l), n, e, arep)
  {
    NextExtendsLog(s, l);
    if s.pc == PhaseOf(e) {
      var gone := if e == Abort then Always else Never;
      HandleHandles(s, e, gone, n, arep);
      var t := HandleAr(s, e, gone);
      assert Next(s, l).log[n..] == t.log[n..] + Next(s, l).log[|t.log|..];
    } else if s.pc != AtTimer {
      var other := match s.pc case AtReady => Ready case AtAlarm => Alarm case _ => Released;
      HandleKeepsPending(s, other, e, arep);
    }
  }

  lemma {:induction false} NextKeepsOwed(s: State, l: Label, n: nat, e: Event, arep: Arep)
    requires Owed(s, n, e, arep) && e != Timer
    ensures Owed(Next(s, l), n, e, arep)
  {
    NextExtendsLog(s, l);
    if Handled(e, arep) in s.log[n..] {
      assert s.log[n..] <= Next(s, l).log[n..];
    } else {
      match l
      case ParametersDone(a) => SignalKeepsPending(s, a, Ready, true, e, arep);
      case Aborted(a) => SignalKeepsPending(s, a, Abort, false, e, arep);
      case SubmoduleReleased(a) => SignalKeepsPending(s, a, Released, false, e, arep);
      case AlarmArrived(a) => SignalKeepsPending(s, a, Alarm, false, e, arep);
      case Confirmed =>
      case Tick =>
      case Wake =>
      case Phase(_) => PhaseKeepsOwed(s, l, n, e, arep);
    }
  }

  lemma {:induction false} RunKeepsOwed(s: State, ls: seq<Label>, n: nat, e: Event, arep: Arep)
    requires Owed(s, n, e, arep) && e != Timer
    ensures Owed(Run(s, ls), n, e, arep)
  {
    if ls == [] {
    } else {
      RunKeepsOwed(s, ls[..|ls| - 1], n, e, arep);
      NextKeepsOwed(Run(s, ls[..|ls| - 1]), ls[|ls| - 1], n, e, arep);
    }
  }

  /**
   An event pending on an AR when the loop goes to wait keeps it from blocking, and by
   the time the loop waits again the event's handler has run for that AR, whatever
   callbacks came in between.
   */
  lemma {:induction false} NoEventLost(cap: nat, before: seq<Label>, after: seq<Label>, e: Event, arep: Arep)
    requires Run(Init(cap), before).pc == Waiting && Pending(Run(Init(cap), before).es, e, arep)
    ensures Next(Run(Init(cap), before), Wake).pc == AtReady
    ensures Run(Next(Run(Init(cap), before), Wake), after).pc == Waiting ==>
              var s, t := Run(Init(cap), before), Run(Next(Run(Init(cap), before), Wake), after);
              |s.log| <= |t.log| && Handled(e, arep) in t.log[|s.log|..]
  {
    var s := Run(Init(cap), before);
    ReachableInv(cap, before);
    var i :| 0 <= i < |s.es| && s.es[i].arep == arep && e in s.es[i].events;
    RunKeepsOwed(Next(s, Wake), after, |s.log|, e, arep);
  }

  // ---------- alarms ----------

  ghost predicate Releases(o: Obs) {
    o.AlarmConfirmed? || o.AbortDone?
  }

  ghost predicate ReleasedBetween(log: seq<Obs>, i: int, j: int) {
    exists k :: i < k < j && 0 <= k < |log| && Releases(log[k])
  }

  /** Between any two alarms sent there is a confirmation or the end of an abort round. */
  ghost predicate AlarmsSpaced(log: seq<Obs>) {
    forall i, j :: 0 <= i < j < |log| && log[i].AlarmSent? && log[j].AlarmSent? ==> ReleasedBetween(log, i, j)
  }

  /** Every alarm sent so far has been released. */
  ghost predicate AlarmsSettled(log: seq<Obs>) {
    forall i :: 0 <= i < |log| && log[i].AlarmSent? ==> ReleasedBetween(log, i, |log|)
  }

  ghost predicate AlarmInv(s: State) {
    AlarmsSpaced(s.log) && (s.alarmAllowed <==> AlarmsSettled(s.log))
  }

  /** Handler calls are neither alarms nor releases. */
  lemma {:induction false} CallsAreHandled(es: seq<Ar>, event: Event)
    ensures forall i :: 0 <= i < |Calls(es, event)| ==> Calls(es, event)[i].Handled?
  {
    if es == [] {
    } else {
      CallsAreHandled(es[..|es| - 1], event);
    }
  }

  lemma {:induction false} ReleaseStays(log: seq<Obs>, more: seq<Obs>, i: int, j: int, j': int)
    requires ReleasedBetween(log, i, j) && j <= j'
    ensures ReleasedBetween(log + more, i, j')
  {
    var k :| i < k < j && 0 <= k < |log| && Releases(log[k]);
    assert (log + more)[k] == log[k];
  }

  lemma {:induction false} StaysUnsettled(log: seq<Obs>, more: seq<Obs>)
    requires AlarmsSettled(log + more) && forall i :: 0 <= i < |more| ==> !Releases(more[i])
    ensures AlarmsSettled(log)
  {
    var all := log + more;
    assert forall k :: |log| <= k < |all| ==> !Releases(all[k]);
    forall i | 0 <= i < |log| && log[i].AlarmSent? ensures ReleasedBetween(log, i, |log|) {
      assert all[i] == log[i];
      var k :| i < k < |all| && Releases(all[k]);
      assert log[k] == all[k];
    }
  }

  lemma {:induction false} QuietKeepsAlarms(log: seq<Obs>, more: seq<Obs>)
    requires AlarmsSpaced(log) && forall i :: 0 <= i < |more| ==> !more[i].AlarmSent?
    ensures AlarmsSpaced(log + more)
    ensures AlarmsSettled(log) ==> AlarmsSettled(log + more)
    ensures (exists i :: 0 <= i < |more| && Releases(more[i])) ==> AlarmsSettled(log + more)
    ensures AlarmsSettled(log + more) ==> AlarmsSettled(log) || exists i :: 0 <= i < |more| && Releases(more[i])
  {
    var all := log + more;
    if AlarmsSettled(all) && forall i :: 0 <= i < |more| ==> !Releases(more[i]) { StaysUnsettled(log, more); }
    forall i, j | 0 <= i < j < |all| && all[i].AlarmSent? && all[j].AlarmSent? ensures ReleasedBetween(all, i, j) {
      ReleaseStays(log, more, i, j, j);
    }
    if AlarmsSettled(log) {
      forall i | 0 <= i < |all| && all[i].AlarmSent? ensures ReleasedBetween(all, i, |all|) {
        ReleaseStays(log, more, i, |log|, |all|);
      }
    }
    if m :| 0 <= m < |more| && Releases(more[m]) {
      assert Releases(all[|log| + m]);
    }
  }

  lemma {:induction false} SentKeepsSpaced(log: seq<Obs>, arep: Arep)
    requires AlarmsSpaced(log) && AlarmsSettled(log)
    ensures AlarmsSpaced(log + [AlarmSent(arep)]) && !AlarmsSettled(log + [AlarmSent(arep)])
  {
    var all := log + [AlarmSent(arep)];
    assert all[|log|].AlarmSent? && !ReleasedBetween(all, |log|, |all|);
    forall i, j | 0 <= i < j < |all| && all[i].AlarmSent? && all[j].AlarmSent? ensures ReleasedBetween(all, i, j) {
      ReleaseStays(log, [AlarmSent(arep)], i, if j < |log| then j else |log|, j);
    }
  }

  /** Every alarm that a step sends goes to the first of the ARs connected before it. */
  ghost predicate SendsToFirst(s: State, t: State) {
    && s.log <= t.log
    && forall i :: |s.log| <= i < |t.log| && t.log[i].AlarmSent? ==> s.es != [] && t.log[i].arep == s.es[0].arep
  }

  lemma {:induction false} NextSendsToFirst(s: State, l: Label)
    ensures SendsToFirst(s, Next(s, l))
  {
    if l.Phase? {
      CallsAreHandled(s.es, Ready);
      CallsAreHandled(s.es, Alarm);
      CallsAreHandled(s.es, Released);
      CallsAreHandled(s.es, Abort);
    }
  }

  lemma {:induction false} NextKeepsAlarms(s: State, l: Label)
    requires AlarmInv(s)
    ensures AlarmInv(Next(s, l))
  {
    if l.Confirmed? {
      QuietKeepsAlarms(s.log, [AlarmConfirmed]);
      assert Releases([AlarmConfirmed][0]);
    } else if l.Phase? {
      match s.pc
      case AtReady => HandleKeepsAlarms(s, Ready, Never);
      case AtAlarm => HandleKeepsAlarms(s, Alarm, Never);
      case AtTimer => TimerKeepsAlarms(s, l.demo);
      case AtReleased => HandleKeepsAlarms(s, Released, Never);
      case AtAbort => AbortKeepsAlarms(s);
      case Waiting =>
    }
  }

  lemma {:induction false} TimerKeepsAlarms(s: State, demo: bool)
    requires AlarmInv(s)
    ensures AlarmInv(HandleTimer(s, demo))
  {
    if s.alarmAllowed && s.es != [] { SentKeepsSpaced(s.log, s.es[0].arep); }
  }

  lemma {:induction false} AbortKeepsAlarms(s: State)
    requires AlarmInv(s)
    ensures AlarmInv(HandleAborts(s))
  {
    HandleKeepsAlarms(s, Abort, Always);
    QuietKeepsAlarms(HandleAr(s, Abort, Always).log, [AbortDone]);
    assert Releases([AbortDone][0]);
  }

  lemma {:induction false} HandleKeepsAlarms(s: State, event: Event, gone: Arep -> bool)
    requires AlarmInv(s)
    ensures AlarmInv(HandleAr(s, event, gone))
  {
    CallsAreHandled(s.es, event);
    QuietKeepsAlarms(s.log, Calls(s.es, event));
  }

  /**
   In every run, two alarms are never sent without a confirmation or a handled abort in
   between, and an alarm goes to the first connected AR, so never out while none is connected.
   */
  lemma {:induction false} AlarmsAreSpaced(cap: nat, ls: seq<Label>)
    ensures AlarmInv(Run(Init(cap), ls))
    ensures forall l :: SendsToFirst(Run(Init(cap), ls), Next(Run(Init(cap), ls), l))
  {
    if ls == [] {
    } else {
      AlarmsAreSpaced(cap, ls[..|ls| - 1]);
      NextKeepsAlarms(Run(Init(cap), ls[..|ls| - 1]), ls[|ls| - 1]);
    }
    forall l ensures SendsToFirst(Run(Init(cap), ls), Next(Run(Init(cap), ls), l)) {
      NextSendsToFirst(Run(Init(cap), ls), l);
    }
  }

  /**
   In every reachable state, alarms are allowed exactly if all alarms sent are released, and
   passing the timer phase with a tick sends an alarm exactly if one is asked for, some AR is
   connected and all are released, and adds nothing else.
   */
  lemma {:induction false} AlarmIsSentIff(cap: nat, ls: seq<Label>, demo: bool)
    ensures var s := Run(Init(cap), ls);
            && (s.alarmAllowed <==> AlarmsSettled(s.log))
            && (s.pc == AtTimer ==>
                  Next(s, Phase(demo)).log ==
                  s.log + if Timer in s.flags && demo && s.es != [] && AlarmsSettled(s.log)
                          then [AlarmSent(s.es[0].arep)] else [])
  {
    AlarmsAreSpaced(cap, ls);
  }

  /** A confirmation, or a handled abort, settles all alarms. */
  lemma {:induction false} AlarmsAreReleased(cap: nat, ls: seq<Label>, demo: bool)
    ensures var s := Run(Init(cap), ls);
            && AlarmsSettled(Next(s, Confirmed).log)
            && (s.pc == AtAbort && Abort in s.flags ==> AlarmsSettled(Next(s, Phase(demo)).log))
  {
    AlarmsAreSpaced(cap, ls);
    NextKeepsAlarms(Run(Init(cap), ls), Confirmed);
    NextKeepsAlarms(Run(Init(cap), ls), Phase(demo));
  }
}
