/** What becomes of an event once it is pending on an AR: it is handled, or an abort of its AR overtakes it. */
module EventFate {
  import opened ArList
  import opened ArEvents
  import opened EventMachine
  import opened EventLoop

  /** Since position `n` of the log, the event was handled for the AR or the AR was aborted. */
  ghost predicate Settled(log: seq<Obs>, n: nat, e: Event, arep: Arep) {
    n <= |log| && (Handled(e, arep) in log[n..] || Handled(Abort, arep) in log[n..])
  }

  lemma {:induction false} SettledStays(log: seq<Obs>, more: seq<Obs>, n: nat, e: Event, arep: Arep)
    requires Settled(log, n, e, arep) && log <= more
    ensures Settled(more, n, e, arep)
  {
    assert log[n..] <= more[n..];
  }

  /** Handling aborts takes an AR away only together with a call of the abort handler for it. */
  lemma {:induction false} AbortKeepsOrSettles(s: State, n: nat, e: Event, arep: Arep)
    requires n <= |s.log| && Pending(s.es, e, arep) && e != Abort
    ensures Pending(AfterEvent(s.es, Abort, Always), e, arep) || Handled(Abort, arep) in HandleAborts(s).log[n..]
  {
    var i :| 0 <= i < |s.es| && s.es[i].arep == arep && e in s.es[i].events;
    if Abort in s.es[i].events {
      HandleHandles(s, Abort, Always, n, arep);
      var t := HandleAr(s, Abort, Always);
      assert HandleAborts(s).log[n..] == t.log[n..] + [AbortDone];
    } else {
      Survives(s.es, Abort, Always, s.es[i]);
    }
  }

  lemma {:induction false} Survives(es: seq<Ar>, event: Event, gone: Arep -> bool, x: Ar)
    requires x in es && event !in x.events
    ensures x in AfterEvent(es, event, gone)
  {
    AfterEventMembers(es, event, gone);
    assert x == Ar(x.arep, x.events - {event});
  }

  lemma {:induction false} PhaseKeepsOrSettles(s: State, l: Label, n: nat, e: Event, arep: Arep)
    requires n <= |s.log| && Pending(s.es, e, arep) && e != Timer && l.Phase?
    ensures Pending(Next(s, l).es, e, arep) || Settled(Next(s, l).log, n, e, arep)
  {
    NextExtendsLog(s, l);
    if s.pc == PhaseOf(e) && e in s.flags {
      var gone := if e == Abort then Always else Never;
      HandleHandles(s, e, gone, n, arep);
      var t := HandleAr(s, e, gone);
      assert Next(s, l).log[n..] == t.log[n..] + Next(s, l).log[|t.log|..];
    } else {
      match s.pc
      case AtReady => if e != Ready { HandleKeepsPending(s, Ready, e, arep); }
      case AtAlarm => if e != Alarm { HandleKeepsPending(s, Alarm, e, arep); }
      case AtTimer =>
      case AtReleased => if e != Released { HandleKeepsPending(s, Released, e, arep); }
      case AtAbort => if e != Abort { AbortKeepsOrSettles(s, n, e, arep); }
      case Waiting =>
    }
  }

  lemma {:induction false} CallbackKeepsPending(s: State, l: Label, e: Event, arep: Arep)
    requires Pending(s.es, e, arep) && !l.Phase?
    ensures Pending(Next(s, l).es, e, arep)
  {
    match l
    case ParametersDone(a) => SignalKeepsPending(s, a, Ready, true, e, arep);
    case Aborted(a) => SignalKeepsPending(s, a, Abort, false, e, arep);
    case SubmoduleReleased(a) => SignalKeepsPending(s, a, Released, false, e, arep);
    case AlarmArrived(a) => SignalKeepsPending(s, a, Alarm, false, e, arep);
    case _ =>
  }

  /** In every state and every run from it, a pending event stays pending until it is settled. */
  lemma {:induction false} RunKeepsOrSettles(s: State, ls: seq<Label>, e: Event, arep: Arep)
    requires Pending(s.es, e, arep) && e != Timer
    ensures s.log <= Run(s, ls).log
    ensures Pending(Run(s, ls).es, e, arep) || Settled(Run(s, ls).log, |s.log|, e, arep)
  {
    if ls == [] {
    } else {
      var rest, l := ls[..|ls| - 1], ls[|ls| - 1];
      RunKeepsOrSettles(s, rest, e, arep);
      var u := Run(s, rest);
      NextExtendsLog(u, l);
      if Settled(u.log, |s.log|, e, arep) {
        SettledStays(u.log, Next(u, l).log, |s.log|, e, arep);
      } else if l.Phase? {
        PhaseKeepsOrSettles(u, l, |s.log|, e, arep);
      } else {
        CallbackKeepsPending(u, l, e, arep);
      }
    }
  }

  lemma {:induction false} NeverTimer(cap: nat, ls: seq<Label>, e: Event, arep: Arep)
    requires Pending(Run(Init(cap), ls).es, e, arep)
    ensures e != Timer
  {
    ReachableInv(cap, ls);
  }

  /**
   An event pending in any reachable state, wherever the loop is, has been handled or its AR
   aborted by the second time the loop goes to wait.
   */
  lemma {:induction false} HandledOrAborted(cap: nat, before: seq<Label>, a: seq<Label>, b: seq<Label>, e: Event,
                                            arep: Arep)
    requires Pending(Run(Init(cap), before).es, e, arep)
    requires Run(Init(cap), before + a).pc == Waiting && Run(Init(cap), before + a + [Wake] + b).pc == Waiting
    ensures Settled(Run(Init(cap), before + a + [Wake] + b).log, |Run(Init(cap), before).log|, e, arep)
  {
    var s, u := Run(Init(cap), before), Run(Init(cap), before + a);
    NeverTimer(cap, before, e, arep);
    RunConcat(Init(cap), before, a);
    RunKeepsOrSettles(s, a, e, arep);
    RunWake(Init(cap), before + a, b);
    RunExtendsLog(Next(u, Wake), b);
    var t := Run(Next(u, Wake), b);
    if Settled(u.log, |s.log|, e, arep) {
      SettledStays(u.log, t.log, |s.log|, e, arep);
    } else {
      NoEventLost(cap, before + a, b, e, arep);
      assert t.log[|u.log|..] == t.log[|s.log|..][|u.log| - |s.log|..];
    }
  }

  lemma {:induction false} RunWake(s: State, a: seq<Label>, b: seq<Label>)
    ensures Run(s, a + [Wake] + b) == Run(Next(Run(s, a), Wake), b)
  {
    RunConcat(s, a + [Wake], b);
    assert (a + [Wake])[..|a|] == a;
  }

  lemma {:induction false} RunExtendsLog(s: State, ls: seq<Label>)
    ensures s.log <= Run(s, ls).log
  {
    if ls == [] {
    } else {
      RunExtendsLog(s, ls[..|ls| - 1]);
      NextExtendsLog(Run(s, ls[..|ls| - 1]), ls[|ls| - 1]);
    }
  }

  // ---------- exactly when an abort overtakes an event ----------

  /** This round will not handle the event: its phase is over, or it was not pending when the round began. */
  ghost predicate Unserved(s: State, e: Event) {
    s.pc != Waiting && (PhaseOf(e).Rank() < s.pc.Rank() || e !in s.flags)
  }

  /** The loop is in one and the same round all along. */
  ghost predicate SameRound(s: State, ls: seq<Label>) {
    forall i :: 0 <= i <= |ls| ==> Run(s, ls[..i]).pc != Waiting
  }

  lemma {:induction false} CallsOnlyOf(es: seq<Ar>, event: Event, e: Event, arep: Arep)
    requires e != event
    ensures Handled(e, arep) !in Calls(es, event)
  {
    if es == [] {
    } else {
      CallsOnlyOf(es[..|es| - 1], event, e, arep);
    }
  }

  /** A step within the round neither handles nor drops an event the round does not serve. */
  lemma {:induction false} NextStaysUnserved(s: State, l: Label, n: nat, e: Event, arep: Arep)
    requires Unserved(s, e) && e != Timer && Pending(s.es, e, arep) && Next(s, l).pc != Waiting
    requires n <= |s.log| && Handled(e, arep) !in s.log[n..]
    ensures Unserved(Next(s, l), e) && Pending(Next(s, l).es, e, arep) && Next(s, l).flags == s.flags
    ensures n <= |Next(s, l).log| && Handled(e, arep) !in Next(s, l).log[n..]
  {
    NextExtendsLog(s, l);
    StaysInRound(s, l, e);
    if l.Phase? {
      PhaseStaysUnserved(s, l, e, arep);
    } else {
      CallbackKeepsPending(s, l, e, arep);
      CallbackLogs(s, l);
    }
    NotLogged(s.log, Next(s, l).log, n, Handled(e, arep));
  }

  lemma {:induction false} StaysInRound(s: State, l: Label, e: Event)
    requires Unserved(s, e) && Next(s, l).pc != Waiting
    ensures Unserved(Next(s, l), e) && Next(s, l).flags == s.flags && (l.Phase? ==> s.pc != AtAbort)
  {
  }

  lemma {:induction false} CallbackLogs(s: State, l: Label)
    requires !l.Phase?
    ensures s.log <= Next(s, l).log && forall o :: o in Next(s, l).log[|s.log|..] ==> o == AlarmConfirmed
  {
  }

  lemma {:induction false} NotLogged(a: seq<Obs>, b: seq<Obs>, n: nat, o: Obs)
    requires a <= b && n <= |a| && o !in a[n..] && o !in b[|a|..]
    ensures o !in b[n..]
  {
    assert b[n..] == a[n..] + b[|a|..];
  }

  lemma {:induction false} PhaseStaysUnserved(s: State, l: Label, e: Event, arep: Arep)
    requires Unserved(s, e) && e != Timer && Pending(s.es, e, arep) && l.Phase? && s.pc != AtAbort
    ensures Pending(Next(s, l).es, e, arep)
    ensures |s.log| <= |Next(s, l).log| && Handled(e, arep) !in Next(s, l).log[|s.log|..]
  {
    var t := Next(s, l);
    var f := match s.pc case AtReady => Ready case AtAlarm => Alarm case AtTimer => Timer case _ => Released;
    if f in s.flags && f != Timer {
      HandleKeepsPending(s, f, e, arep);
      CallsOnlyOf(s.es, f, e, arep);
      assert t.log[|s.log|..] == Calls(s.es, f);
    }
  }

  lemma {:induction false} RunStaysUnserved(s: State, ls: seq<Label>, e: Event, arep: Arep)
    requires Unserved(s, e) && e != Timer && Pending(s.es, e, arep) && SameRound(s, ls)
    ensures Unserved(Run(s, ls), e) && Pending(Run(s, ls).es, e, arep) && Run(s, ls).flags == s.flags
    ensures |s.log| <= |Run(s, ls).log| && Handled(e, arep) !in Run(s, ls).log[|s.log|..]
  {
    if ls == [] {
    } else {
      var rest := ls[..|ls| - 1];
      assert SameRound(s, rest) by {
        forall i | 0 <= i <= |rest| ensures Run(s, rest[..i]).pc != Waiting { assert rest[..i] == ls[..i]; }
      }
      RunStaysUnserved(s, rest, e, arep);
      assert ls[..|ls|] == ls;
      NextStaysUnserved(Run(s, rest), ls[|ls| - 1], |s.log|, e, arep);
    }
  }

  /** The abort phase drops exactly the events of the ARs whose abort it handles. */
  lemma {:induction false} AbortDropsIff(u: State, demo: bool, e: Event, arep: Arep)
    requires u.pc == AtAbort && Pending(u.es, e, arep) && e != Abort && Distinct(u.es)
    ensures Pending(Next(u, Phase(demo)).es, e, arep) <==> !(Abort in u.flags && Pending(u.es, Abort, arep))
    ensures |u.log| <= |Next(u, Phase(demo)).log| && Handled(e, arep) !in Next(u, Phase(demo)).log[|u.log|..]
  {
    var t := Next(u, Phase(demo));
    if Abort in u.flags {
      CallsOnlyOf(u.es, Abort, e, arep);
      assert t.log[|u.log|..] == Calls(u.es, Abort) + [AbortDone];
      AbortKeepsIff(u.es, e, arep);
    }
  }

  lemma {:induction false} AbortKeepsIff(es: seq<Ar>, e: Event, arep: Arep)
    requires Pending(es, e, arep) && e != Abort && Distinct(es)
    ensures Pending(AfterEvent(es, Abort, Always), e, arep) <==> !Pending(es, Abort, arep)
  {
    var left := AfterEvent(es, Abort, Always);
    var i :| 0 <= i < |es| && es[i].arep == arep && e in es[i].events;
    AfterEventMembers(es, Abort, Always);
    if Abort in es[i].events {
      forall j | 0 <= j < |left| ensures left[j].arep != arep {
        assert left[j] in left;
        var x :| x in es && Abort !in x.events && left[j] == Ar(x.arep, x.events - {Abort});
      }
    } else {
      Survives(es, Abort, Always, es[i]);
    }
  }

  /**
   In a round under way, an event is dropped, neither handled nor pending any more, if and
   only if the round does not serve it, had an abort pending when it began, and the event's
   own AR has an abort pending when aborts are handled.
   */
  lemma {:induction false} DroppedIff(cap: nat, before: seq<Label>, a: seq<Label>, demo: bool, e: Event, arep: Arep)
    requires var s := Run(Init(cap), before); Pending(s.es, e, arep) && e != Abort && SameRound(s, a)
    requires Run(Run(Init(cap), before), a).pc == AtAbort
    ensures var s, u := Run(Init(cap), before), Run(Run(Init(cap), before), a);
            var t := Next(u, Phase(demo));
            && |s.log| <= |t.log|
            && (!Pending(t.es, e, arep) && Handled(e, arep) !in t.log[|s.log|..] <==>
                Unserved(s, e) && Abort in s.flags && Pending(u.es, Abort, arep))
  {
    var s, u := Run(Init(cap), before), Run(Run(Init(cap), before), a);
    var t := Next(u, Phase(demo));
    NeverTimer(cap, before, e, arep);
    RunExtendsLog(s, a);
    NextExtendsLog(u, Phase(demo));
    assert t.log[|s.log|..] == u.log[|s.log|..] + t.log[|u.log|..];
    assert a[..0] == [];
    if Unserved(s, e) {
      RunStaysUnserved(s, a, e, arep);
      RunConcat(Init(cap), before, a);
      ReachableInv(cap, before + a);
      AbortDropsIff(u, demo, e, arep);
    } else {
      RunKeepsOwed(s, a, |s.log|, e, arep);
    }
  }

  // ---------- an event that is dropped ----------

  lemma {:induction false} OneEntry(x: Ar, event: Event, gone: Arep -> bool)
    ensures AfterEvent([x], event, gone) == Handle(x, event, gone)
    ensures Calls([x], event) == if event in x.events then [Handled(event, x.arep)] else []
  {
    assert [x][..0] == [];
  }

  /** An AR connects and loses its connection again, and the timer ticks, while the loop waits. */
  lemma {:induction false} ConnectsAndAborts(cap: nat, arep: Arep)
    requires cap > 0 && arep != FREE
    ensures Run(Init(cap), [ParametersDone(arep), Aborted(arep), Tick]) ==
            State(cap, [Ar(arep, {Ready, Abort})], {Ready, Abort, Timer}, {}, Waiting, true, [])
  {
    var s1 := State(cap, [Ar(arep, {Ready})], {Ready}, {}, Waiting, true, []);
    var s2 := State(cap, [Ar(arep, {Ready, Abort})], {Ready, Abort}, {}, Waiting, true, []);
    RunThree(Init(cap), ParametersDone(arep), Aborted(arep), Tick);
    assert Next(Init(cap), ParametersDone(arep)) == s1;
    assert Find(s1.es, arep) == 0;
    assert {Ready} + {Abort} == {Ready, Abort};
    assert Next(s1, Aborted(arep)) == s2;
    assert {Ready, Abort} + {Timer} == {Ready, Abort, Timer};
  }

  /** The round that follows, up to the stack's periodic work: the AR is ready, and its abort still to come. */
  function AfterTimer(cap: nat, arep: Arep): State {
    State(cap, [Ar(arep, {Abort})], {Abort}, {Ready, Abort, Timer}, AtReleased, true, [Handled(Ready, arep)])
  }

  lemma {:induction false} UpToTimer(cap: nat, arep: Arep)
    requires arep != FREE
    ensures var s := State(cap, [Ar(arep, {Ready, Abort})], {Ready, Abort, Timer}, {}, Waiting, true, []);
            Next(Next(Next(Next(s, Wake), Phase(false)), Phase(false)), Phase(false)) == AfterTimer(cap, arep)
  {
    var flags := {Ready, Abort, Timer};
    var s0 := State(cap, [Ar(arep, {Ready, Abort})], flags, flags, AtReady, true, []);
    var s1 := State(cap, [Ar(arep, {Abort})], {Abort, Timer}, flags, AtAlarm, true, [Handled(Ready, arep)]);
    OneEntry(s0.es[0], Ready, Never);
    assert {Ready, Abort} - {Ready} == {Abort} && flags - {Ready} == {Abort, Timer};
    assert Next(s0, Phase(false)) == s1;
    assert {Abort, Timer} - {Timer} == {Abort};
  }

  /** The state when an alarm has arrived as well. */
  function Late(cap: nat, arep: Arep): State {
    AfterTimer(cap, arep).(es := [Ar(arep, {Abort, Alarm})], main := {Abort, Alarm})
  }

  lemma {:induction false} AlarmComesLate(cap: nat, arep: Arep)
    requires arep != FREE
    ensures Run(AfterTimer(cap, arep), [AlarmArrived(arep)]) == Late(cap, arep)
  {
    var s := AfterTimer(cap, arep);
    assert [AlarmArrived(arep)][..0] == [];
    assert Find(s.es, arep) == 0;
    assert {Abort} + {Alarm} == {Abort, Alarm};
  }

  lemma {:induction false} AbortTakesIt(cap: nat, arep: Arep)
    ensures Next(Next(Late(cap, arep), Phase(false)), Phase(false)) ==
            State(cap, [], {Alarm}, {Ready, Abort, Timer}, Waiting, true,
                  [Handled(Ready, arep), Handled(Abort, arep), AbortDone])
  {
    var s := Late(cap, arep);
    OneEntry(s.es[0], Abort, Always);
    assert Next(s, Phase(false)) == s.(pc := AtAbort);
  }

  /** The turn: the AR connects and aborts, and its alarm comes with the periodic work of the round. */
  function LosingTurn(arep: Arep): Doings {
    Doings([ParametersDone(arep), Aborted(arep), Tick], false, [AlarmArrived(arep)])
  }

  /** The labels of that turn up to the alarm, and the rest. */
  function UntilAlarm(arep: Arep): seq<Label> {
    LosingTurn(arep).callbacks + ([Wake, Phase(false), Phase(false), Phase(false)] + LosingTurn(arep).periodic)
  }

  lemma {:induction false} LosingLabels(cap: nat, arep: Arep)
    requires cap > 0 && arep != FREE
    ensures LoopLabels(Init(cap), [LosingTurn(arep)]) == UntilAlarm(arep) + [Phase(false), Phase(false)]
  {
    var turn := LosingTurn(arep);
    ConnectsAndAborts(cap, arep);
    assert [turn][..0] == [];
    assert LoopLabels(Init(cap), []) == [];
  }

  lemma {:induction false} RunsUntilAlarm(cap: nat, arep: Arep)
    requires cap > 0 && arep != FREE
    ensures Run(Init(cap), UntilAlarm(arep)) == Late(cap, arep)
  {
    var p, cs, late := Phase(false), LosingTurn(arep).callbacks, LosingTurn(arep).periodic;
    ConnectsAndAborts(cap, arep);
    RunConcat(Init(cap), cs, [Wake, p, p, p] + late);
    RunConcat(Run(Init(cap), cs), [Wake, p, p, p], late);
    RunFour(Run(Init(cap), cs), Wake, p, p, p);
    UpToTimer(cap, arep);
    AlarmComesLate(cap, arep);
  }

  /**
   For any AR there is a turn of the loop in which an alarm arrives, is pending, and at the
   end is pending no more without having been handled.
   */
  lemma {:induction false} AlarmIsDropped(cap: nat, arep: Arep)
    requires cap > 0 && arep != FREE
    ensures LosingTurn(arep).Valid() && UntilAlarm(arep) < LoopLabels(Init(cap), [LosingTurn(arep)])
    ensures Pending(Run(Init(cap), UntilAlarm(arep)).es, Alarm, arep)
    ensures var t := Run(Init(cap), LoopLabels(Init(cap), [LosingTurn(arep)]));
            t.pc == Waiting && t.es == [] && Handled(Alarm, arep) !in t.log
  {
    LosingLabels(cap, arep);
    RunsUntilAlarm(cap, arep);
    assert Late(cap, arep).es[0].arep == arep;
    RunConcat(Init(cap), UntilAlarm(arep), [Phase(false), Phase(false)]);
    RunTwo(Late(cap, arep), Phase(false), Phase(false));
    AbortTakesIt(cap, arep);
  }
}
