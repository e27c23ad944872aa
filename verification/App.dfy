/**
 The PROFINET application itself: its AR array, the event word its main loop waits on,
 the callbacks of the stack, and one round of the main loop.
 */
module App {
  import opened ArList
  import opened ArEvents
  import opened EventMachine
  import opened EventLoop

  /** Live cells come first, and are of different ARs. */
  ghost predicate Sound(cells: seq<Ar>) {
    Dense(cells) && Distinct(Entries(cells))
  }

  class App {
    const ar: array<Ar>
    var mainEvents: set<Event>
    var alarmAllowed: bool
    var log: seq<Obs>

    ghost predicate Valid()
      reads this, ar
    {
      1 <= ar.Length < 0x8000 && Sound(ar[..])
    }

    /** The connected ARs. */
    ghost function List(): seq<Ar>
      reads this, ar
    {
      Entries(ar[..])
    }

    constructor (maxAr: nat)
      requires 1 <= maxAr < 0x8000
      ensures Valid() && fresh(ar) && ar.Length == maxAr
      ensures List() == [] && mainEvents == {} && alarmAllowed && log == []
    {
      ar := new Ar[maxAr](_ => Ar(FREE, {}));
      mainEvents, alarmAllowed, log := {}, true, [];
      new;
      EntriesNoneLive(ar[..]);
    }

    /** The test on the first cell tells whether anything is connected at all. */
    method IsConnected() returns (connected: bool)
      requires Valid()
      ensures connected <==> List() != []
      ensures connected ==> ar[0] == List()[0]
    {
      DenseSplit(ar[..]);
      EntriesLive(ar[..]);
      if Live(ar[0]) { LiveIsEntry(ar[..], 0); }
      connected := ar[0].arep != FREE;
    }

    /** Take the first free cell. */
    method AddArep(arep: Arep, event: Event)
      requires Valid() && arep != FREE && Find(List(), arep) == |List()|
      modifies ar
      ensures Valid()
      ensures List() == if |old(List())| < ar.Length then old(List()) + [Ar(arep, {event})] else old(List())
    {
      DenseSplit(ar[..]);
      EntriesLive(ar[..]);
      ghost var n := |List()|;
      for i := 0 to ar.Length
        invariant i <= n && ar[..] == old(ar[..])
      {
        if i < n { assert ar[i] == ar[..][..n][i]; } else { assert ar[i] == ar[..][n..][0]; }
        if ar[i].arep == FREE {
          ar[i] := Ar(arep, {});
          assert {} + {event} == {event};
          ar[i] := ar[i].(events := ar[i].events + {event});
          assert ar[..] == old(ar[..])[n := Ar(arep, {event})];
          AppendLive(old(ar[..]), Ar(arep, {event}));
          return;
        }
      }
    }

    /** Run the iterator up to the entry of an AR, or to the end. */
    method Seek(arep: Arep) returns (it: Iterator, found: bool)
      requires Valid()
      modifies ar
      ensures ar[..] == old(ar[..])
      ensures fresh(it) && it.ar == ar && it.index == Find(List(), arep)
      ensures found <==> it.index < |List()|
    {
      ghost var s, es := ar[..], List();
      it := new Iterator(ar);
      found := Step(it);
      while found
        invariant it.ar == ar && fresh(it) && !it.modified && ar[..] == s
        invariant 0 <= it.index <= |es| && (found <==> it.index < |es|)
        invariant found ==> it.index < ar.Length && ar[it.index] == es[it.index]
        invariant it.index <= Find(es, arep)
        decreases |es| - it.index
      {
        if ar[it.index].arep == arep {
          return;
        }
        found := Step(it);
      }
    }

    /** One step of an iterator that has deleted nothing: it stops at entries only. */
    method Step(it: Iterator) returns (found: bool)
      requires Valid() && it.ar == ar && !it.modified && -1 <= it.index < |List()|
      modifies it`index, ar
      ensures ar[..] == old(ar[..]) && it.index == old(it.index) + 1
      ensures found <==> it.index < |List()|
      ensures found ==> it.index < ar.Length && ar[it.index] == List()[it.index]
    {
      ghost var s := ar[..];
      NextInDense(s, it.index + 1);
      found := it.Next();
      assert ar[..] == s;
    }

    method EventSet(arep: Arep, event: Event, add: bool)
      requires Valid() && arep != FREE
      modifies `mainEvents, ar
      ensures Valid()
      ensures List() == Signalled(old(List()), ar.Length, arep, event, add)
      ensures mainEvents == old(mainEvents) + {event}
    {
      ghost var s, es := ar[..], List();
      EntriesLive(s);
      var it, found := Seek(arep);
      NextInDense(s, it.index);
      if found {
        UpdateLive(s, it.index, es[it.index].(events := es[it.index].events + {event}));
        ar[it.index] := ar[it.index].(events := ar[it.index].events + {event});
      }
      if add && it.Done() {
        AddArep(arep, event);
      }
      mainEvents := mainEvents + {event};
    }

    /**
     Run the handler once for each AR with the event pending, and drop those it says are
     gone.  Deleting in place and compacting at the end is a plain filter of the list.
     */
    method HandleEventAr(event: Event, handler: Arep -> bool)
      requires Valid()
      modifies `mainEvents, `log, ar
      ensures Valid()
      ensures List() == AfterEvent(old(List()), event, handler)
      ensures log == old(log) + Calls(old(List()), event)
      ensures mainEvents == old(mainEvents) - {event}
    {
      mainEvents := mainEvents - {event};
      HandleAll(event, handler);
    }

    /** The loop of it. */
    method HandleAll(event: Event, handler: Arep -> bool)
      requires Valid()
      modifies `log, ar
      ensures Valid()
      ensures List() == AfterEvent(old(List()), event, handler)
      ensures log == old(log) + Calls(old(List()), event)
    {
      ghost var s0 := ar[..];
      var it := new Iterator(ar);
      MidwayStart(s0, event, handler);
      var found := NextEntry(it, event, handler, s0);
      while found
        invariant it.ar == ar && fresh(it) && 0 <= it.index <= |Entries(s0)|
        invariant log == old(log) + Calls(Entries(s0)[..it.index], event)
        invariant AtEntry(ar[..], s0, it.index, found, event, handler, it.modified)
        decreases |Entries(s0)| - it.index
      {
        HandleEntry(it, event, handler, s0, old(log));
        found := NextEntry(it, event, handler, s0);
      }
      AllHandled(ar[..], s0, it.index, event, handler, it.modified);
    }

    /** The iterator goes to the next entry of `s0`, or to the end. */
    method NextEntry(it: Iterator, event: Event, handler: Arep -> bool, ghost s0: seq<Ar>) returns (found: bool)
      requires it.ar == ar && -1 <= it.index < ar.Length < 0x8000 && Dense(s0)
      requires Midway(ar[..], s0, it.index + 1, event, handler, it.modified)
      modifies it`index, ar
      ensures it.index == old(it.index) + 1
      ensures AtEntry(ar[..], s0, it.index, found, event, handler, it.modified)
    {
      ghost var s := ar[..];
      found := it.Next();
      Advance(s, ar[..], s0, it.index, found, event, handler, it.modified);
    }

    /** The body of the loop over the ARs, as a step through the entries of `s0`. */
    method HandleEntry(it: Iterator, event: Event, handler: Arep -> bool, ghost s0: seq<Ar>, ghost log0: seq<Obs>)
      requires it.ar == ar && Dense(s0) && 0 <= it.index < |Entries(s0)|
      requires Midway(ar[..], s0, it.index, event, handler, it.modified)
      requires log == log0 + Calls(Entries(s0)[..it.index], event)
      modifies `log, it`modified, ar
      ensures Midway(ar[..], s0, it.index + 1, event, handler, it.modified)
      ensures log == log0 + Calls(Entries(s0)[..it.index + 1], event)
    {
      MidwayStep(ar[..], s0, it.index, event, handler, it.modified);
      CallsStep(Entries(s0), it.index, event, log0);
      HandleCurrent(it, event, handler);
    }

    method HandleCurrent(it: Iterator, event: Event, handler: Arep -> bool)
      requires it.ar == ar && 0 <= it.index < ar.Length && Live(ar[it.index])
      modifies `log, it`modified, ar
      ensures ar[..] == old(ar[..])[it.index := Left(old(ar[it.index]), event, handler)]
      ensures it.modified <==> old(it.modified) || !Live(ar[it.index])
      ensures log == old(log) +
                     if event in old(ar[it.index]).events then [Handled(event, old(ar[it.index]).arep)] else []
    {
      var pending := EventClr(it.index, event);
      if pending {
        log := log + [Handled(event, ar[it.index].arep)];
        if handler(ar[it.index].arep) {
          it.DeleteCurrent();
        }
      }
    }

    method EventClr(k: nat, event: Event) returns (pending: bool)
      requires k < ar.Length
      modifies ar
      ensures pending <==> event in old(ar[..])[k].events
      ensures ar[..] == if pending then old(ar[..])[k := old(ar[..])[k].(events := old(ar[..])[k].events - {event})]
                        else old(ar[..])
    {
      if event in ar[k].events {
        ar[k] := ar[k].(events := ar[k].events - {event});
        return true;
      }
      return false;
    }

    // ---------- callbacks and the main loop ----------

    /** The application as a state of the machine, with the loop at `pc` and its flags read. */
    ghost function View(flags: set<Event>, pc: Pc): State
      reads this, ar
    {
      State(ar.Length, List(), mainEvents, flags, pc, alarmAllowed, log)
    }

    /** One callback of the stack or the timer. */
    method Deliver(l: Label, ghost flags: set<Event>, ghost pc: Pc)
      requires Valid() && !l.Wake? && !l.Phase?
      modifies this, ar
      ensures Valid() && View(flags, pc) == Next(old(View(flags, pc)), l)
    {
      match l {
        case ParametersDone(arep) => if arep != FREE { EventSet(arep, Ready, true); }
        case Aborted(arep) => if arep != FREE { EventSet(arep, Abort, false); }
        case SubmoduleReleased(arep) => if arep != FREE { EventSet(arep, Released, false); }
        case AlarmArrived(arep) => if arep != FREE { EventSet(arep, Alarm, false); }
        case Confirmed => alarmAllowed := true; log := log + [AlarmConfirmed];
        case Tick => mainEvents := mainEvents + {Timer};
      }
    }

    /** Handle an event of the ARs if it was pending when the loop woke up. */
    method PhaseAr(event: Event, flags: set<Event>, ghost pc: Pc)
      requires Valid() && event in {Ready, Alarm, Released} && pc == PhaseOf(event)
      modifies this, ar
      ensures Valid() && View(flags, pc.Then()) == Next(old(View(flags, pc)), Phase(false))
    {
      if event in flags {
        HandleEventAr(event, Never);
      }
    }

    /** Handle the timer: perhaps send an alarm, then let the stack make its callbacks. */
    method PhaseTimer(flags: set<Event>, demo: bool, callbacks: seq<Label>)
      requires Valid() && forall l :: l in callbacks ==> !l.Wake? && !l.Phase?
      modifies this, ar
      ensures Valid()
      ensures View(flags, AtReleased) ==
              Run(Next(old(View(flags, AtTimer)), Phase(demo)), if Timer in flags then callbacks else [])
    {
      if Timer in flags {
        HandleAlarmDemo(demo, flags);
        HandlePeriodic(callbacks, flags, AtReleased);
      }
    }

    /** What the timer does before the periodic work: send an alarm if asked to, allowed and connected. */
    method HandleAlarmDemo(demo: bool, ghost flags: set<Event>)
      requires Valid() && Timer in flags
      modifies `mainEvents, `log, `alarmAllowed
      ensures Valid() && View(flags, AtReleased) == Next(old(View(flags, AtTimer)), Phase(demo))
    {
      mainEvents := mainEvents - {Timer};
      var connected := IsConnected();
      if demo && alarmAllowed && connected {
        log := log + [AlarmSent(ar[0].arep)];
        alarmAllowed := false;
      }
      assert ar[..] == old(ar[..]);
    }

    /** The stack's periodic work, as far as the application sees it: callbacks, one after the other. */
    method HandlePeriodic(callbacks: seq<Label>, ghost flags: set<Event>, ghost pc: Pc)
      requires Valid() && forall l :: l in callbacks ==> !l.Wake? && !l.Phase?
      modifies this, ar
      ensures Valid() && View(flags, pc) == Run(old(View(flags, pc)), callbacks)
    {
      for i := 0 to |callbacks|
        invariant Valid() && View(flags, pc) == Run(old(View(flags, pc)), callbacks[..i])
      {
        assert callbacks[..i + 1][..i] == callbacks[..i];
        Deliver(callbacks[i], flags, pc);
      }
      assert callbacks[..|callbacks|] == callbacks;
    }

    method PhaseAbort(flags: set<Event>)
      requires Valid()
      modifies this, ar
      ensures Valid() && View(flags, Waiting) == Next(old(View(flags, AtAbort)), Phase(false))
    {
      if Abort in flags {
        HandleEventAr(Abort, Always);
        ghost var cells := ar[..];
        alarmAllowed := true;
        log := log + [AbortDone];
        assert ar[..] == cells;
      }
    }

    /** One round of the main loop once something is pending; `callbacks` come from the stack's periodic work. */
    method Round(demo: bool, callbacks: seq<Label>, ghost was: set<Event>)
      requires Valid() && mainEvents != {} && forall l :: l in callbacks ==> !l.Wake? && !l.Phase?
      modifies this, ar
      ensures Valid()
      ensures View(old(mainEvents), Waiting) ==
              Run(old(View(was, Waiting)), RoundLabels(old(mainEvents), demo, callbacks))
    {
      ghost var s := View(was, Waiting);
      ghost var cs := if Timer in mainEvents then callbacks else [];
      var flags := mainEvents;
      PhaseAr(Ready, flags, AtReady);
      PhaseAr(Alarm, flags, AtAlarm);
      PhaseTimer(flags, demo, callbacks);
      PhaseAr(Released, flags, AtReleased);
      PhaseAbort(flags);
      RoundRun(s, demo, cs);
    }

    /** Callbacks that come while the loop waits, then a round if anything is pending. */
    method Turn(t: Doings, ghost was: set<Event>) returns (ghost flags: set<Event>, ghost labels: seq<Label>)
      requires Valid() && t.Valid()
      modifies this, ar
      ensures labels == TurnLabels(old(View(was, Waiting)), t)
      ensures Valid() && View(flags, Waiting) == Run(old(View(was, Waiting)), labels)
    {
      HandlePeriodic(t.callbacks, was, Waiting);
      flags, labels := was, t.callbacks + [];
      assert labels == t.callbacks;
      if mainEvents != {} {
        flags, labels := mainEvents, t.callbacks + RoundLabels(mainEvents, t.demo, t.periodic);
        RunConcat(old(View(was, Waiting)), t.callbacks, RoundLabels(mainEvents, t.demo, t.periodic));
        Round(t.demo, t.periodic, was);
      }
    }
  }

  /**
   The application from its start through any number of turns: it is always in a state that
   the machine reaches, so what holds of all runs holds of it.
   */
  method LoopForever(maxAr: nat, turns: seq<Doings>)
    returns (app: App, ghost flags: set<Event>, ghost labels: seq<Label>)
    requires 1 <= maxAr < 0x8000 && forall i :: 0 <= i < |turns| ==> turns[i].Valid()
    ensures fresh(app) && app.Valid()
    ensures labels == LoopLabels(Init(maxAr), turns)
    ensures app.View(flags, Waiting) == Run(Init(maxAr), labels)
    ensures Inv(app.View(flags, Waiting)) && AlarmInv(app.View(flags, Waiting))
  {
    app := new App(maxAr);
    flags, labels := {}, [];
    for i := 0 to |turns|
      invariant fresh(app) && fresh(app.ar) && app.Valid() && app.View(flags, Waiting) == Run(Init(maxAr), labels)
      invariant labels == LoopLabels(Init(maxAr), turns[..i])
    {
      ghost var more;
      ghost var was := labels;
      flags, more := app.Turn(turns[i], flags);
      labels := was + more;
      RunConcat(Init(maxAr), was, more);
      assert turns[..i + 1][..i] == turns[..i];
    }
    assert turns[..|turns|] == turns;
    ReachableInv(maxAr, labels);
    AlarmsAreSpaced(maxAr, labels);
  }

  lemma {:induction false} AllHandled(s: seq<Ar>, s0: seq<Ar>, i: nat, event: Event, gone: Arep -> bool, modified: bool)
    requires AtEntry(s, s0, i, false, event, gone, modified) && Distinct(Entries(s0))
    ensures Sound(s) && Entries(s) == AfterEvent(Entries(s0), event, gone)
    ensures i == |Entries(s0)| && Entries(s0)[..i] == Entries(s0)
  {
    AfterEventDistinct(Entries(s0), event, gone);
  }
}
