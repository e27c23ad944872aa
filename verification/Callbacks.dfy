/** What a callback of the stack makes pending, and how it is served. */
module Callbacks {
  import opened ArList
  import opened ArEvents
  import opened EventMachine
  import opened EventFate

  ghost predicate Connected(es: seq<Ar>, arep: Arep) {
    exists i :: 0 <= i < |es| && es[i].arep == arep
  }

  /** The entries of the two lists for an AR are the same. */
  ghost predicate SameFor(a: seq<Ar>, b: seq<Ar>, arep: Arep) {
    && (Connected(a, arep) <==> Connected(b, arep))
    && forall e :: Pending(a, e, arep) <==> Pending(b, e, arep)
  }

  /**
   `t` is `s` with the event signalled: it is in the word of the loop, pending on the AR if
   that is connected, or new and there is room, and nothing else is pending that was not.
   */
  ghost predicate Signals(s: State, t: State, arep: Arep, e: Event, mayConnect: bool) {
    && t.main == s.main + {e}
    && (Pending(t.es, e, arep) <==> Connected(s.es, arep) || (mayConnect && |s.es| < s.cap))
    && (Connected(t.es, arep) <==> Connected(s.es, arep) || (mayConnect && |s.es| < s.cap))
    && (forall f :: f != e ==> (Pending(t.es, f, arep) <==> Pending(s.es, f, arep)))
    && (forall other :: other != arep ==> SameFor(s.es, t.es, other))
    && t.cap == s.cap && t.flags == s.flags && t.pc == s.pc && t.alarmAllowed == s.alarmAllowed && t.log == s.log
  }

  lemma {:induction false} ReplacedEntry(es: seq<Ar>, k: nat, e: Event, other: Arep)
    requires k < |es| && es[k].arep != other
    ensures SameFor(es, es[k := es[k].(events := es[k].events + {e})], other)
  {
    var r := es[k := es[k].(events := es[k].events + {e})];
    assert forall i :: 0 <= i < |es| && es[i].arep == other ==> r[i] == es[i];
    assert forall i :: 0 <= i < |r| && r[i].arep == other ==> r[i] == es[i];
  }

  lemma {:induction false} AddedEntry(es: seq<Ar>, x: Ar, other: Arep)
    requires x.arep != other
    ensures SameFor(es, es + [x], other)
  {
    var r := es + [x];
    assert forall i :: 0 <= i < |es| ==> r[i] == es[i];
  }

  lemma {:induction false} OthersSame(s: State, arep: Arep, e: Event, add: bool, other: Arep)
    requires other != arep
    ensures SameFor(s.es, Signal(s, arep, e, add).es, other)
  {
    var k := Find(s.es, arep);
    if arep == FREE {
    } else if k < |s.es| {
      ReplacedEntry(s.es, k, e, other);
    } else {
      AddedEntry(s.es, Ar(arep, {e}), other);
    }
  }

  lemma {:induction false} OwnEntry(s: State, arep: Arep, e: Event, add: bool, f: Event)
    requires arep != FREE && Distinct(s.es)
    ensures var es := Signal(s, arep, e, add).es;
            && (Connected(es, arep) <==> Connected(s.es, arep) || (add && |s.es| < s.cap))
            && (Pending(es, f, arep) <==>
                if f == e then Connected(es, arep) else Pending(s.es, f, arep))
  {
    var k, es := Find(s.es, arep), Signal(s, arep, e, add).es;
    if k < |s.es| {
      assert es[k].arep == arep && es[k].events == s.es[k].events + {e};
      assert forall i :: 0 <= i < |es| && es[i].arep == arep ==> i == k;
    } else if add && |s.es| < s.cap {
      assert es[|s.es|] == Ar(arep, {e});
    }
  }

  lemma {:induction false} SignalSignals(s: State, arep: Arep, e: Event, add: bool)
    requires arep != FREE && Distinct(s.es)
    ensures Signals(s, Signal(s, arep, e, add), arep, e, add)
  {
    forall f ensures Pending(Signal(s, arep, e, add).es, f, arep) <==>
                     if f == e then Connected(Signal(s, arep, e, add).es, arep) else Pending(s.es, f, arep)
    {
      OwnEntry(s, arep, e, add, f);
    }
    OwnEntry(s, arep, e, add, e);
    forall other | other != arep ensures SameFor(s.es, Signal(s, arep, e, add).es, other) {
      OthersSame(s, arep, e, add, other);
    }
  }

  /** In every reachable state, each callback for an AR signals its own event, and only one of them connects an AR. */
  lemma {:induction false} CallbacksSignal(cap: nat, before: seq<Label>, arep: Arep)
    requires arep != FREE
    ensures var s := Run(Init(cap), before);
            && Signals(s, Next(s, ParametersDone(arep)), arep, Ready, true)
            && Signals(s, Next(s, Aborted(arep)), arep, Abort, false)
            && Signals(s, Next(s, SubmoduleReleased(arep)), arep, Released, false)
            && Signals(s, Next(s, AlarmArrived(arep)), arep, Alarm, false)
  {
    var s := Run(Init(cap), before);
    ReachableInv(cap, before);
    SignalSignals(s, arep, Ready, true);
    SignalSignals(s, arep, Abort, false);
    SignalSignals(s, arep, Released, false);
    SignalSignals(s, arep, Alarm, false);
  }

  /** The callback for an AR, and the event it is about. */
  ghost predicate IsCallback(l: Label, arep: Arep, e: Event) {
    || (l == ParametersDone(arep) && e == Ready)
    || (l == Aborted(arep) && e == Abort)
    || (l == SubmoduleReleased(arep) && e == Released)
    || (l == AlarmArrived(arep) && e == Alarm)
  }

  /**
   Every callback for a connected AR, and every one that connects it, wherever the loop is,
   ends in its handler or an abort of that AR by the second time the loop waits.
   */
  lemma {:induction false} CallbackIsServed(cap: nat, before: seq<Label>, l: Label, arep: Arep, e: Event, a: seq<Label>,
                                            b: seq<Label>)
    requires arep != FREE && IsCallback(l, arep, e)
    requires var s := Run(Init(cap), before); Connected(s.es, arep) || (l.ParametersDone? && |s.es| < s.cap)
    requires Run(Init(cap), before + [l] + a).pc == Waiting
    requires Run(Init(cap), before + [l] + a + [Wake] + b).pc == Waiting
    ensures Settled(Run(Init(cap), before + [l] + a + [Wake] + b).log, |Run(Init(cap), before).log|, e, arep)
  {
    var s := Run(Init(cap), before);
    CallbacksSignal(cap, before, arep);
    assert (before + [l])[..|before|] == before;
    assert Run(Init(cap), before + [l]) == Next(s, l);
    HandledOrAborted(cap, before + [l], a, b, e, arep);
  }
}
