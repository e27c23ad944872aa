/**
 Signalling and handling events of application relations: what the operations do to
 the list, and why working in place on the array does the same.
 */
module ArEvents {
  import opened ArList

  /** What can be seen from outside, in order. */
  datatype Obs =
    | Handled(event: Event, arep: Arep)   // the handler of `event` ran for an AR
    | AlarmSent(arep: Arep)              // a process alarm was sent
    | AlarmConfirmed                     // the controller confirmed an alarm
    | AbortDone                          // the main loop finished handling aborts

  // ---------- the list operations on values ----------

  /** One entry after its event was handled: gone, cleared, or left alone. */
  function Handle(x: Ar, event: Event, gone: Arep -> bool): seq<Ar> {
    if event !in x.events then [x]
    else if gone(x.arep) then []
    else [x.(events := x.events - {event})]
  }

  function AfterEvent(es: seq<Ar>, event: Event, gone: Arep -> bool): seq<Ar> {
    if es == [] then [] else
      AfterEvent(es[..|es| - 1], event, gone) + Handle(es[|es| - 1], event, gone)
  }

  /** The handler calls: one per entry with the event pending. */
  function Calls(es: seq<Ar>, event: Event): seq<Obs> {
    if es == [] then [] else
      var x := es[|es| - 1];
      Calls(es[..|es| - 1], event) + if event !in x.events then [] else [Handled(event, x.arep)]
  }

  function Find(es: seq<Ar>, arep: Arep): (k: nat)
    ensures k <= |es|
    ensures k < |es| ==> es[k].arep == arep
    ensures forall i :: 0 <= i < k ==> es[i].arep != arep
  {
    if es == [] then 0
    else if es[0].arep == arep then 0
    else 1 + Find(es[1..], arep)
  }

  /** The list after an event was signalled for an AR, which is added if asked for and possible. */
  function Signalled(es: seq<Ar>, cap: nat, arep: Arep, event: Event, add: bool): seq<Ar> {
    var k := Find(es, arep);
    if k < |es| then es[k := es[k].(events := es[k].events + {event})]
    else if add && |es| < cap then es + [Ar(arep, {event})]
    else es
  }

  // ---------- the same operations on the array ----------

  lemma {:induction false} UpdateLive(s: seq<Ar>, k: nat, x: Ar)
    requires Dense(s) && k < |Entries(s)| && Live(x)
    ensures |Entries(s)| <= |s| && Dense(s[k := x]) && Entries(s[k := x]) == Entries(s)[k := x]
  {
    var n := |Entries(s)|;
    DenseSplit(s);
    EntriesLive(s);
    var t := s[k := x];
    assert t == t[..n] + t[n..];
    assert t[..n] == Entries(s)[k := x] && t[n..] == s[n..];
    EntriesAllLive(t[..n]);
    EntriesNoneLive(t[n..]);
    EntriesConcat(t[..n], t[n..]);
    DensePrefix(t, n);
  }

  lemma {:induction false} AppendLive(s: seq<Ar>, x: Ar)
    requires Dense(s) && |Entries(s)| < |s| && Live(x)
    ensures Dense(s[|Entries(s)| := x]) && Entries(s[|Entries(s)| := x]) == Entries(s) + [x]
  {
    var n := |Entries(s)|;
    DenseSplit(s);
    EntriesLive(s);
    var t := s[n := x];
    assert t == t[..n + 1] + t[n + 1..];
    assert t[..n + 1] == Entries(s) + [x] && t[n + 1..] == s[n..][1..];
    EntriesAllLive(t[..n + 1]);
    EntriesNoneLive(t[n + 1..]);
    EntriesConcat(t[..n + 1], t[n + 1..]);
    DensePrefix(t, n + 1);
  }

  /** What the iterator meets at position `i` of a dense array. */
  lemma {:induction false} NextInDense(s: seq<Ar>, i: nat)
    requires Dense(s) && i <= |Entries(s)|
    ensures |Entries(s)| <= |s|
    ensures i < |s| && Live(s[i]) <==> i < |Entries(s)|
    ensures i < |Entries(s)| ==> s[i] == Entries(s)[i]
  {
    DenseSplit(s);
    EntriesLive(s);
    if i < |Entries(s)| {
      assert s[i] == s[..|Entries(s)|][i];
    } else if i < |s| {
      assert s[i] == s[|Entries(s)|..][0];
    }
  }

  /** In the middle of handling: the first `i` entries of `s0` are done, the rest is untouched. */
  ghost predicate Midway(s: seq<Ar>, s0: seq<Ar>, i: nat, event: Event, gone: Arep -> bool, modified: bool) {
    && |s| == |s0| && i <= |Entries(s0)| <= |s0|
    && s[i..] == s0[i..]
    && Entries(s[..i]) == AfterEvent(Entries(s0)[..i], event, gone)
    && (!modified ==> AllLive(s[..i]))
  }

  lemma {:induction false} MidwayCell(s: seq<Ar>, s0: seq<Ar>, i: nat, event: Event, gone: Arep -> bool, modified: bool)
    requires Dense(s0) && Midway(s, s0, i, event, gone, modified) && i < |Entries(s0)|
    ensures s[i] == Entries(s0)[i] && Live(s[i])
  {
    DenseSplit(s0);
    EntriesLive(s0);
    assert s[i] == s[i..][0] == s0[i..][0] == s0[i] == s0[..|Entries(s0)|][i];
  }

  /** What handling an entry leaves in its cell. */
  function Left(x: Ar, event: Event, gone: Arep -> bool): Ar {
    if event !in x.events then x
    else Ar(if gone(x.arep) then FREE else x.arep, x.events - {event})
  }

  lemma {:induction false} MidwayStep(s: seq<Ar>, s0: seq<Ar>, i: nat, event: Event, gone: Arep -> bool, modified: bool)
    requires Dense(s0) && Midway(s, s0, i, event, gone, modified) && i < |Entries(s0)|
    ensures s[i] == Entries(s0)[i] && Live(s[i])
    ensures var y := Left(s[i], event, gone);
            Midway(s[i := y], s0, i + 1, event, gone, modified || !Live(y))
  {
    MidwayCell(s, s0, i, event, gone, modified);
    MidwayReplace(s, s0, i, event, gone, modified, Left(s[i], event, gone));
  }

  lemma {:induction false} MidwayReplace(s: seq<Ar>, s0: seq<Ar>, i: nat, event: Event,
                                         gone: Arep -> bool, modified: bool, y: Ar)
    requires Dense(s0) && Midway(s, s0, i, event, gone, modified) && i < |Entries(s0)|
    requires (if Live(y) then [y] else []) == Handle(Entries(s0)[i], event, gone)
    ensures Midway(s[i := y], s0, i + 1, event, gone, modified || !Live(y))
  {
    var es := Entries(s0);
    MidwayTails(s, s0, i, y);
    EntriesAppend(s[..i], y);
    AfterEventAppend(es, i, event, gone);
  }

  lemma {:induction false} MidwayTails(s: seq<Ar>, s0: seq<Ar>, i: nat, y: Ar)
    requires |s| == |s0| && i < |s| && s[i..] == s0[i..]
    ensures s[i := y][i + 1..] == s0[i + 1..] && s[i := y][..i + 1] == s[..i] + [y]
  {
    assert s[i := y][i + 1..] == s[i..][1..] == s0[i..][1..] == s0[i + 1..];
  }

  lemma {:induction false} AfterEventAppend(es: seq<Ar>, i: nat, event: Event, gone: Arep -> bool)
    requires i < |es|
    ensures AfterEvent(es[..i + 1], event, gone) == AfterEvent(es[..i], event, gone) + Handle(es[i], event, gone)
  {
    assert es[..i + 1][..i] == es[..i];
  }

  lemma {:induction false} EntriesAppend(s: seq<Ar>, y: Ar)
    ensures Entries(s + [y]) == Entries(s) + if Live(y) then [y] else []
  {
    assert (s + [y])[..|s|] == s;
  }

  lemma {:induction false} MidwayEnd(s: seq<Ar>, s0: seq<Ar>, event: Event, gone: Arep -> bool, modified: bool)
    requires Dense(s0) && Midway(s, s0, |Entries(s0)|, event, gone, modified)
    ensures Entries(s) == AfterEvent(Entries(s0), event, gone)
    ensures !modified ==> Dense(s)
    ensures |Entries(s0)| < |s| ==> !Live(s[|Entries(s0)|])
  {
    var n := |Entries(s0)|;
    DenseSplit(s0);
    EntriesNoneLive(s[n..]);
    assert s == s[..n] + s[n..];
    EntriesConcat(s[..n], s[n..]);
    assert Entries(s0)[..n] == Entries(s0);
    if !modified { DensePrefix(s, n); }
    if n < |s| { assert s[n] == s[n..][0]; }
  }

  /** Between two calls of the iterator: at entry `i`, or at the end with the gaps closed. */
  ghost predicate AtEntry(s: seq<Ar>, s0: seq<Ar>, i: nat, found: bool, event: Event, gone: Arep -> bool,
                          modified: bool) {
    if found then i < |Entries(s0)| && Midway(s, s0, i, event, gone, modified)
    else i == |Entries(s0)| && Entries(s) == AfterEvent(Entries(s0), event, gone) && Dense(s)
  }

  lemma {:induction false} CallsStep(es: seq<Ar>, i: nat, event: Event, log0: seq<Obs>)
    requires i < |es|
    ensures log0 + Calls(es[..i + 1], event) ==
            (log0 + Calls(es[..i], event)) + if event !in es[i].events then [] else [Handled(event, es[i].arep)]
  {
    assert es[..i + 1][..i] == es[..i];
  }

  lemma {:induction false} MidwayStart(s0: seq<Ar>, event: Event, gone: Arep -> bool)
    requires Dense(s0)
    ensures Midway(s0, s0, 0, event, gone, false) && Entries(s0)[..0] == []
  {
    DenseSplit(s0);
    assert s0[..0] == [];
  }

  /** The iterator moves from `s` to `t` and stops at position `i`. */
  lemma {:induction false} Advance(s: seq<Ar>, t: seq<Ar>, s0: seq<Ar>, i: nat, found: bool, event: Event,
                                   gone: Arep -> bool, modified: bool)
    requires Dense(s0) && Midway(s, s0, i, event, gone, modified)
    requires found <==> i < |s| && Live(s[i])
    requires Entries(t) == Entries(s)
    requires found || !modified ==> t == s
    requires !found && modified ==> Dense(t)
    ensures AtEntry(t, s0, i, found, event, gone, modified)
  {
    if i < |Entries(s0)| {
      MidwayCell(s, s0, i, event, gone, modified);
    } else {
      MidwayEnd(s, s0, event, gone, modified);
    }
  }
}
