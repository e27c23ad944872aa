/**
 The list of application relations (ARs) of the PROFINET application: a fixed array
 whose free cells carry the reserved number UINT32_MAX, an iterator that allows the
 current entry to be deleted, and compaction that is put off until the iterator has
 run to the end.
 */
module ArList {
  newtype Arep = x: int | 0 <= x < 0x1_0000_0000

  /** The events that have a bit of their own; an event word is the set of its bits. */
  datatype Event = Ready | Timer | Alarm | Released | Abort

  /** One cell: the AR's number and its pending events. */
  datatype Ar = Ar(arep: Arep, events: set<Event>)

  const FREE: Arep := 0xFFFF_FFFF

  predicate Live(a: Ar) {
    a.arep != FREE
  }

  /** The entries of the list: the live cells in order. */
  function Entries(s: seq<Ar>): seq<Ar> {
    if s == [] then [] else
      Entries(s[..|s| - 1]) + if Live(s[|s| - 1]) then [s[|s| - 1]] else []
  }

  /** Live cells come first, so the first free cell ends the list. */
  ghost predicate Dense(s: seq<Ar>) {
    forall i, j :: 0 <= i < j < |s| && Live(s[j]) ==> Live(s[i])
  }

  ghost predicate Distinct(es: seq<Ar>) {
    forall i, j :: 0 <= i < j < |es| ==> es[i].arep != es[j].arep
  }

  ghost predicate AllLive(s: seq<Ar>) {
    forall i :: 0 <= i < |s| ==> Live(s[i])
  }

  ghost predicate NoneLive(s: seq<Ar>) {
    forall i :: 0 <= i < |s| ==> !Live(s[i])
  }

  lemma {:induction false} EntriesConcat(s: seq<Ar>, t: seq<Ar>)
    ensures Entries(s + t) == Entries(s) + Entries(t)
  {
    if t == [] {
      assert s + t == s;
    } else {
      EntriesConcat(s, t[..|t| - 1]);
      assert (s + t)[..|s + t| - 1] == s + t[..|t| - 1];
    }
  }

  lemma {:induction false} EntriesAllLive(s: seq<Ar>)
    requires AllLive(s)
    ensures Entries(s) == s
  {
    if s == [] {
    } else {
      EntriesAllLive(s[..|s| - 1]);
    }
  }

  lemma {:induction false} EntriesNoneLive(s: seq<Ar>)
    requires NoneLive(s)
    ensures Entries(s) == []
  {
    if s == [] {
    } else {
      EntriesNoneLive(s[..|s| - 1]);
    }
  }

  lemma {:induction false} EntriesLive(s: seq<Ar>)
    ensures AllLive(Entries(s)) && |Entries(s)| <= |s|
  {
    if s == [] {
    } else {
      EntriesLive(s[..|s| - 1]);
    }
  }

  lemma {:induction false} LiveIsEntry(s: seq<Ar>, k: nat)
    requires k < |s| && Live(s[k])
    ensures |Entries(s)| > 0
  {
    if k < |s| - 1 { LiveIsEntry(s[..|s| - 1], k); }
  }

  /** A dense array is its entries followed by free cells. */
  lemma {:induction false} DenseSplit(s: seq<Ar>)
    requires Dense(s)
    ensures |Entries(s)| <= |s|
    ensures s[..|Entries(s)|] == Entries(s) && NoneLive(s[|Entries(s)|..])
  {
    if s == [] {
    } else {
      var rest := s[..|s| - 1];
      DenseSplit(rest);
      if Live(s[|s| - 1]) {
        EntriesAllLive(rest);
        assert s[..|s|] == s;
      } else {
        assert s[..|Entries(s)|] == rest[..|Entries(s)|];
        assert s[|Entries(s)|..] == rest[|Entries(s)|..] + [s[|s| - 1]];
      }
    }
  }

  // ---------- compaction ----------

  lemma {:induction false} EntriesConcat4(a: seq<Ar>, b: seq<Ar>, c: seq<Ar>, d: seq<Ar>)
    ensures Entries(a + b + c + d) == Entries(a) + Entries(b) + Entries(c) + Entries(d)
  {
    EntriesConcat(a + b + c, d);
    EntriesConcat(a + b, c);
    EntriesConcat(a, b);
  }

  /** Moving a live cell down over free ones changes no entry. */
  lemma {:induction false} MoveDown(s: seq<Ar>, i: nat, j: nat, free: Ar)
    requires i < j < |s| && NoneLive(s[i..j]) && Live(s[j]) && !Live(free)
    ensures Entries(s[i := s[j]][j := free]) == Entries(s)
  {
    var gap := s[i..j][1..] + [free];
    MovedParts(s, i, j, free);
    SameEntries(s[..i], s[i..j], [s[j]], gap, s[j + 1..]);
  }

  lemma {:induction false} MovedParts(s: seq<Ar>, i: nat, j: nat, free: Ar)
    requires i < j < |s|
    ensures s == s[..i] + s[i..j] + [s[j]] + s[j + 1..]
    ensures s[i := s[j]][j := free] == s[..i] + [s[j]] + (s[i..j][1..] + [free]) + s[j + 1..]
  {
  }

  lemma {:induction false} SameEntries(a: seq<Ar>, gap: seq<Ar>, b: seq<Ar>, gap': seq<Ar>, c: seq<Ar>)
    requires NoneLive(gap) && NoneLive(gap')
    ensures Entries(a + gap + b + c) == Entries(a + b + gap' + c)
  {
    EntriesNoneLive(gap);
    EntriesNoneLive(gap');
    EntriesConcat4(a, gap, b, c);
    EntriesConcat4(a, b, gap', c);
  }

  /** Once the last cell has been moved, or there was none to move, nothing live is left behind. */
  lemma {:induction false} Finished(s: seq<Ar>, i: nat, j: nat, free: Ar)
    requires i < |s| && |s| - 1 <= j <= |s| && AllLive(s[..i]) && NoneLive(s[i..j]) && !Live(free) && i < j
    ensures j == |s| ==> Dense(s)
    ensures j < |s| && Live(s[j]) ==> Dense(s[i := s[j]][j := free])
  {
    if j == |s| {
      DensePrefix(s, i);
    } else if Live(s[j]) {
      var t := s[i := s[j]][j := free];
      assert t[..i + 1] == s[..i] + [s[j]];
      assert t[i + 1..] == s[i..j][1..] + [free];
      DensePrefix(t, i + 1);
    }
  }

  /** The first live cell behind `i`, or the length of the array. */
  method FindLive(ar: array<Ar>, i: nat) returns (j: nat)
    requires i < ar.Length
    ensures i < j <= ar.Length
    ensures NoneLive(ar[i + 1..j])
    ensures j < ar.Length ==> Live(ar[j])
  {
    j := i + 1;
    while j < ar.Length
      invariant i < j <= ar.Length && NoneLive(ar[i + 1..j])
    {
      if Live(ar[j]) { return; }
      j := j + 1;
    }
  }

  /** Close the gaps; stops early once nothing can be left behind position `i`. */
  method Compact(ar: array<Ar>)
    modifies ar
    ensures Entries(ar[..]) == old(Entries(ar[..]))
    ensures Dense(ar[..])
  {
    for i := 0 to ar.Length
      invariant AllLive(ar[..i])
      invariant Entries(ar[..]) == old(Entries(ar[..]))
    {
      if !Live(ar[i]) {
        var j := FindLive(ar, i);
        ghost var s := ar[..];
        assert NoneLive(s[i..j]);
        if j < ar.Length {
          ghost var free := s[j].(arep := FREE);
          ar[i] := ar[j];
          ar[j] := ar[j].(arep := FREE);
          assert ar[..] == s[i := s[j]][j := free];
          MoveDown(s, i, j, free);
        }
        if j >= ar.Length - 1 {
          Finished(s, i, j, if j < ar.Length then s[j].(arep := FREE) else s[i]);
          return;
        }
      }
    }
    DensePrefix(ar[..], ar.Length);
  }

  lemma {:induction false} DensePrefix(s: seq<Ar>, n: nat)
    requires n <= |s| && AllLive(s[..n]) && NoneLive(s[n..])
    ensures Dense(s)
  {
    forall i, j | 0 <= i < j < |s| && Live(s[j]) ensures Live(s[i]) {
      assert s[i] == s[..n][i];
    }
  }

  // ---------- the iterator ----------

  class Iterator {
    const ar: array<Ar>
    var index: int
    var modified: bool

    constructor (ar: array<Ar>)
      ensures this.ar == ar && index == -1 && !modified
    {
      this.ar := ar;
      index, modified := -1, false;
    }

    /** The next entry is at `index`; at the end, deleted entries are squeezed out. */
    method Next() returns (found: bool)
      requires -1 <= index < ar.Length < 0x8000
      modifies `index, ar
      ensures index == old(index) + 1
      ensures found <==> index < ar.Length && Live(old(ar[..])[index])
      ensures Entries(ar[..]) == old(Entries(ar[..]))
      ensures found || !modified ==> ar[..] == old(ar[..])
      ensures !found && modified ==> Dense(ar[..])
    {
      index := index + 1;
      if index < ar.Length && Live(ar[index]) {
        return true;
      } else if ar.Length > 1 && modified {
        Compact(ar);
      }
      return false;
    }

    predicate Done()
      reads this, ar
      requires index <= ar.Length
    {
      !(index < 0 || (index < ar.Length && Live(ar[index])))
    }

    method DeleteCurrent()
      requires 0 <= index
      modifies `modified, ar
      ensures index < ar.Length ==>
                modified && ar[..] == old(ar[..])[index := old(ar[..])[index].(arep := FREE)]
      ensures index >= ar.Length ==> modified == old(modified) && ar[..] == old(ar[..])
    {
      if index < ar.Length {
        ar[index] := ar[index].(arep := FREE);
        modified := true;
      }
    }
  }
}
