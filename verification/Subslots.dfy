/**
 The table of plugged submodules of the PROFINET application: a fixed number of cells
 per slot, filled first free first, and searched by subslot number.
 */
module Subslots {
  /** A cell; a cleared one holds number 0. */
  datatype Cell = Cell(used: bool, number: nat, ident: nat)

  const CLEAR := Cell(false, 0, 0)

  datatype Found = NotFound | At(index: nat)

  // ---------- one slot on values ----------

  /** The first cell with the number; whether the cell is used is not asked. */
  function Find(cells: seq<Cell>, number: nat): (r: Found)
    ensures r.At? ==> r.index < |cells| && cells[r.index].number == number
    ensures r.At? ==> forall i :: 0 <= i < r.index ==> cells[i].number != number
    ensures r == NotFound ==> forall i :: 0 <= i < |cells| ==> cells[i].number != number
  {
    if cells == [] then NotFound
    else if cells[0].number == number then At(0)
    else match Find(cells[1..], number) case NotFound => NotFound case At(i) => At(i + 1)
  }

  function FirstFree(cells: seq<Cell>): (r: Found)
    ensures r.At? ==> r.index < |cells| && !cells[r.index].used
    ensures r.At? ==> forall i :: 0 <= i < r.index ==> cells[i].used
    ensures r == NotFound ==> forall i :: 0 <= i < |cells| ==> cells[i].used
  {
    if cells == [] then NotFound
    else if !cells[0].used then At(0)
    else match FirstFree(cells[1..]) case NotFound => NotFound case At(i) => At(i + 1)
  }

  function Plugged(cells: seq<Cell>, number: nat, ident: nat): seq<Cell> {
    match FirstFree(cells)
    case NotFound => cells
    case At(i) => cells[i := Cell(true, number, ident)]
  }

  function Pulled(cells: seq<Cell>, number: nat): seq<Cell> {
    match Find(cells, number)
    case NotFound => cells
    case At(i) => cells[i := CLEAR]
  }

  /** What lookup sees: the submodule in the first cell with the number. */
  function Lookup(cells: seq<Cell>, number: nat): Found {
    match Find(cells, number) case NotFound => NotFound case At(i) => At(cells[i].ident)
  }

  /** Used cells carry different non-zero numbers, and the others are clear. */
  ghost predicate Sound(cells: seq<Cell>) {
    && (forall i :: 0 <= i < |cells| ==> if cells[i].used then cells[i].number != 0 else cells[i] == CLEAR)
    && forall i, j :: 0 <= i < j < |cells| && cells[i].used && cells[j].used ==> cells[i].number != cells[j].number
  }

  /** The used cells of a slot as a map from subslot numbers to submodules. */
  function Contents(cells: seq<Cell>): map<nat, nat> {
    if cells == [] then map[] else
      var rest, c := Contents(cells[..|cells| - 1]), cells[|cells| - 1];
      if c.used then rest[c.number := c.ident] else rest
  }

  ghost predicate Holds(cells: seq<Cell>, number: nat, ident: nat) {
    exists i :: 0 <= i < |cells| && cells[i] == Cell(true, number, ident)
  }

  lemma {:induction false} ContentsMeans(cells: seq<Cell>, number: nat, ident: nat)
    requires Sound(cells)
    ensures number in Contents(cells) && Contents(cells)[number] == ident <==> Holds(cells, number, ident)
  {
    if cells == [] {
    } else {
      var rest, c := cells[..|cells| - 1], cells[|cells| - 1];
      ContentsMeans(rest, number, ident);
      if number in Contents(rest) { ContentsMeans(rest, number, Contents(rest)[number]); }
      if i :| 0 <= i < |rest| && rest[i] == Cell(true, number, ident) { assert cells[i] == rest[i]; }
      assert c == Cell(true, number, ident) ==> Holds(cells, number, ident);
    }
  }

  /** Two slots that hold the same submodules have the same contents. */
  lemma {:induction false} SameContents(a: seq<Cell>, m: map<nat, nat>)
    requires Sound(a) && forall n, d :: (n in m && m[n] == d) <==> Holds(a, n, d)
    ensures Contents(a) == m
  {
    forall n ensures n in Contents(a) <==> n in m ensures n in m ==> Contents(a)[n] == m[n] {
      if n in Contents(a) { ContentsMeans(a, n, Contents(a)[n]); }
      if n in m { ContentsMeans(a, n, m[n]); assert Holds(a, n, m[n]); }
    }
    assert Contents(a).Keys == m.Keys;
  }

  lemma {:induction false} LookupIsContents(cells: seq<Cell>, number: nat)
    requires Sound(cells) && number != 0
    ensures Lookup(cells, number) == if number in Contents(cells) then At(Contents(cells)[number]) else NotFound
  {
    if number in Contents(cells) {
      ContentsMeans(cells, number, Contents(cells)[number]);
    }
    if Find(cells, number).At? {
      var i := Find(cells, number).index;
      assert cells[i].used && cells[i] == Cell(true, number, cells[i].ident);
      ContentsMeans(cells, number, cells[i].ident);
    }
  }

  function UsedCells(cells: seq<Cell>): nat {
    if cells == [] then 0 else UsedCells(cells[..|cells| - 1]) + if cells[|cells| - 1].used then 1 else 0
  }

  lemma {:induction false} ContentsSize(cells: seq<Cell>)
    requires Sound(cells)
    ensures |Contents(cells)| == UsedCells(cells)
  {
    if cells == [] {
      assert Contents(cells) == map[];
    } else {
      var rest, c := cells[..|cells| - 1], cells[|cells| - 1];
      ContentsSize(rest);
      if c.used && c.number in Contents(rest) {
        ContentsMeans(rest, c.number, Contents(rest)[c.number]);
      }
    }
  }

  lemma {:induction false} FullIff(cells: seq<Cell>)
    ensures UsedCells(cells) <= |cells|
    ensures UsedCells(cells) == |cells| <==> forall i :: 0 <= i < |cells| ==> cells[i].used
  {
    if cells == [] {
    } else {
      FullIff(cells[..|cells| - 1]);
      assert cells == cells[..|cells| - 1] + [cells[|cells| - 1]];
    }
  }

  /** Plugging an absent number adds it, and fails exactly when as many are plugged as there are cells. */
  lemma {:induction false} PlugAdds(cells: seq<Cell>, number: nat, ident: nat)
    requires Sound(cells) && number != 0 && number !in Contents(cells)
    ensures Sound(Plugged(cells, number, ident))
    ensures Contents(Plugged(cells, number, ident)) ==
            if |Contents(cells)| < |cells| then Contents(cells)[number := ident] else Contents(cells)
    ensures FirstFree(cells).At? <==> |Contents(cells)| < |cells|
  {
    ContentsSize(cells);
    FullIff(cells);
    if FirstFree(cells).At? {
      var k, r := FirstFree(cells).index, Plugged(cells, number, ident);
      PlugSound(cells, number, ident);
      forall n, d
        ensures (n in Contents(cells)[number := ident] && Contents(cells)[number := ident][n] == d) <==> Holds(r, n, d)
      {
        ContentsMeans(cells, n, d);
        PlugHolds(cells, number, ident, n, d);
      }
      SameContents(r, Contents(cells)[number := ident]);
    }
  }

  lemma {:induction false} PlugSound(cells: seq<Cell>, number: nat, ident: nat)
    requires Sound(cells) && number != 0 && number !in Contents(cells)
    ensures Sound(Plugged(cells, number, ident))
  {
    forall i | 0 <= i < |cells| && cells[i].used ensures cells[i].number != number {
      ContentsMeans(cells, cells[i].number, cells[i].ident);
      assert cells[i] == Cell(true, cells[i].number, cells[i].ident);
    }
  }

  lemma {:induction false} PlugHolds(cells: seq<Cell>, number: nat, ident: nat, n: nat, d: nat)
    requires FirstFree(cells).At?
    ensures Holds(Plugged(cells, number, ident), n, d) <==> Holds(cells, n, d) || (n == number && d == ident)
  {
    var k, r := FirstFree(cells).index, Plugged(cells, number, ident);
    if i :| 0 <= i < |cells| && cells[i] == Cell(true, n, d) { assert r[i] == cells[i]; }
    if n == number && d == ident { assert r[k] == Cell(true, n, d); }
  }

  /** Pulling removes the number from the map, and frees one cell if it was there. */
  lemma {:induction false} PullRemoves(cells: seq<Cell>, number: nat)
    requires Sound(cells) && number != 0
    ensures Sound(Pulled(cells, number)) && Contents(Pulled(cells, number)) == Contents(cells) - {number}
    ensures UsedCells(Pulled(cells, number)) == UsedCells(cells) - if number in Contents(cells) then 1 else 0
  {
    LookupIsContents(cells, number);
    var r, m := Pulled(cells, number), Contents(cells) - {number};
    forall n: nat, d: nat ensures (n in m && m[n] == d) <==> Holds(r, n, d) {
      ContentsMeans(cells, n, d);
      PullHolds(cells, number, n, d);
    }
    SameContents(r, m);
    ContentsSize(cells);
    ContentsSize(r);
    if number in Contents(cells) {
      assert Contents(cells) == m[number := Contents(cells)[number]];
    } else {
      assert Contents(cells) == m;
    }
  }

  lemma {:induction false} PullHolds(cells: seq<Cell>, number: nat, n: nat, d: nat)
    requires Sound(cells) && number != 0
    ensures Holds(Pulled(cells, number), n, d) <==> Holds(cells, n, d) && n != number
  {
    var r := Pulled(cells, number);
    if i :| 0 <= i < |cells| && cells[i] == Cell(true, n, d) {
      assert n != number ==> r[i] == cells[i];
    }
  }

  /** Number 0 is found in any free cell, so it cannot stand for a submodule. */
  lemma {:induction false} ZeroIsFoundIff(cells: seq<Cell>)
    requires Sound(cells)
    ensures Find(cells, 0).At? <==> UsedCells(cells) < |cells|
  {
    FullIff(cells);
  }

  /** Plugging a number that is there already hides whichever cell comes second. */
  lemma {:induction false} PlugAgainIsSeenIff(cells: seq<Cell>, number: nat, ident: nat)
    requires Sound(cells) && number != 0 && Find(cells, number).At? && FirstFree(cells).At?
    requires cells[Find(cells, number).index].ident != ident
    ensures Lookup(Plugged(cells, number, ident), number) == At(ident) <==>
            FirstFree(cells).index < Find(cells, number).index
  {
    LookupIsContents(cells, number);
    var i, k := Find(cells, number).index, FirstFree(cells).index;
    FindAt(Plugged(cells, number, ident), number, if k < i then k else i);
  }

  // ---------- sequences of operations on a slot ----------

  datatype Op = Plug(number: nat, ident: nat) | Pull(number: nat)

  function Run(cells: seq<Cell>, ops: seq<Op>): seq<Cell> {
    if ops == [] then cells else
      match ops[|ops| - 1]
      case Plug(number, ident) => Plugged(Run(cells, ops[..|ops| - 1]), number, ident)
      case Pull(number) => Pulled(Run(cells, ops[..|ops| - 1]), number)
  }

  /** The same on a map with room for `size` entries. */
  function RunMap(m: map<nat, nat>, size: nat, ops: seq<Op>): map<nat, nat> {
    if ops == [] then m else
      var n := RunMap(m, size, ops[..|ops| - 1]);
      match ops[|ops| - 1]
      case Plug(number, ident) => if |n| < size then n[number := ident] else n
      case Pull(number) => n - {number}
  }

  /** Numbers are not zero, and only absent ones are plugged. */
  ghost predicate Proper(m: map<nat, nat>, size: nat, ops: seq<Op>) {
    forall i :: 0 <= i < |ops| ==> ops[i].number != 0 && (ops[i].Plug? ==> ops[i].number !in RunMap(m, size, ops[..i]))
  }

  /** Whatever is plugged and pulled, the cells hold what the map holds and lookup finds it. */
  lemma {:induction false} CellsAreAMap(cells: seq<Cell>, ops: seq<Op>, number: nat)
    requires Sound(cells) && Proper(Contents(cells), |cells|, ops) && number != 0
    ensures |Run(cells, ops)| == |cells| && Sound(Run(cells, ops))
    ensures Contents(Run(cells, ops)) == RunMap(Contents(cells), |cells|, ops)
    ensures var m := RunMap(Contents(cells), |cells|, ops);
            Lookup(Run(cells, ops), number) == if number in m then At(m[number]) else NotFound
  {
    if ops == [] {
    } else {
      var rest := ops[..|ops| - 1];
      forall i | 0 <= i < |rest|
        ensures rest[i].number != 0
        ensures rest[i].Plug? ==> rest[i].number !in RunMap(Contents(cells), |cells|, rest[..i])
      {
        assert rest[i] == ops[i] && rest[..i] == ops[..i];
      }
      CellsAreAMap(cells, rest, number);
      match ops[|ops| - 1]
      case Plug(n, ident) => PlugAdds(Run(cells, rest), n, ident);
      case Pull(n) => PullRemoves(Run(cells, rest), n);
    }
    LookupIsContents(Run(cells, ops), number);
  }

  // ---------- a slot that nothing is pulled from ----------

  lemma {:induction false} RunMore(cells: seq<Cell>, ops: seq<Op>, op: Op)
    requires op.Plug?
    ensures Run(cells, ops + [op]) == Plugged(Run(cells, ops), op.number, op.ident)
  {
    assert (ops + [op])[..|ops|] == ops;
  }

  predicate PlugsOnly(ops: seq<Op>) {
    forall i :: 0 <= i < |ops| ==> ops[i].Plug?
  }

  /** As many cells as fit, filled by the first operations, and the rest clear. */
  ghost function Filled(ops: seq<Op>, size: nat): seq<Cell>
    requires PlugsOnly(ops)
  {
    seq(size, i requires 0 <= i < size => if i < |ops| then Cell(true, ops[i].number, ops[i].ident) else CLEAR)
  }

  lemma {:induction false} PlugsFill(ops: seq<Op>, size: nat)
    requires PlugsOnly(ops)
    ensures Run(Filled([], size), ops) == Filled(ops, size)
  {
    if ops == [] {
    } else {
      var rest, last := ops[..|ops| - 1], ops[|ops| - 1];
      PlugsFill(rest, size);
      if |rest| < size { FreeAt(Filled(rest, size), |rest|); }
      assert Plugged(Filled(rest, size), last.number, last.ident) == Filled(ops, size);
    }
  }

  /** The operation at `k` is the first for its number, and got a cell. */
  ghost predicate FirstFor(ops: seq<Op>, size: nat, k: nat, number: nat) {
    && k < |ops| && k < size && ops[k].number == number
    && forall i :: 0 <= i < k ==> ops[i].number != number
  }

  lemma {:induction false} FoundIsFirst(ops: seq<Op>, size: nat, number: nat, k: nat)
    requires PlugsOnly(ops) && number != 0 && k < size && Filled(ops, size)[k].number == number
    requires forall i :: 0 <= i < k ==> Filled(ops, size)[i].number != number
    ensures FirstFor(ops, size, k, number)
  {
    forall i | 0 <= i < k ensures ops[i].number != number {
      assert Filled(ops, size)[i].number != number;
    }
  }

  /**
   In a slot that only ever sees plugging, lookup finds for each number what was first plugged
   under it, whatever came later, and nothing if that did not fit.
   */
  lemma {:induction false} FirstPlugStays(ops: seq<Op>, size: nat, number: nat)
    requires PlugsOnly(ops) && number != 0
    ensures forall k: nat :: FirstFor(ops, size, k, number) ==>
              Lookup(Run(Filled([], size), ops), number) == At(ops[k].ident)
    ensures (forall k: nat :: !FirstFor(ops, size, k, number)) ==>
              Lookup(Run(Filled([], size), ops), number) == NotFound
  {
    PlugsFill(ops, size);
    var cells := Filled(ops, size);
    forall k: nat | FirstFor(ops, size, k, number) ensures Lookup(cells, number) == At(ops[k].ident) {
      FindAt(cells, number, k);
    }
    var r := Find(cells, number);
    if r.At? { FoundIsFirst(ops, size, number, r.index); }
  }

  // ---------- the table ----------

  class Table {
    /** Rows are slots, columns the cells of a slot. */
    const cells: array2<Cell>

    /** The cells of one slot. */
    ghost function Slot(slot: nat): seq<Cell>
      reads cells
      requires slot < cells.Length0
    {
      seq(cells.Length1, j requires 0 <= j < cells.Length1 reads cells => cells[slot, j])
    }

    ghost predicate Valid()
      reads cells
    {
      forall slot :: 0 <= slot < cells.Length0 ==> Sound(Slot(slot))
    }

    constructor (maxSlots: nat, maxSubslots: nat)
      ensures fresh(cells) && cells.Length0 == maxSlots && cells.Length1 == maxSubslots
      ensures Valid() && forall slot :: 0 <= slot < maxSlots ==> Contents(Slot(slot)) == map[]
      ensures forall slot, i :: 0 <= slot < maxSlots && 0 <= i < maxSubslots ==> cells[slot, i] == CLEAR
    {
      cells := new Cell[maxSlots, maxSubslots]((_, _) => CLEAR);
      new;
      forall slot | 0 <= slot < maxSlots ensures Sound(Slot(slot)) && Contents(Slot(slot)) == map[] {
        ClearIsEmpty(Slot(slot));
      }
    }

    method SubslotGet(slot: nat, number: nat) returns (r: Found)
      ensures r == if slot < cells.Length0 then Find(Slot(slot), number) else NotFound
    {
      if slot >= cells.Length0 { return NotFound; }
      for j := 0 to cells.Length1
        invariant forall i :: 0 <= i < j ==> cells[slot, i].number != number
      {
        if cells[slot, j].number == number {
          FindAt(Slot(slot), number, j);
          return At(j);
        }
      }
      assert Find(Slot(slot), number) == NotFound;
      return NotFound;
    }

    method PlugSubmodule(slot: nat, number: nat, ident: nat) returns (r: Found)
      modifies cells
      ensures slot >= cells.Length0 ==> r == NotFound
      ensures slot < cells.Length0 ==>
                r == old(FirstFree(Slot(slot))) && Slot(slot) == Plugged(old(Slot(slot)), number, ident)
      ensures forall s :: 0 <= s < cells.Length0 && s != slot ==> Slot(s) == old(Slot(s))
    {
      if slot >= cells.Length0 { return NotFound; }
      for j := 0 to cells.Length1
        invariant forall i :: 0 <= i < j ==> cells[slot, i].used
        invariant forall s, i :: 0 <= s < cells.Length0 && 0 <= i < cells.Length1 ==> cells[s, i] == old(cells[s, i])
      {
        if !cells[slot, j].used {
          FreeAt(Slot(slot), j);
          cells[slot, j] := Cell(true, number, ident);
          return At(j);
        }
      }
      assert FirstFree(Slot(slot)) == NotFound;
      return NotFound;
    }

    /** The guard compares the slot with the number of subslots. */
    method PullSubmodule(slot: nat, number: nat) returns (ok: bool)
      modifies cells
      ensures ok <==> slot < cells.Length1 && slot < cells.Length0 && old(Find(Slot(slot), number)).At?
      ensures slot < cells.Length0 ==> Slot(slot) == if ok then Pulled(old(Slot(slot)), number) else old(Slot(slot))
      ensures forall s :: 0 <= s < cells.Length0 && s != slot ==> Slot(s) == old(Slot(s))
    {
      if slot >= cells.Length1 { return false; }
      var r := SubslotGet(slot, number);
      if r == NotFound { return false; }
      cells[slot, r.index] := CLEAR;
      return true;
    }

    /**
     The plug indication of the stack: the old submodule is pulled, then the new one plugged,
     each as far as the stack itself has done so.
     */
    method Replug(slot: nat, number: nat, ident: nat, pulled: bool, plugged: bool)
      modifies cells
      ensures slot < cells.Length0 ==>
                Slot(slot) == Replugged(old(Slot(slot)), number, ident, pulled && slot < cells.Length1, plugged)
      ensures forall s :: 0 <= s < cells.Length0 && s != slot ==> Slot(s) == old(Slot(s))
      ensures old(Valid()) && slot < cells.Length0 && number != 0 && slot < cells.Length1 && pulled ==>
                && Valid()
                && var was := old(Contents(Slot(slot))) - {number};
                   Contents(Slot(slot)) == if plugged && |was| < cells.Length1 then was[number := ident] else was
    {
      ghost var valid := Valid();
      if valid && slot < cells.Length0 && number != 0 { ReplugMeans(Slot(slot), number, ident, plugged); }
      if pulled {
        var ok := PullSubmodule(slot, number);
      }
      if plugged {
        var cell := PlugSubmodule(slot, number, ident);
      }
      forall s | 0 <= s < cells.Length0 && s != slot
        ensures (valid ==> old(Sound(Slot(s)))) && Slot(s) == old(Slot(s))
      {
      }
    }

    /**
     Plug indications for a slot whose number is past the guard of `PullSubmodule`: none of
     them pulls anything, whatever the stack did.
     */
    method ReplugBeyond(slot: nat, inds: seq<Indication>)
      requires cells.Length1 <= slot < cells.Length0
      modifies cells
      ensures Slot(slot) == Run(old(Slot(slot)), Plugs(inds))
    {
      for i := 0 to |inds|
        invariant Slot(slot) == Run(old(Slot(slot)), Plugs(inds[..i]))
      {
        PlugsMore(old(Slot(slot)), inds, i);
        Replug(slot, inds[i].number, inds[i].ident, inds[i].pulled, inds[i].plugged);
      }
      assert inds[..|inds|] == inds;
    }
  }

  /** A plug indication, and whether the stack itself has pulled the old and plugged the new submodule. */
  datatype Indication = Indication(number: nat, ident: nat, pulled: bool, plugged: bool)

  function Plugs(inds: seq<Indication>): (ops: seq<Op>)
    ensures PlugsOnly(ops)
  {
    if inds == [] then [] else
      var d := inds[|inds| - 1];
      Plugs(inds[..|inds| - 1]) + if d.plugged then [Plug(d.number, d.ident)] else []
  }

  lemma {:induction false} PlugsMore(cells: seq<Cell>, inds: seq<Indication>, i: nat)
    requires i < |inds|
    ensures var d := inds[i];
            Run(cells, Plugs(inds[..i + 1])) ==
            Replugged(Run(cells, Plugs(inds[..i])), d.number, d.ident, false, d.plugged)
  {
    var ops := Plugs(inds[..i]);
    assert inds[..i + 1][..i] == inds[..i] && ops + [] == ops;
    if inds[i].plugged { RunMore(cells, ops, Plug(inds[i].number, inds[i].ident)); }
  }

  /** With 5 slots of 3 subslots, as configured by default, a submodule of slot 3 or 4 is never replaced. */
  method StaleSubmodule(slot: nat, number: nat, first: nat, second: nat) returns (seen: Found)
    requires 3 <= slot < 5 && number != 0
    ensures seen == At(first)
  {
    var t := new Table(5, 3);
    assert t.Slot(slot) == Filled([], 3) by {
      assert forall i :: 0 <= i < 3 ==> t.Slot(slot)[i] == CLEAR;
    }
    ghost var ops := [Plug(number, first), Plug(number, second)];
    var inds := [Indication(number, first, true, true), Indication(number, second, true, true)];
    t.ReplugBeyond(slot, inds);
    assert Plugs(inds) == ops by {
      assert Plugs([]) == [] && [inds[0]][..0] == [];
      assert Plugs([inds[0]]) == [ops[0]];
      assert inds[..1] == [inds[0]];
    }
    FirstPlugStays(ops, 3, number);
    assert FirstFor(ops, 3, 0, number);
    var r := t.SubslotGet(slot, number);
    seen := if r.At? then At(t.cells[slot, r.index].ident) else NotFound;
  }

  function Replugged(cells: seq<Cell>, number: nat, ident: nat, pulled: bool, plugged: bool): seq<Cell> {
    var rest := if pulled then Pulled(cells, number) else cells;
    if plugged then Plugged(rest, number, ident) else rest
  }

  /** With the old submodule pulled, the number maps to the new one if that was plugged and fits, else to nothing. */
  lemma {:induction false} ReplugMeans(cells: seq<Cell>, number: nat, ident: nat, plugged: bool)
    requires Sound(cells) && number != 0
    ensures Sound(Replugged(cells, number, ident, true, plugged))
    ensures var m := Contents(cells) - {number};
            Contents(Replugged(cells, number, ident, true, plugged)) ==
            if plugged && |m| < |cells| then m[number := ident] else m
  {
    PullRemoves(cells, number);
    PlugAdds(Pulled(cells, number), number, ident);
  }

  lemma {:induction false} ClearIsEmpty(cells: seq<Cell>)
    requires forall i :: 0 <= i < |cells| ==> cells[i] == CLEAR
    ensures Sound(cells) && Contents(cells) == map[]
  {
    if cells == [] {
    } else {
      ClearIsEmpty(cells[..|cells| - 1]);
    }
  }

  lemma {:induction false} FindAt(cells: seq<Cell>, number: nat, j: nat)
    requires j < |cells| && cells[j].number == number && forall i :: 0 <= i < j ==> cells[i].number != number
    ensures Find(cells, number) == At(j)
  {
  }

  lemma {:induction false} FreeAt(cells: seq<Cell>, j: nat)
    requires j < |cells| && !cells[j].used && forall i :: 0 <= i < j ==> cells[i].used
    ensures FirstFree(cells) == At(j)
  {
  }
}
