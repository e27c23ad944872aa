/**
 Generations of the network configuration: a change claims the next one, and evolves to it
 or abandons it.  Every claim puts a link into the current generation that can be made once.
 */
module Generations {
  import opened Options

  /** The file `next`: held open without content by a claim, or with the number of a generation. */
  datatype NextFile = Absent | Empty | Names(gen: int)

  /** The directory: `current`, and which generations have the links to their exit and init order. */
  datatype Disk = Disk(next: NextFile, current: Option<int>, exits: set<int>, inits: set<int>)

  const BLANK := Disk(Absent, None, {}, {})

  /** What becomes of a change whose claim is accepted. */
  datatype Fate =
    | Refused       // an interface of it cannot be compiled
    | Aborted       // another callback of the transaction fails
    | ScriptsFail   // the exit or init scripts fail
    | Evolves

  // ---------- on values ----------

  /** The directory after a claim, and the generation claimed. */
  function Claimed(d: Disk): (Disk, Option<int>) {
    var held := d.(next := Empty);
    var g := if d.current.Some? then d.current.value else -1;
    if d.next != Absent then (d, None)
    else if d.current.Some? && g in d.exits then (held, None)
    else
      var linked := if d.current.Some? then held.(exits := d.exits + {g}) else held;
      if g + 1 in d.inits then (linked, None)
      else (linked.(inits := d.inits + {g + 1}), Some(g + 1))
  }

  /** The directory after a change. */
  function Changed(d: Disk, fate: Fate): Disk {
    var (c, gen) := Claimed(d);
    if gen == None then c
    else if fate == Evolves then c.(next := Absent, current := gen)
    else c.(next := Absent, inits := c.inits - {gen.value})
  }

  function Run(d: Disk, fates: seq<Fate>): Disk {
    if fates == [] then d else Changed(Run(d, fates[..|fates| - 1]), fates[|fates| - 1])
  }

  predicate Accepts(d: Disk) {
    Claimed(d).1.Some?
  }

  // ---------- which changes are accepted ----------

  function Commits(fates: seq<Fate>): nat {
    if fates == [] then 0 else
      Commits(fates[..|fates| - 1]) + if fates[|fates| - 1] == Evolves then 1 else 0
  }

  /** From the first committed change on, all were committed. */
  ghost predicate Unbroken(fates: seq<Fate>) {
    forall i, j :: 0 <= i < j < |fates| && fates[i] == Evolves ==> fates[j] == Evolves
  }

  ghost function UpTo(n: int): (r: set<int>)
    ensures forall i :: i in r <==> 0 <= i < n
  {
    if n <= 0 then {} else UpTo(n - 1) + {n - 1}
  }

  /** The directory after `n` committed changes, as long as none was left over the current generation. */
  ghost predicate Clean(d: Disk, n: nat) {
    && d.next == Absent && d.current == (if n == 0 then None else Some(n - 1))
    && d.inits == UpTo(n) && d.exits == UpTo(n - 1)
  }

  /** The current generation has been claimed over before, or is locked by a claim that failed. */
  ghost predicate Spent(d: Disk) {
    d.next != Absent || (d.current.Some? && d.current.value in d.exits)
  }

  lemma {:induction false} CleanStep(d: Disk, n: nat, fate: Fate)
    requires Clean(d, n)
    ensures Claimed(d).1 == Some(n)
    ensures fate == Evolves ==> Clean(Changed(d, fate), n + 1)
    ensures fate != Evolves && n == 0 ==> Clean(Changed(d, fate), 0)
    ensures fate != Evolves && n > 0 ==> Spent(Changed(d, fate))
  {
    var linked := if n == 0 then d.exits else d.exits + {n - 1};
    assert linked == UpTo(n) && d.inits + {n} == UpTo(n + 1) && UpTo(n + 1) - {n} == UpTo(n);
    assert n == 0 ==> UpTo(0) == UpTo(-1);
  }

  lemma {:induction false} SpentStays(d: Disk, fate: Fate)
    requires Spent(d)
    ensures !Accepts(d) && Changed(d, fate).next != Absent
  {
  }

  lemma {:induction false} UnbrokenMore(fates: seq<Fate>)
    requires fates != []
    ensures var rest, last := fates[..|fates| - 1], fates[|fates| - 1];
            Unbroken(fates) <==> Unbroken(rest) && (Commits(rest) == 0 || last == Evolves)
  {
    var rest, last := fates[..|fates| - 1], fates[|fates| - 1];
    assert fates == rest + [last];
    SomeCommit(rest);
  }

  lemma {:induction false} SomeCommit(fates: seq<Fate>)
    ensures Commits(fates) > 0 <==> exists i :: 0 <= i < |fates| && fates[i] == Evolves
  {
    if fates == [] {
    } else {
      var rest, last := fates[..|fates| - 1], fates[|fates| - 1];
      assert fates == rest + [last];
      SomeCommit(rest);
      assert fates[|fates| - 1] == last;
    }
  }

  /** Over every sequence of changes the directory is clean as long as it was unbroken, and spent from then on. */
  lemma {:induction false} CleanOrSpent(fates: seq<Fate>)
    ensures if Unbroken(fates) then Clean(Run(BLANK, fates), Commits(fates)) else Spent(Run(BLANK, fates))
  {
    if fates == [] {
      assert UpTo(0) == {} && UpTo(-1) == {};
    } else {
      var rest, last := fates[..|fates| - 1], fates[|fates| - 1];
      CleanOrSpent(rest);
      UnbrokenMore(fates);
      if Unbroken(rest) {
        CleanStep(Run(BLANK, rest), Commits(rest), last);
      } else {
        SpentStays(Run(BLANK, rest), last);
      }
    }
  }

  /**
   A change is accepted if and only if no change was committed before it, or all were since the
   first that was.  So the first one abandoned after that is the last one accepted at all.
   */
  lemma {:induction false} AcceptedIff(fates: seq<Fate>)
    ensures Accepts(Run(BLANK, fates)) <==> Unbroken(fates)
    ensures Unbroken(fates) ==> Claimed(Run(BLANK, fates)).1 == Some(Commits(fates))
  {
    CleanOrSpent(fates);
    if Unbroken(fates) {
      CleanStep(Run(BLANK, fates), Commits(fates), Evolves);
    } else {
      SpentStays(Run(BLANK, fates), Evolves);
    }
  }

  /** The generation in use is that of the last change that was accepted and committed. */
  lemma {:induction false} CurrentIs(fates: seq<Fate>, k: nat)
    requires k <= |fates| && Unbroken(fates[..k]) && (k < |fates| ==> !Unbroken(fates[..k + 1]))
    ensures Run(BLANK, fates).current == if Commits(fates[..k]) == 0 then None else Some(Commits(fates[..k]) - 1)
    decreases |fates|
  {
    if k == |fates| {
      assert fates[..k] == fates;
      CleanOrSpent(fates);
    } else {
      var rest := fates[..|fates| - 1];
      assert rest[..k] == fates[..k] && (k < |rest| ==> rest[..k + 1] == fates[..k + 1]);
      CurrentIs(rest, k);
      if k < |rest| { StaysBroken(rest, k + 1); }
      LastIsWithout(fates, k);
    }
  }

  /** A change from the first abandoned one on leaves the generation in use. */
  lemma {:induction false} LastIsWithout(fates: seq<Fate>, k: nat)
    requires k < |fates| && Unbroken(fates[..k]) && !Unbroken(fates[..k + 1])
    requires k < |fates| - 1 ==> !Unbroken(fates[..|fates| - 1])
    ensures Run(BLANK, fates).current == Run(BLANK, fates[..|fates| - 1]).current
  {
    var rest := fates[..|fates| - 1];
    CleanOrSpent(rest);
    if Unbroken(rest) {
      assert fates[..k + 1] == fates;
      UnbrokenMore(fates);
    } else {
      SpentStays(Run(BLANK, rest), fates[|rest|]);
    }
  }

  lemma {:induction false} StaysBroken(fates: seq<Fate>, k: nat)
    requires k <= |fates| && !Unbroken(fates[..k])
    ensures !Unbroken(fates)
  {
    var s := fates[..k];
    var i, j :| 0 <= i < j < |s| && s[i] == Evolves && s[j] != Evolves;
    assert fates[i] == s[i] && fates[j] == s[j];
  }

  // ---------- the program ----------

  class Dagger {
    var nextFile: NextFile
    var currentFile: Option<int>
    var exits: set<int>
    var inits: set<int>
    var current: int
    var next: int

    constructor ()
      ensures View() == BLANK
    {
      nextFile, currentFile, exits, inits := Absent, None, {}, {};
      current, next := 0, 0;
    }

    ghost function View(): Disk reads this { Disk(nextFile, currentFile, exits, inits) }

    /** A claim that fails half way leaves what it has done. */
    method Claim() returns (ok: bool)
      modifies this
      ensures View() == Claimed(old(View())).0 && (ok <==> Accepts(old(View())))
      ensures ok ==> Some(next) == Claimed(old(View())).1 && nextFile == Empty && next in inits
    {
      current, next := 0, 0;
      if nextFile != Absent { return false; }
      nextFile := Empty;
      if currentFile == None {
        current := -1;
      } else {
        current := currentFile.value;
        if current in exits { return false; }
        exits := exits + {current};
      }
      next := current + 1;
      if next in inits { return false; }
      inits := inits + {next};
      return true;
    }

    /** The script: rename the generation that `next` names, and forget it. */
    method RunAbandon() returns (ok: bool)
      modifies `nextFile, `inits
      ensures ok <==> old(nextFile).Names? && old(nextFile).gen in old(inits)
      ensures View() == if ok then old(View()).(next := Absent, inits := old(inits) - {old(nextFile).gen})
                        else old(View())
    {
      if !nextFile.Names? || nextFile.gen !in inits { return false; }
      inits := inits - {nextFile.gen};
      nextFile := Absent;
      return true;
    }

    /** The script: make the generation that `next` names current, unless a script of it or of the current one fails. */
    method RunEvolve(works: bool) returns (ok: bool)
      modifies `nextFile, `currentFile
      ensures ok <==> old(nextFile).Names? && old(nextFile).gen in old(inits) && works
      ensures View() == if ok then old(View()).(next := Absent, current := Some(old(nextFile).gen)) else old(View())
    {
      if !nextFile.Names? || nextFile.gen !in inits || !works { return false; }
      currentFile, nextFile := Some(nextFile.gen), Absent;
      return true;
    }

    method EvolveOrAbandon(works: bool) returns (ok: bool)
      requires nextFile == Empty && next in inits
      modifies `nextFile, `currentFile, `inits
      ensures ok <==> works
      ensures View() == if works then old(View()).(next := Absent, current := Some(next))
                        else old(View()).(next := Absent, inits := old(inits) - {next})
    {
      nextFile := Names(next);
      ok := RunEvolve(works);
      if !ok { var gone := RunAbandon(); }
    }

    method Abandon()
      requires nextFile == Empty && next in inits
      modifies `nextFile, `inits
      ensures View() == old(View()).(next := Absent, inits := old(inits) - {next})
    {
      nextFile := Names(next);
      var gone := RunAbandon();
    }

    /** The callback of one transaction: claim, then whatever becomes of the change. */
    method Change(fate: Fate) returns (accepted: bool)
      modifies this
      ensures accepted <==> Accepts(old(View()))
      ensures View() == Changed(old(View()), fate)
    {
      accepted := Claim();
      if !accepted { return; }
      match fate {
        case Refused => Abandon();
        case Aborted => Abandon();
        case ScriptsFail => var ok := EvolveOrAbandon(false);
        case Evolves => var ok := EvolveOrAbandon(true);
      }
    }
  }
}
