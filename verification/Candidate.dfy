/**
 Inference on the candidate configuration: types are guessed from interface names, a
 veth gets its missing peer, and a VLAN its parent and tag from its name.
 */
module Candidate {
  import opened Options

  datatype IfType = Ethernet | Bridge | Lag | Veth | Vlan | OtherType(name: string)

  /** The leaves of an interface that inference reads or sets. */
  datatype Leaves = Leaves(ifType: Option<IfType>, peer: Option<string>, parent: Option<string>,
                           tagType: Option<string>, vid: Option<string>)

  type Store = map<string, Leaves>

  const C_VLAN := "ieee802-dot1q-types:c-vlan"

  // ---------- names ----------

  predicate IsDigit(c: char) {
    '0' <= c <= '9'
  }

  predicate Digits(s: string) {
    |s| >= 1 && forall i :: 0 <= i < |s| ==> IsDigit(s[i])
  }

  function Value(s: string): nat {
    if s == "" then 0
    else Value(s[..|s| - 1]) * 10 + if IsDigit(s[|s| - 1]) then (s[|s| - 1] - '0') as nat else 0
  }

  predicate Numbered(prefix: string, name: string) {
    prefix <= name && Digits(name[|prefix|..])
  }

  predicate IsVethName(name: string) {
    && "veth" <= name && |name| > 4
    && forall i :: 4 <= i < |name| ==> IsDigit(name[i]) || 'a' <= name[i] <= 'z' || name[i] == '_' || name[i] == '-'
  }

  /** The text behind the last dot, if there is a dot. */
  function AfterDot(name: string): Option<string> {
    if name == "" then None
    else if name[|name| - 1] == '.' then Some("")
    else match AfterDot(name[..|name| - 1]) case None => None case Some(t) => Some(t + [name[|name| - 1]])
  }

  /** A name that ends in a dot and digits. */
  predicate Dotted(name: string) {
    AfterDot(name).Some? && Digits(AfterDot(name).value)
  }

  function BeforeDot(name: string): string
    requires AfterDot(name).Some?
  {
    if name[|name| - 1] == '.' then name[..|name| - 1] else BeforeDot(name[..|name| - 1])
  }

  lemma {:induction false} DotSplits(name: string)
    requires AfterDot(name).Some?
    ensures name == BeforeDot(name) + "." + AfterDot(name).value
    ensures '.' !in AfterDot(name).value
  {
    var c := name[|name| - 1];
    assert name == name[..|name| - 1] + [c];
    if c == '.' {
      assert name == BeforeDot(name) + "." + "";
    } else {
      DotSplits(name[..|name| - 1]);
    }
  }

  // ---------- inference on values ----------

  /** The type a name suggests; names of physical ports win over patterns. */
  function TypeOf(name: string, phys: set<string>): Option<IfType> {
    if name in phys then Some(Ethernet)
    else if Numbered("br", name) then Some(Bridge)
    else if Numbered("lag", name) then Some(Lag)
    else if IsVethName(name) then Some(Veth)
    else if Numbered("vlan", name) then Some(Vlan)
    else if Dotted(name) then Some(Vlan)
    else None
  }

  function InferType(s: Store, name: string, phys: set<string>): Store
    requires name in s
  {
    if s[name].ifType.Some? then s else s[name := s[name].(ifType := TypeOf(name, phys))]
  }

  function InferVeth(s: Store, name: string): Store
    requires name in s
  {
    if s[name].ifType != Some(Veth) || s[name].peer == None || s[name].peer.value in s then s
    else s[s[name].peer.value := Leaves(Some(Veth), Some(name), None, None, None)]
  }

  function OrElse(a: Option<string>, b: string): Option<string> {
    if a.Some? then a else Some(b)
  }

  function InferVlan(s: Store, name: string): Store
    requires name in s
  {
    if s[name].ifType != Some(Vlan) || !Dotted(name) then s else
    var vid := AfterDot(name).value;
    if !(1 <= Value(vid) <= 4095) || BeforeDot(name) !in s then s else
    s[name := s[name].(parent := OrElse(s[name].parent, BeforeDot(name)),
                       tagType := OrElse(s[name].tagType, C_VLAN),
                       vid := OrElse(s[name].vid, vid))]
  }

  /** A name that ends in a dot and the digits of a valid tag. */
  predicate NamesTag(name: string) {
    Dotted(name) && 1 <= Value(AfterDot(name).value) <= 4095
  }

  function Infer(s: Store, name: string, phys: set<string>): Store
    requires name in s
  {
    var t := InferType(s, name, phys);
    var u := InferVeth(t, name);
    InferVlan(u, name)
  }

  // ---------- a whole change ----------

  datatype Oper = Created | Modified | Deleted | Moved

  datatype Change = Change(oper: Oper, name: string)

  predicate Concerns(c: Change) {
    c.oper == Created || c.oper == Modified
  }

  /** A created or modified node belongs to an interface of the candidate. */
  predicate Applies(s: Store, changes: seq<Change>) {
    forall i :: 0 <= i < |changes| && Concerns(changes[i]) ==> changes[i].name in s
  }

  function InferAll(s: Store, changes: seq<Change>, phys: set<string>): (t: Store)
    requires Applies(s, changes)
    ensures s.Keys <= t.Keys
  {
    if changes == [] then s else
    var t := InferAll(s, changes[..|changes| - 1], phys);
    var c := changes[|changes| - 1];
    if Concerns(c) then Infer(t, c.name, phys) else t
  }

  // ---------- nothing that is there is altered ----------

  ghost predicate Keeps<T(!new)>(a: Option<T>, b: Option<T>) {
    a.Some? ==> b == a
  }

  /** What inference may do to an interface: add to it, and only what its own name says. */
  ghost predicate Fits(name: string, phys: set<string>, a: Leaves, b: Leaves) {
    && b.peer == a.peer
    && Keeps(a.ifType, b.ifType) && Keeps(a.parent, b.parent) && Keeps(a.tagType, b.tagType) && Keeps(a.vid, b.vid)
    && (b.ifType != a.ifType ==> b.ifType == TypeOf(name, phys))
    && (b.parent != a.parent ==> NamesTag(name) && b.parent == Some(BeforeDot(name)))
    && (b.tagType != a.tagType ==> NamesTag(name) && b.tagType == Some(C_VLAN))
    && (b.vid != a.vid ==> NamesTag(name) && b.vid == AfterDot(name))
  }

  lemma {:induction false} FitsTwice(name: string, phys: set<string>, a: Leaves, b: Leaves, c: Leaves)
    requires Fits(name, phys, a, b) && Fits(name, phys, b, c)
    ensures Fits(name, phys, a, c)
  {
  }

  lemma {:induction false} InferFits(s: Store, name: string, phys: set<string>)
    requires name in s
    ensures Fits(name, phys, s[name], Infer(s, name, phys)[name])
  {
    var t := InferType(s, name, phys);
    var u := InferVeth(t, name);
    assert u[name] == t[name];
    FitsTwice(name, phys, s[name], t[name], InferVlan(u, name)[name]);
  }

  lemma {:induction false} InferAllFits(s: Store, changes: seq<Change>, phys: set<string>, n: string)
    requires Applies(s, changes) && n in s
    ensures Fits(n, phys, s[n], InferAll(s, changes, phys)[n])
  {
    if changes == [] {
    } else {
      var rest, c := changes[..|changes| - 1], changes[|changes| - 1];
      InferAllFits(s, rest, phys, n);
      var t := InferAll(s, rest, phys);
      if Concerns(c) && c.name == n {
        InferFits(t, n, phys);
        FitsTwice(n, phys, s[n], t[n], Infer(t, n, phys)[n]);
      }
    }
  }

  // ---------- what has been gone through is complete ----------

  /** A veth has its peer, and a VLAN named after a parent and a tag has both. */
  ghost predicate Complete(s: Store, t: Store, phys: set<string>, n: string) {
    && n in t
    && (t[n].ifType == Some(Veth) && t[n].peer.Some? ==> t[n].peer.value in t)
    && (t[n].ifType == Some(Vlan) && NamesTag(n) && BeforeDot(n) in s ==>
          t[n].parent.Some? && t[n].tagType.Some? && t[n].vid.Some?)
    && (TypeOf(n, phys).Some? ==> t[n].ifType.Some?)
  }

  lemma {:induction false} InferCompletes(s: Store, t: Store, name: string, phys: set<string>)
    requires s.Keys <= t.Keys && name in t
    ensures Complete(s, Infer(t, name, phys), phys, name)
  {
  }

  lemma {:induction false} StaysComplete(s: Store, t: Store, name: string, phys: set<string>, n: string)
    requires name in t && name != n && Complete(s, t, phys, n)
    ensures Complete(s, Infer(t, name, phys), phys, n)
  {
  }

  lemma {:induction false} InferAllCompletes(s: Store, changes: seq<Change>, phys: set<string>, i: nat)
    requires Applies(s, changes) && i < |changes| && Concerns(changes[i])
    ensures Complete(s, InferAll(s, changes, phys), phys, changes[i].name)
  {
    var rest, c := changes[..|changes| - 1], changes[|changes| - 1];
    var t := InferAll(s, rest, phys);
    if Concerns(c) && c.name == changes[i].name {
      InferCompletes(s, t, c.name, phys);
    } else {
      InferAllCompletes(s, rest, phys, i);
      assert rest[i] == changes[i];
      if Concerns(c) { StaysComplete(s, t, c.name, phys, changes[i].name); }
    }
  }

  // ---------- the peers that are made up ----------

  /** `n` is or becomes a veth, and names `p` as its peer. */
  predicate Names(s: Store, phys: set<string>, n: string, p: string)
    requires n in s
  {
    s[n].peer == Some(p) && (if s[n].ifType.Some? then s[n].ifType else TypeOf(n, phys)) == Some(Veth)
  }

  /** The first changed interface that names `p`. */
  function FirstNaming(s: Store, changes: seq<Change>, phys: set<string>, p: string): Option<string>
    requires Applies(s, changes)
  {
    if changes == [] then None else
    var c := changes[|changes| - 1];
    var first := FirstNaming(s, changes[..|changes| - 1], phys, p);
    if first == None && Concerns(c) && Names(s, phys, c.name, p) then Some(c.name) else first
  }

  function Peer(n: string): Leaves {
    Leaves(Some(Veth), Some(n), None, None, None)
  }

  /** `p` is there exactly when somebody named it, and points back to the first who did. */
  ghost predicate PointsBack(t: Store, p: string, first: Option<string>) {
    (p in t <==> first.Some?) && (first.Some? ==> t[p] == Peer(first.value))
  }

  lemma {:induction false} PeersPointBack(s: Store, changes: seq<Change>, phys: set<string>, p: string)
    requires Applies(s, changes) && p !in s
    ensures PointsBack(InferAll(s, changes, phys), p, FirstNaming(s, changes, phys, p))
  {
    if changes == [] {
    } else {
      var rest, c := changes[..|changes| - 1], changes[|changes| - 1];
      PeersPointBack(s, rest, phys, p);
      if Concerns(c) {
        InferAllFits(s, rest, phys, c.name);
        PeerStep(s, InferAll(s, rest, phys), phys, c.name, p, FirstNaming(s, rest, phys, p));
      }
    }
  }

  lemma {:induction false} PeerStep(s: Store, t: Store, phys: set<string>, n: string, p: string, first: Option<string>)
    requires n in s && n in t && p !in s && Fits(n, phys, s[n], t[n]) && PointsBack(t, p, first)
    ensures PointsBack(Infer(t, n, phys), p, if first == None && Names(s, phys, n, p) then Some(n) else first)
  {
    var u := InferType(t, n, phys);
    assert u[n].peer == s[n].peer;
    assert u[n].ifType == if s[n].ifType.Some? then s[n].ifType else TypeOf(n, phys);
  }

  /** `changes[i]` is the first change that concerns an interface naming `p`. */
  ghost predicate NamesFirst(s: Store, changes: seq<Change>, phys: set<string>, p: string, i: nat)
    requires Applies(s, changes)
  {
    && i < |changes| && Concerns(changes[i]) && Names(s, phys, changes[i].name, p)
    && forall j :: 0 <= j < i && Concerns(changes[j]) ==> !Names(s, phys, changes[j].name, p)
  }

  lemma {:induction false} NoneNames(s: Store, changes: seq<Change>, phys: set<string>, p: string)
    requires Applies(s, changes)
    ensures FirstNaming(s, changes, phys, p) == None <==>
            forall i :: 0 <= i < |changes| && Concerns(changes[i]) ==> !Names(s, phys, changes[i].name, p)
  {
    if changes == [] {
    } else {
      var rest, last := changes[..|changes| - 1], changes[|changes| - 1];
      NoneNames(s, rest, phys, p);
      assert forall i :: 0 <= i < |rest| ==> rest[i] == changes[i];
    }
  }

  lemma {:induction false} FirstNamingIs(s: Store, changes: seq<Change>, phys: set<string>, p: string, n: string)
    requires Applies(s, changes)
    ensures FirstNaming(s, changes, phys, p) == Some(n) <==>
            exists i: nat :: NamesFirst(s, changes, phys, p, i) && changes[i].name == n
    ensures FirstNaming(s, changes, phys, p) == None <==>
            forall i :: 0 <= i < |changes| && Concerns(changes[i]) ==> !Names(s, phys, changes[i].name, p)
  {
    if changes == [] {
    } else {
      var rest, k: nat := changes[..|changes| - 1], |changes| - 1;
      FirstNamingIs(s, rest, phys, p, n);
      NoneNames(s, rest, phys, p);
      NoneNames(s, changes, phys, p);
      forall i: nat | i < k ensures NamesFirst(s, rest, phys, p, i) <==> NamesFirst(s, changes, phys, p, i) {
        assert rest[i] == changes[i];
      }
      if FirstNaming(s, rest, phys, p) == None {
        assert NamesFirst(s, changes, phys, p, k) <==> Concerns(changes[k]) && Names(s, phys, changes[k].name, p);
      } else {
        var m := FirstNaming(s, rest, phys, p).value;
        FirstNamingIs(s, rest, phys, p, m);
        var i: nat :| NamesFirst(s, rest, phys, p, i) && rest[i].name == m;
        assert NamesFirst(s, changes, phys, p, i);
        if n == m { assert changes[i].name == n; }
      }
    }
  }

  /**
   A changed veth whose peer was absent gets one, and that peer points back to it if and only
   if it is the first of the changed interfaces that name the peer.
   */
  lemma {:induction false} PeerPointsBackIff(s: Store, changes: seq<Change>, phys: set<string>, i: nat, p: string)
    requires Applies(s, changes) && i < |changes| && Concerns(changes[i]) && p !in s
    requires Names(s, phys, changes[i].name, p)
    ensures var t := InferAll(s, changes, phys);
            && p in t && t[p].ifType == Some(Veth)
            && (t[p].peer == Some(changes[i].name) <==>
                exists j: nat :: NamesFirst(s, changes, phys, p, j) && changes[j].name == changes[i].name)
  {
    PeersPointBack(s, changes, phys, p);
    FirstNamingIs(s, changes, phys, p, changes[i].name);
  }

  /** Two veths that name the same absent peer: it points back to the first of them only. */
  lemma {:induction false} OnePeerForTwo(a: string, b: string, p: string, phys: set<string>)
    requires a != b && p != a && p != b
    ensures var veth := Leaves(Some(Veth), Some(p), None, None, None);
            var s := map[a := veth, b := veth];
            var changes := [Change(Created, a), Change(Created, b)];
            && Applies(s, changes)
            && var t := InferAll(s, changes, phys);
               && t[a].peer == Some(p) && t[b].peer == Some(p)
               && p in t && t[p].peer == Some(a)
  {
    var veth := Leaves(Some(Veth), Some(p), None, None, None);
    var s := map[a := veth, b := veth];
    var changes := [Change(Created, a), Change(Created, b)];
    assert Applies(s, changes);
    InferAllFits(s, changes, phys, a);
    InferAllFits(s, changes, phys, b);
    assert NamesFirst(s, changes, phys, p, 0) && changes[0].name == a;
    PeerPointsBackIff(s, changes, phys, 0, p);
  }

  /**
   Over any list of changes inference never alters a leaf that is there; an interface that
   was not there appears exactly when a changed veth names it, and then points back to the
   first that does; and a VLAN whose parent and id were both inferred is named after them.
   */
  lemma {:induction false} InferenceOnlyAdds(s: Store, changes: seq<Change>, phys: set<string>, n: string, p: string)
    requires Applies(s, changes) && n in s && p !in s
    ensures Fits(n, phys, s[n], InferAll(s, changes, phys)[n])
    ensures PointsBack(InferAll(s, changes, phys), p, FirstNaming(s, changes, phys, p))
    ensures var t := InferAll(s, changes, phys);
            s[n].parent == None && t[n].parent.Some? && s[n].vid == None && t[n].vid.Some? ==>
              n == t[n].parent.value + "." + t[n].vid.value && 1 <= Value(t[n].vid.value) <= 4095
  {
    InferAllFits(s, changes, phys, n);
    PeersPointBack(s, changes, phys, p);
    if AfterDot(n).Some? { DotSplits(n); }
  }

  // ---------- the candidate datastore ----------

  class Datastore {
    var store: Store
    const phys: set<string>

    constructor (store: Store, phys: set<string>)
      ensures this.store == store && this.phys == phys
    {
      this.store, this.phys := store, phys;
    }

    method CandInferType(name: string)
      requires name in store
      modifies this
      ensures store == InferType(old(store), name, phys)
    {
      if store[name].ifType.Some? { return; }
      var inferred: Option<IfType> := None;
      if name in phys { inferred := Some(Ethernet); }
      else if Numbered("br", name) { inferred := Some(Bridge); }
      else if Numbered("lag", name) { inferred := Some(Lag); }
      else if IsVethName(name) { inferred := Some(Veth); }
      else if Numbered("vlan", name) { inferred := Some(Vlan); }
      else if Dotted(name) { inferred := Some(Vlan); }
      if inferred.Some? {
        store := store[name := store[name].(ifType := inferred)];
      } else {
        assert store == store[name := store[name].(ifType := None)];
      }
    }

    method CandInferVeth(name: string)
      requires name in store
      modifies this
      ensures store == InferVeth(old(store), name)
    {
      if store[name].ifType != Some(Veth) { return; }
      if store[name].peer == None { return; }
      var peer := store[name].peer.value;
      if peer in store { return; }
      store := store[peer := Leaves(Some(Veth), None, None, None, None)];
      store := store[peer := store[peer].(peer := Some(name))];
    }

    method CandInferVlan(name: string)
      requires name in store
      modifies this
      ensures store == InferVlan(old(store), name)
    {
      if store[name].ifType != Some(Vlan) { return; }
      if !Dotted(name) { return; }
      var vid, parent := AfterDot(name).value, BeforeDot(name);
      if Value(vid) < 1 || Value(vid) > 4095 { return; }
      if parent !in store { return; }
      if store[name].parent == None { store := store[name := store[name].(parent := Some(parent))]; }
      if store[name].tagType == None {
        store := store[name := store[name].(tagType := Some(C_VLAN))];
      }
      if store[name].vid == None { store := store[name := store[name].(vid := Some(vid))]; }
      assert store == InferVlan(old(store), name);
    }

    /** Go through the changes. */
    method Cand(changes: seq<Change>)
      requires Applies(store, changes)
      modifies this
      ensures store == InferAll(old(store), changes, phys)
    {
      for i := 0 to |changes|
        invariant store == InferAll(old(store), changes[..i], phys)
      {
        assert changes[..i + 1][..i] == changes[..i];
        if Concerns(changes[i]) {
          CandInferType(changes[i].name);
          CandInferVeth(changes[i].name);
          CandInferVlan(changes[i].name);
        }
      }
      assert changes[..|changes|] == changes;
    }
  }
}
