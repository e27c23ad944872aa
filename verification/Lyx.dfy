/**
 Reading libyang diff trees: the operation of a node is the nearest one given on the
 node or a parent, and a leaf tells its old and its new value.
 */
module Lyx {
  import opened Options

  datatype Op = OpNone | OpCreate | OpDelete | OpReplace

  /** The "yang:operation" of a node and of its parents, nearest first; None where it is not given. */
  type Chain = seq<Option<string>>

  function Nearest(chain: Chain): Option<string> {
    if chain == [] then None
    else if chain[0].Some? then chain[0]
    else Nearest(chain[1..])
  }

  function OpNamed(name: Option<string>): Op {
    if name == Some("create") then OpCreate
    else if name == Some("delete") then OpDelete
    else if name == Some("replace") then OpReplace
    else OpNone
  }

  function OpOf(chain: Chain): Op {
    OpNamed(Nearest(chain))
  }

  /** The first operation given, from the node upwards, is `name`. */
  ghost predicate FirstIs(chain: Chain, name: string) {
    exists i :: 0 <= i < |chain| && chain[i] == Some(name) && forall j :: 0 <= j < i ==> chain[j] == None
  }

  lemma {:induction false} NearestIsFirst(chain: Chain, name: string)
    ensures Nearest(chain) == Some(name) <==> FirstIs(chain, name)
  {
    if chain == [] {
    } else {
      var rest := chain[1..];
      NearestIsFirst(rest, name);
      if i :| 0 <= i < |rest| && rest[i] == Some(name) && forall j :: 0 <= j < i ==> rest[j] == None {
        assert chain[0] == None ==> chain[i + 1] == Some(name) && forall j :: 0 <= j < i + 1 ==> chain[j] == None;
      }
      if i :| 0 <= i < |chain| && chain[i] == Some(name) && forall j :: 0 <= j < i ==> chain[j] == None {
        assert i > 0 ==> rest[i - 1] == Some(name) && forall j :: 0 <= j < i - 1 ==> rest[j] == None;
      }
    }
  }

  /** An operation is read exactly if its name is the first one given; any other name is no operation. */
  lemma {:induction false} OpIsFirst(chain: Chain)
    ensures OpOf(chain) == OpCreate <==> FirstIs(chain, "create")
    ensures OpOf(chain) == OpDelete <==> FirstIs(chain, "delete")
    ensures OpOf(chain) == OpReplace <==> FirstIs(chain, "replace")
  {
    NearestIsFirst(chain, "create");
    NearestIsFirst(chain, "delete");
    NearestIsFirst(chain, "replace");
  }

  /** Walk up the parents until one names an operation. */
  method GetOp(chain: Chain) returns (op: Op)
    ensures op == OpOf(chain)
    ensures op == OpCreate <==> FirstIs(chain, "create")
    ensures op == OpDelete <==> FirstIs(chain, "delete")
    ensures op == OpReplace <==> FirstIs(chain, "replace")
  {
    OpIsFirst(chain);
    var opstr: Option<string> := None;
    var node := 0;
    while opstr == None && node < |chain|
      invariant node <= |chain|
      invariant opstr.Some? ==> Nearest(chain) == opstr
      invariant opstr == None ==> Nearest(chain) == Nearest(chain[node..])
    {
      opstr := chain[node];
      assert chain[node..][1..] == chain[node + 1..];
      node := node + 1;
    }
    if opstr == Some("create") { return OpCreate; }
    if opstr == Some("delete") { return OpDelete; }
    if opstr == Some("replace") { return OpReplace; }
    return OpNone;
  }

  /** An operation given on a node decides; otherwise its parents' does. */
  lemma {:induction false} OpInherited(own: Option<string>, above: Chain)
    ensures OpOf([own] + above) == if own.Some? then OpNamed(own) else OpOf(above)
  {
    assert ([own] + above)[1..] == above;
  }

  /** A leaf of a diff, with its original value and default flags where they are recorded. */
  datatype Leaf = Leaf(op: Option<string>, val: string, orig: Option<string>, dflt: bool, origDflt: bool)

  datatype LeafDiff = LeafDiff(op: Op, modified: bool, isDefault: bool, wasDefault: bool,
                               was: Option<string>, now: Option<string>)

  function GetDiff(leaf: Leaf, above: Chain): LeafDiff {
    var op := OpOf([leaf.op] + above);
    var d :=
      if op == OpDelete then LeafDiff(op, false, false, leaf.dflt, Some(leaf.val), None)
      else if op == OpCreate then LeafDiff(op, false, leaf.dflt, false, None, Some(leaf.val))
      else LeafDiff(op, leaf.orig.Some?, leaf.dflt, leaf.origDflt,
                    if leaf.orig.Some? then leaf.orig else Some(leaf.val), Some(leaf.val));
    d.(modified := (d.was.Some? && !d.wasDefault) || (d.now.Some? && !d.isDefault))
  }

  /** `leaf` below `above` records a change of its value from `was` to `now`. */
  ghost predicate Records(leaf: Leaf, above: Chain, was: Option<string>, now: Option<string>) {
    match (was, now)
    case (None, None) => false
    case (None, Some(v)) => OpOf([leaf.op] + above) == OpCreate && leaf.val == v
    case (Some(u), None) => OpOf([leaf.op] + above) == OpDelete && leaf.val == u
    case (Some(u), Some(v)) =>
      && OpOf([leaf.op] + above) in {OpNone, OpReplace} && leaf.val == v
      && (leaf.orig == Some(u) || (leaf.orig == None && u == v))
  }

  /** A value, and whether it is only the default of the schema. */
  datatype Setting = Setting(value: string, byDefault: bool)

  function ValueOf(s: Option<Setting>): Option<string> {
    if s.Some? then Some(s.value.value) else None
  }

  /** An explicit setting: there, and not by default. */
  predicate Explicit(s: Option<Setting>) {
    s.Some? && !s.value.byDefault
  }

  /** The same with defaults: the flag is that of the value shown, the original's is recorded beside it. */
  ghost predicate RecordsSetting(leaf: Leaf, above: Chain, was: Option<Setting>, now: Option<Setting>) {
    && Records(leaf, above, ValueOf(was), ValueOf(now))
    && (now.Some? ==> leaf.dflt == now.value.byDefault)
    && (was.Some? ==> was.value.byDefault == if now.Some? then leaf.origDflt else leaf.dflt)
  }

  /** What was recorded is read back. */
  lemma {:induction false} RecordedIsRead(leaf: Leaf, above: Chain, was: Option<string>, now: Option<string>)
    requires Records(leaf, above, was, now)
    ensures GetDiff(leaf, above).was == was && GetDiff(leaf, above).now == now
  {
  }

  /** A leaf counts as modified exactly when its old or its new setting is explicit, changed or not. */
  lemma {:induction false} ModifiedIffExplicit(leaf: Leaf, above: Chain, was: Option<Setting>, now: Option<Setting>)
    requires RecordsSetting(leaf, above, was, now)
    ensures GetDiff(leaf, above).was == ValueOf(was) && GetDiff(leaf, above).now == ValueOf(now)
    ensures GetDiff(leaf, above).modified <==> Explicit(was) || Explicit(now)
  {
    RecordedIsRead(leaf, above, ValueOf(was), ValueOf(now));
  }
}
