/**
 An abstract kernel: network devices with their kind and addresses, whether they are up and
 which bridge they are a port of, and the effect of the commands that confd writes into its
 scripts.  A command that adds what is there,
 or names what is not there, fails, and a script stops at its first failure.
 */
module Kernel {
  import opened DepOrder
  import opened Options
  import A = Addresses

  datatype TagType = CVlan | SVlan | OtherTag

  datatype Link =
    | Plain                                                // physical, or of a kind confd cannot create
    | Bridge
    | Veth(peer: Name)
    | Vlan(parent: Name, tag: TagType, vid: string)

  datatype Dev = Dev(link: Link, addrs: set<A.Addr>, up: bool, master: Option<Name>) {
    /** The device when the bridge `b` is gone. */
    function Without(b: Name): Dev {
      if master == Some(b) then this.(master := None) else this
    }

    /** The device taken down, and made a port of another bridge if one is given. */
    function Down(bridge: Option<Name>): Dev {
      this.(up := false, master := if bridge.Some? then bridge else master)
    }
  }

  /** A device just added. */
  function NewDev(link: Link): Dev {
    Dev(link, {}, false, None)
  }

  type State = map<Name, Dev>

  datatype Cmd =
    | AddBridge(name: Name)
    | AddVeth(name: Name, peer: Name)
    | AddVlan(name: Name, parent: Name, tag: TagType, vid: string)
    | DelLink(name: Name)
    | SetDown(name: Name, master: Option<Name>)            // `link set down`, perhaps with a `master`
    | SetBridge(name: Name)
    | SetUp(name: Name)
    | FlushAll(name: Name)
    | Address(name: Name, cmd: A.Cmd)

  /** What a device stands on: a VLAN on its parent, the ends of a veth pair on each other. */
  function Stack(k: State): Graph {
    map n | n in k ::
      match k[n].link
      case Vlan(parent, _, _) => [parent]
      case Veth(peer) => [peer]
      case _ => []
  }

  /** Deleting a device takes along everything that stands on it, and lets go of its ports. */
  ghost function Without(k: State, name: Name): State {
    map n | n in k && n != name && !Reaches(Stack(k), n, name) :: k[n].Without(name)
  }

  ghost function Exec1(k: State, c: Cmd): Option<State> {
    match c
    case AddBridge(n) => if n in k then None else Some(k[n := NewDev(Bridge)])
    case AddVeth(n, p) =>
      if n in k || p in k || n == p then None else Some(k[n := NewDev(Veth(p))][p := NewDev(Veth(n))])
    case AddVlan(n, p, tag, vid) => if n in k || p !in k then None else Some(k[n := NewDev(Vlan(p, tag, vid))])
    case DelLink(n) => if n !in k || k[n].link.Plain? then None else Some(Without(k, n))
    case SetDown(n, master) =>
      if n !in k || (master.Some? && (master.value !in k || !k[master.value].link.Bridge?)) then None
      else Some(k[n := k[n].Down(master)])
    case SetBridge(n) => if n !in k then None else Some(k)
    case SetUp(n) => if n !in k then None else Some(k[n := k[n].(up := true)])
    case FlushAll(n) => if n !in k then None else Some(k[n := k[n].(addrs := {})])
    case Address(n, cmd) =>
      if n !in k then None else
      match A.Exec1(k[n].addrs, cmd)
      case None => None
      case Some(s) => Some(k[n := k[n].(addrs := s)])
  }

  /** None when a command fails. */
  ghost function Exec(k: State, cs: seq<Cmd>): Option<State> {
    if cs == [] then Some(k) else
      match Exec(k, cs[..|cs| - 1])
      case None => None
      case Some(l) => Exec1(l, cs[|cs| - 1])
  }

  lemma {:induction false} ExecConcat(k: State, cs: seq<Cmd>, ds: seq<Cmd>)
    ensures Exec(k, cs + ds) == match Exec(k, cs) case None => None case Some(l) => Exec(l, ds)
  {
    if ds == [] {
      assert cs + ds == cs;
    } else {
      ExecConcat(k, cs, ds[..|ds| - 1]);
      assert (cs + ds)[..|cs + ds| - 1] == cs + ds[..|ds| - 1];
    }
  }

  lemma {:induction false} Exec1Is(k: State, c: Cmd)
    ensures Exec(k, [c]) == Exec1(k, c)
  {
    assert [c][..0] == [] && Exec(k, []) == Some(k);
  }

  /** Run the scripts of the nodes of `order` that have one, one node after the other. */
  ghost function RunScripts(k: State, order: seq<Name>, scripts: map<Name, seq<Cmd>>): Option<State> {
    if order == [] then Some(k) else
      var n := order[|order| - 1];
      match RunScripts(k, order[..|order| - 1], scripts)
      case None => None
      case Some(l) => if n in scripts then Exec(l, scripts[n]) else Some(l)
  }

  function OnDev(name: Name, cs: seq<A.Cmd>): seq<Cmd> {
    seq(|cs|, i requires 0 <= i < |cs| => Address(name, cs[i]))
  }

  /** Address commands of a device act on its addresses only. */
  lemma {:induction false} AddressesOnDev(k: State, name: Name, cs: seq<A.Cmd>)
    requires name in k && A.Exec(k[name].addrs, cs).Some?
    ensures Exec(k, OnDev(name, cs)) == Some(k[name := k[name].(addrs := A.Exec(k[name].addrs, cs).value)])
  {
    if cs == [] {
      assert OnDev(name, cs) == [];
      assert k[name := k[name].(addrs := k[name].addrs)] == k;
    } else {
      var rest := cs[..|cs| - 1];
      AddressesOnDev(k, name, rest);
      assert OnDev(name, cs)[..|cs| - 1] == OnDev(name, rest);
      var s, t := A.Exec(k[name].addrs, rest).value, A.Exec(k[name].addrs, cs).value;
      assert k[name := k[name].(addrs := s)][name := k[name].(addrs := t)] == k[name := k[name].(addrs := t)];
    }
  }

  // ---------- removing devices ----------

  /**
   Ends of veth pairs that are meant to go along with their removed peers: `along[m]` takes
   `m` with it.
   */
  ghost predicate IsAlong(k: State, gone: set<Name>, along: map<Name, Name>) {
    forall m :: m in along ==>
      && m in k && m !in gone && along[m] in gone && along[m] in k && m != along[m]
      && k[m].link == Veth(along[m]) && k[along[m]].link == Veth(m)
  }

  /** `y` stands on `n`, or on the end that goes along with it. */
  ghost predicate Above(k: State, along: map<Name, Name>, y: Name, n: Name) {
    Edge(Stack(k), y, n) || exists m :: m in along && along[m] == n && Edge(Stack(k), y, m)
  }

  /** Everything that a removed device would take along is removed before it, or meant to go along. */
  ghost predicate Orderly(k: State, order: seq<Name>, gone: set<Name>, along: map<Name, Name>) {
    forall j, y :: 0 <= j < |order| && order[j] in gone && y != order[j] && Above(k, along, y, order[j]) ==>
      (y in gone && y in order[..j]) || (y in along && along[y] == order[j])
  }

  /** Devices keep standing on the same ones while others go. */
  lemma {:induction false} StackOfSub(k: State, l: State, x: Name, y: Name)
    requires Fewer(k, l) && Edge(Stack(l), x, y)
    ensures Edge(Stack(k), x, y)
  {
  }

  /** The exit scripts of a change: devices are deleted, or taken down and flushed if they are fixed. */
  ghost predicate IsExit(scripts: map<Name, seq<Cmd>>, gone: set<Name>, k: State) {
    && gone <= scripts.Keys
    && forall n :: n in scripts ==>
         n in k && if n in gone then scripts[n] == [DelLink(n)] && !k[n].link.Plain?
                   else k[n].link.Plain? && scripts[n] == [SetDown(n, None), FlushAll(n)]
  }

  /** `k` after the exit scripts of `order` have been run one by one and nothing went but what should. */
  function Exited(k: State, order: seq<Name>, scripts: map<Name, seq<Cmd>>, gone: set<Name>,
                  along: map<Name, Name>): State {
    map n | n in k && !(n in gone && n in order) && !(n in along && along[n] in order) ::
      Left(k[n], n in scripts && n in order, gone, order)
  }

  /** A fixed device after its exit script. */
  function Emptied(d: Dev): Dev {
    d.(addrs := {}, up := false)
  }

  /** A device, perhaps emptied, when those of `gone` that are in `order` have been deleted. */
  function Left(d: Dev, emptied: bool, gone: set<Name>, order: seq<Name>): Dev {
    var e := if emptied then Emptied(d) else d;
    if e.master.Some? && e.master.value in gone && e.master.value in order then e.(master := None) else e
  }

  /** If only `above` stand on `n`, and nothing else on them, a path to `n` is one step from one of them. */
  lemma {:induction false} OneStep(g: Graph, p: seq<Name>, n: Name, above: set<Name>)
    requires IsPath(g, p) && |p| >= 2 && p[0] != n && p[|p| - 1] == n
    requires forall y :: y != n && Edge(g, y, n) ==> y in above
    requires forall z, y :: z != n && y in above && y != n ==> !Edge(g, z, y)
    ensures p[0] in above
  {
    assert Edge(g, p[1 - 1], p[1]);
    if p[1] == n {
    } else {
      var q := p[1..];
      forall i | 0 < i < |q| ensures Edge(g, q[i - 1], q[i]) { assert Edge(g, p[i + 1 - 1], p[i + 1]); }
      OneStep(g, q, n, above);
    }
  }

  /** What `n` takes along when its turn has come: the ends meant to, and nothing else. */
  lemma {:induction false} TakesAlong(k: State, l: State, order: seq<Name>, gone: set<Name>, along: map<Name, Name>,
                                      n: Name, x: Name)
    requires IsAlong(k, gone, along) && Fewer(k, l) && n in l && x in l && x != n
    requires forall y :: y in l ==> !(y in gone && y in order)
    requires forall y :: y != n && Above(k, along, y, n) ==> (y in gone && y in order) || (y in along && along[y] == n)
    ensures Reaches(Stack(l), x, n) <==> x in along && along[x] == n
  {
    var g := Stack(l);
    if x in along && along[x] == n {
      EdgeReaches(g, x, n);
    }
    if Reaches(g, x, n) {
      var above := set y | y in along && along[y] == n;
      forall y | y != n && Edge(g, y, n) ensures y in above { StackOfSub(k, l, y, n); }
      forall z, y | z != n && y in above && y != n ensures !Edge(g, z, y) {
        assert Edge(Stack(k), z, y) ==> Above(k, along, z, n);
        if Edge(g, z, y) { StackOfSub(k, l, z, y); }
      }
      var p :| Connects(g, p, x, n);
      OneStep(g, p, n, above);
    }
  }

  lemma {:induction false} ExitDeletes(k: State, order: seq<Name>, scripts: map<Name, seq<Cmd>>, gone: set<Name>,
                                       along: map<Name, Name>, n: Name)
    requires IsExit(scripts, gone, k) && IsAlong(k, gone, along) && n in gone && n !in order
    requires forall y :: y != n && Above(k, along, y, n) ==> (y in gone && y in order) || (y in along && along[y] == n)
    ensures Exec(Exited(k, order, scripts, gone, along), [DelLink(n)]) ==
            Some(Exited(k, order + [n], scripts, gone, along))
  {
    var l := Exited(k, order, scripts, gone, along);
    ExitedShape(k, order, scripts, gone, along);
    OnlyAlong(k, l, order, gone, along, n);
    Exec1Is(l, DelLink(n));
    WithoutIs(l, along, n);
    ExitedAppend(k, order, scripts, gone, along, n);
  }

  lemma {:induction false} ExitedShape(k: State, order: seq<Name>, scripts: map<Name, seq<Cmd>>, gone: set<Name>,
                                       along: map<Name, Name>)
    requires IsAlong(k, gone, along)
    ensures var l := Exited(k, order, scripts, gone, along);
            && Fewer(k, l) && (forall y :: y in l ==> !(y in gone && y in order))
            && forall y :: y in k && y in gone && y !in order ==> y in l
  {
  }

  /** The devices that stand on `n`, directly or not, are the ends meant to go along. */
  ghost predicate StandOn(l: State, along: map<Name, Name>, n: Name) {
    forall x :: x in l && x != n ==> (Reaches(Stack(l), x, n) <==> x in along && along[x] == n)
  }

  lemma {:induction false} OnlyAlong(k: State, l: State, order: seq<Name>, gone: set<Name>, along: map<Name, Name>,
                                     n: Name)
    requires IsAlong(k, gone, along) && Fewer(k, l) && n in l
    requires forall y :: y in l ==> !(y in gone && y in order)
    requires forall y :: y != n && Above(k, along, y, n) ==> (y in gone && y in order) || (y in along && along[y] == n)
    ensures StandOn(l, along, n)
  {
    forall x | x in l && x != n ensures Reaches(Stack(l), x, n) <==> x in along && along[x] == n {
      TakesAlong(k, l, order, gone, along, n, x);
    }
  }

  function Dropped(l: State, along: map<Name, Name>, n: Name): State {
    map x | x in l && x != n && !(x in along && along[x] == n) :: l[x].Without(n)
  }

  lemma {:induction false} WithoutIs(l: State, along: map<Name, Name>, n: Name)
    requires StandOn(l, along, n)
    ensures Without(l, n) == Dropped(l, along, n)
  {
  }

  lemma {:induction false} LeftAppend(d: Dev, emptied: bool, gone: set<Name>, order: seq<Name>, n: Name)
    requires n in gone
    ensures Left(d, emptied, gone, order).Without(n) == Left(d, emptied, gone, order + [n])
  {
  }

  lemma {:induction false} ExitedAppend(k: State, order: seq<Name>, scripts: map<Name, seq<Cmd>>, gone: set<Name>,
                                        along: map<Name, Name>, n: Name)
    requires n in gone
    ensures Dropped(Exited(k, order, scripts, gone, along), along, n) == Exited(k, order + [n], scripts, gone, along)
  {
    var l, r := Dropped(Exited(k, order, scripts, gone, along), along, n), Exited(k, order + [n], scripts, gone, along);
    assert l.Keys == r.Keys;
    forall x | x in l ensures l[x] == r[x] {
      LeftAppend(k[x], x in scripts && x in order, gone, order, n);
    }
  }

  lemma {:induction false} ExitFlushes(k: State, order: seq<Name>, scripts: map<Name, seq<Cmd>>, gone: set<Name>,
                                       along: map<Name, Name>, n: Name)
    requires IsExit(scripts, gone, k) && IsAlong(k, gone, along) && n in scripts && n !in gone && n !in order
    ensures Exec(Exited(k, order, scripts, gone, along), [SetDown(n, None), FlushAll(n)]) ==
            Some(Exited(k, order + [n], scripts, gone, along))
  {
    assert forall m :: m in along ==> along[m] in gone && m !in gone && k[m].link.Veth?;
    DownAndFlush(Exited(k, order, scripts, gone, along), n);
    ExitedEmpties(k, order, scripts, gone, along, n);
  }

  lemma {:induction false} DownAndFlush(l: State, n: Name)
    requires n in l
    ensures Exec(l, [SetDown(n, None), FlushAll(n)]) == Some(l[n := Emptied(l[n])])
  {
    var m := l[n := l[n].Down(None)];
    Exec1Is(l, SetDown(n, None));
    ExecConcat(l, [SetDown(n, None)], [FlushAll(n)]);
    Exec1Is(m, FlushAll(n));
    assert [SetDown(n, None), FlushAll(n)] == [SetDown(n, None)] + [FlushAll(n)];
    assert m[n := m[n].(addrs := {})] == l[n := Emptied(l[n])];
  }

  lemma {:induction false} ExitedEmpties(k: State, order: seq<Name>, scripts: map<Name, seq<Cmd>>, gone: set<Name>,
                                         along: map<Name, Name>, n: Name)
    requires n in Exited(k, order, scripts, gone, along) && n in scripts && n !in gone && n !in order
    requires forall m :: m in along ==> along[m] in gone
    ensures var l := Exited(k, order, scripts, gone, along);
            l[n := Emptied(l[n])] == Exited(k, order + [n], scripts, gone, along)
  {
  }

  lemma {:induction false} ExitedSame(k: State, order: seq<Name>, scripts: map<Name, seq<Cmd>>, gone: set<Name>,
                                      along: map<Name, Name>, n: Name)
    requires n !in scripts && n !in gone && forall m :: m in along ==> along[m] in gone
    ensures Exited(k, order + [n], scripts, gone, along) == Exited(k, order, scripts, gone, along)
  {
  }

  lemma {:induction false} OrderlyPrefix(k: State, order: seq<Name>, gone: set<Name>, along: map<Name, Name>)
    requires Orderly(k, order, gone, along) && order != []
    ensures Orderly(k, order[..|order| - 1], gone, along)
  {
    var rest := order[..|order| - 1];
    forall j, y | 0 <= j < |rest| && rest[j] in gone && y != rest[j] && Above(k, along, y, rest[j])
      ensures (y in gone && y in rest[..j]) || (y in along && along[y] == rest[j])
    {
      assert order[j] == rest[j] && order[..j] == rest[..j];
    }
  }

  /** Exit scripts succeed, in an order in which nothing goes before what it would take along. */
  lemma {:induction false} ExitRuns(k: State, order: seq<Name>, scripts: map<Name, seq<Cmd>>, gone: set<Name>,
                                    along: map<Name, Name>)
    requires IsExit(scripts, gone, k) && IsAlong(k, gone, along) && NoDup(order) && Orderly(k, order, gone, along)
    ensures RunScripts(k, order, scripts) == Some(Exited(k, order, scripts, gone, along))
  {
    if order == [] {
      assert Exited(k, [], scripts, gone, along) == k;
    } else {
      var n, rest := order[|order| - 1], order[..|order| - 1];
      assert order == rest + [n];
      OrderlyPrefix(k, order, gone, along);
      ExitRuns(k, rest, scripts, gone, along);
      ExitStep(k, rest, n, scripts, gone, along);
    }
  }

  lemma {:induction false} ExitStep(k: State, rest: seq<Name>, n: Name, scripts: map<Name, seq<Cmd>>, gone: set<Name>,
                                    along: map<Name, Name>)
    requires IsExit(scripts, gone, k) && IsAlong(k, gone, along) && n !in rest && Orderly(k, rest + [n], gone, along)
    ensures if n in scripts
            then Exec(Exited(k, rest, scripts, gone, along), scripts[n]) ==
                 Some(Exited(k, rest + [n], scripts, gone, along))
            else Exited(k, rest + [n], scripts, gone, along) == Exited(k, rest, scripts, gone, along)
  {
    if n in gone {
      OrderlyLast(k, rest, n, gone, along);
      ExitDeletes(k, rest, scripts, gone, along, n);
    } else if n in scripts {
      ExitFlushes(k, rest, scripts, gone, along, n);
    } else {
      assert forall m :: m in along ==> along[m] in gone;
      ExitedSame(k, rest, scripts, gone, along, n);
    }
  }

  lemma {:induction false} OrderlyLast(k: State, rest: seq<Name>, n: Name, gone: set<Name>, along: map<Name, Name>)
    requires Orderly(k, rest + [n], gone, along) && n in gone
    ensures forall y :: y != n && Above(k, along, y, n) ==> (y in gone && y in rest) || (y in along && along[y] == n)
  {
    var order := rest + [n];
    assert order[|rest|] == n && order[..|rest|] == rest;
  }

  // ---------- what exit scripts do in any order ----------

  /** `r` has only devices of `k`, unchanged in kind. */
  ghost predicate Fewer(k: State, r: State) {
    r.Keys <= k.Keys && forall n :: n in r ==> r[n].link == k[n].link
  }

  lemma {:induction false} ExitOneFewer(k: State, l: State, scripts: map<Name, seq<Cmd>>, gone: set<Name>, n: Name)
    requires IsExit(scripts, gone, k) && n in scripts && Exec(l, scripts[n]).Some?
    ensures Fewer(l, Exec(l, scripts[n]).value) && n in l
    ensures n in gone ==> Exec(l, scripts[n]).value == Without(l, n)
    ensures n !in gone ==> Exec(l, scripts[n]).value.Keys == l.Keys
  {
    if n in gone {
      Exec1Is(l, DelLink(n));
    } else {
      assert scripts[n] == [SetDown(n, None)] + [FlushAll(n)];
      ExecConcat(l, [SetDown(n, None)], [FlushAll(n)]);
      Exec1Is(l, SetDown(n, None));
      Exec1Is(l, FlushAll(n));
    }
  }

  lemma {:induction false} ExitFewer(k: State, order: seq<Name>, scripts: map<Name, seq<Cmd>>, gone: set<Name>)
    requires IsExit(scripts, gone, k) && RunScripts(k, order, scripts).Some?
    ensures Fewer(k, RunScripts(k, order, scripts).value)
  {
    if order == [] {
    } else {
      var n, rest := order[|order| - 1], order[..|order| - 1];
      ExitFewer(k, rest, scripts, gone);
      if n in scripts { ExitOneFewer(k, RunScripts(k, rest, scripts).value, scripts, gone, n); }
    }
  }

  /** A path stays in a set that no edge leaves. */
  lemma {:induction false} PathStays(g: Graph, s: set<Name>, p: seq<Name>, i: nat)
    requires IsPath(g, p) && i < |p| && p[0] in s
    requires forall x, y :: x in s && Edge(g, x, y) ==> y in s
    ensures p[i] in s
  {
    if i == 0 {
    } else {
      PathStays(g, s, p, i - 1);
      assert Edge(g, p[i - 1], p[i]);
    }
  }

  /** The ends of a pair go only with each other. */
  lemma {:induction false} PairHolds(l: State, a: Name, b: Name, x: Name)
    requires a in l && b in l && l[a].link == Veth(b) && l[b].link == Veth(a) && x != a && x != b
    ensures !Reaches(Stack(l), a, x)
  {
    if Reaches(Stack(l), a, x) {
      var p :| Connects(Stack(l), p, a, x);
      PathStays(Stack(l), {a, b}, p, |p| - 1);
    }
  }

  /** A pair of which no end is deleted survives the exit scripts. */
  lemma {:induction false} PairSurvives(k: State, order: seq<Name>, scripts: map<Name, seq<Cmd>>, gone: set<Name>,
                                        a: Name, b: Name)
    requires IsExit(scripts, gone, k) && RunScripts(k, order, scripts).Some?
    requires a in k && b in k && k[a].link == Veth(b) && k[b].link == Veth(a)
    requires !(a in gone && a in order) && !(b in gone && b in order)
    ensures a in RunScripts(k, order, scripts).value && b in RunScripts(k, order, scripts).value
  {
    if order == [] {
    } else {
      var n, rest := order[|order| - 1], order[..|order| - 1];
      PairSurvives(k, rest, scripts, gone, a, b);
      var l := RunScripts(k, rest, scripts).value;
      ExitFewer(k, rest, scripts, gone);
      if n in scripts {
        ExitOneFewer(k, l, scripts, gone, n);
        assert n in gone ==> n in order;
        if n in gone {
          PairHolds(l, a, b, n);
          PairHolds(l, b, a, n);
        }
      }
    }
  }

  /** Exit scripts that all succeed have taken along whatever was above a deleted device. */
  lemma {:induction false} AboveIsLost(k: State, order: seq<Name>, scripts: map<Name, seq<Cmd>>, gone: set<Name>,
                                       along: map<Name, Name>, j: nat, y: Name)
    requires IsExit(scripts, gone, k) && IsAlong(k, gone, along) && NoDup(order) && RunScripts(k, order, scripts).Some?
    requires j < |order| && order[j] in gone && y != order[j] && Above(k, along, y, order[j])
    ensures y !in RunScripts(k, order, scripts).value
  {
    var n, rest := order[|order| - 1], order[..|order| - 1];
    var l := RunScripts(k, rest, scripts).value;
    ExitFewer(k, rest, scripts, gone);
    if n in scripts { ExitOneFewer(k, l, scripts, gone, n); }
    if j < |rest| {
      AboveIsLost(k, rest, scripts, gone, along, j, y);
    } else if y in l {
      AboveReaches(k, rest, scripts, gone, along, n, y);
    }
  }

  lemma {:induction false} AboveReaches(k: State, rest: seq<Name>, scripts: map<Name, seq<Cmd>>, gone: set<Name>,
                                        along: map<Name, Name>, n: Name, y: Name)
    requires IsExit(scripts, gone, k) && IsAlong(k, gone, along) && RunScripts(k, rest, scripts).Some? && n !in rest
    requires var l := RunScripts(k, rest, scripts).value; n in l && y in l && Fewer(k, l)
    requires Above(k, along, y, n)
    ensures Reaches(Stack(RunScripts(k, rest, scripts).value), y, n)
  {
    var l := RunScripts(k, rest, scripts).value;
    if Edge(Stack(k), y, n) {
      assert Edge(Stack(l), y, n);
      EdgeReaches(Stack(l), y, n);
    } else {
      var m :| m in along && along[m] == n && Edge(Stack(k), y, m);
      PairSurvives(k, rest, scripts, gone, m, n);
      assert Edge(Stack(l), y, m) && Edge(Stack(l), m, n);
      EdgeReaches(Stack(l), m, n);
      EdgeThenReaches(Stack(l), y, m, n);
    }
  }

  /** A device whose turn to be deleted comes after it was taken along makes its script fail. */
  lemma {:induction false} TooLateFails(k: State, order: seq<Name>, scripts: map<Name, seq<Cmd>>, gone: set<Name>,
                                        along: map<Name, Name>, j: nat, i: nat)
    requires IsExit(scripts, gone, k) && IsAlong(k, gone, along) && NoDup(order)
    requires j < i < |order| && order[j] in gone && order[i] in gone && Above(k, along, order[i], order[j])
    ensures RunScripts(k, order, scripts) == None
  {
    var n, rest := order[|order| - 1], order[..|order| - 1];
    if i < |rest| {
      TooLateFails(k, rest, scripts, gone, along, j, i);
    } else if RunScripts(k, rest, scripts).Some? {
      var l := RunScripts(k, rest, scripts).value;
      AboveIsLost(k, rest, scripts, gone, along, j, n);
      Exec1Is(l, DelLink(n));
    }
  }
}
