/**
 The order in which the exit scripts of a change run is left over from the change before it,
 whose dependency links cover only the interfaces it touched.
 */
module RemovalOrder {
  import opened DepOrder
  import opened Options
  import opened Kernel
  import opened Interfaces
  import opened Netdag
  import opened Commit
  import opened CommitRun
  import opened CommitFailures
  import opened CommitTheorems

  // ---------- positions in a reversed order ----------

  lemma {:induction false} ReverseBefore(order: seq<Name>, j: nat, y: Name)
    requires NoDup(order) && j < |Reverse(order)|
    ensures y in Reverse(order)[..j] <==> Before(order, Reverse(order)[j], y)
  {
    ReverseAt(order);
    var x := Reverse(order)[j];
    assert x == order[|order| - 1 - j];
    if y in Reverse(order)[..j] {
      var i :| 0 <= i < j && Reverse(order)[..j][i] == y;
      assert order[|order| - 1 - i] == y;
    }
    if Before(order, x, y) {
      var a, b :| 0 <= a < b < |order| && order[a] == x && order[b] == y;
      assert Reverse(order)[..j][|order| - 1 - b] == y;
    }
  }

  lemma {:induction false} InReverse(order: seq<Name>, x: Name) returns (j: nat)
    requires x in order
    ensures j < |Reverse(order)| && Reverse(order)[j] == x
  {
    ReverseAt(order);
    var i :| 0 <= i < |order| && order[i] == x;
    j := |order| - 1 - i;
  }

  lemma {:induction false} BeforeOrAfter(order: seq<Name>, x: Name, y: Name)
    requires NoDup(order) && x in order && y in order && x != y
    ensures Before(order, x, y) <==> !Before(order, y, x)
  {
    var i :| 0 <= i < |order| && order[i] == x;
    var j :| 0 <= j < |order| && order[j] == y;
    if i < j {
      assert Before(order, x, y);
    } else {
      assert Before(order, y, x);
    }
  }

  // ---------- when removals are orderly ----------

  /** Removing `x` takes the VLAN `y` along: `x` is its parent, or takes its parent along. */
  ghost predicate Takes(was: Config, along: map<Name, Name>, x: Name, y: Name) {
    && y in was && was[y].link.Vlan?
    && var p := was[y].link.parent; p == x || (p in along && along[p] == x)
  }

  /**
   The VLAN goes too, and first, as the order of the change before has it. That it does so for
   a VLAN which that change touched is known beforehand (`TouchedAfterParent`); for any other
   its listing decides (`ForgottenListingIff`).
   */
  ghost predicate GoesFirst(prev: Change, c: Change, x: Name, y: Name)
    requires Readable(c.env, c.ds)
  {
    y in Gone(c.env, c.ds) && Before(SetupOrder(prev), x, y)
  }

  /** The veth ends removed by `c` each leave an end that goes along, and VLANs go before what takes them along. */
  ghost predicate RemovalsFit(prev: Change, c: Change)
    requires Readable(c.env, c.ds)
  {
    var was, along := prev.env.now, Along(prev.env.now, c.env.now);
    && (forall x :: x in Gone(c.env, c.ds) && x in was && was[x].link.Veth? ==> was[x].link.peer in along)
    && forall x, y :: x in Gone(c.env, c.ds) && Takes(was, along, x, y) ==> GoesFirst(prev, c, x, y)
  }

  /** A VLAN that the change before touched is set up after its parent. */
  lemma {:induction false} TouchedAfterParent(prev: Change, was: Config, y: Name)
    requires ValidChange(prev, was) && y in Names(prev.ds) && y in prev.env.now && prev.env.now[y].link.Vlan?
    ensures Before(SetupOrder(prev), prev.env.now[y].link.parent, y)
  {
    var x := prev.env.now[y].link.parent;
    DepsAreAcyclic(prev.env, prev.ds, was, prev.out);
    OrderIsTopological(prev.out.deps, prev.listing);
    AllKnown(prev.env, prev.ds, was, prev.out);
    LinkedToParent(prev.env, prev.ds, was, prev.out, y);
    InOrderAfter(prev.out.deps, SetupOrder(prev), x, y);
  }

  lemma {:induction false} LinkedToParent(env: Env, ds: seq<IfDiff>, was: Config, out: Output, y: Name)
    requires Known(env, ds, was, out) && y in Names(ds) && y in env.now && env.now[y].link.Vlan?
    ensures Edge(out.deps, y, env.now[y].link.parent)
  {
    assert Facts(env, ds, was, out, y);
    assert env.now[y].link.parent in Dependencies(env, ds[At(ds, y)], SkippedAt(env, ds, At(ds, y)));
  }

  lemma {:induction false} InOrderAfter(g: Graph, order: seq<Name>, x: Name, y: Name)
    requires Topological(g, order) && Edge(g, y, x) && y in order
    ensures Before(order, x, y)
  {
    var j :| 0 <= j < |order| && order[j] == y;
    assert x in order[..j];
    var i :| 0 <= i < j && order[..j][i] == x;
    assert order[i] == x;
  }

  /** What is known about a change that follows another. */
  ghost predicate Follows(prev: Change, c: Change) {
    && ValidChange(c, prev.env.now) && c.env.fixed == prev.env.fixed
    && NoDup(SetupOrder(prev)) && Covers(prev.env.now, SetupOrder(prev))
  }

  lemma {:induction false} HistoryFollows(fixed: set<Name>, cs: seq<Change>, i: nat)
    requires IsHistory(fixed, cs) && 0 < i < |cs|
    ensures Follows(cs[i - 1], cs[i])
  {
    var prev := cs[i - 1];
    assert ValidChange(cs[i], ConfigAt(cs, i)) && cs[i].env.fixed == fixed;
    assert ValidChange(prev, ConfigAt(cs, i - 1)) && prev.env.fixed == fixed;
    DepsAreAcyclic(prev.env, prev.ds, ConfigAt(cs, i - 1), prev.out);
    OrderIsTopological(prev.out.deps, prev.listing);
  }

  // ---------- both directions ----------

  ghost predicate OrderlyAfter(prev: Change, c: Change)
    requires Readable(c.env, c.ds)
  {
    Orderly(Meaning(prev.env.now, c.env.fixed), Reverse(SetupOrder(prev)), Gone(c.env, c.ds),
            Along(prev.env.now, c.env.now))
  }

  lemma {:induction false} StartShape(c: Change, was: Config)
    requires ValidChange(c, was)
    ensures var k := Meaning(was, c.env.fixed);
            && k.Keys == was.Keys + c.env.fixed && Known(c.env, c.ds, was, c.out)
            && IsAlong(k, Gone(c.env, c.ds), Along(was, c.env.now))
  {
    AllKnown(c.env, c.ds, was, c.out);
    AlongIs(c.env, c.ds, was, Meaning(was, c.env.fixed));
  }

  /** What being orderly says of one device and one above it. */
  lemma {:induction false} OrderlyPair(k: State, order: seq<Name>, gone: set<Name>, along: map<Name, Name>, x: Name,
                                       y: Name)
    requires NoDup(order) && x in order && Orderly(k, Reverse(order), gone, along)
    requires x in gone && x != y && Above(k, along, y, x)
    ensures (y in gone && Before(order, x, y)) || (y in along && along[y] == x)
  {
    var j := InReverse(order, x);
    ReverseBefore(order, j, y);
  }

  lemma {:induction false} PairsOrderly(k: State, order: seq<Name>, gone: set<Name>, along: map<Name, Name>)
    requires NoDup(order)
    requires forall x, y :: x in gone && x != y && Above(k, along, y, x) ==>
               (y in gone && Before(order, x, y)) || (y in along && along[y] == x)
    ensures Orderly(k, Reverse(order), gone, along)
  {
    var ex := Reverse(order);
    forall j, y | 0 <= j < |ex| && ex[j] in gone && y != ex[j] && Above(k, along, y, ex[j])
      ensures (y in gone && y in ex[..j]) || (y in along && along[y] == ex[j])
    {
      ReverseBefore(order, j, y);
    }
  }

  lemma {:induction false} VlanIsAbove(was: Config, fixed: set<Name>, gone: set<Name>, along: map<Name, Name>, x: Name,
                                       y: Name)
    requires Takes(was, along, x, y) && WellFormedLink(was, fixed, y) && IsAlong(Meaning(was, fixed), gone, along)
    requires x in was
    ensures Above(Meaning(was, fixed), along, y, x) && y !in along && y != x
  {
    var k, p := Meaning(was, fixed), was[y].link.parent;
    assert Edge(Stack(k), y, p);
  }

  lemma {:induction false} PeerIsAbove(was: Config, fixed: set<Name>, along: map<Name, Name>, x: Name)
    requires x in was && was[x].link.Veth? && WellFormedLink(was, fixed, x)
    ensures var p := was[x].link.peer;
            p in was && p != x && was[p].link == Veth(x)
            && Above(Meaning(was, fixed), along, p, x) && Above(Meaning(was, fixed), along, x, p)
  {
    var k, p := Meaning(was, fixed), was[x].link.peer;
    assert Edge(Stack(k), p, x) && Edge(Stack(k), x, p);
  }

  lemma {:induction false} OrderlyFitsVlan(prev: Change, c: Change, x: Name, y: Name)
    requires Follows(prev, c) && OrderlyAfter(prev, c) && x in Gone(c.env, c.ds)
    requires Takes(prev.env.now, Along(prev.env.now, c.env.now), x, y)
    ensures GoesFirst(prev, c, x, y)
  {
    var was := prev.env.now;
    StartShape(c, was);
    GoneFacts(c.env, c.ds, was, c.out, x);
    assert Facts(c.env, c.ds, was, c.out, y);
    VlanIsAbove(was, c.env.fixed, Gone(c.env, c.ds), Along(was, c.env.now), x, y);
    OrderlyPair(Meaning(was, c.env.fixed), SetupOrder(prev), Gone(c.env, c.ds), Along(was, c.env.now), x, y);
  }

  lemma {:induction false} OrderlyFitsVeth(prev: Change, c: Change, x: Name)
    requires Follows(prev, c) && OrderlyAfter(prev, c) && x in Gone(c.env, c.ds)
    requires x in prev.env.now && prev.env.now[x].link.Veth?
    ensures prev.env.now[x].link.peer in Along(prev.env.now, c.env.now)
  {
    var was, along := prev.env.now, Along(prev.env.now, c.env.now);
    var p := was[x].link.peer;
    StartShape(c, was);
    assert Facts(c.env, c.ds, was, c.out, x);
    PeerIsAbove(was, c.env.fixed, along, x);
    OrderlyPair(Meaning(was, c.env.fixed), SetupOrder(prev), Gone(c.env, c.ds), along, x, p);
    if p in Gone(c.env, c.ds) {
      OrderlyPair(Meaning(was, c.env.fixed), SetupOrder(prev), Gone(c.env, c.ds), along, p, x);
      BeforeOrAfter(SetupOrder(prev), x, p);
    }
  }

  lemma {:induction false} FitsIsOrderly(prev: Change, c: Change, x: Name, y: Name)
    requires Follows(prev, c) && Readable(c.env, c.ds) && RemovalsFit(prev, c) && x in Gone(c.env, c.ds) && x != y
    requires Above(Meaning(prev.env.now, c.env.fixed), Along(prev.env.now, c.env.now), y, x)
    ensures var along := Along(prev.env.now, c.env.now);
            (y in Gone(c.env, c.ds) && Before(SetupOrder(prev), x, y)) || (y in along && along[y] == x)
  {
    var was, along := prev.env.now, Along(prev.env.now, c.env.now);
    StartShape(c, was);
    GoneFacts(c.env, c.ds, was, c.out, x);
    AboveIsEither(c, was, x, y);
    if was[y].link.Vlan? {
      assert Takes(was, along, x, y);
      assert GoesFirst(prev, c, x, y);
    } else {
      assert was[x].link.peer in along;
    }
  }

  /** What stands on a device is its peer or a VLAN. */
  lemma {:induction false} StandsIn(c: Change, was: Config, x: Name, y: Name)
    requires Known(c.env, c.ds, was, c.out) && Edge(Stack(Meaning(was, c.env.fixed)), y, x)
    ensures y in was && x in Meaning(was, c.env.fixed)
    ensures (was[y].link.Vlan? && was[y].link.parent == x) ||
            (x in was && x !in c.env.fixed && was[y].link == Veth(x) && was[x].link == Veth(y))
  {
    var k := Meaning(was, c.env.fixed);
    StandsHow(k, y, x);
    if k[y].link == Veth(x) { LinksFrom(c.env, c.ds, was, c.out, k, y); }
  }

  /** What is above a removed device is its peer, or a VLAN that it takes along. */
  lemma {:induction false} AboveIsEither(c: Change, was: Config, x: Name, y: Name)
    requires Known(c.env, c.ds, was, c.out) && x != y && x in was && x !in c.env.fixed
    requires IsAlong(Meaning(was, c.env.fixed), Gone(c.env, c.ds), Along(was, c.env.now))
    requires Above(Meaning(was, c.env.fixed), Along(was, c.env.now), y, x)
    ensures y in was
    ensures Takes(was, Along(was, c.env.now), x, y) || (was[x].link == Veth(y) && was[y].link == Veth(x))
  {
    var k, along := Meaning(was, c.env.fixed), Along(was, c.env.now);
    if Edge(Stack(k), y, x) {
      StandsIn(c, was, x, y);
    } else {
      var m :| m in along && along[m] == x && Edge(Stack(k), y, m);
      StandsIn(c, was, m, y);
    }
  }

  /**
   The exit scripts of a change run in an orderly way if and only if a veth end goes only when
   its peer is made again, and every VLAN that a removed device would take along goes too and
   comes after that device in the order the change before left.
   */
  lemma {:induction false} OrderlyIff(fixed: set<Name>, cs: seq<Change>, i: nat)
    requires IsHistory(fixed, cs) && 0 < i < |cs|
    ensures Readable(cs[i].env, cs[i].ds)
    ensures OrderlyAfter(cs[i - 1], cs[i]) <==> RemovalsFit(cs[i - 1], cs[i])
  {
    HistoryFollows(fixed, cs, i);
    var prev, c := cs[i - 1], cs[i];
    if OrderlyAfter(prev, c) { OrderlyFits(prev, c); }
    if RemovalsFit(prev, c) { FitsOrderly(prev, c); }
  }

  lemma {:induction false} OrderlyFits(prev: Change, c: Change)
    requires Follows(prev, c) && OrderlyAfter(prev, c)
    ensures RemovalsFit(prev, c)
  {
    var was, along := prev.env.now, Along(prev.env.now, c.env.now);
    forall x | x in Gone(c.env, c.ds) && x in was && was[x].link.Veth? ensures was[x].link.peer in along {
      OrderlyFitsVeth(prev, c, x);
    }
    forall x, y | x in Gone(c.env, c.ds) && Takes(was, along, x, y) ensures GoesFirst(prev, c, x, y) {
      OrderlyFitsVlan(prev, c, x, y);
    }
  }

  lemma {:induction false} FitsOrderly(prev: Change, c: Change)
    requires Follows(prev, c) && RemovalsFit(prev, c)
    ensures OrderlyAfter(prev, c)
  {
    var k, gone, along := Meaning(prev.env.now, c.env.fixed), Gone(c.env, c.ds), Along(prev.env.now, c.env.now);
    forall x, y | x in gone && x != y && Above(k, along, y, x)
      ensures (y in gone && Before(SetupOrder(prev), x, y)) || (y in along && along[y] == x)
    {
      FitsIsOrderly(prev, c, x, y);
    }
    PairsOrderly(k, SetupOrder(prev), gone, along);
  }

  // ---------- over histories ----------

  /** No veth gets another peer, and no port leaves its bridge. */
  ghost predicate NoneMoves(was: Config, now: Config) {
    forall n :: !Repeered(was, now, n) && !Leaves(was, now, n)
  }

  lemma {:induction false} FirstRemovesNothing(fixed: set<Name>, cs: seq<Change>)
    requires IsHistory(fixed, cs) && |cs| > 0
    ensures WorksAt(cs, 0)
  {
    var c := cs[0];
    HistoryAt(fixed, cs, 0);
    NothingSuits(c.env.now, Order(c.out.deps, c.listing));
    assert ExitOrder(cs, 0) == [];
  }

  lemma {:induction false} NothingSuits(now: Config, order: seq<Name>)
    ensures Suits(map[], now, order)
  {
  }

  /**
   Over every history, a change makes the kernel follow the configuration if and only if its
   removals fit what the change before left, the veth ends that get another peer are made
   again by it, and no port leaves a bridge that stays.
   */
  lemma {:induction false} FollowsIff(fixed: set<Name>, cs: seq<Change>, i: nat)
    requires IsHistory(fixed, cs) && 0 < i < |cs| && InStep(fixed, cs, i)
    ensures Readable(cs[i].env, cs[i].ds)
    ensures InStep(fixed, cs, i + 1) <==>
            RemovalsFit(cs[i - 1], cs[i]) && Suits(cs[i - 1].env.now, cs[i].env.now, SetupOrder(cs[i]))
  {
    OrderlyIff(fixed, cs, i);
    TrackStep(fixed, cs, i);
    HistoryAt(fixed, cs, i);
  }

  lemma {:induction false} NoneSuits(was: Config, now: Config, order: seq<Name>)
    requires NoneMoves(was, now)
    ensures Suits(was, now, order) && Along(was, now) == map[]
  {
    forall n ensures Fits(was, now, n) && !Remade(was, now, n) {}
  }

  /** No veth goes, and every VLAN on a removed device goes with it and was touched by the change before. */
  ghost predicate OnlyTouched(prev: Change, c: Change)
    requires Readable(c.env, c.ds)
  {
    var was, gone := prev.env.now, Gone(c.env, c.ds);
    && (forall x :: x in gone && x in was ==> !was[x].link.Veth?)
    && forall y :: y in was && was[y].link.Vlan? && was[y].link.parent in gone ==> y in gone && y in Names(prev.ds)
  }

  lemma {:induction false} TouchedFits(prev: Change, before: Config, c: Change)
    requires ValidChange(prev, before) && Readable(c.env, c.ds)
    requires NoneMoves(prev.env.now, c.env.now) && OnlyTouched(prev, c)
    ensures RemovalsFit(prev, c)
  {
    var was, along := prev.env.now, Along(prev.env.now, c.env.now);
    NoneSuits(was, c.env.now, []);
    forall x, y | x in Gone(c.env, c.ds) && Takes(was, along, x, y) ensures GoesFirst(prev, c, x, y) {
      TouchedAfterParent(prev, before, y);
    }
  }

  /** Such removals always work, if no veth gets another peer and no port leaves its bridge. */
  lemma {:induction false} TouchedRemovalsWork(fixed: set<Name>, cs: seq<Change>, i: nat)
    requires IsHistory(fixed, cs) && 0 < i < |cs| && InStep(fixed, cs, i)
    requires NoneMoves(cs[i - 1].env.now, cs[i].env.now)
    requires Readable(cs[i].env, cs[i].ds) && OnlyTouched(cs[i - 1], cs[i])
    ensures InStep(fixed, cs, i + 1)
  {
    FollowsIff(fixed, cs, i);
    HistoryAt(fixed, cs, i - 1);
    TouchedFits(cs[i - 1], ConfigAt(cs, i - 1), cs[i]);
    NoneSuits(cs[i - 1].env.now, cs[i].env.now, SetupOrder(cs[i]));
  }

  /** All removals of `c` fit, other than that of the VLAN `v` with its parent `x`. */
  ghost predicate OthersFit(prev: Change, c: Change, x: Name, v: Name)
    requires Readable(c.env, c.ds)
  {
    var was, along := prev.env.now, Along(prev.env.now, c.env.now);
    && (forall z :: z in Gone(c.env, c.ds) && z in was && was[z].link.Veth? ==> was[z].link.peer in along)
    && forall z, y :: z in Gone(c.env, c.ds) && Takes(was, along, z, y) && (z != x || y != v) ==>
         GoesFirst(prev, c, z, y)
  }

  /**
   A VLAN that the change before did not touch can be removed together with its parent if and
   only if the parent happens to come first in the order that change left; otherwise the run
   aborts.
   */
  lemma {:induction false} ForgottenOrderIff(fixed: set<Name>, cs: seq<Change>, i: nat, x: Name, v: Name)
    requires IsHistory(fixed, cs) && 0 < i < |cs| && InStep(fixed, cs, i) && Readable(cs[i].env, cs[i].ds)
    requires x in Gone(cs[i].env, cs[i].ds) && v in Gone(cs[i].env, cs[i].ds) && v !in Names(cs[i - 1].ds)
    requires var was := cs[i - 1].env.now; v in was && was[v].link.Vlan? && was[v].link.parent == x
    requires NoneMoves(cs[i - 1].env.now, cs[i].env.now) && OthersFit(cs[i - 1], cs[i], x, v)
    ensures InStep(fixed, cs, i + 1) <==> Before(SetupOrder(cs[i - 1]), x, v)
    ensures KernelAt(fixed, cs, i + 1) == None <==> Before(SetupOrder(cs[i - 1]), v, x)
  {
    var prev, c := cs[i - 1], cs[i];
    HistoryFollows(fixed, cs, i);
    FollowsIff(fixed, cs, i);
    OthersFitIff(prev, c, x, v);
    NoneSuits(prev.env.now, c.env.now, SetupOrder(c));
    OneOfTwo(prev, c, x, v);
    if Before(SetupOrder(prev), v, x) { ParentFirstFails(fixed, cs, i, x, v); }
  }

  /**
   The same in terms of the listing: if the change before first met the VLAN from the node
   listed at `k`, removing both works if and only if the parent was met from what is listed
   ahead of that node, or finished before the VLAN in the walk from that node. No such walk
   counts if the node is the VLAN itself.
   */
  lemma {:induction false} ForgottenListingIff(fixed: set<Name>, cs: seq<Change>, i: nat, x: Name, v: Name, k: nat)
    requires IsHistory(fixed, cs) && 0 < i < |cs| && InStep(fixed, cs, i) && Readable(cs[i].env, cs[i].ds)
    requires x in Gone(cs[i].env, cs[i].ds) && v in Gone(cs[i].env, cs[i].ds) && v !in Names(cs[i - 1].ds)
    requires var was := cs[i - 1].env.now; v in was && was[v].link.Vlan? && was[v].link.parent == x
    requires NoneMoves(cs[i - 1].env.now, cs[i].env.now) && OthersFit(cs[i - 1], cs[i], x, v)
    requires FirstMetAt(cs[i - 1], k, v)
    ensures var g, ns := cs[i - 1].out.deps, cs[i - 1].listing;
            && Acyclic(g)
            && (InStep(fixed, cs, i + 1) <==> Met(g, ns[..k], x) || Before(Finishes(g, ns[k]), x, v))
            && (KernelAt(fixed, cs, i + 1) == None <==> !InStep(fixed, cs, i + 1))
            && (ns[k] == v ==> !Before(Finishes(g, ns[k]), x, v))
  {
    HistoryAt(fixed, cs, i - 1);
    ListingOrder(cs[i - 1], ConfigAt(cs, i - 1), k, x, v);
    ForgottenOneOrOther(fixed, cs, i, x, v);
  }

  lemma {:induction false} ForgottenOneOrOther(fixed: set<Name>, cs: seq<Change>, i: nat, x: Name, v: Name)
    requires IsHistory(fixed, cs) && 0 < i < |cs| && InStep(fixed, cs, i) && Readable(cs[i].env, cs[i].ds)
    requires x in Gone(cs[i].env, cs[i].ds) && v in Gone(cs[i].env, cs[i].ds) && v !in Names(cs[i - 1].ds)
    requires var was := cs[i - 1].env.now; v in was && was[v].link.Vlan? && was[v].link.parent == x
    requires NoneMoves(cs[i - 1].env.now, cs[i].env.now) && OthersFit(cs[i - 1], cs[i], x, v)
    ensures InStep(fixed, cs, i + 1) <==> Before(SetupOrder(cs[i - 1]), x, v)
    ensures KernelAt(fixed, cs, i + 1) == None <==> !InStep(fixed, cs, i + 1)
  {
    ForgottenOrderIff(fixed, cs, i, x, v);
    HistoryFollows(fixed, cs, i);
    OneOfTwo(cs[i - 1], cs[i], x, v);
  }

  /** The walk over the listing meets `v` from the node at `k`, and not before. */
  ghost predicate FirstMetAt(c: Change, k: nat, v: Name) {
    var g, ns := c.out.deps, c.listing;
    k < |ns| && ns[k] in g && !Met(g, ns[..k], v) && Met(g, ns[..k + 1], v)
  }

  lemma {:induction false} ListingOrder(prev: Change, was: Config, k: nat, x: Name, v: Name)
    requires ValidChange(prev, was) && Acyclic(prev.out.deps) && v !in Names(prev.ds) && FirstMetAt(prev, k, v)
    ensures var g, ns := prev.out.deps, prev.listing;
            && (Before(SetupOrder(prev), x, v) <==> Met(g, ns[..k], x) || Before(Finishes(g, ns[k]), x, v))
            && (ns[k] == v ==> !Before(Finishes(g, ns[k]), x, v))
  {
    assert Untouched(v, prev.out);
    ListingDecides(prev.out.deps, prev.listing, k, x, v);
    if prev.listing[k] == v { AloneInItsWalk(prev.out.deps, v, x); }
  }

  lemma {:induction false} OthersFitIff(prev: Change, c: Change, x: Name, v: Name)
    requires Readable(c.env, c.ds) && OthersFit(prev, c, x, v) && x in Gone(c.env, c.ds)
    requires v in prev.env.now && prev.env.now[v].link.Vlan? && prev.env.now[v].link.parent == x
    ensures RemovalsFit(prev, c) <==> GoesFirst(prev, c, x, v)
  {
    assert Takes(prev.env.now, Along(prev.env.now, c.env.now), x, v);
  }

  lemma {:induction false} OneOfTwo(prev: Change, c: Change, x: Name, v: Name)
    requires Follows(prev, c) && x in Gone(c.env, c.ds)
    requires v in prev.env.now && prev.env.now[v].link.Vlan? && prev.env.now[v].link.parent == x
    ensures Before(SetupOrder(prev), x, v) <==> !Before(SetupOrder(prev), v, x)
  {
    AllKnown(c.env, c.ds, prev.env.now, c.out);
    GoneFacts(c.env, c.ds, prev.env.now, c.out, x);
    assert Facts(c.env, c.ds, prev.env.now, c.out, v);
    BeforeOrAfter(SetupOrder(prev), x, v);
  }

  lemma {:induction false} ParentFirstFails(fixed: set<Name>, cs: seq<Change>, i: nat, x: Name, v: Name)
    requires IsHistory(fixed, cs) && 0 < i < |cs| && InStep(fixed, cs, i) && Readable(cs[i].env, cs[i].ds)
    requires x in Gone(cs[i].env, cs[i].ds) && v in Gone(cs[i].env, cs[i].ds)
    requires var was := cs[i - 1].env.now; v in was && was[v].link.Vlan? && was[v].link.parent == x
    requires Before(SetupOrder(cs[i - 1]), v, x)
    ensures KernelAt(fixed, cs, i + 1) == None
  {
    var prev, c := cs[i - 1], cs[i];
    HistoryFollows(fixed, cs, i);
    HistoryAt(fixed, cs, i);
    ExitOrderCovers(fixed, cs, i);
    var j := LateVlan(prev, c, x, v);
    RemovedLateFails(c.env, c.ds, prev.env.now, c.out, Reverse(SetupOrder(prev)), c.listing, j, v);
  }

  lemma {:induction false} LateVlan(prev: Change, c: Change, x: Name, v: Name) returns (j: nat)
    requires Follows(prev, c) && x in Gone(c.env, c.ds) && v in Gone(c.env, c.ds)
    requires var was := prev.env.now; v in was && was[v].link.Vlan? && was[v].link.parent == x
    requires Before(SetupOrder(prev), v, x)
    ensures Disorder(Meaning(prev.env.now, c.env.fixed), Reverse(SetupOrder(prev)), Gone(c.env, c.ds),
                     Along(prev.env.now, c.env.now), j, v)
  {
    var was := prev.env.now;
    StartShape(c, was);
    GoneFacts(c.env, c.ds, was, c.out, x);
    assert Facts(c.env, c.ds, was, c.out, v);
    VlanIsAbove(was, c.env.fixed, Gone(c.env, c.ds), Along(was, c.env.now), x, v);
    OneOfTwo(prev, c, x, v);
    j := InReverse(SetupOrder(prev), x);
    ReverseBefore(SetupOrder(prev), j, v);
  }
}
