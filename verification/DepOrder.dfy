/**
 Dependency orders.

 Two programs of the system keep a dependency graph as a directory with one
 sub-directory per node, whose entries are links to the nodes it depends on: the
 `net` tool and the `dagger` runner.  Both visit the graph depth first, children
 before the node itself, re-walking shared dependencies on every path, and keep
 the first occurrence of each name.  This module defines that walk and proves
 that its first occurrences form a duplicate-free topological order.
 */
module DepOrder {
  type Name = string

  /** Links that name no node of the graph are dangling. */
  type Graph = map<Name, seq<Name>>

  ghost predicate Edge(g: Graph, x: Name, y: Name) {
    x in g && y in g[x] && y in g
  }

  ghost predicate IsPath(g: Graph, p: seq<Name>) {
    |p| > 0 && p[0] in g && forall i :: 0 < i < |p| ==> Edge(g, p[i - 1], p[i])
  }

  ghost predicate Connects(g: Graph, p: seq<Name>, x: Name, y: Name) {
    |p| >= 2 && IsPath(g, p) && p[0] == x && p[|p| - 1] == y
  }

  /** `x` depends on `y`, directly or through other nodes. */
  ghost predicate Reaches(g: Graph, x: Name, y: Name) {
    exists p :: Connects(g, p, x, y)
  }

  ghost predicate Acyclic(g: Graph) {
    forall x :: x in g ==> !Reaches(g, x, x)
  }

  /** The nodes below `x`. */
  ghost function Below(g: Graph, x: Name): set<Name> {
    set y | y in g && Reaches(g, x, y)
  }

  /** Number of nodes below `x`: the measure by which the walk terminates. */
  ghost function Rank(g: Graph, x: Name): nat {
    |Below(g, x)|
  }

  lemma {:induction false} EdgeReaches(g: Graph, x: Name, y: Name)
    requires Edge(g, x, y)
    ensures Reaches(g, x, y)
  {
    assert Connects(g, [x, y], x, y);
  }

  lemma {:induction false} EdgeThenReaches(g: Graph, x: Name, y: Name, z: Name)
    requires Edge(g, x, y) && Reaches(g, y, z)
    ensures Reaches(g, x, z)
  {
    var p :| Connects(g, p, y, z);
    var q := [x] + p;
    assert forall i :: 0 < i < |q| ==> q[i] == p[i - 1];
    forall i | 0 < i < |q| ensures Edge(g, q[i - 1], q[i]) {
      if i > 1 { assert Edge(g, p[i - 2], p[i - 1]); }
    }
    assert Connects(g, q, x, z);
  }

  /** A path is an edge, or an edge followed by a path. */
  lemma {:induction false} FirstEdge(g: Graph, x: Name, z: Name) returns (y: Name)
    requires Reaches(g, x, z)
    ensures Edge(g, x, y) && (y == z || Reaches(g, y, z))
  {
    var p :| Connects(g, p, x, z);
    y := p[1];
    assert Edge(g, p[0], p[1]);
    if |p| > 2 {
      var q := p[1..];
      assert forall i :: 0 < i < |q| ==> q[i] == p[i + 1] && q[i - 1] == p[i];
      assert forall i :: 0 < i < |q| ==> Edge(g, p[i], p[i + 1]);
      assert Connects(g, q, y, z);
    }
  }

  lemma {:induction false} RankDecreases(g: Graph, x: Name, y: Name)
    requires Acyclic(g) && Edge(g, x, y)
    ensures Rank(g, y) < Rank(g, x)
  {
    forall z | z in Below(g, y) ensures z in Below(g, x) {
      EdgeThenReaches(g, x, y, z);
    }
    EdgeReaches(g, x, y);
    assert y in Below(g, x) && y !in Below(g, y);
    assert Below(g, x) == Below(g, y) + (Below(g, x) - Below(g, y));
    assert |Below(g, x) - Below(g, y)| > 0;
  }

  ghost predicate Falls(g: Graph, rank: map<Name, nat>) {
    forall x, y :: Edge(g, x, y) ==> x in rank && y in rank && rank[y] < rank[x]
  }

  /** A numbering that falls along every edge rules out cycles. */
  lemma {:induction false} RankedIsAcyclic(g: Graph, rank: map<Name, nat>)
    requires Falls(g, rank)
    ensures Acyclic(g)
  {
    forall x | x in g ensures !Reaches(g, x, x) {
      if Reaches(g, x, x) {
        var p :| Connects(g, p, x, x);
        assert Edge(g, p[0], p[1]);
        RankFallsAlong(g, rank, p, |p| - 1);
      }
    }
  }

  lemma {:induction false} RankFallsAlong(g: Graph, rank: map<Name, nat>, p: seq<Name>, k: nat)
    requires Falls(g, rank)
    requires IsPath(g, p) && 0 < k < |p|
    ensures p[0] in rank && p[k] in rank && rank[p[k]] < rank[p[0]]
  {
    assert Edge(g, p[k - 1], p[k]);
    if k == 1 {
    } else {
      RankFallsAlong(g, rank, p, k - 1);
    }
  }

  // ---------- the walk ----------

  /** Every visit of a depth-first walk from `n`, in the order the visits end. */
  ghost function Walk(g: Graph, n: Name): seq<Name>
    requires Acyclic(g) && n in g
    decreases Rank(g, n), 1
  {
    WalkDeps(g, n, g[n]) + [n]
  }

  /** The visits caused by the dependencies `ds` of `n`; dangling links cause none. */
  ghost function WalkDeps(g: Graph, n: Name, ds: seq<Name>): seq<Name>
    requires Acyclic(g) && n in g && forall d :: d in ds ==> d in g[n]
    decreases Rank(g, n), 0, |ds|
  {
    if ds == [] then [] else
      var d := ds[|ds| - 1];
      WalkDeps(g, n, ds[..|ds| - 1]) +
      if d in g then RankDecreases(g, n, d); Walk(g, d) else []
  }

  ghost function WalkAll(g: Graph, ns: seq<Name>): seq<Name>
    requires Acyclic(g)
  {
    if ns == [] then [] else
      var n := ns[|ns| - 1];
      WalkAll(g, ns[..|ns| - 1]) + if n in g then Walk(g, n) else []
  }

  // ---------- first occurrences ----------

  function Add(acc: seq<Name>, x: Name): seq<Name> {
    if x in acc then acc else acc + [x]
  }

  /** Append the members of `xs` that are not there yet, in order. */
  function AppendNew(acc: seq<Name>, xs: seq<Name>): seq<Name> {
    if xs == [] then acc else Add(AppendNew(acc, xs[..|xs| - 1]), xs[|xs| - 1])
  }

  ghost predicate NoDup(s: seq<Name>) {
    forall i, j :: 0 <= i < j < |s| ==> s[i] != s[j]
  }

  /** Everything a member depends on stands before it. */
  ghost predicate Topological(g: Graph, s: seq<Name>) {
    forall i, d :: 0 <= i < |s| && Edge(g, s[i], d) ==> d in s[..i]
  }

  lemma {:induction false} AppendNewConcat(acc: seq<Name>, xs: seq<Name>, ys: seq<Name>)
    ensures AppendNew(acc, xs + ys) == AppendNew(AppendNew(acc, xs), ys)
  {
    if ys == [] {
      assert xs + ys == xs;
    } else {
      AppendNewConcat(acc, xs, ys[..|ys| - 1]);
      assert (xs + ys)[..|xs + ys| - 1] == xs + ys[..|ys| - 1];
    }
  }

  lemma {:induction false} AppendNewMembers(acc: seq<Name>, xs: seq<Name>)
    ensures acc <= AppendNew(acc, xs)
    ensures NoDup(acc) ==> NoDup(AppendNew(acc, xs))
    ensures forall x :: x in AppendNew(acc, xs) <==> x in acc || x in xs
  {
    if xs == [] {
    } else {
      AppendNewMembers(acc, xs[..|xs| - 1]);
      assert xs == xs[..|xs| - 1] + [xs[|xs| - 1]];
    }
  }

  lemma {:induction false} AppendNewNothing(acc: seq<Name>, xs: seq<Name>)
    requires forall x :: x in xs ==> x in acc
    ensures AppendNew(acc, xs) == acc
  {
    if xs == [] {
    } else {
      AppendNewNothing(acc, xs[..|xs| - 1]);
    }
  }

  // ---------- what the walk visits ----------

  lemma {:induction false} WalkDepsVisits(g: Graph, n: Name, ds: seq<Name>)
    requires Acyclic(g) && n in g && forall d :: d in ds ==> d in g[n]
    ensures forall d :: d in ds && d in g ==> d in WalkDeps(g, n, ds)
    ensures forall y :: y in WalkDeps(g, n, ds) ==> y in g && Reaches(g, n, y)
    decreases Rank(g, n), 0, |ds|
  {
    if ds == [] {
    } else {
      var d, rest := ds[|ds| - 1], ds[..|ds| - 1];
      assert ds == rest + [d];
      WalkDepsVisits(g, n, rest);
      if d in g {
        RankDecreases(g, n, d);
        WalkVisits(g, d);
        EdgeReaches(g, n, d);
        forall y | y in Walk(g, d) ensures y in g && Reaches(g, n, y) {
          if y != d { EdgeThenReaches(g, n, d, y); }
        }
      }
    }
  }

  /** A walk visits its root and nodes below it, and never comes back to the root from below. */
  lemma {:induction false} WalkVisits(g: Graph, n: Name)
    requires Acyclic(g) && n in g
    ensures n in Walk(g, n) && n !in WalkDeps(g, n, g[n])
    ensures forall y :: y in Walk(g, n) ==> y in g && (y == n || Reaches(g, n, y))
    decreases Rank(g, n), 1
  {
    WalkDepsVisits(g, n, g[n]);
  }

  lemma {:induction false} WalkAllVisits(g: Graph, ns: seq<Name>)
    requires Acyclic(g)
    ensures forall n :: n in ns && n in g ==> n in WalkAll(g, ns)
    ensures forall y :: y in WalkAll(g, ns) ==> y in g
  {
    if ns == [] {
    } else {
      var n, rest := ns[|ns| - 1], ns[..|ns| - 1];
      assert ns == rest + [n];
      WalkAllVisits(g, rest);
      if n in g { WalkVisits(g, n); }
    }
  }

  /** Some member of `ns` depends on `x`. */
  ghost predicate Needed(g: Graph, ns: seq<Name>, x: Name) {
    exists n :: n in ns && Reaches(g, n, x)
  }

  /** A walk over the listed nodes meets `x`. */
  ghost predicate Met(g: Graph, ns: seq<Name>, x: Name) {
    (x in ns && x in g) || Needed(g, ns, x)
  }

  /** A node is visited from a listing exactly when it is listed or below a listed node. */
  lemma {:induction false} VisitedIff(g: Graph, ns: seq<Name>, x: Name)
    requires Acyclic(g)
    ensures x in WalkAll(g, ns) <==> Met(g, ns, x)
  {
    if ns == [] {
    } else {
      var n, rest := ns[|ns| - 1], ns[..|ns| - 1];
      assert forall m :: m in ns <==> m in rest || m == n;
      VisitedIff(g, rest, x);
      assert Met(g, ns, x) <==> Met(g, rest, x) || (n in g && (x == n || Reaches(g, n, x)));
      if n in g {
        WalkVisits(g, n);
        if Reaches(g, n, x) { ReachedIsWalked(g, n, x); }
      }
    }
  }

  lemma {:induction false} ReachedIsWalked(g: Graph, n: Name, x: Name)
    requires Acyclic(g) && n in g && Reaches(g, n, x)
    ensures x in Walk(g, n)
    decreases Rank(g, n)
  {
    var y := FirstEdge(g, n, x);
    RankDecreases(g, n, y);
    if y == x { WalkVisits(g, x); } else { ReachedIsWalked(g, y, x); }
    WalkIncludesDep(g, n, g[n], y, x);
  }

  lemma {:induction false} WalkIncludesDep(g: Graph, n: Name, ds: seq<Name>, d: Name, x: Name)
    requires Acyclic(g) && n in g && (forall e :: e in ds ==> e in g[n]) && d in ds && d in g
    requires x in Walk(g, d)
    ensures x in WalkDeps(g, n, ds)
  {
    if d == ds[|ds| - 1] {
    } else {
      WalkIncludesDep(g, n, ds[..|ds| - 1], d, x);
    }
  }

  // ---------- first occurrences of the walk are a topological order ----------

  lemma {:induction false} AddTopological(g: Graph, acc: seq<Name>, n: Name)
    requires Topological(g, acc)
    requires forall d :: Edge(g, n, d) ==> d in acc
    ensures Topological(g, Add(acc, n))
  {
    var s := Add(acc, n);
    if n !in acc {
      forall i, d | 0 <= i < |s| && Edge(g, s[i], d) ensures d in s[..i] {
        if i < |acc| {
          assert s[i] == acc[i] && s[..i] == acc[..i];
        } else {
          assert s[..i] == acc;
        }
      }
    }
  }

  lemma {:induction false} WalkDepsTopological(g: Graph, n: Name, ds: seq<Name>, acc: seq<Name>)
    requires Acyclic(g) && n in g && forall d :: d in ds ==> d in g[n]
    requires Topological(g, acc)
    ensures Topological(g, AppendNew(acc, WalkDeps(g, n, ds)))
    decreases Rank(g, n), 0, |ds|
  {
    if ds == [] {
    } else {
      var d, rest := ds[|ds| - 1], ds[..|ds| - 1];
      WalkDepsTopological(g, n, rest, acc);
      if d in g {
        RankDecreases(g, n, d);
        AppendNewConcat(acc, WalkDeps(g, n, rest), Walk(g, d));
        WalkTopological(g, d, AppendNew(acc, WalkDeps(g, n, rest)));
      } else {
        assert WalkDeps(g, n, ds) == WalkDeps(g, n, rest);
      }
    }
  }

  lemma {:induction false} WalkTopological(g: Graph, n: Name, acc: seq<Name>)
    requires Acyclic(g) && n in g && Topological(g, acc)
    ensures Topological(g, AppendNew(acc, Walk(g, n)))
    decreases Rank(g, n), 1
  {
    var below := WalkDeps(g, n, g[n]);
    WalkDepsTopological(g, n, g[n], acc);
    WalkDepsVisits(g, n, g[n]);
    AppendNewMembers(acc, below);
    assert Walk(g, n)[..|Walk(g, n)| - 1] == below;
    AddTopological(g, AppendNew(acc, below), n);
  }

  lemma {:induction false} WalkAllTopological(g: Graph, ns: seq<Name>, acc: seq<Name>)
    requires Acyclic(g) && Topological(g, acc)
    ensures Topological(g, AppendNew(acc, WalkAll(g, ns)))
  {
    if ns == [] {
    } else {
      var n, rest := ns[|ns| - 1], ns[..|ns| - 1];
      WalkAllTopological(g, rest, acc);
      if n in g {
        AppendNewConcat(acc, WalkAll(g, rest), Walk(g, n));
        WalkTopological(g, n, AppendNew(acc, WalkAll(g, rest)));
      } else {
        assert WalkAll(g, ns) == WalkAll(g, rest);
      }
    }
  }

  /** The order in which a pass over the listed nodes first finishes them. */
  ghost function Order(g: Graph, ns: seq<Name>): seq<Name>
    requires Acyclic(g)
  {
    AppendNew([], WalkAll(g, ns))
  }

  /** Members stand after everything they depend on, directly or not. */
  ghost predicate DependenciesFirst(g: Graph, s: seq<Name>) {
    forall i, j | 0 <= i < |s| && 0 <= j < |s| && Reaches(g, s[i], s[j]) :: j < i
  }

  /** Members stand before everything they depend on, directly or not. */
  ghost predicate DependersFirst(g: Graph, s: seq<Name>) {
    forall i, j | 0 <= i < |s| && 0 <= j < |s| && Reaches(g, s[i], s[j]) :: i < j
  }

  /**
   A pass over a listing of all nodes finishes every node exactly once, and after
   everything it depends on, directly or not.
   */
  lemma {:induction false} OrderIsTopological(g: Graph, ns: seq<Name>)
    requires Acyclic(g) && forall n :: n in g ==> n in ns
    ensures NoDup(Order(g, ns))
    ensures forall n :: n in Order(g, ns) <==> n in g
    ensures Topological(g, Order(g, ns))
    ensures DependenciesFirst(g, Order(g, ns))
  {
    var s := Order(g, ns);
    AppendNewMembers([], WalkAll(g, ns));
    WalkAllVisits(g, ns);
    WalkAllTopological(g, ns, []);
    forall i, j | 0 <= i < |s| && 0 <= j < |s| && Reaches(g, s[i], s[j]) ensures j < i {
      DependsBefore(g, s, i, j);
    }
  }

  lemma {:induction false} DependsBefore(g: Graph, s: seq<Name>, i: nat, j: nat)
    requires Topological(g, s) && NoDup(s) && i < |s| && j < |s| && Reaches(g, s[i], s[j])
    ensures j < i
    decreases i
  {
    var y := FirstEdge(g, s[i], s[j]);
    assert y in s[..i];
    var k :| 0 <= k < i && s[k] == y;
    if y == s[j] {
    } else {
      DependsBefore(g, s, k, j);
    }
  }

  // ---------- reversal ----------

  function Reverse(s: seq<Name>): seq<Name> {
    if s == [] then [] else [s[|s| - 1]] + Reverse(s[..|s| - 1])
  }

  lemma {:induction false} ReverseAt(s: seq<Name>)
    ensures |Reverse(s)| == |s|
    ensures forall i :: 0 <= i < |s| ==> Reverse(s)[i] == s[|s| - 1 - i]
  {
    if s == [] {
    } else {
      ReverseAt(s[..|s| - 1]);
    }
  }

  /** The reverse of the pass visits every node before anything it depends on. */
  lemma {:induction false} ReverseOrderVisitsDependersFirst(g: Graph, ns: seq<Name>)
    requires Acyclic(g) && forall n :: n in g ==> n in ns
    ensures NoDup(Reverse(Order(g, ns)))
    ensures forall n :: n in Reverse(Order(g, ns)) <==> n in g
    ensures DependersFirst(g, Reverse(Order(g, ns)))
  {
    var s, r := Order(g, ns), Reverse(Order(g, ns));
    OrderIsTopological(g, ns);
    ReverseAt(s);
    forall n ensures n in r <==> n in g {
      if n in s {
        var k :| 0 <= k < |s| && s[k] == n;
        assert r[|s| - 1 - k] == n;
      }
    }
  }

  // ---------- orders without dependencies ----------

  lemma {:induction false} FlatWalkOne(g: Graph, n: Name)
    requires Acyclic(g) && n in g && g[n] == []
    ensures Walk(g, n) == [n]
  {
    assert WalkDeps(g, n, []) == [];
  }

  lemma {:induction false} FlatWalk(g: Graph, ns: seq<Name>)
    requires Acyclic(g) && (forall n :: n in g ==> g[n] == []) && forall i :: 0 <= i < |ns| ==> ns[i] in g
    ensures WalkAll(g, ns) == ns
  {
    if ns == [] {
    } else {
      var n, rest := ns[|ns| - 1], ns[..|ns| - 1];
      FlatWalk(g, rest);
      FlatWalkOne(g, n);
      assert ns == rest + [n];
    }
  }

  lemma {:induction false} AppendAllNew(ns: seq<Name>)
    requires NoDup(ns)
    ensures AppendNew([], ns) == ns
  {
    if ns == [] {
    } else {
      AppendAllNew(ns[..|ns| - 1]);
      assert ns == ns[..|ns| - 1] + [ns[|ns| - 1]];
    }
  }

  /** Without any dependencies the order is that of the listing. */
  lemma {:induction false} FlatOrder(g: Graph, ns: seq<Name>)
    requires (forall n :: n in g ==> g[n] == []) && NoDup(ns) && forall i :: 0 <= i < |ns| ==> ns[i] in g
    ensures Acyclic(g) && Order(g, ns) == ns
  {
    RankedIsAcyclic(g, map[]);
    FlatWalk(g, ns);
    AppendAllNew(ns);
  }

  // ---------- which of two comes first ----------

  /** `a` and `b` are in the order, `a` first. */
  ghost predicate Before(order: seq<Name>, a: Name, b: Name) {
    exists i, j :: 0 <= i < j < |order| && order[i] == a && order[j] == b
  }

  lemma {:induction false} BeforeAt(order: seq<Name>, a: Name, i: nat)
    requires NoDup(order) && i < |order|
    ensures Before(order, a, order[i]) <==> a in order[..i]
    ensures Before(order, order[i], a) ==> a !in order[..i]
  {
    if a in order[..i] {
      var j :| 0 <= j < i && order[..i][j] == a;
      assert order[j] == a;
    }
  }

  lemma {:induction false} BeforeInPrefix(s: seq<Name>, t: seq<Name>, a: Name, b: Name)
    requires s <= t && NoDup(t) && b in s
    ensures Before(t, a, b) <==> Before(s, a, b)
  {
    var i :| 0 <= i < |s| && s[i] == b;
    assert t[i] == b && t[..i] == s[..i];
    BeforeAt(s, a, i);
    BeforeAt(t, a, i);
  }

  lemma {:induction false} WalkAllConcat(g: Graph, ns: seq<Name>, ms: seq<Name>)
    requires Acyclic(g)
    ensures WalkAll(g, ns + ms) == WalkAll(g, ns) + WalkAll(g, ms)
  {
    if ms == [] {
      assert ns + ms == ns;
    } else {
      WalkAllConcat(g, ns, ms[..|ms| - 1]);
      assert (ns + ms)[..|ns + ms| - 1] == ns + ms[..|ms| - 1];
    }
  }

  /** Of what comes with `xs`, whatever is there already is first, and the rest is in the order of `xs`. */
  lemma {:induction false} BeforeInAppended(acc: seq<Name>, xs: seq<Name>, a: Name, b: Name)
    requires NoDup(acc) && b !in acc && b in xs
    ensures Before(AppendNew(acc, xs), a, b) <==> a in acc || Before(AppendNew([], xs), a, b)
  {
    var rest, x := xs[..|xs| - 1], xs[|xs| - 1];
    AppendNewMembers(acc, rest);
    AppendNewMembers([], rest);
    AppendNewMembers(acc, xs);
    AppendNewMembers([], xs);
    if b in rest {
      BeforeInAppended(acc, rest, a, b);
      BeforeInPrefix(AppendNew(acc, rest), AppendNew(acc, xs), a, b);
      BeforeInPrefix(AppendNew([], rest), AppendNew([], xs), a, b);
    } else {
      BeforeAt(AppendNew(acc, xs), a, |AppendNew(acc, rest)|);
      BeforeAt(AppendNew([], xs), a, |AppendNew([], rest)|);
    }
  }

  /** The walk from `n`, each node where it is first finished. */
  ghost function Finishes(g: Graph, n: Name): seq<Name>
    requires Acyclic(g) && n in g
  {
    AppendNew([], Walk(g, n))
  }

  /**
   What a listing says of two nodes: if `b` is first met from the node listed at `k`, then `a`
   comes before it if and only if it is met from the nodes listed ahead of that one, or
   finished before it in the walk from that one.
   */
  lemma {:induction false} ListingDecides(g: Graph, ns: seq<Name>, k: nat, a: Name, b: Name)
    requires Acyclic(g) && k < |ns| && ns[k] in g && !Met(g, ns[..k], b) && Met(g, ns[..k + 1], b)
    ensures Before(Order(g, ns), a, b) <==> Met(g, ns[..k], a) || Before(Finishes(g, ns[k]), a, b)
  {
    var done, w := Order(g, ns[..k]), Walk(g, ns[k]);
    assert ns[..k + 1][..k] == ns[..k] && ns == ns[..k + 1] + ns[k + 1..];
    VisitedIff(g, ns[..k], a);
    VisitedIff(g, ns[..k], b);
    VisitedIff(g, ns[..k + 1], b);
    AppendNewMembers([], WalkAll(g, ns[..k]));
    AppendNewConcat([], WalkAll(g, ns[..k]), w);
    BeforeInAppended(done, w, a, b);
    WalkAllConcat(g, ns[..k + 1], ns[k + 1..]);
    AppendNewConcat([], WalkAll(g, ns[..k + 1]), WalkAll(g, ns[k + 1..]));
    AppendNewMembers(Order(g, ns[..k + 1]), WalkAll(g, ns[k + 1..]));
    AppendNewMembers([], WalkAll(g, ns));
    AppendNewMembers(done, w);
    BeforeInPrefix(Order(g, ns[..k + 1]), Order(g, ns), a, b);
  }

  /** The walk from a node without dependencies is that node. */
  lemma {:induction false} AloneInItsWalk(g: Graph, v: Name, x: Name)
    requires Acyclic(g) && v in g && g[v] == []
    ensures !Before(Finishes(g, v), x, v)
  {
    FlatWalkOne(g, v);
    AppendAllNew([v]);
  }

  /** A node without dependencies that is met where it is listed comes after exactly what is met ahead of it. */
  lemma {:induction false} ListingDecidesAlone(g: Graph, ns: seq<Name>, k: nat, a: Name)
    requires Acyclic(g) && k < |ns| && ns[k] in g && g[ns[k]] == [] && !Met(g, ns[..k], ns[k])
    ensures Before(Order(g, ns), a, ns[k]) <==> Met(g, ns[..k], a)
  {
    assert ns[..k + 1][k] == ns[k];
    ListingDecides(g, ns, k, a, ns[k]);
    AloneInItsWalk(g, ns[k], a);
  }
}
