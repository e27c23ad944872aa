/**
 The test library's topologies: a graph of devices and their ports, and the mapping of
 a logical topology, which a test asks for, onto the physical one it runs on.
 */
module Topology {
  import opened Options

  datatype Node = Device(name: string) | Port(dev: string, port: string)

  datatype Graph = Graph(kinds: map<Node, string>, edges: set<(Node, Node)>)

  // ---------- building a topology ----------

  /** Both directions of an edge. */
  function Both(a: Node, b: Node): set<(Node, Node)> {
    {(a, b), (b, a)}
  }

  /** Add a link between two ports, and the devices they belong to. */
  function AddLink(g: Graph, s: Node, d: Node, kinds: map<string, string>): Graph
    requires s.Port? && d.Port? && s.dev in kinds && d.dev in kinds
  {
    Graph(g.kinds[s := "port"][d := "port"][Device(s.dev) := kinds[s.dev]][Device(d.dev) := kinds[d.dev]],
          g.edges + Both(s, d) + Both(Device(s.dev), s) + Both(Device(d.dev), d))
  }

  /** Ports hang on their own device and on other ports; devices hang on ports only. */
  ghost predicate WellFormed(g: Graph) {
    && (forall e :: e in g.edges ==> (e.1, e.0) in g.edges && e.0 in g.kinds && e.1 in g.kinds)
    && (forall e :: e in g.edges && e.0.Device? ==> e.1.Port? && e.1.dev == e.0.name)
    && (forall n :: n in g.kinds && n.Port? ==> g.kinds[n] == "port" && (Device(n.dev), n) in g.edges)
  }

  lemma {:induction false} AddLinkKeepsForm(g: Graph, s: Node, d: Node, kinds: map<string, string>)
    requires WellFormed(g) && s.Port? && d.Port? && s.dev in kinds && d.dev in kinds
    ensures WellFormed(AddLink(g, s, d, kinds))
  {
    var h := AddLink(g, s, d, kinds);
    forall e | e in h.edges
      ensures (e.1, e.0) in h.edges && e.0 in h.kinds && e.1 in h.kinds
      ensures e.0.Device? ==> e.1.Port? && e.1.dev == e.0.name
    {
      if e in g.edges {
        assert (e.1, e.0) in g.edges;
      }
    }
  }

  /** The port is at one end of a link. */
  ghost predicate IsEnd(links: map<Node, Node>, n: Node) {
    exists s :: s in links && (n == s || n == links[s])
  }

  /** Edges between ports are links, and there are no nodes but the ends of links and their devices. */
  ghost predicate NothingElse(g: Graph, links: map<Node, Node>) {
    && (forall e :: e in g.edges && e.0.Port? && e.1.Port? ==>
          (e.0 in links && links[e.0] == e.1) || (e.1 in links && links[e.1] == e.0))
    && (forall n :: n in g.kinds && n.Port? ==> IsEnd(links, n))
    && forall n :: n in g.kinds && n.Device? ==> exists p :: p in g.kinds && p.Port? && p.dev == n.name
  }

  /** The graph after the first `i` links. */
  ghost predicate Built(g: Graph, links: map<Node, Node>, order: seq<Node>, i: nat, kinds: map<string, string>)
    requires i <= |order|
    requires forall j :: 0 <= j < |order| ==> order[j] in links && order[j].Port? && links[order[j]].Port?
  {
    && WellFormed(g)
    && (forall j :: 0 <= j < i ==> order[j].dev in kinds && links[order[j]].dev in kinds)
    && (forall j :: 0 <= j < i ==> (order[j], links[order[j]]) in g.edges)
    && KindsFrom(g, kinds)
    && NothingElse(g, links)
  }

  lemma {:induction false} BuiltStep(g: Graph, links: map<Node, Node>, order: seq<Node>, i: nat,
                                     kinds: map<string, string>)
    requires i < |order|
    requires forall j :: 0 <= j < |order| ==> order[j] in links && order[j].Port? && links[order[j]].Port?
    requires Built(g, links, order, i, kinds) && order[i].dev in kinds && links[order[i]].dev in kinds
    ensures Built(AddLink(g, order[i], links[order[i]], kinds), links, order, i + 1, kinds)
  {
    var h := AddLink(g, order[i], links[order[i]], kinds);
    AddLinkKeepsForm(g, order[i], links[order[i]], kinds);
    AddLinkAddsNoMore(g, links, order[i], kinds);
    AddLinkKinds(g, order[i], links[order[i]], kinds);
    assert g.edges <= h.edges;
  }

  /** Devices have their kinds. */
  ghost predicate KindsFrom(g: Graph, kinds: map<string, string>) {
    forall n :: n in g.kinds ==> n.Port? || (n.name in kinds && g.kinds[n] == kinds[n.name])
  }

  lemma {:induction false} AddLinkKinds(g: Graph, s: Node, d: Node, kinds: map<string, string>)
    requires KindsFrom(g, kinds) && s.Port? && d.Port? && s.dev in kinds && d.dev in kinds
    ensures KindsFrom(AddLink(g, s, d, kinds), kinds) && (s, d) in AddLink(g, s, d, kinds).edges
  {
  }

  lemma {:induction false} AddLinkAddsNoMore(g: Graph, links: map<Node, Node>, s: Node, kinds: map<string, string>)
    requires NothingElse(g, links) && s in links && s.Port? && links[s].Port? && s.dev in kinds && links[s].dev in kinds
    ensures NothingElse(AddLink(g, s, links[s], kinds), links)
  {
    var d := links[s];
    var h := AddLink(g, s, d, kinds);
    forall n | n in h.kinds && n.Device? ensures exists p :: p in h.kinds && p.Port? && p.dev == n.name {
      if n in g.kinds {
        var p :| p in g.kinds && p.Port? && p.dev == n.name;
        assert p in h.kinds;
      } else {
        assert s in h.kinds && d in h.kinds;
      }
    }
    forall n | n in h.kinds && n.Port? ensures IsEnd(links, n) {
      assert n in g.kinds || n == s || n == d;
    }
  }

  /** The constructor: links by source port, in the order they are met; fails on a device of unknown kind. */
  method Build(links: map<Node, Node>, order: seq<Node>, kinds: map<string, string>) returns (ok: bool, g: Graph)
    requires forall s :: s in links ==> s.Port? && links[s].Port?
    requires forall s :: s in order <==> s in links
    requires forall j :: 0 <= j < |order| ==> order[j] in links
    ensures ok <==> forall s :: s in links ==> s.dev in kinds && links[s].dev in kinds
    ensures ok ==> WellFormed(g)
    ensures ok ==> forall s :: s in links ==> (s, links[s]) in g.edges
    ensures ok ==> KindsFrom(g, kinds)
    ensures ok ==> NothingElse(g, links)
  {
    g := Graph(map[], {});
    ok := true;
    for i := 0 to |order|
      invariant Built(g, links, order, i, kinds)
    {
      var s, d := order[i], links[order[i]];
      if s.dev !in kinds || d.dev !in kinds {
        ok := false;
        return;
      }
      BuiltStep(g, links, order, i, kinds);
      g := AddLink(g, s, d, kinds);
    }
  }

  // ---------- matches ----------

  /** Every node of `log` is matched. */
  ghost predicate Onto(log: Graph, m: map<Node, Node>) {
    forall n :: n in log.kinds ==> exists a :: a in m && m[a] == n
  }

  /** What the graph matcher promises: an isomorphism from part of `phy` onto `log` that keeps kinds. */
  ghost predicate IsMatch(phy: Graph, log: Graph, m: map<Node, Node>) {
    && (forall a :: a in m ==> a in phy.kinds && m[a] in log.kinds && phy.kinds[a] == log.kinds[m[a]])
    && (forall a, b :: a in m && b in m && m[a] == m[b] ==> a == b)
    && Onto(log, m)
    && (forall a, b :: a in m && b in m ==> ((a, b) in phy.edges <==> (m[a], m[b]) in log.edges))
  }

  /** No device pretends to be a port. */
  ghost predicate DevicesAreNotPorts(g: Graph) {
    forall n :: n in g.kinds && n.Device? ==> g.kinds[n] != "port"
  }

  ghost predicate Setting(phy: Graph, log: Graph, m: map<Node, Node>) {
    && WellFormed(phy) && WellFormed(log) && DevicesAreNotPorts(phy) && DevicesAreNotPorts(log)
    && IsMatch(phy, log, m)
  }

  /** Every topology can be mapped onto itself. */
  lemma {:induction false} MatchesItself(g: Graph)
    requires WellFormed(g) && DevicesAreNotPorts(g)
    ensures Setting(g, g, map n | n in g.kinds :: n)
  {
    var m := map n | n in g.kinds :: n;
    forall n | n in g.kinds ensures exists a :: a in m && m[a] == n {
      assert n in m && m[n] == n;
    }
  }

  ghost function Inv(log: Graph, m: map<Node, Node>, n: Node): (a: Node)
    requires n in log.kinds && Onto(log, m)
    ensures a in m && m[a] == n
  {
    var a :| a in m && m[a] == n;
    a
  }

  /** Devices are matched to devices and ports to ports, each port on the device its own device is matched to. */
  lemma {:induction false} PortFollowsDevice(phy: Graph, log: Graph, m: map<Node, Node>, a: Node)
    requires Setting(phy, log, m) && a in m
    ensures a.Port? <==> m[a].Port?
    ensures m[a].Port? ==>
              Device(m[a].dev) in log.kinds && Inv(log, m, Device(m[a].dev)) == Device(a.dev)
  {
    if m[a].Port? {
      var l := Device(m[a].dev);
      assert (l, m[a]) in log.edges;
      var d := Inv(log, m, l);
      assert (d, a) in phy.edges;
      assert d.Device?;
    }
  }

  // ---------- the mapping ----------

  /** Where a logical device went, and its ports. */
  datatype NodeMap = NodeMap(dev: string, ports: map<string, string>)

  /** Everything recorded agrees with the match. */
  ghost predicate Agrees(log: Graph, m: map<Node, Node>, mapping: map<string, NodeMap>)
    requires Onto(log, m)
  {
    forall l :: l in mapping ==> AgreesAt(log, m, l, mapping[l])
  }

  ghost predicate AgreesAt(log: Graph, m: map<Node, Node>, l: string, e: NodeMap)
    requires Onto(log, m)
  {
    && Device(l) in log.kinds && Inv(log, m, Device(l)) == Device(e.dev)
    && forall p :: p in e.ports ==> Port(l, p) in log.kinds && Inv(log, m, Port(l, p)) == Port(e.dev, e.ports[p])
  }

  ghost predicate Has(mapping: map<string, NodeMap>, n: Node) {
    match n
    case Device(l) => l in mapping
    case Port(l, p) => l in mapping && p in mapping[l].ports
  }

  /** Record one matched pair; `fine` tells whether the code's assertions hold. */
  method Record(mapping: map<string, NodeMap>, log: Node, phy: Node) returns (fine: bool, r: map<string, NodeMap>)
    requires log.Port? ==> phy.Port?
    requires log.Device? ==> phy.Device?
    ensures r == Recorded(mapping, log, phy)
    ensures fine <==>
            var l := if log.Port? then log.dev else log.name;
            && (l in mapping ==> mapping[l].dev == if phy.Port? then phy.dev else phy.name)
            && (log.Port? && l in mapping && log.port in mapping[l].ports ==> mapping[l].ports[log.port] == phy.port)
  {
    r := mapping;
    fine := true;
    var lnode, pnode := if log.Port? then log.dev else log.name, if phy.Port? then phy.dev else phy.name;
    if lnode in r {
      fine := r[lnode].dev == pnode;
    } else {
      r := r[lnode := NodeMap(pnode, map[])];
    }
    if log.Port? {
      if log.port in r[lnode].ports {
        fine := fine && r[lnode].ports[log.port] == phy.port;
      } else {
        r := r[lnode := NodeMap(r[lnode].dev, r[lnode].ports[log.port := phy.port])];
      }
    }
  }

  function Recorded(mapping: map<string, NodeMap>, log: Node, phy: Node): map<string, NodeMap>
    requires (log.Port? ==> phy.Port?) && (log.Device? ==> phy.Device?)
  {
    match log
    case Device(l) => if l in mapping then mapping else mapping[l := NodeMap(phy.name, map[])]
    case Port(l, p) =>
      var e := if l in mapping then mapping[l] else NodeMap(phy.dev, map[]);
      mapping[l := if p in e.ports then e else NodeMap(e.dev, e.ports[p := phy.port])]
  }

  lemma {:induction false} RecordAgrees(phy: Graph, log: Graph, m: map<Node, Node>, mapping: map<string, NodeMap>,
                                        a: Node)
    requires Setting(phy, log, m) && a in m && Agrees(log, m, mapping)
    ensures a.Port? <==> m[a].Port?
    ensures Agrees(log, m, Recorded(mapping, m[a], a)) && Has(Recorded(mapping, m[a], a), m[a])
    ensures forall n :: Has(mapping, n) ==> Has(Recorded(mapping, m[a], a), n)
    ensures var l := if m[a].Port? then m[a].dev else m[a].name;
            && (l in mapping ==> mapping[l].dev == if a.Port? then a.dev else a.name)
            && (m[a].Port? && l in mapping && m[a].port in mapping[l].ports ==> mapping[l].ports[m[a].port] == a.port)
  {
    PortFollowsDevice(phy, log, m, a);
    assert Inv(log, m, m[a]) == a;
    RecordStep(log, m, mapping, a);
  }

  lemma {:induction false} RecordStep(log: Graph, m: map<Node, Node>, mapping: map<string, NodeMap>, a: Node)
    requires Onto(log, m) && Agrees(log, m, mapping)
    requires a in m && m[a] in log.kinds && Inv(log, m, m[a]) == a && (a.Port? <==> m[a].Port?)
    requires m[a].Port? ==> Device(m[a].dev) in log.kinds && Inv(log, m, Device(m[a].dev)) == Device(a.dev)
    ensures Agrees(log, m, Recorded(mapping, m[a], a)) && Has(Recorded(mapping, m[a], a), m[a])
    ensures forall n :: Has(mapping, n) ==> Has(Recorded(mapping, m[a], a), n)
  {
    var l := if m[a].Port? then m[a].dev else m[a].name;
    if m[a].Port? && l in mapping {
      assert AgreesAt(log, m, l, mapping[l]);
      PortAgrees(log, m, l, mapping[l], m[a].port, a.port);
    } else if m[a].Port? {
      PortAgrees(log, m, l, NodeMap(a.dev, map[]), m[a].port, a.port);
    }
    HasStill(mapping, m[a], a);
  }

  lemma {:induction false} PortAgrees(log: Graph, m: map<Node, Node>, l: string, e: NodeMap, p: string, q: string)
    requires Onto(log, m) && AgreesAt(log, m, l, e)
    requires Port(l, p) in log.kinds && Inv(log, m, Port(l, p)) == Port(e.dev, q)
    ensures AgreesAt(log, m, l, if p in e.ports then e else NodeMap(e.dev, e.ports[p := q]))
  {
  }

  lemma {:induction false} HasStill(mapping: map<string, NodeMap>, log: Node, phy: Node)
    requires (log.Port? ==> phy.Port?) && (log.Device? ==> phy.Device?)
    ensures Has(Recorded(mapping, log, phy), log)
    ensures forall n :: Has(mapping, n) ==> Has(Recorded(mapping, log, phy), n)
  {
  }

  /** Build the mapping from the match, in whatever order its pairs come: no assertion fires. */
  method MapTo(phy: Graph, log: Graph, m: map<Node, Node>, items: seq<Node>)
    returns (fine: bool, mapping: map<string, NodeMap>)
    requires Setting(phy, log, m) && forall a :: a in items <==> a in m
    ensures fine
    ensures Agrees(log, m, mapping) && forall n :: n in log.kinds ==> Has(mapping, n)
  {
    fine, mapping := true, map[];
    for i := 0 to |items|
      invariant fine && Agrees(log, m, mapping) && HasFirst(m, items, i, mapping)
    {
      assert items[i] in items;
      RecordAgrees(phy, log, m, mapping, items[i]);
      HasMore(m, items, i, mapping, Recorded(mapping, m[items[i]], items[i]));
      var f, r := Record(mapping, m[items[i]], items[i]);
      fine, mapping := fine && f, r;
    }
    HasEvery(log, m, items, mapping);
  }

  ghost predicate HasFirst(m: map<Node, Node>, items: seq<Node>, i: nat, mapping: map<string, NodeMap>) {
    i <= |items| && forall j :: 0 <= j < i ==> items[j] in m && Has(mapping, m[items[j]])
  }

  lemma {:induction false} HasMore(m: map<Node, Node>, items: seq<Node>, i: nat, a: map<string, NodeMap>,
                                   b: map<string, NodeMap>)
    requires i < |items| && HasFirst(m, items, i, a) && items[i] in m && Has(b, m[items[i]])
    requires forall n :: Has(a, n) ==> Has(b, n)
    ensures HasFirst(m, items, i + 1, b)
  {
  }

  lemma {:induction false} HasEvery(log: Graph, m: map<Node, Node>, items: seq<Node>, mapping: map<string, NodeMap>)
    requires Onto(log, m) && (forall a :: a in m ==> a in items)
    requires HasFirst(m, items, |items|, mapping)
    ensures forall n :: n in log.kinds ==> Has(mapping, n)
  {
    forall n | n in log.kinds ensures Has(mapping, n) {
      assert Inv(log, m, n) in items;
    }
  }

  /** The answer of a translation: nothing, a device, or a port of a device. */
  function Xlate(mapping: map<string, NodeMap>, lnode: string, lport: Option<string>): Option<Node> {
    if lnode !in mapping then None
    else if lport == None then Some(Device(mapping[lnode].dev))
    else if lport.value !in mapping[lnode].ports then None
    else if lport.value == "" then Some(Device(mapping[lnode].dev))
    else Some(Port(mapping[lnode].dev, mapping[lnode].ports[lport.value]))
  }

  /** Translating a logical node: its device, or its port. */
  function XlateNode(mapping: map<string, NodeMap>, n: Node): Option<Node> {
    match n
    case Device(l) => Xlate(mapping, l, None)
    case Port(l, p) => Xlate(mapping, l, Some(p))
  }

  /**
   With a complete mapping, every logical node with a proper name translates to the physical
   node it is matched with, different nodes to different ones, and links to links.
   */
  lemma {:induction false} TranslationIsFaithful(phy: Graph, log: Graph, m: map<Node, Node>,
                                                 mapping: map<string, NodeMap>, n: Node, k: Node)
    requires Setting(phy, log, m) && Agrees(log, m, mapping) && forall x :: x in log.kinds ==> Has(mapping, x)
    requires n in log.kinds && k in log.kinds && (n.Port? ==> n.port != "") && (k.Port? ==> k.port != "")
    ensures XlateNode(mapping, n) == Some(Inv(log, m, n)) && XlateNode(mapping, k) == Some(Inv(log, m, k))
    ensures XlateNode(mapping, n) == XlateNode(mapping, k) ==> n == k
    ensures XlateNode(mapping, n).value in phy.kinds && phy.kinds[XlateNode(mapping, n).value] == log.kinds[n]
    ensures (n, k) in log.edges <==> (XlateNode(mapping, n).value, XlateNode(mapping, k).value) in phy.edges
  {
    assert Has(mapping, n) && Has(mapping, k);
    TranslatesNode(log, m, mapping, n);
    TranslatesNode(log, m, mapping, k);
    MatchBack(phy, log, m, n, k);
  }

  lemma {:induction false} TranslatesNode(log: Graph, m: map<Node, Node>, mapping: map<string, NodeMap>, n: Node)
    requires Onto(log, m) && Agrees(log, m, mapping) && Has(mapping, n) && n in log.kinds && (n.Port? ==> n.port != "")
    ensures XlateNode(mapping, n) == Some(Inv(log, m, n))
  {
    assert AgreesAt(log, m, if n.Port? then n.dev else n.name, mapping[if n.Port? then n.dev else n.name]);
  }

  lemma {:induction false} MatchBack(phy: Graph, log: Graph, m: map<Node, Node>, n: Node, k: Node)
    requires IsMatch(phy, log, m) && n in log.kinds && k in log.kinds
    ensures Inv(log, m, n) == Inv(log, m, k) ==> n == k
    ensures Inv(log, m, n) in phy.kinds && phy.kinds[Inv(log, m, n)] == log.kinds[n]
    ensures (n, k) in log.edges <==> (Inv(log, m, n), Inv(log, m, k)) in phy.edges
  {
  }

  /** A device or port is translated if and only if the logical topology has it. */
  lemma {:induction false} OnlyKnownIsTranslated(phy: Graph, log: Graph, m: map<Node, Node>,
                                                 mapping: map<string, NodeMap>, lnode: string, lport: string)
    requires Setting(phy, log, m) && Agrees(log, m, mapping) && forall x :: x in log.kinds ==> Has(mapping, x)
    ensures Xlate(mapping, lnode, None).Some? <==> Device(lnode) in log.kinds
    ensures Xlate(mapping, lnode, Some(lport)).Some? <==> Port(lnode, lport) in log.kinds
  {
    if lnode in mapping { assert AgreesAt(log, m, lnode, mapping[lnode]); }
    assert Device(lnode) in log.kinds ==> Has(mapping, Device(lnode));
    assert Port(lnode, lport) in log.kinds ==> Has(mapping, Port(lnode, lport));
  }
}
