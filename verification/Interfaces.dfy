/**
 confd's compiler for interface changes: a configuration diff becomes, per interface,
 an exit script run in the current generation, an init script run in the next one,
 and the dependencies that order the scripts.
 */
module Interfaces {
  import opened DepOrder
  import opened Options
  import opened Lyx
  import opened Kernel
  import A = Addresses

  datatype Iface = Iface(link: Link, v4: Option<A.Family>, v6: Option<A.Family>, bridge: Option<Name>, up: bool) {
    function Fam(fam: A.Fam): Option<A.Family> {
      if fam.V4? then v4 else v6
    }
  }

  type Config = map<Name, Iface>

  /** An interface in a diff; `parent`, `outerTag` and `peer` say whether it has such nodes below it. */
  datatype IfDiff = IfDiff(name: Name, op: Option<string>, v4: Option<A.FamDiff>, v6: Option<A.FamDiff>,
                           parent: bool, outerTag: bool, peer: bool) {
    function Fam(fam: A.Fam): Option<A.FamDiff> {
      if fam.V4? then v4 else v6
    }
  }

  /** What the compiler sees besides the diff: the new configuration, which devices are fixed, the root's operation. */
  datatype Env = Env(now: Config, fixed: set<Name>, root: Option<string>)

  // ---------- decisions ----------

  function OpAt(env: Env, d: IfDiff): Op {
    OpOf([d.op, env.root])
  }

  predicate Deleted(env: Env, d: IfDiff) {
    OpAt(env, d) == OpDelete
  }

  /** Some changes cannot be made to an existing device. */
  predicate MustDel(d: IfDiff, cif: Iface) {
    match cif.link
    case Bridge => false
    case Vlan(_, _, _) => d.parent || d.outerTag
    case Veth(_) => d.peer
    case Plain => false
  }

  predicate Recreates(env: Env, d: IfDiff)
    requires d.name in env.now
  {
    OpAt(env, d) != OpCreate && OpAt(env, d) != OpDelete && MustDel(d, env.now[d.name])
  }

  /** The device comes into being in this change, or again. */
  predicate Adds(env: Env, d: IfDiff)
    requires Deleted(env, d) || d.name in env.now
  {
    d.name !in env.fixed && !Deleted(env, d) && (OpAt(env, d) == OpCreate || Recreates(env, d))
  }

  // ---------- scripts ----------

  function ExitScript(env: Env, n: Name): seq<Cmd> {
    if n in env.fixed then [SetDown(n, None), FlushAll(n)] else [DelLink(n)]
  }

  function AddPart(env: Env, d: IfDiff, skipped: bool): seq<Cmd>
    requires d.name in env.now
  {
    if !Adds(env, d) then [] else
      match env.now[d.name].link
      case Bridge => [AddBridge(d.name)]
      case Veth(peer) => if skipped then [] else [AddVeth(d.name, peer)]
      case Vlan(parent, tag, vid) => [AddVlan(d.name, parent, tag, vid)]
      case Plain => []
  }

  function SetPart(env: Env, d: IfDiff): seq<Cmd>
    requires d.name in env.now
  {
    if Adds(env, d) || d.name in env.fixed then [] else
      match env.now[d.name].link
      case Bridge => [SetBridge(d.name)]
      case Vlan(parent, tag, vid) => if d.outerTag then [AddVlan(d.name, parent, tag, vid)] else []
      case _ => []
  }

  /** A configured family read as a diff, for a device that is created again. */
  function ConfDiff(f: Option<A.Family>): Option<A.FamDiff> {
    match f
    case None => None
    case Some(g) =>
      Some(A.FamDiff(None, Some(Plainly(if g.enabled then "true" else "false")),
                     seq(|g.listed|, i requires 0 <= i < |g.listed| =>
                       A.AddrDiff(None, Some(Plainly(g.listed[i])),
                                  if g.listed[i] in g.addrs then Some(Plainly(g.addrs[g.listed[i]])) else None))))
  }

  function Plainly(val: string): Leaf {
    Leaf(None, val, None, false, false)
  }

  /** The diff of a family that the address commands are made from, with the operations above it. */
  function FamSource(env: Env, d: IfDiff, fam: A.Fam): (Option<A.FamDiff>, Chain)
    requires d.name in env.now
  {
    if Recreates(env, d) then (ConfDiff(env.now[d.name].Fam(fam)), [Some("create"), None])
    else (d.Fam(fam), [d.op, env.root])
  }

  function FamCmds(env: Env, d: IfDiff, fam: A.Fam): Option<seq<A.Cmd>>
    requires d.name in env.now && ValidFamily(env.now[d.name].Fam(fam))
  {
    A.GenIpAddrs(fam, d.name, env.now[d.name].Fam(fam), FamSource(env, d, fam).0, FamSource(env, d, fam).1)
  }

  predicate ValidFamily(f: Option<A.Family>) {
    f.Some? ==> forall ip :: ip in f.value.listed ==> ip in f.value.addrs
  }

  /** The commands that configure a device once it is there. */
  function ConfigurePart(env: Env, d: IfDiff, v4: seq<A.Cmd>, v6: seq<A.Cmd>): seq<Cmd>
    requires d.name in env.now
  {
    [SetDown(d.name, env.now[d.name].bridge)] + SetPart(env, d) + OnDev(d.name, v4) + OnDev(d.name, v6) +
    if env.now[d.name].up then [SetUp(d.name)] else []
  }

  function InitScript(env: Env, d: IfDiff, skipped: bool, v4: seq<A.Cmd>, v6: seq<A.Cmd>): seq<Cmd>
    requires d.name in env.now
  {
    AddPart(env, d, skipped) + ConfigurePart(env, d, v4, v6)
  }

  /** The interfaces that must be set up first. */
  function Dependencies(env: Env, d: IfDiff, skipped: bool): set<Name>
    requires d.name in env.now
  {
    (if d.name in env.fixed then {} else
       match env.now[d.name].link
       case Vlan(parent, _, _) => {parent}
       case Veth(peer) => if Adds(env, d) && skipped then {peer} else {}
       case _ => {}) +
    if env.now[d.name].bridge.Some? then {env.now[d.name].bridge.value} else {}
  }

  /** The veth ends marked as created along with their peers, after the diffs `ds`. */
  function Skips(env: Env, ds: seq<IfDiff>): set<Name>
    requires forall i :: 0 <= i < |ds| ==> Deleted(env, ds[i]) || ds[i].name in env.now
  {
    if ds == [] then {} else
      var d, before := ds[|ds| - 1], Skips(env, ds[..|ds| - 1]);
      if Adds(env, d) && env.now[d.name].link.Veth? && d.name !in before
      then before + {env.now[d.name].link.peer} else before
  }

  // ---------- what a diff says ----------

  function Lookup(c: Config, n: Name): Option<Iface> {
    if n in c then Some(c[n]) else None
  }

  function FamOf(i: Option<Iface>, fam: A.Fam): Option<A.Family> {
    if i.Some? then i.value.Fam(fam) else None
  }

  /** The diff of an interface records how it changes; `peer` is not a direct child in the schema. */
  ghost predicate RecordsIface(env: Env, d: IfDiff, was: Option<Iface>, now: Option<Iface>) {
    && !d.peer
    && (was.Some? || now.Some?)
    && OpAt(env, d) == (if was == None then OpCreate else if now == None then OpDelete else OpNone)
    && (was.Some? && now.Some? && was.value.link.Vlan? && now.value.link.Vlan? ==>
          && (d.parent <==> was.value.link.parent != now.value.link.parent)
          && (d.outerTag <==> was.value.link.tag != now.value.link.tag || was.value.link.vid != now.value.link.vid))
    && forall fam :: A.RecordsFamily(d.Fam(fam), [d.op, env.root], FamOf(was, fam), FamOf(now, fam))
  }

  /** The diffs record, each interface once, at least the interfaces that differ. */
  ghost predicate RecordsChange(env: Env, ds: seq<IfDiff>, was: Config) {
    && (forall i :: 0 <= i < |ds| ==> RecordsIface(env, ds[i], Lookup(was, ds[i].name), Lookup(env.now, ds[i].name)))
    && (forall i, j :: 0 <= i < j < |ds| ==> ds[i].name != ds[j].name)
    && forall n :: Lookup(was, n) != Lookup(env.now, n) ==> exists i :: 0 <= i < |ds| && ds[i].name == n
  }

  // ---------- configurations ----------

  ghost predicate WellFormedLink(c: Config, fixed: set<Name>, n: Name)
    requires n in c
  {
    match c[n].link
    case Plain => n in fixed
    case Bridge => n !in fixed
    case Veth(p) => n !in fixed && p != n && p in c && p !in fixed && c[p].link == Veth(n)
    case Vlan(p, tag, _) => n !in fixed && p != n && p in c && tag != OtherTag && c[n].bridge != Some(p)
  }

  /** Stacking goes down: to a parent, to a bridge, and not at all between the ends of a veth pair. */
  ghost predicate Ranked(c: Config, rank: map<Name, nat>) {
    && rank.Keys == c.Keys
    && forall n :: n in c ==>
         && (c[n].link.Vlan? && c[n].link.parent in c ==> rank[c[n].link.parent] < rank[n])
         && (c[n].link.Veth? && c[n].link.peer in c ==> rank[c[n].link.peer] == rank[n])
         && (c[n].bridge.Some? && c[n].bridge.value in c ==> rank[c[n].bridge.value] < rank[n])
  }

  ghost predicate WellFormed(c: Config, fixed: set<Name>) {
    && "lo" !in c
    && (forall n :: n in c ==>
          && WellFormedLink(c, fixed, n)
          && (c[n].bridge.Some? ==>
                c[n].bridge.value in c && c[n].bridge.value !in fixed && c[c[n].bridge.value].link.Bridge?)
          && forall fam :: c[n].Fam(fam).Some? ==> c[n].Fam(fam).value.Valid())
    && exists rank :: Ranked(c, rank)
  }

  /** An interface keeps its kind. */
  ghost predicate SameKinds(was: Config, now: Config) {
    forall n :: n in was && n in now ==>
      match was[n].link
      case Plain => now[n].link.Plain?
      case Bridge => now[n].link.Bridge?
      case Veth(_) => now[n].link.Veth?
      case Vlan(_, _, _) => now[n].link.Vlan?
  }

  /** The addresses a device should have. */
  function AddrsOf(i: Option<Iface>): set<A.Addr> {
    A.Target(A.V4, FamOf(i, A.V4)) + A.Target(A.V6, FamOf(i, A.V6))
  }

  /** Whether a device should be up: as enabled, and not without a configuration. */
  function UpOf(i: Option<Iface>): bool {
    i.Some? && i.value.up
  }

  /** The bridge a device should be a port of. */
  function MasterOf(i: Option<Iface>): Option<Name> {
    if i.Some? then i.value.bridge else None
  }

  /** The devices the kernel should have. */
  function Meaning(c: Config, fixed: set<Name>): State {
    map n | n in c.Keys + fixed ::
      Dev(if n in fixed || n !in c then Plain else c[n].link, AddrsOf(Lookup(c, n)), UpOf(Lookup(c, n)),
          MasterOf(Lookup(c, n)))
  }
}
