/** Changes and histories that show where kernel and configuration part, and where they do not. */
module CommitExamples {
  import opened DepOrder
  import opened Options
  import opened Lyx
  import opened Kernel
  import opened Interfaces
  import opened Netdag
  import opened Commit
  import opened CommitRun
  import opened CommitTheorems

  // ---------- changes that leave addresses alone ----------

  function Bare(link: Link): Iface {
    Iface(link, None, None, None, true)
  }

  ghost predicate AllBare(c: Config) {
    forall n :: n in c ==> c[n].v4 == None && c[n].v6 == None && c[n].bridge == None
  }

  lemma {:induction false} BareWellFormed(c: Config, fixed: set<Name>, rank: map<Name, nat>)
    requires AllBare(c) && "lo" !in c && Ranked(c, rank) && forall n :: n in c ==> WellFormedLink(c, fixed, n)
    ensures WellFormed(c, fixed)
  {
  }

  /** Interfaces keep their addresses, and new ones have none. */
  ghost predicate Steady(was: Config, now: Config) {
    forall n :: n in now ==>
      if n in was then now[n].v4 == was[n].v4 && now[n].v6 == was[n].v6 else now[n].v4 == None && now[n].v6 == None
  }

  /** The diff of one interface. */
  function DiffOf(was: Config, now: Config, n: Name): IfDiff {
    var both := n in was && n in now && was[n].link.Vlan? && now[n].link.Vlan?;
    IfDiff(n, if n !in was then Some("create") else if n !in now then Some("delete") else None, None, None,
           both && was[n].link.parent != now[n].link.parent,
           both && (was[n].link.tag != now[n].link.tag || was[n].link.vid != now[n].link.vid), false)
  }

  function DiffsOf(was: Config, now: Config, names: seq<Name>): seq<IfDiff> {
    seq(|names|, i requires 0 <= i < |names| => DiffOf(was, now, names[i]))
  }

  function EnvOf(now: Config, fixed: set<Name>): Env {
    Env(now, fixed, None)
  }

  /** The names are those of the interfaces that differ, and perhaps others, each once. */
  ghost predicate NamesChange(was: Config, now: Config, names: seq<Name>) {
    && NoDup(names) && (forall i :: 0 <= i < |names| ==> names[i] in was || names[i] in now)
    && forall n :: Lookup(was, n) != Lookup(now, n) ==> n in names
  }

  lemma {:induction false} OperationOf(own: Option<string>)
    ensures OpOf([own, None]) == OpNamed(own)
  {
    var none: Chain := [None];
    OpInherited(None, []);
    OpInherited(own, none);
    assert none + [] == none && [own] + none == [own, None];
  }

  lemma {:induction false} BareIface(was: Config, now: Config, fixed: set<Name>, n: Name)
    requires Steady(was, now) && (n in was || n in now)
    ensures RecordsIface(EnvOf(now, fixed), DiffOf(was, now, n), Lookup(was, n), Lookup(now, n))
  {
    OperationOf(DiffOf(was, now, n).op);
  }

  lemma {:induction false} BareRecords(was: Config, now: Config, fixed: set<Name>, names: seq<Name>)
    requires Steady(was, now) && NamesChange(was, now, names)
    ensures RecordsChange(EnvOf(now, fixed), DiffsOf(was, now, names), was)
  {
    var env, ds := EnvOf(now, fixed), DiffsOf(was, now, names);
    forall i | 0 <= i < |ds| ensures RecordsIface(env, ds[i], Lookup(was, ds[i].name), Lookup(now, ds[i].name)) {
      BareIface(was, now, fixed, names[i]);
    }
    forall n | Lookup(was, n) != Lookup(now, n) ensures exists i :: 0 <= i < |ds| && ds[i].name == n {
      var i :| 0 <= i < |names| && names[i] == n;
      assert ds[i].name == n;
    }
  }

  lemma {:induction false} BareNames(was: Config, now: Config, names: seq<Name>)
    ensures forall n :: n in Names(DiffsOf(was, now, names)) <==> n in names
  {
    var ds := DiffsOf(was, now, names);
    forall n | n in names ensures n in Names(ds) {
      var i :| 0 <= i < |names| && names[i] == n;
      assert ds[i].name == n;
    }
  }

  /** Which devices such a change deletes. */
  lemma {:induction false} BareGone(was: Config, now: Config, fixed: set<Name>, names: seq<Name>, n: Name)
    requires Readable(EnvOf(now, fixed), DiffsOf(was, now, names)) && n !in fixed
    requires NamesChange(was, now, names)
    ensures n in Gone(EnvOf(now, fixed), DiffsOf(was, now, names)) <==>
            && n in names && n in was
            && (n !in now || (was[n].link.Vlan? && now[n].link.Vlan? && was[n].link != now[n].link))
  {
    BareNames(was, now, names);
    if n in names {
      var ds := DiffsOf(was, now, names);
      assert ds[At(ds, n)] == DiffOf(was, now, n);
      OperationOf(DiffOf(was, now, n).op);
    }
  }

  ghost predicate Sound(was: Config, now: Config, fixed: set<Name>, names: seq<Name>) {
    && WellFormed(was, fixed) && WellFormed(now, fixed) && SameKinds(was, now)
    && Steady(was, now) && NamesChange(was, now, names)
  }

  lemma {:induction false} BareIsChange(was: Config, now: Config, fixed: set<Name>, names: seq<Name>)
    requires Sound(was, now, fixed, names)
    ensures IsChange(EnvOf(now, fixed), DiffsOf(was, now, names), was)
    ensures Readable(EnvOf(now, fixed), DiffsOf(was, now, names))
  {
    BareRecords(was, now, fixed, names);
    ChangeIsReadable(EnvOf(now, fixed), DiffsOf(was, now, names), was);
  }

  /** The change, compiled. */
  ghost function Made(was: Config, now: Config, fixed: set<Name>, names: seq<Name>, listing: seq<Name>): Change
    requires Readable(EnvOf(now, fixed), DiffsOf(was, now, names))
  {
    var env, ds := EnvOf(now, fixed), DiffsOf(was, now, names);
    Change(env, ds, CompiledOf(env, ds), listing)
  }

  lemma {:induction false} MadeIsValid(was: Config, now: Config, fixed: set<Name>, names: seq<Name>, listing: seq<Name>)
    requires Sound(was, now, fixed, names)
    requires forall n :: n in now || n in names ==> n in listing
    ensures Readable(EnvOf(now, fixed), DiffsOf(was, now, names))
    ensures ValidChange(Made(was, now, fixed, names, listing), was)
  {
    BareIsChange(was, now, fixed, names);
    ChangeCompiles(EnvOf(now, fixed), DiffsOf(was, now, names), was);
    BareNames(was, now, names);
  }

  // ---------- a VLAN on a VLAN ----------

  /** A VLAN that stays while the VLAN it stands on is created again is lost, in whatever order things go. */
  lemma {:induction false} RecreatedParentLosesVlan(env: Env, ds: seq<IfDiff>, was: Config, out: Output, ex: seq<Name>,
                                                    listing: seq<Name>, n: Name, y: Name)
    requires IsChange(env, ds, was) && Readable(env, ds) && IsCompiled(env, ds, out)
    requires NoDup(ex) && Covers(was, ex) && forall m :: m in out.deps ==> m in listing
    requires RecreatedBelow(was, env.now, n, y)
    ensures Acyclic(out.deps)
    ensures Committed(env, out, Meaning(was, env.fixed), ex, listing) != Some(Meaning(env.now, env.fixed))
  {
    CommitCorrectIff(env, ds, was, out, ex, listing);
    AllKnown(env, ds, was, out);
    LosesVlan(env, ds, was, out, ex, n, y);
  }

  lemma {:induction false} LosesVlan(env: Env, ds: seq<IfDiff>, was: Config, out: Output, ex: seq<Name>, n: Name,
                                     y: Name)
    requires Known(env, ds, was, out) && n in ex
    requires n in was && n in env.now && was[n].link.Vlan? && was[n].link != env.now[n].link
    requires y in was && was[y].link.Vlan? && was[y].link.parent == n
    requires y in env.now && env.now[y].link == was[y].link
    ensures !Orderly(Meaning(was, env.fixed), ex, Gone(env, ds), Along(was, env.now))
  {
    RecreatedIsGone(env, ds, was, out, n);
    UnchangedStays(env, ds, was, out, y);
    assert Edge(Stack(Meaning(was, env.fixed)), y, n);
    NotOrderly(Meaning(was, env.fixed), ex, Gone(env, ds), Along(was, env.now), n, y);
  }

  lemma {:induction false} NotOrderly(k: State, ex: seq<Name>, gone: set<Name>, along: map<Name, Name>, n: Name,
                                      y: Name)
    requires n in ex && n in gone && y != n && y !in gone && y !in along && Edge(Stack(k), y, n)
    ensures !Orderly(k, ex, gone, along)
  {
    var j :| 0 <= j < |ex| && ex[j] == n;
    assert Above(k, along, y, ex[j]);
  }

  lemma {:induction false} RecreatedIsGone(env: Env, ds: seq<IfDiff>, was: Config, out: Output, n: Name)
    requires Known(env, ds, was, out)
    requires n in was && n in env.now && was[n].link.Vlan? && was[n].link != env.now[n].link
    ensures n in Gone(env, ds)
  {
    assert Facts(env, ds, was, out, n);
  }

  lemma {:induction false} UnchangedStays(env: Env, ds: seq<IfDiff>, was: Config, out: Output, y: Name)
    requires Known(env, ds, was, out)
    requires y in was && y in env.now && env.now[y].link == was[y].link && was[y].link.Vlan?
    ensures y !in Gone(env, ds) && y !in env.fixed && y != was[y].link.parent && y !in Along(was, env.now)
  {
    assert Facts(env, ds, was, out, y);
  }

  function Stacked(e: Name, v: Name, w: Name, vid: string): Config {
    map[e := Bare(Plain), v := Bare(Vlan(e, CVlan, vid)), w := Bare(Vlan(v, CVlan, "2"))]
  }

  ghost predicate Three(e: Name, v: Name, w: Name) {
    e != v && e != w && v != w && "lo" !in {e, v, w}
  }

  lemma {:induction false} StackedRanked(e: Name, v: Name, w: Name, vid: string)
    requires Three(e, v, w)
    ensures Ranked(Stacked(e, v, w, vid), map[e := 0, v := 1, w := 2]) && AllBare(Stacked(e, v, w, vid))
  {
  }

  lemma {:induction false} StackedLinks(e: Name, v: Name, w: Name, vid: string, n: Name)
    requires Three(e, v, w) && n in Stacked(e, v, w, vid)
    ensures WellFormedLink(Stacked(e, v, w, vid), {e}, n)
  {
  }

  lemma {:induction false} StackedWellFormed(e: Name, v: Name, w: Name, vid: string)
    requires Three(e, v, w)
    ensures WellFormed(Stacked(e, v, w, vid), {e}) && AllBare(Stacked(e, v, w, vid))
  {
    var c := Stacked(e, v, w, vid);
    StackedRanked(e, v, w, vid);
    forall n | n in c ensures WellFormedLink(c, {e}, n) { StackedLinks(e, v, w, vid, n); }
    BareWellFormed(c, {e}, map[e := 0, v := 1, w := 2]);
  }

  lemma {:induction false} RetagIsSound(e: Name, v: Name, w: Name)
    requires Three(e, v, w)
    ensures Sound(Stacked(e, v, w, "1"), Stacked(e, v, w, "3"), {e}, [v])
  {
    StackedWellFormed(e, v, w, "1");
    StackedWellFormed(e, v, w, "3");
    StackedKinds(e, v, w);
    RetagNames(e, v, w);
  }

  lemma {:induction false} StackedKinds(e: Name, v: Name, w: Name)
    requires Three(e, v, w)
    ensures SameKinds(Stacked(e, v, w, "1"), Stacked(e, v, w, "3"))
  {
  }

  lemma {:induction false} RetagNames(e: Name, v: Name, w: Name)
    requires Three(e, v, w)
    ensures NamesChange(Stacked(e, v, w, "1"), Stacked(e, v, w, "3"), [v])
  {
    assert [v][0] == v;
  }

  /** Changing the tag of the lower of two stacked VLANs is such a change. */
  lemma {:induction false} RetaggingLosesTheUpperVlan(e: Name, v: Name, w: Name, ex: seq<Name>, listing: seq<Name>)
    requires Three(e, v, w) && NoDup(ex) && Covers(Stacked(e, v, w, "1"), ex)
    requires forall n :: n in {e, v, w} ==> n in listing
    ensures var was, now := Stacked(e, v, w, "1"), Stacked(e, v, w, "3");
            && Readable(EnvOf(now, {e}), DiffsOf(was, now, [v])) && ValidChange(Made(was, now, {e}, [v], listing), was)
            && KernelAfter(Made(was, now, {e}, [v], listing), Meaning(was, {e}), ex) != Some(Meaning(now, {e}))
  {
    var was, now := Stacked(e, v, w, "1"), Stacked(e, v, w, "3");
    RetagIsSound(e, v, w);
    MadeIsValid(was, now, {e}, [v], listing);
    RetagRecreates(e, v, w);
    RecreationFails(Made(was, now, {e}, [v], listing), was, ex, v, w);
  }

  /** The VLAN `y` stays on the VLAN `n`, which is created again. */
  ghost predicate RecreatedBelow(was: Config, now: Config, n: Name, y: Name) {
    && n in was && n in now && was[n].link.Vlan? && was[n].link != now[n].link
    && y in was && was[y].link.Vlan? && was[y].link.parent == n && y in now && now[y].link == was[y].link
  }

  lemma {:induction false} RetagRecreates(e: Name, v: Name, w: Name)
    requires Three(e, v, w)
    ensures RecreatedBelow(Stacked(e, v, w, "1"), Stacked(e, v, w, "3"), v, w)
  {
  }

  lemma {:induction false} RecreationFails(c: Change, was: Config, ex: seq<Name>, n: Name, y: Name)
    requires ValidChange(c, was) && NoDup(ex) && Covers(was, ex) && RecreatedBelow(was, c.env.now, n, y)
    ensures KernelAfter(c, Meaning(was, c.env.fixed), ex) != Some(Meaning(c.env.now, c.env.fixed))
  {
    RecreatedParentLosesVlan(c.env, c.ds, was, c.out, ex, c.listing, n, y);
  }

  // ---------- a port that leaves its bridge ----------

  /** A fixed port `e`, perhaps of the bridge `b`. */
  function Ported(e: Name, b: Name, bridge: Option<Name>): Config {
    map[e := Bare(Plain).(bridge := bridge), b := Bare(Bridge)]
  }

  lemma {:induction false} PortedWellFormed(e: Name, b: Name, bridge: Option<Name>)
    requires e != b && "lo" !in {e, b} && bridge in {None, Some(b)}
    ensures WellFormed(Ported(e, b, bridge), {e})
  {
    assert Ranked(Ported(e, b, bridge), map[e := 1, b := 0]);
  }

  lemma {:induction false} LeavingIsSound(e: Name, b: Name)
    requires e != b && "lo" !in {e, b}
    ensures Sound(Ported(e, b, Some(b)), Ported(e, b, None), {e}, [e])
  {
    PortedWellFormed(e, b, Some(b));
    PortedWellFormed(e, b, None);
    LeavingIsSteady(e, b);
    LeavingNames(e, b);
  }

  lemma {:induction false} LeavingIsSteady(e: Name, b: Name)
    requires e != b
    ensures Steady(Ported(e, b, Some(b)), Ported(e, b, None)) && SameKinds(Ported(e, b, Some(b)), Ported(e, b, None))
  {
  }

  lemma {:induction false} LeavingNames(e: Name, b: Name)
    requires e != b
    ensures NamesChange(Ported(e, b, Some(b)), Ported(e, b, None), [e])
  {
    assert [e][0] == e;
  }

  lemma {:induction false} PortLeaves(e: Name, b: Name)
    requires e != b
    ensures Leaves(Ported(e, b, Some(b)), Ported(e, b, None), e)
    ensures !Repeered(Ported(e, b, Some(b)), Ported(e, b, None), e)
  {
  }

  lemma {:induction false} StaysAPort(c: Change, was: Config, ex: seq<Name>, n: Name)
    requires ValidChange(c, was) && NoDup(ex) && Covers(was, ex)
    requires Leaves(was, c.env.now, n) && !Repeered(was, c.env.now, n)
    ensures KernelAfter(c, Meaning(was, c.env.fixed), ex) != Some(Meaning(c.env.now, c.env.fixed))
  {
    LeavingABridgeFails(c.env, c.ds, was, c.out, ex, c.listing, n);
  }

  /** Taking a port out of its bridge is a change that the kernel does not follow. */
  lemma {:induction false} LeavingItsBridgeFails(e: Name, b: Name, ex: seq<Name>, listing: seq<Name>)
    requires e != b && "lo" !in {e, b} && NoDup(ex) && Covers(Ported(e, b, Some(b)), ex)
    requires e in listing && b in listing
    ensures var was, now := Ported(e, b, Some(b)), Ported(e, b, None);
            && Readable(EnvOf(now, {e}), DiffsOf(was, now, [e])) && ValidChange(Made(was, now, {e}, [e], listing), was)
            && KernelAfter(Made(was, now, {e}, [e], listing), Meaning(was, {e}), ex) != Some(Meaning(now, {e}))
  {
    var was, now := Ported(e, b, Some(b)), Ported(e, b, None);
    LeavingIsSound(e, b);
    MadeIsValid(was, now, {e}, [e], listing);
    PortLeaves(e, b);
    StaysAPort(Made(was, now, {e}, [e], listing), was, ex, e);
  }

  // ---------- veth pairs ----------

  function Pair(a: Name, b: Name): Config {
    map[a := Bare(Veth(b)), b := Bare(Veth(a))]
  }

  lemma {:induction false} PairWellFormed(a: Name, b: Name)
    requires a != b && "lo" !in {a, b}
    ensures WellFormed(Pair(a, b), {}) && AllBare(Pair(a, b))
  {
    assert Ranked(Pair(a, b), map[a := 0, b := 0]);
  }

  lemma {:induction false} NothingWellFormed(fixed: set<Name>)
    ensures WellFormed(map[], fixed) && AllBare(map[])
  {
    assert Ranked(map[], map[]);
  }

  lemma {:induction false} RemovalIsSound(a: Name, b: Name)
    requires a != b && "lo" !in {a, b}
    ensures Sound(Pair(a, b), map[], {}, [a, b])
  {
    PairWellFormed(a, b);
    NothingWellFormed({});
    TwoNames(a, b);
    NamesAreAll(Pair(a, b), map[], [a, b]);
  }

  lemma {:induction false} TwoNames(a: Name, b: Name)
    requires a != b
    ensures NoDup([a, b]) && forall n :: n in [a, b] <==> n == a || n == b
  {
    assert [a, b][0] == a && [a, b][1] == b;
  }

  lemma {:induction false} NamesAreAll(was: Config, now: Config, names: seq<Name>)
    requires NoDup(names) && forall n :: n in names <==> n in was || n in now
    ensures NamesChange(was, now, names)
  {
  }

  /** A configuration that is just a pair can be asked to go away, and that fails in any order. */
  lemma {:induction false} RemovingAPairFails(a: Name, b: Name, ex: seq<Name>, listing: seq<Name>)
    requires a != b && "lo" !in {a, b} && NoDup(ex) && Covers(Pair(a, b), ex) && a in listing && b in listing
    ensures Readable(EnvOf(map[], {}), DiffsOf(Pair(a, b), map[], [a, b]))
    ensures var c := Made(Pair(a, b), map[], {}, [a, b], listing);
            ValidChange(c, Pair(a, b)) && KernelAfter(c, Meaning(Pair(a, b), {}), ex) == None
  {
    RemovalIsSound(a, b);
    MadeIsValid(Pair(a, b), map[], {}, [a, b], listing);
    var c := Made(Pair(a, b), map[], {}, [a, b], listing);
    DepsAreAcyclic(c.env, c.ds, Pair(a, b), c.out);
    RemovingVethFails(c.env, c.ds, Pair(a, b), c.out, ex, listing, a);
  }

  ghost predicate Four(a: Name, b: Name, c: Name, d: Name) {
    a != b && a != c && a != d && b != c && b != d && c != d && "lo" !in {a, b, c, d}
  }

  function TwoPairs(a: Name, b: Name, c: Name, d: Name): Config {
    map[a := Bare(Veth(b)), b := Bare(Veth(a)), c := Bare(Veth(d)), d := Bare(Veth(c))]
  }

  lemma {:induction false} TwoPairsLinks(a: Name, b: Name, c: Name, d: Name, n: Name)
    requires Four(a, b, c, d) && n in TwoPairs(a, b, c, d)
    ensures WellFormedLink(TwoPairs(a, b, c, d), {}, n)
  {
  }

  lemma {:induction false} TwoPairsRanked(a: Name, b: Name, c: Name, d: Name)
    requires Four(a, b, c, d)
    ensures Ranked(TwoPairs(a, b, c, d), map[a := 0, b := 0, c := 0, d := 0]) && AllBare(TwoPairs(a, b, c, d))
  {
  }

  lemma {:induction false} TwoPairsWellFormed(a: Name, b: Name, c: Name, d: Name)
    requires Four(a, b, c, d)
    ensures WellFormed(TwoPairs(a, b, c, d), {}) && AllBare(TwoPairs(a, b, c, d))
  {
    var t := TwoPairs(a, b, c, d);
    TwoPairsRanked(a, b, c, d);
    forall n | n in t ensures WellFormedLink(t, {}, n) { TwoPairsLinks(a, b, c, d, n); }
    BareWellFormed(t, {}, map[a := 0, b := 0, c := 0, d := 0]);
  }

  lemma {:induction false} SwapIsSound(a: Name, b: Name, c: Name, d: Name)
    requires Four(a, b, c, d)
    ensures Sound(TwoPairs(a, b, c, d), TwoPairs(a, c, b, d), {}, [a, b, c, d])
  {
    TwoPairsWellFormed(a, b, c, d);
    TwoPairsWellFormed(a, c, b, d);
    SwapKinds(a, b, c, d);
    FourNames(a, b, c, d);
    NamesAreAll(TwoPairs(a, b, c, d), TwoPairs(a, c, b, d), [a, b, c, d]);
  }

  lemma {:induction false} SwapKinds(a: Name, b: Name, c: Name, d: Name)
    requires Four(a, b, c, d)
    ensures SameKinds(TwoPairs(a, b, c, d), TwoPairs(a, c, b, d))
  {
  }

  lemma {:induction false} FourNames(a: Name, b: Name, c: Name, d: Name)
    requires Four(a, b, c, d)
    ensures NoDup([a, b, c, d]) && forall n :: n in [a, b, c, d] <==> n in {a, b, c, d}
  {
    var names := [a, b, c, d];
    assert names[0] == a && names[1] == b && names[2] == c && names[3] == d;
  }

  /** Two pairs that exchange their peers never do so in the kernel. */
  lemma {:induction false} SwappingPeersFails(a: Name, b: Name, c: Name, d: Name, ex: seq<Name>, listing: seq<Name>)
    requires Four(a, b, c, d) && NoDup(ex) && Covers(TwoPairs(a, b, c, d), ex)
    requires forall n :: n in {a, b, c, d} ==> n in listing
    ensures var was, now := TwoPairs(a, b, c, d), TwoPairs(a, c, b, d);
            && Readable(EnvOf(now, {}), DiffsOf(was, now, [a, b, c, d]))
            && ValidChange(Made(was, now, {}, [a, b, c, d], listing), was)
            && KernelAfter(Made(was, now, {}, [a, b, c, d], listing), Meaning(was, {}), ex) != Some(Meaning(now, {}))
  {
    var was, now := TwoPairs(a, b, c, d), TwoPairs(a, c, b, d);
    SwapIsSound(a, b, c, d);
    MadeIsValid(was, now, {}, [a, b, c, d], listing);
    SwapRepeers(a, b, c, d);
    ExchangedFails(Made(was, now, {}, [a, b, c, d], listing), was, ex, a);
  }

  lemma {:induction false} SwapRepeers(a: Name, b: Name, c: Name, d: Name)
    requires Four(a, b, c, d)
    ensures var was, now := TwoPairs(a, b, c, d), TwoPairs(a, c, b, d);
            Repeered(was, now, a) && now[a].link.peer in was
  {
  }

  lemma {:induction false} ExchangedFails(c: Change, was: Config, ex: seq<Name>, n: Name)
    requires ValidChange(c, was) && NoDup(ex) && Covers(was, ex)
    requires Repeered(was, c.env.now, n) && c.env.now[n].link.peer in was
    ensures KernelAfter(c, Meaning(was, c.env.fixed), ex) != Some(Meaning(c.env.now, c.env.fixed))
  {
    ExchangedPeerFails(c.env, c.ds, was, c.out, ex, c.listing, n);
  }
}
