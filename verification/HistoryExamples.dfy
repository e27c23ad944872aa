/** Small changes whose outcome hangs on the order of a directory listing, or on an address to keep. */
module HistoryExamples {
  import opened DepOrder
  import opened Options
  import opened Kernel
  import opened Interfaces
  import opened Netdag
  import opened Commit
  import opened CommitRun
  import opened CommitTheorems
  import opened RemovalOrder
  import opened CommitExamples
  import A = Addresses

  /** A change none of whose interfaces depends on another is set up in the order of the listing. */
  lemma {:induction false} FlatMade(was: Config, now: Config, fixed: set<Name>, names: seq<Name>, listing: seq<Name>)
    requires Readable(EnvOf(now, fixed), DiffsOf(was, now, names)) && NoDup(listing)
    requires forall n :: DependenciesOf(EnvOf(now, fixed), DiffsOf(was, now, names), n) == []
    requires forall n :: n in listing <==> n in now || n in names
    ensures SetupOrder(Made(was, now, fixed, names, listing)) == listing
  {
    BareNames(was, now, names);
    FlatOrder(Made(was, now, fixed, names, listing).out.deps, listing);
  }

  // ---------- a veth whose peer is replaced by a new one ----------

  lemma {:induction false} ReplacingIsSound(a: Name, b: Name, c: Name)
    requires Three(a, b, c)
    ensures Sound(Pair(a, b), Pair(a, c), {}, [a, b, c])
  {
    PairWellFormed(a, b);
    PairWellFormed(a, c);
    ThreeNames(a, b, c);
    NamesAreAll(Pair(a, b), Pair(a, c), [a, b, c]);
  }

  lemma {:induction false} ThreeNames(a: Name, b: Name, c: Name)
    requires Three(a, b, c)
    ensures NoDup([a, b, c]) && forall n :: n in [a, b, c] <==> n in {a, b, c}
  {
    var names := [a, b, c];
    assert names[0] == a && names[1] == b && names[2] == c;
  }

  lemma {:induction false} ReplacingRemakes(a: Name, b: Name, c: Name, order: seq<Name>)
    requires Three(a, b, c)
    ensures Along(Pair(a, b), Pair(a, c)) == map[a := b]
    ensures Suits(Pair(a, b), Pair(a, c), order) <==> Before(order, c, a)
  {
    var was, now := Pair(a, b), Pair(a, c);
    forall n ensures Repeered(was, now, n) <==> n == a ensures Remade(was, now, n) <==> n == a {}
    assert was[a].v4 == None && was[a].v6 == None;
    assert KeepsNone(was[a], now[a]);
    assert Fits(was, now, a);
  }

  lemma {:induction false} ReplacingGone(a: Name, b: Name, c: Name)
    requires Three(a, b, c) && Readable(EnvOf(Pair(a, c), {}), DiffsOf(Pair(a, b), Pair(a, c), [a, b, c]))
    ensures Gone(EnvOf(Pair(a, c), {}), DiffsOf(Pair(a, b), Pair(a, c), [a, b, c])) == {b}
  {
    ReplacingIsSound(a, b, c);
    forall n ensures n in Gone(EnvOf(Pair(a, c), {}), DiffsOf(Pair(a, b), Pair(a, c), [a, b, c])) <==> n == b {
      BareGone(Pair(a, b), Pair(a, c), {}, [a, b, c], n);
    }
  }

  lemma {:induction false} ReplacingOrderly(a: Name, b: Name, ex: seq<Name>)
    requires a != b
    ensures Orderly(Meaning(Pair(a, b), {}), ex, {b}, map[a := b])
  {
    var k, along := Meaning(Pair(a, b), {}), map[a := b];
    forall y | Above(k, along, y, b) ensures y in {a, b} {
      assert y in Stack(k);
    }
  }

  /** An interface that is no VLAN, no bridge port and no skipped end depends on nothing. */
  lemma {:induction false} FlatOne(env: Env, ds: seq<IfDiff>, n: Name)
    requires Readable(env, ds) && !SkippedEnd(env, ds, n)
    requires n in env.now ==> !env.now[n].link.Vlan? && env.now[n].bridge == None
    ensures DependenciesOf(env, ds, n) == []
  {
  }

  lemma {:induction false} ReplacingFlat(a: Name, b: Name, c: Name, n: Name)
    requires Three(a, b, c) && Readable(EnvOf(Pair(a, c), {}), DiffsOf(Pair(a, b), Pair(a, c), [a, b, c]))
    ensures DependenciesOf(EnvOf(Pair(a, c), {}), DiffsOf(Pair(a, b), Pair(a, c), [a, b, c]), n) == []
  {
    var was, now := Pair(a, b), Pair(a, c);
    var env, ds := EnvOf(now, {}), DiffsOf(was, now, [a, b, c]);
    ReplacingIsSound(a, b, c);
    BareIsChange(was, now, {}, [a, b, c]);
    OneEndIsSkipped(env, ds, was, n);
    FlatOne(env, ds, n);
  }

  lemma {:induction false} ReplacingSetup(a: Name, b: Name, c: Name, listing: seq<Name>)
    requires Three(a, b, c) && Readable(EnvOf(Pair(a, c), {}), DiffsOf(Pair(a, b), Pair(a, c), [a, b, c]))
    requires NoDup(listing) && forall n :: n in listing <==> n in {a, b, c}
    ensures SetupOrder(Made(Pair(a, b), Pair(a, c), {}, [a, b, c], listing)) == listing
  {
    ThreeNames(a, b, c);
    forall n ensures DependenciesOf(EnvOf(Pair(a, c), {}), DiffsOf(Pair(a, b), Pair(a, c), [a, b, c]), n) == [] {
      ReplacingFlat(a, b, c, n);
    }
    FlatMade(Pair(a, b), Pair(a, c), {}, [a, b, c], listing);
  }

  lemma {:induction false} ReplacedIff(m: Change, was: Config, ex: seq<Name>, a: Name, b: Name, c: Name)
    requires ValidChange(m, was) && NoDup(ex) && Covers(was, ex)
    requires Gone(m.env, m.ds) == {b} && Along(was, m.env.now) == map[a := b]
    requires Orderly(Meaning(was, m.env.fixed), ex, {b}, map[a := b])
    requires Suits(was, m.env.now, SetupOrder(m)) <==> Before(SetupOrder(m), c, a)
    ensures KernelAfter(m, Meaning(was, m.env.fixed), ex) == Some(Meaning(m.env.now, m.env.fixed)) <==>
            Before(SetupOrder(m), c, a)
  {
    CommitCorrectIff(m.env, m.ds, was, m.out, ex, m.listing);
  }

  /** Exchanging a peer for a new one works if and only if the new one is listed first. */
  lemma {:induction false} ReplacingAPeerIff(a: Name, b: Name, c: Name, ex: seq<Name>, listing: seq<Name>)
    requires Three(a, b, c) && NoDup(ex) && Covers(Pair(a, b), ex)
    requires NoDup(listing) && forall n :: n in listing <==> n in {a, b, c}
    ensures Readable(EnvOf(Pair(a, c), {}), DiffsOf(Pair(a, b), Pair(a, c), [a, b, c]))
    ensures var m := Made(Pair(a, b), Pair(a, c), {}, [a, b, c], listing);
            && ValidChange(m, Pair(a, b))
            && (KernelAfter(m, Meaning(Pair(a, b), {}), ex) == Some(Meaning(Pair(a, c), {})) <==> Before(listing, c, a))
  {
    var was, now := Pair(a, b), Pair(a, c);
    ReplacingIsSound(a, b, c);
    ThreeNames(a, b, c);
    MadeIsValid(was, now, {}, [a, b, c], listing);
    ReplacingSetup(a, b, c, listing);
    ReplacingGone(a, b, c);
    ReplacingRemakes(a, b, c, listing);
    ReplacingOrderly(a, b, ex);
    ReplacedIff(Made(was, now, {}, [a, b, c], listing), was, ex, a, b, c);
  }

  // ---------- the same with an address to keep ----------

  function OneAddress(ip: string, pfx: string): Option<A.Family> {
    Some(A.Family(true, map[ip := pfx], [ip]))
  }

  /** A pair whose end `a` has an address. */
  function Addressed(a: Name, b: Name, v4: Option<A.Family>): Config {
    map[a := Bare(Veth(b)).(v4 := v4), b := Bare(Veth(a))]
  }

  lemma {:induction false} AddressedWellFormed(a: Name, b: Name, v4: Option<A.Family>)
    requires a != b && "lo" !in {a, b} && (v4.Some? ==> v4.value.Valid())
    ensures WellFormed(Addressed(a, b, v4), {})
  {
    assert Ranked(Addressed(a, b, v4), map[a := 0, b := 0]);
  }

  lemma {:induction false} AddressedIsSteady(a: Name, b: Name, c: Name, v4: Option<A.Family>)
    requires Three(a, b, c)
    ensures Steady(Addressed(a, b, v4), Addressed(a, c, v4)) && SameKinds(Addressed(a, b, v4), Addressed(a, c, v4))
  {
  }

  lemma {:induction false} AddressedIsSound(a: Name, b: Name, c: Name, v4: Option<A.Family>)
    requires Three(a, b, c) && (v4.Some? ==> v4.value.Valid())
    ensures Sound(Addressed(a, b, v4), Addressed(a, c, v4), {}, [a, b, c])
  {
    AddressedWellFormed(a, b, v4);
    AddressedWellFormed(a, c, v4);
    AddressedIsSteady(a, b, c, v4);
    ThreeNames(a, b, c);
    NamesAreAll(Addressed(a, b, v4), Addressed(a, c, v4), [a, b, c]);
  }

  lemma {:induction false} AddressedRepeers(a: Name, b: Name, c: Name, v4: Option<A.Family>)
    requires Three(a, b, c)
    ensures var was, now := Addressed(a, b, v4), Addressed(a, c, v4);
            Repeered(was, now, a) && was[a].v4 == v4 && now[a].v4 == v4
  {
  }

  lemma {:induction false} AddressIsKept(was: Iface, now: Iface, ip: string, pfx: string)
    requires was.v4 == OneAddress(ip, pfx) && now.v4 == OneAddress(ip, pfx)
    ensures !KeepsNone(was, now)
  {
    A.AddrsOfMembers(A.V4, map[ip := pfx]);
    assert was.Fam(A.V4) == OneAddress(ip, pfx) && now.Fam(A.V4) == OneAddress(ip, pfx);
    assert A.Addr(A.V4, ip, pfx) in A.Target(A.V4, OneAddress(ip, pfx));
  }

  lemma {:induction false} KeptFails(m: Change, was: Config, ex: seq<Name>, a: Name)
    requires ValidChange(m, was) && NoDup(ex) && Covers(was, ex)
    requires Repeered(was, m.env.now, a) && !KeepsNone(was[a], m.env.now[a])
    ensures KernelAfter(m, Meaning(was, m.env.fixed), ex) != Some(Meaning(m.env.now, m.env.fixed))
  {
    CommitCorrectIff(m.env, m.ds, was, m.out, ex, m.listing);
    assert !Fits(was, m.env.now, a);
  }

  /** A veth that keeps an address never gets a new peer and that address, in whatever order things go. */
  lemma {:induction false} ReplacingLosesAddress(a: Name, b: Name, c: Name, ip: string, pfx: string, ex: seq<Name>,
                                                 listing: seq<Name>)
    requires Three(a, b, c) && NoDup(ex) && Covers(Addressed(a, b, OneAddress(ip, pfx)), ex)
    requires forall n :: n in {a, b, c} ==> n in listing
    ensures var was, now := Addressed(a, b, OneAddress(ip, pfx)), Addressed(a, c, OneAddress(ip, pfx));
            && Readable(EnvOf(now, {}), DiffsOf(was, now, [a, b, c]))
            && ValidChange(Made(was, now, {}, [a, b, c], listing), was)
            && KernelAfter(Made(was, now, {}, [a, b, c], listing), Meaning(was, {}), ex) != Some(Meaning(now, {}))
  {
    var was, now := Addressed(a, b, OneAddress(ip, pfx)), Addressed(a, c, OneAddress(ip, pfx));
    AddressedIsSound(a, b, c, OneAddress(ip, pfx));
    ThreeNames(a, b, c);
    MadeIsValid(was, now, {}, [a, b, c], listing);
    AddressedRepeers(a, b, c, OneAddress(ip, pfx));
    AddressIsKept(was[a], now[a], ip, pfx);
    KeptFails(Made(was, now, {}, [a, b, c], listing), was, ex, a);
  }

  // ---------- a VLAN whose order is forgotten ----------

  /** A port `e`, up or not, and a VLAN `v` on a bridge `x`. */
  function Site(e: Name, x: Name, v: Name, up: bool): Config {
    map[e := Bare(Plain).(up := up), x := Bare(Bridge), v := Bare(Vlan(x, CVlan, "1"))]
  }

  function Alone(e: Name): Config {
    map[e := Bare(Plain).(up := false)]
  }

  lemma {:induction false} SiteLinks(e: Name, x: Name, v: Name, up: bool, n: Name)
    requires Three(e, x, v) && n in Site(e, x, v, up)
    ensures WellFormedLink(Site(e, x, v, up), {e}, n)
  {
  }

  lemma {:induction false} SiteRanked(e: Name, x: Name, v: Name, up: bool)
    requires Three(e, x, v)
    ensures Ranked(Site(e, x, v, up), map[e := 0, x := 0, v := 1]) && AllBare(Site(e, x, v, up))
  {
  }

  lemma {:induction false} SiteWellFormed(e: Name, x: Name, v: Name, up: bool)
    requires Three(e, x, v)
    ensures WellFormed(Site(e, x, v, up), {e}) && AllBare(Site(e, x, v, up))
  {
    var c := Site(e, x, v, up);
    SiteRanked(e, x, v, up);
    forall n | n in c ensures WellFormedLink(c, {e}, n) { SiteLinks(e, x, v, up, n); }
    BareWellFormed(c, {e}, map[e := 0, x := 0, v := 1]);
  }

  lemma {:induction false} AloneWellFormed(e: Name)
    requires e != "lo"
    ensures WellFormed(Alone(e), {e}) && AllBare(Alone(e))
  {
    assert Ranked(Alone(e), map[e := 0]);
  }

  lemma {:induction false} CreationIsSound(e: Name, x: Name, v: Name)
    requires Three(e, x, v)
    ensures Sound(map[], Site(e, x, v, true), {e}, [e, x, v])
  {
    NothingWellFormed({e});
    SiteWellFormed(e, x, v, true);
    ThreeNames(e, x, v);
    NamesAreAll(map[], Site(e, x, v, true), [e, x, v]);
  }

  lemma {:induction false} TouchIsSound(e: Name, x: Name, v: Name)
    requires Three(e, x, v)
    ensures Sound(Site(e, x, v, true), Site(e, x, v, false), {e}, [e])
  {
    SiteWellFormed(e, x, v, true);
    SiteWellFormed(e, x, v, false);
    SiteKinds(e, x, v);
    TouchNames(e, x, v);
  }

  lemma {:induction false} SiteKinds(e: Name, x: Name, v: Name)
    requires Three(e, x, v)
    ensures SameKinds(Site(e, x, v, true), Site(e, x, v, false)) && SameKinds(Site(e, x, v, false), Alone(e))
  {
  }

  lemma {:induction false} TouchNames(e: Name, x: Name, v: Name)
    requires Three(e, x, v)
    ensures NamesChange(Site(e, x, v, true), Site(e, x, v, false), [e])
  {
    assert [e][0] == e;
  }

  lemma {:induction false} RemoveNames(e: Name, x: Name, v: Name)
    requires Three(e, x, v)
    ensures NamesChange(Site(e, x, v, false), Alone(e), [x, v])
  {
    TwoNames(x, v);
  }

  lemma {:induction false} RemoveIsSound(e: Name, x: Name, v: Name)
    requires Three(e, x, v)
    ensures Sound(Site(e, x, v, false), Alone(e), {e}, [x, v])
  {
    SiteWellFormed(e, x, v, false);
    AloneWellFormed(e);
    SiteKinds(e, x, v);
    RemoveNames(e, x, v);
  }

  ghost predicate Lists(listing: seq<Name>, e: Name, x: Name, v: Name) {
    NoDup(listing) && forall n :: n in listing <==> n in {e, x, v}
  }

  lemma {:induction false} AllReadable(e: Name, x: Name, v: Name)
    requires Three(e, x, v)
    ensures Readable(EnvOf(Site(e, x, v, true), {e}), DiffsOf(map[], Site(e, x, v, true), [e, x, v]))
    ensures Readable(EnvOf(Site(e, x, v, false), {e}), DiffsOf(Site(e, x, v, true), Site(e, x, v, false), [e]))
    ensures Readable(EnvOf(Alone(e), {e}), DiffsOf(Site(e, x, v, false), Alone(e), [x, v]))
  {
    CreationIsSound(e, x, v);
    TouchIsSound(e, x, v);
    RemoveIsSound(e, x, v);
    BareIsChange(map[], Site(e, x, v, true), {e}, [e, x, v]);
    BareIsChange(Site(e, x, v, true), Site(e, x, v, false), {e}, [e]);
    BareIsChange(Site(e, x, v, false), Alone(e), {e}, [x, v]);
  }

  /** All three are created, then only `e` is changed, then `x` and `v` are removed. */
  ghost function History(e: Name, x: Name, v: Name, l0: seq<Name>, l1: seq<Name>, l2: seq<Name>): seq<Change>
    requires Three(e, x, v)
  {
    AllReadable(e, x, v);
    [Made(map[], Site(e, x, v, true), {e}, [e, x, v], l0),
     Made(Site(e, x, v, true), Site(e, x, v, false), {e}, [e], l1),
     Made(Site(e, x, v, false), Alone(e), {e}, [x, v], l2)]
  }

  lemma {:induction false} FirstValid(e: Name, x: Name, v: Name, listing: seq<Name>)
    requires Three(e, x, v) && Lists(listing, e, x, v)
    ensures Readable(EnvOf(Site(e, x, v, true), {e}), DiffsOf(map[], Site(e, x, v, true), [e, x, v]))
    ensures ValidChange(Made(map[], Site(e, x, v, true), {e}, [e, x, v], listing), map[])
  {
    CreationIsSound(e, x, v);
    ThreeNames(e, x, v);
    MadeIsValid(map[], Site(e, x, v, true), {e}, [e, x, v], listing);
  }

  lemma {:induction false} SecondValid(e: Name, x: Name, v: Name, listing: seq<Name>)
    requires Three(e, x, v) && Lists(listing, e, x, v)
    ensures Readable(EnvOf(Site(e, x, v, false), {e}), DiffsOf(Site(e, x, v, true), Site(e, x, v, false), [e]))
    ensures ValidChange(Made(Site(e, x, v, true), Site(e, x, v, false), {e}, [e], listing), Site(e, x, v, true))
  {
    TouchIsSound(e, x, v);
    MadeIsValid(Site(e, x, v, true), Site(e, x, v, false), {e}, [e], listing);
  }

  lemma {:induction false} ThirdValid(e: Name, x: Name, v: Name, listing: seq<Name>)
    requires Three(e, x, v) && Lists(listing, e, x, v)
    ensures Readable(EnvOf(Alone(e), {e}), DiffsOf(Site(e, x, v, false), Alone(e), [x, v]))
    ensures ValidChange(Made(Site(e, x, v, false), Alone(e), {e}, [x, v], listing), Site(e, x, v, false))
  {
    RemoveIsSound(e, x, v);
    TwoNames(x, v);
    MadeIsValid(Site(e, x, v, false), Alone(e), {e}, [x, v], listing);
  }

  lemma {:induction false} ThreeChanges(fixed: set<Name>, cs: seq<Change>)
    requires |cs| == 3 && cs[0].env.fixed == fixed && cs[1].env.fixed == fixed && cs[2].env.fixed == fixed
    requires ValidChange(cs[0], ConfigAt(cs, 0)) && ValidChange(cs[1], ConfigAt(cs, 1))
    requires ValidChange(cs[2], ConfigAt(cs, 2))
    ensures IsHistory(fixed, cs)
  {
    forall i | 0 <= i < |cs| ensures cs[i].env.fixed == fixed && ValidChange(cs[i], ConfigAt(cs, i)) {
      if i == 0 {
        assert cs[i] == cs[0];
      } else if i == 1 {
        assert cs[i] == cs[1];
      } else {
        assert i == 2 && cs[i] == cs[2];
      }
    }
  }

  /** The only VLAN is `v`, on `x`, and there is no veth. */
  ghost predicate OnlyVlan(c: Config, x: Name, v: Name) {
    && v in c && c[v].link.Vlan? && c[v].link.parent == x
    && forall y :: y in c ==> !c[y].link.Veth? && c[y].bridge == None && (c[y].link.Vlan? ==> y == v)
  }

  lemma {:induction false} OnlyVlanFits(prev: Change, c: Change, x: Name, v: Name)
    requires Readable(c.env, c.ds) && OnlyVlan(prev.env.now, x, v)
    ensures OthersFit(prev, c, x, v) && NoneMoves(prev.env.now, c.env.now)
    ensures Gone(c.env, c.ds) == {} ==> RemovalsFit(prev, c)
  {
    NoneSuits(prev.env.now, c.env.now, []);
  }

  lemma {:induction false} SecondWorks(fixed: set<Name>, cs: seq<Change>, x: Name, v: Name)
    requires IsHistory(fixed, cs) && |cs| == 3 && OnlyVlan(cs[0].env.now, x, v)
    requires Readable(cs[1].env, cs[1].ds) && Gone(cs[1].env, cs[1].ds) == {}
    ensures InStep(fixed, cs, 2)
  {
    FirstRemovesNothing(fixed, cs);
    TrackStep(fixed, cs, 0);
    FollowsIff(fixed, cs, 1);
    OnlyVlanFits(cs[0], cs[1], x, v);
    NoneSuits(cs[0].env.now, cs[1].env.now, SetupOrder(cs[1]));
  }

  lemma {:induction false} ThirdWorksIff(fixed: set<Name>, cs: seq<Change>, x: Name, v: Name)
    requires IsHistory(fixed, cs) && |cs| == 3 && InStep(fixed, cs, 2) && OnlyVlan(cs[1].env.now, x, v)
    requires Readable(cs[2].env, cs[2].ds) && Gone(cs[2].env, cs[2].ds) == {x, v} && v !in Names(cs[1].ds)
    ensures InStep(fixed, cs, 3) <==> Before(SetupOrder(cs[1]), x, v)
    ensures KernelAt(fixed, cs, 3) == None <==> Before(SetupOrder(cs[1]), v, x)
  {
    OnlyVlanFits(cs[1], cs[2], x, v);
    ForgottenOrderIff(fixed, cs, 2, x, v);
  }

  lemma {:induction false} SiteIsOnlyVlan(e: Name, x: Name, v: Name, up: bool)
    requires Three(e, x, v)
    ensures OnlyVlan(Site(e, x, v, up), x, v)
  {
  }

  lemma {:induction false} TouchGone(e: Name, x: Name, v: Name)
    requires Three(e, x, v)
    requires Readable(EnvOf(Site(e, x, v, false), {e}), DiffsOf(Site(e, x, v, true), Site(e, x, v, false), [e]))
    ensures Gone(EnvOf(Site(e, x, v, false), {e}), DiffsOf(Site(e, x, v, true), Site(e, x, v, false), [e])) == {}
  {
    BareNames(Site(e, x, v, true), Site(e, x, v, false), [e]);
  }

  lemma {:induction false} RemoveGone(e: Name, x: Name, v: Name)
    requires Three(e, x, v)
    requires Readable(EnvOf(Alone(e), {e}), DiffsOf(Site(e, x, v, false), Alone(e), [x, v]))
    ensures Gone(EnvOf(Alone(e), {e}), DiffsOf(Site(e, x, v, false), Alone(e), [x, v])) == {x, v}
  {
    RemoveNames(e, x, v);
    TwoNames(x, v);
    BareNames(Site(e, x, v, false), Alone(e), [x, v]);
    BareGone(Site(e, x, v, false), Alone(e), {e}, [x, v], x);
    BareGone(Site(e, x, v, false), Alone(e), {e}, [x, v], v);
  }

  lemma {:induction false} TouchSetup(e: Name, x: Name, v: Name, listing: seq<Name>)
    requires Three(e, x, v) && Lists(listing, e, x, v)
    requires Readable(EnvOf(Site(e, x, v, false), {e}), DiffsOf(Site(e, x, v, true), Site(e, x, v, false), [e]))
    ensures SetupOrder(Made(Site(e, x, v, true), Site(e, x, v, false), {e}, [e], listing)) == listing
  {
    var was, now := Site(e, x, v, true), Site(e, x, v, false);
    BareNames(was, now, [e]);
    forall n ensures DependenciesOf(EnvOf(now, {e}), DiffsOf(was, now, [e]), n) == [] {
      if n == e { FlatOne(EnvOf(now, {e}), DiffsOf(was, now, [e]), e); }
    }
    FlatMade(was, now, {e}, [e], listing);
  }

  /**
   Created together, a bridge and a VLAN on it can no longer be removed together once another
   interface alone was changed, if and only if that left the VLAN listed before the bridge.
   */
  lemma {:induction false} ForgottenHistory(e: Name, x: Name, v: Name, l0: seq<Name>, l1: seq<Name>, l2: seq<Name>)
    requires Three(e, x, v) && Lists(l0, e, x, v) && Lists(l1, e, x, v) && Lists(l2, e, x, v)
    ensures var cs := History(e, x, v, l0, l1, l2);
            && IsHistory({e}, cs) && InStep({e}, cs, 2)
            && (InStep({e}, cs, 3) <==> Before(l1, x, v)) && (KernelAt({e}, cs, 3) == None <==> Before(l1, v, x))
  {
    var cs := History(e, x, v, l0, l1, l2);
    FirstValid(e, x, v, l0);
    SecondValid(e, x, v, l1);
    ThirdValid(e, x, v, l2);
    ThreeChanges({e}, cs);
    SiteIsOnlyVlan(e, x, v, true);
    SiteIsOnlyVlan(e, x, v, false);
    TouchGone(e, x, v);
    SecondWorks({e}, cs, x, v);
    RemoveGone(e, x, v);
    TouchSetup(e, x, v, l1);
    BareNames(Site(e, x, v, true), Site(e, x, v, false), [e]);
    ThirdWorksIff({e}, cs, x, v);
  }
}
