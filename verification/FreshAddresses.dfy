/**
 Address commands made from a diff on a device that has lost its addresses: they give the
 configured ones exactly when there was nothing to lose.
 */
module FreshAddresses {
  import opened Options
  import opened Lyx
  import opened Addresses
  import I = Interfaces
  import S = InterfaceScripts

  ghost predicate NoneAbout(cs: seq<Cmd>, fam: Fam, ip: string) {
    forall i :: 0 <= i < |cs| ==> !(cs[i].a.fam == fam && cs[i].a.ip == ip)
  }

  ghost predicate Lacks(s: set<Addr>, fam: Fam, ip: string) {
    forall a :: a in s ==> !(a.fam == fam && a.ip == ip)
  }

  lemma {:induction false} ExecKeepsLacking(s: set<Addr>, cs: seq<Cmd>, fam: Fam, ip: string)
    requires Lacks(s, fam, ip) && NoneAbout(cs, fam, ip) && Exec(s, cs).Some?
    ensures Lacks(Exec(s, cs).value, fam, ip)
  {
    if cs == [] {
    } else {
      ExecKeepsLacking(s, cs[..|cs| - 1], fam, ip);
    }
  }

  lemma {:induction false} OtherEntries(fam: Fam, ifname: string, ds: seq<AddrDiff>, above: Chain,
                                        was: map<string, string>, now: map<string, string>, ip: string)
    requires RecordsEach(ds, above, was, now) && forall i :: 0 <= i < |ds| ==> ds[i].ip.value.val != ip
    ensures GenDiffAddrs(fam, ifname, ds, above).Some?
    ensures NoneAbout(GenDiffAddrs(fam, ifname, ds, above).value, fam, ip)
  {
    if ds == [] {
    } else {
      RecordsEachPrefix(ds, above, was, now);
      OtherEntries(fam, ifname, ds[..|ds| - 1], above, was, now, ip);
      OtherEntry(fam, ifname, ds[|ds| - 1], above, was, now, ip);
      NoneAboutBoth(GenDiffAddrs(fam, ifname, ds[..|ds| - 1], above).value,
                    GenDiffAddr(fam, ifname, ds[|ds| - 1], above).value, fam, ip);
    }
  }

  lemma {:induction false} OtherEntry(fam: Fam, ifname: string, d: AddrDiff, above: Chain, was: map<string, string>,
                                      now: map<string, string>, ip: string)
    requires RecordsAddr(d, above, was, now) && d.ip.value.val != ip
    ensures GenDiffAddr(fam, ifname, d, above).Some? && NoneAbout(GenDiffAddr(fam, ifname, d, above).value, fam, ip)
  {
    EntryIsChange(fam, ifname, d, above, was, now);
  }

  lemma {:induction false} NoneAboutBoth(cs: seq<Cmd>, ds: seq<Cmd>, fam: Fam, ip: string)
    requires NoneAbout(cs, fam, ip) && NoneAbout(ds, fam, ip)
    ensures NoneAbout(cs + ds, fam, ip)
  {
  }

  /** The entry of an address that was there deletes it first, which fails if it is not. */
  lemma {:induction false} EntryFails(fam: Fam, ifname: string, d: AddrDiff, above: Chain, s: set<Addr>,
                                      was: map<string, string>, now: map<string, string>)
    requires RecordsAddr(d, above, was, now) && d.ip.value.val in was && Lacks(s, fam, d.ip.value.val)
    ensures GenDiffAddr(fam, ifname, d, above).Some? && Exec(s, GenDiffAddr(fam, ifname, d, above).value) == None
  {
    var ip := d.ip.value.val;
    EntryIsChange(fam, ifname, d, above, was, now);
    var cs, del := GenDiffAddr(fam, ifname, d, above).value, [Delete(Addr(fam, ip, was[ip]))];
    assert cs == del + cs[1..];
    ExecConcat(s, del, cs[1..]);
    Exec1Is(s, del[0]);
  }

  lemma {:induction false} OldEntryFails(fam: Fam, ifname: string, ds: seq<AddrDiff>, i: nat, above: Chain,
                                         s: set<Addr>, was: map<string, string>, now: map<string, string>)
    requires RecordsEach(ds, above, was, now) && i < |ds| && ds[i].ip.value.val in was
    requires Lacks(s, fam, ds[i].ip.value.val)
    ensures GenDiffAddrs(fam, ifname, ds, above).Some?
    ensures Exec(s, GenDiffAddrs(fam, ifname, ds, above).value) == None
  {
    var d, rest := ds[|ds| - 1], ds[..|ds| - 1];
    RecordsEachPrefix(ds, above, was, now);
    if i < |rest| {
      EntryIsMade(fam, ifname, d, above, was, now);
      OldEntryFails(fam, ifname, rest, i, above, s, was, now);
      var cs := GenDiffAddrs(fam, ifname, rest, above).value;
      ExecConcat(s, cs, GenDiffAddr(fam, ifname, d, above).value);
    } else {
      OtherEntries(fam, ifname, rest, above, was, now, d.ip.value.val);
      LastEntryFails(fam, ifname, d, above, s, GenDiffAddrs(fam, ifname, rest, above).value, was, now);
    }
  }

  lemma {:induction false} EntryIsMade(fam: Fam, ifname: string, d: AddrDiff, above: Chain, was: map<string, string>,
                                       now: map<string, string>)
    requires RecordsAddr(d, above, was, now)
    ensures GenDiffAddr(fam, ifname, d, above).Some?
  {
    EntryIsChange(fam, ifname, d, above, was, now);
  }

  lemma {:induction false} LastEntryFails(fam: Fam, ifname: string, d: AddrDiff, above: Chain, s: set<Addr>,
                                          cs: seq<Cmd>, was: map<string, string>, now: map<string, string>)
    requires RecordsAddr(d, above, was, now) && d.ip.value.val in was && Lacks(s, fam, d.ip.value.val)
    requires NoneAbout(cs, fam, d.ip.value.val)
    ensures GenDiffAddr(fam, ifname, d, above).Some?
    ensures Exec(s, cs + GenDiffAddr(fam, ifname, d, above).value) == None
  {
    EntryIsChange(fam, ifname, d, above, was, now);
    if Exec(s, cs).Some? {
      ExecKeepsLacking(s, cs, fam, d.ip.value.val);
      EntryFails(fam, ifname, d, above, Exec(s, cs).value, was, now);
    }
    ExecConcat(s, cs, GenDiffAddr(fam, ifname, d, above).value);
  }

  /** Of a family that stays enabled, the commands give the configured addresses only if it had none. */
  lemma {:induction false} NothingToKeep(fam: Fam, ifname: string, d: Option<FamDiff>, above: Chain, s: set<Addr>,
                                         r: set<Addr>, was: Family, now: Family)
    requires RecordsFamily(d, above, Some(was), Some(now)) && was.enabled && now.enabled && now.Valid()
    requires HasNone(s, fam)
    requires GenIpAddrs(fam, ifname, Some(now), d, above).Some?
    requires Exec(s, GenIpAddrs(fam, ifname, Some(now), d, above).value) == Some(r)
    requires forall a: Addr :: a.fam == fam ==> (a in r <==> a in AddrsOf(fam, now.addrs))
    ensures AddrsOf(fam, was.addrs) == {}
  {
    AddrsOfMembers(fam, now.addrs);
    if d == None {
      assert Exec(s, []) == Some(s);
      assert forall ip :: ip in was.addrs ==> Addr(fam, ip, now.addrs[ip]) in r;
    } else {
      forall ip ensures ip !in was.addrs {
        HadNot(fam, ifname, d.value.addrs, [d.value.op] + above, s, r, was.addrs, now.addrs, ip);
      }
    }
  }

  lemma {:induction false} HadNot(fam: Fam, ifname: string, ds: seq<AddrDiff>, above: Chain, s: set<Addr>, r: set<Addr>,
                                  was: map<string, string>, now: map<string, string>, ip: string)
    requires RecordsAddrs(ds, above, was, now) && HasNone(s, fam)
    requires GenDiffAddrs(fam, ifname, ds, above).Some?
    requires Exec(s, GenDiffAddrs(fam, ifname, ds, above).value) == Some(r)
    requires forall a: Addr :: a.fam == fam ==> (a in r <==> a in AddrsOf(fam, now))
    ensures ip !in was
  {
    AddrsOfMembers(fam, now);
    assert ip in now ==> Addr(fam, ip, now[ip]) in r;
    if i :| 0 <= i < |ds| && ds[i].ip.value.val == ip {
      if ip in was { OldEntryFails(fam, ifname, ds, i, above, s, was, now); }
    } else {
      OtherEntries(fam, ifname, ds, above, was, now, ip);
      ExecKeepsLacking(s, GenDiffAddrs(fam, ifname, ds, above).value, fam, ip);
      assert Get(was, ip) == Get(now, ip);
    }
  }

  // ---------- both families of an interface ----------

  ghost predicate OfFamily(cs: seq<Cmd>, fam: Fam) {
    forall i :: 0 <= i < |cs| ==> cs[i].a.fam == fam
  }

  /** Commands of one family leave the other alone. */
  lemma {:induction false} ExecOtherFamily(s: set<Addr>, cs: seq<Cmd>, fam: Fam, a: Addr)
    requires OfFamily(cs, fam) && a.fam != fam && Exec(s, cs).Some?
    ensures a in Exec(s, cs).value <==> a in s
  {
    if cs == [] {
    } else {
      ExecOtherFamily(s, cs[..|cs| - 1], fam, a);
    }
  }

  lemma {:induction false} DiffAddrsOfFamily(fam: Fam, ifname: string, ds: seq<AddrDiff>, above: Chain)
    requires GenDiffAddrs(fam, ifname, ds, above).Some?
    ensures OfFamily(GenDiffAddrs(fam, ifname, ds, above).value, fam)
  {
    if ds == [] {
    } else {
      DiffAddrsOfFamily(fam, ifname, ds[..|ds| - 1], above);
    }
  }

  lemma {:induction false} SetConfOfFamily(fam: Fam, f: Family, k: nat)
    requires k <= |f.listed| && forall ip :: ip in f.listed ==> ip in f.addrs
    ensures OfFamily(SetConfAddrs(fam, f, k), fam)
  {
    if k == 0 {
    } else {
      SetConfOfFamily(fam, f, k - 1);
    }
  }

  lemma {:induction false} CmdsOfFamily(fam: Fam, ifname: string, conf: Option<Family>, d: Option<FamDiff>,
                                        above: Chain)
    requires conf.Some? ==> forall ip :: ip in conf.value.listed ==> ip in conf.value.addrs
    requires GenIpAddrs(fam, ifname, conf, d, above).Some?
    ensures OfFamily(GenIpAddrs(fam, ifname, conf, d, above).value, fam)
  {
    if Enabled(conf) { SetConfOfFamily(fam, conf.value, |conf.value.listed|); }
    if d.Some? && GenDiffAddrs(fam, ifname, d.value.addrs, [d.value.op] + above).Some? {
      DiffAddrsOfFamily(fam, ifname, d.value.addrs, [d.value.op] + above);
    }
  }

  /** The commands of a modified interface, run without its old addresses, give the new ones only if none were kept. */
  lemma {:induction false} FreshIface(env: I.Env, d: I.IfDiff, was: I.Iface, v4: seq<Cmd>, v6: seq<Cmd>)
    requires d.name in env.now && I.RecordsIface(env, d, Some(was), Some(env.now[d.name])) && !I.Recreates(env, d)
    requires S.ValidIface(Some(was)) && S.ValidIface(Some(env.now[d.name]))
    requires I.ValidFamily(env.now[d.name].Fam(V4)) && I.ValidFamily(env.now[d.name].Fam(V6))
    requires I.FamCmds(env, d, V4) == Some(v4) && I.FamCmds(env, d, V6) == Some(v6)
    requires Exec({}, v4 + v6) == Some(I.AddrsOf(Some(env.now[d.name])))
    ensures forall fam :: Enabled(env.now[d.name].Fam(fam)) ==> Target(fam, was.Fam(fam)) == {}
  {
    var now, r := env.now[d.name], I.AddrsOf(Some(env.now[d.name]));
    ExecConcat({}, v4, v6);
    var s := Exec({}, v4).value;
    CmdsOfFamily(V4, d.name, now.Fam(V4), d.Fam(V4), [d.op, env.root]);
    CmdsOfFamily(V6, d.name, now.Fam(V6), d.Fam(V6), [d.op, env.root]);
    S.TargetFam(V4, now.v4);
    S.TargetFam(V6, now.v6);
    forall a: Addr ensures (a.fam == V4 ==> (a in s <==> a in Target(V4, now.v4))) && (a.fam == V6 ==> a !in s) {
      if a.fam == V4 { ExecOtherFamily(s, v6, V6, a); } else { ExecOtherFamily({}, v4, V4, a); }
    }
    FreshFamily(env, d, was, V4, {}, s);
    FreshFamily(env, d, was, V6, s, r);
  }

  lemma {:induction false} FreshFamily(env: I.Env, d: I.IfDiff, was: I.Iface, fam: Fam, s: set<Addr>, r: set<Addr>)
    requires d.name in env.now && I.RecordsIface(env, d, Some(was), Some(env.now[d.name])) && !I.Recreates(env, d)
    requires S.ValidIface(Some(env.now[d.name])) && I.ValidFamily(env.now[d.name].Fam(fam)) && HasNone(s, fam)
    requires I.FamCmds(env, d, fam).Some? && Exec(s, I.FamCmds(env, d, fam).value) == Some(r)
    requires forall a: Addr :: a.fam == fam ==> (a in r <==> a in Target(fam, env.now[d.name].Fam(fam)))
    ensures Enabled(env.now[d.name].Fam(fam)) ==> Target(fam, was.Fam(fam)) == {}
  {
    var now := env.now[d.name].Fam(fam);
    assert RecordsFamily(d.Fam(fam), [d.op, env.root], I.FamOf(Some(was), fam), I.FamOf(Some(env.now[d.name]), fam));
    if Enabled(now) && Enabled(was.Fam(fam)) {
      NothingToKeep(fam, d.name, d.Fam(fam), [d.op, env.root], s, r, was.Fam(fam).value, now.value);
    }
  }
}
