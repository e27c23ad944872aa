/**
 Compiling a change of the addresses of one interface and address family into
 `address add` and `address delete` commands, against a kernel in which adding an
 address that is there, or deleting one that is not, is an error.
 */
module Addresses {
  import opened Options
  import opened Lyx

  datatype Fam = V4 | V6

  datatype Addr = Addr(fam: Fam, ip: string, pfx: string)

  /** The configuration of one family: prefix lengths by address, and the order they are listed in. */
  datatype Family = Family(enabled: bool, addrs: map<string, string>, listed: seq<string>) {
    ghost predicate Valid() {
      && (forall ip :: ip in addrs <==> ip in listed)
      && forall i, j :: 0 <= i < j < |listed| ==> listed[i] != listed[j]
    }
  }

  /** An entry of the address list in a diff. */
  datatype AddrDiff = AddrDiff(op: Option<string>, ip: Option<Leaf>, pfx: Option<Leaf>)

  /** The container of a family in a diff. */
  datatype FamDiff = FamDiff(op: Option<string>, enabled: Option<Leaf>, addrs: seq<AddrDiff>)

  datatype Cmd = Add(a: Addr) | Delete(a: Addr) | Replace(a: Addr)

  // ---------- the kernel's side ----------

  function Exec1(s: set<Addr>, c: Cmd): Option<set<Addr>> {
    match c
    case Add(a) => if a in s then None else Some(s + {a})
    case Delete(a) => if a in s then Some(s - {a}) else None
    case Replace(a) => Some(s + {a})
  }

  /** None when a command fails. */
  function Exec(s: set<Addr>, cs: seq<Cmd>): Option<set<Addr>> {
    if cs == [] then Some(s) else
      match Exec(s, cs[..|cs| - 1])
      case None => None
      case Some(t) => Exec1(t, cs[|cs| - 1])
  }

  lemma {:induction false} ExecConcat(s: set<Addr>, cs: seq<Cmd>, ds: seq<Cmd>)
    ensures Exec(s, cs + ds) == match Exec(s, cs) case None => None case Some(t) => Exec(t, ds)
  {
    if ds == [] {
      assert cs + ds == cs;
    } else {
      ExecConcat(s, cs, ds[..|ds| - 1]);
      assert (cs + ds)[..|cs + ds| - 1] == cs + ds[..|ds| - 1];
    }
  }

  function Flush(s: set<Addr>, fam: Fam): set<Addr> {
    set a | a in s && a.fam != fam
  }

  // ---------- the compiler ----------

  predicate IsStdLo(ifname: string, ip: string, pfx: string) {
    ifname == "lo" && ((ip == "127.0.0.1" && pfx == "8") || (ip == "::1" && pfx == "128"))
  }

  /** The commands for one list entry; None when the entry lacks its address or prefix length. */
  function GenDiffAddr(fam: Fam, ifname: string, d: AddrDiff, above: Chain): Option<seq<Cmd>> {
    var op := OpOf([d.op] + above);
    if d.ip == None || d.pfx == None then None else
    var adr, pfx := GetDiff(d.ip.value, [d.op] + above), GetDiff(d.pfx.value, [d.op] + above);
    var del := if op != OpCreate && adr.was.Some? && pfx.was.Some?
               then [Delete(Addr(fam, adr.was.value, pfx.was.value))] else [];
    if op == OpDelete || adr.now == None || pfx.now == None then Some(del) else
    var a := Addr(fam, adr.now.value, pfx.now.value);
    Some(del + [if op == OpCreate && IsStdLo(ifname, a.ip, a.pfx) then Replace(a) else Add(a)])
  }

  function GenDiffAddrs(fam: Fam, ifname: string, ds: seq<AddrDiff>, above: Chain): Option<seq<Cmd>> {
    if ds == [] then Some([]) else
      match (GenDiffAddrs(fam, ifname, ds[..|ds| - 1], above), GenDiffAddr(fam, ifname, ds[|ds| - 1], above))
      case (Some(cs), Some(more)) => Some(cs + more)
      case _ => None
  }

  function SetConfAddrs(fam: Fam, f: Family, k: nat): seq<Cmd>
    requires k <= |f.listed| && forall ip :: ip in f.listed ==> ip in f.addrs
  {
    if k == 0 then [] else SetConfAddrs(fam, f, k - 1) + [Add(Addr(fam, f.listed[k - 1], f.addrs[f.listed[k - 1]]))]
  }

  /** Whether the family is configured and enabled. */
  predicate Enabled(f: Option<Family>) {
    f.Some? && f.value.enabled
  }

  function EnabledOp(d: Option<FamDiff>, above: Chain): Op {
    if d.Some? && d.value.enabled.Some? then OpOf([d.value.enabled.value.op, d.value.op] + above) else OpNone
  }

  /** Addresses of an enabled family; a disabled one is flushed at once and gets no commands. */
  function GenIpAddrs(fam: Fam, ifname: string, conf: Option<Family>, d: Option<FamDiff>,
                      above: Chain): Option<seq<Cmd>>
    requires conf.Some? ==> forall ip :: ip in conf.value.listed ==> ip in conf.value.addrs
  {
    if !Enabled(conf) then Some([])
    else if EnabledOp(d, above) == OpReplace then Some(SetConfAddrs(fam, conf.value, |conf.value.listed|))
    else if d == None then Some([])
    else GenDiffAddrs(fam, ifname, d.value.addrs, [d.value.op] + above)
  }

  // ---------- what a diff says ----------

  function Get(m: map<string, string>, ip: string): Option<string> {
    if ip in m then Some(m[ip]) else None
  }

  /** The entry records how one address changes. */
  ghost predicate RecordsAddr(d: AddrDiff, above: Chain, was: map<string, string>, now: map<string, string>) {
    && d.ip.Some? && d.pfx.Some?
    && var ip := d.ip.value.val;
    && Records(d.ip.value, [d.op] + above, if ip in was then Some(ip) else None, if ip in now then Some(ip) else None)
    && Records(d.pfx.value, [d.op] + above, Get(was, ip), Get(now, ip))
    && (OpOf([d.op] + above) == OpCreate <==> ip !in was)
    && (OpOf([d.op] + above) == OpDelete <==> ip !in now)
  }

  /** The entries record changes of different addresses. */
  ghost predicate RecordsEach(ds: seq<AddrDiff>, above: Chain, was: map<string, string>, now: map<string, string>) {
    && (forall i :: 0 <= i < |ds| ==> RecordsAddr(ds[i], above, was, now))
    && forall i, j :: 0 <= i < j < |ds| ==> ds[i].ip.value.val != ds[j].ip.value.val
  }

  /** The entries record, each once, at least the addresses that differ. */
  ghost predicate RecordsAddrs(ds: seq<AddrDiff>, above: Chain, was: map<string, string>, now: map<string, string>) {
    && RecordsEach(ds, above, was, now)
    && forall ip :: Get(was, ip) != Get(now, ip) ==> exists i :: 0 <= i < |ds| && ds[i].ip.value.val == ip
  }

  ghost predicate RecordsFamily(d: Option<FamDiff>, above: Chain, was: Option<Family>, now: Option<Family>) {
    match (was, now)
    case (_, None) => true
    case (None, Some(f)) =>
      && d.Some? && EnabledOp(d, above) != OpReplace
      && RecordsAddrs(d.value.addrs, [d.value.op] + above, map[], f.addrs)
    case (Some(e), Some(f)) =>
      && (EnabledOp(d, above) == OpReplace <==> e.enabled != f.enabled)
      && (d == None ==> e.addrs == f.addrs)
      && (d.Some? ==> RecordsAddrs(d.value.addrs, [d.value.op] + above, e.addrs, f.addrs))
  }

  // ---------- the commands do what the diff says ----------

  function AddrsOf(fam: Fam, m: map<string, string>): set<Addr> {
    set ip | ip in m :: Addr(fam, ip, m[ip])
  }

  lemma {:induction false} AddrsOfMembers(fam: Fam, m: map<string, string>)
    ensures forall a :: a in AddrsOf(fam, m) <==> a.fam == fam && a.ip in m && m[a.ip] == a.pfx
  {
  }

  /** The addresses the kernel should have for a family. */
  function Target(fam: Fam, f: Option<Family>): set<Addr> {
    if Enabled(f) then AddrsOf(fam, f.value.addrs) else {}
  }

  function Put(m: map<string, string>, ip: string, pfx: Option<string>): map<string, string> {
    match pfx
    case None => m - {ip}
    case Some(p) => m[ip := p]
  }

  /** The old addresses with the recorded ones brought up to date. */
  function Updated(was: map<string, string>, now: map<string, string>, ds: seq<AddrDiff>): map<string, string>
    requires forall i :: 0 <= i < |ds| ==> ds[i].ip.Some?
  {
    if ds == [] then was else
      var ip := ds[|ds| - 1].ip.value.val;
      Put(Updated(was, now, ds[..|ds| - 1]), ip, Get(now, ip))
  }

  lemma {:induction false} UpdatedGet(was: map<string, string>, now: map<string, string>, ds: seq<AddrDiff>, ip: string)
    requires forall i :: 0 <= i < |ds| ==> ds[i].ip.Some?
    ensures Get(Updated(was, now, ds), ip) ==
            if exists i :: 0 <= i < |ds| && ds[i].ip.value.val == ip then Get(now, ip) else Get(was, ip)
  {
    if ds == [] {
    } else {
      var rest := ds[..|ds| - 1];
      UpdatedGet(was, now, rest, ip);
      if i :| 0 <= i < |rest| && rest[i].ip.value.val == ip { assert ds[i].ip.value.val == ip; }
      if i :| 0 <= i < |ds| && ds[i].ip.value.val == ip && i < |rest| { assert rest[i].ip.value.val == ip; }
    }
  }

  lemma {:induction false} SameGets(m: map<string, string>, n: map<string, string>)
    requires forall ip :: Get(m, ip) == Get(n, ip)
    ensures m == n
  {
    forall ip ensures ip in m <==> ip in n {
      assert Get(m, ip) == Get(n, ip);
    }
    forall ip | ip in m ensures m[ip] == n[ip] {
      assert Get(m, ip) == Get(n, ip);
    }
  }

  ghost predicate HasNone(s: set<Addr>, fam: Fam) {
    forall a :: a in s ==> a.fam != fam
  }

  lemma {:induction false} Exec1Is(s: set<Addr>, c: Cmd)
    ensures Exec(s, [c]) == Exec1(s, c)
  {
    assert [c][..0] == [] && Exec(s, []) == Some(s);
  }

  /** Adding an address that is not there. */
  lemma {:induction false} AddStep(fam: Fam, other: set<Addr>, m: map<string, string>, ip: string, pfx: string, c: Cmd)
    requires HasNone(other, fam) && ip !in m && c in {Add(Addr(fam, ip, pfx)), Replace(Addr(fam, ip, pfx))}
    ensures Exec(other + AddrsOf(fam, m), [c]) == Some(other + AddrsOf(fam, m[ip := pfx]))
  {
    Exec1Is(other + AddrsOf(fam, m), c);
    AddrsOfMembers(fam, m);
    AddrsOfMembers(fam, m[ip := pfx]);
    assert other + AddrsOf(fam, m[ip := pfx]) == other + AddrsOf(fam, m) + {Addr(fam, ip, pfx)};
  }

  /** Deleting an address that is there. */
  lemma {:induction false} DeleteStep(fam: Fam, other: set<Addr>, m: map<string, string>, ip: string)
    requires HasNone(other, fam) && ip in m
    ensures Exec(other + AddrsOf(fam, m), [Delete(Addr(fam, ip, m[ip]))]) == Some(other + AddrsOf(fam, m - {ip}))
  {
    Exec1Is(other + AddrsOf(fam, m), Delete(Addr(fam, ip, m[ip])));
    AddrsOfMembers(fam, m);
    AddrsOfMembers(fam, m - {ip});
    assert other + AddrsOf(fam, m - {ip}) == other + AddrsOf(fam, m) - {Addr(fam, ip, m[ip])};
  }

  /** The commands that take one address from one prefix length, or none, to another, or none. */
  function ChangeOf(fam: Fam, ifname: string, ip: string, was: Option<string>, now: Option<string>): seq<Cmd> {
    (if was.Some? then [Delete(Addr(fam, ip, was.value))] else []) +
    if now == None then []
    else if was == None && IsStdLo(ifname, ip, now.value) then [Replace(Addr(fam, ip, now.value))]
    else [Add(Addr(fam, ip, now.value))]
  }

  lemma {:induction false} EntryIsChange(fam: Fam, ifname: string, d: AddrDiff, above: Chain, was: map<string, string>,
                                         now: map<string, string>)
    requires RecordsAddr(d, above, was, now)
    ensures var ip := d.ip.value.val;
            GenDiffAddr(fam, ifname, d, above) == Some(ChangeOf(fam, ifname, ip, Get(was, ip), Get(now, ip)))
  {
    var ip := d.ip.value.val;
    RecordedIsRead(d.ip.value, [d.op] + above, if ip in was then Some(ip) else None,
                   if ip in now then Some(ip) else None);
    RecordedIsRead(d.pfx.value, [d.op] + above, Get(was, ip), Get(now, ip));
    var cs := GenDiffAddr(fam, ifname, d, above).value;
    assert ip !in now ==> cs == cs + [];
  }

  /** A change of one address does that and nothing else, and does not fail. */
  lemma {:induction false} ChangeStep(fam: Fam, ifname: string, other: set<Addr>, m: map<string, string>, ip: string,
                                      now: Option<string>)
    requires HasNone(other, fam) && (now.Some? || ip in m)
    ensures Exec(other + AddrsOf(fam, m), ChangeOf(fam, ifname, ip, Get(m, ip), now)) ==
            Some(other + AddrsOf(fam, Put(m, ip, now)))
  {
    var s, cs := other + AddrsOf(fam, m), ChangeOf(fam, ifname, ip, Get(m, ip), now);
    if ip in m {
      var del := Delete(Addr(fam, ip, m[ip]));
      DeleteStep(fam, other, m, ip);
      if now.Some? {
        var add := Add(Addr(fam, ip, now.value));
        assert cs == [del] + [add];
        ExecConcat(s, [del], [add]);
        AddStep(fam, other, m - {ip}, ip, now.value, add);
        assert (m - {ip})[ip := now.value] == m[ip := now.value];
      } else {
        assert cs == [del];
      }
    } else {
      assert |cs| == 1 && cs == [cs[0]];
      AddStep(fam, other, m, ip, now.value, cs[0]);
    }
  }

  lemma {:induction false} EntriesStep(fam: Fam, ifname: string, ds: seq<AddrDiff>, above: Chain, other: set<Addr>,
                                       was: map<string, string>, now: map<string, string>)
    requires RecordsEach(ds, above, was, now) && HasNone(other, fam)
    ensures GenDiffAddrs(fam, ifname, ds, above).Some?
    ensures Exec(other + AddrsOf(fam, was), GenDiffAddrs(fam, ifname, ds, above).value) ==
            Some(other + AddrsOf(fam, Updated(was, now, ds)))
  {
    if ds == [] {
    } else {
      var d, rest := ds[|ds| - 1], ds[..|ds| - 1];
      RecordsEachPrefix(ds, above, was, now);
      EntriesStep(fam, ifname, rest, above, other, was, now);
      EntryRuns(fam, ifname, d, above, other, Updated(was, now, rest), was, now);
      ExecConcat(other + AddrsOf(fam, was), GenDiffAddrs(fam, ifname, rest, above).value,
                 GenDiffAddr(fam, ifname, d, above).value);
    }
  }

  /** The last entry is about an address that the others leave alone. */
  lemma {:induction false} RecordsEachPrefix(ds: seq<AddrDiff>, above: Chain, was: map<string, string>,
                                             now: map<string, string>)
    requires RecordsEach(ds, above, was, now) && ds != []
    ensures RecordsEach(ds[..|ds| - 1], above, was, now) && RecordsAddr(ds[|ds| - 1], above, was, now)
    ensures var ip := ds[|ds| - 1].ip.value.val; Get(Updated(was, now, ds[..|ds| - 1]), ip) == Get(was, ip)
  {
    UpdatedGet(was, now, ds[..|ds| - 1], ds[|ds| - 1].ip.value.val);
  }

  lemma {:induction false} EntryRuns(fam: Fam, ifname: string, d: AddrDiff, above: Chain, other: set<Addr>,
                                     m: map<string, string>, was: map<string, string>, now: map<string, string>)
    requires RecordsAddr(d, above, was, now) && HasNone(other, fam)
    requires Get(m, d.ip.value.val) == Get(was, d.ip.value.val)
    ensures GenDiffAddr(fam, ifname, d, above).Some?
    ensures Exec(other + AddrsOf(fam, m), GenDiffAddr(fam, ifname, d, above).value) ==
            Some(other + AddrsOf(fam, Put(m, d.ip.value.val, Get(now, d.ip.value.val))))
  {
    EntryIsChange(fam, ifname, d, above, was, now);
    ChangeStep(fam, ifname, other, m, d.ip.value.val, Get(now, d.ip.value.val));
  }

  /** Any set of entries that records the differences turns the old addresses into the new ones. */
  lemma {:induction false} DiffAddrsCorrect(fam: Fam, ifname: string, ds: seq<AddrDiff>, above: Chain, other: set<Addr>,
                                            was: map<string, string>, now: map<string, string>)
    requires RecordsAddrs(ds, above, was, now) && HasNone(other, fam)
    ensures GenDiffAddrs(fam, ifname, ds, above).Some?
    ensures Exec(other + AddrsOf(fam, was), GenDiffAddrs(fam, ifname, ds, above).value) ==
            Some(other + AddrsOf(fam, now))
  {
    EntriesStep(fam, ifname, ds, above, other, was, now);
    forall ip ensures Get(Updated(was, now, ds), ip) == Get(now, ip) {
      UpdatedGet(was, now, ds, ip);
    }
    SameGets(Updated(was, now, ds), now);
  }

  function FirstOf(m: map<string, string>, ips: seq<string>): map<string, string> {
    map ip | ip in m && ip in ips :: m[ip]
  }

  lemma {:induction false} FirstOfStep(f: Family, k: nat)
    requires f.Valid() && 0 < k <= |f.listed|
    ensures f.listed[k - 1] in f.addrs && f.listed[k - 1] !in FirstOf(f.addrs, f.listed[..k - 1])
    ensures FirstOf(f.addrs, f.listed[..k]) ==
            FirstOf(f.addrs, f.listed[..k - 1])[f.listed[k - 1] := f.addrs[f.listed[k - 1]]]
  {
    assert f.listed[..k] == f.listed[..k - 1] + [f.listed[k - 1]];
  }

  lemma {:induction false} SetConfCorrect(fam: Fam, f: Family, k: nat, other: set<Addr>)
    requires f.Valid() && k <= |f.listed| && HasNone(other, fam)
    ensures Exec(other, SetConfAddrs(fam, f, k)) == Some(other + AddrsOf(fam, FirstOf(f.addrs, f.listed[..k])))
  {
    if k == 0 {
      assert FirstOf(f.addrs, f.listed[..0]) == map[];
      assert other + AddrsOf(fam, map[]) == other;
    } else {
      SetConfCorrect(fam, f, k - 1, other);
      SetConfStep(fam, f, k, other);
      ExecMore(other, SetConfAddrs(fam, f, k - 1), Add(Addr(fam, f.listed[k - 1], f.addrs[f.listed[k - 1]])),
               other + AddrsOf(fam, FirstOf(f.addrs, f.listed[..k - 1])),
               other + AddrsOf(fam, FirstOf(f.addrs, f.listed[..k])));
    }
  }

  lemma {:induction false} ExecMore(s: set<Addr>, cs: seq<Cmd>, c: Cmd, t: set<Addr>, u: set<Addr>)
    requires Exec(s, cs) == Some(t) && Exec(t, [c]) == Some(u)
    ensures Exec(s, cs + [c]) == Some(u)
  {
    ExecConcat(s, cs, [c]);
  }

  lemma {:induction false} SetConfStep(fam: Fam, f: Family, k: nat, other: set<Addr>)
    requires f.Valid() && 0 < k <= |f.listed| && HasNone(other, fam)
    ensures f.listed[k - 1] in f.addrs
    ensures Exec(other + AddrsOf(fam, FirstOf(f.addrs, f.listed[..k - 1])),
                 [Add(Addr(fam, f.listed[k - 1], f.addrs[f.listed[k - 1]]))]) ==
            Some(other + AddrsOf(fam, FirstOf(f.addrs, f.listed[..k])))
  {
    var ip := f.listed[k - 1];
    FirstOfStep(f, k);
    AddStep(fam, other, FirstOf(f.addrs, f.listed[..k - 1]), ip, f.addrs[ip], Add(Addr(fam, ip, f.addrs[ip])));
  }

  /**
   One committed change of one family.  Starting from the addresses of the old
   configuration, flushing a family that is not enabled and then running the commands
   succeeds, leaves exactly the addresses of the new configuration, and does not touch
   the other family.
   */
  lemma {:induction false} FamilyCorrect(fam: Fam, ifname: string, d: Option<FamDiff>, above: Chain, other: set<Addr>,
                                         was: Option<Family>, now: Option<Family>)
    requires RecordsFamily(d, above, was, now) && HasNone(other, fam)
    requires (was.Some? ==> was.value.Valid()) && (now.Some? ==> now.value.Valid())
    ensures GenIpAddrs(fam, ifname, now, d, above).Some?
    ensures Exec(if Enabled(now) then other + Target(fam, was) else Flush(other + Target(fam, was), fam),
                 GenIpAddrs(fam, ifname, now, d, above).value) ==
            Some(other + Target(fam, now))
  {
    if !Enabled(now) {
      assert Flush(other + Target(fam, was), fam) == other == other + {};
    } else if EnabledOp(d, above) == OpReplace {
      var f := now.value;
      SetConfCorrect(fam, f, |f.listed|, other);
      assert f.listed[..|f.listed|] == f.listed;
      assert FirstOf(f.addrs, f.listed) == f.addrs;
      assert other + {} == other;
    } else if d.Some? {
      var e := if was.Some? then was.value.addrs else map[];
      DiffAddrsCorrect(fam, ifname, d.value.addrs, [d.value.op] + above, other, e, now.value.addrs);
      assert AddrsOf(fam, map[]) == {};
    }
  }

  /**
   Creating an address that is there already fails, but for the standard addresses of the
   loopback interface, which the kernel adds on its own.
   */
  lemma {:induction false} AddressIsThere(fam: Fam, ifname: string, d: AddrDiff, above: Chain, s: set<Addr>,
                                          was: map<string, string>, now: map<string, string>)
    requires RecordsAddr(d, above, was, now) && d.ip.value.val !in was && d.ip.value.val in now
    requires Addr(fam, d.ip.value.val, now[d.ip.value.val]) in s
    ensures var ip := d.ip.value.val;
            var std := ifname == "lo" && ((ip == "127.0.0.1" && now[ip] == "8") || (ip == "::1" && now[ip] == "128"));
            && GenDiffAddr(fam, ifname, d, above).Some?
            && Exec(s, GenDiffAddr(fam, ifname, d, above).value) == if std then Some(s) else None
  {
    EntryIsChange(fam, ifname, d, above, was, now);
    var ip := d.ip.value.val;
    var cs := GenDiffAddr(fam, ifname, d, above).value;
    assert |cs| == 1 && cs == [cs[0]];
    Exec1Is(s, cs[0]);
    assert s + {Addr(fam, ip, now[ip])} == s;
  }

  // ---------- a family that is enabled again ----------

  /** The diff of a family of which only `enabled` changes, as the diff tree writes it. */
  function Reenabling(): FamDiff {
    FamDiff(None, Some(Leaf(Some("replace"), "true", Some("false"), false, false)), [])
  }

  /** Such a diff records the change, and brings back every address that is configured. */
  lemma {:induction false} ReenabledFamily(fam: Fam, ifname: string, f: Family, other: set<Addr>)
    requires f.Valid() && f.enabled && HasNone(other, fam)
    ensures RecordsFamily(Some(Reenabling()), [None, None], Some(f.(enabled := false)), Some(f))
    ensures GenIpAddrs(fam, ifname, Some(f), Some(Reenabling()), [None, None]).Some?
    ensures Exec(other, GenIpAddrs(fam, ifname, Some(f), Some(Reenabling()), [None, None]).value) ==
            Some(other + AddrsOf(fam, f.addrs))
  {
    var chain: Chain := [Some("replace"), None] + [None, None];
    assert chain[0] == Some("replace");
    OpIsFirst(chain);
    FamilyCorrect(fam, ifname, Some(Reenabling()), [None, None], other, Some(f.(enabled := false)), Some(f));
    assert other + {} == other;
  }
}
