/**
 Which devices are up after a committed change that runs through, from whatever kernel it
 starts and whether or not it reaches the new configuration.
 */
module AdminState {
  import opened DepOrder
  import opened Options
  import opened Kernel
  import opened Interfaces
  import opened Netdag
  import opened Commit
  import opened CommitRun
  import opened CommitFailures
  import opened CommitTheorems
  import A = Addresses

  // ---------- what commands leave as it is ----------

  /** The command takes `y` up or down. */
  predicate Switches(c: Cmd, y: Name) {
    (c.SetUp? || c.SetDown?) && c.name == y
  }

  ghost predicate NoneSwitches(cs: seq<Cmd>, y: Name) {
    forall i :: 0 <= i < |cs| ==> !Switches(cs[i], y)
  }

  ghost predicate SameAdmin(a: Dev, b: Dev) {
    a.up == b.up && a.master == b.master
  }

  lemma {:induction false} ExecKeepsAdmin(k: State, cs: seq<Cmd>, y: Name)
    requires y in k && NoneSwitches(cs, y) && NoneDeletes(cs) && Exec(k, cs).Some?
    ensures y in Exec(k, cs).value && SameAdmin(Exec(k, cs).value[y], k[y])
  {
    if cs == [] {
    } else {
      ExecKeepsAdmin(k, cs[..|cs| - 1], y);
    }
  }

  lemma {:induction false} RunKeepsAdmin(k: State, order: seq<Name>, scripts: map<Name, seq<Cmd>>, y: Name)
    requires y in k && RunScripts(k, order, scripts).Some?
    requires forall i :: 0 <= i < |order| && order[i] in scripts ==>
               NoneSwitches(scripts[order[i]], y) && NoneDeletes(scripts[order[i]])
    ensures y in RunScripts(k, order, scripts).value && SameAdmin(RunScripts(k, order, scripts).value[y], k[y])
  {
    if order == [] {
    } else {
      var n, rest := order[|order| - 1], order[..|order| - 1];
      RunKeepsAdmin(k, rest, scripts, y);
      if n in scripts {
        assert order[|order| - 1] == n;
        ExecKeepsAdmin(RunScripts(k, rest, scripts).value, scripts[n], y);
      }
    }
  }

  lemma {:induction false} ExecKeepsUp(k: State, cs: seq<Cmd>, y: Name)
    requires NoneSwitches(cs, y) && NoneCreates(cs, y) && Exec(k, cs).Some?
    ensures y in Exec(k, cs).value ==> y in k && Exec(k, cs).value[y].up == k[y].up
  {
    if cs == [] {
    } else {
      ExecKeepsUp(k, cs[..|cs| - 1], y);
    }
  }

  lemma {:induction false} RunKeepsUp(k: State, order: seq<Name>, scripts: map<Name, seq<Cmd>>, y: Name)
    requires RunScripts(k, order, scripts).Some?
    requires forall i :: 0 <= i < |order| && order[i] in scripts ==>
               NoneSwitches(scripts[order[i]], y) && NoneCreates(scripts[order[i]], y)
    ensures var r := RunScripts(k, order, scripts).value; y in r ==> y in k && r[y].up == k[y].up
  {
    if order == [] {
    } else {
      var n, rest := order[|order| - 1], order[..|order| - 1];
      RunKeepsUp(k, rest, scripts, y);
      if n in scripts {
        assert order[|order| - 1] == n;
        ExecKeepsUp(RunScripts(k, rest, scripts).value, scripts[n], y);
      }
    }
  }

  lemma {:induction false} FlushesKeepUp(k: State, fs: seq<(Name, A.Fam)>)
    ensures FlushEach(k, fs).Keys == k.Keys
    ensures forall n :: n in k ==> SameAdmin(FlushEach(k, fs)[n], k[n])
  {
    if fs == [] {
    } else {
      FlushesKeepUp(k, fs[..|fs| - 1]);
    }
  }

  // ---------- scripts ----------

  /** A script that ends by taking `n` down, perhaps doing something else to it, and perhaps taking it up. */
  lemma {:induction false} DownThenUp(k: State, n: Name, master: Option<Name>, cs: seq<Cmd>, up: bool)
    requires NoneSwitches(cs, n) && NoneDeletes(cs)
    requires Exec(k, [SetDown(n, master)] + (cs + if up then [SetUp(n)] else [])).Some?
    ensures var r := Exec(k, [SetDown(n, master)] + (cs + if up then [SetUp(n)] else [])).value;
            n in r && r[n].up == up && (master.Some? ==> r[n].master == master)
  {
    var last := if up then [SetUp(n)] else [];
    AfterDown(k, n, master, cs + last);
    var l := k[n := k[n].Down(master)];
    BeforeUp(l, n, cs, last);
    ExecKeepsAdmin(l, cs, n);
    ExecConcat(l, cs, last);
    Exec1Is(Exec(l, cs).value, SetUp(n));
  }

  lemma {:induction false} MiddleSwitchesNone(env: Env, d: IfDiff, v4: seq<A.Cmd>, v6: seq<A.Cmd>)
    requires d.name in env.now && SetPart(env, d) in {[], [SetBridge(d.name)]}
    ensures var cs := SetPart(env, d) + OnDev(d.name, v4) + OnDev(d.name, v6);
            NoneSwitches(cs, d.name) && NoneDeletes(cs)
  {
    var cs := SetPart(env, d) + OnDev(d.name, v4) + OnDev(d.name, v6);
    forall i | 0 <= i < |cs| ensures !Switches(cs[i], d.name) && !cs[i].DelLink? {
      assert cs[i] in SetPart(env, d) || cs[i] in OnDev(d.name, v4) || cs[i] in OnDev(d.name, v6);
    }
  }

  lemma {:induction false} ConfigureSwitches(env: Env, d: IfDiff, k: State, v4: seq<A.Cmd>, v6: seq<A.Cmd>)
    requires d.name in env.now && SetPart(env, d) in {[], [SetBridge(d.name)]}
    requires Exec(k, ConfigurePart(env, d, v4, v6)).Some?
    ensures var r := Exec(k, ConfigurePart(env, d, v4, v6)).value;
            && d.name in r && r[d.name].up == env.now[d.name].up
            && (env.now[d.name].bridge.Some? ==> r[d.name].master == env.now[d.name].bridge)
  {
    var n := d.name;
    var cs := SetPart(env, d) + OnDev(n, v4) + OnDev(n, v6);
    var last := if env.now[n].up then [SetUp(n)] else [];
    MiddleSwitchesNone(env, d, v4, v6);
    assert [SetDown(n, env.now[n].bridge)] + SetPart(env, d) + OnDev(n, v4) + OnDev(n, v6) + last ==
           [SetDown(n, env.now[n].bridge)] + (cs + last);
    DownThenUp(k, n, env.now[n].bridge, cs, env.now[n].up);
  }

  /** The init script of an interface leaves it as it is enabled, and a port of its bridge. */
  lemma {:induction false} InitSwitches(env: Env, ds: seq<IfDiff>, was: Config, out: Output, k: State, n: Name)
    requires Known(env, ds, was, out) && n in out.init && Exec(k, out.init[n]).Some?
    ensures n in env.now
    ensures var r := Exec(k, out.init[n]).value;
            && n in r && r[n].up == env.now[n].up
            && (env.now[n].bridge.Some? ==> r[n].master == env.now[n].bridge)
  {
    InitIs(env, ds, was, out, n);
    var d := ds[At(ds, n)];
    var v4, v6 := FamCmds(env, d, A.V4).value, FamCmds(env, d, A.V6).value;
    var add := AddPart(env, d, SkippedAt(env, ds, At(ds, n)));
    ExecConcat(k, add, ConfigurePart(env, d, v4, v6));
    ConfigureSwitches(env, d, Exec(k, add).value, v4, v6);
  }

  lemma {:induction false} ConfigureSwitchesOnly(env: Env, d: IfDiff, v4: seq<A.Cmd>, v6: seq<A.Cmd>, y: Name)
    requires d.name in env.now && SetPart(env, d) in {[], [SetBridge(d.name)]} && y != d.name
    ensures NoneSwitches(ConfigurePart(env, d, v4, v6), y)
  {
    ConfigureTouchesOnly(env, d, v4, v6, y);
  }

  lemma {:induction false} InitSwitchesOnly(env: Env, ds: seq<IfDiff>, was: Config, out: Output, m: Name, y: Name)
    requires Known(env, ds, was, out) && m in out.init && m != y
    ensures NoneSwitches(out.init[m], y) && NoneDeletes(out.init[m])
  {
    InitLeavesAlone(env, ds, was, out, m, y);
    InitIs(env, ds, was, out, m);
    var d := ds[At(ds, m)];
    ConfigureSwitchesOnly(env, d, FamCmds(env, d, A.V4).value, FamCmds(env, d, A.V6).value, y);
  }

  /** Exit scripts switch and create no other device. */
  lemma {:induction false} ExitSwitchesOnly(env: Env, ds: seq<IfDiff>, was: Config, out: Output, m: Name, y: Name)
    requires Known(env, ds, was, out) && m in out.exit
    ensures m in Names(ds) && NoneCreates(out.exit[m], y) && (m != y ==> NoneSwitches(out.exit[m], y))
  {
    assert Facts(env, ds, was, out, m);
  }

  // ---------- a committed change ----------

  /** A change that runs through from `k` to `r`. */
  ghost predicate Runs(env: Env, ds: seq<IfDiff>, was: Config, out: Output, ex: seq<Name>, listing: seq<Name>,
                       k: State, r: State)
  {
    && Known(env, ds, was, out) && Acyclic(out.deps) && (forall n :: n in out.deps ==> n in listing)
    && NoDup(ex) && Covers(was, ex) && Committed(env, out, k, ex, listing) == Some(r)
  }

  /** An interface of the diff that stays ends up as it is enabled, and a port of its bridge. */
  lemma {:induction false} ChangedIsSwitched(env: Env, ds: seq<IfDiff>, was: Config, out: Output, ex: seq<Name>,
                                             listing: seq<Name>, k: State, r: State, n: Name)
    requires Runs(env, ds, was, out, ex, listing, k, r) && n in Names(ds) && n in env.now
    ensures n in r && r[n].up == env.now[n].up
    ensures env.now[n].bridge.Some? ==> r[n].master == env.now[n].bridge
  {
    assert Facts(env, ds, was, out, n);
    var order := Order(out.deps, listing);
    OrderIsTopological(out.deps, listing);
    var l := RunScripts(FlushEach(k, out.flushes), ex, out.exit).value;
    var j :| 0 <= j < |order| && order[j] == n;
    var a, b := RunPasses(l, order, out.init, j);
    InitSwitches(env, ds, was, out, a, n);
    InitsKeepAdmin(env, ds, was, out, order[j + 1..], b, n);
  }

  lemma {:induction false} InitsKeepAdmin(env: Env, ds: seq<IfDiff>, was: Config, out: Output, order: seq<Name>,
                                          b: State, n: Name)
    requires Known(env, ds, was, out) && n in b && n !in order && RunScripts(b, order, out.init).Some?
    ensures n in RunScripts(b, order, out.init).value && SameAdmin(RunScripts(b, order, out.init).value[n], b[n])
  {
    forall i | 0 <= i < |order| && order[i] in out.init
      ensures NoneSwitches(out.init[order[i]], n) && NoneDeletes(out.init[order[i]])
    {
      InitSwitchesOnly(env, ds, was, out, order[i], n);
    }
    RunKeepsAdmin(b, order, out.init, n);
  }

  /** Nothing makes a device that is not in the diff, or fixed. */
  lemma {:induction false} NotMade(env: Env, ds: seq<IfDiff>, was: Config, out: Output, m: Name, n: Name)
    requires Known(env, ds, was, out) && (n !in Names(ds) || n in env.fixed)
    ensures !Maker(env, ds, m, n)
  {
    assert Facts(env, ds, was, out, m) && Paired(env, ds, was, m);
  }

  lemma {:induction false} InitsKeepUp(env: Env, ds: seq<IfDiff>, was: Config, out: Output, order: seq<Name>, l: State,
                                       n: Name)
    requires Known(env, ds, was, out) && RunScripts(l, order, out.init).Some?
    requires n !in out.init && (n !in Names(ds) || n in env.fixed)
    ensures var r := RunScripts(l, order, out.init).value; n in r ==> n in l && r[n].up == l[n].up
  {
    forall i | 0 <= i < |order| && order[i] in out.init
      ensures NoneSwitches(out.init[order[i]], n) && NoneCreates(out.init[order[i]], n)
    {
      InitSwitchesOnly(env, ds, was, out, order[i], n);
      NotMade(env, ds, was, out, order[i], n);
      InitLeavesAlone(env, ds, was, out, order[i], n);
    }
    RunKeepsUp(l, order, out.init, n);
  }

  lemma {:induction false} ExitsKeepUp(env: Env, ds: seq<IfDiff>, was: Config, out: Output, ex: seq<Name>, k: State,
                                       n: Name)
    requires Known(env, ds, was, out) && RunScripts(k, ex, out.exit).Some? && (n !in out.exit || n !in ex)
    ensures var l := RunScripts(k, ex, out.exit).value; n in l ==> n in k && l[n].up == k[n].up
  {
    forall i | 0 <= i < |ex| && ex[i] in out.exit
      ensures NoneSwitches(out.exit[ex[i]], n) && NoneCreates(out.exit[ex[i]], n)
    {
      ExitSwitchesOnly(env, ds, was, out, ex[i], n);
    }
    RunKeepsUp(k, ex, out.exit, n);
  }

  /** A device that is not in the diff stays as it was. */
  lemma {:induction false} OtherIsKept(env: Env, ds: seq<IfDiff>, was: Config, out: Output, ex: seq<Name>,
                                       listing: seq<Name>, k: State, r: State, n: Name)
    requires Runs(env, ds, was, out, ex, listing, k, r) && n !in Names(ds) && n in r
    ensures n in k && r[n].up == k[n].up
  {
    assert Facts(env, ds, was, out, n);
    var m := FlushEach(k, out.flushes);
    FlushesKeepUp(k, out.flushes);
    ExitsKeepUp(env, ds, was, out, ex, m, n);
    InitsKeepUp(env, ds, was, out, Order(out.deps, listing), RunScripts(m, ex, out.exit).value, n);
  }

  /** A fixed device that leaves the configuration is taken down. */
  lemma {:induction false} RemovedIsDown(env: Env, ds: seq<IfDiff>, was: Config, out: Output, ex: seq<Name>,
                                         listing: seq<Name>, k: State, r: State, n: Name)
    requires Runs(env, ds, was, out, ex, listing, k, r) && n in Names(ds) && n !in env.now && n in env.fixed && n in r
    ensures !r[n].up
  {
    assert Facts(env, ds, was, out, n);
    var m := FlushEach(k, out.flushes);
    var j :| 0 <= j < |ex| && ex[j] == n;
    var a, b := RunPasses(m, ex, out.exit, j);
    ExecConcat(a, [SetDown(n, None)], [FlushAll(n)]);
    Exec1Is(a, SetDown(n, None));
    DownAndFlush(a, n);
    ExitsKeepUp(env, ds, was, out, ex[j + 1..], b, n);
    InitsKeepUp(env, ds, was, out, Order(out.deps, listing), RunScripts(m, ex, out.exit).value, n);
  }

  // ---------- over histories ----------

  /** Every device that is configured, or fixed, is up exactly if its configuration enables it. */
  ghost predicate UpAs(k: State, c: Config, fixed: set<Name>) {
    forall n :: n in k && (n in c || n in fixed) ==> k[n].up == UpOf(Lookup(c, n))
  }

  lemma {:induction false} ChangeKeepsUp(env: Env, ds: seq<IfDiff>, was: Config, out: Output, ex: seq<Name>,
                                         listing: seq<Name>, k: State, r: State)
    requires Runs(env, ds, was, out, ex, listing, k, r) && UpAs(k, was, env.fixed)
    ensures UpAs(r, env.now, env.fixed)
  {
    forall n | n in r && (n in env.now || n in env.fixed) ensures r[n].up == UpOf(Lookup(env.now, n)) {
      assert Facts(env, ds, was, out, n);
      if n !in Names(ds) {
        OtherIsKept(env, ds, was, out, ex, listing, k, r, n);
      } else if n in env.now {
        ChangedIsSwitched(env, ds, was, out, ex, listing, k, r, n);
      } else {
        RemovedIsDown(env, ds, was, out, ex, listing, k, r, n);
      }
    }
  }

  ghost predicate UpAt(fixed: set<Name>, cs: seq<Change>, i: nat)
    requires i <= |cs|
  {
    KernelAt(fixed, cs, i).Some? ==> UpAs(KernelAt(fixed, cs, i).value, ConfigAt(cs, i), fixed)
  }

  lemma {:induction false} StartsDown(fixed: set<Name>, cs: seq<Change>)
    ensures UpAt(fixed, cs, 0)
  {
  }

  lemma {:induction false} ChangeStep(c: Change, was: Config, ex: seq<Name>, k: State)
    requires ValidChange(c, was) && Acyclic(c.out.deps) && NoDup(ex) && Covers(was, ex)
    requires UpAs(k, was, c.env.fixed) && KernelAfter(c, k, ex).Some?
    ensures UpAs(KernelAfter(c, k, ex).value, c.env.now, c.env.fixed)
  {
    AllKnown(c.env, c.ds, was, c.out);
    ChangeKeepsUp(c.env, c.ds, was, c.out, ex, c.listing, k, KernelAfter(c, k, ex).value);
  }

  lemma {:induction false} UpStep(fixed: set<Name>, cs: seq<Change>, i: nat)
    requires IsHistory(fixed, cs) && i < |cs| && UpAt(fixed, cs, i)
    ensures UpAt(fixed, cs, i + 1)
  {
    if KernelAt(fixed, cs, i + 1).Some? {
      HistoryAt(fixed, cs, i);
      ExitOrderCovers(fixed, cs, i);
      ChangeStep(cs[i], ConfigAt(cs, i), ExitOrder(cs, i), KernelAt(fixed, cs, i).value);
    }
  }

  lemma {:induction false} StaysUp(fixed: set<Name>, cs: seq<Change>, i: nat)
    requires i <= |cs| && UpAt(fixed, cs, 0)
    requires forall j :: 0 <= j < i && UpAt(fixed, cs, j) ==> UpAt(fixed, cs, j + 1)
    ensures UpAt(fixed, cs, i)
  {
    if i == 0 {
    } else {
      StaysUp(fixed, cs, i - 1);
      assert UpAt(fixed, cs, i - 1 + 1);
    }
  }

  /**
   Over every history of committed changes, as long as their commands succeed, in step with
   the configuration or not, every device that is there is up exactly if it is enabled.
   */
  lemma {:induction false} UpTracksConfig(fixed: set<Name>, cs: seq<Change>, i: nat)
    requires IsHistory(fixed, cs) && i <= |cs|
    ensures UpAt(fixed, cs, i)
  {
    StartsDown(fixed, cs);
    forall j | 0 <= j < i && UpAt(fixed, cs, j) ensures UpAt(fixed, cs, j + 1) {
      UpStep(fixed, cs, j);
    }
    StaysUp(fixed, cs, i);
  }
}
