/**
 Parsing the list of network interfaces on the command line of the PROFINET
 application: one name, or the management interface followed by at least two ports.
 */
module NetifNames {
  /** The text between commas; there is always at least one field. */
  function Fields(s: string): (fs: seq<string>)
    ensures |fs| >= 1
  {
    if s == "" then [""] else
      var fs, c := Fields(s[..|s| - 1]), s[|s| - 1];
      if c == ',' then fs + [""] else fs[|fs| - 1 := fs[|fs| - 1] + [c]]
  }

  function Join(names: seq<string>): string
    requires |names| >= 1
  {
    if |names| == 1 then names[0] else Join(names[..|names| - 1]) + "," + names[|names| - 1]
  }

  /** Text without commas only makes the last field longer. */
  lemma {:induction false} FieldsAppend(s: string, t: string)
    requires ',' !in t
    ensures Fields(s + t) == Fields(s)[|Fields(s)| - 1 := Fields(s)[|Fields(s)| - 1] + t]
  {
    var fs := Fields(s);
    if t == "" {
      assert s + t == s && fs[|fs| - 1] + t == fs[|fs| - 1];
    } else {
      var u, c := t[..|t| - 1], t[|t| - 1];
      FieldsAppend(s, u);
      assert (s + t)[..|s + t| - 1] == s + u && t == u + [c];
      assert fs[|fs| - 1] + t == (fs[|fs| - 1] + u) + [c];
    }
  }

  lemma {:induction false} FieldsComma(s: string)
    ensures Fields(s + ",") == Fields(s) + [""]
  {
    assert (s + ",")[..|s + ","| - 1] == s;
  }

  lemma {:induction false} LastField(fs: seq<string>, last: string)
    ensures (fs + [""])[|fs| := "" + last] == fs + [last]
  {
    assert "" + last == last;
  }

  /** Parsing undoes joining. */
  lemma {:induction false} FieldsOfJoin(names: seq<string>)
    requires |names| >= 1 && forall i :: 0 <= i < |names| ==> ',' !in names[i]
    ensures Fields(Join(names)) == names
  {
    if |names| == 1 {
      FieldsAppend("", names[0]);
      LastField([], names[0]);
      assert "" + names[0] == names[0] && [] + [names[0]] == names && [] + [""] == [""];
    } else {
      var rest, last := names[..|names| - 1], names[|names| - 1];
      FieldsOfJoin(rest);
      FieldsComma(Join(rest));
      FieldsAppend(Join(rest) + ",", last);
      LastField(rest, last);
      assert names == rest + [last];
    }
  }

  /** A list is accepted if it names one interface, or three up to one more than there are ports, none empty. */
  predicate Acceptable(fields: seq<string>, maxPort: nat) {
    && maxPort > 0
    && (|fields| == 1 || 3 <= |fields| <= maxPort + 1)
    && forall i :: 0 <= i < |fields| ==> fields[i] != ""
  }

  function Min(a: nat, b: nat): nat {
    if a < b then a else b
  }

  /** The buffers hold the first fields of what has been read, and nothing else. */
  ghost predicate Filled(netif: seq<string>, fs: seq<string>, size: nat) {
    && (forall k :: 0 <= k < |netif| && k < |fs| && k < size ==> netif[k] == fs[k])
    && forall k :: 0 <= k < |netif| && (k >= |fs| || k >= size) ==> netif[k] == ""
  }

  /**
   Fill the name buffers from the list.  On success `ports` is the number of ports, and
   a single name serves for the management interface and its port alike.
   */
  method GetNetifNamelist(arg: string, maxPort: nat, netif: array<string>) returns (ok: bool, ports: nat)
    requires |arg| < 0xFFFF && maxPort < 0xFFFF && netif.Length >= maxPort + 1
    modifies netif
    ensures ok <==> Acceptable(Fields(arg), maxPort)
    ensures ok && |Fields(arg)| == 1 ==> ports == 1 && netif[0] == netif[1] == Fields(arg)[0]
    ensures ok && |Fields(arg)| > 1 ==> ports == |Fields(arg)| - 1 && netif[..ports + 1] == Fields(arg)
  {
    ports := 0;
    var size := maxPort + 1;
    if maxPort == 0 { return false, 0; }
    var given := Scan(arg, size, netif);
    if maxPort == 1 && given > 1 { return false, 0; }
    if given == 2 { return false, 0; }
    if given > maxPort + 1 { return false, 0; }
    if given == 1 {
      if netif[0] == "" { return false, 0; }
      netif[1] := netif[0];
      return true, 1;
    }
    for i := 0 to given
      invariant forall k :: 0 <= k < i ==> netif[k] != ""
    {
      if netif[i] == "" { return false, 0; }
    }
    return true, given - 1;
  }

  /** The loop over the characters: names beyond the last buffer are counted but not stored. */
  method Scan(arg: string, size: nat, netif: array<string>) returns (given: nat)
    requires 1 <= size <= netif.Length
    modifies netif
    ensures given == |Fields(arg)| && Filled(netif[..], Fields(arg), size)
  {
    for k := 0 to netif.Length
      invariant forall j :: 0 <= j < k ==> netif[j] == ""
    {
      netif[k] := "";
    }
    given := 1;
    var index := 0;
    for i := 0 to |arg|
      invariant given == |Fields(arg[..i])| && index == Min(given - 1, size)
      invariant Filled(netif[..], Fields(arg[..i]), size)
    {
      assert arg[..i + 1][..i] == arg[..i];
      if arg[i] != ',' {
        if index < size { netif[index] := netif[index] + [arg[i]]; }
      } else {
        if index < size { index := index + 1; }
        given := given + 1;
      }
    }
    assert arg[..|arg|] == arg;
  }

  /** The whole round trip: names without commas come back from their joined form, or the list is refused. */
  lemma {:induction false} AcceptedIff(names: seq<string>, maxPort: nat)
    requires |names| >= 1 && forall i :: 0 <= i < |names| ==> ',' !in names[i]
    ensures Acceptable(Fields(Join(names)), maxPort) <==>
            maxPort != 0 && |names| != 2 && |names| <= maxPort + 1 && forall i :: 0 <= i < |names| ==> names[i] != ""
  {
    FieldsOfJoin(names);
  }
}
