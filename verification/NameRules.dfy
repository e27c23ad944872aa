/**
 What inference reads out of interface names, in terms of the names themselves: prefixes,
 decimal numbers and the last dot.
 */
module NameRules {
  import opened Options
  import opened Candidate

  // ---------- decimal numbers ----------

  function Digit(d: nat): char
    requires d < 10
  {
    '0' + d as char
  }

  /** A number as it is written, without leading zeros. */
  function Decimal(n: nat): string {
    (if n < 10 then "" else Decimal(n / 10)) + [Digit(n % 10)]
  }

  function Zeros(k: nat): string {
    seq(k, _ => '0')
  }

  /** The number `n` is written as `s`, with `k` leading zeros. */
  ghost predicate Writes(k: nat, n: nat, s: string) {
    s == Zeros(k) + Decimal(n)
  }

  /** A number as it is written, perhaps with leading zeros. */
  ghost predicate IsNumber(s: string) {
    exists k: nat, n: nat :: Writes(k, n, s)
  }

  lemma {:induction false} DecimalIsRead(n: nat)
    ensures Digits(Decimal(n)) && Value(Decimal(n)) == n
  {
    DigitIsRead(n % 10);
    if n < 10 {
      MoreIsRead("", Digit(n));
    } else {
      DecimalIsRead(n / 10);
      MoreIsRead(Decimal(n / 10), Digit(n % 10));
    }
  }

  lemma {:induction false} DigitIsRead(d: nat)
    requires d < 10
    ensures IsDigit(Digit(d)) && (Digit(d) - '0') as nat == d
  {
  }

  lemma {:induction false} MoreIsRead(s: string, c: char)
    requires IsDigit(c)
    ensures Value(s + [c]) == Value(s) * 10 + (c - '0') as nat
    ensures s == "" || Digits(s) ==> Digits(s + [c])
  {
    assert (s + [c])[..|s|] == s;
  }

  lemma {:induction false} ZerosAreNothing(k: nat, s: string)
    ensures Value(Zeros(k) + s) == Value(s)
  {
    if s != "" {
      ZerosAreNothing(k, s[..|s| - 1]);
      assert (Zeros(k) + s)[..|Zeros(k) + s| - 1] == Zeros(k) + s[..|s| - 1];
    } else if k == 0 {
      assert Zeros(k) + s == s;
    } else {
      ZerosAreNothing(k - 1, s);
      assert (Zeros(k) + s)[..k - 1] == Zeros(k - 1) + s;
    }
  }

  /** Reading a number gives the number that was written, leading zeros or not. */
  lemma {:induction false} NumberIsRead(k: nat, n: nat, s: string)
    requires Writes(k, n, s)
    ensures Digits(s) && Value(s) == n
  {
    DecimalIsRead(n);
    ZerosAreNothing(k, Decimal(n));
    ZerosAreDigits(k, Decimal(n));
  }

  lemma {:induction false} ZerosAreDigits(k: nat, s: string)
    requires Digits(s)
    ensures Digits(Zeros(k) + s)
  {
    assert forall i :: 0 <= i < k ==> (Zeros(k) + s)[i] == '0';
  }

  /** Every text of digits is some number, written that way. */
  lemma {:induction false} DigitsAreNumber(s: string) returns (k: nat, n: nat)
    requires Digits(s)
    ensures Writes(k, n, s)
  {
    var rest, c := s[..|s| - 1], s[|s| - 1];
    assert s == rest + [c];
    if rest == "" {
      CharIsDigit(c);
      k, n := 0, (c - '0') as nat;
      assert Zeros(0) + [c] == [c];
    } else {
      var j, m := DigitsAreNumber(rest);
      k, n := WritesMore(j, m, rest, c);
    }
  }

  lemma {:induction false} CharIsDigit(c: char)
    requires IsDigit(c)
    ensures (c - '0') as nat < 10 && Decimal((c - '0') as nat) == [c]
  {
    SmallDecimal((c - '0') as nat);
  }

  lemma {:induction false} SmallDecimal(d: nat)
    requires d < 10
    ensures Decimal(d) == [Digit(d)]
  {
    assert "" + [Digit(d)] == [Digit(d)];
  }

  lemma {:induction false} WritesMore(j: nat, m: nat, s: string, c: char) returns (k: nat, n: nat)
    requires Writes(j, m, s) && IsDigit(c)
    ensures Writes(k, n, s + [c])
  {
    var d: nat := (c - '0') as nat;
    CharIsDigit(c);
    if m == 0 {
      k, n := j + 1, d;
      assert Zeros(j) + "0" == Zeros(j + 1);
    } else {
      k, n := j, m * 10 + d;
      OneMoreDigit(m, d);
      assert Zeros(j) + Decimal(m) + [c] == Zeros(j) + (Decimal(m) + [c]);
    }
  }

  lemma {:induction false} OneMoreDigit(m: nat, d: nat)
    requires m > 0 && d < 10
    ensures Decimal(m * 10 + d) == Decimal(m) + [Digit(d)]
  {
    assert (m * 10 + d) / 10 == m && (m * 10 + d) % 10 == d;
  }

  lemma {:induction false} DigitsIff(s: string)
    ensures Digits(s) <==> IsNumber(s)
  {
    if Digits(s) { var k, n := DigitsAreNumber(s); }
    if k: nat, n: nat :| Writes(k, n, s) { NumberIsRead(k, n, s); }
  }

  // ---------- the last dot ----------

  lemma {:induction false} LastDot(p: string, t: string)
    requires '.' !in t
    ensures AfterDot(p + "." + t) == Some(t) && BeforeDot(p + "." + t) == p
  {
    var s := p + "." + t;
    if t == "" {
      assert s == p + ".";
    } else {
      LastDot(p, t[..|t| - 1]);
      assert s[..|s| - 1] == p + "." + t[..|t| - 1] && s[|s| - 1] == t[|t| - 1];
      assert t == t[..|t| - 1] + [t[|t| - 1]];
    }
  }

  lemma {:induction false} NoDot(s: string)
    ensures AfterDot(s) == None <==> '.' !in s
  {
    if s == "" {
    } else {
      NoDot(s[..|s| - 1]);
      assert s == s[..|s| - 1] + [s[|s| - 1]];
    }
  }

  // ---------- types ----------

  ghost predicate Ends(name: string, prefix: string) {
    exists s :: IsNumber(s) && name == prefix + s
  }

  /** The letters, digits and signs that may follow `veth`. */
  ghost predicate IsSuffix(s: string) {
    s != "" && forall i :: 0 <= i < |s| ==> '0' <= s[i] <= '9' || 'a' <= s[i] <= 'z' || s[i] == '_' || s[i] == '-'
  }

  lemma {:induction false} NumberedIff(prefix: string, name: string)
    ensures Numbered(prefix, name) <==> Ends(name, prefix)
  {
    if Numbered(prefix, name) {
      DigitsIff(name[|prefix|..]);
      assert name == prefix + name[|prefix|..];
    }
    if s :| IsNumber(s) && name == prefix + s {
      DigitsIff(s);
      assert name[|prefix|..] == s;
    }
  }

  lemma {:induction false} VethNameIff(name: string)
    ensures IsVethName(name) <==> exists s :: IsSuffix(s) && name == "veth" + s
  {
    if IsVethName(name) {
      assert IsSuffix(name[4..]) && name == "veth" + name[4..];
    }
    if s :| IsSuffix(s) && name == "veth" + s {
      assert forall i :: 4 <= i < |name| ==> name[i] == s[i - 4];
    }
  }

  lemma {:induction false} DottedIff(name: string)
    ensures Dotted(name) <==> exists p, s :: IsNumber(s) && name == p + "." + s
  {
    if Dotted(name) {
      DotSplits(name);
      DigitsIff(AfterDot(name).value);
    }
    if p, s :| IsNumber(s) && name == p + "." + s {
      DigitsIff(s);
      LastDot(p, s);
    }
  }

  /** The type that a name suggests, by its form. */
  lemma {:induction false} TypeOfName(name: string, phys: set<string>)
    ensures TypeOf(name, phys) == Some(Ethernet) <==> name in phys
    ensures TypeOf(name, phys) == Some(Bridge) <==> name !in phys && Ends(name, "br")
    ensures TypeOf(name, phys) == Some(Lag) <==> name !in phys && Ends(name, "lag")
    ensures TypeOf(name, phys) == Some(Veth) <==> name !in phys && exists s :: IsSuffix(s) && name == "veth" + s
    ensures TypeOf(name, phys) == Some(Vlan) <==>
            name !in phys && (Ends(name, "vlan") || exists p, s :: IsNumber(s) && name == p + "." + s)
  {
    NumberedIff("br", name);
    NumberedIff("lag", name);
    NumberedIff("vlan", name);
    VethNameIff(name);
    DottedIff(name);
    OneForm(name);
  }

  /** Over any list of changes, a changed interface without a type gets the one its name suggests. */
  lemma {:induction false} TypeInferred(s: Store, changes: seq<Change>, phys: set<string>, i: nat)
    requires Applies(s, changes) && i < |changes| && Concerns(changes[i])
    ensures var n := changes[i].name;
            InferAll(s, changes, phys)[n].ifType == if s[n].ifType == None then TypeOf(n, phys) else s[n].ifType
  {
    InferAllFits(s, changes, phys, changes[i].name);
    InferAllCompletes(s, changes, phys, i);
  }

  /** No name has two of the forms. */
  lemma {:induction false} OneForm(name: string)
    ensures !(Numbered("br", name) && Numbered("lag", name)) && !(Numbered("br", name) && IsVethName(name))
    ensures !(Numbered("lag", name) && IsVethName(name))
    ensures Numbered("br", name) || Numbered("lag", name) || IsVethName(name) ==>
              !Numbered("vlan", name) && !Dotted(name)
  {
    StartsAs("br", name);
    StartsAs("lag", name);
    StartsAs("veth", name);
    StartsAs("vlan", name);
    NoDot(name);
    NumberedHasNoDot("br", name);
    NumberedHasNoDot("lag", name);
    VethHasNoDot(name);
  }

  lemma {:induction false} StartsAs(prefix: string, name: string)
    requires |prefix| >= 2
    ensures prefix <= name ==> |name| >= 2 && name[0] == prefix[0] && name[1] == prefix[1]
  {
  }

  lemma {:induction false} NumberedHasNoDot(prefix: string, name: string)
    requires '.' !in prefix
    ensures Numbered(prefix, name) ==> '.' !in name
  {
    if Numbered(prefix, name) {
      assert name == prefix + name[|prefix|..];
    }
  }

  lemma {:induction false} VethHasNoDot(name: string)
    ensures IsVethName(name) ==> '.' !in name
  {
    if IsVethName(name) {
      assert name == "veth" + name[4..];
      assert forall i :: 0 <= i < |name[4..]| ==> name[4..][i] == name[i + 4];
      assert '.' !in "veth" && '.' !in name[4..];
    }
  }

  // ---------- VLANs ----------

  /** A VLAN id as it is written, perhaps with leading zeros. */
  ghost predicate IsVid(s: string) {
    exists k: nat, n: nat :: 1 <= n <= 4095 && Writes(k, n, s)
  }

  lemma {:induction false} NamesTagIff(p: string, t: string)
    requires '.' !in t
    ensures NamesTag(p + "." + t) <==> IsVid(t)
  {
    LastDot(p, t);
    VidIff(t);
  }

  lemma {:induction false} VidIff(t: string)
    ensures Digits(t) && 1 <= Value(t) <= 4095 <==> IsVid(t)
  {
    if Digits(t) {
      var k, n := DigitsAreNumber(t);
      NumberIsRead(k, n, t);
    }
    if k: nat, n: nat :| 1 <= n <= 4095 && Writes(k, n, t) { NumberIsRead(k, n, t); }
  }

  /**
   Over any list of changes, a changed VLAN named after an interface, a dot and `t` gets the
   leaves it misses, parent, tag type and id, if and only if `t` is a number from 1 to 4095.
   */
  lemma {:induction false} VlanInferredIff(s: Store, changes: seq<Change>, phys: set<string>, i: nat, p: string,
                                           t: string)
    requires Applies(s, changes) && i < |changes| && Concerns(changes[i]) && changes[i].name == p + "." + t
    requires '.' !in t && p in s && s[p + "." + t].ifType == Some(Vlan)
    ensures var n := p + "." + t;
            var a, b := s[n], InferAll(s, changes, phys)[n];
            && b.parent == (if a.parent == None && IsVid(t) then Some(p) else a.parent)
            && b.tagType == (if a.tagType == None && IsVid(t) then Some("ieee802-dot1q-types:c-vlan") else a.tagType)
            && b.vid == if a.vid == None && IsVid(t) then Some(t) else a.vid
  {
    var n := p + "." + t;
    LastDot(p, t);
    NamesTagIff(p, t);
    InferAllFits(s, changes, phys, n);
    InferAllCompletes(s, changes, phys, i);
  }
}
