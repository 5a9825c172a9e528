/** Version strings, the upgrade sequence they select and the base16 cluster identity
    (internal/plan/plan.go). */
module Version {
  import opened Text
  import opened Hex

  // ---------------------------------------------------------------- reading versions

  const TWO_64: int := 0x1_0000_0000_0000_0000

  /** The value of an integer expression in a 64-bit Go int. */
  function Wrap(n: int): (r: int)
    ensures FitsInt64(r) && (r - n) % TWO_64 == 0
    ensures FitsInt64(n) ==> r == n
  {
    (n - MIN_INT64) % TWO_64 + MIN_INT64
  }

  lemma WrapOfWrapped(n: int, d: int)
    ensures Wrap(Wrap(n) * 10 + d) == Wrap(n * 10 + d)
  {
    var k := (n - MIN_INT64) / TWO_64;
    assert Wrap(n) == n - k * TWO_64;
  }

  /** The number at the head of a version component, in 64-bit arithmetic; 0 when there is none. */
  function Component(parts: seq<string>, idx: nat): int {
    if idx < |parts| then Wrap(Number(DigitPrefix(parts[idx]))) else 0
  }

  lemma OneMoreDigit(value: string, i: nat)
    requires i < |value| && AllDigits(value[..i]) && IsDigit(value[i])
    ensures AllDigits(value[..i + 1])
    ensures Wrap(Number(value[..i + 1])) == Wrap(Wrap(Number(value[..i])) * 10 + DigitValue(value[i]))
  {
    assert value[..i + 1][..i] == value[..i];
    WrapOfWrapped(Number(value[..i]), DigitValue(value[i]));
  }

  lemma PrefixUpTo(value: string, i: nat)
    requires i <= |value| && AllDigits(value[..i]) && (i < |value| ==> !IsDigit(value[i]))
    ensures DigitPrefix(value) == value[..i]
  {
    assert value == value[..i] + value[i..];
    DigitPrefixMaximal(value[..i], value[i..]);
  }

  method AtoiComponent(parts: seq<string>, idx: nat) returns (n: int)
    ensures n == Component(parts, idx)
  {
    if idx >= |parts| {
      return 0;
    }
    var value := parts[idx];
    if value == "" {
      return 0;
    }
    n := 0;
    var i := 0;
    while i < |value|
      invariant 0 <= i <= |value| && AllDigits(value[..i])
      invariant n == Wrap(Number(value[..i]))
    {
      var r := value[i];
      if !IsDigit(r) {
        break;
      }
      OneMoreDigit(value, i);
      n := Wrap(n * 10 + DigitValue(r));
      i := i + 1;
    }
    PrefixUpTo(value, i);
  }

  function TrimV(s: string): string {
    if s != "" && s[0] == 'v' then s[1..] else s
  }

  /** (major, minor) of a version string. */
  function Parsed(input: string): (int, int) {
    var parts := Split(TrimV(TrimSpace(input)), '.');
    (Component(parts, 0), Component(parts, 1))
  }

  method ParseVersion(input: string) returns (major: int, minor: int)
    ensures (major, minor) == Parsed(input)
  {
    var trimmed := TrimV(TrimSpace(input));
    var parts := Split(trimmed, '.');
    major := AtoiComponent(parts, 0);
    minor := AtoiComponent(parts, 1);
  }

  lemma {:induction false} TrimRightOfConcat(core: string, suffix: string)
    requires core != "" && !IsSpace(core[|core| - 1])
    ensures TrimRight(core + suffix) == core + TrimRight(suffix)
  {
    var s := core + suffix;
    if suffix == "" {
      assert s == core;
    } else if IsSpace(suffix[|suffix| - 1]) {
      assert s[..|s| - 1] == core + suffix[..|suffix| - 1];
      TrimRightOfConcat(core, suffix[..|suffix| - 1]);
    }
  }

  /** What follows the minor number: nothing, or anything that is not a digit. */
  predicate IsSuffix(s: string) {
    s == "" || !IsDigit(s[0])
  }

  lemma DigitsAreOrdinary(s: string)
    requires AllDigits(s)
    ensures '.' !in s && Trimmed(s)
    ensures s != "" ==> s[0] != 'v'
  {
  }

  lemma {:induction false} FirstPartExtends(digits: string, rest: string)
    requires '.' !in digits
    ensures Split(digits + rest, '.')[0] == digits + Split(rest, '.')[0]
    ensures Split(digits + rest, '.')[1..] == Split(rest, '.')[1..]
  {
    if digits == "" {
      assert digits + rest == rest;
    } else {
      assert (digits + rest)[1..] == digits[1..] + rest;
      FirstPartExtends(digits[1..], rest);
      assert digits == [digits[0]] + digits[1..];
    }
  }

  /** The minor component ends where the suffix begins, whether or not that is a dot. */
  lemma MinorComponent(b: string, rest: string)
    requires AllDigits(b) && IsSuffix(rest)
    ensures DigitPrefix(Split(b + rest, '.')[0]) == b
  {
    DigitsAreOrdinary(b);
    FirstPartExtends(b, rest);
    DigitPrefixMaximal(b, Split(rest, '.')[0]);
  }

  lemma TrimOfPrinted(lead: string, core: string, suffix: string)
    requires forall i | 0 <= i < |lead| :: IsSpace(lead[i])
    requires core != "" && Trimmed(core)
    ensures TrimSpace(lead + core + suffix) == core + TrimRight(suffix)
  {
    assert lead + core + suffix == lead + (core + suffix);
    TrimLeftOfPadded(lead, core + suffix);
    TrimRightOfConcat(core, suffix);
  }

  lemma Components(a: string, b: string, rest: string)
    requires AllDigits(a) && AllDigits(b) && IsSuffix(rest)
    ensures var parts := Split(a + ['.'] + (b + rest), '.');
      Component(parts, 0) == Wrap(Number(a)) && Component(parts, 1) == Wrap(Number(b))
  {
    DigitsAreOrdinary(a);
    SplitOfConcat(a, '.', b + rest);
    SplitOfFree(a, '.');
    MinorComponent(b, rest);
    DigitPrefixMaximal(a, "");
    assert a + "" == a;
  }

  lemma CoreIsTrimmed(v: string, a: string, b: string)
    requires v == "" || v == "v"
    requires a != "" && b != "" && AllDigits(a) && AllDigits(b)
    ensures Trimmed(v + a + "." + b) && v + a + "." + b != ""
  {
    var core := v + a + "." + b;
    assert core[0] == if v == "v" then 'v' else a[0];
    assert core[|core| - 1] == b[|b| - 1];
  }

  lemma TrimVOfCore(v: string, a: string, b: string, rest: string)
    requires v == "" || v == "v"
    requires a != "" && AllDigits(a)
    ensures TrimV((v + a + "." + b) + rest) == a + ['.'] + (b + rest)
  {
    var t := a + ['.'] + (b + rest);
    var s := (v + a + "." + b) + rest;
    assert s == v + t;
    assert s[0] == if v == "v" then 'v' else a[0];
    assert v == "v" ==> s[1..] == t;
  }

  lemma ParseOfDigits(lead: string, v: string, a: string, b: string, suffix: string)
    requires forall i | 0 <= i < |lead| :: IsSpace(lead[i])
    requires v == "" || v == "v"
    requires a != "" && b != "" && AllDigits(a) && AllDigits(b) && IsSuffix(suffix)
    ensures Parsed(lead + (v + a + "." + b) + suffix) == (Wrap(Number(a)), Wrap(Number(b)))
  {
    var core, rest := v + a + "." + b, TrimRight(suffix);
    CoreIsTrimmed(v, a, b);
    TrimOfPrinted(lead, core, suffix);
    TrimVOfCore(v, a, b, rest);
    Components(a, b, rest);
  }

  /** "v", major, ".", minor */
  function Printed(v: string, major: nat, minor: nat): string {
    v + Decimal(major) + "." + Decimal(minor)
  }

  /** Printing a version and parsing it gives the two numbers back modulo 64-bit wrap-around, whatever
      white space surrounds it, with or without the "v", and whatever non-digit suffix follows. */
  lemma ParseOfPrinted(lead: string, v: string, major: nat, minor: nat, suffix: string)
    requires forall i | 0 <= i < |lead| :: IsSpace(lead[i])
    requires v == "" || v == "v"
    requires IsSuffix(suffix)
    ensures Parsed(lead + Printed(v, major, minor) + suffix) == (Wrap(major), Wrap(minor))
    ensures Parsed(lead + Printed(v, major, minor) + suffix) == (major, minor)
      <==> FitsInt64(major) && FitsInt64(minor)
  {
    ParseOfDigits(lead, v, Decimal(major), Decimal(minor), suffix);
  }

  lemma TrimOfMajor(v: string, d: string)
    requires v == "" || v == "v"
    requires d != "" && AllDigits(d)
    ensures TrimV(TrimSpace(v + d)) == d
  {
    var s := v + d;
    assert s[0] == (if v == "v" then 'v' else d[0]) && s[|s| - 1] == d[|d| - 1];
    TrimOfTrimmed(s);
    assert v == "v" ==> s[1..] == d;
    assert v == "" ==> s == d;
  }

  lemma OneComponent(d: string)
    requires AllDigits(d)
    ensures Component(Split(d, '.'), 0) == Wrap(Number(d)) && Component(Split(d, '.'), 1) == 0
  {
    DigitsAreOrdinary(d);
    SplitOfFree(d, '.');
    DigitPrefixMaximal(d, "");
    assert d + "" == d;
  }

  /** A major number alone has minor 0, and a text without a number at its head is 0.0. */
  lemma ParseOfMajor(v: string, major: nat)
    requires v == "" || v == "v"
    ensures Parsed(v + Decimal(major)) == (Wrap(major), 0)
  {
    TrimOfMajor(v, Decimal(major));
    OneComponent(Decimal(major));
  }

  lemma ParseOfNothing(s: string)
    requires s != "" ==> !IsDigit(s[0]) && s[0] != 'v' && '.' !in s
    requires Trimmed(s)
    ensures Parsed(s) == (0, 0)
  {
    TrimOfTrimmed(s);
    SplitOfFree(s, '.');
  }

  // ---------------------------------------------------------------- upgrade sequence

  datatype UpgradeAttempt = UpgradeAttempt(token: string, path: string)

  const UPGRADE_ENDPOINT := "/webapi/connectionupgrade"

  function UpgradeSequence(major: int, minor: int): seq<UpgradeAttempt> {
    if major >= 18 then
      [UpgradeAttempt("websocket", UPGRADE_ENDPOINT)]
    else if major >= 16 || (major == 15 && minor >= 1) then
      [UpgradeAttempt("websocket", UPGRADE_ENDPOINT),
       UpgradeAttempt("alpn", UPGRADE_ENDPOINT),
       UpgradeAttempt("alpn-ping", UPGRADE_ENDPOINT)]
    else
      [UpgradeAttempt("alpn", UPGRADE_ENDPOINT),
       UpgradeAttempt("alpn-ping", UPGRADE_ENDPOINT)]
  }

  datatype Band = V18Plus | V15ToV17 | PreV15

  function VersionBand(major: int): Band {
    if major >= 18 then V18Plus else if major >= 15 then V15ToV17 else PreV15
  }

  predicate Offers(s: seq<UpgradeAttempt>, token: string) {
    exists i | 0 <= i < |s| :: s[i].token == token
  }

  predicate AtMost(a: (int, int), b: (int, int)) {
    a.0 < b.0 || (a.0 == b.0 && a.1 <= b.1)
  }

  /** The path that a version calls for, by its tokens: WebSocket from 15.1 on and then first; the two legacy
      tokens, in their order, before 18; each at most once, and all at the same endpoint. */
  ghost predicate IsUpgradePath(s: seq<UpgradeAttempt>, major: int, minor: int) {
    && (forall i | 0 <= i < |s| :: s[i].path == "/webapi/connectionupgrade")
    && (forall i | 0 <= i < |s| :: s[i].token in ["websocket", "alpn", "alpn-ping"])
    && (forall i, j | 0 <= i < j < |s| :: s[i].token != s[j].token)
    && (Offers(s, "alpn") <==> major < 18)
    && (Offers(s, "alpn-ping") <==> major < 18)
    && (Offers(s, "websocket") <==> AtMost((15, 1), (major, minor)))
    && (Offers(s, "websocket") ==> s[0].token == "websocket")
    && (forall i, j | 0 <= i < |s| && 0 <= j < |s| && s[i].token == "alpn" && s[j].token == "alpn-ping" :: i < j)
  }

  lemma TokensDiffer()
    ensures "websocket" != "alpn" && "websocket" != "alpn-ping" && "alpn" != "alpn-ping"
  {
    assert |"websocket"| == |"alpn-ping"| == 9 && |"alpn"| == 4;
    assert "websocket"[0] != "alpn-ping"[0];
  }

  lemma UpgradePathMeaning(major: int, minor: int)
    ensures IsUpgradePath(UpgradeSequence(major, minor), major, minor)
  {
    TokensDiffer();
    var s := UpgradeSequence(major, minor);
    if major < 18 {
      assert s[|s| - 2].token == "alpn" && s[|s| - 1].token == "alpn-ping";
    }
    if AtMost((15, 1), (major, minor)) {
      assert s[0].token == "websocket";
    }
  }

  lemma FourTokens(a: string, b: string, c: string, d: string)
    requires forall t | t in [a, b, c, d] :: t in ["websocket", "alpn", "alpn-ping"]
    ensures a == b || a == c || a == d || b == c || b == d || c == d
  {
    assert a in [a, b, c, d] && b in [a, b, c, d] && c in [a, b, c, d] && d in [a, b, c, d];
  }

  /** It is the only such path. */
  lemma UpgradePathIsUnique(s: seq<UpgradeAttempt>, major: int, minor: int)
    requires IsUpgradePath(s, major, minor)
    ensures s == UpgradeSequence(major, minor)
  {
    TokensDiffer();
    var t := UpgradeSequence(major, minor);
    UpgradePathMeaning(major, minor);
    if |s| > 3 {
      FourTokens(s[0].token, s[1].token, s[2].token, s[3].token);
    }
    if |s| >= 1 {
      assert s[0] == UpgradeAttempt(s[0].token, UPGRADE_ENDPOINT);
    }
    if |s| >= 2 {
      assert s[1] == UpgradeAttempt(s[1].token, UPGRADE_ENDPOINT) && s[0].token != s[1].token;
    }
    if |s| == 3 {
      assert s[2] == UpgradeAttempt(s[2].token, UPGRADE_ENDPOINT);
      assert s[0].token != s[2].token && s[1].token != s[2].token;
    }
    if major < 18 {
      var i :| 0 <= i < |s| && s[i].token == "alpn";
      var j :| 0 <= j < |s| && s[j].token == "alpn-ping";
      assert i < j;
    }
  }

  /** A newer version never loses the WebSocket upgrade and never regains a legacy one. */
  lemma UpgradeIsMonotone(a: (int, int), b: (int, int))
    requires AtMost(a, b)
    ensures Offers(UpgradeSequence(a.0, a.1), "websocket") ==> Offers(UpgradeSequence(b.0, b.1), "websocket")
    ensures Offers(UpgradeSequence(b.0, b.1), "alpn") ==> Offers(UpgradeSequence(a.0, a.1), "alpn")
    ensures Offers(UpgradeSequence(b.0, b.1), "alpn-ping") ==> Offers(UpgradeSequence(a.0, a.1), "alpn-ping")
  {
    assert UpgradeSequence(b.0, b.1)[0].token == "websocket" || UpgradeSequence(b.0, b.1)[0].token == "alpn";
    var s := UpgradeSequence(a.0, a.1);
    assert s[0].token == "websocket" || s[0].token == "alpn";
    assert |s| >= 2 ==> s[|s| - 2].token == "alpn" && s[|s| - 1].token == "alpn-ping";
    assert "websocket"[0] != "alpn"[0];
    assert |"alpn"| != |"alpn-ping"|;
  }

  /** The band and the sequence agree except on 15.0, which the band calls v15-v17 although it gets
      the legacy sequence; the legacy sequence is the other one without its first attempt. */
  lemma BandMatchesSequence(major: int, minor: int)
    ensures VersionBand(major).V18Plus? <==>
      forall i | 0 <= i < |UpgradeSequence(major, minor)| :: UpgradeSequence(major, minor)[i].token == "websocket"
    ensures VersionBand(major).V18Plus? <==> UpgradeSequence(major, minor) == UpgradeSequence(18, 0)
    ensures UpgradeSequence(15, 1)[1..] == UpgradeSequence(14, minor)
    ensures VersionBand(major).PreV15? ==> UpgradeSequence(major, minor) == UpgradeSequence(15, 1)[1..]
    ensures VersionBand(major).V15ToV17? ==>
      (UpgradeSequence(major, minor) == UpgradeSequence(15, 1) <==> major > 15 || minor >= 1)
  {
    TokensDiffer();
    assert |UpgradeSequence(18, 0)| == 1 && |UpgradeSequence(15, 1)| == 3;
    var s := UpgradeSequence(major, minor);
    assert major < 18 ==> s[|s| - 1].token == "alpn-ping";
  }

  // ---------------------------------------------------------------- base16 identity

  /** Plan.Base16ClusterName */
  function Base16Name(clusterName: string): string {
    ToLower(HexText(Utf8(clusterName), Lower))
  }

  function Base16Host(base16: string): string {
    var b := TrimSpace(base16);
    if b == "" then "" else b + ".teleport.cluster.local"
  }

  function AuthALPN(base16: string): string {
    var b := TrimSpace(base16);
    if b == "" then "" else "teleport-auth@" + b + ".teleport.cluster.local"
  }

  /** Decoding the name gives the cluster name's bytes, and the identity is blank only for a blank name. */
  lemma Base16RoundTrip(clusterName: string)
    ensures HexBytes(Base16Name(clusterName)) == Some(Utf8(clusterName))
    ensures TrimSpace(Base16Name(clusterName)) == Base16Name(clusterName)
    ensures Base16Name(clusterName) == "" <==> clusterName == ""
  {
    LowerHexIsLower(Utf8(clusterName));
    HexRoundTrip(Utf8(clusterName), Lower);
    assert clusterName != "" ==> |Utf8Char(clusterName[0])| >= 1;
  }

  lemma AppendIsInjective(x: string, y: string, tail: string)
    requires x + tail == y + tail
    ensures x == y
  {
    assert |x| == |y|;
    assert (x + tail)[..|x|] == x && (y + tail)[..|y|] == y;
  }

  lemma PrependIsInjective(head: string, x: string, y: string)
    requires head + x == head + y
    ensures x == y
  {
    assert (head + x)[|head|..] == x && (head + y)[|head|..] == y;
  }

  lemma HostOfName(b: string)
    requires TrimSpace(b) == b
    ensures b != "" ==> Base16Host(b) == b + ".teleport.cluster.local" && |Base16Host(b)| > 22
    ensures b != "" ==> AuthALPN(b) == "teleport-auth@" + Base16Host(b)
    ensures b == "" ==> Base16Host(b) == AuthALPN(b) == ""
  {
    if b != "" {
      assert "teleport-auth@" + b + ".teleport.cluster.local" == "teleport-auth@" + (b + ".teleport.cluster.local");
    }
  }

  /** Distinct clusters are never probed under the same name. */
  lemma Base16IsFaithful(a: string, b: string)
    requires a != b
    ensures Base16Host(Base16Name(a)) != Base16Host(Base16Name(b))
    ensures AuthALPN(Base16Name(a)) != AuthALPN(Base16Name(b))
    ensures a != "" ==> AuthALPN(Base16Name(a)) == "teleport-auth@" + Base16Host(Base16Name(a))
  {
    var x, y := Base16Name(a), Base16Name(b);
    Base16RoundTrip(a);
    Base16RoundTrip(b);
    if x == y {
      Utf8IsInjective(a, b);
    }
    HostOfName(x);
    HostOfName(y);
    if Base16Host(x) == Base16Host(y) {
      AppendIsInjective(x, y, ".teleport.cluster.local");
    }
    if AuthALPN(x) == AuthALPN(y) && x != "" && y != "" {
      PrependIsInjective("teleport-auth@", Base16Host(x), Base16Host(y));
    }
  }
}
