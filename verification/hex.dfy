/** Bytes and their hexadecimal forms: cluster names, fingerprints and key identifiers. */
module Hex {
  import opened Text

  type byte = n: int | 0 <= n < 256

  // ---------------------------------------------------------------- UTF-8

  /** The bytes of one code point (section 3 of RFC 3629). */
  function Utf8Char(c: char): (r: seq<byte>)
    ensures 1 <= |r| <= 4
  {
    var n := c as int;
    if n < 0x80 then [n]
    else if n < 0x800 then [0xC0 + n / 64, 0x80 + n % 64]
    else if n < 0x1_0000 then [0xE0 + n / 4096, 0x80 + n / 64 % 64, 0x80 + n % 64]
    else [0xF0 + n / 262144, 0x80 + n / 4096 % 64, 0x80 + n / 64 % 64, 0x80 + n % 64]
  }

  /** The bytes of a string. */
  function Utf8(s: string): seq<byte> {
    if s == "" then [] else Utf8Char(s[0]) + Utf8(s[1..])
  }

  /** The low bits of byte `i`, above the marker bits `mark`. */
  function Bits(b: seq<byte>, i: nat, mark: int): int {
    if i < |b| then b[i] as int - mark else -1
  }

  /** The code point at the head of a well-formed byte string. */
  function Utf8Head(b: seq<byte>): int {
    var lead := Bits(b, 0, 0);
    if lead < 0x80 then lead
    else if lead < 0xE0 then (lead - 0xC0) * 64 + Bits(b, 1, 0x80)
    else if lead < 0xF0 then (lead - 0xE0) * 4096 + Bits(b, 1, 0x80) * 64 + Bits(b, 2, 0x80)
    else (lead - 0xF0) * 262144 + Bits(b, 1, 0x80) * 4096 + Bits(b, 2, 0x80) * 64 + Bits(b, 3, 0x80)
  }

  lemma Utf8HeadOfChar(c: char, rest: seq<byte>)
    ensures Utf8Head(Utf8Char(c) + rest) == c as int
  {
    var u := Utf8Char(c);
    var b := u + rest;
    assert forall i | 0 <= i < |u| :: b[i] == u[i];
    var n := c as int;
    if n >= 0x800 {
      assert n == n / 64 * 64 + n % 64 && n / 64 == n / 4096 * 64 + n / 64 % 64;
    }
    if n >= 0x1_0000 {
      assert n / 4096 == n / 262144 * 64 + n / 4096 % 64;
    }
  }

  /** The shape of a code point's bytes: how many there are shows in the first, and the others are marked. */
  lemma Utf8Shape(c: char)
    ensures var u := Utf8Char(c);
      && (c as int < 0x80 ==> u == [c as int])
      && (|u| == 1 <==> u[0] < 0x80) && (|u| == 2 <==> 0xC0 <= u[0] < 0xE0)
      && (|u| == 3 <==> 0xE0 <= u[0] < 0xF0) && (|u| == 4 <==> 0xF0 <= u[0])
      && (forall i | 1 <= i < |u| :: 0x80 <= u[i] < 0xC0)
  {
  }

  lemma {:induction false} Utf8IsInjective(a: string, b: string)
    requires Utf8(a) == Utf8(b)
    ensures a == b
  {
    if a != "" && b != "" {
      var x, y := Utf8Char(a[0]), Utf8Char(b[0]);
      Utf8HeadOfChar(a[0], Utf8(a[1..]));
      Utf8HeadOfChar(b[0], Utf8(b[1..]));
      assert a[0] as int == b[0] as int;
      assert a[0] == b[0];
      assert (x + Utf8(a[1..]))[|x|..] == Utf8(a[1..]);
      assert (y + Utf8(b[1..]))[|y|..] == Utf8(b[1..]);
      Utf8IsInjective(a[1..], b[1..]);
      assert a == [a[0]] + a[1..] && b == [b[0]] + b[1..];
    }
  }

  // ---------------------------------------------------------------- hexadecimal

  datatype Case = Lower | Upper

  function HexDigit(d: int, k: Case): (c: char)
    requires 0 <= d < 16
    ensures HexValue(c) == Some(d)
    ensures c != ':' && c != '.' && !IsSpace(c) && (k.Lower? ==> LowerChar(c) == c)
  {
    if d < 10 then '0' + d as char
    else if k.Lower? then 'a' + (d - 10) as char
    else 'A' + (d - 10) as char
  }

  /** The value of a hexadecimal digit in either letter case. */
  function HexValue(c: char): (r: Option<int>)
    ensures r.Some? ==> 0 <= r.value < 16
  {
    if '0' <= c <= '9' then Some(c as int - '0' as int)
    else if 'a' <= c <= 'f' then Some(c as int - 'a' as int + 10)
    else if 'A' <= c <= 'F' then Some(c as int - 'A' as int + 10)
    else None
  }

  /** hex.EncodeToString, also followed by strings.ToUpper: two digits a byte. */
  function HexText(b: seq<byte>, k: Case): (s: string)
    ensures |s| == 2 * |b|
    ensures forall i | 0 <= i < |s| :: s[i] != ':' && !IsSpace(s[i]) && s[i] != '.'
  {
    if b == [] then "" else [HexDigit(b[0] / 16, k), HexDigit(b[0] % 16, k)] + HexText(b[1..], k)
  }

  /** The reader of section 8 of RFC 4648, in either letter case. */
  function HexBytes(s: string): Option<seq<byte>> {
    if s == "" then Some([])
    else if |s| == 1 || HexValue(s[0]).None? || HexValue(s[1]).None? then None
    else match HexBytes(s[2..])
      case None => None
      case Some(rest) =>
        Some([HexValue(s[0]).value * 16 + HexValue(s[1]).value] + rest)
  }

  lemma {:induction false} HexRoundTrip(b: seq<byte>, k: Case)
    ensures HexBytes(HexText(b, k)) == Some(b)
  {
    if b != [] {
      HexRoundTrip(b[1..], k);
      assert HexText(b, k)[2..] == HexText(b[1..], k);
      assert b[0] == b[0] / 16 * 16 + b[0] % 16;
      assert b == [b[0]] + b[1..];
    }
  }

  lemma {:induction false} LowerHexIsLower(b: seq<byte>)
    ensures ToLower(HexText(b, Lower)) == HexText(b, Lower)
    ensures TrimSpace(HexText(b, Lower)) == HexText(b, Lower)
  {
    if b != [] {
      LowerHexIsLower(b[1..]);
    }
    TrimOfTrimmed(HexText(b, Lower));
  }

  /** The digits, in both letter cases, and no other characters. */
  lemma HexDigits(c: char)
    ensures HexValue(c).Some? <==> c in "0123456789abcdefABCDEF"
  {
  }

  /** Upper-case text has upper-case digits alone. */
  lemma {:induction false} UpperHexIsUpper(b: seq<byte>)
    ensures forall i | 0 <= i < |HexText(b, Upper)| :: HexText(b, Upper)[i] in "0123456789ABCDEF"
  {
    if b != [] {
      UpperHexIsUpper(b[1..]);
      UpperDigit(b[0] / 16);
      UpperDigit(b[0] % 16);
    }
  }

  lemma UpperDigit(d: int)
    requires 0 <= d < 16
    ensures HexDigit(d, Upper) == "0123456789ABCDEF"[d]
  {
  }

  // ---------------------------------------------------------------- key identifiers

  function KeyIDPart(b: byte): string {
    HexText([b], Upper)
  }

  /** The text of a key identifier: upper-case bytes between colons. */
  function KeyIDText(keyID: seq<byte>): string {
    Join(KeyIDParts(keyID), ":")
  }

  function KeyIDParts(keyID: seq<byte>): (r: seq<string>)
    ensures |r| == |keyID| && forall i | 0 <= i < |r| :: r[i] == KeyIDPart(keyID[i])
  {
    seq(|keyID|, i requires 0 <= i < |keyID| => KeyIDPart(keyID[i]))
  }

  /** formatKeyID of certinfo.go */
  method FormatKeyID(keyID: seq<byte>) returns (s: string)
    ensures s == KeyIDText(keyID)
  {
    if |keyID| == 0 {
      return "";
    }
    var parts := new string[|keyID|](_ => "");
    for i := 0 to |keyID|
      invariant forall k | 0 <= k < i :: parts[k] == KeyIDPart(keyID[k])
    {
      parts[i] := HexText([keyID[i]], Upper);
    }
    assert parts[..] == KeyIDParts(keyID);
    return Join(parts[..], ":");
  }

  /** Key identifiers of sections 4.2.1.1 and 4.2.1.2 of RFC 5280 are compared by their text:
      equal texts mean equal bytes. */
  lemma KeyIDTextIsInjective(a: seq<byte>, b: seq<byte>)
    requires KeyIDText(a) == KeyIDText(b)
    ensures a == b
  {
    var pa, pb := KeyIDParts(a), KeyIDParts(b);
    KeyIDTextIsNonEmpty(a);
    KeyIDTextIsNonEmpty(b);
    if a != [] {
      SplitOfJoin(pa, ':');
      SplitOfJoin(pb, ':');
      assert pa == pb;
      forall i | 0 <= i < |a| ensures a[i] == b[i] {
        HexRoundTrip([a[i]], Upper);
        HexRoundTrip([b[i]], Upper);
        assert pa[i] == pb[i];
      }
    }
  }

  /** How a key identifier looks. */
  lemma KeyIDTextSample()
    ensures KeyIDText([0x0A, 0x12, 0xFE]) == "0A:12:FE"
  {
    var id: seq<byte> := [0x0A, 0x12, 0xFE];
    assert HexText([0x0A], Upper) == "0A" && HexText([0x12], Upper) == "12" && HexText([0xFE], Upper) == "FE";
    assert KeyIDParts(id) == ["0A", "12", "FE"];
    assert ["0A", "12", "FE"][1..] == ["12", "FE"] && ["12", "FE"][1..] == ["FE"];
  }

  lemma KeyIDTextIsNonEmpty(a: seq<byte>)
    ensures a != [] <==> KeyIDText(a) != ""
  {
    if a != [] {
      assert |KeyIDParts(a)[0]| == 2;
    }
  }
}
