/** Addresses and netmasks of /proc/net/route (internal/discovery/network.go). */
module Netmask {
  import opened Text
  import opened Hex
  import opened Lists

  // ---------------------------------------------------------------- bits

  function Pow2(n: nat): (r: nat)
    ensures r >= 1
  {
    if n == 0 then 1 else 2 * Pow2(n - 1)
  }

  /** Whether bit `b` of an int is set, in two's complement. */
  predicate BitSet(octet: int, b: nat)
    decreases b
  {
    if b == 0 then octet % 2 == 1 else BitSet(octet / 2, b - 1)
  }

  /** The low `k` bits of an int, most significant first. */
  function LowBits(octet: int, k: nat): (r: seq<bool>)
    ensures |r| == k
    decreases k
  {
    if k == 0 then [] else LowBits(octet / 2, k - 1) + [octet % 2 == 1]
  }

  lemma {:induction false} LowBitsAt(octet: int, k: nat, b: nat)
    requires b < k
    ensures LowBits(octet, k)[k - 1 - b] == BitSet(octet, b)
    decreases k
  {
    if b > 0 {
      LowBitsAt(octet / 2, k - 1, b - 1);
    }
  }

  /** The number that bits denote, most significant first. */
  function Value(bits: seq<bool>): nat {
    if bits == [] then 0 else 2 * Value(bits[..|bits| - 1]) + if bits[|bits| - 1] then 1 else 0
  }

  lemma {:induction false} ValueOfConcat(a: seq<bool>, b: seq<bool>)
    ensures Value(a + b) == Value(a) * Pow2(|b|) + Value(b)
  {
    if b == [] {
      assert a + b == a;
    } else {
      var n := |b| - 1;
      ValueOfConcat(a, b[..n]);
      assert (a + b)[..|a + b| - 1] == a + b[..n];
      assert Value(a) * Pow2(|b|) == 2 * (Value(a) * Pow2(n));
    }
  }

  lemma {:induction false} ValueOfLowBits(octet: int, k: nat)
    ensures Value(LowBits(octet, k)) == octet % Pow2(k)
    decreases k
  {
    if k > 0 {
      ValueOfLowBits(octet / 2, k - 1);
      var p, q := Pow2(k - 1), octet / 2;
      ModOfHalf(q, octet % 2, p);
      assert LowBits(octet, k)[..k - 1] == LowBits(q, k - 1);
    }
  }

  lemma ModOfHalf(q: int, d: int, p: nat)
    requires 0 <= d < 2 && p >= 1
    ensures (2 * q + d) % (2 * p) == 2 * (q % p) + d
  {
    var m := q / p;
    assert q == m * p + q % p;
    assert 2 * q + d == m * (2 * p) + (2 * (q % p) + d) by {
      assert m * (2 * p) == 2 * (m * p);
    }
    ModUnique(2 * q + d, 2 * p, m, 2 * (q % p) + d);
  }

  lemma AtLeastOnce(k: int, p: nat)
    ensures k >= 1 ==> k * p >= p
  {
  }

  lemma ModUnique(x: int, p: nat, m: int, r: int)
    requires p >= 1 && 0 <= r < p && x == m * p + r
    ensures x % p == r
  {
    var n, s := x / p, x % p;
    assert x == n * p + s;
    assert (m - n) * p == s - r;
    AtLeastOnce(m - n, p);
    AtLeastOnce(n - m, p);
    assert (n - m) * p == r - s;
  }

  lemma {:induction false} ValueIsInjective(a: seq<bool>, b: seq<bool>)
    requires |a| == |b| && Value(a) == Value(b)
    ensures a == b
  {
    if a != [] {
      var n := |a| - 1;
      ValueIsInjective(a[..n], b[..n]);
      assert a == a[..n] + [a[n]] && b == b[..n] + [b[n]];
    }
  }

  /** `n` ones, then only zeros. */
  ghost predicate IsMask(bits: seq<bool>, n: nat) {
    n <= |bits| && (forall i | 0 <= i < n :: bits[i]) && (forall i | n <= i < |bits| :: !bits[i])
  }

  lemma {:induction false} ValueOfMask(bits: seq<bool>, n: nat)
    requires IsMask(bits, n)
    ensures Value(bits) == Pow2(|bits|) - Pow2(|bits| - n)
  {
    if bits != [] {
      var m := |bits| - 1;
      if n == |bits| {
        ValueOfMask(bits[..m], m);
      } else {
        ValueOfMask(bits[..m], n);
        assert Pow2(|bits| - n) == 2 * Pow2(m - n);
      }
    }
  }

  function MaskBits(m: nat, n: nat): (r: seq<bool>)
    requires n <= m
    ensures |r| == m && IsMask(r, n)
  {
    seq(m, i => i < n)
  }

  /** Contiguous masks are exactly the numbers 2^m - 2^(m-n). */
  lemma MaskByValue(bits: seq<bool>, n: nat)
    requires n <= |bits|
    ensures IsMask(bits, n) <==> Value(bits) == Pow2(|bits|) - Pow2(|bits| - n)
  {
    ValueOfMask(MaskBits(|bits|, n), n);
    if IsMask(bits, n) {
      ValueOfMask(bits, n);
    }
    if Value(bits) == Pow2(|bits|) - Pow2(|bits| - n) {
      ValueIsInjective(bits, MaskBits(|bits|, n));
    }
  }

  // ---------------------------------------------------------------- dotted quads

  function AllNumbers(parts: seq<string>): (r: Option<seq<int>>)
    ensures r.Some? ==> |r.value| == |parts|
  {
    if parts == [] then Some([]) else
      match (AllNumbers(parts[..|parts| - 1]), Atoi(parts[|parts| - 1]))
      case (Some(front), Some(n)) => Some(front + [n])
      case _ => None
  }

  /** The four numbers of a dotted quad. */
  function Octets(mask: string): (r: Option<seq<int>>)
    ensures r.Some? ==> |r.value| == 4
  {
    var parts := Split(mask, '.');
    if |parts| == 4 then AllNumbers(parts) else None
  }

  /** The low eight bits of each number, one after the other. */
  function OctetBits(os: seq<int>): (r: seq<bool>)
    ensures |r| == 8 * |os|
  {
    if os == [] then [] else OctetBits(os[..|os| - 1]) + LowBits(os[|os| - 1], 8)
  }

  function MaskValue(os: seq<int>): nat {
    if os == [] then 0 else MaskValue(os[..|os| - 1]) * 256 + os[|os| - 1] % 256
  }

  lemma {:induction false} ValueOfOctets(os: seq<int>)
    ensures Value(OctetBits(os)) == MaskValue(os)
  {
    if os != [] {
      var n := |os| - 1;
      ValueOfOctets(os[..n]);
      ValueOfConcat(OctetBits(os[..n]), LowBits(os[n], 8));
      ValueOfLowBits(os[n], 8);
      assert Pow2(8) == 256 by {
        assert Pow2(4) == 16;
      }
    }
  }

  // ---------------------------------------------------------------- maskToCIDR

  /** The bits of an address. */
  const WIDTH: nat := 32

  function LeadingOnes(bits: seq<bool>): (n: nat)
    ensures n <= |bits| && (forall i | 0 <= i < n :: bits[i]) && (n < |bits| ==> !bits[n])
  {
    if bits == [] || !bits[0] then 0 else 1 + LeadingOnes(bits[1..])
  }

  /** The prefix length of a contiguous mask, 0 for any other bits. */
  ghost function PrefixLength(bits: seq<bool>): int {
    if IsMask(bits, LeadingOnes(bits)) then LeadingOnes(bits) else 0
  }

  ghost function MaskLength(mask: string): int {
    if Octets(mask).Some? then PrefixLength(OctetBits(Octets(mask).value)) else 0
  }

  lemma MaskIsUnique(bits: seq<bool>, n: nat)
    requires IsMask(bits, n)
    ensures PrefixLength(bits) == n
  {
    var k := LeadingOnes(bits);
    assert k < |bits| ==> !bits[k];
    assert n < |bits| ==> !bits[n];
  }

  lemma PrefixLengthIsExact(bits: seq<bool>, n: nat)
    requires 1 <= n <= |bits|
    ensures PrefixLength(bits) == n <==> Value(bits) == Pow2(|bits|) - Pow2(|bits| - n)
  {
    MaskByValue(bits, n);
    if IsMask(bits, n) {
      MaskIsUnique(bits, n);
    }
  }

  /** Netmask arithmetic is exact (section 3.1 of RFC 4632): for each n from 1 to 32, the prefix length is n
      if and only if the 32-bit mask is 2^32 - 2^(32-n); it is 0 for everything else. */
  lemma MaskLengthIsExact(mask: string, n: int)
    requires Octets(mask).Some?
    ensures 0 <= MaskLength(mask) <= WIDTH
    ensures 1 <= n <= WIDTH ==>
      (MaskLength(mask) == n <==> MaskValue(Octets(mask).value) == Pow2(WIDTH) - Pow2(WIDTH - n))
  {
    LengthIsExact(mask, n, WIDTH);
  }

  lemma PrefixLengthBounds(bits: seq<bool>)
    ensures 0 <= PrefixLength(bits) <= |bits|
  {
  }

  lemma LengthIsExact(mask: string, n: int, width: nat)
    requires Octets(mask).Some? && width == 8 * |Octets(mask).value|
    ensures 0 <= MaskLength(mask) <= width
    ensures 1 <= n <= width ==>
      (MaskLength(mask) == n <==> MaskValue(Octets(mask).value) == Pow2(width) - Pow2(width - n))
  {
    var os := Octets(mask).value;
    var bits := OctetBits(os);
    ValueOfOctets(os);
    PrefixLengthBounds(bits);
    assert |bits| == width && MaskLength(mask) == PrefixLength(bits);
    if 1 <= n <= width {
      PrefixLengthIsExact(bits, n);
    }
  }

  /** Where the scan stands after reading `seen`: it goes on as long as no one has followed a zero. */
  ghost predicate Scanning(seen: seq<bool>, bits: int, seenZero: bool) {
    0 <= bits && IsMask(seen, bits) && (seenZero <==> bits < |seen|)
  }

  lemma {:induction false} PartialFailure(parts: seq<string>, n: nat)
    requires n < |parts| && Atoi(parts[n]).None?
    ensures AllNumbers(parts).None?
  {
    if n < |parts| - 1 {
      PartialFailure(parts[..|parts| - 1], n);
    }
  }

  lemma {:induction false} PartialNumbers(parts: seq<string>, n: nat)
    requires n <= |parts| && AllNumbers(parts).Some?
    ensures AllNumbers(parts[..n]).Some? && AllNumbers(parts[..n]).value == AllNumbers(parts).value[..n]
    decreases |parts| - n
  {
    if n == |parts| {
      assert parts[..n] == parts;
      assert AllNumbers(parts).value[..n] == AllNumbers(parts).value;
    } else {
      PartialNumbers(parts, n + 1);
      assert parts[..n + 1][..n] == parts[..n];
      assert AllNumbers(parts).value[..n + 1][..n] == AllNumbers(parts).value[..n];
    }
  }

  lemma {:induction false} OctetBitsPrefix(os: seq<int>, n: nat)
    requires n <= |os|
    ensures OctetBits(os[..n]) <= OctetBits(os)
    decreases |os|
  {
    if n < |os| {
      OctetBitsPrefix(os[..|os| - 1], n);
      assert os[..|os| - 1][..n] == os[..n];
    } else {
      assert os[..n] == os;
    }
  }

  /** One more bit: a one after a zero aborts the scan. */
  method ScanBit(bit: bool, ghost now: seq<bool>, ghost all: seq<bool>, bits: int, seenZero: bool)
    returns (ok: bool, bits': int, seenZero': bool)
    requires Scanning(now, bits, seenZero) && now + [bit] <= all
    ensures ok ==> Scanning(now + [bit], bits', seenZero')
    ensures !ok ==> forall n :: !IsMask(all, n)
  {
    ok, bits', seenZero' := true, bits, seenZero;
    ScanStep(now, bit);
    if bit {
      if seenZero {
        NoMask(now, all, bits);
        return false, bits, seenZero;
      }
      bits' := bits + 1;
    } else {
      seenZero' := true;
    }
  }

  /** One octet: eight bits, from the highest; the scan may abort at any of them. */
  method ScanOctet(octet: int, ghost seen: seq<bool>, bits: int, seenZero: bool)
    returns (ok: bool, bits': int, seenZero': bool)
    requires Scanning(seen, bits, seenZero)
    ensures ok ==> Scanning(seen + LowBits(octet, 8), bits', seenZero')
    ensures !ok ==> forall n :: !IsMask(seen + LowBits(octet, 8), n)
  {
    ok, bits', seenZero' := true, bits, seenZero;
    ghost var low := LowBits(octet, 8);
    var b := 7;
    while b >= 0
      invariant -1 <= b <= 7
      invariant Scanning(seen + low[..7 - b], bits', seenZero')
    {
      NextBit(octet, b, seen);
      ok, bits', seenZero' := ScanBit(BitSet(octet, b), seen + low[..7 - b], seen + low, bits', seenZero');
      if !ok {
        return;
      }
      b := b - 1;
    }
    assert low[..8] == low;
    ok := true;
  }

  lemma NextBit(octet: int, b: nat, seen: seq<bool>)
    requires b < 8
    ensures var low := LowBits(octet, 8);
      && seen + low[..8 - b] == (seen + low[..7 - b]) + [BitSet(octet, b)]
      && (seen + low[..7 - b]) + [BitSet(octet, b)] <= seen + low
  {
    var low := LowBits(octet, 8);
    LowBitsAt(octet, 8, b);
    TakeOneMore(low, 7 - b);
    assert seen + low[..8 - b] <= seen + low;
  }

  lemma ScanStep(now: seq<bool>, bit: bool)
    ensures forall n: nat :: IsMask(now, n) && (bit ==> n == |now|) ==> IsMask(now + [bit], if bit then n + 1 else n)
  {
  }

  /** A one after a zero, however far on, rules out every prefix length. */
  lemma NoMask(now: seq<bool>, all: seq<bool>, i: int)
    requires now + [true] <= all
    requires 0 <= i < |now| && !now[i]
    ensures forall n :: !IsMask(all, n)
  {
    assert all[i] == (now + [true])[i] == now[i] && all[|now|] == (now + [true])[|now|] == true;
  }

  method MaskToCIDR(mask: string) returns (n: int)
    ensures n == MaskLength(mask)
  {
    var parts := Split(mask, '.');
    if |parts| != 4 {
      return 0;
    }
    n := 0;
    var seenZero := false;
    ghost var os: seq<int> := [];
    for i := 0 to 4
      invariant AllNumbers(parts[..i]) == Some(os)
      invariant Scanning(OctetBits(os), n, seenZero)
    {
      TakeOneMore(parts, i);
      var octet := Atoi(parts[i]);
      if octet.None? {
        PartialFailure(parts, i);
        return 0;
      }
      assert (os + [octet.value])[..|os|] == os;
      var ok;
      ok, n, seenZero := ScanOctet(octet.value, OctetBits(os), n, seenZero);
      os := os + [octet.value];
      if !ok {
        Aborted(parts, i + 1, os);
        return 0;
      }
    }
    FirstFour(parts);
    MaskIsUnique(OctetBits(os), n);
  }

  lemma FirstFour<T>(s: seq<T>)
    requires |s| == 4
    ensures s[..4] == s
  {
  }

  lemma Aborted(parts: seq<string>, n: nat, os: seq<int>)
    requires n <= |parts| && AllNumbers(parts[..n]) == Some(os)
    requires forall k :: !IsMask(OctetBits(os), k)
    ensures AllNumbers(parts).Some? ==> PrefixLength(OctetBits(AllNumbers(parts).value)) == 0
  {
    if AllNumbers(parts).Some? {
      var all := AllNumbers(parts).value;
      PartialNumbers(parts, n);
      OctetBitsPrefix(all, n);
      var k := LeadingOnes(OctetBits(all));
      if IsMask(OctetBits(all), k) {
        var short := OctetBits(os);
        assert IsMask(short, if k <= |short| then k else |short|);
      }
    }
  }

  /** A text that is not four numbers has no prefix length. */
  lemma MalformedMask(mask: string, i: nat)
    requires |Split(mask, '.')| != 4 || (i < 4 && Atoi(Split(mask, '.')[i]).None?)
    ensures MaskLength(mask) == 0
  {
    if |Split(mask, '.')| == 4 {
      PartialFailure(Split(mask, '.'), i);
    }
  }

  // ---------------------------------------------------------------- hexToIP

  /** Four bytes as a dotted quad. */
  function Dotted(a: byte, b: byte, c: byte, d: byte): string {
    Join([Itoa(a), Itoa(b), Itoa(c), Itoa(d)], ".")
  }

  /** The dotted quad of eight hex digits, least significant byte first; empty for any other text. */
  function IPText(hexStr: string): string {
    if |hexStr| != 8 || HexBytes(hexStr).None? then "" else
      var b := HexBytes(hexStr).value;
      if |b| == 4 then Dotted(b[3], b[2], b[1], b[0]) else ""
  }

  /** strconv.ParseUint of two characters in base 16 */
  function ParseByte(hi: char, lo: char): Option<byte> {
    if HexValue(hi).Some? && HexValue(lo).Some? then Some(HexValue(hi).value * 16 + HexValue(lo).value) else None
  }

  lemma {:induction false} HexBytesAt(s: string, n: nat)
    requires |s| == 2 * n
    ensures HexBytes(s).Some? <==> forall i | 0 <= i < n :: ParseByte(s[2 * i], s[2 * i + 1]).Some?
    ensures HexBytes(s).Some? ==>
      && |HexBytes(s).value| == n
      && forall i | 0 <= i < n :: Some(HexBytes(s).value[i]) == ParseByte(s[2 * i], s[2 * i + 1])
  {
    if n > 0 {
      var t := s[2..];
      HexBytesAt(t, n - 1);
      assert forall i | 0 <= i < n - 1 :: t[2 * i] == s[2 * (i + 1)] && t[2 * i + 1] == s[2 * (i + 1) + 1];
      if forall i | 0 <= i < n :: ParseByte(s[2 * i], s[2 * i + 1]).Some? {
        assert ParseByte(s[2 * 0], s[2 * 0 + 1]).Some?;
        forall i | 0 <= i < n - 1 ensures ParseByte(t[2 * i], t[2 * i + 1]).Some? {
          assert ParseByte(s[2 * (i + 1)], s[2 * (i + 1) + 1]).Some?;
        }
      }
      if HexBytes(s).Some? {
        forall i | 0 <= i < n ensures Some(HexBytes(s).value[i]) == ParseByte(s[2 * i], s[2 * i + 1]) {
          if i > 0 {
            assert Some(HexBytes(t).value[i - 1]) == ParseByte(t[2 * (i - 1)], t[2 * (i - 1) + 1]);
          }
        }
      }
    }
  }

  method HexToIP(hexStr: string) returns (ip: string)
    ensures ip == IPText(hexStr)
  {
    if |hexStr| != 8 {
      return "";
    }
    HexBytesAt(hexStr, 4);
    var bytes := new byte[4](_ => 0);
    for i := 0 to 4
      invariant forall k | 0 <= k < i :: Some(bytes[k]) == ParseByte(hexStr[2 * k], hexStr[2 * k + 1])
    {
      var val := ParseByte(hexStr[i * 2], hexStr[i * 2 + 1]);
      if val.None? {
        return "";
      }
      bytes[i] := val.value;
    }
    ip := Dotted(bytes[3], bytes[2], bytes[1], bytes[0]);
  }

  /** The decoder inverts the printer, in either letter case. */
  lemma HexToIPInverts(a: byte, b: byte, c: byte, d: byte, k: Case)
    ensures IPText(HexText([d, c, b, a], k)) == Dotted(a, b, c, d)
  {
    HexRoundTrip([d, c, b, a], k);
  }

  /** Any text but eight hexadecimal digits gives the empty string, and eight of them never do. */
  lemma HexTextOnly(hexStr: string)
    ensures IPText(hexStr) != "" <==>
      |hexStr| == 8 && forall i | 0 <= i < 8 :: hexStr[i] in "0123456789abcdefABCDEF"
  {
    if |hexStr| == 8 {
      HexBytesAt(hexStr, 4);
      forall i | 0 <= i < 8 ensures HexValue(hexStr[i]).Some? <==> hexStr[i] in "0123456789abcdefABCDEF" {
        HexDigits(hexStr[i]);
      }
      PairsAreDigits(hexStr);
    }
  }

  lemma PairsAreDigits(s: string)
    requires |s| == 8
    ensures (forall i | 0 <= i < 4 :: ParseByte(s[2 * i], s[2 * i + 1]).Some?)
      <==> (forall i | 0 <= i < 8 :: HexValue(s[i]).Some?)
  {
    if forall i | 0 <= i < 4 :: ParseByte(s[2 * i], s[2 * i + 1]).Some? {
      forall i | 0 <= i < 8 ensures HexValue(s[i]).Some? {
        assert ParseByte(s[2 * (i / 2)], s[2 * (i / 2) + 1]).Some?;
      }
    }
  }

  lemma OctetText(n: byte)
    ensures '.' !in Itoa(n) && Atoi(Itoa(n)) == Some(n)
  {
    NumberRoundTrip(n);
    assert forall i | 0 <= i < |Decimal(n)| :: IsDigit(Decimal(n)[i]);
  }

  /** A dotted quad parses back to its octets. */
  lemma DottedRoundTrip(a: byte, b: byte, c: byte, d: byte)
    ensures Octets(Dotted(a, b, c, d)) == Some([a, b, c, d])
  {
    OctetText(a);
    OctetText(b);
    OctetText(c);
    OctetText(d);
    FourNumbers([Itoa(a), Itoa(b), Itoa(c), Itoa(d)], [a, b, c, d]);
  }

  lemma FourNumbers(parts: seq<string>, ns: seq<int>)
    requires |parts| == 4 && |ns| == 4
    requires forall i | 0 <= i < 4 :: '.' !in parts[i] && Atoi(parts[i]) == Some(ns[i])
    ensures Octets(Join(parts, ".")) == Some(ns)
  {
    SplitOfJoin(parts, '.');
    for i := 0 to 4
      invariant AllNumbers(parts[..i]) == Some(ns[..i])
    {
      OneMoreNumber(parts[..i], ns[..i], parts[..i + 1], ns[..i + 1]);
    }
    FirstFour(parts);
    FirstFour(ns);
  }

  lemma OneMoreNumber(front: seq<string>, ns: seq<int>, parts: seq<string>, all: seq<int>)
    requires AllNumbers(front) == Some(ns) && |parts| == |all| == |front| + 1
    requires parts[..|front|] == front && all[..|front|] == ns && Atoi(parts[|front|]) == Some(all[|front|])
    ensures AllNumbers(parts) == Some(all)
  {
    FrontAndLast(all, ns);
  }

  lemma LengthOfWidth(mask: string, n: nat, width: nat)
    requires Octets(mask).Some? && width == 8 * |Octets(mask).value| && n <= width
    requires MaskValue(Octets(mask).value) == Pow2(width) - Pow2(width - n)
    ensures MaskLength(mask) == n
  {
    var m := MaskLength(mask);
    LengthIsExact(mask, n, width);
    LengthIsExact(mask, m, width);
    if n == 0 && m != 0 {
      Pow2Below(width - m, width);
    }
  }

  lemma LengthFromValue(mask: string, n: int)
    requires Octets(mask).Some? && 0 <= n <= WIDTH
    requires MaskValue(Octets(mask).value) == Pow2(WIDTH) - Pow2(WIDTH - n)
    ensures MaskLength(mask) == n
  {
    LengthOfWidth(mask, n, WIDTH);
  }

  /** The prefix length is recovered from the kernel's encoding of the /n mask. */
  lemma PrefixLengthSurvives(n: int, a: byte, b: byte, c: byte, d: byte, k: Case)
    requires 0 <= n <= WIDTH
    requires ((a * 256 + b) * 256 + c) * 256 + d == Pow2(WIDTH) - Pow2(WIDTH - n)
    ensures MaskLength(IPText(HexText([d, c, b, a], k))) == n
  {
    HexToIPInverts(a, b, c, d, k);
    DottedRoundTrip(a, b, c, d);
    QuadValue(a, b, c, d);
    LengthFromValue(Dotted(a, b, c, d), n);
  }

  lemma QuadValue(a: byte, b: byte, c: byte, d: byte)
    ensures MaskValue([a, b, c, d]) == ((a * 256 + b) * 256 + c) * 256 + d
  {
    var os: seq<int> := [a, b, c, d];
    assert os[..3] == [a, b, c] && os[..3][..2] == [a, b] && os[..3][..2][..1] == [a] && os[..3][..2][..1][..0] == [];
    assert MaskValue(os[..3][..2][..1]) == a;
    assert MaskValue(os[..3][..2]) == a * 256 + b;
    assert MaskValue(os[..3]) == (a * 256 + b) * 256 + c;
  }

  lemma {:induction false} Pow2Below(m: nat, n: nat)
    requires m < n
    ensures Pow2(m) < Pow2(n)
  {
    if m < n - 1 {
      Pow2Below(m, n - 1);
    }
  }
}
