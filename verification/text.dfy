/** The parts of Go's `strings` and `strconv` packages that the program uses.

    A Go string of valid UTF-8 is a sequence of code points.  Comparing code points
    in order gives the same answer as comparing the UTF-8 bytes, which is what Go does. */
module Text {

  datatype Option<+T> = None | Some(value: T)

  const MIN_INT64: int := -0x8000_0000_0000_0000
  const MAX_INT64: int := 0x7FFF_FFFF_FFFF_FFFF

  predicate FitsInt64(n: int) {
    MIN_INT64 <= n <= MAX_INT64
  }

  // ---------------------------------------------------------------- white space

  /** unicode.IsSpace */
  predicate IsSpace(c: char) {
    var n := c as int;
    || 9 <= n <= 13 || n == 32 || n == 0x85 || n == 0xA0 || n == 0x1680
    || 0x2000 <= n <= 0x200A || n == 0x2028 || n == 0x2029 || n == 0x202F || n == 0x205F || n == 0x3000
  }

  function TrimLeft(s: string): (r: string)
    ensures r != "" ==> !IsSpace(r[0])
  {
    if s != "" && IsSpace(s[0]) then TrimLeft(s[1..]) else s
  }

  function TrimRight(s: string): (r: string)
    ensures r <= s
    ensures r != "" ==> !IsSpace(r[|r| - 1])
  {
    if s != "" && IsSpace(s[|s| - 1]) then TrimRight(s[..|s| - 1]) else s
  }

  /** strings.TrimSpace */
  function TrimSpace(s: string): (r: string)
    ensures Trimmed(r)
  {
    TrimRight(TrimLeft(s))
  }

  predicate Trimmed(s: string) {
    s != "" ==> !IsSpace(s[0]) && !IsSpace(s[|s| - 1])
  }

  predicate SpaceFree(s: string) {
    forall i | 0 <= i < |s| :: !IsSpace(s[i])
  }

  /** A token is what strings.Fields can return: non-empty and free of white space. */
  predicate IsToken(s: string) {
    s != "" && SpaceFree(s)
  }

  /** The longest prefix of `s` without white space. */
  function Word(s: string): (w: string)
    ensures w <= s && SpaceFree(w)
    ensures |w| < |s| ==> IsSpace(s[|w|])
  {
    if s == "" || IsSpace(s[0]) then "" else [s[0]] + Word(s[1..])
  }

  /** strings.Fields */
  function Fields(s: string): (r: seq<string>)
    ensures forall i | 0 <= i < |r| :: IsToken(r[i])
    decreases |s|
  {
    if s == "" then []
    else if IsSpace(s[0]) then Fields(s[1..])
    else [Word(s)] + Fields(s[|Word(s)|..])
  }

  lemma {:induction false} WordOfConcat(a: string, c: char, b: string)
    requires IsSpace(c)
    ensures Word(a + [c] + b) == Word(a)
  {
    if a == "" {
      assert (a + [c] + b)[0] == c;
    } else {
      assert (a + [c] + b)[1..] == a[1..] + [c] + b;
      WordOfConcat(a[1..], c, b);
    }
  }

  /** White space separates: the fields of a text cut at a space are those of its two sides. */
  lemma {:induction false} FieldsOfConcat(a: string, c: char, b: string)
    requires IsSpace(c)
    ensures Fields(a + [c] + b) == Fields(a) + Fields(b)
    decreases |a|
  {
    var s := a + [c] + b;
    if a == "" {
      assert s[1..] == b;
    } else if IsSpace(a[0]) {
      assert s[1..] == a[1..] + [c] + b;
      FieldsOfConcat(a[1..], c, b);
    } else {
      var w := Word(a);
      WordOfConcat(a, c, b);
      assert s[|w|..] == a[|w|..] + [c] + b;
      FieldsOfConcat(a[|w|..], c, b);
    }
  }

  lemma {:induction false} WordOfToken(t: string)
    requires SpaceFree(t)
    ensures Word(t) == t
  {
    if t != "" {
      WordOfToken(t[1..]);
    }
  }

  lemma FieldsOfToken(t: string)
    requires IsToken(t)
    ensures Fields(t) == [t]
  {
    WordOfToken(t);
    assert t[|t|..] == "";
  }

  lemma {:induction false} FieldsOfTrimLeft(s: string)
    ensures Fields(TrimLeft(s)) == Fields(s)
  {
    if s != "" && IsSpace(s[0]) {
      FieldsOfTrimLeft(s[1..]);
    }
  }

  lemma {:induction false} FieldsOfTrimRight(s: string)
    ensures Fields(TrimRight(s)) == Fields(s)
  {
    if s != "" && IsSpace(s[|s| - 1]) {
      var t := s[..|s| - 1];
      FieldsOfTrimRight(t);
      FieldsOfConcat(t, s[|s| - 1], "");
      assert s == t + [s[|s| - 1]] + "";
    }
  }

  /** Trimming a line never changes its fields, and leaves nothing exactly when there are none. */
  lemma FieldsOfTrimSpace(s: string)
    ensures Fields(TrimSpace(s)) == Fields(s)
    ensures TrimSpace(s) == "" <==> Fields(s) == []
  {
    FieldsOfTrimLeft(s);
    FieldsOfTrimRight(TrimLeft(s));
  }

  lemma TrimOfTrimmed(s: string)
    requires Trimmed(s)
    ensures TrimSpace(s) == s
  {
  }

  /** What surrounds the trimmed text is white space, and nothing else is cut off. */
  lemma TrimMeaning(s: string) returns (l: string, r: string)
    ensures s == l + TrimSpace(s) + r && Blank(l) && Blank(r)
  {
    l := TrimLeftMeaning(s);
    r := TrimRightMeaning(TrimLeft(s));
  }

  lemma {:induction false} TrimLeftMeaning(s: string) returns (l: string)
    ensures s == l + TrimLeft(s) && forall i | 0 <= i < |l| :: IsSpace(l[i])
  {
    l := "";
    if s != "" && IsSpace(s[0]) {
      var m := TrimLeftMeaning(s[1..]);
      l := [s[0]] + m;
      assert s == [s[0]] + s[1..];
    }
  }

  lemma {:induction false} TrimRightMeaning(s: string) returns (r: string)
    ensures s == TrimRight(s) + r && forall i | 0 <= i < |r| :: IsSpace(r[i])
  {
    r := "";
    if s != "" && IsSpace(s[|s| - 1]) {
      var m := TrimRightMeaning(s[..|s| - 1]);
      r := m + [s[|s| - 1]];
      assert s == s[..|s| - 1] + [s[|s| - 1]];
    }
  }

  lemma {:induction false} TrimLeftOfPadded(l: string, s: string)
    requires forall i | 0 <= i < |l| :: IsSpace(l[i])
    requires s != "" ==> !IsSpace(s[0])
    ensures TrimLeft(l + s) == s
  {
    if l == "" {
      assert l + s == s;
    } else {
      assert (l + s)[1..] == l[1..] + s;
      TrimLeftOfPadded(l[1..], s);
    }
  }

  lemma {:induction false} TrimRightOfPadded(s: string, r: string)
    requires forall i | 0 <= i < |r| :: IsSpace(r[i])
    requires s != "" ==> !IsSpace(s[|s| - 1])
    ensures TrimRight(s + r) == s
  {
    if r == "" {
      assert s + r == s;
    } else {
      assert (s + r)[..|s + r| - 1] == s + r[..|r| - 1];
      TrimRightOfPadded(s, r[..|r| - 1]);
    }
  }

  predicate Blank(s: string) {
    forall i | 0 <= i < |s| :: IsSpace(s[i])
  }

  lemma {:induction false} TrimLeftOfBlank(s: string)
    requires Blank(s)
    ensures TrimLeft(s) == ""
  {
    if s != "" {
      TrimLeftOfBlank(s[1..]);
    }
  }

  /** White space around a trimmed text, or alone, is trimmed off. */
  lemma TrimOfPadded(l: string, s: string, r: string)
    requires Trimmed(s)
    requires Blank(l) && Blank(r)
    ensures TrimSpace(l + s + r) == s
  {
    assert l + s + r == l + (s + r);
    if s == "" {
      TrimLeftOfBlank(l + s + r);
    } else {
      TrimLeftOfPadded(l, s + r);
      TrimRightOfPadded(s, r);
    }
  }

  /** In ASCII, white space is the blank, the tab and the line and page breaks. */
  lemma AsciiSpaces(c: char)
    requires c as int < 128
    ensures IsSpace(c) <==> c in " \t\n\r" || c as int == 11 || c as int == 12
  {
  }

  /** Tokens joined by a white-space character are the fields of the text. */
  lemma {:induction false} FieldsOfJoin(ts: seq<string>, c: char)
    requires IsSpace(c) && forall i | 0 <= i < |ts| :: IsToken(ts[i])
    ensures Fields(Join(ts, [c])) == ts
  {
    if |ts| == 1 {
      FieldsOfToken(ts[0]);
      assert ts == [ts[0]];
    } else if ts != [] {
      FieldsOfJoin(ts[1..], c);
      FieldsOfToken(ts[0]);
      FieldsOfConcat(ts[0], c, Join(ts[1..], [c]));
    }
  }

  // ---------------------------------------------------------------- splitting

  /** strings.Split for a one-character separator: never empty. */
  function Split(s: string, sep: char): (r: seq<string>)
    ensures |r| >= 1
    ensures forall i | 0 <= i < |r| :: sep !in r[i]
  {
    if s == "" then [""]
    else if s[0] == sep then [""] + Split(s[1..], sep)
    else
      var r := Split(s[1..], sep);
      [[s[0]] + r[0]] + r[1..]
  }

  /** strings.Join */
  function Join(parts: seq<string>, sep: string): string {
    if parts == [] then "" else if |parts| == 1 then parts[0] else parts[0] + sep + Join(parts[1..], sep)
  }

  lemma {:induction false} SplitOfFree(a: string, sep: char)
    requires sep !in a
    ensures Split(a, sep) == [a]
  {
    if a != "" {
      SplitOfFree(a[1..], sep);
      assert [a[0]] + a[1..] == a;
    }
  }

  /** Splitting distributes over joining two texts with the separator. */
  lemma {:induction false} SplitOfConcat(a: string, sep: char, b: string)
    ensures Split(a + [sep] + b, sep) == Split(a, sep) + Split(b, sep)
  {
    var s := a + [sep] + b;
    if a == "" {
      assert s[1..] == b;
    } else {
      assert s[1..] == a[1..] + [sep] + b;
      SplitOfConcat(a[1..], sep, b);
    }
  }

  lemma {:induction false} SplitOfJoin(parts: seq<string>, sep: char)
    requires parts != []
    requires forall i | 0 <= i < |parts| :: sep !in parts[i]
    ensures Split(Join(parts, [sep]), sep) == parts
  {
    var head, tail := parts[0], parts[1..];
    SplitOfFree(head, sep);
    if tail == [] {
      assert parts == [head];
    } else {
      forall i | 0 <= i < |tail| ensures sep !in tail[i] {
        assert tail[i] == parts[i + 1];
      }
      SplitOfJoin(tail, sep);
      SplitOfConcat(head, sep, Join(tail, [sep]));
      assert parts == [head] + tail;
    }
  }

  /** strings.Contains */
  predicate Contains(s: string, sub: string) {
    sub <= s || (s != "" && Contains(s[1..], sub))
  }

  ghost predicate OccursAt(s: string, sub: string, i: nat) {
    i + |sub| <= |s| && s[i..i + |sub|] == sub
  }

  lemma OccursInTail(s: string, sub: string, i: nat)
    requires s != ""
    ensures OccursAt(s[1..], sub, i) <==> OccursAt(s, sub, i + 1)
  {
    if i + |sub| < |s| {
      assert s[1..][i..i + |sub|] == s[i + 1..i + 1 + |sub|];
    }
  }

  lemma {:induction false} ContainsMeaning(s: string, sub: string)
    ensures Contains(s, sub) <==> exists i: nat :: OccursAt(s, sub, i)
  {
    if sub <= s {
      assert OccursAt(s, sub, 0);
    } else if s != "" {
      ContainsMeaning(s[1..], sub);
      if i: nat :| OccursAt(s[1..], sub, i) {
        OccursInTail(s, sub, i);
      }
      if i: nat :| OccursAt(s, sub, i) {
        assert i > 0;
        OccursInTail(s, sub, i - 1);
      }
    }
  }

  // ---------------------------------------------------------------- order and case

  /** Go's `<` on strings. */
  predicate Before(a: string, b: string) {
    b != "" && (a == "" || a[0] < b[0] || (a[0] == b[0] && Before(a[1..], b[1..])))
  }

  /** After a common beginning of length `k`, `a` ends or has the smaller code point. */
  ghost predicate ParesAt(a: string, b: string, k: nat) {
    k <= |a| && k < |b| && a[..k] == b[..k] && (k == |a| || a[k] as int < b[k] as int)
  }

  /** The order of strings is the order of dictionaries. */
  lemma {:induction false} BeforeMeaning(a: string, b: string)
    ensures Before(a, b) <==> exists k: nat :: ParesAt(a, b, k)
  {
    if a == "" || b == "" || a[0] != b[0] {
      if Before(a, b) {
        assert ParesAt(a, b, 0);
      }
      if k: nat :| ParesAt(a, b, k) {
        assert k > 0 ==> a[..k][0] == b[..k][0];
      }
    } else {
      BeforeMeaning(a[1..], b[1..]);
      if k: nat :| ParesAt(a[1..], b[1..], k) {
        assert a[..k + 1] == [a[0]] + a[1..][..k] && b[..k + 1] == [b[0]] + b[1..][..k];
        assert ParesAt(a, b, k + 1);
      }
      if k: nat :| ParesAt(a, b, k) {
        assert k > 0;
        assert a[1..][..k - 1] == a[..k][1..] && b[1..][..k - 1] == b[..k][1..];
        assert ParesAt(a[1..], b[1..], k - 1);
      }
    }
  }

  lemma {:induction false} BeforeIsStrictTotal(a: string, b: string)
    ensures !Before(a, a)
    ensures !(Before(a, b) && Before(b, a))
    ensures a != b ==> Before(a, b) || Before(b, a)
  {
    if a != "" {
      BeforeIsStrictTotal(a[1..], if b == "" then "" else b[1..]);
      if b != "" && a[0] == b[0] && a[1..] == b[1..] {
        assert a == [a[0]] + a[1..] == b;
      }
    }
  }

  lemma {:induction false} BeforeIsTransitive(a: string, b: string, c: string)
    requires Before(a, b) && Before(b, c)
    ensures Before(a, c)
  {
    if a != "" && a[0] == b[0] && b[0] == c[0] {
      BeforeIsTransitive(a[1..], b[1..], c[1..]);
    }
  }

  /** unicode.ToLower as far as ASCII is concerned: the ASCII capitals and the only two other code
      points whose lower case is ASCII (Kelvin sign and dotted capital I).  All others stay. */
  function LowerChar(c: char): char {
    if 'A' <= c <= 'Z' then c + 32 as char
    else if c as int == 0x212A then 'k'
    else if c as int == 0x130 then 'i'
    else c
  }

  /** strings.ToLower */
  function ToLower(s: string): (r: string)
    ensures |r| == |s| && forall i | 0 <= i < |s| :: r[i] == LowerChar(s[i])
  {
    seq(|s|, i requires 0 <= i < |s| => LowerChar(s[i]))
  }

  /** A lower-casing that agrees with this one wherever either gives an ASCII character. */
  ghost predicate LowersAscii(lower: char -> char) {
    forall c :: lower(c) as int < 128 || LowerChar(c) as int < 128 ==> lower(c) == LowerChar(c)
  }

  /** Which texts lower to an ASCII word does not depend on how other characters are lowered. */
  lemma LoweringToAscii(lower: char -> char, s: string, word: string)
    requires LowersAscii(lower) && |s| == |word|
    requires forall i | 0 <= i < |word| :: word[i] as int < 128
    ensures (forall i | 0 <= i < |s| :: lower(s[i]) == word[i]) <==> ToLower(s) == word
  {
    if forall i | 0 <= i < |s| :: lower(s[i]) == word[i] {
      assert forall i | 0 <= i < |s| :: LowerChar(s[i]) == lower(s[i]);
    }
    if ToLower(s) == word {
      assert forall i | 0 <= i < |s| :: ToLower(s)[i] == LowerChar(s[i]) == lower(s[i]);
    }
  }

  /** The capital of an ASCII letter; any other character is its own. */
  function UpperChar(c: char): char {
    match c
    case 'a' => 'A' case 'b' => 'B' case 'c' => 'C' case 'd' => 'D' case 'e' => 'E' case 'f' => 'F'
    case 'g' => 'G' case 'h' => 'H' case 'i' => 'I' case 'j' => 'J' case 'k' => 'K' case 'l' => 'L'
    case 'm' => 'M' case 'n' => 'N' case 'o' => 'O' case 'p' => 'P' case 'q' => 'Q' case 'r' => 'R'
    case 's' => 'S' case 't' => 'T' case 'u' => 'U' case 'v' => 'V' case 'w' => 'W' case 'x' => 'X'
    case 'y' => 'Y' case 'z' => 'Z'
    case _ => c
  }

  /** Some letters of a word in capitals. */
  ghost predicate Capitalised(word: string, s: string) {
    |s| == |word| && forall i | 0 <= i < |s| :: s[i] == word[i] || s[i] == UpperChar(word[i])
  }

  lemma LowerCharOfUpper(c: char)
    requires LowerChar(c) == c
    ensures LowerChar(UpperChar(c)) == c
  {
  }

  /** Lower-casing undoes capitals. */
  lemma LowerOfCapitals(word: string, s: string)
    requires ToLower(word) == word && Capitalised(word, s)
    ensures ToLower(s) == word
  {
    forall i | 0 <= i < |s| ensures LowerChar(s[i]) == word[i] {
      assert ToLower(word)[i] == word[i];
      LowerCharOfUpper(word[i]);
    }
  }

  /** A word in lower-case ASCII letters, digits and marks is its own lower case, and nothing with a capital is. */
  lemma LowerFixes(s: string)
    ensures (forall i | 0 <= i < |s| :: s[i] as int < 128 && s[i] !in "ABCDEFGHIJKLMNOPQRSTUVWXYZ") ==> ToLower(s) == s
    ensures ToLower(s) == s ==> forall i | 0 <= i < |s| :: s[i] !in "ABCDEFGHIJKLMNOPQRSTUVWXYZ"
  {
    if ToLower(s) == s {
      forall i | 0 <= i < |s| ensures s[i] !in "ABCDEFGHIJKLMNOPQRSTUVWXYZ" {
        assert ToLower(s)[i] == LowerChar(s[i]);
        CapitalsMove(s[i]);
      }
    }
    if forall i | 0 <= i < |s| :: s[i] as int < 128 && s[i] !in "ABCDEFGHIJKLMNOPQRSTUVWXYZ" {
      forall i | 0 <= i < |s| ensures LowerChar(s[i]) == s[i] {
        CapitalsMove(s[i]);
      }
    }
  }

  lemma CapitalsMove(c: char)
    ensures c in "ABCDEFGHIJKLMNOPQRSTUVWXYZ" <==> 'A' <= c <= 'Z'
    ensures c as int < 128 ==> (LowerChar(c) != c <==> 'A' <= c <= 'Z')
  {
    var capitals := "ABCDEFGHIJKLMNOPQRSTUVWXYZ";
    if 'A' <= c <= 'Z' {
      assert capitals[c as int - 'A' as int] == c;
    }
  }

  lemma LowerIsIdempotent(s: string)
    ensures ToLower(ToLower(s)) == ToLower(s)
    ensures Trimmed(s) ==> Trimmed(ToLower(s))
  {
  }

  // ---------------------------------------------------------------- numbers

  predicate IsDigit(c: char) {
    '0' <= c <= '9'
  }

  predicate AllDigits(s: string) {
    forall i | 0 <= i < |s| :: IsDigit(s[i])
  }

  function DigitValue(c: char): nat
    requires IsDigit(c)
  {
    c as int - '0' as int
  }

  function DigitChar(d: int): (c: char)
    requires 0 <= d < 10
    ensures IsDigit(c) && DigitValue(c) == d
  {
    '0' + d as char
  }

  /** The number a string of decimal digits denotes. */
  function Number(s: string): nat
    requires AllDigits(s)
  {
    if s == "" then 0 else Number(s[..|s| - 1]) * 10 + DigitValue(s[|s| - 1])
  }

  /** The decimal digits of `n`, without leading zeros. */
  function Decimal(n: nat): (s: string)
    ensures s != "" && AllDigits(s) && Number(s) == n
  {
    if n < 10 then [DigitChar(n)] else
      var t := Decimal(n / 10) + [DigitChar(n % 10)];
      assert t[..|t| - 1] == Decimal(n / 10);
      t
  }

  lemma {:induction false} NoLeadingZero(n: nat)
    ensures |Decimal(n)| > 1 ==> Decimal(n)[0] != '0'
    ensures n > 0 ==> Decimal(n)[0] != '0'
  {
    if n >= 10 {
      NoLeadingZero(n / 10);
    }
  }

  /** strconv.Itoa and fmt's %d */
  function Itoa(n: int): (s: string)
    ensures s != ""
  {
    if n < 0 then "-" + Decimal(-n) else Decimal(n)
  }

  function Magnitude(s: string): string {
    if s != "" && (s[0] == '+' || s[0] == '-') then s[1..] else s
  }

  function Signed(s: string, n: nat): int {
    if s != "" && s[0] == '-' then 0 - n else n
  }

  /** strconv.Atoi on a 64-bit platform; None stands for any error. */
  function Atoi(s: string): Option<int> {
    var m := Magnitude(s);
    if m == "" || !AllDigits(m) then None
    else if FitsInt64(Signed(s, Number(m))) then Some(Signed(s, Number(m))) else None
  }

  /** The longest prefix of decimal digits. */
  function DigitPrefix(s: string): (p: string)
    ensures p <= s && AllDigits(p)
    ensures |p| < |s| ==> !IsDigit(s[|p|])
  {
    if s == "" || !IsDigit(s[0]) then "" else [s[0]] + DigitPrefix(s[1..])
  }

  /** fmt.Sscanf of a token with "%d": an optional sign and at least one digit, the rest ignored;
      None stands for an error, which leaves the variable as it was. */
  function ScanInt(s: string): Option<int> {
    var p := DigitPrefix(Magnitude(s));
    if p == "" then None
    else if FitsInt64(Signed(s, Number(p))) then Some(Signed(s, Number(p))) else None
  }

  lemma {:induction false} DigitPrefixMaximal(d: string, rest: string)
    requires AllDigits(d)
    requires rest != "" ==> !IsDigit(rest[0])
    ensures DigitPrefix(d + rest) == d
  {
    if d == "" {
      assert d + rest == rest;
    } else {
      assert (d + rest)[1..] == d[1..] + rest;
      DigitPrefixMaximal(d[1..], rest);
    }
  }

  /** Digits with something else behind them: one reader stops there, the other refuses. */
  lemma NumberWithTail(d: string, rest: string)
    requires d != "" && AllDigits(d) && rest != "" && !IsDigit(rest[0]) && FitsInt64(Number(d))
    ensures ScanInt(d + rest) == Some(Number(d)) && Atoi(d + rest) == None
  {
    DigitPrefixMaximal(d, rest);
    assert (d + rest)[0] == d[0] && (d + rest)[|d|] == rest[0];
  }

  lemma ItoaIsToken(n: int)
    ensures IsToken(Itoa(n))
  {
    forall i | 0 <= i < |Itoa(n)| ensures !IsSpace(Itoa(n)[i]) {
      assert IsDigit(Itoa(n)[i]) || Itoa(n)[i] == '-';
    }
  }

  lemma MagnitudeOfItoa(n: int)
    ensures Magnitude(Itoa(n)) == Decimal(if n < 0 then -n else n)
    ensures Signed(Itoa(n), Number(Magnitude(Itoa(n)))) == n
  {
    var d := Decimal(if n < 0 then -n else n);
    assert n < 0 ==> Itoa(n)[1..] == d;
    assert IsDigit(d[0]);
  }

  /** Printing and reading back a 64-bit integer, by either reader. */
  lemma NumberRoundTrip(n: int)
    requires FitsInt64(n)
    ensures Atoi(Itoa(n)) == Some(n)
    ensures ScanInt(Itoa(n)) == Some(n)
    ensures IsToken(Itoa(n))
  {
    var d := Decimal(if n < 0 then -n else n);
    MagnitudeOfItoa(n);
    ItoaIsToken(n);
    DigitPrefixMaximal(d, "");
    assert d + "" == d;
  }
}
