/** Extra HTTP headers from the command line and from tsh's config.yaml, and the host CA endpoints
    (internal/config/options.go and runtime.go, internal/discovery/tshconfig.go). */
module Headers {
  import opened Text
  import opened Hex
  import opened Lists
  import opened Maps
  import opened Targets

  type HeaderMap = map<string, string>

  // ---------------------------------------------------------------- config.yaml

  datatype ProxyHeaders = ProxyHeaders(proxy: string, headers: HeaderMap)

  /** path.Match: None for a malformed pattern. */
  type Matcher = (string, string) -> Option<bool>

  predicate Applies(m: Matcher, host: string, e: ProxyHeaders) {
    TrimSpace(e.proxy) != "" && m(TrimSpace(e.proxy), host) == Some(true)
  }

  /** An iteration order of a map: every key once. */
  ghost predicate IsOrder(headers: HeaderMap, order: seq<string>) {
    multiset(order) == multiset(headers.Keys)
  }

  predicate Names(key: string, h: string) {
    h != "" && TrimSpace(key) == h
  }

  /** The headers of one entry, written in a given order over what is there. */
  function WriteInOrder(before: HeaderMap, headers: HeaderMap, order: seq<string>): HeaderMap {
    if order == [] then before else
      var m := WriteInOrder(before, headers, order[..|order| - 1]);
      var k := order[|order| - 1];
      if TrimSpace(k) != "" && k in headers then m[TrimSpace(k) := headers[k]] else m
  }

  /** The last key of an order that names a header. */
  function LastKey(order: seq<string>, h: string): (k: Option<string>)
    ensures k.Some? ==> k.value in order && Names(k.value, h)
    ensures k.None? ==> forall x | x in order :: !Names(x, h)
  {
    if order == [] then None
    else
      assert order == order[..|order| - 1] + [order[|order| - 1]];
      if Names(order[|order| - 1], h) then Some(order[|order| - 1])
      else LastKey(order[..|order| - 1], h)
  }

  lemma {:induction false} WriteInOrderAt(before: HeaderMap, headers: HeaderMap, order: seq<string>, h: string)
    requires forall k | k in order :: k in headers
    ensures var m := WriteInOrder(before, headers, order);
      match LastKey(order, h)
      case Some(k) => h in m && m[h] == headers[k]
      case None => (h in m <==> h in before) && (h in m ==> m[h] == before[h])
  {
    if order != [] {
      var n := |order| - 1;
      assert order == order[..n] + [order[n]];
      WriteInOrderAt(before, headers, order[..n], h);
    }
  }

  /** The inner loop, in whatever order the map is iterated: a header gets the value of a key that names it,
      and keeps what it had when there is none. */
  method WriteHeaders(before: HeaderMap, headers: HeaderMap) returns (after: HeaderMap, ghost order: seq<string>)
    ensures IsOrder(headers, order) && after == WriteInOrder(before, headers, order)
    ensures forall h ::
      if exists k :: k in headers && Names(k, h) then Carries(after, headers, h) else SameAt(after, before, h)
  {
    after, order := before, [];
    var rest := headers.Keys;
    while rest != {}
      invariant rest <= headers.Keys && multiset(order) + multiset(rest) == multiset(headers.Keys)
      invariant after == WriteInOrder(before, headers, order)
      decreases rest
    {
      var k :| k in rest;
      assert multiset(rest) == multiset{k} + multiset(rest - {k});
      assert (order + [k])[..|order|] == order;
      var name := TrimSpace(k);
      if name != "" {
        after := after[name := headers[k]];
      }
      order, rest := order + [k], rest - {k};
    }
    OrderHasKeys(headers, order);
    forall h
      ensures if exists k :: k in headers && Names(k, h) then Carries(after, headers, h) else SameAt(after, before, h)
    {
      WriteInOrderAt(before, headers, order, h);
    }
  }

  /** A header is there with the value of a key that names it. */
  ghost predicate Carries(m: HeaderMap, headers: HeaderMap, h: string) {
    h in m && exists k :: k in headers && Names(k, h) && m[h] == headers[k]
  }

  /** Two outcomes of the merge give a header the same value, or neither has it. */
  ghost predicate SameAt(a: HeaderMap, b: HeaderMap, h: string) {
    (h in a <==> h in b) && (h in a && h in b ==> a[h] == b[h])
  }

  /** The headers of all matching entries, with an iteration order for each entry. */
  function Matching(m: Matcher, host: string, entries: seq<ProxyHeaders>, orders: seq<seq<string>>): HeaderMap
    requires |orders| == |entries|
  {
    if entries == [] then map[] else
      var n := |entries| - 1;
      var before := Matching(m, host, entries[..n], orders[..n]);
      if Applies(m, host, entries[n]) then WriteInOrder(before, entries[n].headers, orders[n]) else before
  }

  ghost predicate AreOrders(entries: seq<ProxyHeaders>, orders: seq<seq<string>>) {
    |orders| == |entries| && forall i | 0 <= i < |entries| :: IsOrder(entries[i].headers, orders[i])
  }

  /** MatchingHeaders: a header's value is that of the last matching entry that names it. */
  method MatchingHeaders(m: Matcher, host: string, entries: seq<ProxyHeaders>)
    returns (result: HeaderMap, ghost orders: seq<seq<string>>)
    ensures AreOrders(entries, orders) && result == Matching(m, host, entries, orders)
    ensures forall h :: FromLastNaming(m, host, entries, result, h)
  {
    result, orders := map[], [];
    for n := 0 to |entries|
      invariant AreOrders(entries[..n], orders) && result == Matching(m, host, entries[..n], orders)
    {
      var entry := entries[n];
      TakeOneMore(entries, n);
      ghost var order := SomeOrder(entry.headers);
      var pattern := TrimSpace(entry.proxy);
      if pattern != "" && m(pattern, host) == Some(true) {
        result, order := WriteHeaders(result, entry.headers);
      }
      assert (orders + [order])[..n] == orders && entries[..n + 1][..n] == entries[..n];
      orders := orders + [order];
    }
    assert entries[..|entries|] == entries;
    forall h ensures FromLastNaming(m, host, entries, result, h) {
      MatchingAt(m, host, entries, orders, h);
    }
  }

  /** A header has the value of the last matching entry that names it, and is not there without one. */
  ghost predicate FromLastNaming(m: Matcher, host: string, entries: seq<ProxyHeaders>, result: HeaderMap, h: string) {
    var i := LastNaming(m, host, entries, h);
    if i < 0 then h !in result else Carries(result, entries[i].headers, h)
  }

  lemma {:induction false} SomeOrderOf(keys: set<string>) returns (order: seq<string>)
    ensures multiset(order) == multiset(keys)
  {
    if keys == {} {
      order := [];
    } else {
      var k :| k in keys;
      order := SomeOrderOf(keys - {k});
      assert multiset(keys) == multiset{k} + multiset(keys - {k});
      order := order + [k];
    }
  }

  lemma SomeOrder(headers: HeaderMap) returns (order: seq<string>)
    ensures IsOrder(headers, order)
  {
    order := SomeOrderOf(headers.Keys);
  }

  // ---------------------------------------------------------------- who wins

  predicate NamedBy(e: ProxyHeaders, h: string) {
    exists k | k in e.headers :: Names(k, h)
  }

  /** The last matching entry that names a header. */
  function LastNaming(m: Matcher, host: string, entries: seq<ProxyHeaders>, h: string): (i: int)
    ensures -1 <= i < |entries|
    ensures i >= 0 ==> Applies(m, host, entries[i]) && NamedBy(entries[i], h)
    ensures forall j | i < j < |entries| :: !(Applies(m, host, entries[j]) && NamedBy(entries[j], h))
  {
    if entries == [] then -1
    else
      var n := |entries| - 1;
      if Applies(m, host, entries[n]) && NamedBy(entries[n], h) then n
      else LastNaming(m, host, entries[..n], h)
  }

  lemma OrderHasKeys(headers: HeaderMap, order: seq<string>)
    requires IsOrder(headers, order)
    ensures forall k :: k in order <==> k in headers
  {
    assert forall k :: k in order <==> k in multiset(order);
    assert forall k :: k in headers.Keys <==> k in multiset(headers.Keys);
  }

  lemma LastEntryAt(m: Matcher, host: string, e: ProxyHeaders, before: HeaderMap, order: seq<string>, h: string)
    requires IsOrder(e.headers, order)
    ensures var r := if Applies(m, host, e) then WriteInOrder(before, e.headers, order) else before;
      if Applies(m, host, e) && NamedBy(e, h) then
        && h in r && LastKey(order, h).Some?
        && LastKey(order, h).value in e.headers
        && r[h] == e.headers[LastKey(order, h).value]
      else (h in r <==> h in before) && (h in r ==> r[h] == before[h])
  {
    OrderHasKeys(e.headers, order);
    if Applies(m, host, e) {
      WriteInOrderAt(before, e.headers, order, h);
    }
  }

  /** A header's value comes from the last matching entry that names it, and there from the last of the
      keys that trim to it in that entry's iteration order. */
  lemma {:induction false} MatchingAt(m: Matcher, host: string, entries: seq<ProxyHeaders>, orders: seq<seq<string>>,
                                      h: string)
    requires AreOrders(entries, orders)
    ensures var r, i := Matching(m, host, entries, orders), LastNaming(m, host, entries, h);
      if i < 0 then h !in r
      else
        && h in r && LastKey(orders[i], h).Some?
        && LastKey(orders[i], h).value in entries[i].headers
        && r[h] == entries[i].headers[LastKey(orders[i], h).value]
  {
    if entries != [] {
      var n := |entries| - 1;
      MatchingAt(m, host, entries[..n], orders[..n], h);
      LastEntryAt(m, host, entries[n], Matching(m, host, entries[..n], orders[..n]), orders[n], h);
      var i := LastNaming(m, host, entries[..n], h);
      assert i >= 0 ==> entries[..n][i] == entries[i] && orders[..n][i] == orders[i];
    }
  }

  /** White space around the pattern of an entry or around its names does not matter. */
  lemma PaddedEntry(m: Matcher, host: string, l: string, pattern: string, r: string, a: string, name: string, b: string,
                    value: string)
    requires Blank(l) && Blank(r) && Blank(a) && Blank(b)
    requires pattern != "" && Trimmed(pattern) && name != "" && Trimmed(name)
    requires m(pattern, host) == Some(true)
    ensures var e := ProxyHeaders(l + pattern + r, map[a + name + b := value]);
      Matching(m, host, [e], [[a + name + b]]) == map[name := value]
  {
    TrimOfPadded(l, pattern, r);
    TrimOfPadded(a, name, b);
    var key := a + name + b;
    var e := ProxyHeaders(l + pattern + r, map[key := value]);
    assert [key][..0] == [] && WriteInOrder(map[], e.headers, [key]) == map[name := value];
    assert [e][..0] == [] && [[key]][..0] == [] && Matching(m, host, [], []) == map[];
    assert Matching(m, host, [e], [[key]]) == WriteInOrder(map[], e.headers, [key]);
  }

  /** The keys of an entry that trim to a header all carry the same value. */
  ghost predicate Agrees(e: ProxyHeaders, h: string) {
    forall k, l | k in e.headers && l in e.headers && Names(k, h) && Names(l, h) :: e.headers[k] == e.headers[l]
  }

  /** In particular when the names of an entry stay distinct after trimming. */
  ghost predicate DistinctNames(e: ProxyHeaders) {
    forall k, l | k in e.headers && l in e.headers && TrimSpace(k) == TrimSpace(l) :: k == l
  }

  lemma OrderEndingIn(headers: HeaderMap, k: string) returns (order: seq<string>)
    requires k in headers
    ensures IsOrder(headers, order) && order != [] && order[|order| - 1] == k
  {
    order := SomeOrderOf(headers.Keys - {k});
    assert multiset(headers.Keys) == multiset{k} + multiset(headers.Keys - {k});
    order := order + [k];
  }

  lemma OrdersOf(entries: seq<ProxyHeaders>) returns (orders: seq<seq<string>>)
    ensures AreOrders(entries, orders)
  {
    orders := [];
    for n := 0 to |entries|
      invariant AreOrders(entries[..n], orders)
    {
      var order := SomeOrder(entries[n].headers);
      TakeOneMore(entries, n);
      orders := orders + [order];
    }
    assert entries[..|entries|] == entries;
  }

  /** The value of a header is the same for every iteration order if and only if the last matching entry
      that names it gives it one value only. */
  lemma OrderMatters(m: Matcher, host: string, entries: seq<ProxyHeaders>, h: string)
    ensures var i := LastNaming(m, host, entries, h);
      (i < 0 || Agrees(entries[i], h)) <==>
      (forall o, p | AreOrders(entries, o) && AreOrders(entries, p) ::
         SameAt(Matching(m, host, entries, o), Matching(m, host, entries, p), h))
  {
    var i := LastNaming(m, host, entries, h);
    if i < 0 || Agrees(entries[i], h) {
      forall o, p | AreOrders(entries, o) && AreOrders(entries, p)
        ensures SameAt(Matching(m, host, entries, o), Matching(m, host, entries, p), h)
      {
        MatchingAt(m, host, entries, o, h);
        MatchingAt(m, host, entries, p, h);
      }
    } else {
      var o, p := OrderShows(m, host, entries, h);
      assert !SameAt(Matching(m, host, entries, o), Matching(m, host, entries, p), h);
    }
  }

  lemma OrderShows(m: Matcher, host: string, entries: seq<ProxyHeaders>, h: string)
    returns (o: seq<seq<string>>, p: seq<seq<string>>)
    requires LastNaming(m, host, entries, h) >= 0 && !Agrees(entries[LastNaming(m, host, entries, h)], h)
    ensures AreOrders(entries, o) && AreOrders(entries, p)
    ensures h in Matching(m, host, entries, o) && h in Matching(m, host, entries, p)
    ensures Matching(m, host, entries, o)[h] != Matching(m, host, entries, p)[h]
  {
    var i := LastNaming(m, host, entries, h);
    var e := entries[i];
    var k, l :| k in e.headers && l in e.headers && Names(k, h) && Names(l, h) && e.headers[k] != e.headers[l];
    o := OrdersEndingIn(entries, i, k);
    p := OrdersEndingIn(entries, i, l);
    LastKeyIsLast(o[i], h);
    LastKeyIsLast(p[i], h);
    MatchingAt(m, host, entries, o, h);
    MatchingAt(m, host, entries, p, h);
  }

  lemma LastKeyIsLast(order: seq<string>, h: string)
    requires order != [] && Names(order[|order| - 1], h)
    ensures LastKey(order, h) == Some(order[|order| - 1])
  {
  }

  lemma OrdersEndingIn(entries: seq<ProxyHeaders>, i: nat, k: string) returns (orders: seq<seq<string>>)
    requires i < |entries| && k in entries[i].headers
    ensures AreOrders(entries, orders) && orders[i] != [] && orders[i][|orders[i]| - 1] == k
  {
    orders := OrdersOf(entries);
    var order := OrderEndingIn(entries[i].headers, k);
    orders := orders[i := order];
  }

  // ---------------------------------------------------------------- command line

  /** The header in a "Name: Value" argument. */
  function ParsedHeader(val: string): Option<(string, string)> {
    if ':' !in val then None else
      var idx := IndexOf(val, ':');
      var name := TrimSpace(val[..idx]);
      if name == "" then None else Some((name, TrimSpace(val[idx + 1..])))
  }

  lemma {:induction false} IndexOfFree(s: string, c: char, rest: string)
    requires c !in s
    ensures c in s + [c] + rest && IndexOf(s + [c] + rest, c) == |s|
  {
    var t := s + [c] + rest;
    assert t[|s|] == c;
    if s != "" {
      assert t[0] == s[0] && t[1..] == s[1..] + [c] + rest;
      IndexOfFree(s[1..], c, rest);
    }
  }

  /** Printing a header, with any white space around name and value, and parsing it gives both back; the
      value may have colons of its own. */
  lemma HeaderRoundTrip(a: string, name: string, b: string, c: string, value: string, d: string)
    requires name != "" && Trimmed(name) && ':' !in name && Trimmed(value)
    requires Blank(a) && Blank(b) && Blank(c) && Blank(d)
    ensures ParsedHeader((a + name + b) + [':'] + (c + value + d)) == Some((name, value))
  {
    var head, tail := a + name + b, c + value + d;
    var text := head + [':'] + tail;
    assert ':' !in a && ':' !in b;
    IndexOfFree(head, ':', tail);
    assert text[..|head|] == head && text[|head| + 1..] == tail;
    TrimOfPadded(a, name, b);
    TrimOfPadded(c, value, d);
  }

  /** A text without a colon, or with nothing but white space before it, is no header. */
  lemma NoHeader(a: string, rest: string)
    requires Blank(a)
    ensures ParsedHeader(a + [':'] + rest).None?
    ensures ':' !in rest ==> ParsedHeader(rest).None?
  {
    assert ':' !in a;
    IndexOfFree(a, ':', rest);
    assert (a + [':'] + rest)[..|a|] == a;
    TrimOfPadded(a, "", "");
    assert a + "" + "" == a;
  }

  class HeaderFlag {
    var headers: HeaderMap

    constructor ()
      ensures headers == map[]
    {
      headers := map[];
    }

    /** parseOne: an argument without a colon or without a name is an error and changes nothing. */
    method ParseOne(val: string) returns (ok: bool)
      modifies this
      ensures ok <==> ParsedHeader(val).Some?
      ensures headers ==
        if ok then old(headers)[ParsedHeader(val).value.0 := ParsedHeader(val).value.1] else old(headers)
    {
      if ':' !in val {
        return false;
      }
      var idx := IndexOf(val, ':');
      var name, value := TrimSpace(val[..idx]), TrimSpace(val[idx + 1..]);
      if name == "" {
        return false;
      }
      headers := headers[name := value];
      ok := true;
    }

    /** loadFromFile: one header a line; blank lines and comments are passed over. */
    method LoadFromFile(data: string) returns (ok: bool)
      modifies this
      ensures ok <==> AllParse(HeaderLines(data))
      ensures ok ==> headers == Settings(old(headers), HeaderLines(data))
    {
      var lines := Split(data, '\n');
      ghost var texts: seq<string> := [];
      for n := 0 to |lines|
        invariant texts == FlatMap(HeaderLine, lines[..n])
        invariant AllParse(texts) && headers == Settings(old(headers), texts)
      {
        FlatMapStep(HeaderLine, lines, n);
        LinesGrow(lines, n + 1);
        var line := TrimSpace(lines[n]);
        if line == "" || "#" <= line {
          continue;
        }
        var good := ParseOne(line);
        SettingsOfSnoc(old(headers), texts, line);
        texts := texts + [line];
        if !good {
          return false;
        }
      }
      assert lines[..|lines|] == lines;
      ok := true;
    }

    /** Set: a header, or a file of headers; `files` gives the content of those that can be read. */
    method Set(files: Files, val: string) returns (ok: bool)
      modifies this
      ensures ok <==> Valid(files, val)
      ensures ok ==> headers == Settings(old(headers), TextsOf(files, val).value)
    {
      if "@" <= val {
        var data := files(val[1..]);
        if data.None? {
          return false;
        }
        ok := LoadFromFile(data.value);
      } else {
        ok := ParseOne(val);
        SettingsOfSnoc(old(headers), [], val);
        assert [] + [val] == [val];
      }
    }

    /** All -H and --header flags, in order; parsing stops at the first error. */
    method SetAll(files: Files, vals: seq<string>) returns (ok: bool)
      modifies this
      ensures ok <==> AllValid(files, vals)
      ensures ok ==> headers == Settings(old(headers), Expanded(files, vals))
    {
      for n := 0 to |vals|
        invariant AllValid(files, vals[..n])
        invariant headers == Settings(old(headers), Expanded(files, vals[..n]))
      {
        var good := Set(files, vals[n]);
        ValidStep(files, vals, n);
        if !good {
          return false;
        }
        ExpandedStep(files, vals, n, old(headers));
      }
      assert vals[..|vals|] == vals;
      ok := true;
    }
  }

  predicate AllParse(vals: seq<string>) {
    forall i | 0 <= i < |vals| :: ParsedHeader(vals[i]).Some?
  }

  /** The content of the files that can be read. */
  type Files = string -> Option<string>

  function HeaderLine(line: string): seq<string> {
    if TrimSpace(line) == "" || "#" <= TrimSpace(line) then [] else [TrimSpace(line)]
  }

  function HeaderLines(data: string): seq<string> {
    FlatMap(HeaderLine, Split(data, '\n'))
  }

  /** A trimmed line that is neither blank nor a comment. */
  predicate IsHeaderLine(line: string) {
    line != "" && Trimmed(line) && line[0] != '#' && '\n' !in line
  }

  /** A file with one header a line gives these headers, in order. */
  lemma FileRoundTrip(texts: seq<string>)
    requires texts != [] && forall t | t in texts :: IsHeaderLine(t)
    ensures HeaderLines(Join(texts, "\n")) == texts
  {
    forall i | 0 <= i < |texts| ensures '\n' !in texts[i] {
      assert texts[i] in texts;
    }
    SplitOfJoin(texts, '\n');
    LinesOfTexts(texts);
  }

  lemma {:induction false} LinesOfTexts(texts: seq<string>)
    requires forall t | t in texts :: IsHeaderLine(t)
    ensures FlatMap(HeaderLine, texts) == texts
  {
    if texts != [] {
      var n := |texts| - 1;
      LinesOfTexts(texts[..n]);
      assert texts[n] in texts;
      TrimOfTrimmed(texts[n]);
      assert texts == texts[..n] + [texts[n]];
    }
  }

  /** White space around a line does not matter, and a comment or a blank line gives nothing. */
  lemma LineForms(l: string, text: string, r: string)
    requires Blank(l) && Blank(r)
    ensures IsHeaderLine(text) ==> HeaderLine(l + text + r) == [text]
    ensures Trimmed(text) && (text == "" || text[0] == '#') ==> HeaderLine(l + text + r) == []
  {
    if Trimmed(text) {
      TrimOfPadded(l, text, r);
    }
  }

  /** The header texts of one argument, unless it names a file that cannot be read. */
  function TextsOf(files: Files, val: string): Option<seq<string>> {
    if "@" <= val then
      match files(val[1..])
      case None => None
      case Some(data) => Some(HeaderLines(data))
    else Some([val])
  }

  /** An argument that causes no error. */
  predicate Valid(files: Files, val: string) {
    TextsOf(files, val).Some? && AllParse(TextsOf(files, val).value)
  }

  predicate AllValid(files: Files, vals: seq<string>) {
    forall i | 0 <= i < |vals| :: Valid(files, vals[i])
  }

  lemma ValidStep(files: Files, vals: seq<string>, n: nat)
    requires n < |vals| && AllValid(files, vals[..n])
    ensures AllValid(files, vals[..n + 1]) <==> Valid(files, vals[n])
    ensures AllValid(files, vals) ==> Valid(files, vals[n])
  {
    TakeOneMore(vals, n);
  }

  function TextsOrNone(files: Files): string -> seq<string> {
    val => if TextsOf(files, val).Some? then TextsOf(files, val).value else []
  }

  /** The header texts of all arguments, in order. */
  function Expanded(files: Files, vals: seq<string>): seq<string> {
    FlatMap(TextsOrNone(files), vals)
  }

  lemma {:induction false} LinesGrow(lines: seq<string>, n: nat)
    requires n <= |lines|
    ensures FlatMap(HeaderLine, lines[..n]) <= FlatMap(HeaderLine, lines)
    decreases |lines| - n
  {
    if n < |lines| {
      LinesGrow(lines, n + 1);
      FlatMapStep(HeaderLine, lines, n);
    } else {
      assert lines[..n] == lines;
    }
  }

  lemma SettingsOfSnoc(before: HeaderMap, vals: seq<string>, val: string)
    ensures Settings(before, vals + [val]) ==
      match ParsedHeader(val)
      case None => Settings(before, vals)
      case Some((name, value)) => Settings(before, vals)[name := value]
    ensures AllParse(vals) ==> (AllParse(vals + [val]) <==> ParsedHeader(val).Some?)
  {
    assert (vals + [val])[..|vals|] == vals;
  }

  lemma {:induction false} SettingsOfConcat(before: HeaderMap, a: seq<string>, b: seq<string>)
    ensures Settings(before, a + b) == Settings(Settings(before, a), b)
  {
    if b == [] {
      assert a + b == a;
    } else {
      var n := |b| - 1;
      SettingsOfConcat(before, a, b[..n]);
      assert a + b == (a + b[..n]) + [b[n]] && b == b[..n] + [b[n]];
      SettingsOfSnoc(before, a + b[..n], b[n]);
      SettingsOfSnoc(Settings(before, a), b[..n], b[n]);
    }
  }

  lemma ExpandedStep(files: Files, vals: seq<string>, n: nat, before: HeaderMap)
    requires n < |vals| && TextsOf(files, vals[n]).Some?
    ensures Settings(before, Expanded(files, vals[..n + 1]))
      == Settings(Settings(before, Expanded(files, vals[..n])), TextsOf(files, vals[n]).value)
  {
    FlatMapStep(TextsOrNone(files), vals, n);
    SettingsOfConcat(before, Expanded(files, vals[..n]), TextsOf(files, vals[n]).value);
  }

  function Settings(before: HeaderMap, vals: seq<string>): HeaderMap {
    if vals == [] then before else
      var m := Settings(before, vals[..|vals| - 1]);
      match ParsedHeader(vals[|vals| - 1])
      case None => m
      case Some((name, value)) => m[name := value]
  }

  predicate Sets(val: string, h: string) {
    ParsedHeader(val).Some? && ParsedHeader(val).value.0 == h
  }

  /** The command line's last setting of a header. */
  function LastSetting(vals: seq<string>, h: string): (i: int)
    ensures -1 <= i < |vals|
    ensures i >= 0 ==> Sets(vals[i], h)
    ensures forall j | i < j < |vals| :: !Sets(vals[j], h)
  {
    if vals == [] then -1
    else if Sets(vals[|vals| - 1], h) then |vals| - 1
    else LastSetting(vals[..|vals| - 1], h)
  }

  lemma {:induction false} SettingsAt(vals: seq<string>, h: string)
    ensures var m, i := Settings(map[], vals), LastSetting(vals, h);
      (h in m <==> i >= 0) && (i >= 0 ==> h in m && m[h] == ParsedHeader(vals[i]).value.1)
  {
    if vals != [] {
      SettingsAt(vals[..|vals| - 1], h);
    }
  }

  // ---------------------------------------------------------------- all layers

  lemma EmptyMerge(a: HeaderMap, b: HeaderMap)
    ensures (map[] + a) + b == a + b
    ensures |a| == 0 ==> a + b == b
  {
  }

  /** The merge of ResolveRuntime: command-line headers over those of the config file. */
  method ResolveHeaders(m: Matcher, host: string, entries: seq<ProxyHeaders>, cli: HeaderMap)
    returns (headers: HeaderMap, ghost orders: seq<seq<string>>)
    ensures AreOrders(entries, orders) && headers == Matching(m, host, entries, orders) + cli
    ensures forall h :: if h in cli then h in headers && headers[h] == cli[h]
      else FromLastNaming(m, host, entries, headers, h)
  {
    headers := cli;
    var matching;
    matching, orders := MatchingHeaders(m, host, entries);
    if |matching| > 0 {
      var merged := Overwrite(map[], matching);
      headers := Overwrite(merged, cli);
    }
    EmptyMerge(matching, cli);
    forall h | h !in cli ensures FromLastNaming(m, host, entries, headers, h) {
      CarriedOver(m, host, entries, matching, headers, h);
    }
  }

  lemma CarriedOver(m: Matcher, host: string, entries: seq<ProxyHeaders>, a: HeaderMap, b: HeaderMap, h: string)
    requires FromLastNaming(m, host, entries, a, h) && SameAt(a, b, h)
    ensures FromLastNaming(m, host, entries, b, h)
  {
  }

  /** Precedence over all layers: the command line's last setting, else the last matching entry that names
      the header, else nothing. */
  lemma HeaderPrecedence(m: Matcher, host: string, entries: seq<ProxyHeaders>, orders: seq<seq<string>>,
                         vals: seq<string>, h: string)
    requires AreOrders(entries, orders)
    ensures var final := Final(m, host, entries, orders, vals);
      var s := LastSetting(vals, h);
      if s >= 0 then h in final && final[h] == ParsedHeader(vals[s]).value.1
      else FromLastNaming(m, host, entries, final, h)
  {
    MatchingAt(m, host, entries, orders, h);
    SettingsAt(vals, h);
  }

  /** The final headers, for given iteration orders. */
  function Final(m: Matcher, host: string, entries: seq<ProxyHeaders>, orders: seq<seq<string>>, vals: seq<string>)
    : HeaderMap
    requires |orders| == |entries|
  {
    Matching(m, host, entries, orders) + Settings(map[], vals)
  }

  /** Over all layers, a header is independent of iteration order if and only if the command line sets it, or
      the last matching entry that names it (if any) gives it one value only. */
  lemma FinalOrderMatters(m: Matcher, host: string, entries: seq<ProxyHeaders>, vals: seq<string>, h: string)
    ensures var i := LastNaming(m, host, entries, h);
      (LastSetting(vals, h) >= 0 || i < 0 || Agrees(entries[i], h)) <==>
      (forall o, p | AreOrders(entries, o) && AreOrders(entries, p) ::
         SameAt(Final(m, host, entries, o, vals), Final(m, host, entries, p, vals), h))
  {
    var i := LastNaming(m, host, entries, h);
    if LastSetting(vals, h) >= 0 || i < 0 || Agrees(entries[i], h) {
      forall o, p | AreOrders(entries, o) && AreOrders(entries, p)
        ensures SameAt(Final(m, host, entries, o, vals), Final(m, host, entries, p, vals), h)
      {
        MatchingAt(m, host, entries, o, h);
        MatchingAt(m, host, entries, p, h);
        SameUnderSettings(Matching(m, host, entries, o), Matching(m, host, entries, p), vals, h);
      }
    } else {
      var o, p := OrderShows(m, host, entries, h);
      SameUnderSettings(Matching(m, host, entries, o), Matching(m, host, entries, p), vals, h);
      assert !SameAt(Final(m, host, entries, o, vals), Final(m, host, entries, p, vals), h);
    }
  }

  lemma SameUnderSettings(a: HeaderMap, b: HeaderMap, vals: seq<string>, h: string)
    ensures SameAt(a + Settings(map[], vals), b + Settings(map[], vals), h)
      <==> LastSetting(vals, h) >= 0 || SameAt(a, b, h)
  {
    SettingsAt(vals, h);
  }

  lemma SameEverywhere(a: HeaderMap, b: HeaderMap)
    requires forall h :: SameAt(a, b, h)
    ensures a == b
  {
    forall h ensures h in a <==> h in b {
      assert SameAt(a, b, h);
    }
    forall h | h in a ensures a[h] == b[h] {
      assert SameAt(a, b, h);
    }
  }

  /** When names stay distinct after trimming in every matching entry, the final headers are the same for
      all iteration orders. */
  lemma FinalIsDetermined(m: Matcher, host: string, entries: seq<ProxyHeaders>, o: seq<seq<string>>,
                          p: seq<seq<string>>, vals: seq<string>)
    requires AreOrders(entries, o) && AreOrders(entries, p)
    requires forall e | e in entries && Applies(m, host, e) :: DistinctNames(e)
    ensures Final(m, host, entries, o, vals) == Final(m, host, entries, p, vals)
  {
    forall h ensures SameAt(Final(m, host, entries, o, vals), Final(m, host, entries, p, vals), h) {
      FinalOrderMatters(m, host, entries, vals, h);
      var i := LastNaming(m, host, entries, h);
      if i >= 0 {
        assert entries[i] in entries && Agrees(entries[i], h);
      }
    }
    SameEverywhere(Final(m, host, entries, o, vals), Final(m, host, entries, p, vals));
  }

  // ---------------------------------------------------------------- host CA endpoints

  /** The answer to the n-th request for the host CA bundle, if it succeeds. */
  type Fetcher = (nat, string) -> Option<seq<byte>>

  /** The first `n` endpoints, trimmed, without blanks, each once, in order. */
  function CandidatesAmong(endpoints: seq<string>, n: nat): seq<string>
    requires n <= |endpoints|
  {
    Firsts(NonBlank(Map(TrimSpace, endpoints)[..n]))
  }

  function Candidates(endpoints: seq<string>): seq<string> {
    Firsts(NonBlank(Map(TrimSpace, endpoints)))
  }

  /** Every endpoint that is not blank is a candidate, once. */
  lemma CandidatesMeaning(endpoints: seq<string>)
    ensures Distinct(Candidates(endpoints))
    ensures forall e :: e in Candidates(endpoints) <==>
      e != "" && exists i :: 0 <= i < |endpoints| && TrimSpace(endpoints[i]) == e
  {
    var all := Map(TrimSpace, endpoints);
    FirstsMeaning(NonBlank(all));
    forall e ensures e in all <==> exists i :: 0 <= i < |endpoints| && TrimSpace(endpoints[i]) == e {
      if i :| 0 <= i < |endpoints| && TrimSpace(endpoints[i]) == e {
        assert all[i] == e;
      }
    }
  }

  lemma CandidateStep(endpoints: seq<string>, n: nat)
    requires n < |endpoints|
    ensures var e, before := TrimSpace(endpoints[n]), CandidatesAmong(endpoints, n);
      CandidatesAmong(endpoints, n + 1) == if e == "" || e in before then before else before + [e]
  {
    WantedStep(Map(TrimSpace, endpoints), n);
  }

  lemma {:induction false} CandidatesGrow(endpoints: seq<string>, n: nat)
    requires n <= |endpoints|
    ensures CandidatesAmong(endpoints, n) <= Candidates(endpoints)
    ensures CandidatesAmong(endpoints, |endpoints|) == Candidates(endpoints)
    decreases |endpoints| - n
  {
    if n < |endpoints| {
      CandidatesGrow(endpoints, n + 1);
      CandidateStep(endpoints, n);
    } else {
      assert Map(TrimSpace, endpoints)[..n] == Map(TrimSpace, endpoints);
    }
  }

  /** None of these requests was answered. */
  ghost predicate Unanswered(fetch: Fetcher, asked: seq<string>) {
    forall n | 0 <= n < |asked| :: fetch(n, asked[n]).None?
  }

  lemma OneMoreUnanswered(fetch: Fetcher, asked: seq<string>, endpoint: string)
    requires Unanswered(fetch, asked) && fetch(|asked|, endpoint).None?
    ensures Unanswered(fetch, asked + [endpoint])
  {
  }

  /** The endpoint loop: candidates are asked one after the other until one answers. */
  method FetchHostCA(endpoints: seq<string>, fetch: Fetcher)
    returns (bundle: Option<seq<byte>>, unanswered: seq<string>, endpoint: string)
    ensures Unanswered(fetch, unanswered)
    ensures bundle.None? ==> unanswered == Candidates(endpoints)
    ensures bundle.Some? ==> unanswered + [endpoint] <= Candidates(endpoints) && bundle == fetch(|unanswered|, endpoint)
  {
    bundle, unanswered, endpoint := None, [], "";
    for i := 0 to |endpoints|
      invariant bundle.None? && unanswered == CandidatesAmong(endpoints, i) && Unanswered(fetch, unanswered)
    {
      CandidateStep(endpoints, i);
      endpoint := TrimSpace(endpoints[i]);
      if endpoint != "" && endpoint !in unanswered {
        bundle := fetch(|unanswered|, endpoint);
        if bundle.Some? {
          CandidatesGrow(endpoints, i + 1);
          return;
        }
        OneMoreUnanswered(fetch, unanswered, endpoint);
        unanswered := unanswered + [endpoint];
      }
    }
    CandidatesGrow(endpoints, |endpoints|);
  }
}
