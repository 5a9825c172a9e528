/** Printed routing tables of macOS, Windows and the kernel are read back (internal/discovery/network.go). */
module RouteTables {
  import opened Text
  import opened Hex
  import opened Lists
  import opened Netmask
  import opened Routes

  // ---------------------------------------------------------------- text

  /** A text of lines. */
  function Page(lines: seq<string>): string {
    Join(lines, "\n")
  }

  predicate AreLines(lines: seq<string>) {
    lines != [] && forall i | 0 <= i < |lines| :: '\n' !in lines[i]
  }

  lemma LinesOfPage(lines: seq<string>)
    requires AreLines(lines)
    ensures Lines(Page(lines)) == lines
  {
    SplitOfJoin(lines, '\n');
  }

  /** Tokens joined by a blank or a tab are one trimmed line. */
  lemma {:induction false} JoinedIsTrimmed(ts: seq<string>, c: char)
    requires ts != [] && AreTokens(ts)
    ensures var s := Join(ts, [c]);
      s != "" && !IsSpace(s[0]) && !IsSpace(s[|s| - 1])
  {
    assert ts[0] in ts;
    if |ts| > 1 {
      assert forall t | t in ts[1..] :: t in ts;
      JoinedIsTrimmed(ts[1..], c);
    }
  }

  lemma FieldsOfRow(ts: seq<string>, c: char)
    requires ts != [] && AreTokens(ts) && IsSpace(c)
    ensures Fields(Join(ts, [c])) == ts && TrimSpace(Join(ts, [c])) == Join(ts, [c])
  {
    forall i | 0 <= i < |ts| ensures IsToken(ts[i]) {
      assert ts[i] in ts;
    }
    FieldsOfJoin(ts, c);
    JoinedIsTrimmed(ts, c);
    TrimOfTrimmed(Join(ts, [c]));
  }

  // ---------------------------------------------------------------- netstat -rn

  /** A row: destination, gateway, flags, interface, and perhaps more. */
  datatype DarwinRow = DarwinRow(route: Route, more: seq<string>)

  function DarwinFields(row: DarwinRow): seq<string> {
    [row.route.destination, row.route.gateway, row.route.flags, row.route.iface] + row.more
  }

  function PrintDarwin(row: DarwinRow): string {
    Join(DarwinFields(row), " ")
  }

  function RouteOfDarwin(row: DarwinRow): Route {
    row.route
  }

  /** A row that is neither a marker nor a header. */
  predicate IsDarwinRow(row: DarwinRow) {
    && AreTokens(DarwinFields(row)) && row.route.netmask == "" && row.route.metric == 0
    && !Contains(PrintDarwin(row), "Internet:") && !Contains(PrintDarwin(row), "Internet6:")
    && !("Destination" <= PrintDarwin(row))
  }

  lemma DarwinRowRoundTrip(row: DarwinRow)
    requires IsDarwinRow(row)
    ensures DarwinShape(PrintDarwin(row)) && DarwinRoute(PrintDarwin(row)) == row.route
    ensures !IPv4Marker(PrintDarwin(row)) && !IPv6Marker(PrintDarwin(row))
  {
    FieldsOfRow(DarwinFields(row), ' ');
  }

  /** Whether the scan is in the IPv4 section after these lines, told from whether it was before. */
  ghost predicate DarwinAfter(lines: seq<string>, inside: bool) {
    if lines == [] then inside else
      var n := |lines| - 1;
      IPv4Marker(lines[n]) || (DarwinAfter(lines[..n], inside) && !IPv6Marker(lines[n]))
  }

  /** The routes found on the way. */
  ghost function DarwinScan(lines: seq<string>, inside: bool): seq<Route> {
    if lines == [] then [] else
      var n := |lines| - 1;
      DarwinScan(lines[..n], inside)
        + DarwinFound(DarwinAfter(lines[..n], inside), lines[n])
  }

  ghost function DarwinFound(inside: bool, line: string): seq<Route> {
    if inside && DarwinShape(line) then [DarwinRoute(line)] else []
  }

  /** The scanner is that automaton. */
  lemma {:induction false} DarwinIsScan(lines: seq<string>, n: nat)
    requires n <= |lines|
    ensures InIPv4Section(lines, n) <==> DarwinAfter(lines[..n], false)
    ensures DarwinRoutes(lines, n) == DarwinScan(lines[..n], false)
  {
    if n > 0 {
      DarwinIsScan(lines, n - 1);
      SectionStep(lines, n - 1);
      assert lines[..n][..n - 1] == lines[..n - 1];
    }
  }

  lemma {:induction false} DarwinScanOfConcat(a: seq<string>, b: seq<string>, inside: bool)
    ensures DarwinAfter(a + b, inside) <==> DarwinAfter(b, DarwinAfter(a, inside))
    ensures DarwinScan(a + b, inside) == DarwinScan(a, inside) + DarwinScan(b, DarwinAfter(a, inside))
  {
    if b == [] {
      assert a + b == a;
    } else {
      var n := |b| - 1;
      DarwinScanOfConcat(a, b[..n], inside);
      assert (a + b)[..|a + b| - 1] == a + b[..n] && (a + b)[|a + b| - 1] == b[n];
      ConcatIsAssociative(DarwinScan(a, inside), DarwinScan(b[..n], DarwinAfter(a, inside)),
                          DarwinFound(DarwinAfter(a + b[..n], inside), b[n]));
    }
  }

  lemma DarwinScanOfLine(line: string, inside: bool)
    ensures DarwinAfter([line], inside) <==> IPv4Marker(line) || (inside && !IPv6Marker(line))
    ensures DarwinScan([line], inside) == DarwinFound(inside, line)
  {
    assert [line][..0] == [];
  }

  predicate Unopened(lines: seq<string>) {
    forall i | 0 <= i < |lines| :: !IPv4Marker(lines[i])
  }

  lemma {:induction false} DarwinScanOutside(lines: seq<string>)
    requires Unopened(lines)
    ensures DarwinScan(lines, false) == [] && !DarwinAfter(lines, false)
  {
    if lines != [] {
      DarwinScanOutside(lines[..|lines| - 1]);
    }
  }

  lemma {:induction false} DarwinScanOfRows(rows: seq<DarwinRow>)
    requires forall r | r in rows :: IsDarwinRow(r)
    ensures DarwinAfter(Map(PrintDarwin, rows), true)
    ensures DarwinScan(Map(PrintDarwin, rows), true) == Map(RouteOfDarwin, rows)
  {
    if rows != [] {
      var n := |rows| - 1;
      DarwinScanOfRows(rows[..n]);
      assert rows[n] in rows && rows == rows[..n] + [rows[n]];
      DarwinRowRoundTrip(rows[n]);
      MapOfSnoc(PrintDarwin, rows[..n], rows[n]);
      MapOfSnoc(RouteOfDarwin, rows[..n], rows[n]);
      DarwinScanOfConcat(Map(PrintDarwin, rows[..n]), [PrintDarwin(rows[n])], true);
      DarwinScanOfLine(PrintDarwin(rows[n]), true);
    }
  }

  lemma DarwinMarkers()
    ensures IPv4Marker("Internet:") && !IPv4Marker("Internet6:") && IPv6Marker("Internet6:")
  {
    var four, six := "Internet:", "Internet6:";
    TrimOfTrimmed(four);
    TrimOfTrimmed(six);
    ContainsMeaning(six, four);
  }

  /** The header above the rows. */
  predicate IsDarwinHeader(line: string) {
    "Destination" <= line && Trimmed(line) && !Contains(line, "Internet:") && !Contains(line, "Internet6:")
  }

  /** A whole page: anything before the marker, the marker, the header, rows, and an IPv6 section. */
  function DarwinPage(before: seq<string>, header: string, rows: seq<DarwinRow>, after: seq<string>): seq<string> {
    before + ["Internet:"] + [header] + Map(PrintDarwin, rows) + ["Internet6:"] + after
  }

  lemma DarwinScanOfPage(before: seq<string>, header: string, rows: seq<DarwinRow>, after: seq<string>)
    requires Unopened(before) && Unopened(after) && IsDarwinHeader(header) && forall r | r in rows :: IsDarwinRow(r)
    ensures DarwinScan(DarwinPage(before, header, rows, after), false) == Map(RouteOfDarwin, rows)
  {
    DarwinMarkers();
    TrimOfTrimmed(header);
    var p0 := before + ["Internet:"];
    var p1 := p0 + [header];
    var p2 := p1 + Map(PrintDarwin, rows);
    var p3 := p2 + ["Internet6:"];
    DarwinScanOutside(before);
    DarwinScanOfConcat(before, ["Internet:"], false);
    DarwinScanOfLine("Internet:", false);
    DarwinScanOfConcat(p0, [header], false);
    DarwinScanOfLine(header, true);
    DarwinScanOfConcat(p1, Map(PrintDarwin, rows), false);
    DarwinScanOfRows(rows);
    DarwinScanOfConcat(p2, ["Internet6:"], false);
    DarwinScanOfLine("Internet6:", true);
    DarwinScanOfConcat(p3, after, false);
    DarwinScanOutside(after);
  }

  /** The routes of such a text are those of its rows, whatever stands before and after without opening an
      IPv4 section of its own. */
  lemma DarwinRoundTrip(before: seq<string>, header: string, rows: seq<DarwinRow>, after: seq<string>)
    requires Unopened(before) && Unopened(after) && IsDarwinHeader(header) && forall r | r in rows :: IsDarwinRow(r)
    requires AreLines(DarwinPage(before, header, rows, after))
    ensures var lines := Lines(Page(DarwinPage(before, header, rows, after)));
      DarwinRoutes(lines, |lines|) == Map(RouteOfDarwin, rows)
  {
    var lines := DarwinPage(before, header, rows, after);
    LinesOfPage(lines);
    DarwinScanOfPage(before, header, rows, after);
    DarwinIsScan(lines, |lines|);
    assert lines[..|lines|] == lines;
  }

  // ---------------------------------------------------------------- route print

  datatype Stage = Waiting | Reading | Done

  /** The stage of the scan after these lines, told from the stage before. */
  ghost function WindowsAfter(lines: seq<string>, stage: Stage): Stage {
    if lines == [] then stage else WindowsNext(WindowsAfter(lines[..|lines| - 1], stage), lines[|lines| - 1])
  }

  ghost function WindowsNext(stage: Stage, line: string): Stage {
    if stage == Done then Done
    else if ActiveMarker(line) then Reading
    else if stage == Reading && PersistentMarker(line) then Done
    else stage
  }

  /** The routes found on the way. */
  ghost function WindowsScan(lines: seq<string>, stage: Stage): seq<Route> {
    if lines == [] then [] else
      var n := |lines| - 1;
      WindowsScan(lines[..n], stage)
        + WindowsFound(WindowsAfter(lines[..n], stage), lines[n])
  }

  ghost function WindowsFound(stage: Stage, line: string): seq<Route> {
    if stage == Reading && WindowsShape(line) then [WindowsRoute(line)] else []
  }

  ghost function StageAt(lines: seq<string>, n: nat): Stage
    requires n <= |lines|
  {
    if !NotEnded(lines, n) then Done else if InRouteTable(lines, n) then Reading else Waiting
  }

  lemma StageStep(lines: seq<string>, n: nat)
    requires n < |lines|
    ensures StageAt(lines, n + 1) == WindowsNext(StageAt(lines, n), lines[n])
    ensures WindowsRoutes(lines, n + 1) == WindowsRoutes(lines, n) + WindowsFound(StageAt(lines, n), lines[n])
  {
    EndStep(lines, n);
    if NotEnded(lines, n) {
      WindowsRound(lines, n);
    }
  }

  /** The scanner is that automaton. */
  lemma {:induction false} WindowsIsScan(lines: seq<string>, n: nat)
    requires n <= |lines|
    ensures StageAt(lines, n) == WindowsAfter(lines[..n], Waiting)
    ensures WindowsRoutes(lines, n) == WindowsScan(lines[..n], Waiting)
  {
    if n > 0 {
      WindowsIsScan(lines, n - 1);
      StageStep(lines, n - 1);
      assert lines[..n][..n - 1] == lines[..n - 1];
    }
  }

  lemma {:induction false} WindowsScanOfConcat(a: seq<string>, b: seq<string>, stage: Stage)
    ensures WindowsAfter(a + b, stage) == WindowsAfter(b, WindowsAfter(a, stage))
    ensures WindowsScan(a + b, stage) == WindowsScan(a, stage) + WindowsScan(b, WindowsAfter(a, stage))
  {
    if b == [] {
      assert a + b == a;
    } else {
      var n := |b| - 1;
      WindowsScanOfConcat(a, b[..n], stage);
      assert (a + b)[..|a + b| - 1] == a + b[..n] && (a + b)[|a + b| - 1] == b[n];
      ConcatIsAssociative(WindowsScan(a, stage), WindowsScan(b[..n], WindowsAfter(a, stage)),
                          WindowsFound(WindowsAfter(a + b[..n], stage), b[n]));
    }
  }

  lemma WindowsScanOfLine(line: string, stage: Stage)
    ensures WindowsAfter([line], stage) == WindowsNext(stage, line)
    ensures WindowsScan([line], stage) == WindowsFound(stage, line)
  {
    assert [line][..0] == [];
  }

  lemma {:induction false} WindowsScanWaiting(lines: seq<string>)
    requires forall i | 0 <= i < |lines| :: !ActiveMarker(lines[i])
    ensures WindowsScan(lines, Waiting) == [] && WindowsAfter(lines, Waiting) == Waiting
  {
    if lines != [] {
      WindowsScanWaiting(lines[..|lines| - 1]);
    }
  }

  lemma {:induction false} WindowsScanDone(lines: seq<string>)
    ensures WindowsScan(lines, Done) == [] && WindowsAfter(lines, Done) == Done
  {
    if lines != [] {
      WindowsScanDone(lines[..|lines| - 1]);
    }
  }

  /** A row: destination, netmask, gateway, interface, metric. */
  function WindowsFields(r: Route): seq<string> {
    [r.destination, r.netmask, r.gateway, r.iface, Itoa(r.metric)]
  }

  function PrintWindows(r: Route): string {
    Join(WindowsFields(r), " ")
  }

  /** A row that is neither a marker nor a header. */
  predicate IsWindowsRow(r: Route) {
    && IsToken(r.destination) && IsToken(r.netmask) && IsToken(r.gateway) && IsToken(r.iface)
    && FitsInt64(r.metric) && r.flags == ""
    && !Contains(PrintWindows(r), "Active Routes:") && !Contains(PrintWindows(r), "Network Destination")
    && !Contains(PrintWindows(r), "=====")
  }

  lemma WindowsRowRoundTrip(r: Route)
    requires IsWindowsRow(r)
    ensures WindowsShape(PrintWindows(r)) && WindowsRoute(PrintWindows(r)) == r && !ActiveMarker(PrintWindows(r))
    ensures !PersistentMarker(PrintWindows(r))
  {
    NumberRoundTrip(r.metric);
    FieldsOfRow(WindowsFields(r), ' ');
  }

  lemma RowGoesOn(r: Route)
    requires IsWindowsRow(r)
    ensures WindowsNext(Reading, PrintWindows(r)) == Reading && WindowsFound(Reading, PrintWindows(r)) == [r]
  {
    WindowsRowRoundTrip(r);
  }

  lemma {:induction false} WindowsScanOfRows(rows: seq<Route>)
    requires forall r | r in rows :: IsWindowsRow(r)
    ensures WindowsAfter(Map(PrintWindows, rows), Reading) == Reading
    ensures WindowsScan(Map(PrintWindows, rows), Reading) == rows
  {
    if rows != [] {
      var n := |rows| - 1;
      WindowsScanOfRows(rows[..n]);
      assert rows[n] in rows && rows == rows[..n] + [rows[n]];
      RowGoesOn(rows[n]);
      MapOfSnoc(PrintWindows, rows[..n], rows[n]);
      WindowsScanOfConcat(Map(PrintWindows, rows[..n]), [PrintWindows(rows[n])], Reading);
      WindowsScanOfLine(PrintWindows(rows[n]), Reading);
    }
  }

  /** A text without a character of a word, or shorter than it, does not contain it. */
  lemma FreeOf(s: string, word: string, k: nat)
    requires k < |word| && (word[k] !in s || |s| < |word|)
    ensures !Contains(s, word)
  {
    ContainsMeaning(s, word);
  }

  lemma WordIn(l: string, word: string, r: string)
    ensures Contains(l + word + r, word)
  {
    ContainsMeaning(l + word + r, word);
    assert (l + word + r)[|l|..|l| + |word|] == word;
    assert OccursAt(l + word + r, word, |l|);
  }

  /** The marker of the active routes. */
  lemma ActiveIsMarker(line: string)
    requires line == "Active Routes:"
    ensures ActiveMarker(line)
  {
    TrimOfTrimmed(line);
    WordIn("", line, "");
    assert "" + line + "" == line;
  }

  lemma FieldsOfTwo(a: string, b: string)
    requires IsToken(a) && IsToken(b)
    ensures Fields(a + [' '] + b) == [a, b] && Trimmed(a + [' '] + b)
  {
    FieldsOfToken(a);
    FieldsOfToken(b);
    FieldsOfConcat(a, ' ', b);
  }

  lemma NoOtherMarker(line: string)
    requires line == "Persistent Routes:"
    ensures !Contains(line, "Active Routes:") && !Contains(line, "Network Destination") && !Contains(line, "=====")
  {
    FreeOf(line, "Active Routes:", 0);
    FreeOf(line, "Network Destination", 0);
    FreeOf(line, "=====", 0);
  }

  /** The line that ends the table. */
  lemma PersistentIsMarker(line: string, a: string, b: string)
    requires line == "Persistent Routes:" && a == "Persistent" && b == "Routes:"
    ensures PersistentMarker(line)
  {
    assert line == a + [' '] + b;
    FieldsOfTwo(a, b);
    TrimOfTrimmed(line);
    NoOtherMarker(line);
    WordIn("", line, "");
    assert "" + line + "" == line;
  }

  /** A whole page: anything before the marker, the marker, the header, rows, the end of the table, and
      anything at all after it. */
  function WindowsPage(before: seq<string>, active: string, header: string, rows: seq<Route>, end: string,
                       after: seq<string>): seq<string> {
    (before + [active] + [header]) + (Map(PrintWindows, rows) + [end] + after)
  }

  predicate IsWindowsPage(before: seq<string>, active: string, header: string, rows: seq<Route>, end: string) {
    && (forall i | 0 <= i < |before| :: !ActiveMarker(before[i]))
    && ActiveMarker(active) && WindowsHeader(header) && !ActiveMarker(header) && PersistentMarker(end)
    && forall r | r in rows :: IsWindowsRow(r)
  }

  lemma WindowsScanOfHead(before: seq<string>, active: string, header: string)
    requires forall i | 0 <= i < |before| :: !ActiveMarker(before[i])
    requires ActiveMarker(active) && WindowsHeader(header)
    ensures var head := before + [active] + [header];
      WindowsScan(head, Waiting) == [] && WindowsAfter(head, Waiting) == Reading
  {
    WindowsScanWaiting(before);
    WindowsScanOfConcat(before, [active], Waiting);
    WindowsScanOfLine(active, Waiting);
    WindowsScanOfConcat(before + [active], [header], Waiting);
    WindowsScanOfLine(header, Reading);
  }

  lemma EndStops(end: string)
    requires PersistentMarker(end)
    ensures WindowsNext(Reading, end) == Done && WindowsFound(Reading, end) == []
  {
  }

  lemma WindowsScanOfTable(rows: seq<Route>, end: string, after: seq<string>)
    requires PersistentMarker(end) && forall r | r in rows :: IsWindowsRow(r)
    ensures WindowsScan(Map(PrintWindows, rows) + [end] + after, Reading) == rows
  {
    var printed := Map(PrintWindows, rows);
    EndStops(end);
    WindowsScanOfRows(rows);
    WindowsScanOfConcat(printed, [end], Reading);
    WindowsScanOfLine(end, Reading);
    WindowsScanOfConcat(printed + [end], after, Reading);
    WindowsScanDone(after);
  }

  lemma WindowsScanOfPage(before: seq<string>, active: string, header: string, rows: seq<Route>, end: string,
                          after: seq<string>)
    requires IsWindowsPage(before, active, header, rows, end)
    ensures WindowsScan(WindowsPage(before, active, header, rows, end, after), Waiting) == rows
  {
    WindowsScanOfHead(before, active, header);
    WindowsScanOfTable(rows, end, after);
    WindowsScanOfConcat(before + [active] + [header], Map(PrintWindows, rows) + [end] + after, Waiting);
  }

  /** The routes of such a text are its rows, whatever stands behind the end of the table. */
  lemma WindowsRoundTrip(before: seq<string>, active: string, header: string, rows: seq<Route>, end: string,
                         after: seq<string>)
    requires IsWindowsPage(before, active, header, rows, end)
    requires AreLines(WindowsPage(before, active, header, rows, end, after))
    ensures var lines := Lines(Page(WindowsPage(before, active, header, rows, end, after)));
      WindowsRoutes(lines, |lines|) == rows
  {
    var lines := WindowsPage(before, active, header, rows, end, after);
    LinesOfPage(lines);
    WindowsScanOfPage(before, active, header, rows, end, after);
    WindowsIsScan(lines, |lines|);
    assert lines[..|lines|] == lines;
  }

  // ---------------------------------------------------------------- /proc/net/route

  type Address = (byte, byte, byte, byte)

  /** A row of the kernel's table: interface, destination, gateway, metric, prefix length with its mask, the
      other columns, and the letter case of the hexadecimal digits. */
  datatype KernelRow = KernelRow(
    iface: string, addr: Address, gw: Address, mask: Address, length: nat, metric: int, flags: string,
    refCnt: string, use: string, more: seq<string>, k: Case)

  function KernelFields(row: KernelRow): seq<string> {
    [row.iface, KernelHex(row.addr, row.k), KernelHex(row.gw, row.k), row.flags, row.refCnt, row.use,
     Itoa(row.metric), KernelHex(row.mask, row.k)] + row.more
  }

  /** The columns are separated by tabs. */
  function PrintKernel(row: KernelRow): string {
    Join(KernelFields(row), "\t")
  }

  predicate IsKernelRow(row: KernelRow) {
    && IsToken(row.iface) && IsToken(row.flags) && IsToken(row.refCnt) && IsToken(row.use) && AreTokens(row.more)
    && FitsInt64(row.metric) && row.length <= WIDTH
    && ((row.mask.0 * 256 + row.mask.1) * 256 + row.mask.2) * 256 + row.mask.3 == Pow2(WIDTH) - Pow2(WIDTH - row.length)
  }

  const ZERO: Address := (0, 0, 0, 0)

  /** The route of a row: the zero address is the default route, a prefix length stands for a network, and
      the zero gateway is none. */
  function RouteOfKernel(row: KernelRow): Route {
    Route(
      if row.addr == ZERO then "default"
      else if 0 < row.length < WIDTH then Quad(row.addr) + "/" + Decimal(row.length)
      else Quad(row.addr),
      if row.gw == ZERO then "" else Quad(row.gw),
      "", row.iface, row.metric, "")
  }

  lemma QuadOfZero(a: Address)
    ensures Quad(a) == "0.0.0.0" <==> a == ZERO
  {
    DottedRoundTrip(a.0, a.1, a.2, a.3);
    DottedRoundTrip(0, 0, 0, 0);
    DottedZero();
  }

  lemma DottedZero()
    ensures Dotted(0, 0, 0, 0) == "0.0.0.0"
  {
    var z := Itoa(0);
    assert z == "0" by {
      assert |Decimal(0)| == 1 && Number(Decimal(0)) == 0;
      assert Decimal(0)[..0] == "";
    }
    assert ["0", "0", "0", "0"][1..] == ["0", "0", "0"];
    assert ["0", "0", "0"][1..] == ["0", "0"] && ["0", "0"][1..] == ["0"];
    assert Join(["0", "0", "0", "0"], ".") == "0.0.0.0";
  }

  lemma KernelHexIsToken(a: Address, k: Case)
    ensures IsToken(KernelHex(a, k))
  {
  }

  lemma KernelFieldsAreTokens(row: KernelRow)
    requires IsKernelRow(row)
    ensures AreTokens(KernelFields(row))
  {
    KernelHexIsToken(row.addr, row.k);
    KernelHexIsToken(row.gw, row.k);
    KernelHexIsToken(row.mask, row.k);
    NumberRoundTrip(row.metric);
  }

  /** One row, printed and read back. */
  lemma KernelRowRoundTrip(row: KernelRow)
    requires IsKernelRow(row)
    ensures ProcLine(PrintKernel(row)) == [RouteOfKernel(row)] && '\n' !in PrintKernel(row)
  {
    KernelFieldsAreTokens(row);
    FieldsOfRow(KernelFields(row), '\t');
    TokensHaveNoNewline(KernelFields(row), '\t');
    KernelFieldsRoundTrip(row);
  }

  lemma KernelFieldsRoundTrip(row: KernelRow)
    requires IsKernelRow(row)
    ensures ProcRoute(KernelFields(row)) == [RouteOfKernel(row)]
  {
    QuadOfZero(row.addr);
    QuadOfZero(row.gw);
    var f := KernelFields(row);
    assert f[1] == KernelHex(row.addr, row.k) && f[2] == KernelHex(row.gw, row.k) && f[0] == row.iface;
    assert f[6] == Itoa(row.metric) && f[7] == KernelHex(row.mask, row.k);
    ProcRowRoundTrip(f, row.addr, row.gw, row.mask, row.length, row.metric, row.k);
  }

  lemma {:induction false} TokensHaveNoNewline(ts: seq<string>, c: char)
    requires AreTokens(ts) && c != '\n'
    ensures '\n' !in Join(ts, [c])
  {
    if ts != [] {
      assert ts[0] in ts && forall i | 0 <= i < |ts[0]| :: !IsSpace(ts[0][i]);
      assert forall t | t in ts[1..] :: t in ts;
      TokensHaveNoNewline(ts[1..], c);
    }
  }

  lemma ProcRoutesOfSnoc(lines: seq<string>, line: string)
    ensures ProcRoutes(lines + [line]) == ProcRoutes(lines) + ProcLine(line)
  {
    assert (lines + [line])[..|lines|] == lines;
  }

  lemma {:induction false} KernelRows(rows: seq<KernelRow>)
    requires forall r | r in rows :: IsKernelRow(r)
    ensures ProcRoutes(Map(PrintKernel, rows)) == Map(RouteOfKernel, rows)
  {
    if rows != [] {
      var n := |rows| - 1;
      KernelRows(rows[..n]);
      assert rows[n] in rows && rows == rows[..n] + [rows[n]];
      KernelRowRoundTrip(rows[n]);
      MapOfSnoc(PrintKernel, rows[..n], rows[n]);
      MapOfSnoc(RouteOfKernel, rows[..n], rows[n]);
      ProcRoutesOfSnoc(Map(PrintKernel, rows[..n]), PrintKernel(rows[n]));
    }
  }

  /** The kernel's table, printed with its header and tabs and read back. */
  lemma KernelRoundTrip(header: string, rows: seq<KernelRow>)
    requires '\n' !in header && forall r | r in rows :: IsKernelRow(r)
    ensures ProcRoutes(Lines(Page([header] + Map(PrintKernel, rows)))[1..]) == Map(RouteOfKernel, rows)
  {
    var lines := [header] + Map(PrintKernel, rows);
    forall i | 0 <= i < |lines| ensures '\n' !in lines[i] {
      if i > 0 {
        assert rows[i - 1] in rows;
        KernelRowRoundTrip(rows[i - 1]);
      }
    }
    LinesOfPage(lines);
    assert lines[1..] == Map(PrintKernel, rows);
    KernelRows(rows);
  }
}
