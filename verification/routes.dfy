/** Routing tables: scanners for `ip route`, netstat, route print and /proc/net/route
    (internal/discovery/network.go). */
module Routes {
  import opened Text
  import opened Hex
  import opened Lists
  import opened Netmask

  datatype Route = Route(
    destination: string, gateway: string, netmask: string, iface: string, metric: int, flags: string)

  function NewRoute(destination: string): Route {
    Route(destination, "", "", "", 0, "")
  }

  function Lines(output: string): seq<string> {
    Split(output, '\n')
  }

  // ---------------------------------------------------------------- ip route

  predicate IsKeyword(token: string) {
    token == "via" || token == "dev" || token == "metric"
  }

  function ScannedMetric(token: string, before: int): int {
    if ScanInt(token).Some? then ScanInt(token).value else before
  }

  /** The clauses of a line, read from left to right; a keyword takes the token after it. */
  function ScanClauses(fields: seq<string>, r: Route): Route {
    if |fields| >= 2 && fields[0] == "via" then ScanClauses(fields[2..], r.(gateway := fields[1]))
    else if |fields| >= 2 && fields[0] == "dev" then ScanClauses(fields[2..], r.(iface := fields[1]))
    else if |fields| >= 2 && fields[0] == "metric" then
      ScanClauses(fields[2..], r.(metric := ScannedMetric(fields[1], r.metric)))
    else if fields != [] then ScanClauses(fields[1..], r)
    else r
  }

  function RouteOfFields(fields: seq<string>): seq<Route> {
    if |fields| < 2 then [] else [ScanClauses(fields[1..], NewRoute(fields[0]))]
  }

  function LinuxLine(line: string): seq<Route> {
    RouteOfFields(Fields(line))
  }

  /** The routes of a text: those of its lines, in order. */
  function LinuxRoutes(output: string): seq<Route> {
    FlatMap(LinuxLine, Lines(output))
  }

  /** The inner loop: an index that a clause moves by two. */
  method ScanLine(fields: seq<string>) returns (route: Route)
    requires |fields| >= 2
    ensures [route] == RouteOfFields(fields)
  {
    route := NewRoute(if fields[0] == "default" then "default" else fields[0]);
    var i := 1;
    while i < |fields|
      invariant 1 <= i <= |fields|
      invariant ScanClauses(fields[i..], route) == ScanClauses(fields[1..], NewRoute(fields[0]))
    {
      ghost var rest := fields[i..];
      assert rest[1..] == fields[i + 1..];
      assert |rest| >= 2 ==> rest[2..] == fields[i + 2..];
      if fields[i] == "via" {
        if i + 1 < |fields| {
          route := route.(gateway := fields[i + 1]);
          i := i + 1;
        }
      } else if fields[i] == "dev" {
        if i + 1 < |fields| {
          route := route.(iface := fields[i + 1]);
          i := i + 1;
        }
      } else if fields[i] == "metric" {
        if i + 1 < |fields| {
          var metric := ScanInt(fields[i + 1]);
          if metric.Some? {
            route := route.(metric := metric.value);
          }
          i := i + 1;
        }
      }
      i := i + 1;
    }
  }

  method ParseLinuxRoutes(output: string) returns (routes: seq<Route>)
    ensures routes == LinuxRoutes(output)
  {
    var lines := Split(output, '\n');
    routes := [];
    for n := 0 to |lines|
      invariant routes == FlatMap(LinuxLine, lines[..n])
    {
      FlatMapStep(LinuxLine, lines, n);
      FieldsOfTrimSpace(lines[n]);
      var line := TrimSpace(lines[n]);
      if line == "" {
        continue;
      }
      var fields := Fields(line);
      if |fields| < 2 {
        continue;
      }
      var route := ScanLine(fields);
      routes := routes + [route];
    }
    assert lines[..|lines|] == lines;
  }

  /** Parsing distributes over joining two texts by a newline. */
  lemma LinuxRoutesOfConcat(a: string, b: string)
    ensures LinuxRoutes(a + ['\n'] + b) == LinuxRoutes(a) + LinuxRoutes(b)
  {
    SplitOfConcat(a, '\n', b);
    FlatMapOfConcat(LinuxLine, Lines(a), Lines(b));
  }

  /** What a route of `ip route` can be: its texts are tokens, and nothing else is set. */
  predicate Printable(r: Route) {
    && IsToken(r.destination) && IsToken(r.iface) && (r.gateway == "" || IsToken(r.gateway))
    && FitsInt64(r.metric) && r.netmask == "" && r.flags == ""
  }

  /** Tokens that the scanner passes over. */
  predicate Noise(tokens: seq<string>) {
    forall t | t in tokens :: IsToken(t) && !IsKeyword(t)
  }

  function ViaClause(r: Route): seq<string> {
    if r.gateway == "" then [] else ["via", r.gateway]
  }

  function MetricClause(r: Route): seq<string> {
    if r.metric == 0 then [] else ["metric", Itoa(r.metric)]
  }

  /** A line for a route, with other words after the destination and between the clauses. */
  function PrintRoute(r: Route, a: seq<string>, b: seq<string>, c: seq<string>, d: seq<string>): seq<string> {
    [r.destination] + a + ViaClause(r) + b + ["dev", r.iface] + c + MetricClause(r) + d
  }

  lemma {:induction false} ScanOfNoise(noise: seq<string>, rest: seq<string>, r: Route)
    requires Noise(noise)
    ensures ScanClauses(noise + rest, r) == ScanClauses(rest, r)
  {
    if noise == [] {
      assert noise + rest == rest;
    } else {
      assert (noise + rest)[1..] == noise[1..] + rest;
      assert noise[0] in noise && (noise + rest)[0] == noise[0];
      assert forall t | t in noise[1..] :: t in noise;
      ScanOfNoise(noise[1..], rest, r);
    }
  }

  lemma ScanOfClause(key: string, value: string, rest: seq<string>, r: Route)
    requires IsKeyword(key)
    ensures ScanClauses([key, value] + rest, r) == ScanClauses(rest,
      if key == "via" then r.(gateway := value)
      else if key == "dev" then r.(iface := value)
      else r.(metric := ScannedMetric(value, r.metric)))
  {
    assert ([key, value] + rest)[2..] == rest;
    assert key == "dev" ==> key != "via";
    assert key == "metric" ==> key != "via" && key != "dev" by {
      assert |"metric"| != |"via"|;
    }
  }

  /** Noise and an optional gateway before `rest`. */
  lemma ScanOfVia(noise: seq<string>, r: Route, rest: seq<string>, r0: Route)
    requires Noise(noise) && r0.gateway == ""
    ensures ScanClauses(noise + (ViaClause(r) + rest), r0) == ScanClauses(rest, r0.(gateway := r.gateway))
  {
    ScanOfNoise(noise, ViaClause(r) + rest, r0);
    if r.gateway != "" {
      ScanOfClause("via", r.gateway, rest, r0);
    } else {
      assert ViaClause(r) + rest == rest;
    }
  }

  /** Noise and the device before `rest`. */
  lemma ScanOfDev(noise: seq<string>, device: string, rest: seq<string>, r0: Route)
    requires Noise(noise)
    ensures ScanClauses(noise + (["dev", device] + rest), r0) == ScanClauses(rest, r0.(iface := device))
  {
    ScanOfNoise(noise, ["dev", device] + rest, r0);
    ScanOfClause("dev", device, rest, r0);
  }

  /** Noise, an optional metric and more noise at the end. */
  lemma ScanOfMetric(noise: seq<string>, r: Route, last: seq<string>, r0: Route)
    requires Noise(noise) && Noise(last) && FitsInt64(r.metric) && r0.metric == 0
    ensures ScanClauses(noise + (MetricClause(r) + last), r0) == r0.(metric := r.metric)
  {
    ScanOfNoise(noise, MetricClause(r) + last, r0);
    if r.metric != 0 {
      NumberRoundTrip(r.metric);
      ScanOfClause("metric", Itoa(r.metric), last, r0);
    } else {
      assert MetricClause(r) + last == last;
    }
    ScanOfNoise(last, [], r0.(metric := r.metric));
    assert last + [] == last;
  }

  /** The clauses of a printed route, bracketed from the right. */
  lemma PrintedClauses(r: Route, a: seq<string>, b: seq<string>, c: seq<string>, d: seq<string>)
    ensures PrintRoute(r, a, b, c, d)
      == [r.destination] + (a + (ViaClause(r) + (b + (["dev", r.iface] + (c + (MetricClause(r) + d))))))
  {
  }

  /** The scanner inverts the printer, whatever noise surrounds the clauses. */
  lemma ScanOfPrinted(r: Route, a: seq<string>, b: seq<string>, c: seq<string>, d: seq<string>)
    requires Printable(r) && Noise(a) && Noise(b) && Noise(c) && Noise(d)
    ensures RouteOfFields(PrintRoute(r, a, b, c, d)) == [r]
  {
    var r0 := NewRoute(r.destination);
    var r1 := r0.(gateway := r.gateway);
    var t3 := c + (MetricClause(r) + d);
    var t2 := b + (["dev", r.iface] + t3);
    var t1 := a + (ViaClause(r) + t2);
    PrintedClauses(r, a, b, c, d);
    assert PrintRoute(r, a, b, c, d)[1..] == t1;
    ScanOfVia(a, r, t2, r0);
    ScanOfDev(b, r.iface, t3, r1);
    ScanOfMetric(c, r, d, r1.(iface := r.iface));
  }

  datatype PrintedRoute = PrintedRoute(route: Route, a: seq<string>, b: seq<string>, c: seq<string>, d: seq<string>)

  predicate WellPrinted(p: PrintedRoute) {
    Printable(p.route) && Noise(p.a) && Noise(p.b) && Noise(p.c) && Noise(p.d)
  }

  function PrintLine(p: PrintedRoute): string {
    Join(PrintRoute(p.route, p.a, p.b, p.c, p.d), " ")
  }

  function RouteOf(p: PrintedRoute): Route {
    p.route
  }

  /** A text for a table of routes, one line each. */
  function PrintTable(ps: seq<PrintedRoute>): string {
    Join(Map(PrintLine, ps), "\n")
  }

  predicate AreTokens(ts: seq<string>) {
    forall t | t in ts :: IsToken(t)
  }

  lemma PrintRouteHasTokens(p: PrintedRoute)
    requires WellPrinted(p)
    ensures AreTokens(PrintRoute(p.route, p.a, p.b, p.c, p.d))
  {
    ClausesAreTokens(p.route);
    var r0 := [p.route.destination] + p.a;
    var r1 := r0 + ViaClause(p.route) + p.b;
    var r2 := r1 + ["dev", p.route.iface] + p.c;
    TokensOfConcat([p.route.destination], p.a);
    TokensOfConcat(r0, ViaClause(p.route));
    TokensOfConcat(r0 + ViaClause(p.route), p.b);
    TokensOfConcat(r1, ["dev", p.route.iface]);
    TokensOfConcat(r1 + ["dev", p.route.iface], p.c);
    TokensOfConcat(r2, MetricClause(p.route));
    TokensOfConcat(r2 + MetricClause(p.route), p.d);
  }

  lemma TokensOfConcat(ts: seq<string>, us: seq<string>)
    requires AreTokens(ts) && AreTokens(us)
    ensures AreTokens(ts + us)
  {
  }

  lemma ClausesAreTokens(r: Route)
    requires Printable(r)
    ensures AreTokens(ViaClause(r)) && AreTokens(["dev", r.iface]) && AreTokens(MetricClause(r))
  {
    KeywordsAreTokens();
    NumberRoundTrip(r.metric);
    if r.gateway != "" {
      TwoTokens("via", r.gateway);
    }
    TwoTokens("dev", r.iface);
    if r.metric != 0 {
      TwoTokens("metric", Itoa(r.metric));
    }
  }

  lemma KeywordsAreTokens()
    ensures IsToken("via") && IsToken("dev") && IsToken("metric")
  {
  }

  lemma TwoTokens(t: string, u: string)
    requires IsToken(t) && IsToken(u)
    ensures AreTokens([t, u])
  {
  }

  lemma {:induction false} WordsHaveNoNewline(ts: seq<string>)
    requires AreTokens(ts)
    ensures '\n' !in Join(ts, " ")
  {
    if ts != [] {
      assert ts[0] in ts && forall i | 0 <= i < |ts[0]| :: !IsSpace(ts[0][i]);
      assert forall t | t in ts[1..] :: t in ts;
      WordsHaveNoNewline(ts[1..]);
    }
  }

  lemma LineRoundTrip(p: PrintedRoute)
    requires WellPrinted(p)
    ensures LinuxLine(PrintLine(p)) == [p.route] && '\n' !in PrintLine(p)
  {
    PrintRouteHasTokens(p);
    FieldsOfJoin(PrintRoute(p.route, p.a, p.b, p.c, p.d), ' ');
    WordsHaveNoNewline(PrintRoute(p.route, p.a, p.b, p.c, p.d));
    ScanOfPrinted(p.route, p.a, p.b, p.c, p.d);
  }

  lemma {:induction false} RoutesOfLines(ps: seq<PrintedRoute>)
    requires forall p | p in ps :: WellPrinted(p)
    ensures FlatMap(LinuxLine, Map(PrintLine, ps)) == Map(RouteOf, ps)
  {
    if ps != [] {
      var n := |ps| - 1;
      var front, p := ps[..n], ps[n];
      assert ps == front + [p] && p in ps;
      RoutesOfLines(front);
      LineRoundTrip(p);
      MapOfSnoc(PrintLine, front, p);
      MapOfSnoc(RouteOf, front, p);
      FlatMapOfSnoc(LinuxLine, Map(PrintLine, front), PrintLine(p));
    }
  }

  /** Printing any table of routes and parsing the text gives the same routes in the same order. */
  lemma TableRoundTrip(ps: seq<PrintedRoute>)
    requires forall p | p in ps :: WellPrinted(p)
    ensures LinuxRoutes(PrintTable(ps)) == Map(RouteOf, ps)
  {
    if ps == [] {
      assert Lines("")[..0] == [];
      assert Fields("") == [];
    } else {
      var lines := Map(PrintLine, ps);
      forall i | 0 <= i < |lines| ensures '\n' !in lines[i] {
        assert ps[i] in ps;
        LineRoundTrip(ps[i]);
      }
      SplitOfJoin(lines, '\n');
      RoutesOfLines(ps);
    }
  }

  // ---------------------------------------------------------------- netstat -rn

  predicate IPv4Marker(line: string) {
    Contains(TrimSpace(line), "Internet:")
  }

  /** A line with both markers counts for IPv4. */
  predicate IPv6Marker(line: string) {
    !IPv4Marker(line) && Contains(TrimSpace(line), "Internet6:")
  }

  /** The latest section marker before line `i` is the IPv4 one. */
  ghost predicate InIPv4Section(lines: seq<string>, i: nat)
    requires i <= |lines|
  {
    exists j | 0 <= j < i :: OpensSection(lines, j, i)
  }

  /** Line `j` is an IPv4 marker, and no IPv6 marker comes between it and line `i`. */
  ghost predicate OpensSection(lines: seq<string>, j: nat, i: nat)
    requires j < i <= |lines|
  {
    IPv4Marker(lines[j]) && forall k | j < k < i :: !IPv6Marker(lines[k])
  }

  ghost predicate DarwinRouteLine(lines: seq<string>, i: nat)
    requires i < |lines|
  {
    DarwinShape(lines[i]) && InIPv4Section(lines, i)
  }

  function DarwinRoute(line: string): Route {
    var f := Fields(line);
    if |f| < 4 then NewRoute("") else Route(f[0], f[1], "", f[3], 0, f[2])
  }

  /** The routes of the first `n` lines: one for every route line, in order. */
  ghost function DarwinRoutes(lines: seq<string>, n: nat): seq<Route>
    requires n <= |lines|
  {
    if n == 0 then [] else
      DarwinRoutes(lines, n - 1) + if DarwinRouteLine(lines, n - 1) then [DarwinRoute(lines[n - 1])] else []
  }

  lemma OpensOneMore(lines: seq<string>, j: nat, i: nat)
    requires j < i < |lines|
    ensures OpensSection(lines, j, i + 1) <==> OpensSection(lines, j, i) && !IPv6Marker(lines[i])
  {
  }

  lemma SectionStep(lines: seq<string>, i: nat)
    requires i < |lines|
    ensures InIPv4Section(lines, i + 1) <==>
      IPv4Marker(lines[i]) || (InIPv4Section(lines, i) && !IPv6Marker(lines[i]))
  {
    if IPv4Marker(lines[i]) {
      assert OpensSection(lines, i, i + 1);
    }
    if j :| 0 <= j < i && OpensSection(lines, j, i) && !IPv6Marker(lines[i]) {
      OpensOneMore(lines, j, i);
    }
    if InIPv4Section(lines, i + 1) {
      var j :| 0 <= j < i + 1 && OpensSection(lines, j, i + 1);
      if j < i {
        OpensOneMore(lines, j, i);
      }
    }
  }

  lemma NoMarkerInBlank(line: string)
    requires TrimSpace(line) == ""
    ensures !Contains(TrimSpace(line), "Internet:") && !Contains(TrimSpace(line), "Internet6:")
    ensures !Contains(TrimSpace(line), "Active Routes:") && Fields(line) == []
  {
    FieldsOfTrimSpace(line);
  }

  /** A line that can be a route, wherever it stands. */
  predicate DarwinShape(line: string) {
    && !IPv4Marker(line) && !IPv6Marker(line)
    && !("Destination" <= TrimSpace(line))
    && |Fields(line)| >= 4
  }

  /** One round of the loop. */
  method ReadDarwinLine(line: string, inIPv4Section: bool) returns (inside: bool, found: seq<Route>)
    ensures inside <==> IPv4Marker(line) || (inIPv4Section && !IPv6Marker(line))
    ensures found == if inIPv4Section && DarwinShape(line) then [DarwinRoute(line)] else []
  {
    inside, found := inIPv4Section, [];
    var trimmed := TrimSpace(line);
    FieldsOfTrimSpace(line);
    if trimmed == "" {
      NoMarkerInBlank(line);
      return;
    }
    if Contains(trimmed, "Internet:") {
      return true, [];
    }
    if Contains(trimmed, "Internet6:") {
      return false, [];
    }
    if "Destination" <= trimmed {
      return;
    }
    if !inIPv4Section {
      return;
    }
    var fields := Fields(trimmed);
    if |fields| < 4 {
      return;
    }
    found := [Route(fields[0], fields[1], "", fields[3], 0, fields[2])];
  }

  method ParseDarwinRoutes(output: string) returns (routes: seq<Route>)
    ensures routes == DarwinRoutes(Lines(output), |Lines(output)|)
  {
    var lines := Split(output, '\n');
    var inIPv4Section := false;
    routes := [];
    for n := 0 to |lines|
      invariant inIPv4Section <==> InIPv4Section(lines, n)
      invariant routes == DarwinRoutes(lines, n)
    {
      SectionStep(lines, n);
      var found;
      inIPv4Section, found := ReadDarwinLine(lines[n], inIPv4Section);
      routes := routes + found;
    }
  }

  // ---------------------------------------------------------------- route print

  predicate ActiveMarker(line: string) {
    Contains(TrimSpace(line), "Active Routes:")
  }

  predicate WindowsHeader(line: string) {
    Contains(TrimSpace(line), "Network Destination") || Contains(TrimSpace(line), "=====")
  }

  ghost predicate InRouteTable(lines: seq<string>, i: nat)
    requires i <= |lines|
  {
    exists j | 0 <= j < i :: ActiveMarker(lines[j])
  }

  predicate PersistentMarker(line: string) {
    && !ActiveMarker(line) && !WindowsHeader(line)
    && |Fields(line)| < 4 && Contains(TrimSpace(line), "Persistent Routes:")
  }

  /** A persistent-routes line with fewer than four fields, after an active-routes marker, ends the table. */
  ghost predicate EndsTable(lines: seq<string>, i: nat)
    requires i < |lines|
  {
    InRouteTable(lines, i) && PersistentMarker(lines[i])
  }

  /** A line that can be a route, wherever it stands. */
  predicate WindowsShape(line: string) {
    !ActiveMarker(line) && !WindowsHeader(line) && |Fields(line)| >= 4
  }

  ghost predicate WindowsRouteLine(lines: seq<string>, i: nat)
    requires i < |lines|
  {
    WindowsShape(lines[i]) && InRouteTable(lines, i) && NotEnded(lines, i)
  }

  ghost predicate NotEnded(lines: seq<string>, i: nat)
    requires i <= |lines|
  {
    forall j | 0 <= j < i :: !EndsTable(lines, j)
  }

  function WindowsRoute(line: string): Route {
    var f := Fields(line);
    if |f| < 4 then NewRoute("")
    else Route(f[0], f[2], f[1], f[3], if |f| >= 5 then ScannedMetric(f[4], 0) else 0, "")
  }

  /** The routes of the first `n` lines: one for every route line, in order. */
  ghost function WindowsRoutes(lines: seq<string>, n: nat): seq<Route>
    requires n <= |lines|
  {
    if n == 0 then [] else
      WindowsRoutes(lines, n - 1) + if WindowsRouteLine(lines, n - 1) then [WindowsRoute(lines[n - 1])] else []
  }

  lemma {:induction false} NothingAfterTheEnd(lines: seq<string>, m: nat, n: nat)
    requires m < n <= |lines| && EndsTable(lines, m)
    ensures WindowsRoutes(lines, n) == WindowsRoutes(lines, m)
  {
    if m < n - 1 {
      NothingAfterTheEnd(lines, m, n - 1);
    }
  }

  lemma TableStep(lines: seq<string>, i: nat)
    requires i < |lines|
    ensures InRouteTable(lines, i + 1) <==> InRouteTable(lines, i) || ActiveMarker(lines[i])
  {
  }

  lemma EndStep(lines: seq<string>, n: nat)
    requires n < |lines|
    ensures NotEnded(lines, n + 1) <==> NotEnded(lines, n) && !EndsTable(lines, n)
  {
    if NotEnded(lines, n) && !EndsTable(lines, n) {
      forall j | 0 <= j < n + 1 ensures !EndsTable(lines, j) {
        if j < n {
          assert !EndsTable(lines, j);
        }
      }
    }
  }

  /** Before the end of the table, a line counts when it has the shape of a route. */
  lemma WindowsStep(lines: seq<string>, n: nat)
    requires n < |lines| && NotEnded(lines, n)
    ensures WindowsRoutes(lines, n + 1) == WindowsRoutes(lines, n)
      + if InRouteTable(lines, n) && WindowsShape(lines[n]) then [WindowsRoute(lines[n])] else []
  {
  }

  /** What one line does to the table, to its end and to the routes. */
  lemma WindowsRound(lines: seq<string>, n: nat)
    requires n < |lines| && NotEnded(lines, n)
    ensures InRouteTable(lines, n + 1) <==> InRouteTable(lines, n) || ActiveMarker(lines[n])
    ensures NotEnded(lines, n + 1) <==> !EndsTable(lines, n)
    ensures WindowsRoutes(lines, n + 1) == WindowsRoutes(lines, n)
      + if InRouteTable(lines, n) && WindowsShape(lines[n]) then [WindowsRoute(lines[n])] else []
  {
    TableStep(lines, n);
    EndStep(lines, n);
    WindowsStep(lines, n);
  }

  /** One round of the loop; `stop` is its break. */
  method ReadWindowsLine(line: string, inRouteTable: bool) returns (inside: bool, found: seq<Route>, stop: bool)
    ensures inside <==> inRouteTable || ActiveMarker(line)
    ensures found == if inRouteTable && WindowsShape(line) then [WindowsRoute(line)] else []
    ensures stop <==> inRouteTable && PersistentMarker(line)
  {
    inside, found, stop := inRouteTable, [], false;
    var trimmed := TrimSpace(line);
    FieldsOfTrimSpace(line);
    if trimmed == "" {
      NoMarkerInBlank(line);
      return;
    }
    if Contains(trimmed, "Active Routes:") {
      return true, [], false;
    }
    if !inRouteTable {
      return;
    }
    if Contains(trimmed, "Network Destination") || Contains(trimmed, "=====") {
      return;
    }
    var fields := Fields(trimmed);
    if |fields| < 4 {
      stop := Contains(trimmed, "Persistent Routes:");
      return;
    }
    var route := Route(fields[0], fields[2], fields[1], fields[3], 0, "");
    if |fields| >= 5 {
      var metric := ScanInt(fields[4]);
      if metric.Some? {
        route := route.(metric := metric.value);
      }
    }
    found := [route];
  }

  /** Where the scan stands before line `n`, as long as the table has not ended. */
  ghost predicate ScannedTo(lines: seq<string>, n: nat, inside: bool, routes: seq<Route>)
    requires n <= |lines|
  {
    (inside <==> InRouteTable(lines, n)) && NotEnded(lines, n) && routes == WindowsRoutes(lines, n)
  }

  /** Line `n`: the scan goes on behind it, or the routes are complete. */
  method ScanWindowsLine(lines: seq<string>, n: nat, inRouteTable: bool, routes: seq<Route>)
    returns (inside: bool, more: seq<Route>, stop: bool)
    requires n < |lines| && ScannedTo(lines, n, inRouteTable, routes)
    ensures !stop ==> ScannedTo(lines, n + 1, inside, more)
    ensures stop ==> more == WindowsRoutes(lines, |lines|)
  {
    WindowsRound(lines, n);
    var found;
    inside, found, stop := ReadWindowsLine(lines[n], inRouteTable);
    more := routes + found;
    if stop {
      NothingAfterTheEnd(lines, n, |lines|);
      more := routes;
    }
  }

  method ParseWindowsRoutes(output: string) returns (routes: seq<Route>)
    ensures routes == WindowsRoutes(Lines(output), |Lines(output)|)
  {
    var lines := Split(output, '\n');
    var inRouteTable := false;
    routes := [];
    for n := 0 to |lines|
      invariant ScannedTo(lines, n, inRouteTable, routes)
    {
      var stop;
      inRouteTable, routes, stop := ScanWindowsLine(lines, n, inRouteTable, routes);
      if stop {
        return;
      }
    }
  }

  // ---------------------------------------------------------------- /proc/net/route

  /** The destination of a row: its address with the prefix length, when that is a real one. */
  ghost function ProcDestination(dest: string, mask: string): string {
    if dest == "" then ""
    else if dest == "0.0.0.0" then "default"
    else if 0 < MaskLength(mask) < 32 then dest + "/" + Itoa(MaskLength(mask))
    else dest
  }

  ghost function ProcRoute(f: seq<string>): seq<Route> {
    if |f| < 8 then [] else
      var gw := IPText(f[2]);
      [Route(ProcDestination(IPText(f[1]), IPText(f[7])), if gw == "0.0.0.0" then "" else gw, "", f[0],
             if Atoi(f[6]).Some? then Atoi(f[6]).value else 0, "")]
  }

  ghost function ProcLine(line: string): seq<Route> {
    ProcRoute(Fields(line))
  }

  /** The rows after the header, in order. */
  ghost function ProcRoutes(rows: seq<string>): seq<Route> {
    if rows == [] then [] else ProcRoutes(rows[..|rows| - 1]) + ProcLine(rows[|rows| - 1])
  }

  method ReadProcLine(line: string) returns (found: seq<Route>)
    ensures found == ProcLine(line)
  {
    FieldsOfTrimSpace(line);
    var fields := Fields(TrimSpace(line));
    if TrimSpace(line) == "" || |fields| < 8 {
      return [];
    }
    var route := ReadProcRow(fields);
    found := [route];
  }

  method ParseProcRoutes(data: string) returns (routes: seq<Route>)
    ensures routes == ProcRoutes(Lines(data)[1..])
  {
    var lines := Split(data, '\n');
    ghost var rows := lines[1..];
    routes := [];
    for n := 1 to |lines|
      invariant routes == ProcRoutes(rows[..n - 1])
    {
      var found := ReadProcLine(lines[n]);
      assert rows[..n][..n - 1] == rows[..n - 1];
      routes := routes + found;
    }
    assert rows[..|rows|] == rows;
  }

  method ReadProcRow(fields: seq<string>) returns (route: Route)
    requires |fields| >= 8
    ensures [route] == ProcRoute(fields)
  {
    route := Route("", "", "", fields[0], 0, "");
    var dest := HexToIP(fields[1]);
    if dest != "" {
      if dest == "0.0.0.0" {
        route := route.(destination := "default");
      } else {
        var mask := HexToIP(fields[7]);
        var cidr := MaskToCIDR(mask);
        if cidr > 0 && cidr < 32 {
          route := route.(destination := dest + "/" + Itoa(cidr));
        } else {
          route := route.(destination := dest);
        }
      }
    }
    var gw := HexToIP(fields[2]);
    if gw != "" && gw != "0.0.0.0" {
      route := route.(gateway := gw);
    }
    var metric := Atoi(fields[6]);
    if metric.Some? {
      route := route.(metric := metric.value);
    }
  }

  /** A kernel row is read back: a network in CIDR notation, the zero address as the default route, a host
      or maskless row as its bare address, the zero gateway as none, and the metric. */
  lemma ProcRowRoundTrip(f: seq<string>, addr: (byte, byte, byte, byte), gw: (byte, byte, byte, byte),
                         mask: (byte, byte, byte, byte), n: int, metric: int, k: Case)
    requires |f| >= 8 && f[1] == KernelHex(addr, k) && f[2] == KernelHex(gw, k)
    requires f[6] == Itoa(metric) && FitsInt64(metric) && f[7] == KernelHex(mask, k) && 0 <= n <= WIDTH
    requires ((mask.0 * 256 + mask.1) * 256 + mask.2) * 256 + mask.3 == Pow2(WIDTH) - Pow2(WIDTH - n)
    ensures ProcRoute(f) == [Route(
      if Quad(addr) == "0.0.0.0" then "default" else if 1 <= n <= 31 then Quad(addr) + "/" + Itoa(n) else Quad(addr),
      if Quad(gw) == "0.0.0.0" then "" else Quad(gw),
      "", f[0], metric, "")]
  {
    HexToIPInverts(addr.0, addr.1, addr.2, addr.3, k);
    HexToIPInverts(gw.0, gw.1, gw.2, gw.3, k);
    PrefixLengthSurvives(n, mask.0, mask.1, mask.2, mask.3, k);
    NumberRoundTrip(metric);
    QuadIsNonEmpty(addr);
  }

  function Quad(a: (byte, byte, byte, byte)): string {
    Dotted(a.0, a.1, a.2, a.3)
  }

  /** How the kernel prints an address: eight digits, least significant byte first. */
  function KernelHex(a: (byte, byte, byte, byte), k: Case): string {
    HexText([a.3, a.2, a.1, a.0], k)
  }

  lemma QuadIsNonEmpty(a: (byte, byte, byte, byte))
    ensures Quad(a) != ""
  {
  }
}
