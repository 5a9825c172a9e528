/** Probe results and the order in which they are reported (internal/probe/engine.go). */
module Reports {
  import opened Text
  import opened Lists
  import opened Sorting
  import opened Targets

  datatype Failure = Failure(kind: string, message: string)

  datatype ProbeResult = ProbeResult(
    target: ProbeTarget,
    attempt: int,
    timestamp: int,
    localAddr: string,
    remoteAddr: string,
    resolvedIP: string,
    bytesWritten: int,
    bytesRead: int,
    dialDuration: int,
    handshakeDuration: int,
    totalDuration: int,
    tlsVersion: string,
    cipherSuite: string,
    negotiatedProtocol: string,
    leafSubject: string,
    leafIssuer: string,
    leafSANs: seq<string>,
    leafFingerprint: string,
    certificateChain: seq<string>,
    clientCertFingerprint: string,
    failure: Option<Failure>)

  function ServiceOf(r: ProbeResult): string {
    r.target.serviceKey
  }

  /** What the report shows of a result's place. */
  function PlaceOf(r: ProbeResult): (string, string, int) {
    (r.target.serviceKey, r.target.address, r.attempt)
  }

  // ---------------------------------------------------------------- the comparison

  /** A Go map gives zero for a missing key. */
  function Rank(order: map<string, int>, service: string): int {
    if service in order then order[service] else 0
  }

  predicate Less(order: map<string, int>, a: ProbeResult, b: ProbeResult) {
    var aOrder, bOrder := Rank(order, a.target.serviceKey), Rank(order, b.target.serviceKey);
    if aOrder != bOrder then aOrder < bOrder
    else if a.target.address != b.target.address then Before(a.target.address, b.target.address)
    else a.attempt < b.attempt
  }

  function LessBy(order: map<string, int>): (ProbeResult, ProbeResult) -> bool {
    (a, b) => Less(order, a, b)
  }

  function KeyBy(order: map<string, int>): ProbeResult -> (int, string, int) {
    (r: ProbeResult) => (Rank(order, r.target.serviceKey), r.target.address, r.attempt)
  }

  lemma LessIsTransitive(order: map<string, int>, a: ProbeResult, b: ProbeResult, c: ProbeResult)
    ensures Less(order, a, b) && Less(order, b, c) ==> Less(order, a, c)
    ensures !Less(order, a, b) && !Less(order, b, c) ==> !Less(order, a, c)
  {
    var x, y, z := a.target.address, b.target.address, c.target.address;
    BeforeIsStrictTotal(x, y);
    BeforeIsStrictTotal(y, z);
    BeforeIsStrictTotal(x, z);
    if Before(x, y) && Before(y, z) {
      BeforeIsTransitive(x, y, z);
    }
    if Before(z, y) && Before(y, x) {
      BeforeIsTransitive(z, y, x);
    }
  }

  /** The comparison is a strict weak order, whatever the service order, and two results are
      incomparable exactly when service rank, address and attempt coincide. */
  lemma LessIsStrictWeakOrder(order: map<string, int>)
    ensures StrictWeakOrder(LessBy(order))
    ensures ComparesKeys(LessBy(order), KeyBy(order))
  {
    forall a, b, c
      ensures LessBy(order)(a, b) && LessBy(order)(b, c) ==> LessBy(order)(a, c)
      ensures !LessBy(order)(a, b) && !LessBy(order)(b, c) ==> !LessBy(order)(a, c)
    {
      LessIsTransitive(order, a, b, c);
    }
    forall a, b
      ensures !LessBy(order)(a, b) && !LessBy(order)(b, a) <==> KeyBy(order)(a) == KeyBy(order)(b)
    {
      BeforeIsStrictTotal(a.target.address, b.target.address);
    }
  }

  // ---------------------------------------------------------------- sortResults

  /** Each service with its index of first appearance. */
  function FirstAppearance(services: seq<string>): map<string, int> {
    var f := Firsts(services);
    map s | s in f :: IndexOf(f, s)
  }

  /** `m` takes every element of `f` to its index. */
  ghost predicate Indexes(m: map<string, int>, f: seq<string>) {
    && (forall s | s in m :: s in f)
    && (forall k | 0 <= k < |f| :: f[k] in m && m[f[k]] == k)
  }

  lemma IndexesOneMore(m: map<string, int>, f: seq<string>, s: string)
    requires Indexes(m, f) && s !in f
    ensures Indexes(m[s := |f|], f + [s])
  {
    var g := f + [s];
    assert g[|f|] == s;
    assert forall k | 0 <= k < |f| :: g[k] == f[k] && f[k] != s;
  }

  lemma IndexesIsFirstAppearance(m: map<string, int>, services: seq<string>)
    requires Indexes(m, Firsts(services))
    ensures m == FirstAppearance(services)
  {
    var f := Firsts(services);
    forall s | s in f ensures s in m && m[s] == IndexOf(f, s) {
      assert f[IndexOf(f, s)] == s;
    }
  }

  lemma FirstsOfOneMore(services: seq<string>, n: nat)
    requires n < |services|
    ensures Firsts(services[..n + 1]) ==
      if services[n] in Firsts(services[..n]) then Firsts(services[..n]) else Firsts(services[..n]) + [services[n]]
  {
    assert services[..n + 1][..n] == services[..n];
  }

  ghost predicate IsReportOrder(input: seq<ProbeResult>, output: seq<ProbeResult>) {
    && multiset(output) == multiset(input)
    && Ordered(LessBy(FirstAppearance(Map(ServiceOf, input))), output)
  }

  method SortResults(results: array<ProbeResult>)
    modifies results
    ensures IsReportOrder(old(results[..]), results[..])
  {
    var serviceOrder: map<string, int> := map[];
    var orderIndex := 0;
    ghost var services := Map(ServiceOf, results[..]);
    for i := 0 to results.Length
      invariant results[..] == old(results[..])
      invariant Indexes(serviceOrder, Firsts(services[..i])) && orderIndex == |Firsts(services[..i])|
    {
      FirstsOfOneMore(services, i);
      var service := results[i].target.serviceKey;
      if service !in serviceOrder {
        IndexesOneMore(serviceOrder, Firsts(services[..i]), service);
        serviceOrder := serviceOrder[service := orderIndex];
        orderIndex := orderIndex + 1;
      }
    }
    assert services[..results.Length] == services;
    IndexesIsFirstAppearance(serviceOrder, services);
    LessIsStrictWeakOrder(serviceOrder);
    SortSlice(results, LessBy(serviceOrder));
  }

  // ---------------------------------------------------------------- what the order means

  lemma RankOfService(services: seq<string>, s: string)
    requires s in services
    ensures s in Firsts(services)
    ensures Rank(FirstAppearance(services), s) == IndexOf(Firsts(services), s)
  {
    FirstsMeaning(services);
  }

  /** The report order is unique although the sort is unstable: any two correct sorts of the same
      results show the same services, addresses and attempts in the same order. */
  lemma ReportOrderIsUnique(input: seq<ProbeResult>, a: seq<ProbeResult>, b: seq<ProbeResult>)
    requires IsReportOrder(input, a) && IsReportOrder(input, b)
    ensures Map(PlaceOf, a) == Map(PlaceOf, b)
  {
    var services := Map(ServiceOf, input);
    var order := FirstAppearance(services);
    LessIsStrictWeakOrder(order);
    SortedKeysAreUnique(LessBy(order), KeyBy(order), a, b);
    PermutationSameLength(input, a);
    PermutationSameLength(input, b);
    var ka, kb := Map(KeyBy(order), a), Map(KeyBy(order), b);
    forall i | 0 <= i < |a| ensures PlaceOf(a[i]) == PlaceOf(b[i]) {
      assert a[i] in input && b[i] in input;
      assert ka[i] == kb[i];
      InServices(input, a[i]);
      InServices(input, b[i]);
      RankOfService(services, ServiceOf(a[i]));
      RankOfService(services, ServiceOf(b[i]));
    }
  }

  /** `a` appears in the list before any `b`. */
  ghost predicate AppearsBefore(services: seq<string>, a: string, b: string) {
    exists p | 0 <= p < |services| :: services[p] == a && b !in services[..p]
  }

  lemma {:induction false} FirstsOrder(services: seq<string>, a: string, b: string)
    requires a in services && b in services && a != b
    ensures a in Firsts(services) && b in Firsts(services)
    ensures IndexOf(Firsts(services), a) < IndexOf(Firsts(services), b) <==> AppearsBefore(services, a, b)
  {
    var n := |services| - 1;
    var front, x := services[..n], services[n];
    assert services == front + [x];
    FirstsMeaning(services);
    FirstsMeaning(front);
    var all := Firsts(services);
    assert all[..|Firsts(front)|] == Firsts(front);
    if a in front && b in front {
      FirstsOrder(front, a, b);
      IndexInFront(all, |Firsts(front)|, a);
      IndexInFront(all, |Firsts(front)|, b);
      AppearsInFront(services, n, a, b);
    } else if b !in front {
      IndexInFront(all, |Firsts(front)|, a);
      var p :| 0 <= p < n && front[p] == a;
      assert services[p] == a && b !in services[..p];
    } else {
      IndexInFront(all, |Firsts(front)|, b);
      assert forall p | 0 <= p < n :: services[p] == front[p];
      assert services[..n] == front;
    }
  }

  lemma AppearsInFront(services: seq<string>, n: nat, a: string, b: string)
    requires n <= |services| && a in services[..n] && b in services[..n]
    ensures AppearsBefore(services[..n], a, b) <==> AppearsBefore(services, a, b)
  {
    var front := services[..n];
    if p :| 0 <= p < n && front[p] == a && b !in front[..p] {
      assert front[..p] == services[..p] && services[p] == a;
    }
    if p :| 0 <= p < |services| && services[p] == a && b !in services[..p] {
      assert p < n;
      assert front[..p] == services[..p] && front[p] == a;
    }
  }

  /** Two results in the order of the report: by first appearance of the service, then by address as in
      a dictionary, then by attempt. */
  ghost predicate InOrder(services: seq<string>, a: ProbeResult, b: ProbeResult) {
    if a.target.serviceKey != b.target.serviceKey then
      AppearsBefore(services, a.target.serviceKey, b.target.serviceKey)
    else if a.target.address != b.target.address then
      exists k: nat :: ParesAt(a.target.address, b.target.address, k)
    else a.attempt <= b.attempt
  }

  lemma LessMeaning(services: seq<string>, a: ProbeResult, b: ProbeResult)
    requires ServiceOf(a) in services && ServiceOf(b) in services
    ensures !Less(FirstAppearance(services), b, a) <==> InOrder(services, a, b)
  {
    RankOfService(services, ServiceOf(a));
    RankOfService(services, ServiceOf(b));
    BeforeMeaning(a.target.address, b.target.address);
    BeforeIsStrictTotal(a.target.address, b.target.address);
    if ServiceOf(a) != ServiceOf(b) {
      FirstsOrder(services, ServiceOf(a), ServiceOf(b));
      FirstsOrder(services, ServiceOf(b), ServiceOf(a));
      assert Firsts(services)[IndexOf(Firsts(services), ServiceOf(a))] == ServiceOf(a);
      assert Firsts(services)[IndexOf(Firsts(services), ServiceOf(b))] == ServiceOf(b);
    }
  }

  /** All results of a report stand in that order. */
  ghost predicate Arranged(services: seq<string>, report: seq<ProbeResult>) {
    forall i, j | 0 <= i < j < |report| :: InOrder(services, report[i], report[j])
  }

  /** What a report order is, without the comparison: a permutation arranged by first appearance of the
      service among the input, dictionary order of the address, and ascending attempt. */
  lemma ReportOrderMeaning(input: seq<ProbeResult>, output: seq<ProbeResult>)
    ensures IsReportOrder(input, output) <==>
      multiset(output) == multiset(input) && Arranged(Map(ServiceOf, input), output)
  {
    var services := Map(ServiceOf, input);
    if multiset(output) == multiset(input) {
      forall i, j | 0 <= i < j < |output|
        ensures !LessBy(FirstAppearance(services))(output[j], output[i]) <==> InOrder(services, output[i], output[j])
      {
        assert output[i] in multiset(input) && output[j] in multiset(input);
        InServices(input, output[i]);
        InServices(input, output[j]);
        LessMeaning(services, output[i], output[j]);
      }
    }
  }

  lemma InServices(rs: seq<ProbeResult>, r: ProbeResult)
    requires r in rs
    ensures ServiceOf(r) in Map(ServiceOf, rs)
  {
    var i :| 0 <= i < |rs| && rs[i] == r;
    assert Map(ServiceOf, rs)[i] == ServiceOf(r);
  }

  lemma ReportFollowsFirsts(input: seq<ProbeResult>, output: seq<ProbeResult>)
    requires IsReportOrder(input, output)
    ensures FollowsOrder(Map(ServiceOf, output), Firsts(Map(ServiceOf, input)))
    ensures forall s | s in Firsts(Map(ServiceOf, input)) :: s in Map(ServiceOf, output)
  {
    var services, f := Map(ServiceOf, input), Firsts(Map(ServiceOf, input));
    var out := Map(ServiceOf, output);
    MapOfPermutation(ServiceOf, input, output);
    PermutationSameLength(services, out);
    FirstsMeaning(services);
    LessIsStrictWeakOrder(FirstAppearance(services));
    forall i, j | 0 <= i < j < |out| ensures IndexOf(f, out[i]) <= IndexOf(f, out[j]) {
      assert !LessBy(FirstAppearance(services))(output[j], output[i]);
      RankOfService(services, out[i]);
      RankOfService(services, out[j]);
    }
  }

  /** Sorting moves no service: first appearances in the output are those of the input. */
  lemma ReportKeepsFirstAppearance(input: seq<ProbeResult>, output: seq<ProbeResult>)
    requires IsReportOrder(input, output)
    ensures Firsts(Map(ServiceOf, output)) == Firsts(Map(ServiceOf, input))
    ensures FirstAppearance(Map(ServiceOf, output)) == FirstAppearance(Map(ServiceOf, input))
  {
    ReportFollowsFirsts(input, output);
    FirstsMeaning(Map(ServiceOf, input));
    FirstsOfOrdered(Map(ServiceOf, output), Firsts(Map(ServiceOf, input)));
  }

  /** A report is its own report order, and sorting it again changes no place. */
  lemma ReportIsStable(input: seq<ProbeResult>, output: seq<ProbeResult>, again: seq<ProbeResult>)
    requires IsReportOrder(input, output) && IsReportOrder(output, again)
    ensures IsReportOrder(output, output)
    ensures Map(PlaceOf, again) == Map(PlaceOf, output)
  {
    ReportKeepsFirstAppearance(input, output);
    ReportOrderIsUnique(output, again, output);
  }

  /** Each service's results stand together. */
  ghost predicate InBlocks(services: seq<string>) {
    forall i, j, k | 0 <= i < j < k < |services| && services[i] == services[k] :: services[j] == services[i]
  }

  lemma ReportIsInBlocks(input: seq<ProbeResult>, output: seq<ProbeResult>)
    requires IsReportOrder(input, output)
    ensures InBlocks(Map(ServiceOf, output))
  {
    ReportFollowsFirsts(input, output);
    var s, f := Map(ServiceOf, output), Firsts(Map(ServiceOf, input));
    forall i, j, k | 0 <= i < j < k < |s| && s[i] == s[k] ensures s[j] == s[i] {
      assert IndexOf(f, s[i]) <= IndexOf(f, s[j]) <= IndexOf(f, s[k]);
    }
  }
}
