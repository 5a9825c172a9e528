/** Which addresses a plan probes, told from the options and the resolver alone. */
module Addresses {
  import opened Text
  import opened Lists
  import opened Targets
  import opened Reports
  import opened Probe

  /** The addresses of the `b`-th base target: the given ones, else the resolver's, else the public address. */
  function PlannedIPs(opts: Options, dns: Resolver, b: nat): seq<string> {
    if |opts.ipAddresses| > 0 then opts.ipAddresses
    else if |dns(b, opts.publicAddr)| > 0 then dns(b, opts.publicAddr)
    else [opts.publicAddr]
  }

  function PlannedAttempts(opts: Options): nat {
    if opts.repeat < 1 then 1 else opts.repeat
  }

  lemma BaseAddresses(templates: seq<ServiceTemplate>, opts: Options, dns: Resolver, b: nat)
    requires b < |BaseTargets(templates, opts, dns)|
    ensures var t := BaseTargets(templates, opts, dns)[b];
      && t.address == opts.publicAddr && t.overrideIPs == opts.ipAddresses && t.repeat == opts.repeat
      && t.dnsResolvedIPs == if opts.ipAddresses != [] then [] else dns(b, opts.publicAddr)
  {
    var sel := Selected(templates, opts.serviceFilter);
    var raw := FlatMap(Instantiated(opts), sel);
    assert raw[b] in raw;
    FlatMapMember(Instantiated(opts), sel, raw[b]);
    var i :| 0 <= i < |sel| && raw[b] in Instantiated(opts)(sel[i]);
    InstantiatedAreDirect(opts, sel[i], raw[b]);
  }

  lemma BaseJobs(templates: seq<ServiceTemplate>, opts: Options, dns: Resolver, b: nat)
    requires b < |BaseTargets(templates, opts, dns)|
    ensures ProbeIPs(BaseTargets(templates, opts, dns)[b]) == PlannedIPs(opts, dns, b)
    ensures Repeats(BaseTargets(templates, opts, dns)[b]) == PlannedAttempts(opts)
  {
    BaseAddresses(templates, opts, dns, b);
  }

  /** The n-th target of the plan is the variant of base target `b` behind proxy choice `p` and header
      choice `h`. */
  function Place(opts: Options, b: nat, p: nat, h: nat): nat {
    (b * ProxyFactor(opts) + p) * HeaderFactor(opts) + h
  }

  lemma VariantJobs(opts: Options, t: ProbeTarget, p: nat, h: nat)
    ensures ProbeIPs(Variant(opts, t, p, h)) == ProbeIPs(t) && Repeats(Variant(opts, t, p, h)) == Repeats(t)
  {
  }

  /** The job on address `a` of base target `b` in a variant, at an attempt. */
  ghost function PlannedJob(templates: seq<ServiceTemplate>, opts: Options, dns: Resolver, b: nat, p: nat, h: nat,
                            a: nat, attempt: int): Job
    requires b < |BaseTargets(templates, opts, dns)| && a < |PlannedIPs(opts, dns, b)|
  {
    Job(Variant(opts, BaseTargets(templates, opts, dns)[b], p, h)
        .(dnsResolvedIPs := [], address := PlannedIPs(opts, dns, b)[a]), attempt)
  }

  /** Job number a x attempts + k of a target of the plan (a variant of base target `b`) is on address `a`, with
      attempt k + 1: its addresses in order, each with the attempts 1 to max(1, repeat), and no others. */
  lemma JobsOfPlanned(templates: seq<ServiceTemplate>, opts: Options, dns: Resolver, t: ProbeTarget, b: nat, p: nat,
                      h: nat, a: nat, k: nat)
    requires b < |BaseTargets(templates, opts, dns)|
    requires t == Variant(opts, BaseTargets(templates, opts, dns)[b], p, h)
    requires a < |PlannedIPs(opts, dns, b)| && k < PlannedAttempts(opts)
    ensures |JobsOf(t)| == |PlannedIPs(opts, dns, b)| * PlannedAttempts(opts)
    ensures 0 <= a * PlannedAttempts(opts) + k < |JobsOf(t)|
    ensures JobsOf(t)[a * PlannedAttempts(opts) + k] == PlannedJob(templates, opts, dns, b, p, h, a, k + 1)
  {
    VariantAddresses(templates, opts, dns, b, p, h);
    JobsGiven(t, PlannedIPs(opts, dns, b), PlannedAttempts(opts), a, k);
  }

  lemma VariantAddresses(templates: seq<ServiceTemplate>, opts: Options, dns: Resolver, b: nat, p: nat, h: nat)
    requires b < |BaseTargets(templates, opts, dns)|
    ensures var t := Variant(opts, BaseTargets(templates, opts, dns)[b], p, h);
      ProbeIPs(t) == PlannedIPs(opts, dns, b) && Repeats(t) == PlannedAttempts(opts)
  {
    BaseJobs(templates, opts, dns, b);
    VariantJobs(opts, BaseTargets(templates, opts, dns)[b], p, h);
  }

  /** The targets of the plan stand in the order base target, proxy choice, header choice. */
  lemma TargetAtPlace(templates: seq<ServiceTemplate>, opts: Options, dns: Resolver, b: nat, p: nat, h: nat)
    requires b < |BaseTargets(templates, opts, dns)| && p < ProxyFactor(opts) && h < HeaderFactor(opts)
    ensures Place(opts, b, p, h) < |PlanTargets(templates, opts, dns)|
    ensures PlanTargets(templates, opts, dns)[Place(opts, b, p, h)]
      == Variant(opts, BaseTargets(templates, opts, dns)[b], p, h)
  {
    PlanIsCrossProduct(templates, opts, dns, b, p, h);
  }

  lemma JobsGiven(t: ProbeTarget, ips: seq<string>, n: nat, a: nat, k: nat)
    requires ProbeIPs(t) == ips && Repeats(t) == n && a < |ips| && k < n
    ensures |JobsOf(t)| == |ips| * n
    ensures 0 <= a * n + k < |JobsOf(t)| && JobsOf(t)[a * n + k] == Job(IPTarget(t, ips[a]), k + 1)
  {
    JobsOfTarget(t, a, k);
  }

  // ---------------------------------------------------------------- the report

  /** A job is one of those that options and resolver call for. */
  ghost predicate IsPlanned(templates: seq<ServiceTemplate>, opts: Options, dns: Resolver, j: Job) {
    exists b: nat, p: nat, h: nat, a: nat :: IsPlannedAt(templates, opts, dns, j, b, p, h, a)
  }

  ghost predicate IsPlannedAt(templates: seq<ServiceTemplate>, opts: Options, dns: Resolver, j: Job, b: nat, p: nat,
                              h: nat, a: nat)
  {
    && b < |BaseTargets(templates, opts, dns)| && p < ProxyFactor(opts) && h < HeaderFactor(opts)
    && a < |PlannedIPs(opts, dns, b)| && 1 <= j.attempt <= PlannedAttempts(opts)
    && j == PlannedJob(templates, opts, dns, b, p, h, a, j.attempt)
  }

  lemma Quotient(i: nat, size: nat, n: nat) returns (q: nat, r: nat)
    requires i < size * n
    ensures q < size && r < n && i == q * n + r
  {
    if i < (size - 1) * n {
      q, r := Quotient(i, size - 1, n);
    } else {
      q, r := size - 1, i - (size - 1) * n;
    }
  }

  lemma Decompose(i: nat, size: nat, m: nat, n: nat) returns (b: nat, p: nat, h: nat)
    requires i < size * m * n
    ensures b < size && p < m && h < n && i == (b * m + p) * n + h
  {
    var q;
    q, h := Quotient(i, size * m, n);
    b, p := Quotient(q, size, m);
  }

  /** The target at an index of the plan is a variant of a base target. */
  lemma PlaceOf(templates: seq<ServiceTemplate>, opts: Options, dns: Resolver, i: nat)
    returns (b: nat, p: nat, h: nat)
    requires i < |PlanTargets(templates, opts, dns)|
    ensures b < |BaseTargets(templates, opts, dns)| && p < ProxyFactor(opts) && h < HeaderFactor(opts)
    ensures PlanTargets(templates, opts, dns)[i] == Variant(opts, BaseTargets(templates, opts, dns)[b], p, h)
  {
    PlanSize(templates, opts, dns);
    b, p, h := Decompose(i, |BaseTargets(templates, opts, dns)|, ProxyFactor(opts), HeaderFactor(opts));
    PlanIsCrossProduct(templates, opts, dns, b, p, h);
  }

  lemma JobOfTarget(t: ProbeTarget, j: Job) returns (a: nat)
    requires j in JobsOf(t)
    ensures a < |ProbeIPs(t)| && 1 <= j.attempt <= Repeats(t) && j.target == IPTarget(t, ProbeIPs(t)[a])
  {
    FlatMapMember(Attempts(t), ProbeIPs(t), j);
    a :| 0 <= a < |ProbeIPs(t)| && j in Attempts(t)(ProbeIPs(t)[a]);
    var k :| 0 <= k < Repeats(t) && Attempts(t)(ProbeIPs(t)[a])[k] == j;
  }

  /** Only what the options and the resolver call for is probed. */
  lemma JobIsPlanned(templates: seq<ServiceTemplate>, opts: Options, dns: Resolver, j: Job)
    requires j in Jobs(PlanTargets(templates, opts, dns))
    ensures IsPlanned(templates, opts, dns, j)
  {
    var ts := PlanTargets(templates, opts, dns);
    FlatMapMember(JobsOf, ts, j);
    var i :| 0 <= i < |ts| && j in JobsOf(ts[i]);
    var b, p, h := PlaceOf(templates, opts, dns, i);
    var a := JobOfTarget(ts[i], j);
    VariantJobs(opts, BaseTargets(templates, opts, dns)[b], p, h);
    BaseJobs(templates, opts, dns, b);
    assert IsPlannedAt(templates, opts, dns, j, b, p, h, a);
  }

  lemma PlannedJobIsJob(templates: seq<ServiceTemplate>, opts: Options, dns: Resolver, b: nat, p: nat, h: nat, a: nat,
                        k: nat)
    requires b < |BaseTargets(templates, opts, dns)| && p < ProxyFactor(opts) && h < HeaderFactor(opts)
    requires a < |PlannedIPs(opts, dns, b)| && k < PlannedAttempts(opts)
    ensures PlannedJob(templates, opts, dns, b, p, h, a, k + 1) in Jobs(PlanTargets(templates, opts, dns))
  {
    var ts := PlanTargets(templates, opts, dns);
    TargetAtPlace(templates, opts, dns, b, p, h);
    var i := Place(opts, b, p, h);
    JobsOfPlanned(templates, opts, dns, ts[i], b, p, h, a, k);
    InJobs(ts, i, PlannedJob(templates, opts, dns, b, p, h, a, k + 1));
  }

  lemma InJobs(ts: seq<ProbeTarget>, i: nat, j: Job)
    requires i < |ts| && j in JobsOf(ts[i])
    ensures j in Jobs(ts)
  {
    FlatMapMember(JobsOf, ts, j);
  }

  /** And all of it is. */
  lemma PlannedIsJob(templates: seq<ServiceTemplate>, opts: Options, dns: Resolver, j: Job)
    requires IsPlanned(templates, opts, dns, j)
    ensures j in Jobs(PlanTargets(templates, opts, dns))
  {
    var b: nat, p: nat, h: nat, a: nat :| IsPlannedAt(templates, opts, dns, j, b, p, h, a);
    PlannedJobIsJob(templates, opts, dns, b, p, h, a, j.attempt - 1);
  }

  /** A report is on exactly the jobs that options and resolver call for. */
  ghost predicate CoversPlan(templates: seq<ServiceTemplate>, opts: Options, dns: Resolver, report: seq<ProbeResult>) {
    forall j: Job :: IsPlanned(templates, opts, dns, j) <==> j in Map(JobOfResult, report)
  }

  function JobOfResult(r: ProbeResult): Job {
    Job(r.target, r.attempt)
  }

  lemma ReportCoversPlan(templates: seq<ServiceTemplate>, opts: Options, dns: Resolver, cfg: Config,
                         wire: nat -> Wire, results: seq<ProbeResult>, report: seq<ProbeResult>)
    requires Accounted(cfg, Jobs(PlanTargets(templates, opts, dns)), wire, results)
    requires IsReportOrder(results, report)
    ensures CoversPlan(templates, opts, dns, report)
  {
    var jobs := Jobs(PlanTargets(templates, opts, dns));
    forall i | 0 <= i < |jobs| ensures JobOfResult(results[i]) == jobs[i] {
      assert Accounts(cfg, jobs[i], wire(i), results[i]);
    }
    assert Map(JobOfResult, results) == jobs;
    MapOfPermutation(JobOfResult, results, report);
    forall j: Job ensures IsPlanned(templates, opts, dns, j) <==> j in Map(JobOfResult, report) {
      assert j in Map(JobOfResult, report) <==> j in multiset(Map(JobOfResult, report));
      assert j in jobs <==> j in multiset(Map(JobOfResult, results));
      if IsPlanned(templates, opts, dns, j) {
        PlannedIsJob(templates, opts, dns, j);
      }
      if j in jobs {
        JobIsPlanned(templates, opts, dns, j);
      }
    }
  }

  // ---------------------------------------------------------------- how many

  /** The addresses of the first `n` base targets, counted. */
  function PlannedAddresses(opts: Options, dns: Resolver, n: nat): nat {
    if n == 0 then 0 else PlannedAddresses(opts, dns, n - 1) + |PlannedIPs(opts, dns, n - 1)|
  }

  lemma {:induction false} GivenAddresses(opts: Options, dns: Resolver, n: nat)
    requires |opts.ipAddresses| > 0
    ensures PlannedAddresses(opts, dns, n) == n * |opts.ipAddresses|
  {
    if n > 0 {
      GivenAddresses(opts, dns, n - 1);
    }
  }

  lemma {:induction false} ProbesInNumbers(base: seq<ProbeTarget>, opts: Options, dns: Resolver)
    requires forall b | 0 <= b < |base| ::
      ProbeIPs(base[b]) == PlannedIPs(opts, dns, b) && Repeats(base[b]) == PlannedAttempts(opts)
    ensures Probes(base) == PlannedAddresses(opts, dns, |base|) * PlannedAttempts(opts)
  {
    if base != [] {
      var n := |base| - 1;
      ProbesInNumbers(base[..n], opts, dns);
      TimesSum(PlannedAddresses(opts, dns, n), |PlannedIPs(opts, dns, n)|, PlannedAttempts(opts));
    }
  }

  lemma TimesSum(a: nat, b: nat, n: nat)
    ensures (a + b) * n == a * n + b * n
  {
  }

  /** The size of a plan's runs in numbers: twice with a proxy, twice with extra headers, times the attempts,
      times the addresses. */
  lemma PlanInNumbers(templates: seq<ServiceTemplate>, opts: Options, dns: Resolver)
    ensures var base := BaseTargets(templates, opts, dns);
      |Jobs(PlanTargets(templates, opts, dns))|
        == (if opts.extraHeaders == map[] then 1 else 2)
           * ((if opts.proxy.httpsProxy == "" && opts.proxy.httpProxy == "" then 1 else 2)
              * (PlannedAddresses(opts, dns, |base|) * (if opts.repeat < 1 then 1 else opts.repeat)))
  {
    var base := BaseTargets(templates, opts, dns);
    ProbesOfPlan(templates, opts, dns);
    forall b | 0 <= b < |base|
      ensures ProbeIPs(base[b]) == PlannedIPs(opts, dns, b) && Repeats(base[b]) == PlannedAttempts(opts)
    {
      BaseJobs(templates, opts, dns, b);
    }
    ProbesInNumbers(base, opts, dns);
  }
}
