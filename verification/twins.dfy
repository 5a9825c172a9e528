/** With a proxy, proxied and direct probes come in pairs, up to the finished report. */
module Twins {
  import opened Lists
  import opened Targets
  import opened Reports
  import opened Probe

  /** What is probed and which attempt it is. */
  type Subject = (ProbeTarget, int)

  /** The subject of a probe, and whether the probe goes through the proxy. */
  type Key = (Subject, bool)

  function JobKey(j: Job): Key {
    ((Bare(j.target), j.attempt), j.target.useProxy)
  }

  function ResultKey(r: ProbeResult): Key {
    ((Bare(r.target), r.attempt), r.target.useProxy)
  }

  /** Every subject is probed as often through the proxy as directly. */
  ghost predicate Balanced(m: multiset<Key>) {
    forall s: Subject :: m[(s, true)] == m[(s, false)]
  }

  ghost function KeysOf(jobs: seq<Job>): multiset<Key> {
    multiset(Map(JobKey, jobs))
  }

  lemma KeysOfConcat(a: seq<Job>, b: seq<Job>)
    ensures KeysOf(a + b) == KeysOf(a) + KeysOf(b)
  {
    assert Map(JobKey, a + b) == Map(JobKey, a) + Map(JobKey, b);
  }

  ghost predicate SameSubjects(xs: seq<Job>, ys: seq<Job>) {
    && |xs| == |ys|
    && forall i | 0 <= i < |xs| :: JobKey(xs[i]) == (JobKey(ys[i]).0, true) && !JobKey(ys[i]).1
  }

  lemma PairAtAddress(a: ProbeTarget, b: ProbeTarget, ip: string)
    requires IsPair(a, b)
    ensures SameSubjects(AddressJobs(a, ip), AddressJobs(b, ip))
  {
    assert a == Bare(b).(useProxy := true, proxyURL := a.proxyURL, notes := a.notes);
    assert Repeats(a) == Repeats(b) && Bare(IPTarget(a, ip)) == Bare(IPTarget(b, ip));
  }

  lemma {:induction false} PairJobs(a: ProbeTarget, b: ProbeTarget, ips: seq<string>)
    requires IsPair(a, b)
    ensures SameSubjects(FlatMap(Attempts(a), ips), FlatMap(Attempts(b), ips))
  {
    if ips != [] {
      PairJobs(a, b, ips[..|ips| - 1]);
      PairAtAddress(a, b, ips[|ips| - 1]);
    }
  }

  lemma {:induction false} FlippedCounts(xs: seq<Key>, ys: seq<Key>, s: Subject)
    requires |xs| == |ys| && forall i | 0 <= i < |xs| :: xs[i] == (ys[i].0, true) && !ys[i].1
    ensures multiset(xs)[(s, true)] == multiset(ys)[(s, false)]
    ensures multiset(xs)[(s, false)] == multiset(ys)[(s, true)] == 0
  {
    if xs != [] {
      var n := |xs| - 1;
      assert xs == xs[..n] + [xs[n]] && ys == ys[..n] + [ys[n]];
      FlippedCounts(xs[..n], ys[..n], s);
    }
  }

  lemma PairBalances(a: ProbeTarget, b: ProbeTarget)
    requires IsPair(a, b)
    ensures Balanced(KeysOf(JobsOf(a)) + KeysOf(JobsOf(b)))
  {
    assert ProbeIPs(a) == ProbeIPs(Bare(a)) == ProbeIPs(b);
    PairJobs(a, b, ProbeIPs(a));
    forall s: Subject
      ensures (KeysOf(JobsOf(a)) + KeysOf(JobsOf(b)))[(s, true)] == (KeysOf(JobsOf(a)) + KeysOf(JobsOf(b)))[(s, false)]
    {
      FlippedCounts(Map(JobKey, JobsOf(a)), Map(JobKey, JobsOf(b)), s);
    }
  }

  lemma JobsOfMore(ts: seq<ProbeTarget>, t: ProbeTarget)
    ensures KeysOf(Jobs(ts + [t])) == KeysOf(Jobs(ts)) + KeysOf(JobsOf(t))
  {
    FlatMapOfSnoc(JobsOf, ts, t);
    KeysOfConcat(Jobs(ts), JobsOf(t));
  }

  lemma BalancedSum(m: multiset<Key>, n: multiset<Key>)
    requires Balanced(m) && Balanced(n)
    ensures Balanced(m + n)
  {
  }

  lemma JobsOfTwoMore(ts: seq<ProbeTarget>, a: ProbeTarget, b: ProbeTarget)
    ensures KeysOf(Jobs(ts + [a, b])) == KeysOf(Jobs(ts)) + KeysOf(JobsOf(a)) + KeysOf(JobsOf(b))
  {
    JobsOfMore(ts, a);
    JobsOfMore(ts + [a], b);
    ConcatIsAssociative(ts, [a], [b]);
    assert [a] + [b] == [a, b];
  }

  /** Two more targets that are a pair keep the balance. */
  lemma TwoMoreBalance(ts: seq<ProbeTarget>, a: ProbeTarget, b: ProbeTarget)
    requires Balanced(KeysOf(Jobs(ts))) && IsPair(a, b)
    ensures Balanced(KeysOf(Jobs(ts + [a, b])))
  {
    JobsOfTwoMore(ts, a, b);
    PairBalances(a, b);
  }

  lemma BalancedSumOfPairs(m: multiset<Key>, a0: multiset<Key>, a1: multiset<Key>, b0: multiset<Key>, b1: multiset<Key>)
    requires Balanced(m) && Balanced(a0 + b0) && Balanced(a1 + b1)
    ensures Balanced(m + a0 + a1 + b0 + b1)
  {
    assert m + a0 + a1 + b0 + b1 == m + (a0 + b0) + (a1 + b1);
    BalancedSum(m, a0 + b0);
    BalancedSum(m + (a0 + b0), a1 + b1);
  }

  lemma JobsOfFourMore(ts: seq<ProbeTarget>, a0: ProbeTarget, a1: ProbeTarget, b0: ProbeTarget, b1: ProbeTarget)
    ensures KeysOf(Jobs(ts + [a0, a1, b0, b1]))
      == KeysOf(Jobs(ts)) + KeysOf(JobsOf(a0)) + KeysOf(JobsOf(a1)) + KeysOf(JobsOf(b0)) + KeysOf(JobsOf(b1))
  {
    JobsOfTwoMore(ts, a0, a1);
    JobsOfTwoMore(ts + [a0, a1], b0, b1);
    ConcatIsAssociative(ts, [a0, a1], [b0, b1]);
    assert [a0, a1] + [b0, b1] == [a0, a1, b0, b1];
  }

  /** So do two pairs, one inside the other's order. */
  lemma FourMoreBalance(ts: seq<ProbeTarget>, a0: ProbeTarget, a1: ProbeTarget, b0: ProbeTarget, b1: ProbeTarget)
    requires Balanced(KeysOf(Jobs(ts))) && IsPair(a0, b0) && IsPair(a1, b1)
    ensures Balanced(KeysOf(Jobs(ts + [a0, a1, b0, b1])))
  {
    JobsOfFourMore(ts, a0, a1, b0, b1);
    PairBalances(a0, b0);
    PairBalances(a1, b1);
    BalancedSumOfPairs(KeysOf(Jobs(ts)), KeysOf(JobsOf(a0)), KeysOf(JobsOf(a1)), KeysOf(JobsOf(b0)),
                       KeysOf(JobsOf(b1)));
  }

  lemma {:induction false} ProxiedBalances(url: string, ts: seq<ProbeTarget>)
    ensures Balanced(KeysOf(Jobs(FlatMap(ProxyPair(url), ts))))
  {
    if ts != [] {
      var n := |ts| - 1;
      var pair := ProxyPair(url)(ts[n]);
      ProxiedBalances(url, ts[..n]);
      TwoMoreBalance(FlatMap(ProxyPair(url), ts[..n]), pair[0], pair[1]);
      assert pair == [pair[0], pair[1]];
    }
  }

  /** The four variants of one target: proxied without and with headers, then direct without and with. */
  lemma VariantsOfOneMore(url: string, headers: map<string, string>, names: string, ts: seq<ProbeTarget>,
                          t: ProbeTarget)
    ensures var h, p := HeaderPair(headers, names), ProxyPair(url);
      FlatMap(h, FlatMap(p, ts + [t])) == FlatMap(h, FlatMap(p, ts))
        + [h(p(t)[0])[0], h(p(t)[0])[1], h(p(t)[1])[0], h(p(t)[1])[1]]
  {
    var h, p := HeaderPair(headers, names), ProxyPair(url);
    var front := FlatMap(p, ts);
    FlatMapOfSnoc(p, ts, t);
    assert front + p(t) == front + [p(t)[0]] + [p(t)[1]];
    FlatMapOfSnoc(h, front, p(t)[0]);
    FlatMapOfSnoc(h, front + [p(t)[0]], p(t)[1]);
  }

  lemma {:induction false} HeaderedBalances(url: string, headers: map<string, string>, names: string,
                                            ts: seq<ProbeTarget>)
    ensures Balanced(KeysOf(Jobs(FlatMap(HeaderPair(headers, names), FlatMap(ProxyPair(url), ts)))))
  {
    if ts != [] {
      var n := |ts| - 1;
      var h, p := HeaderPair(headers, names), ProxyPair(url);
      var a, b := p(ts[n])[0], p(ts[n])[1];
      HeaderedBalances(url, headers, names, ts[..n]);
      VariantsOfOneMore(url, headers, names, ts[..n], ts[n]);
      assert ts[..n] + [ts[n]] == ts;
      assert IsPair(h(a)[0], h(b)[0]) && IsPair(h(a)[1], h(b)[1]);
      FourMoreBalance(FlatMap(h, FlatMap(p, ts[..n])), h(a)[0], h(a)[1], h(b)[0], h(b)[1]);
    }
  }

  lemma PlanBalances(opts: Options, base: seq<ProbeTarget>)
    requires ProxyURL(opts.proxy) != ""
    ensures Balanced(KeysOf(Jobs(Headered(opts, Proxied(opts, base)))))
  {
    if opts.extraHeaders == map[] {
      ProxiedBalances(ProxyURL(opts.proxy), base);
    } else {
      HeaderedBalances(ProxyURL(opts.proxy), opts.extraHeaders, HeaderNames(opts.extraHeaders), base);
    }
  }

  /** With a proxy, proxied and direct results are in bijection: for every target up to proxy fields and
      notes, and every attempt, the report has exactly as many of one kind as of the other. */
  lemma ReportBalances(templates: seq<ServiceTemplate>, opts: Options, dns: Resolver, cfg: Config,
                       wire: nat -> Wire, results: seq<ProbeResult>, report: seq<ProbeResult>)
    requires ProxyURL(opts.proxy) != ""
    requires Accounted(cfg, Jobs(PlanTargets(templates, opts, dns)), wire, results)
    requires IsReportOrder(results, report)
    ensures Balanced(multiset(Map(ResultKey, report)))
  {
    var jobs := Jobs(PlanTargets(templates, opts, dns));
    PlanBalances(opts, BaseTargets(templates, opts, dns));
    forall i | 0 <= i < |jobs| ensures ResultKey(results[i]) == JobKey(jobs[i]) {
      assert Accounts(cfg, jobs[i], wire(i), results[i]);
    }
    assert Map(ResultKey, results) == Map(JobKey, jobs);
    MapOfPermutation(ResultKey, results, report);
  }
}
