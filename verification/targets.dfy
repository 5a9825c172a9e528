/** Probe targets as values, the table of service templates and the plan they expand to
    (internal/plan/plan.go, internal/config/options.go). */
module Targets {
  import opened Text
  import opened Lists
  import opened Version

  datatype Trust = Unset | SystemRoots | HostCA

  datatype ProbeTarget = ProbeTarget(
    serviceKey: string,
    displayName: string,
    address: string,
    dnsResolvedIPs: seq<string>,
    overrideIPs: seq<string>,
    port: int,
    primarySNI: string,
    additionalSNIs: seq<string>,
    alpns: seq<string>,
    upgradeSequence: seq<UpgradeAttempt>,
    trust: Trust,
    informationalOnly: bool,
    repeat: int,
    notes: seq<string>,
    useClientCert: Option<bool>,
    useProxy: bool,
    proxyURL: string,
    extraHeaders: map<string, string>)

  datatype ProxySettings = ProxySettings(httpsProxy: string, httpProxy: string)

  datatype Options = Options(
    publicAddr: string,
    clusterName: string,
    teleportVersion: string,
    webProxyPort: int,
    tlsRoutingEnabled: bool,
    repeat: int,
    serviceFilter: seq<string>,
    ipAddresses: seq<string>,
    extraHeaders: map<string, string>,
    proxy: ProxySettings,
    hasClientCert: bool)

  datatype ServiceTemplate = ServiceTemplate(
    key: string,
    displayName: string,
    ports: Options -> seq<int>,
    alpns: (Options, string) -> seq<string>,
    snis: (Options, string) -> (string, seq<string>),
    notes: seq<string>,
    needsUpgrade: bool,
    base16Hint: bool,
    informational: Option<Options -> bool>,
    trust: Trust,
    useClientCert: bool)

  // ---------------------------------------------------------------- service filter

  function Normalise(v: string): string {
    ToLower(TrimSpace(v))
  }

  function NonBlank(vs: seq<string>): (r: seq<string>)
    ensures forall x | x in r :: x in vs && x != ""
    ensures forall x | x in vs && x != "" :: x in r
  {
    if vs == [] then [] else
      var r := NonBlank(vs[..|vs| - 1]);
      assert vs == vs[..|vs| - 1] + [vs[|vs| - 1]];
      if vs[|vs| - 1] == "" then r else r + [vs[|vs| - 1]]
  }

  /** The names a filter asks for. */
  function Wanted(filter: seq<string>): seq<string> {
    Firsts(NonBlank(Map(Normalise, filter)))
  }

  lemma WantedStep(all: seq<string>, i: nat)
    requires i < |all|
    ensures var before, after := Firsts(NonBlank(all[..i])), Firsts(NonBlank(all[..i + 1]));
      after == if all[i] == "" || all[i] in before then before else before + [all[i]]
  {
    NonBlankStep(all, i);
    var kept := NonBlank(all[..i]);
    assert (kept + [all[i]])[..|kept|] == kept;
  }

  lemma NonBlankStep(vs: seq<string>, i: nat)
    requires i < |vs|
    ensures NonBlank(vs[..i + 1]) == if vs[i] == "" then NonBlank(vs[..i]) else NonBlank(vs[..i]) + [vs[i]]
  {
    assert vs[..i + 1][..i] == vs[..i];
  }

  /** makeUnique */
  method MakeUnique(values: seq<string>) returns (out: seq<string>)
    ensures out == Wanted(values)
  {
    var seen: set<string> := {};
    out := [];
    ghost var all := Map(Normalise, values);
    for i := 0 to |values|
      invariant out == Firsts(NonBlank(all[..i]))
      invariant forall x | x in seen :: x in out
      invariant forall x | x in out :: x in seen
    {
      WantedStep(all, i);
      var v := Normalise(values[i]);
      if v != "" && v !in seen {
        seen := seen + {v};
        out := out + [v];
      }
    }
    assert all[..|values|] == all;
  }

  /** splitList of options.go: the non-blank parts, trimmed, in order. */
  function ListItem(v: string, lowercase: bool): string {
    if lowercase then ToLower(TrimSpace(v)) else TrimSpace(v)
  }

  function ListItems(value: string, lowercase: bool): (r: seq<string>)
    ensures |r| == |Split(value, ',')|
    ensures forall i | 0 <= i < |r| :: r[i] == ListItem(Split(value, ',')[i], lowercase)
  {
    var raw := Split(value, ',');
    seq(|raw|, i requires 0 <= i < |raw| => ListItem(raw[i], lowercase))
  }

  method SplitList(value: string, lowercase: bool) returns (out: seq<string>)
    ensures out == NonBlank(ListItems(value, lowercase))
  {
    var raw := Split(value, ',');
    ghost var all := ListItems(value, lowercase);
    out := [];
    for i := 0 to |raw|
      invariant out == NonBlank(all[..i])
    {
      NonBlankStep(all, i);
      var v := TrimSpace(raw[i]);
      if v == "" {
        continue;
      }
      if lowercase {
        v := ToLower(v);
      }
      out := out + [v];
    }
    assert all[..|raw|] == all;
  }

  /** What WantsService answers. */
  predicate Wants(filter: seq<string>, key: string) {
    filter == [] || ToLower(key) in filter
  }

  /** Options.WantsService */
  method WantsService(filter: seq<string>, key: string) returns (wants: bool)
    ensures wants <==> Wants(filter, key)
  {
    if |filter| == 0 {
      return true;
    }
    var k := ToLower(key);
    for i := 0 to |filter|
      invariant k !in filter[..i]
    {
      if filter[i] == k {
        return true;
      }
    }
    return false;
  }

  predicate Selects(filter: seq<string>, key: string) {
    filter == [] || key in Wanted(filter)
  }

  function Selected(templates: seq<ServiceTemplate>, filter: seq<string>): (r: seq<ServiceTemplate>)
    ensures forall t | t in r :: t in templates && Selects(filter, t.key)
    ensures forall t | t in templates && Selects(filter, t.key) :: t in r
  {
    if templates == [] then [] else
      var r := Selected(templates[..|templates| - 1], filter);
      var t := templates[|templates| - 1];
      assert templates == templates[..|templates| - 1] + [t];
      if Selects(filter, t.key) then r + [t] else r
  }

  function TemplateKey(t: ServiceTemplate): string {
    t.key
  }

  ghost predicate DistinctKeys(templates: seq<ServiceTemplate>) {
    forall i, j | 0 <= i < j < |templates| :: templates[i].key != templates[j].key
  }

  lemma {:induction false} SelectedKeepsDistinct(templates: seq<ServiceTemplate>, filter: seq<string>)
    requires DistinctKeys(templates)
    ensures DistinctKeys(Selected(templates, filter))
  {
    if templates != [] {
      var front, t := templates[..|templates| - 1], templates[|templates| - 1];
      SelectedKeepsDistinct(front, filter);
      forall u | u in Selected(front, filter) ensures u.key != t.key {
        var i :| 0 <= i < |front| && front[i] == u;
        assert templates[i] == u;
      }
    }
  }

  lemma NormaliseOfNormal(v: string)
    ensures Normalise(ListItem(v, true)) == ListItem(v, true)
  {
    LowerIsIdempotent(TrimSpace(v));
    TrimOfTrimmed(ToLower(TrimSpace(v)));
  }

  lemma WantedOfNormal(filter: seq<string>)
    requires forall x | x in filter :: x != "" && Normalise(x) == x
    ensures forall x :: x in Wanted(filter) <==> x in filter
  {
    assert Map(Normalise, filter) == filter;
    FirstsMeaning(NonBlank(filter));
  }

  /** On a filter that came from a command-line list, the plan selects a service (template keys are lower
      case) exactly when WantsService says so. */
  lemma SelectionMatchesWantsService(text: string, key: string)
    requires ToLower(key) == key
    ensures Selects(NonBlank(ListItems(text, true)), key) <==> Wants(NonBlank(ListItems(text, true)), key)
  {
    var all := ListItems(text, true);
    forall x | x in NonBlank(all) ensures x != "" && Normalise(x) == x {
      assert x in all;
      var i :| 0 <= i < |all| && all[i] == x;
      NormaliseOfNormal(Split(text, ',')[i]);
    }
    WantedOfNormal(NonBlank(all));
  }

  /** A service key: not blank, trimmed and in lower case. */
  predicate IsKey(key: string) {
    key != "" && Normalise(key) == key
  }

  lemma NormaliseTwice(v: string)
    ensures Normalise(Normalise(v)) == Normalise(v) == ToLower(Normalise(v))
  {
    NormaliseOfNormal(v);
    LowerIsIdempotent(TrimSpace(v));
  }

  /** For any filter at all, a key is selected exactly when some entry normalises to it. */
  lemma SelectionOfAnyFilter(filter: seq<string>, key: string)
    requires filter != [] && key != ""
    ensures Selects(filter, key) <==> exists i :: 0 <= i < |filter| && Normalise(filter[i]) == key
  {
    var all := Map(Normalise, filter);
    FirstsMeaning(NonBlank(all));
    assert Selects(filter, key) <==> key in all;
    if key in all {
      var i :| 0 <= i < |all| && all[i] == key;
      assert Normalise(filter[i]) == key;
    }
    if i :| 0 <= i < |filter| && Normalise(filter[i]) == key {
      assert all[i] == key;
    }
  }

  /** Build and WantsService agree on every key if and only if the filter holds every key that one of its
      entries normalises to. */
  lemma SelectionAgreement(filter: seq<string>)
    requires filter != []
    ensures (forall key | IsKey(key) :: Selects(filter, key) <==> Wants(filter, key)) <==>
      (forall i | 0 <= i < |filter| :: Normalise(filter[i]) == "" || Normalise(filter[i]) in filter)
  {
    if forall key | IsKey(key) :: Selects(filter, key) <==> Wants(filter, key) {
      forall i | 0 <= i < |filter| && Normalise(filter[i]) != "" ensures Normalise(filter[i]) in filter {
        var key := Normalise(filter[i]);
        NormaliseTwice(filter[i]);
        assert IsKey(key);
        SelectionOfAnyFilter(filter, key);
      }
    }
    if forall i | 0 <= i < |filter| :: Normalise(filter[i]) == "" || Normalise(filter[i]) in filter {
      forall key | IsKey(key) ensures Selects(filter, key) <==> Wants(filter, key) {
        NormaliseTwice(key);
        SelectionOfAnyFilter(filter, key);
        if key in filter {
          var i :| 0 <= i < |filter| && filter[i] == key;
          assert Normalise(filter[i]) == key;
        }
      }
    }
  }

  /** They do disagree: a filter entry behind a space selects a service that WantsService denies. */
  lemma SelectionOfRawFilter(key: string)
    requires key != "" && Trimmed(key) && ToLower(key) == key
    ensures Selects([" " + key], key) && !Wants([" " + key], key)
  {
    var v := " " + key;
    assert v[1..] == key;
    TrimOfTrimmed(key);
    assert TrimSpace(v) == key;
    assert Map(Normalise, [v]) == [key];
    assert NonBlank([key]) == [key] by {
      assert [key][..0] == [];
    }
    FirstsMeaning([key]);
    assert [key][0] in Wanted([v]);
    assert |v| != |key|;
  }

  // ---------------------------------------------------------------- one template

  function Upgrades(opts: Options): seq<UpgradeAttempt> {
    UpgradeSequence(Parsed(opts.teleportVersion).0, Parsed(opts.teleportVersion).1)
  }

  /** The target of one port, before variants. */
  function BaseTarget(opts: Options, t: ServiceTemplate, port: int): ProbeTarget {
    BaseFrom(opts, t, port, Base16Name(opts.clusterName), Upgrades(opts))
  }

  function BaseFrom(opts: Options, t: ServiceTemplate, port: int, base16: string, upgrades: seq<UpgradeAttempt>)
    : ProbeTarget
  {
    var informational := t.informational.Some? && t.informational.value(opts);
    ProbeTarget(
      serviceKey := t.key,
      displayName := t.displayName,
      address := opts.publicAddr,
      dnsResolvedIPs := [],
      overrideIPs := opts.ipAddresses,
      port := port,
      primarySNI := t.snis(opts, base16).0,
      additionalSNIs := t.snis(opts, base16).1,
      alpns := t.alpns(opts, base16),
      upgradeSequence := if t.needsUpgrade then upgrades else [],
      trust := if t.trust == Unset then SystemRoots else t.trust,
      informationalOnly := informational,
      repeat := opts.repeat,
      notes := t.notes + if informational then [INFORMATIONAL_NOTE] else [],
      useClientCert := None,
      useProxy := false,
      proxyURL := "",
      extraHeaders := map[])
  }

  const INFORMATIONAL_NOTE := "TLS routing disabled; treating probe outcome as informational only."
  const WITH_CERT_NOTE := "Using client certificate for mutual TLS"
  const WITHOUT_CERT_NOTE := "No client certificate (server-only TLS)"
  const DIRECT_NOTE := "Direct connection (bypassing proxy)"
  const WITHOUT_HEADERS_NOTE := "Without extra headers"

  predicate Dual(opts: Options, t: ServiceTemplate) {
    t.useClientCert && opts.hasClientCert
  }

  function DualTargets(b: ProbeTarget): seq<ProbeTarget> {
    [b.(useClientCert := Some(true), notes := b.notes + [WITH_CERT_NOTE]),
     b.(useClientCert := Some(false), notes := b.notes + [WITHOUT_CERT_NOTE])]
  }

  function CertVariants(opts: Options, t: ServiceTemplate): int -> seq<ProbeTarget> {
    port =>
      var b := BaseTarget(opts, t, port);
      if Dual(opts, t) then DualTargets(b)
      else [b.(useClientCert := if opts.hasClientCert then Some(t.useClientCert) else None)]
  }

  /** The base16 hint goes on the first target only. */
  function WithHint(opts: Options, t: ServiceTemplate, ts: seq<ProbeTarget>): seq<ProbeTarget> {
    var base16 := Base16Name(opts.clusterName);
    if t.base16Hint && |ts| > 0 && base16 != "" then
      ts[0 := ts[0].(notes := ts[0].notes + ["Uses base16-encoded cluster name in SNI: " + base16])]
    else ts
  }

  function CertFactor(opts: Options, t: ServiceTemplate): nat {
    if Dual(opts, t) then 2 else 1
  }

  function HintNotes(opts: Options, t: ServiceTemplate): seq<string> {
    var base16 := Base16Name(opts.clusterName);
    if t.base16Hint && base16 != "" then ["Uses base16-encoded cluster name in SNI: " + base16] else []
  }

  /** One template gives [with, without certificate] for every port in order, or a single target whose
      flag is set only when a certificate is configured; the hint is on the first target alone. */
  lemma TemplateIsCrossProduct(opts: Options, t: ServiceTemplate, p: nat, v: nat)
    requires p < |t.ports(opts)| && v < CertFactor(opts, t)
    ensures var i := p * CertFactor(opts, t) + v;
      var b := BaseTarget(opts, t, t.ports(opts)[p]);
      && 0 <= i < |Instantiated(opts)(t)| == |t.ports(opts)| * CertFactor(opts, t)
      && Instantiated(opts)(t)[i] == b.(
        useClientCert := if !opts.hasClientCert then None else if Dual(opts, t) then Some(v == 0) else Some(false),
        notes := b.notes
          + (if !Dual(opts, t) then [] else if v == 0 then [WITH_CERT_NOTE] else [WITHOUT_CERT_NOTE])
          + (if i == 0 then HintNotes(opts, t) else []))
  {
    var ts := FlatMap(CertVariants(opts, t), t.ports(opts));
    FlatMapIndex(CertVariants(opts, t), t.ports(opts), CertFactor(opts, t), p, v);
    CertVariantAt(opts, t, t.ports(opts)[p], v);
    var x := ts[p * CertFactor(opts, t) + v];
    assert x.notes + [] == x.notes;
    HintAt(opts, t, ts, p * CertFactor(opts, t) + v);
  }

  lemma CertVariantAt(opts: Options, t: ServiceTemplate, port: int, v: nat)
    requires v < CertFactor(opts, t)
    ensures var b := BaseTarget(opts, t, port);
      CertVariants(opts, t)(port)[v] == b.(
        useClientCert := if !opts.hasClientCert then None else if Dual(opts, t) then Some(v == 0) else Some(false),
        notes := b.notes + if !Dual(opts, t) then [] else if v == 0 then [WITH_CERT_NOTE] else [WITHOUT_CERT_NOTE])
  {
    var b := BaseTarget(opts, t, port);
    assert b.notes + [] == b.notes;
  }

  lemma HintAt(opts: Options, t: ServiceTemplate, ts: seq<ProbeTarget>, i: nat)
    requires i < |ts|
    ensures |WithHint(opts, t, ts)| == |ts|
    ensures WithHint(opts, t, ts)[i] ==
      ts[i].(notes := ts[i].notes + if i == 0 then HintNotes(opts, t) else [])
  {
    assert ts[i].notes + [] == ts[i].notes;
  }

  function Instantiated(opts: Options): ServiceTemplate -> seq<ProbeTarget> {
    t => WithHint(opts, t, FlatMap(CertVariants(opts, t), t.ports(opts)))
  }

  // ---------------------------------------------------------------- the whole plan

  /** The answers of the resolver: one list for the n-th target and its address, empty on failure. */
  type Resolver = (nat, string) -> seq<string>

  function ResolvedTarget(t: ProbeTarget, ips: seq<string>): ProbeTarget {
    if t.overrideIPs != [] || ips == [] then t else t.(dnsResolvedIPs := ips)
  }

  function Resolved(ts: seq<ProbeTarget>, dns: Resolver): (r: seq<ProbeTarget>)
    ensures |r| == |ts|
    ensures forall i | 0 <= i < |ts| :: r[i] == ResolvedTarget(ts[i], dns(i, ts[i].address))
  {
    seq(|ts|, i requires 0 <= i < |ts| => ResolvedTarget(ts[i], dns(i, ts[i].address)))
  }

  /** determineProxyURL */
  function ProxyURL(proxy: ProxySettings): string {
    if proxy.httpsProxy != "" then proxy.httpsProxy else proxy.httpProxy
  }

  function ProxyPair(url: string): ProbeTarget -> seq<ProbeTarget> {
    (t: ProbeTarget) => [t.(useProxy := true, proxyURL := url, notes := t.notes + ["Using proxy: " + url]),
          t.(useProxy := false, notes := t.notes + [DIRECT_NOTE])]
  }

  function HeaderPair(headers: map<string, string>, names: string): ProbeTarget -> seq<ProbeTarget> {
    (t: ProbeTarget) => [t.(notes := t.notes + [WITHOUT_HEADERS_NOTE]),
          t.(extraHeaders := headers, notes := t.notes + ["With extra headers: " + names])]
  }

  function BaseTargets(templates: seq<ServiceTemplate>, opts: Options, dns: Resolver): seq<ProbeTarget> {
    Resolved(FlatMap(Instantiated(opts), Selected(templates, opts.serviceFilter)), dns)
  }

  function Proxied(opts: Options, ts: seq<ProbeTarget>): seq<ProbeTarget> {
    if ProxyURL(opts.proxy) == "" then ts else FlatMap(ProxyPair(ProxyURL(opts.proxy)), ts)
  }

  ghost function Headered(opts: Options, ts: seq<ProbeTarget>): seq<ProbeTarget> {
    if opts.extraHeaders == map[] then ts
    else FlatMap(HeaderPair(opts.extraHeaders, HeaderNames(opts.extraHeaders)), ts)
  }

  ghost function PlanTargets(templates: seq<ServiceTemplate>, opts: Options, dns: Resolver): seq<ProbeTarget> {
    Headered(opts, Proxied(opts, BaseTargets(templates, opts, dns)))
  }

  // ---------------------------------------------------------------- header names

  /** The first key in string order. */
  ghost function Least(keys: set<string>): (m: string)
    requires keys != {}
    ensures m in keys && forall k | k in keys && k != m :: Before(m, k)
  {
    var k :| k in keys;
    if keys == {k} then k else
      var m := Least(keys - {k});
      BeforeIsStrictTotal(k, m);
      assert forall x | x in keys && Before(k, m) && Before(m, x) :: Before(k, x) by {
        forall x | x in keys && Before(k, m) && Before(m, x) ensures Before(k, x) {
          BeforeIsTransitive(k, m, x);
        }
      }
      if Before(k, m) then k else m
  }

  ghost function SortedNames(keys: set<string>): (r: seq<string>)
    ensures forall x :: x in r <==> x in keys
  {
    if keys == {} then [] else [Least(keys)] + SortedNames(keys - {Least(keys)})
  }

  /** joinMapKeys */
  ghost function HeaderNames(headers: map<string, string>): string {
    Join(SortedNames(headers.Keys), ", ")
  }

  // ---------------------------------------------------------------- what the plan means

  ghost function Variant(opts: Options, t: ProbeTarget, p: nat, h: nat): ProbeTarget {
    var url, headers := ProxyURL(opts.proxy), opts.extraHeaders;
    t.(useProxy := if url == "" then t.useProxy else p == 0,
       proxyURL := if url != "" && p == 0 then url else t.proxyURL,
       extraHeaders := if headers != map[] && h == 1 then headers else t.extraHeaders,
       notes := t.notes
         + (if url == "" then [] else if p == 0 then ["Using proxy: " + url] else [DIRECT_NOTE])
         + (if headers == map[] then []
            else if h == 0 then [WITHOUT_HEADERS_NOTE]
            else ["With extra headers: " + HeaderNames(headers)]))
  }

  function ProxyFactor(opts: Options): nat {
    if ProxyURL(opts.proxy) == "" then 1 else 2
  }

  function HeaderFactor(opts: Options): nat {
    if opts.extraHeaders == map[] then 1 else 2
  }

  lemma ProxiedAt(opts: Options, ts: seq<ProbeTarget>, b: nat, p: nat)
    requires b < |ts| && p < ProxyFactor(opts)
    ensures |Proxied(opts, ts)| == |ts| * ProxyFactor(opts)
    ensures 0 <= b * ProxyFactor(opts) + p < |Proxied(opts, ts)|
    ensures Proxied(opts, ts)[b * ProxyFactor(opts) + p] ==
      if ProxyFactor(opts) == 1 then ts[b] else ProxyPair(ProxyURL(opts.proxy))(ts[b])[p]
  {
    if ProxyFactor(opts) == 2 {
      FlatMapIndex(ProxyPair(ProxyURL(opts.proxy)), ts, 2, b, p);
    }
  }

  lemma HeaderedAt(opts: Options, ts: seq<ProbeTarget>, b: nat, h: nat)
    requires b < |ts| && h < HeaderFactor(opts)
    ensures |Headered(opts, ts)| == |ts| * HeaderFactor(opts)
    ensures 0 <= b * HeaderFactor(opts) + h < |Headered(opts, ts)|
    ensures Headered(opts, ts)[b * HeaderFactor(opts) + h] ==
      if HeaderFactor(opts) == 1 then ts[b]
      else HeaderPair(opts.extraHeaders, HeaderNames(opts.extraHeaders))(ts[b])[h]
  {
    if HeaderFactor(opts) == 2 {
      FlatMapIndex(HeaderPair(opts.extraHeaders, HeaderNames(opts.extraHeaders)), ts, 2, b, h);
    }
  }

  lemma VariantIsPair(opts: Options, t: ProbeTarget, p: nat, h: nat)
    requires p < ProxyFactor(opts) && h < HeaderFactor(opts)
    ensures var q := if ProxyFactor(opts) == 1 then t else ProxyPair(ProxyURL(opts.proxy))(t)[p];
      Variant(opts, t, p, h) == if HeaderFactor(opts) == 1 then q
        else HeaderPair(opts.extraHeaders, HeaderNames(opts.extraHeaders))(q)[h]
  {
    var q := if ProxyFactor(opts) == 1 then t else ProxyPair(ProxyURL(opts.proxy))(t)[p];
    assert t.notes + [] == t.notes;
    assert q.notes + [] == q.notes;
  }

  /** The plan is the cross product, in order, of the base targets with [proxy, direct] and
      [without, with headers]; every other field of the base target is carried through unchanged. */
  lemma PlanIsCrossProduct(templates: seq<ServiceTemplate>, opts: Options, dns: Resolver, b: nat, p: nat, h: nat)
    requires b < |BaseTargets(templates, opts, dns)| && p < ProxyFactor(opts) && h < HeaderFactor(opts)
    ensures var i := (b * ProxyFactor(opts) + p) * HeaderFactor(opts) + h;
      && 0 <= i < |PlanTargets(templates, opts, dns)|
      && PlanTargets(templates, opts, dns)[i] == Variant(opts, BaseTargets(templates, opts, dns)[b], p, h)
  {
    var ts := BaseTargets(templates, opts, dns);
    CrossAt(opts, ts, b, p, h);
  }

  lemma CrossAt(opts: Options, ts: seq<ProbeTarget>, b: nat, p: nat, h: nat)
    requires b < |ts| && p < ProxyFactor(opts) && h < HeaderFactor(opts)
    ensures var i := (b * ProxyFactor(opts) + p) * HeaderFactor(opts) + h;
      && 0 <= i < |Headered(opts, Proxied(opts, ts))|
      && Headered(opts, Proxied(opts, ts))[i] == Variant(opts, ts[b], p, h)
  {
    ProxiedAt(opts, ts, b, p);
    HeaderedAt(opts, Proxied(opts, ts), b * ProxyFactor(opts) + p, h);
    VariantIsPair(opts, ts[b], p, h);
  }

  /** A target without any slice or map but its notes. */
  predicate ListFree(v: ProbeTarget) {
    && v.dnsResolvedIPs == [] && v.overrideIPs == [] && v.additionalSNIs == [] && v.alpns == []
    && v.upgradeSequence == [] && v.extraHeaders == map[]
  }

  lemma PlanSize(templates: seq<ServiceTemplate>, opts: Options, dns: Resolver)
    ensures |PlanTargets(templates, opts, dns)|
      == |BaseTargets(templates, opts, dns)| * ProxyFactor(opts) * HeaderFactor(opts)
  {
    var ts := BaseTargets(templates, opts, dns);
    if ProxyFactor(opts) == 2 {
      FlatMapLength(ProxyPair(ProxyURL(opts.proxy)), ts, 2);
    }
    if HeaderFactor(opts) == 2 {
      FlatMapLength(HeaderPair(opts.extraHeaders, HeaderNames(opts.extraHeaders)), Proxied(opts, ts), 2);
    }
  }

  /** A target up to its proxy fields and its notes. */
  function Bare(t: ProbeTarget): ProbeTarget {
    t.(useProxy := false, proxyURL := "", notes := [])
  }

  /** A proxied target and its direct twin. */
  predicate IsPair(a: ProbeTarget, b: ProbeTarget) {
    Bare(a) == Bare(b) && a.useProxy && !b.useProxy
  }

  /** `b` is `a` without the proxy: they differ in the proxy fields and in the note at `k`. */
  ghost predicate DirectTwin(url: string, a: ProbeTarget, b: ProbeTarget, k: nat) {
    && IsPair(a, b) && a.proxyURL == url && b.proxyURL == ""
    && |a.notes| == |b.notes|
    && forall i | 0 <= i < |a.notes| && i != k :: a.notes[i] == b.notes[i]
  }

  lemma VariantsAreTwins(opts: Options, t: ProbeTarget, h: nat)
    requires ProxyURL(opts.proxy) != "" && h < HeaderFactor(opts) && t.proxyURL == ""
    ensures DirectTwin(ProxyURL(opts.proxy), Variant(opts, t, 0, h), Variant(opts, t, 1, h), |t.notes|)
  {
  }

  /** With a proxy, every proxied target has its direct twin: they differ in the proxy fields and in one note. */
  lemma ProxyTwins(templates: seq<ServiceTemplate>, opts: Options, dns: Resolver, b: nat, h: nat)
    requires ProxyURL(opts.proxy) != ""
    requires b < |BaseTargets(templates, opts, dns)| && h < HeaderFactor(opts)
    ensures var ts, n := PlanTargets(templates, opts, dns), HeaderFactor(opts);
      && 0 <= (b * 2) * n + h < |ts|
      && 0 <= (b * 2 + 1) * n + h < |ts|
      && DirectTwin(ProxyURL(opts.proxy), ts[(b * 2) * n + h], ts[(b * 2 + 1) * n + h],
                    |BaseTargets(templates, opts, dns)[b].notes|)
  {
    PlanIsCrossProduct(templates, opts, dns, b, 0, h);
    PlanIsCrossProduct(templates, opts, dns, b, 1, h);
    BaseIsDirect(templates, opts, dns, b);
    VariantsAreTwins(opts, BaseTargets(templates, opts, dns)[b], h);
  }

  lemma InstantiatedAreDirect(opts: Options, t: ServiceTemplate, x: ProbeTarget)
    requires x in Instantiated(opts)(t)
    ensures x.serviceKey == t.key && x.address == opts.publicAddr && x.overrideIPs == opts.ipAddresses
    ensures x.repeat == opts.repeat && !x.useProxy && x.proxyURL == "" && x.extraHeaders == map[]
    ensures x.dnsResolvedIPs == []
  {
    var ts := FlatMap(CertVariants(opts, t), t.ports(opts));
    forall y | y in ts
      ensures y.serviceKey == t.key && y.address == opts.publicAddr && y.overrideIPs == opts.ipAddresses
      ensures y.repeat == opts.repeat && !y.useProxy && y.proxyURL == "" && y.extraHeaders == map[]
      ensures y.dnsResolvedIPs == []
    {
      FlatMapMember(CertVariants(opts, t), t.ports(opts), y);
    }
    var i :| 0 <= i < |Instantiated(opts)(t)| && Instantiated(opts)(t)[i] == x;
    assert ts[i] in ts;
  }

  lemma BaseIsDirect(templates: seq<ServiceTemplate>, opts: Options, dns: Resolver, b: nat)
    requires b < |BaseTargets(templates, opts, dns)|
    ensures !BaseTargets(templates, opts, dns)[b].useProxy && BaseTargets(templates, opts, dns)[b].proxyURL == ""
  {
    var sel := Selected(templates, opts.serviceFilter);
    var raw := FlatMap(Instantiated(opts), sel);
    assert raw[b] in raw;
    FlatMapMember(Instantiated(opts), sel, raw[b]);
    var i :| 0 <= i < |sel| && raw[b] in Instantiated(opts)(sel[i]);
    InstantiatedAreDirect(opts, sel[i], raw[b]);
  }

  lemma InstantiatedFlags(opts: Options, t: ServiceTemplate, x: ProbeTarget)
    requires x in Instantiated(opts)(t)
    ensures x.useClientCert.Some? <==> opts.hasClientCert
  {
    var ts := FlatMap(CertVariants(opts, t), t.ports(opts));
    forall y | y in ts ensures y.useClientCert.Some? <==> opts.hasClientCert {
      FlatMapMember(CertVariants(opts, t), t.ports(opts), y);
    }
    var i :| 0 <= i < |Instantiated(opts)(t)| && Instantiated(opts)(t)[i] == x;
    assert ts[i] in ts;
  }

  /** Every base target says whether to use the client certificate exactly when there is one. */
  lemma BaseFlags(templates: seq<ServiceTemplate>, opts: Options, dns: Resolver)
    ensures forall v | v in BaseTargets(templates, opts, dns) :: v.useClientCert.Some? <==> opts.hasClientCert
  {
    var sel := Selected(templates, opts.serviceFilter);
    var raw := FlatMap(Instantiated(opts), sel);
    forall b | 0 <= b < |raw| ensures raw[b].useClientCert.Some? <==> opts.hasClientCert {
      assert raw[b] in raw;
      FlatMapMember(Instantiated(opts), sel, raw[b]);
      var i :| 0 <= i < |sel| && raw[b] in Instantiated(opts)(sel[i]);
      InstantiatedFlags(opts, sel[i], raw[b]);
    }
  }

  // ---------------------------------------------------------------- order of services

  function Service(t: ProbeTarget): string {
    t.serviceKey
  }

  lemma InstantiatedIsNonEmpty(opts: Options, t: ServiceTemplate)
    requires t.ports(opts) != []
    ensures Instantiated(opts)(t) != []
  {
    var ports, f := t.ports(opts), CertVariants(opts, t);
    assert f(ports[|ports| - 1]) != [];
  }

  /** The services of a plan appear in template order, restricted to the selected ones. */
  lemma PlanServices(templates: seq<ServiceTemplate>, opts: Options, dns: Resolver)
    requires DistinctKeys(templates)
    requires forall t | t in templates :: t.ports(opts) != []
    ensures Firsts(Map(Service, PlanTargets(templates, opts, dns)))
      == Map(TemplateKey, Selected(templates, opts.serviceFilter))
  {
    var sel := Selected(templates, opts.serviceFilter);
    var f := Instantiated(opts);
    forall t | t in sel ensures f(t) != [] && forall x | x in f(t) :: Service(x) == TemplateKey(t) {
      InstantiatedIsNonEmpty(opts, t);
      forall x | x in f(t) ensures Service(x) == t.key {
        InstantiatedAreDirect(opts, t, x);
      }
    }
    FirstsOfFlatMap(f, sel, TemplateKey, Service);
    SelectedKeepsDistinct(templates, opts.serviceFilter);
    FirstsOfDistinct(Map(TemplateKey, sel));
    var base := BaseTargets(templates, opts, dns);
    assert Map(Service, base) == Map(Service, FlatMap(f, sel));
    VariantsKeepServices(opts, base);
  }

  lemma VariantsKeepServices(opts: Options, base: seq<ProbeTarget>)
    ensures Firsts(Map(Service, Headered(opts, Proxied(opts, base)))) == Firsts(Map(Service, base))
  {
    if ProxyURL(opts.proxy) != "" {
      FirstsOfFlatMap(ProxyPair(ProxyURL(opts.proxy)), base, Service, Service);
    }
    if opts.extraHeaders != map[] {
      FirstsOfFlatMap(HeaderPair(opts.extraHeaders, HeaderNames(opts.extraHeaders)),
                      Proxied(opts, base), Service, Service);
    }
  }
}
