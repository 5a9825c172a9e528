/** What the targets of a plan are, told from the options and the names of the services. */
module PlanFacts {
  import opened Text
  import opened Hex
  import opened Lists
  import opened Version
  import opened Targets
  import opened ServiceTable
  import opened Addresses

  // ---------------------------------------------------------------- which proxy

  /** HTTPS_PROXY goes before HTTP_PROXY, and without either nothing is proxied. */
  lemma ProxyOfTarget(templates: seq<ServiceTemplate>, opts: Options, dns: Resolver, i: nat)
    requires i < |PlanTargets(templates, opts, dns)|
    ensures var t, https, http := PlanTargets(templates, opts, dns)[i], opts.proxy.httpsProxy, opts.proxy.httpProxy;
      && (t.useProxy && https != "" ==> t.proxyURL == https)
      && (t.useProxy && https == "" ==> http != "" && t.proxyURL == http)
      && (!t.useProxy ==> t.proxyURL == "")
  {
    var b, p, h := PlaceOf(templates, opts, dns, i);
    BaseIsDirect(templates, opts, dns, b);
  }

  // ---------------------------------------------------------------- which services

  /** A filter entry selects a service however it is capitalised and whatever white space is around it. */
  lemma SelectionOfWrittenKey(filter: seq<string>, i: nat, key: string, l: string, s: string, r: string)
    requires i < |filter| && filter[i] == l + s + r && IsKey(key) && Trimmed(key) && Capitalised(key, s)
    requires Blank(l) && Blank(r)
    ensures Selects(filter, key)
  {
    UpperIsNoSpace(key[0]);
    UpperIsNoSpace(key[|key| - 1]);
    TrimOfPadded(l, s, r);
    NormaliseTwice(key);
    LowerOfCapitals(key, s);
    SelectionOfAnyFilter(filter, key);
  }

  lemma UpperIsNoSpace(c: char)
    requires !IsSpace(c)
    ensures !IsSpace(UpperChar(c))
  {
  }

  /** A key as it may be written: with capitals and with white space around it. */
  datatype Written = Written(l: string, s: string, r: string)

  function WrittenText(w: Written): string {
    w.l + w.s + w.r
  }

  ghost predicate Writes(w: Written, key: string) {
    IsKey(key) && Trimmed(key) && Capitalised(key, w.s) && Blank(w.l) && Blank(w.r)
  }

  lemma WrittenItem(w: Written, key: string)
    requires Writes(w, key)
    ensures ListItem(WrittenText(w), true) == key
  {
    UpperIsNoSpace(key[0]);
    UpperIsNoSpace(key[|key| - 1]);
    TrimOfPadded(w.l, w.s, w.r);
    NormaliseTwice(key);
    LowerOfCapitals(key, w.s);
  }

  lemma {:induction false} NothingBlank(keys: seq<string>)
    requires forall k | k in keys :: k != ""
    ensures NonBlank(keys) == keys
  {
    if keys != [] {
      var n := |keys| - 1;
      assert keys[n] in keys && keys == keys[..n] + [keys[n]];
      assert forall k | k in keys[..n] :: k in keys;
      NothingBlank(keys[..n]);
    }
  }

  /** A comma-separated list of keys, however written, is split into these keys. */
  lemma ListRoundTrip(ws: seq<Written>, keys: seq<string>)
    requires |ws| == |keys| > 0
    requires forall i | 0 <= i < |ws| :: Writes(ws[i], keys[i]) && ',' !in WrittenText(ws[i])
    ensures NonBlank(ListItems(Join(Map(WrittenText, ws), ","), true)) == keys
  {
    var parts := Map(WrittenText, ws);
    SplitOfJoin(parts, ',');
    forall i | 0 <= i < |ws| ensures ListItems(Join(parts, ","), true)[i] == keys[i] {
      WrittenItem(ws[i], keys[i]);
    }
    assert ListItems(Join(parts, ","), true) == keys;
    NothingBlank(keys);
  }

  // ---------------------------------------------------------------- the built-in services

  /** The base16 form of the cluster name under which its auth service is reached. */
  function AuthHost(clusterName: string): string {
    HexText(Utf8(clusterName), Lower) + ".teleport.cluster.local"
  }

  /** The server name for the i-th service: the public address, but for auth_via_proxy (4) and kubernetes (5). */
  function ServerName(opts: Options, i: nat): string {
    if i == 4 && opts.clusterName != "" then AuthHost(opts.clusterName)
    else if i == 5 then "kube-teleport-proxy-alpn." + opts.clusterName
    else opts.publicAddr
  }

  function Protocols(opts: Options, i: nat): seq<string> {
    if i == 0 || i == 5 || i == 10 || i == 11 then ["h2", "http/1.1"]
    else if i == 1 then ["teleport-reversetunnel"]
    else if i == 2 then ["teleport-proxy-ssh"]
    else if i == 3 then ["teleport-proxy-ssh-grpc"]
    else if i == 4 then if opts.clusterName == "" then ["h2"] else ["teleport-auth@" + AuthHost(opts.clusterName), "h2"]
    else []
  }

  /** A target of the i-th service of the table: port, server names, protocols, trust and upgrades. */
  ghost predicate IsTargetOf(opts: Options, i: nat, t: ProbeTarget) {
    && i < |SERVICE_KEYS| && t.serviceKey == SERVICE_KEYS[i]
    && t.port == (if opts.webProxyPort <= 0 then 443 else opts.webProxyPort)
    && t.primarySNI == ServerName(opts, i)
    && t.additionalSNIs == (if i == 5 then [opts.publicAddr] else [])
    && t.alpns == Protocols(opts, i)
    && t.trust == (if 2 <= i <= 5 then HostCA else SystemRoots)
    && (t.informationalOnly <==> i > 0 && !opts.tlsRoutingEnabled)
    && (t.useClientCert == Some(true) ==> opts.hasClientCert && 3 <= i <= 4)
    && (if i == 0 then
          IsUpgradePath(t.upgradeSequence, Parsed(opts.teleportVersion).0, Parsed(opts.teleportVersion).1)
        else t.upgradeSequence == [])
  }

  lemma HostOfCluster(clusterName: string)
    ensures Base16Host(Base16Name(clusterName)) == if clusterName == "" then "" else AuthHost(clusterName)
    ensures AuthALPN(Base16Name(clusterName)) ==
      if clusterName == "" then "" else "teleport-auth@" + AuthHost(clusterName)
  {
    Base16RoundTrip(clusterName);
    LowerHexIsLower(Utf8(clusterName));
    HostOfName(Base16Name(clusterName));
    assert clusterName != "" ==> |AuthHost(clusterName)| > 0 && |"teleport-auth@" + AuthHost(clusterName)| > 0;
  }

  lemma WebService(opts: Options, port: int)
    requires port == WEB_PORT_LIST(opts)[0]
    ensures IsTargetOf(opts, 0, BaseTarget(opts, SERVICE_TEMPLATES[0], port))
  {
    FirstKeys();
    UpgradePathMeaning(Parsed(opts.teleportVersion).0, Parsed(opts.teleportVersion).1);
  }

  lemma TunnelServices(opts: Options, i: nat, port: int)
    requires 1 <= i < 4 && port == WEB_PORT_LIST(opts)[0]
    ensures IsTargetOf(opts, i, BaseTarget(opts, SERVICE_TEMPLATES[i], port))
  {
    FirstKeys();
  }

  lemma AuthService(opts: Options, port: int)
    requires port == WEB_PORT_LIST(opts)[0]
    ensures IsTargetOf(opts, 4, BaseTarget(opts, SERVICE_TEMPLATES[4], port))
  {
    FirstKeys();
    HostOfCluster(opts.clusterName);
  }

  lemma KubernetesService(opts: Options, port: int)
    requires port == WEB_PORT_LIST(opts)[0]
    ensures IsTargetOf(opts, 5, BaseTarget(opts, SERVICE_TEMPLATES[5], port))
  {
    FirstKeys();
  }

  lemma LastServices(opts: Options, i: nat, port: int)
    requires 6 <= i < 12 && port == WEB_PORT_LIST(opts)[0]
    ensures IsTargetOf(opts, i, BaseTarget(opts, SERVICE_TEMPLATES[i], port))
  {
    DatabaseKeys();
    LastKeys();
  }

  lemma ServiceTargets(opts: Options, i: nat, port: int)
    requires i < 12 && port == WEB_PORT_LIST(opts)[0]
    ensures IsTargetOf(opts, i, BaseTarget(opts, SERVICE_TEMPLATES[i], port))
  {
    if i == 0 {
      WebService(opts, port);
    } else if i < 4 {
      TunnelServices(opts, i, port);
    } else if i == 4 {
      AuthService(opts, port);
    } else if i == 5 {
      KubernetesService(opts, port);
    } else {
      LastServices(opts, i, port);
    }
  }

  lemma CertServices(i: nat)
    requires i < 12
    ensures SERVICE_TEMPLATES[i].useClientCert <==> 3 <= i <= 4
  {
  }

  /** `x` is a base target but for its notes and its certificate flag, which is set only where it can be. */
  ghost predicate IsInstance(opts: Options, t: ServiceTemplate, port: int, x: ProbeTarget) {
    && x == BaseTarget(opts, t, port).(notes := x.notes, useClientCert := x.useClientCert)
    && (x.useClientCert == Some(true) ==> opts.hasClientCert && t.useClientCert)
  }

  lemma VariantIsInstance(opts: Options, t: ServiceTemplate, port: int, y: ProbeTarget)
    requires y in CertVariants(opts, t)(port)
    ensures IsInstance(opts, t, port, y)
  {
  }

  /** What an instance of a template keeps of its base target. */
  lemma InstanceOfBase(opts: Options, t: ServiceTemplate, x: ProbeTarget) returns (port: int)
    requires x in Instantiated(opts)(t)
    ensures port in t.ports(opts) && IsInstance(opts, t, port, x)
  {
    var ts := FlatMap(CertVariants(opts, t), t.ports(opts));
    var i :| 0 <= i < |Instantiated(opts)(t)| && Instantiated(opts)(t)[i] == x;
    HintAt(opts, t, ts, i);
    port := PortOf(opts, t, ts[i]);
    VariantIsInstance(opts, t, port, ts[i]);
  }

  lemma PortOf(opts: Options, t: ServiceTemplate, y: ProbeTarget) returns (port: int)
    requires y in FlatMap(CertVariants(opts, t), t.ports(opts))
    ensures port in t.ports(opts) && y in CertVariants(opts, t)(port)
  {
    FlatMapMember(CertVariants(opts, t), t.ports(opts), y);
    var p :| 0 <= p < |t.ports(opts)| && y in CertVariants(opts, t)(t.ports(opts)[p]);
    port := t.ports(opts)[p];
  }

  lemma VariantKeepsService(opts: Options, i: nat, b: ProbeTarget, t: ProbeTarget)
    requires IsTargetOf(opts, i, b)
    requires t == b.(notes := t.notes, useClientCert := t.useClientCert, dnsResolvedIPs := t.dnsResolvedIPs,
                     useProxy := t.useProxy, proxyURL := t.proxyURL, extraHeaders := t.extraHeaders)
    requires t.useClientCert == Some(true) ==> opts.hasClientCert && 3 <= i <= 4
    ensures IsTargetOf(opts, i, t)
  {
  }

  lemma InstanceIsTarget(opts: Options, i: nat, port: int, x: ProbeTarget)
    requires i < 12 && port == WEB_PORT_LIST(opts)[0] && IsInstance(opts, SERVICE_TEMPLATES[i], port, x)
    ensures IsTargetOf(opts, i, x)
  {
    ServiceTargets(opts, i, port);
    CertServices(i);
    VariantKeepsService(opts, i, BaseTarget(opts, SERVICE_TEMPLATES[i], port), x);
  }

  lemma PortOfService(opts: Options, t: ServiceTemplate, port: int)
    requires t in SERVICE_TEMPLATES && port in t.ports(opts)
    ensures port == WEB_PORT_LIST(opts)[0]
  {
    TablePorts();
  }

  lemma TemplateAt(templates: seq<ServiceTemplate>, t: ServiceTemplate) returns (i: nat)
    requires t in templates
    ensures i < |templates| && templates[i] == t
  {
    i :| 0 <= i < |templates| && templates[i] == t;
  }

  lemma ServiceOfInstance(opts: Options, t: ServiceTemplate, x: ProbeTarget) returns (i: nat)
    requires t in SERVICE_TEMPLATES && x in Instantiated(opts)(t)
    ensures IsTargetOf(opts, i, x)
  {
    var port := InstanceOfBase(opts, t, x);
    PortOfService(opts, t, port);
    i := TemplateAt(SERVICE_TEMPLATES, t);
    InstanceIsTarget(opts, i, port, x);
  }

  /** The targets of the built-in services: every target of a plan is one of a service of the table. */
  lemma TargetsOfServices(opts: Options, dns: Resolver, n: nat) returns (i: nat)
    requires n < |PlanTargets(SERVICE_TEMPLATES, opts, dns)|
    ensures IsTargetOf(opts, i, PlanTargets(SERVICE_TEMPLATES, opts, dns)[n])
  {
    var b, p, h := PlaceOf(SERVICE_TEMPLATES, opts, dns, n);
    var t, x := TemplateOfBase(SERVICE_TEMPLATES, opts, dns, b);
    i := ServiceOfInstance(opts, t, x);
    VariantKeepsService(opts, i, x, PlanTargets(SERVICE_TEMPLATES, opts, dns)[n]);
  }

  lemma TemplateOfBase(templates: seq<ServiceTemplate>, opts: Options, dns: Resolver, b: nat)
    returns (t: ServiceTemplate, x: ProbeTarget)
    requires b < |BaseTargets(templates, opts, dns)|
    ensures t in templates && x in Instantiated(opts)(t)
    ensures BaseTargets(templates, opts, dns)[b]
      == x.(dnsResolvedIPs := BaseTargets(templates, opts, dns)[b].dnsResolvedIPs)
  {
    var sel := Selected(templates, opts.serviceFilter);
    var raw := FlatMap(Instantiated(opts), sel);
    assert raw[b] in raw;
    FlatMapMember(Instantiated(opts), sel, raw[b]);
    var k :| 0 <= k < |sel| && raw[b] in Instantiated(opts)(sel[k]);
    t, x := sel[k], raw[b];
  }

  /** A target whose outcome counts as informational says so in its notes. */
  lemma InformationalIsNoted(templates: seq<ServiceTemplate>, opts: Options, dns: Resolver, n: nat)
    requires n < |PlanTargets(templates, opts, dns)| && PlanTargets(templates, opts, dns)[n].informationalOnly
    ensures "TLS routing disabled; treating probe outcome as informational only."
      in PlanTargets(templates, opts, dns)[n].notes
  {
    var b, p, h := PlaceOf(templates, opts, dns, n);
    var t, x := TemplateOfBase(templates, opts, dns, b);
    NotedInInstance(opts, t, x);
  }

  lemma NotedInInstance(opts: Options, t: ServiceTemplate, x: ProbeTarget)
    requires x in Instantiated(opts)(t) && x.informationalOnly
    ensures INFORMATIONAL_NOTE in x.notes
  {
    var ts := FlatMap(CertVariants(opts, t), t.ports(opts));
    var i :| 0 <= i < |Instantiated(opts)(t)| && Instantiated(opts)(t)[i] == x;
    HintAt(opts, t, ts, i);
    var port := PortOf(opts, t, ts[i]);
    assert INFORMATIONAL_NOTE in ts[i].notes;
  }
}
