/** The services that a plan can probe, in report order (internal/plan/plan.go). */
module ServiceTable {
  import opened Text
  import opened Lists
  import opened Version
  import opened Targets

  const WEB_PORT_LIST: Options -> seq<int> :=
    (opts: Options) => [if opts.webProxyPort <= 0 then 443 else opts.webProxyPort]

  const WHEN_SEPARATE_LISTENERS: Option<Options -> bool> := Some((opts: Options) => !opts.tlsRoutingEnabled)

  const PUBLIC_SNI: (Options, string) -> (string, seq<string>) := (opts: Options, _) => (opts.publicAddr, [])

  function Offer(protocols: seq<string>): (Options, string) -> seq<string> {
    (_, _) => protocols
  }

  /** A template that reuses the web port and the public name. */
  function Service(key: string, name: string, protocols: seq<string>, notes: seq<string>): ServiceTemplate {
    ServiceTemplate(key, name, WEB_PORT_LIST, Offer(protocols), PUBLIC_SNI, notes, false, false,
                    WHEN_SEPARATE_LISTENERS, Unset, false)
  }

  function DbTemplate(key: string, name: string): ServiceTemplate {
    Service(key, name, [], ["ALPN negotiated by tsh db proxy; harness verifies upstream reachability"])
  }

  const PROXY_WEB := Service("proxy_web", "Proxy Web UI & HTTPS API", ["h2", "http/1.1"],
                            ["Hit /webapi/ping before attempting upgrade"])
    .(needsUpgrade := true, informational := None)

  const REVERSE_TUNNEL := Service("reverse_tunnel", "Reverse tunnel entry", ["teleport-reversetunnel"], [])
    .(base16Hint := true)

  const PROXY_SSH := Service("proxy_ssh", "Proxy SSH", ["teleport-proxy-ssh"], [])
    .(base16Hint := true, trust := HostCA)

  const PROXY_SSH_GRPC := Service("proxy_ssh_grpc", "Proxy SSH gRPC", ["teleport-proxy-ssh-grpc"], [])
    .(trust := HostCA, useClientCert := true)

  const AUTH_VIA_PROXY := Service("auth_via_proxy", "Auth via proxy", [],
                                ["Expect Host CA issued leaf cert with auth identity"])
    .(alpns := (_, base16) => if AuthALPN(base16) == "" then ["h2"] else [AuthALPN(base16), "h2"],
      snis := (opts: Options, base16) => (if Base16Host(base16) == "" then opts.publicAddr else Base16Host(base16), []),
      trust := HostCA,
      useClientCert := true)

  const KUBERNETES := Service("kubernetes", "Kubernetes API via proxy", ["h2", "http/1.1"], [])
    .(snis := (opts: Options, _) => ("kube-teleport-proxy-alpn." + opts.clusterName, [opts.publicAddr]),
      trust := HostCA)

  const SERVICE_TEMPLATES: seq<ServiceTemplate> := [
    PROXY_WEB,
    REVERSE_TUNNEL,
    PROXY_SSH,
    PROXY_SSH_GRPC,
    AUTH_VIA_PROXY,
    KUBERNETES,
    DbTemplate("db_postgres", "Database listener (Postgres)"),
    DbTemplate("db_mysql", "Database listener (MySQL)"),
    DbTemplate("db_mongodb", "Database listener (MongoDB)"),
    DbTemplate("db_redis", "Database listener (Redis)"),
    Service("app_access", "App Access", ["h2", "http/1.1"], []),
    Service("desktop_access", "Desktop Access", ["h2", "http/1.1"], ["Desktop Access uses gRPC over HTTP/2"])
  ]

  const SERVICE_KEYS: seq<string> := [
    "proxy_web", "reverse_tunnel", "proxy_ssh", "proxy_ssh_grpc", "auth_via_proxy", "kubernetes",
    "db_postgres", "db_mysql", "db_mongodb", "db_redis", "app_access", "desktop_access"]

  lemma FirstKeys()
    ensures forall i | 0 <= i < 6 :: SERVICE_TEMPLATES[i].key == SERVICE_KEYS[i]
  {
  }

  lemma DatabaseKeys()
    ensures forall i | 6 <= i < 10 :: SERVICE_TEMPLATES[i].key == SERVICE_KEYS[i]
  {
  }

  lemma LastKeys()
    ensures forall i | 10 <= i < 12 :: SERVICE_TEMPLATES[i].key == SERVICE_KEYS[i]
  {
  }

  /** ServiceKeys */
  lemma TableKeys()
    ensures Map(TemplateKey, SERVICE_TEMPLATES) == SERVICE_KEYS
  {
    FirstKeys();
    DatabaseKeys();
    LastKeys();
  }

  /** A number that tells the keys apart. */
  function Mark(key: string): int
    requires |key| > 6
  {
    |key| * 0x100_0000 + key[0] as int * 0x1_0000 + key[3] as int * 0x100 + key[6] as int
  }

  lemma KeysAreDistinct()
    ensures Distinct(SERVICE_KEYS)
  {
    assert forall i | 0 <= i < 12 :: |SERVICE_KEYS[i]| > 6;
    forall i, j | 0 <= i < j < 12 ensures Mark(SERVICE_KEYS[i]) != Mark(SERVICE_KEYS[j]) {
    }
    forall i, j | 0 <= i < j < 12 ensures SERVICE_KEYS[i] != SERVICE_KEYS[j] {
      assert Mark(SERVICE_KEYS[i]) != Mark(SERVICE_KEYS[j]);
    }
  }

  lemma TablePorts()
    ensures forall t | t in SERVICE_TEMPLATES :: t.ports == WEB_PORT_LIST
    ensures forall opts :: |WEB_PORT_LIST(opts)| == 1
  {
  }

  lemma DistinctByKeys(templates: seq<ServiceTemplate>)
    requires Distinct(Map(TemplateKey, templates))
    ensures DistinctKeys(templates)
  {
    forall i, j | 0 <= i < j < |templates| ensures templates[i].key != templates[j].key {
      assert Map(TemplateKey, templates)[i] != Map(TemplateKey, templates)[j];
    }
  }

  /** Every template has its own key and exactly one port. */
  lemma TableIsWellFormed()
    ensures DistinctKeys(SERVICE_TEMPLATES)
    ensures forall t | t in SERVICE_TEMPLATES :: t.ports == WEB_PORT_LIST
    ensures forall opts :: |WEB_PORT_LIST(opts)| == 1
  {
    TableKeys();
    KeysAreDistinct();
    DistinctByKeys(SERVICE_TEMPLATES);
    TablePorts();
  }

  lemma FirstAreListed(opts: Options, i: nat, port: int)
    requires i < 6
    ensures !ListFree(BaseTarget(opts, SERVICE_TEMPLATES[i], port))
  {
  }

  lemma DatabasesAreListFree(opts: Options, i: nat, port: int)
    requires 6 <= i < 10
    ensures ListFree(BaseTarget(opts, SERVICE_TEMPLATES[i], port)) <==> opts.ipAddresses == []
  {
  }

  lemma LastAreListed(opts: Options, i: nat, port: int)
    requires 10 <= i < 12
    ensures !ListFree(BaseTarget(opts, SERVICE_TEMPLATES[i], port))
  {
  }

  /** Of the built-in services exactly the database listeners have no list of their own, as long as no
      addresses are given. */
  lemma ListFreeServices(opts: Options, i: nat, port: int)
    requires i < |SERVICE_TEMPLATES|
    ensures ListFree(BaseTarget(opts, SERVICE_TEMPLATES[i], port)) <==> opts.ipAddresses == [] && 6 <= i < 10
  {
    if i < 6 {
      FirstAreListed(opts, i, port);
    } else if i < 10 {
      DatabasesAreListFree(opts, i, port);
    } else {
      LastAreListed(opts, i, port);
    }
  }
}
