/** One execution: build the plan, probe it, and merge the certificates (internal/runner/runner.go). */
module Runner {
  import opened Text
  import opened Hex
  import opened Lists
  import opened Maps
  import opened Targets
  import opened ServiceTable
  import opened Reports
  import opened Certs
  import opened Probe
  import opened Twins
  import opened Addresses
  import PlanBuild

  // ---------------------------------------------------------------- merging certificates

  /** Precedence: the client collector, then the server collector, then the client PEM, then the host CA. */
  function Merged<V>(server: map<string, V>, client: map<string, V>, clientPEM: map<string, V>,
                     hostCA: map<string, V>): map<string, V> {
    hostCA + clientPEM + server + client
  }

  /** Which source a merged record comes from, key by key. */
  lemma MergedMeaning<V>(server: map<string, V>, client: map<string, V>, clientPEM: map<string, V>,
                         hostCA: map<string, V>, k: string)
    ensures var m := Merged(server, client, clientPEM, hostCA);
      && (k in m <==> k in client || k in server || k in clientPEM || k in hostCA)
      && (k in client ==> m[k] == client[k])
      && (k !in client && k in server ==> m[k] == server[k])
      && (k !in client && k !in server && k in clientPEM ==> m[k] == clientPEM[k])
      && (k !in client && k !in server && k !in clientPEM && k in hostCA ==> m[k] == hostCA[k])
  {
  }

  // ---------------------------------------------------------------- referential integrity

  /** Every fingerprint that a report mentions is a key of its certificates. */
  ghost predicate ReportLinked(report: seq<ProbeResult>, certs: Store) {
    && WellLinked(certs)
    && forall r | r in report ::
         && (r.leafFingerprint != "" ==> r.leafFingerprint in certs)
         && (forall f | f in r.certificateChain :: f in certs)
         && (r.clientCertFingerprint != "" ==> r.clientCertFingerprint in certs)
  }

  /** Records that stand for themselves: keyed by their fingerprint, without an issuer link. */
  ghost predicate Plain(certs: Store) {
    forall k | k in certs :: certs[k].fingerprint == k && certs[k].issuerFingerprint == ""
  }

  lemma MergedKeepsLinks(server: Store, client: Store, clientPEM: Store, hostCA: Store)
    requires WellLinked(server) && Plain(client) && Plain(clientPEM) && Plain(hostCA)
    ensures WellLinked(Merged(server, client, clientPEM, hostCA))
  {
  }

  lemma ResultIsLinked(cfg: Config, job: Job, w: Wire, r: ProbeResult, certs: Store)
    requires Accounts(cfg, job, w, r)
    requires forall f | f in Fingerprints(cfg.lib, SeenChain(job.target, w)) :: f in certs
    requires cfg.clientFingerprint != "" ==> cfg.clientFingerprint in certs
    ensures forall f | f in r.certificateChain :: f in certs
    ensures r.leafFingerprint != "" ==> r.leafFingerprint in certs
    ensures r.clientCertFingerprint != "" ==> r.clientCertFingerprint in certs
  {
  }

  /** Referential integrity of a whole execution: after any run over any network, whatever was collected
      before, every mention in the sorted report and every issuer link is a key of the merged map. */
  lemma ExecutionIsLinked(cfg: Config, start: Store, jobs: seq<Job>, wire: nat -> Wire, results: seq<ProbeResult>,
                          report: seq<ProbeResult>, client: Store, clientPEM: Store, hostCA: Store)
    requires WellLinked(start) && Plain(client) && Plain(clientPEM) && Plain(hostCA)
    requires Accounted(cfg, jobs, wire, results) && multiset(report) == multiset(results)
    requires cfg.clientFingerprint != "" ==> cfg.clientFingerprint in client
    ensures ReportLinked(report,
      Merged(CapturedAll(cfg.lib, start, SeenChains(jobs, wire)), client, clientPEM, hostCA))
  {
    var chains := SeenChains(jobs, wire);
    var server := CapturedAll(cfg.lib, start, chains);
    var certs := Merged(server, client, clientPEM, hostCA);
    RunKeepsLinks(cfg.lib, start, chains);
    MergedKeepsLinks(server, client, clientPEM, hostCA);
    PermutationSameLength(results, report);
    forall r | r in report
      ensures r.leafFingerprint != "" ==> r.leafFingerprint in certs
      ensures forall f | f in r.certificateChain :: f in certs
      ensures r.clientCertFingerprint != "" ==> r.clientCertFingerprint in certs
    {
      var i :| 0 <= i < |results| && results[i] == r;
      RunHasChain(cfg.lib, start, chains, i);
      ResultIsLinked(cfg, jobs[i], wire(i), r, certs);
    }
  }

  lemma ClientIsPlain(lib: Crypto, st: ClientState)
    requires ClientSound(lib, st)
    ensures Plain(ClientEntries(lib, st))
    ensures st.fingerprint != "" ==> st.fingerprint in ClientEntries(lib, st)
  {
  }

  // ---------------------------------------------------------------- order and size of the report

  lemma ServicesOfResults(cfg: Config, jobs: seq<Job>, wire: nat -> Wire, results: seq<ProbeResult>)
    requires Accounted(cfg, jobs, wire, results)
    ensures Map(ServiceOf, results) == Map(JobService, jobs)
  {
    forall i | 0 <= i < |jobs| ensures ServiceOf(results[i]) == JobService(jobs[i]) {
      assert Accounts(cfg, jobs[i], wire(i), results[i]);
    }
  }

  /** The report of a plan made by Build stands in one block per service, the blocks in template order
      restricted to the selected services. */
  lemma ReportFollowsTemplates(templates: seq<ServiceTemplate>, opts: Options, dns: Resolver, cfg: Config,
                               wire: nat -> Wire, results: seq<ProbeResult>, report: seq<ProbeResult>)
    requires DistinctKeys(templates) && forall t | t in templates :: t.ports(opts) != []
    requires Accounted(cfg, Jobs(PlanTargets(templates, opts, dns)), wire, results)
    requires IsReportOrder(results, report)
    ensures InBlocks(Map(ServiceOf, report))
    ensures Firsts(Map(ServiceOf, report)) == Map(TemplateKey, Selected(templates, opts.serviceFilter))
  {
    var ts := PlanTargets(templates, opts, dns);
    ReportIsInBlocks(results, report);
    ReportKeepsFirstAppearance(results, report);
    ServicesOfResults(cfg, Jobs(ts), wire, results);
    JobServices(ts);
    PlanServices(templates, opts, dns);
  }

  lemma ReportSize(templates: seq<ServiceTemplate>, opts: Options, dns: Resolver, cfg: Config,
                   wire: nat -> Wire, results: seq<ProbeResult>, report: seq<ProbeResult>)
    requires Accounted(cfg, Jobs(PlanTargets(templates, opts, dns)), wire, results)
    requires IsReportOrder(results, report)
    ensures |report| == HeaderFactor(opts) * (ProxyFactor(opts) * Probes(BaseTargets(templates, opts, dns)))
  {
    ProbesOfPlan(templates, opts, dns);
    PermutationSameLength(results, report);
  }

  // ---------------------------------------------------------------- Execute

  datatype Execution =
    | UnknownServices(keys: set<string>)
    | Executed(targets: seq<PlanBuild.Target>, results: array<ProbeResult>, certs: map<string, CertInfo>)

  method Values(targets: seq<PlanBuild.Target>, ghost vs: seq<ProbeTarget>) returns (r: seq<ProbeTarget>)
    requires |targets| == |vs| && forall i | 0 <= i < |targets| :: PlanBuild.View(targets[i]) == vs[i]
    ensures r == vs
  {
    r := [];
    for n := 0 to |targets|
      invariant r == vs[..n]
    {
      TakeOneMore(vs, n);
      r := r + [PlanBuild.View(targets[n])];
    }
  }

  lemma ShownOfUnion(a: map<string, CertInfo>, b: map<string, CertInfo>)
    ensures Shown(a + b) == Shown(a) + Shown(b)
  {
  }

  /** The client collector overwrites what is there. */
  method AddClientCerts(engine: Engine, all: map<string, CertInfo>) returns (r: map<string, CertInfo>)
    ensures Shown(r) == Shown(all) + ClientEntries(engine.lib, engine.ClientView())
  {
    var client := engine.GetClientCertificates();
    assert Shown(all) == old(Shown(all));
    r := Overwrite(all, client);
    ShownOfUnion(all, client);
  }

  /** A bundle only fills in what is missing. */
  method AddBundle(lib: Crypto, pem: seq<byte>, source: Source, all: map<string, CertInfo>)
    returns (r: map<string, CertInfo>)
    requires Consumes(lib)
    ensures Shown(r) == BundleEntries(lib, pem, source) + Shown(all)
  {
    var bundle := ParseCertBundleFromPEM(lib, pem, source);
    assert Shown(all) == old(Shown(all));
    r := Fill(all, bundle);
    ShownOfUnion(bundle, all);
  }

  /** The last two sources of the merge. */
  method AddBundles(lib: Crypto, clientCertPEM: seq<byte>, hostCAPEM: seq<byte>, all: map<string, CertInfo>)
    returns (r: map<string, CertInfo>)
    requires Consumes(lib)
    ensures Shown(r)
      == BundleEntries(lib, hostCAPEM, HostCASource) + (BundleEntries(lib, clientCertPEM, Client) + Shown(all))
  {
    r := AddBundle(lib, clientCertPEM, Client, all);
    ghost var first := Shown(r);
    assert first == BundleEntries(lib, clientCertPEM, Client) + old(Shown(all));
    r := AddBundle(lib, hostCAPEM, HostCASource, r);
    assert Shown(all) == old(Shown(all));
  }

  lemma MergeOrder<V>(server: map<string, V>, client: map<string, V>, collected: map<string, V>,
                      clientPEM: map<string, V>, hostCA: map<string, V>)
    requires collected == server + client
    ensures hostCA + (clientPEM + collected) == Merged(server, client, clientPEM, hostCA)
  {
  }

  method ServerCerts(engine: Engine) returns (certs: map<string, CertInfo>)
    requires engine.Valid()
    ensures Shown(certs) == engine.store
  {
    var server := engine.GetCertificates();
    certs := Overwrite(map[], server);
    assert certs == server;
  }

  /** The first two sources of the merge. */
  method CollectorCerts(engine: Engine) returns (certs: map<string, CertInfo>)
    requires engine.Valid()
    ensures Shown(certs) == engine.store + ClientEntries(engine.lib, engine.ClientView())
  {
    certs := ServerCerts(engine);
    certs := AddClientCerts(engine, certs);
  }

  /** The merge of Execute, whatever order the maps are iterated in: server and client collector first,
      then whatever the two PEM texts add. */
  method CollectCerts(engine: Engine, clientCertPEM: seq<byte>, hostCAPEM: seq<byte>)
    returns (certs: map<string, CertInfo>)
    requires engine.Valid() && Consumes(engine.lib)
    ensures Shown(certs) == AllCerts(engine.store, engine.lib, engine.ClientView(), clientCertPEM, hostCAPEM)
  {
    certs := CollectorCerts(engine);
    ghost var collected := Shown(certs);
    certs := AddBundles(engine.lib, clientCertPEM, hostCAPEM, certs);
    MergeOrder(engine.store, ClientEntries(engine.lib, engine.ClientView()), collected,
               BundleEntries(engine.lib, clientCertPEM, Client), BundleEntries(engine.lib, hostCAPEM, HostCASource));
  }

  /** The merged certificates of an execution whose probes left `server`. */
  ghost function AllCerts(server: Store, lib: Crypto, client: ClientState, clientCertPEM: seq<byte>,
                          hostCAPEM: seq<byte>): Store
    requires Consumes(lib)
  {
    Merged(server, ClientEntries(lib, client), BundleEntries(lib, clientCertPEM, Client),
           BundleEntries(lib, hostCAPEM, HostCASource))
  }

  /** The targets of a plan have the values that the options call for, and no two share their notes. */
  ghost predicate IsPlan(targets: seq<PlanBuild.Target>, templates: seq<ServiceTemplate>, opts: Options, dns: Resolver)
    reads *
  {
    && |targets| == |PlanTargets(templates, opts, dns)|
    && (forall i | 0 <= i < |targets| :: PlanBuild.View(targets[i]) == PlanTargets(templates, opts, dns)[i])
    && PlanBuild.NotesSeparate(targets)
  }

  /** A plan and its targets' values. */
  method BuildPlan(templates: seq<ServiceTemplate>, opts: Options, dns: Resolver)
    returns (plan: PlanBuild.BuildResult, targets: seq<ProbeTarget>)
    requires DistinctKeys(templates)
    ensures plan.UnknownServices? <==> PlanBuild.Unknown(templates, opts.serviceFilter) != {}
    ensures plan.UnknownServices? ==> plan.keys == PlanBuild.Unknown(templates, opts.serviceFilter)
    ensures plan.Built? ==> targets == PlanTargets(templates, opts, dns) && IsPlan(plan.targets, templates, opts, dns)
  {
    targets := [];
    plan := PlanBuild.Build(templates, opts, dns);
    if plan.Built? {
      targets := Values(plan.targets, PlanTargets(templates, opts, dns));
    }
  }

  method ProbeAndCollect(engine: Engine, targets: seq<ProbeTarget>, clientCertPEM: seq<byte>, hostCAPEM: seq<byte>,
                         wire: nat -> Wire)
    returns (report: array<ProbeResult>, certs: map<string, CertInfo>, ghost results: seq<ProbeResult>)
    requires engine.Valid() && Consumes(engine.lib)
    modifies engine`certs, engine`store
    ensures Accounted(engine.Cfg(), Jobs(targets), wire, results) && IsReportOrder(results, report[..])
    ensures Shown(certs) == AllCerts(CapturedAll(engine.lib, old(engine.store), SeenChains(Jobs(targets), wire)),
                                     engine.lib, engine.ClientView(), clientCertPEM, hostCAPEM)
  {
    report, results := engine.Run(targets, wire);
    ghost var sorted := report[..];
    certs := CollectCerts(engine, clientCertPEM, hostCAPEM);
    assert report[..] == sorted;
  }

  /** The report holds one account for every job: sorted, by the first appearance of the service among the
      accounts in plan order, then by address, then by attempt. */
  ghost predicate AccountsForAll(cfg: Config, jobs: seq<Job>, wire: nat -> Wire, report: seq<ProbeResult>) {
    exists results ::
      && Accounted(cfg, jobs, wire, results)
      && IsReportOrder(results, report) && Arranged(Map(ServiceOf, results), report)
  }

  /** What an execution promises: every planned probe is accounted for, in report order, and no other;
      everything the report mentions is recorded; its services stand in blocks in template order; its size
      is that of the plan; and with a proxy, proxied and direct results are in bijection.  The jobs covered
      are told from options and resolver alone. */
  ghost predicate Faithful(templates: seq<ServiceTemplate>, opts: Options, dns: Resolver, cfg: Config,
                           wire: nat -> Wire, report: seq<ProbeResult>, certs: Store)
  {
    && AccountsForAll(cfg, Jobs(PlanTargets(templates, opts, dns)), wire, report)
    && CoversPlan(templates, opts, dns, report)
    && ReportLinked(report, certs)
    && InBlocks(Map(ServiceOf, report))
    && Firsts(Map(ServiceOf, report)) == Map(TemplateKey, Selected(templates, opts.serviceFilter))
    && |report| == HeaderFactor(opts) * (ProxyFactor(opts) * Probes(BaseTargets(templates, opts, dns)))
    && (ProxyURL(opts.proxy) != "" ==> Balanced(multiset(Map(ResultKey, report))))
  }

  lemma Conclude(templates: seq<ServiceTemplate>, cfg: Config, client: ClientState, opts: Options, dns: Resolver,
                 start: Store, wire: nat -> Wire, results: seq<ProbeResult>, report: seq<ProbeResult>,
                 clientCertPEM: seq<byte>, hostCAPEM: seq<byte>)
    requires DistinctKeys(templates) && forall t | t in templates :: t.ports(opts) != []
    requires WellLinked(start) && ClientSound(cfg.lib, client) && Consumes(cfg.lib)
    requires cfg.clientFingerprint == client.fingerprint
    requires Accounted(cfg, Jobs(PlanTargets(templates, opts, dns)), wire, results)
    requires IsReportOrder(results, report)
    ensures var chains := SeenChains(Jobs(PlanTargets(templates, opts, dns)), wire);
      Faithful(templates, opts, dns, cfg, wire, report,
               AllCerts(CapturedAll(cfg.lib, start, chains), cfg.lib, client, clientCertPEM, hostCAPEM))
  {
    ClientIsPlain(cfg.lib, client);
    ReportOrderMeaning(results, report);
    ReportCoversPlan(templates, opts, dns, cfg, wire, results, report);
    ExecutionIsLinked(cfg, start, Jobs(PlanTargets(templates, opts, dns)), wire, results, report,
                      ClientEntries(cfg.lib, client), BundleEntries(cfg.lib, clientCertPEM, Client),
                      BundleEntries(cfg.lib, hostCAPEM, HostCASource));
    ReportFollowsTemplates(templates, opts, dns, cfg, wire, results, report);
    ReportSize(templates, opts, dns, cfg, wire, results, report);
    if ProxyURL(opts.proxy) != "" {
      ReportBalances(templates, opts, dns, cfg, wire, results, report);
    }
  }

  lemma EngineIsApart(engine: Engine, t: PlanBuild.Target)
    ensures engine as object !in PlanBuild.Owned(t) && engine as object != t.useClientCert
  {
    var backing: object := t.notes.backing;
    assert engine as object != backing;
  }

  /** Probing a plan leaves its targets as they are. */
  method ProbePlan(engine: Engine, plan: seq<PlanBuild.Target>, targets: seq<ProbeTarget>,
                   clientCertPEM: seq<byte>, hostCAPEM: seq<byte>, wire: nat -> Wire)
    returns (report: array<ProbeResult>, certs: map<string, CertInfo>, ghost results: seq<ProbeResult>)
    requires engine.Valid() && Consumes(engine.lib)
    requires |plan| == |targets| && forall i | 0 <= i < |plan| :: PlanBuild.View(plan[i]) == targets[i]
    modifies engine`certs, engine`store
    ensures forall i | 0 <= i < |plan| :: PlanBuild.View(plan[i]) == targets[i]
    ensures Accounted(engine.Cfg(), Jobs(targets), wire, results) && IsReportOrder(results, report[..])
    ensures Shown(certs) == AllCerts(CapturedAll(engine.lib, old(engine.store), SeenChains(Jobs(targets), wire)),
                                     engine.lib, engine.ClientView(), clientCertPEM, hostCAPEM)
  {
    forall i | 0 <= i < |plan|
      ensures engine as object !in PlanBuild.Owned(plan[i]) && engine as object != plan[i].useClientCert
    {
      EngineIsApart(engine, plan[i]);
    }
    report, certs, results := ProbeAndCollect(engine, targets, clientCertPEM, hostCAPEM, wire);
  }

  /** Execute after a plan has been built. */
  method ExecutePlan(templates: seq<ServiceTemplate>, engine: Engine, opts: Options, plan: seq<PlanBuild.Target>,
                     targets: seq<ProbeTarget>, clientCertPEM: seq<byte>, hostCAPEM: seq<byte>, dns: Resolver,
                     wire: nat -> Wire)
    returns (report: array<ProbeResult>, certs: map<string, CertInfo>)
    requires DistinctKeys(templates) && forall t | t in templates :: t.ports(opts) != []
    requires engine.Valid() && WellLinked(engine.store)
    requires ClientSound(engine.lib, engine.ClientView()) && Consumes(engine.lib)
    requires targets == PlanTargets(templates, opts, dns) && |plan| == |targets|
    requires forall i | 0 <= i < |plan| :: PlanBuild.View(plan[i]) == targets[i]
    modifies engine`certs, engine`store
    ensures forall i | 0 <= i < |plan| :: PlanBuild.View(plan[i]) == targets[i]
    ensures Faithful(templates, opts, dns, engine.Cfg(), wire, report[..], Shown(certs))
    ensures Shown(certs) == AllCerts(CapturedAll(engine.lib, old(engine.store), SeenChains(Jobs(targets), wire)),
                                     engine.lib, engine.ClientView(), clientCertPEM, hostCAPEM)
  {
    ghost var start := engine.store;
    ghost var results;
    report, certs, results := ProbePlan(engine, plan, targets, clientCertPEM, hostCAPEM, wire);
    Conclude(templates, engine.Cfg(), engine.ClientView(), opts, dns, start, wire, results, report[..],
             clientCertPEM, hostCAPEM);
  }

  /** Execute, end to end.  The engine may have collected certificates before and had its client certificate
      set; the network is `wire`, the resolver `dns`. */
  method Execute(templates: seq<ServiceTemplate>, engine: Engine, opts: Options, clientCertPEM: seq<byte>,
                 hostCAPEM: seq<byte>, dns: Resolver, wire: nat -> Wire)
    returns (exec: Execution)
    requires DistinctKeys(templates) && forall t | t in templates :: t.ports(opts) != []
    requires engine.Valid() && WellLinked(engine.store)
    requires ClientSound(engine.lib, engine.ClientView()) && Consumes(engine.lib)
    modifies engine`certs, engine`store
    ensures exec.UnknownServices? <==> PlanBuild.Unknown(templates, opts.serviceFilter) != {}
    ensures exec.UnknownServices? ==> exec.keys == PlanBuild.Unknown(templates, opts.serviceFilter)
    ensures exec.Executed? ==> IsPlan(exec.targets, templates, opts, dns)
    ensures exec.Executed? ==>
      Faithful(templates, opts, dns, engine.Cfg(), wire, exec.results[..], Shown(exec.certs))
    ensures exec.Executed? ==>
      var chains := SeenChains(Jobs(PlanTargets(templates, opts, dns)), wire);
      Shown(exec.certs) == AllCerts(CapturedAll(engine.lib, old(engine.store), chains), engine.lib,
                                    engine.ClientView(), clientCertPEM, hostCAPEM)
  {
    var plan, targets := BuildPlan(templates, opts, dns);
    if plan.UnknownServices? {
      return UnknownServices(plan.keys);
    }
    var report, certs := ExecutePlan(templates, engine, opts, plan.targets, targets, clientCertPEM, hostCAPEM, dns,
                                     wire);
    exec := Executed(plan.targets, report, certs);
  }

  /** A run ends before anything is probed when the host CA text holds no certificate. */
  datatype Outcome = BadHostCA | Ran(exec: Execution)

  /** A run from a new engine with at most one client certificate, for any services; `pool` has the
      certificates of the host CA text, if there are any. */
  method RunServices(templates: seq<ServiceTemplate>, lib: Crypto, verify: Verifier, systemRoots: seq<X509>,
                     pool: Option<seq<X509>>, opts: Options, clientCertPEM: seq<byte>, clientKeyPEM: seq<byte>,
                     hostCAPEM: seq<byte>, dns: Resolver, wire: nat -> Wire)
    returns (out: Outcome)
    requires Consumes(lib)
    requires DistinctKeys(templates) && forall t | t in templates :: t.ports(opts) != []
    ensures out.BadHostCA? <==> hostCAPEM != [] && pool.None?
    ensures out.Ran? ==>
      && (out.exec.UnknownServices? <==> PlanBuild.Unknown(templates, opts.serviceFilter) != {})
      && (out.exec.Executed? ==> IsPlan(out.exec.targets, templates, opts, dns))
    ensures out.Ran? && out.exec.Executed? ==>
      var cfg := ProgramConfig(lib, verify, systemRoots, pool, clientCertPEM, clientKeyPEM, hostCAPEM);
      Faithful(templates, opts, dns, cfg, wire, out.exec.results[..], Shown(out.exec.certs))
  {
    if |hostCAPEM| > 0 && pool.None? {
      return BadHostCA;
    }
    var engine := NewEngine(lib, verify, systemRoots, pool, clientCertPEM, clientKeyPEM, hostCAPEM);
    var exec := Execute(templates, engine, opts, clientCertPEM, hostCAPEM, dns, wire);
    out := Ran(exec);
  }

  /** The program's own run, with the built-in services. */
  method RunProgram(lib: Crypto, verify: Verifier, systemRoots: seq<X509>, pool: Option<seq<X509>>, opts: Options,
                    clientCertPEM: seq<byte>, clientKeyPEM: seq<byte>, hostCAPEM: seq<byte>, dns: Resolver,
                    wire: nat -> Wire)
    returns (out: Outcome)
    requires Consumes(lib)
    ensures out.BadHostCA? <==> hostCAPEM != [] && pool.None?
    ensures out.Ran? ==>
      && (out.exec.UnknownServices? <==> PlanBuild.Unknown(SERVICE_TEMPLATES, opts.serviceFilter) != {})
      && (out.exec.Executed? ==> IsPlan(out.exec.targets, SERVICE_TEMPLATES, opts, dns))
    ensures out.Ran? && out.exec.Executed? ==>
      var cfg := ProgramConfig(lib, verify, systemRoots, pool, clientCertPEM, clientKeyPEM, hostCAPEM);
      Faithful(SERVICE_TEMPLATES, opts, dns, cfg, wire, out.exec.results[..], Shown(out.exec.certs))
  {
    TableIsWellFormed();
    out := RunServices(SERVICE_TEMPLATES, lib, verify, systemRoots, pool, opts, clientCertPEM, clientKeyPEM,
                       hostCAPEM, dns, wire);
  }

  /** The client certificate of a run. */
  function ProgramClient(lib: Crypto, clientCertPEM: seq<byte>, clientKeyPEM: seq<byte>): ClientState {
    if clientCertPEM == [] || clientKeyPEM == [] then NO_CLIENT
    else SetClient(lib, NO_CLIENT, clientCertPEM, clientKeyPEM)
  }

  /** What the probes of a run depend on. */
  function ProgramConfig(lib: Crypto, verify: Verifier, systemRoots: seq<X509>, pool: Option<seq<X509>>,
                         clientCertPEM: seq<byte>, clientKeyPEM: seq<byte>, hostCAPEM: seq<byte>): Config {
    Config(lib, verify, systemRoots, if hostCAPEM == [] then None else pool,
           ProgramClient(lib, clientCertPEM, clientKeyPEM).fingerprint)
  }

  /** The engine of a run: host CA roots if there is a bundle, the client certificate if there is one. */
  method NewEngine(lib: Crypto, verify: Verifier, systemRoots: seq<X509>, pool: Option<seq<X509>>,
                   clientCertPEM: seq<byte>, clientKeyPEM: seq<byte>, hostCAPEM: seq<byte>)
    returns (engine: Engine)
    requires hostCAPEM != [] ==> pool.Some?
    ensures fresh(engine) && engine.lib == lib && engine.Valid() && engine.store == map[]
    ensures engine.rootCAs == (if hostCAPEM == [] then None else pool) && engine.systemRoots == systemRoots
    ensures engine.Cfg() == ProgramConfig(lib, verify, systemRoots, pool, clientCertPEM, clientKeyPEM, hostCAPEM)
    ensures engine.ClientView() == ProgramClient(lib, clientCertPEM, clientKeyPEM)
    ensures ClientSound(lib, engine.ClientView())
  {
    engine := new Engine(lib, verify, systemRoots);
    if |hostCAPEM| > 0 {
      engine.SetRootCAs(pool.value);
    }
    if |clientCertPEM| > 0 && |clientKeyPEM| > 0 {
      engine.SetClientCert(clientCertPEM, clientKeyPEM);
      ClientFingerprintIsCurrent(lib, NO_CLIENT, clientCertPEM, clientKeyPEM);
    }
  }
}
