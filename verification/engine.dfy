/** The probe engine: running a plan, accounting for each probe and collecting certificates
    (internal/probe/engine.go). */
module Probe {
  import opened Text
  import opened Hex
  import opened Lists
  import opened Targets
  import opened Reports
  import opened Certs

  // ---------------------------------------------------------------- the network, as an oracle

  datatype Dial = DialFailed(timeout: bool, error: string) | Connected(local: string, remote: string, host: string)

  datatype Handshake = HandshakeFailed(error: string) | HandshakeDone

  /** What happens outside the engine during one probe: the successive readings of the clock, and how
      far proxy setup, dialling and the handshake get. */
  datatype Wire = Wire(
    now: nat -> int,
    proxyError: Option<string>,
    dial: Dial,
    handshake: Handshake,
    peerCertificates: seq<X509>,
    negotiatedProtocol: string,
    tlsVersion: string,
    cipherSuite: string,
    bytesWritten: int,
    bytesRead: int)

  ghost predicate SteadyClock(w: Wire) {
    forall i: nat, j: nat | i <= j :: w.now(i) <= w.now(j)
  }

  /** x509 verification of leaf, intermediates, roots (None for the platform's) and name: None is success. */
  type Verifier = (X509, seq<X509>, Option<seq<X509>>, string) -> Option<string>

  /** What a run depends on and does not change. */
  datatype Config = Config(
    lib: Crypto, verify: Verifier, systemRoots: seq<X509>, rootCAs: Option<seq<X509>>, clientFingerprint: string)

  // ---------------------------------------------------------------- what a probe should report

  predicate UsesProxy(t: ProbeTarget) {
    t.useProxy && t.proxyURL != ""
  }

  predicate ProxyReady(t: ProbeTarget, w: Wire) {
    UsesProxy(t) ==> w.proxyError.None?
  }

  predicate ProtocolAgreed(t: ProbeTarget, w: Wire) {
    t.alpns == [] || (w.negotiatedProtocol != "" && w.negotiatedProtocol in t.alpns)
  }

  predicate HostCAMissing(cfg: Config, t: ProbeTarget) {
    t.trust == HostCA && (cfg.rootCAs.None? || cfg.rootCAs.value == [])
  }

  function Roots(cfg: Config, t: ProbeTarget): Option<seq<X509>> {
    if t.trust == HostCA then cfg.rootCAs
    else if cfg.systemRoots != [] then Some(cfg.systemRoots) else None
  }

  /** The chain verifies under the target's own trust strategy. */
  predicate Trusted(cfg: Config, t: ProbeTarget, w: Wire) {
    && w.peerCertificates != []
    && !HostCAMissing(cfg, t)
    && cfg.verify(w.peerCertificates[0], w.peerCertificates[1..], Roots(cfg, t), t.primarySNI).None?
  }

  predicate Succeeds(cfg: Config, t: ProbeTarget, w: Wire) {
    ProxyReady(t, w) && w.dial.Connected? && w.handshake.HandshakeDone? && ProtocolAgreed(t, w) && Trusted(cfg, t, w)
  }

  /** The kind of failure, by the first stage that fails. */
  function FailureKind(cfg: Config, t: ProbeTarget, w: Wire): string {
    if !ProxyReady(t, w) then "proxy_config_error"
    else if w.dial.DialFailed? then if w.dial.timeout then "timeout" else "proxy_connect_failed"
    else if w.handshake.HandshakeFailed? then
      if Contains(w.handshake.error, "no application protocol") then "alpn_mismatch" else "handshake_failed"
    else if !ProtocolAgreed(t, w) then "alpn_mismatch"
    else if w.peerCertificates != [] && HostCAMissing(cfg, t) then "host_ca_unavailable"
    else "untrusted_cert"
  }

  /** The chain that a probe gets to see. */
  function SeenChain(t: ProbeTarget, w: Wire): seq<X509> {
    if ProxyReady(t, w) && w.dial.Connected? then w.peerCertificates else []
  }

  function ShownFingerprint(cfg: Config, t: ProbeTarget): string {
    if t.useClientCert == Some(true) then cfg.clientFingerprint else ""
  }

  /** The account a result must give of its probe. */
  ghost predicate Accounts(cfg: Config, job: Job, w: Wire, r: ProbeResult) {
    var t, chain := job.target, SeenChain(job.target, w);
    && r.target == t && r.attempt == job.attempt
    && (r.failure.None? <==> Succeeds(cfg, t, w))
    && (r.failure.Some? ==> r.failure.value.kind == FailureKind(cfg, t, w))
    && (SteadyClock(w) ==> 0 <= r.dialDuration && 0 <= r.handshakeDuration
                           && r.dialDuration + r.handshakeDuration <= r.totalDuration)
    && r.certificateChain == Fingerprints(cfg.lib, chain)
    && r.leafFingerprint == (if chain == [] then "" else r.certificateChain[0])
    && r.clientCertFingerprint == ShownFingerprint(cfg, t)
    && ShowsConnection(t, w, r)
    && ShowsLeaf(chain, r)
  }

  /** What a result shows of the connection: the times between the readings of the clock, and what was read
      off the connection if it stood. */
  ghost predicate ShowsConnection(t: ProbeTarget, w: Wire, r: ProbeResult) {
    && r.timestamp == w.now(0)
    && (ProxyReady(t, w) ==> r.dialDuration == w.now(2) - w.now(1))
    && (if !ProxyReady(t, w) then r.handshakeDuration == 0 && r.totalDuration == w.now(1) - w.now(0)
        else if w.dial.DialFailed? then r.handshakeDuration == 0 && r.totalDuration == w.now(3) - w.now(0)
        else if w.handshake.HandshakeFailed? then
          r.handshakeDuration == w.now(5) - w.now(3) && r.totalDuration == w.now(6) - w.now(0)
        else r.handshakeDuration == w.now(4) - w.now(3) && r.totalDuration == w.now(5) - w.now(0))
    && (if ProxyReady(t, w) && w.dial.Connected? then
          && r.remoteAddr == w.dial.remote && r.localAddr == w.dial.local && r.resolvedIP == w.dial.host
          && r.tlsVersion == w.tlsVersion && r.cipherSuite == w.cipherSuite
          && r.bytesWritten == w.bytesWritten && r.bytesRead == w.bytesRead
          && r.negotiatedProtocol == if w.handshake.HandshakeDone? then w.negotiatedProtocol else ""
        else
          && r.remoteAddr == r.localAddr == r.resolvedIP == ""
          && r.tlsVersion == r.cipherSuite == r.negotiatedProtocol == ""
          && r.bytesWritten == r.bytesRead == 0)
  }

  /** What a result shows of the leaf certificate. */
  ghost predicate ShowsLeaf(chain: seq<X509>, r: ProbeResult) {
    if chain == [] then r.leafSubject == r.leafIssuer == "" && r.leafSANs == []
    else
      && r.leafSubject == chain[0].subject && r.leafIssuer == chain[0].issuer
      && r.leafSANs == chain[0].dnsNames + chain[0].ipAddresses + chain[0].uris
  }

  // ---------------------------------------------------------------- what the outcome means

  /** The system's certificate pool, unless it is empty: then verification uses the platform's own. */
  function SystemPool(cfg: Config): Option<seq<X509>> {
    if |cfg.systemRoots| > 0 then Some(cfg.systemRoots) else None
  }

  /** No failure when `ok`, otherwise one of the given kind. */
  predicate Fails(failure: Option<Failure>, ok: bool, kind: string) {
    if ok then failure.None? else failure.Some? && failure.value.kind == kind
  }

  /** The outcome of a probe, stage by stage. */
  ghost predicate IsOutcome(cfg: Config, t: ProbeTarget, w: Wire, failure: Option<Failure>) {
    if t.useProxy && t.proxyURL != "" && w.proxyError != None then
      Fails(failure, false, "proxy_config_error")
    else if w.dial.DialFailed? then
      Fails(failure, false, if w.dial.timeout then "timeout" else "proxy_connect_failed")
    else if w.handshake.HandshakeFailed? then
      Fails(failure, false, if exists i: nat :: OccursAt(w.handshake.error, "no application protocol", i)
                            then "alpn_mismatch" else "handshake_failed")
    else if t.alpns != [] && (w.negotiatedProtocol == "" || forall p | p in t.alpns :: p != w.negotiatedProtocol) then
      Fails(failure, false, "alpn_mismatch")
    else if w.peerCertificates == [] then
      Fails(failure, false, "untrusted_cert")
    else
      var leaf, rest := w.peerCertificates[0], w.peerCertificates[1..];
      if t.trust == HostCA then
        if cfg.rootCAs == None || cfg.rootCAs == Some([]) then Fails(failure, false, "host_ca_unavailable")
        else Fails(failure, cfg.verify(leaf, rest, cfg.rootCAs, t.primarySNI) == None, "untrusted_cert")
      else
        Fails(failure, cfg.verify(leaf, rest, SystemPool(cfg), t.primarySNI) == None, "untrusted_cert")
  }

  /** Every accounted result has that outcome: a host CA target is verified against the host CA, any other
      against the system's certificates. */
  lemma OutcomeMeaning(cfg: Config, job: Job, w: Wire, r: ProbeResult)
    requires Accounts(cfg, job, w, r)
    ensures IsOutcome(cfg, job.target, w, r.failure)
  {
    if w.handshake.HandshakeFailed? {
      ContainsMeaning(w.handshake.error, "no application protocol");
    }
  }

  /** The system's certificates have no influence on a host CA target, nor the host CA on any other. */
  lemma TrustIsIndependent(cfg: Config, other: Config, job: Job, w: Wire, r: ProbeResult, q: ProbeResult)
    requires Accounts(cfg, job, w, r) && Accounts(other, job, w, q)
    requires if job.target.trust == HostCA then other == cfg.(systemRoots := other.systemRoots)
      else other == cfg.(rootCAs := other.rootCAs)
    ensures r.failure.None? <==> q.failure.None?
    ensures r.failure.Some? ==> r.failure.value.kind == q.failure.value.kind
  {
    OutcomeMeaning(cfg, job, w, r);
    OutcomeMeaning(other, job, w, q);
  }

  /** The chain is shown exactly when a connection stood, even if the handshake then failed, and the client
      certificate exactly on a target that uses it. */
  lemma ShownMeaning(cfg: Config, job: Job, w: Wire, r: ProbeResult)
    requires Accounts(cfg, job, w, r)
    ensures var t := job.target;
      && (w.dial.Connected? && !(t.useProxy && t.proxyURL != "" && w.proxyError != None) ==>
            && |r.certificateChain| == |w.peerCertificates|
            && (forall i | 0 <= i < |w.peerCertificates| ::
                  HexBytes(r.certificateChain[i]) == Some(cfg.lib.sha256(w.peerCertificates[i].raw)))
            && r.leafFingerprint == if w.peerCertificates == [] then "" else r.certificateChain[0])
      && (w.dial.DialFailed? || (t.useProxy && t.proxyURL != "" && w.proxyError != None) ==>
            r.certificateChain == [] && r.leafFingerprint == "")
      && (t.useClientCert == Some(true) ==> r.clientCertFingerprint == cfg.clientFingerprint)
      && (t.useClientCert != Some(true) ==> r.clientCertFingerprint == "")
  {
    forall i | 0 <= i < |w.peerCertificates|
      ensures HexBytes(Fingerprint(cfg.lib, w.peerCertificates[i])) == Some(cfg.lib.sha256(w.peerCertificates[i].raw))
    {
      HexRoundTrip(cfg.lib.sha256(w.peerCertificates[i].raw), Upper);
    }
  }

  // ---------------------------------------------------------------- the jobs of a plan

  datatype Job = Job(target: ProbeTarget, attempt: int)

  function ProbeIPs(t: ProbeTarget): (r: seq<string>)
    ensures r != []
  {
    if t.overrideIPs != [] then t.overrideIPs else if t.dnsResolvedIPs != [] then t.dnsResolvedIPs else [t.address]
  }

  function Repeats(t: ProbeTarget): (n: nat)
    ensures n >= 1
  {
    if t.repeat <= 0 then 1 else t.repeat
  }

  function IPTarget(t: ProbeTarget, ip: string): ProbeTarget {
    t.(dnsResolvedIPs := [], address := ip)
  }

  function AddressJobs(t: ProbeTarget, ip: string): (r: seq<Job>)
    ensures |r| == Repeats(t) && forall i | 0 <= i < |r| :: r[i] == Job(IPTarget(t, ip), i + 1)
  {
    seq(Repeats(t), i requires 0 <= i < Repeats(t) => Job(IPTarget(t, ip), i + 1))
  }

  /** `jobs` and the first `n` attempts on an address. */
  function WithAttempts(jobs: seq<Job>, t: ProbeTarget, ip: string, n: nat): seq<Job>
    requires n <= Repeats(t)
  {
    jobs + AddressJobs(t, ip)[..n]
  }

  lemma AttemptsBounds(jobs: seq<Job>, t: ProbeTarget, ip: string)
    ensures WithAttempts(jobs, t, ip, 0) == jobs
    ensures WithAttempts(jobs, t, ip, Repeats(t)) == jobs + AddressJobs(t, ip)
  {
    assert AddressJobs(t, ip)[..Repeats(t)] == AddressJobs(t, ip);
  }

  lemma AttemptsStep(jobs: seq<Job>, t: ProbeTarget, ip: string, n: nat)
    requires 1 <= n <= Repeats(t)
    ensures WithAttempts(jobs, t, ip, n - 1) + [Job(IPTarget(t, ip), n)] == WithAttempts(jobs, t, ip, n)
  {
    var all := AddressJobs(t, ip);
    TakeOneMore(all, n - 1);
    ConcatIsAssociative(jobs, all[..n - 1], [all[n - 1]]);
  }

  function Attempts(t: ProbeTarget): string -> seq<Job> {
    ip => AddressJobs(t, ip)
  }

  /** `jobs` and those on the first `p` addresses. */
  function WithAddresses(jobs: seq<Job>, t: ProbeTarget, p: nat): seq<Job>
    requires p <= |ProbeIPs(t)|
  {
    jobs + FlatMap(Attempts(t), ProbeIPs(t)[..p])
  }

  lemma AddressesBounds(jobs: seq<Job>, t: ProbeTarget)
    ensures WithAddresses(jobs, t, 0) == jobs
    ensures WithAddresses(jobs, t, |ProbeIPs(t)|) == jobs + JobsOf(t)
  {
    assert ProbeIPs(t)[..|ProbeIPs(t)|] == ProbeIPs(t);
  }

  lemma AddressesStep(jobs: seq<Job>, t: ProbeTarget, p: nat)
    requires p < |ProbeIPs(t)|
    ensures WithAddresses(jobs, t, p) + AddressJobs(t, ProbeIPs(t)[p]) == WithAddresses(jobs, t, p + 1)
  {
    FlatMapStep(Attempts(t), ProbeIPs(t), p);
    ConcatIsAssociative(jobs, FlatMap(Attempts(t), ProbeIPs(t)[..p]), AddressJobs(t, ProbeIPs(t)[p]));
  }

  function JobsOf(t: ProbeTarget): seq<Job> {
    FlatMap(Attempts(t), ProbeIPs(t))
  }

  function Jobs(ts: seq<ProbeTarget>): seq<Job> {
    FlatMap(JobsOf, ts)
  }

  function JobService(j: Job): string {
    j.target.serviceKey
  }

  /** Every address of a target is probed max(1, repeat) times, with attempts 1, 2, ... in order. */
  lemma JobsOfTarget(t: ProbeTarget, p: nat, a: nat)
    requires p < |ProbeIPs(t)| && a < Repeats(t)
    ensures |JobsOf(t)| == |ProbeIPs(t)| * Repeats(t)
    ensures 0 <= p * Repeats(t) + a < |JobsOf(t)|
    ensures JobsOf(t)[p * Repeats(t) + a] == Job(IPTarget(t, ProbeIPs(t)[p]), a + 1)
  {
    FlatMapIndex(Attempts(t), ProbeIPs(t), Repeats(t), p, a);
  }

  function Probes(ts: seq<ProbeTarget>): nat {
    if ts == [] then 0 else Probes(ts[..|ts| - 1]) + |ProbeIPs(ts[|ts| - 1])| * Repeats(ts[|ts| - 1])
  }

  lemma {:induction false} JobCount(ts: seq<ProbeTarget>)
    ensures |Jobs(ts)| == Probes(ts)
  {
    if ts != [] {
      JobCount(ts[..|ts| - 1]);
      FlatMapLength(Attempts(ts[|ts| - 1]), ProbeIPs(ts[|ts| - 1]), Repeats(ts[|ts| - 1]));
    }
  }

  lemma {:induction false} ProbesOfConcat(a: seq<ProbeTarget>, b: seq<ProbeTarget>)
    ensures Probes(a + b) == Probes(a) + Probes(b)
  {
    if b == [] {
      assert a + b == a;
    } else {
      assert (a + b)[..|a + b| - 1] == a + b[..|b| - 1];
      ProbesOfConcat(a, b[..|b| - 1]);
    }
  }

  lemma ProbesOfTwo(pair: seq<ProbeTarget>)
    requires |pair| == 2
    ensures Probes(pair) == |ProbeIPs(pair[0])| * Repeats(pair[0]) + |ProbeIPs(pair[1])| * Repeats(pair[1])
  {
    assert pair[..1][..0] == [];
    assert Probes(pair[..1]) == |ProbeIPs(pair[0])| * Repeats(pair[0]);
  }

  /** Duplicating every target into a pair that differs in proxy, headers or notes doubles the probes. */
  lemma {:induction false} ProbesOfPairs(f: ProbeTarget -> seq<ProbeTarget>, ts: seq<ProbeTarget>)
    requires forall t :: |f(t)| == 2 && forall x | x in f(t) ::
      ProbeIPs(x) == ProbeIPs(t) && Repeats(x) == Repeats(t)
    ensures Probes(FlatMap(f, ts)) == 2 * Probes(ts)
  {
    if ts != [] {
      var n := |ts| - 1;
      ProbesOfPairs(f, ts[..n]);
      var pair := f(ts[n]);
      ProbesOfConcat(FlatMap(f, ts[..n]), pair);
      ProbesOfTwo(pair);
      assert pair[0] in pair && pair[1] in pair;
    }
  }

  lemma ProbesOfProxied(opts: Options, ts: seq<ProbeTarget>)
    ensures Probes(Proxied(opts, ts)) == ProxyFactor(opts) * Probes(ts)
  {
    if ProxyFactor(opts) == 2 {
      ProbesOfPairs(ProxyPair(ProxyURL(opts.proxy)), ts);
    }
  }

  lemma ProbesOfHeadered(opts: Options, ts: seq<ProbeTarget>)
    ensures Probes(Headered(opts, ts)) == HeaderFactor(opts) * Probes(ts)
  {
    if HeaderFactor(opts) == 2 {
      ProbesOfPairs(HeaderPair(opts.extraHeaders, HeaderNames(opts.extraHeaders)), ts);
    }
  }

  /** Conservation: the number of probes is the header factor times the proxy factor times the sum
      over the base targets of addresses x max(1, repeat). */
  lemma ProbesOfPlan(templates: seq<ServiceTemplate>, opts: Options, dns: Resolver)
    ensures |Jobs(PlanTargets(templates, opts, dns))|
      == HeaderFactor(opts) * (ProxyFactor(opts) * Probes(BaseTargets(templates, opts, dns)))
  {
    var base := BaseTargets(templates, opts, dns);
    JobCount(PlanTargets(templates, opts, dns));
    ProbesOfProxied(opts, base);
    ProbesOfHeadered(opts, Proxied(opts, base));
  }

  lemma JobsOfService(t: ProbeTarget, j: Job)
    requires j in JobsOf(t)
    ensures JobService(j) == Service(t)
  {
    FlatMapMember(Attempts(t), ProbeIPs(t), j);
    var p :| 0 <= p < |ProbeIPs(t)| && j in Attempts(t)(ProbeIPs(t)[p]);
    var ip := ProbeIPs(t)[p];
    var a :| 0 <= a < Repeats(t) && j == Attempts(t)(ip)[a];
    assert Attempts(t)(ip)[a] == Job(IPTarget(t, ip), a + 1);
  }

  /** Jobs keep the order of services. */
  lemma JobServices(ts: seq<ProbeTarget>)
    ensures Firsts(Map(JobService, Jobs(ts))) == Firsts(Map(Service, ts))
  {
    forall t | t in ts ensures JobsOf(t) != [] && forall j | j in JobsOf(t) :: JobService(j) == Service(t) {
      JobsOfTarget(t, 0, 0);
      forall j | j in JobsOf(t) ensures JobService(j) == Service(t) {
        JobsOfService(t, j);
      }
    }
    FirstsOfFlatMap(JobsOf, ts, Service, JobService);
  }

  // ---------------------------------------------------------------- client certificate

  /** The client certificate as the engine keeps it. */
  datatype ClientState = ClientState(pem: seq<byte>, key: seq<byte>, fingerprint: string)

  /** SetClientCert: ignored unless certificate and key form a pair. */
  function SetClient(lib: Crypto, st: ClientState, certPEM: seq<byte>, keyPEM: seq<byte>): ClientState {
    if !lib.keyPair(certPEM, keyPEM) then st
    else if certPEM == [] || FirstCert(lib, certPEM).None? then ClientState(certPEM, keyPEM, st.fingerprint)
    else ClientState(certPEM, keyPEM, Fingerprint(lib, FirstCert(lib, certPEM).value))
  }

  /** The fingerprint, if there is one, is that of the certificate that is kept. */
  predicate ClientSound(lib: Crypto, st: ClientState) {
    st.fingerprint != "" ==>
      && st.pem != [] && FirstCert(lib, st.pem).Some?
      && st.fingerprint == Fingerprint(lib, FirstCert(lib, st.pem).value)
  }

  const NO_CLIENT := ClientState([], [], "")

  /** After one call the fingerprint is right; after another it is, unless that call installs a pair
      whose first PEM block is no certificate while an older fingerprint is set. */
  lemma ClientFingerprintIsCurrent(lib: Crypto, st: ClientState, certPEM: seq<byte>, keyPEM: seq<byte>)
    requires ClientSound(lib, st)
    ensures ClientSound(lib, SetClient(lib, NO_CLIENT, certPEM, keyPEM))
    ensures ClientSound(lib, SetClient(lib, st, certPEM, keyPEM)) <==>
      (!lib.keyPair(certPEM, keyPEM) || st.fingerprint == "" || (certPEM != [] && FirstCert(lib, certPEM).Some?))
  {
  }

  /** Somewhere in a text there is a certificate block. */
  ghost predicate HoldsCert(lib: Crypto, pem: seq<byte>)
    requires Consumes(lib)
    decreases |pem|
  {
    pem != [] && lib.pemDecode(pem).Some?
    && (FirstCert(lib, pem).Some? || HoldsCert(lib, lib.pemDecode(pem).value.1))
  }

  /** The exception is real: a second pair whose certificate stands behind a parameters block leaves the
      first fingerprint in place. */
  lemma StaleFingerprint() returns (lib: Crypto, first: seq<byte>, second: seq<byte>, key: seq<byte>)
    ensures Consumes(lib) && HoldsCert(lib, first) && HoldsCert(lib, second)
    ensures forall c, k | lib.keyPair(c, k) :: k != [] && HoldsCert(lib, c)
    ensures lib.keyPair(first, key) && lib.keyPair(second, key)
    ensures !ClientSound(lib, SetClient(lib, SetClient(lib, NO_CLIENT, first, key), second, key))
  {
    first, second, key := [1], [2, 1], [9];
    var none := Name([], [], [], [], []);
    var cert := X509([1], "", "", "", none, none, [], [], [], [], [], [], [], [], []);
    lib := Crypto(
      d => [7],
      (d: seq<byte>) => if d == [1] then Some((PemBlock("CERTIFICATE", [1]), []))
           else if d == [2, 1] then Some((PemBlock("EC PARAMETERS", []), [1])) else None,
      (b: PemBlock) => b.bytes,
      d => Some(cert),
      (c: seq<byte>, k: seq<byte>) => k != [] && (c == [1] || c == [2, 1]));
    assert FirstCert(lib, first) == Some(cert);
    assert lib.pemDecode(second).value.1 == first;
    assert FirstCert(lib, second).None?;
    assert Fingerprint(lib, cert) == HexText([7], Upper);
    assert SetClient(lib, NO_CLIENT, first, key).fingerprint != "";
  }

  /** What GetClientCertificates reports. */
  function ClientEntries(lib: Crypto, st: ClientState): Store {
    if st.pem == [] || st.fingerprint == "" || FirstCert(lib, st.pem).None? then map[]
    else map[st.fingerprint := Parsed(lib, FirstCert(lib, st.pem).value, st.pem).(source := Client)]
  }

  /** The one record it reports, field by field. */
  lemma ClientRecord(lib: Crypto, st: ClientState, k: string)
    ensures k in ClientEntries(lib, st) <==>
      k == st.fingerprint && k != "" && st.pem != [] && FirstCert(lib, st.pem).Some?
    ensures k in ClientEntries(lib, st) ==>
      var e, c := ClientEntries(lib, st)[k], FirstCert(lib, st.pem).value;
      && e.cert == c && e.pem == st.pem && HexBytes(e.fingerprint) == Some(lib.sha256(c.raw))
      && e.subjectKeyID == KeyIDText(c.subjectKeyId) && e.authorityKeyID == KeyIDText(c.authorityKeyId)
      && e.source == Client && e.issuerFingerprint == "" && e.trust == None
  {
    if FirstCert(lib, st.pem).Some? {
      HexRoundTrip(lib.sha256(FirstCert(lib, st.pem).value.raw), Upper);
    }
  }

  /** Subject alternative names in the order DNS names, addresses, URIs. */
  function LeafSANs(c: X509): seq<string> {
    c.dnsNames + c.ipAddresses + c.uris
  }

  /** A result with the details of a captured chain. */
  function WithChain(lib: Crypto, res: ProbeResult, chain: seq<X509>): ProbeResult {
    if chain == [] then res else
      var leaf := chain[0];
      res.(leafFingerprint := Fingerprint(lib, leaf),
           leafSubject := leaf.subject,
           leafIssuer := leaf.issuer,
           leafSANs := if LeafSANs(leaf) == [] then res.leafSANs else LeafSANs(leaf),
           certificateChain := Fingerprints(lib, chain))
  }

  function NewResult(target: ProbeTarget, attempt: int, timestamp: int): ProbeResult {
    ProbeResult(target, attempt, timestamp, "", "", "", 0, 0, 0, 0, 0, "", "", "", "", "", [], "", [], "", None)
  }

  /** A result once the connection stands. */
  ghost predicate Started(res: ProbeResult, t: ProbeTarget, w: Wire) {
    && ProxyReady(t, w) && w.dial.Connected?
    && res.failure.None? && res.leafFingerprint == "" && res.certificateChain == []
    && res.dialDuration == w.now(2) - w.now(1) && res.timestamp == w.now(0)
    && res.remoteAddr == w.dial.remote && res.localAddr == w.dial.local && res.resolvedIP == w.dial.host
    && res.negotiatedProtocol == "" && res.leafSANs == []
    && res.leafSubject == res.leafIssuer == ""
  }

  /** What handshake and verification add to it. */
  ghost predicate Finished(cfg: Config, t: ProbeTarget, w: Wire, res: ProbeResult, r: ProbeResult) {
    && r.target == res.target && r.attempt == res.attempt
    && r.clientCertFingerprint == res.clientCertFingerprint && r.dialDuration == res.dialDuration
    && (SteadyClock(w) ==> 0 <= r.handshakeDuration <= r.totalDuration - (w.now(3) - w.now(0)))
    && (r.failure.None? <==> w.handshake.HandshakeDone? && ProtocolAgreed(t, w) && Trusted(cfg, t, w))
    && (r.failure.Some? ==> r.failure.value.kind == FailureKind(cfg, t, w))
    && r.certificateChain == Fingerprints(cfg.lib, w.peerCertificates)
    && r.leafFingerprint == (if w.peerCertificates == [] then "" else Fingerprint(cfg.lib, w.peerCertificates[0]))
    && ShowsConnection(t, w, r) && ShowsLeaf(w.peerCertificates, r)
  }

  lemma FinishedAccounts(cfg: Config, job: Job, w: Wire, res: ProbeResult, r: ProbeResult)
    requires Started(res, job.target, w) && Finished(cfg, job.target, w, res, r)
    requires res.target == job.target && res.attempt == job.attempt
    requires res.clientCertFingerprint == ShownFingerprint(cfg, job.target)
    ensures Accounts(cfg, job, w, r)
  {
  }

  /** The chains that a list of probes gets to see, in order. */
  ghost function SeenChains(jobs: seq<Job>, wire: nat -> Wire): (r: seq<seq<X509>>)
    ensures |r| == |jobs| && forall i | 0 <= i < |r| :: r[i] == SeenChain(jobs[i].target, wire(i))
  {
    seq(|jobs|, i requires 0 <= i < |jobs| => SeenChain(jobs[i].target, wire(i)))
  }

  /** There is one result for every job, and each gives its account. */
  ghost predicate Accounted(cfg: Config, jobs: seq<Job>, wire: nat -> Wire, results: seq<ProbeResult>) {
    |results| == |jobs| && forall i | 0 <= i < |jobs| :: Accounts(cfg, jobs[i], wire(i), results[i])
  }

  lemma AccountedStep(cfg: Config, jobs: seq<Job>, wire: nat -> Wire, results: seq<ProbeResult>, job: Job,
                      r: ProbeResult)
    requires Accounted(cfg, jobs, wire, results) && Accounts(cfg, job, wire(|results|), r)
    ensures Accounted(cfg, jobs + [job], wire, results + [r])
  {
    var all, rs := jobs + [job], results + [r];
    forall i | 0 <= i < |all| ensures Accounts(cfg, all[i], wire(i), rs[i]) {
      if i < |jobs| {
        assert all[i] == jobs[i] && rs[i] == results[i];
      } else {
        assert all[i] == job && rs[i] == r;
      }
    }
  }

  lemma SeenChainsStep(jobs: seq<Job>, job: Job, wire: nat -> Wire)
    ensures var chains := SeenChains(jobs + [job], wire);
      && chains[..|jobs|] == SeenChains(jobs, wire)
      && chains == SeenChains(jobs, wire) + [SeenChain(job.target, wire(|jobs|))]
  {
  }

  method SortedReport(rs: seq<ProbeResult>) returns (report: array<ProbeResult>)
    ensures fresh(report) && IsReportOrder(rs, report[..])
  {
    report := new ProbeResult[|rs|](i requires 0 <= i < |rs| => rs[i]);
    assert report[..] == rs;
    SortResults(report);
  }

  // ---------------------------------------------------------------- the engine

  class Engine {
    const lib: Crypto
    const verify: Verifier
    const systemRoots: seq<X509>
    var rootCAs: Option<seq<X509>>
    var certs: map<string, CertInfo>
    var clientCertPEM: seq<byte>
    var clientKeyPEM: seq<byte>
    var clientCertFingerprint: string
    /** The values of the collected certificates. */
    ghost var store: Store

    ghost predicate Valid()
      reads this, certs.Values, set k | k in certs :: certs[k].trustStatus
    {
      && store.Keys == certs.Keys
      && forall k | k in certs :: certs[k].View() == store[k]
    }

    ghost function ClientView(): ClientState
      reads `clientCertPEM, `clientKeyPEM, `clientCertFingerprint
    {
      ClientState(clientCertPEM, clientKeyPEM, clientCertFingerprint)
    }

    ghost function Cfg(): Config
      reads `rootCAs, `clientCertFingerprint
    {
      Config(lib, verify, systemRoots, rootCAs, clientCertFingerprint)
    }

    /** NewEngine */
    constructor (lib: Crypto, verify: Verifier, systemRoots: seq<X509>)
      ensures Valid() && store == map[] && ClientView() == NO_CLIENT && rootCAs == None
      ensures this.lib == lib && this.verify == verify && this.systemRoots == systemRoots
    {
      this.lib, this.verify, this.systemRoots := lib, verify, systemRoots;
      rootCAs, certs, store := None, map[], map[];
      clientCertPEM, clientKeyPEM, clientCertFingerprint := [], [], "";
    }

    method SetRootCAs(pool: seq<X509>)
      modifies `rootCAs
      ensures rootCAs == Some(pool)
    {
      rootCAs := Some(pool);
    }

    method SetClientCert(certPEM: seq<byte>, keyPEM: seq<byte>)
      modifies `clientCertPEM, `clientKeyPEM, `clientCertFingerprint
      ensures ClientView() == SetClient(lib, old(ClientView()), certPEM, keyPEM)
    {
      if !lib.keyPair(certPEM, keyPEM) {
        return;
      }
      clientCertPEM, clientKeyPEM := certPEM, keyPEM;
      if |certPEM| > 0 {
        var decoded := lib.pemDecode(certPEM);
        if decoded.Some? && decoded.value.0.kind == "CERTIFICATE" {
          var cert := lib.parseCertificate(decoded.value.0.bytes);
          if cert.Some? {
            clientCertFingerprint := HexText(lib.sha256(cert.value.raw), Upper);
          }
        }
      }
    }

    /** A new record for a certificate of a captured chain. */
    method NewServerInfo(chain: seq<X509>, c: X509, index: map<string, string>) returns (info: CertInfo)
      requires forall id | id != [] ::
        (if KeyIDText(id) in index then index[KeyIDText(id)] else "") == LastWithKey(lib, chain, id)
      ensures fresh(info) && (info.trustStatus != null ==> fresh(info.trustStatus))
      ensures info.View() == ServerEntry(lib, chain, c)
    {
      var pemData := lib.pemEncode(PemBlock("CERTIFICATE", c.raw));
      info := new CertInfo.Parse(lib, c, pemData);
      info.SetSource(Server);
      if |c.authorityKeyId| > 0 {
        var text := FormatKeyID(c.authorityKeyId);
        assert (if text in index then index[text] else "") == LastWithKey(lib, chain, c.authorityKeyId);
        if text in index {
          info.SetIssuerFingerprint(index[text]);
        }
      }
      assert info.issuerFingerprint == IssuerIn(lib, chain, c);
      var trust := CheckMITMSuspicion(info, REFERENCE_CAS);
      if trust != null {
        info.trustStatus := trust;
      }
    }

    /** Recording a certificate that has not been seen before. */
    method Record(chain: seq<X509>, n: nat, index: map<string, string>)
      requires Valid() && n < |chain|
      requires forall id | id != [] ::
        (if KeyIDText(id) in index then index[KeyIDText(id)] else "") == LastWithKey(lib, chain, id)
      modifies `certs, `store
      ensures Valid()
      ensures store == AddNew(old(store), Fingerprint(lib, chain[n]), ServerEntry(lib, chain, chain[n]))
    {
      var fp := HexText(lib.sha256(chain[n].raw), Upper);
      if fp !in certs {
        var info := NewServerInfo(chain, chain[n], index);
        forall k | k in old(certs) ensures old(certs)[k].View() == old(store)[k] {
          assert old(certs)[k].View() == old(certs[k].View());
        }
        ghost var entry := ServerEntry(lib, chain, chain[n]);
        certs, store := certs[fp := info], store[fp := entry];
        forall k | k in certs ensures k in store && certs[k].View() == store[k] {
          if k == fp {
            assert certs[k] == info && info.View() == entry;
          } else {
            assert certs[k] == old(certs)[k] && old(certs)[k].View() == old(store)[k];
          }
        }
      }
    }

    /** The loop over the chain: fingerprints in order, every new certificate recorded. */
    method CaptureChain(chain: seq<X509>) returns (fingerprints: seq<string>)
      requires Valid()
      modifies `certs, `store
      ensures Valid() && store == Captured(lib, old(store), chain)
      ensures fingerprints == Fingerprints(lib, chain)
    {
      var index := IndexByKey(lib, chain);
      ghost var fps, es := Fingerprints(lib, chain), ServerEntries(lib, chain);
      fingerprints := [];
      for n := 0 to |chain|
        invariant Valid() && store == AddAll(old(store), fps[..n], es[..n])
        invariant fingerprints == fps[..n]
      {
        TakeOneMore(fps, n);
        AddAllStep(old(store), fps, es, n);
        fingerprints := fingerprints + [HexText(lib.sha256(chain[n].raw), Upper)];
        Record(chain, n, index);
      }
      assert fps[..|chain|] == fps && es[..|chain|] == es;
    }

    method CaptureCertificateDetails(res: ProbeResult, chain: seq<X509>) returns (r: ProbeResult)
      requires Valid()
      modifies `certs, `store
      ensures Valid() && store == Captured(lib, old(store), chain)
      ensures r == WithChain(lib, res, chain)
    {
      if |chain| == 0 {
        return res;
      }
      var leaf := chain[0];
      r := res.(leafFingerprint := HexText(lib.sha256(leaf.raw), Upper), leafSubject := leaf.subject,
                leafIssuer := leaf.issuer);
      var sans := leaf.dnsNames + leaf.ipAddresses + leaf.uris;
      if |sans| > 0 {
        r := r.(leafSANs := sans);
      }
      var fingerprints := CaptureChain(chain);
      r := r.(certificateChain := fingerprints);
    }

    /** verifyPeerCertificate: None when the chain is trusted, otherwise the kind of failure and a message. */
    method VerifyPeerCertificate(chain: seq<X509>, t: ProbeTarget) returns (failure: Option<Failure>)
      ensures failure.None? <==>
        && chain != []
        && !HostCAMissing(Cfg(), t)
        && verify(chain[0], chain[1..], Roots(Cfg(), t), t.primarySNI).None?
      ensures failure.Some? ==>
        failure.value.kind == if chain != [] && HostCAMissing(Cfg(), t) then "host_ca_unavailable" else "untrusted_cert"
    {
      if |chain| == 0 {
        return Some(Failure("untrusted_cert", "server presented no certificates"));
      }
      var roots: Option<seq<X509>> := None;
      if t.trust == HostCA {
        if rootCAs.None? || |rootCAs.value| == 0 {
          return Some(Failure("host_ca_unavailable", "host CA trust not configured"));
        }
        roots := rootCAs;
      } else if |systemRoots| > 0 {
        roots := Some(systemRoots);
      }
      var err := verify(chain[0], chain[1..], roots, t.primarySNI);
      if err.Some? {
        return Some(Failure("untrusted_cert", err.value));
      }
      return None;
    }

    /** The checks after a handshake that succeeded: protocol first, then trust. */
    method CheckOutcome(t: ProbeTarget, w: Wire) returns (failure: Option<Failure>)
      requires ProxyReady(t, w) && w.dial.Connected? && w.handshake.HandshakeDone?
      ensures failure.None? <==> Succeeds(Cfg(), t, w)
      ensures failure.Some? ==> failure.value.kind == FailureKind(Cfg(), t, w)
    {
      if |t.alpns| > 0 {
        if w.negotiatedProtocol == "" {
          return Some(Failure("alpn_mismatch", "server did not negotiate ALPN"));
        }
        if w.negotiatedProtocol !in t.alpns {
          return Some(Failure("alpn_mismatch", "negotiated " + w.negotiatedProtocol));
        }
      }
      failure := VerifyPeerCertificate(w.peerCertificates, t);
    }

    /** The failure of a handshake, or of the checks after it. */
    method JudgeHandshake(t: ProbeTarget, w: Wire) returns (failure: Option<Failure>)
      requires ProxyReady(t, w) && w.dial.Connected?
      ensures failure.None? <==> w.handshake.HandshakeDone? && ProtocolAgreed(t, w) && Trusted(Cfg(), t, w)
      ensures failure.Some? ==> failure.value.kind == FailureKind(Cfg(), t, w)
    {
      if w.handshake.HandshakeFailed? {
        var mismatch := Contains(w.handshake.error, "no application protocol");
        return Some(Failure(if mismatch then "alpn_mismatch" else "handshake_failed", w.handshake.error));
      }
      failure := CheckOutcome(t, w);
    }

    /** The part of a probe after dialling, with the clock read from index 3 on. */
    method FinishProbe(t: ProbeTarget, w: Wire, res: ProbeResult) returns (r: ProbeResult)
      requires Valid() && Started(res, t, w)
      modifies `certs, `store
      ensures Valid() && store == Captured(lib, old(store), w.peerCertificates)
      ensures Finished(Cfg(), t, w, res, r)
    {
      var handshakeStart := w.now(3);
      if w.handshake.HandshakeFailed? {
        r := res.(handshakeDuration := w.now(5) - handshakeStart, totalDuration := w.now(6) - w.now(0));
      } else {
        r := res.(handshakeDuration := w.now(4) - handshakeStart, totalDuration := w.now(5) - w.now(0),
                  negotiatedProtocol := w.negotiatedProtocol);
      }
      r := CaptureCertificateDetails(r, w.peerCertificates);
      var failure := JudgeHandshake(t, w);
      r := r.(tlsVersion := w.tlsVersion, cipherSuite := w.cipherSuite, failure := failure,
              bytesWritten := w.bytesWritten, bytesRead := w.bytesRead);
    }

    /** The part of a probe up to the connection; `done` when it ends there. */
    method StartProbe(target: ProbeTarget, attempt: int, w: Wire) returns (res: ProbeResult, done: bool)
      ensures done <==> !ProxyReady(target, w) || w.dial.DialFailed?
      ensures res.target == target && res.attempt == attempt
      ensures res.clientCertFingerprint == ShownFingerprint(Cfg(), target)
      ensures done ==> Accounts(Cfg(), Job(target, attempt), w, res)
      ensures !done ==> Started(res, target, w)
    {
      var startTime := w.now(0);
      done := true;
      res := NewResult(target, attempt, startTime);
      if target.useClientCert == Some(true) && clientCertFingerprint != "" {
        res := res.(clientCertFingerprint := clientCertFingerprint);
      }
      if target.useProxy && target.proxyURL != "" && w.proxyError.Some? {
        res := res.(totalDuration := w.now(1) - startTime,
                    failure := Some(Failure("proxy_config_error",
                                            "invalid proxy configuration: " + w.proxyError.value)));
        return;
      }
      var dialStart, dialEnd := w.now(1), w.now(2);
      res := res.(dialDuration := dialEnd - dialStart);
      if w.dial.DialFailed? {
        var kind := if w.dial.timeout then "timeout" else "proxy_connect_failed";
        res := res.(totalDuration := w.now(3) - startTime, failure := Some(Failure(kind, w.dial.error)));
        return;
      }
      res := res.(remoteAddr := w.dial.remote, localAddr := w.dial.local, resolvedIP := w.dial.host);
      done := false;
    }

    method ProbeOnce(target: ProbeTarget, attempt: int, w: Wire) returns (res: ProbeResult)
      requires Valid()
      modifies `certs, `store
      ensures Valid()
      ensures store == Captured(lib, old(store), SeenChain(target, w))
      ensures Accounts(Cfg(), Job(target, attempt), w, res)
    {
      var done;
      res, done := StartProbe(target, attempt, w);
      if !done {
        ghost var started := res;
        res := FinishProbe(target, w, res);
        FinishedAccounts(Cfg(), Job(target, attempt), w, started, res);
      }
    }

    /** Where a run that began with the collection `start` has got: every job so far has its account,
        and the collection is that of the chains seen. */
    ghost predicate Running(start: Store, jobs: seq<Job>, wire: nat -> Wire, results: seq<ProbeResult>)
      reads this, certs.Values, set k | k in certs :: certs[k].trustStatus
    {
      && Valid()
      && Accounted(Cfg(), jobs, wire, results)
      && store == CapturedAll(lib, start, SeenChains(jobs, wire))
    }

    /** One more attempt: its account and its chain are added at the end. */
    method ProbeAndAppend(job: Job, wire: nat -> Wire, results: seq<ProbeResult>, ghost jobs: seq<Job>,
                          ghost start: Store)
      returns (r: seq<ProbeResult>)
      requires Running(start, jobs, wire, results)
      modifies `certs, `store
      ensures Running(start, jobs + [job], wire, r)
    {
      var w := wire(|results|);
      var res := ProbeOnce(job.target, job.attempt, w);
      AccountedStep(Cfg(), jobs, wire, results, job, res);
      SeenChainsStep(jobs, job, wire);
      CapturedAllStep(lib, start, SeenChains(jobs, wire), SeenChain(job.target, w));
      r := results + [res];
    }

    /** One attempt on one address. */
    method ProbeAttempt(target: ProbeTarget, ip: string, attempt: int, wire: nat -> Wire, results: seq<ProbeResult>,
                        ghost jobs: seq<Job>, ghost start: Store)
      returns (r: seq<ProbeResult>)
      requires 1 <= attempt <= Repeats(target)
      requires Running(start, WithAttempts(jobs, target, ip, attempt - 1), wire, results)
      modifies `certs, `store
      ensures Running(start, WithAttempts(jobs, target, ip, attempt), wire, r)
    {
      AttemptsStep(jobs, target, ip, attempt);
      r := ProbeAndAppend(Job(IPTarget(target, ip), attempt), wire, results,
                          WithAttempts(jobs, target, ip, attempt - 1), start);
    }

    /** The attempts on one address. */
    method ProbeAddress(target: ProbeTarget, ip: string, wire: nat -> Wire, results: seq<ProbeResult>,
                        ghost jobs: seq<Job>, ghost start: Store)
      returns (r: seq<ProbeResult>)
      requires Running(start, jobs, wire, results)
      modifies `certs, `store
      ensures Running(start, jobs + AddressJobs(target, ip), wire, r)
    {
      var repeat := target.repeat;
      if repeat <= 0 {
        repeat := 1;
      }
      r := results;
      AttemptsBounds(jobs, target, ip);
      for attempt := 1 to repeat + 1
        invariant Running(start, WithAttempts(jobs, target, ip, attempt - 1), wire, r)
      {
        r := ProbeAttempt(target, ip, attempt, wire, r, jobs, start);
      }
    }

    method ProbeNextAddress(target: ProbeTarget, p: nat, wire: nat -> Wire, results: seq<ProbeResult>,
                            ghost jobs: seq<Job>, ghost start: Store)
      returns (r: seq<ProbeResult>)
      requires p < |ProbeIPs(target)|
      requires Running(start, WithAddresses(jobs, target, p), wire, results)
      modifies `certs, `store
      ensures Running(start, WithAddresses(jobs, target, p + 1), wire, r)
    {
      r := ProbeAddress(target, ProbeIPs(target)[p], wire, results, WithAddresses(jobs, target, p), start);
      AddressesStep(jobs, target, p);
    }

    /** The addresses of one target: overrides, else resolved addresses, else the address as it is. */
    method ProbeOneTarget(target: ProbeTarget, wire: nat -> Wire, results: seq<ProbeResult>, ghost jobs: seq<Job>,
                          ghost start: Store)
      returns (r: seq<ProbeResult>)
      requires Running(start, jobs, wire, results)
      modifies `certs, `store
      ensures Running(start, jobs + JobsOf(target), wire, r)
    {
      r := results;
      AddressesBounds(jobs, target);
      for p := 0 to |ProbeIPs(target)|
        invariant Running(start, WithAddresses(jobs, target, p), wire, r)
      {
        r := ProbeNextAddress(target, p, wire, r, jobs, start);
      }
    }

    /** The loop over targets. */
    method ProbeAll(targets: seq<ProbeTarget>, wire: nat -> Wire) returns (rs: seq<ProbeResult>)
      requires Valid()
      modifies `certs, `store
      ensures Running(old(store), Jobs(targets), wire, rs)
    {
      rs := [];
      ghost var start, done := store, [];
      for n := 0 to |targets|
        invariant done == Jobs(targets[..n])
        invariant Running(start, done, wire, rs)
      {
        rs := ProbeOneTarget(targets[n], wire, rs, done, start);
        FlatMapStep(JobsOf, targets, n);
        done := done + JobsOf(targets[n]);
      }
      assert targets[..|targets|] == targets;
    }

    /** Run: every job of the plan is probed and accounted for, in plan order, and the results are then
        sorted in place. */
    method Run(targets: seq<ProbeTarget>, wire: nat -> Wire)
      returns (report: array<ProbeResult>, ghost results: seq<ProbeResult>)
      requires Valid()
      modifies `certs, `store
      ensures Running(old(store), Jobs(targets), wire, results)
      ensures fresh(report) && IsReportOrder(results, report[..])
    {
      var rs := ProbeAll(targets, wire);
      results := rs;
      report := SortedReport(rs);
    }

    /** GetCertificates: a new record for every collected certificate, whatever the iteration order.
        The records are copies, but a copy has the trust record and the slices of its original. */
    method GetCertificates() returns (result: map<string, CertInfo>)
      requires Valid()
      ensures Shown(result) == store
      ensures AreCopies(certs, result) && forall k | k in result :: fresh(result[k])
    {
      result := map[];
      var rest := certs.Keys;
      while rest != {}
        invariant rest <= certs.Keys && result.Keys == certs.Keys - rest
        invariant forall k | k in certs :: k in store && certs[k].View() == store[k]
        invariant forall k | k in result ::
          k in certs && IsCopy(certs[k], result[k]) && result[k].View() == store[k]
        invariant forall k | k in result :: fresh(result[k])
        decreases rest
      {
        var k :| k in rest;
        result := AddCopy(k, result);
        rest := rest - {k};
      }
    }

    method AddCopy(k: string, infos: map<string, CertInfo>) returns (r: map<string, CertInfo>)
      requires k in certs && forall j | j in certs :: j in store && certs[j].View() == store[j]
      requires forall j | j in infos ::
        j in certs && IsCopy(certs[j], infos[j]) && infos[j].View() == store[j]
      ensures r.Keys == infos.Keys + {k} && fresh(r[k]) && forall j | j in infos && j != k :: r[j] == infos[j]
      ensures forall j | j in certs :: certs[j].View() == store[j]
      ensures forall j | j in r ::
        j in certs && IsCopy(certs[j], r[j]) && r[j].View() == store[j]
    {
      var copy := new CertInfo.Copy(certs[k]);
      forall j | j in certs ensures certs[j].View() == store[j] {
        assert certs[j].View() == old(certs[j].View());
      }
      forall j | j in infos ensures infos[j].View() == store[j] {
        assert infos[j].View() == old(infos[j].View());
      }
      r := infos[k := copy];
    }

    /** GetClientCertificates: the configured certificate under the recorded fingerprint. */
    method GetClientCertificates() returns (result: map<string, CertInfo>)
      ensures Shown(result) == ClientEntries(lib, ClientView())
      ensures forall k | k in result :: fresh(result[k])
    {
      if |clientCertPEM| == 0 || clientCertFingerprint == "" {
        return map[];
      }
      var info := ParseCertFromPEM(lib, clientCertPEM);
      if info == null {
        return map[];
      }
      info.SetSource(Client);
      result := map[clientCertFingerprint := info];
    }
  }
}
