/** Building a plan on the heap: targets hold slices, a header map and a pointer to a flag, and
    duplication copies them shallowly or deeply (internal/plan/plan.go). */
module PlanBuild {
  import opened Text
  import opened Lists
  import opened Sorting
  import opened Version
  import opened Slices
  import opened Targets

  class HeaderMap {
    var entries: map<string, string>

    constructor (entries: map<string, string>)
      ensures this.entries == entries
    {
      this.entries := entries;
    }
  }

  class BoolBox {
    var value: bool

    constructor (value: bool)
      ensures this.value == value
    {
      this.value := value;
    }
  }

  /** A probe target as the program stores it. */
  datatype Target = Target(
    serviceKey: string,
    displayName: string,
    address: string,
    dnsResolvedIPs: array<string>,
    overrideIPs: array<string>,
    port: int,
    primarySNI: string,
    additionalSNIs: array<string>,
    alpns: array<string>,
    upgradeSequence: array<UpgradeAttempt>,
    trust: Trust,
    informationalOnly: bool,
    repeat: int,
    notes: Slice,
    useClientCert: BoolBox?,
    useProxy: bool,
    proxyURL: string,
    extraHeaders: HeaderMap)

  // ---------------------------------------------------------------- memory of a target

  /** The slices and the map of a target other than its notes. */
  ghost function Shared(t: Target): set<object> {
    {t.extraHeaders as object, t.dnsResolvedIPs, t.overrideIPs, t.additionalSNIs, t.alpns, t.upgradeSequence}
  }

  ghost function Owned(t: Target): set<object> {
    {t.extraHeaders as object, t.notes.backing, t.dnsResolvedIPs, t.overrideIPs, t.additionalSNIs, t.alpns,
     t.upgradeSequence}
  }

  ghost predicate Sound(t: Target) {
    Wf(t.notes) && t.notes.backing !in Shared(t)
  }

  /** The value of a target. */
  function View(t: Target): ProbeTarget
    reads Owned(t), t.useClientCert
  {
    ProbeTarget(
      t.serviceKey, t.displayName, t.address, t.dnsResolvedIPs[..], t.overrideIPs[..], t.port,
      t.primarySNI, t.additionalSNIs[..], t.alpns[..], t.upgradeSequence[..], t.trust,
      t.informationalOnly, t.repeat, Contents(t.notes),
      if t.useClientCert == null then None else Some(t.useClientCert.value),
      t.useProxy, t.proxyURL, t.extraHeaders.entries)
  }

  ghost predicate AllSound(ts: seq<Target>) {
    forall i | 0 <= i < |ts| :: Sound(ts[i])
  }

  /** The notes of one target are no part of another. */
  ghost predicate NotesSeparate(ts: seq<Target>) {
    forall i, j | 0 <= i < |ts| && 0 <= j < |ts| && i != j :: ts[i].notes.backing !in Owned(ts[j])
  }

  /** No two targets have an array or a header map in common, not even an empty one. */
  ghost predicate AllSeparate(ts: seq<Target>) {
    forall i, j | 0 <= i < j < |ts| :: Apart(ts[i], ts[j])
  }

  ghost predicate Apart(a: Target, b: Target) {
    Owned(a) !! Owned(b)
  }

  /** A write through a slice or the map of `t` can reach `o`.  An empty slice and an empty map are nil:
      they have no memory. */
  ghost predicate Reaches(t: Target, o: object)
    reads t.extraHeaders
  {
    || (o == t.extraHeaders && t.extraHeaders.entries != map[])
    || (o == t.notes.backing && t.notes.backing.Length > 0)
    || (o == t.dnsResolvedIPs && t.dnsResolvedIPs.Length > 0)
    || (o == t.overrideIPs && t.overrideIPs.Length > 0)
    || (o == t.additionalSNIs && t.additionalSNIs.Length > 0)
    || (o == t.alpns && t.alpns.Length > 0)
    || (o == t.upgradeSequence && t.upgradeSequence.Length > 0)
  }

  ghost predicate ShareLists(a: Target, b: Target)
    reads a.extraHeaders, b.extraHeaders
  {
    exists o | o in Owned(a) :: Reaches(a, o) && Reaches(b, o)
  }

  ghost predicate ShareFlag(a: Target, b: Target) {
    a.useClientCert != null && a.useClientCert == b.useClientCert
  }

  /** Two targets share a slice, a map or the certificate flag. */
  ghost predicate Share(a: Target, b: Target)
    reads a.extraHeaders, b.extraHeaders
  {
    ShareLists(a, b) || ShareFlag(a, b)
  }

  /** All memory of a target, its flag included, is new and none of `known`. */
  twostate predicate New(new t: Target, known: set<object>) {
    fresh(Owned(t)) && Owned(t) !! known && (t.useClientCert != null ==> fresh(t.useClientCert))
  }

  /** No two targets have their certificate flag in common. */
  ghost predicate FlagsApart(ts: seq<Target>) {
    forall i, j | 0 <= i < j < |ts| :: !ShareFlag(ts[i], ts[j])
  }

  /** No two targets share memory. */
  ghost predicate NothingShared(ts: seq<Target>)
    reads set i | 0 <= i < |ts| :: ts[i].extraHeaders
  {
    forall i, j | 0 <= i < j < |ts| :: !Share(ts[i], ts[j])
  }

  // ---------------------------------------------------------------- one target

  /** A struct literal whose slices are all cloned. */
  method NewTarget(v: ProbeTarget, useClientCert: BoolBox?, ghost known: set<object>) returns (t: Target)
    ensures Sound(t) && fresh(Owned(t)) && Owned(t) !! known && t.useClientCert == useClientCert
    ensures View(t) == v.(useClientCert := if useClientCert == null then None else Some(useClientCert.value))
    ensures t.notes.len == t.notes.backing.Length
  {
    var dns := Clone(v.dnsResolvedIPs);
    var overrideIPs := Clone(v.overrideIPs);
    var additionalSNIs := Clone(v.additionalSNIs);
    var alpns := Clone(v.alpns);
    var upgradeSequence := Clone(v.upgradeSequence);
    var notes := Clone(v.notes);
    var headers := new HeaderMap(v.extraHeaders);
    t := Target(v.serviceKey, v.displayName, v.address, dns, overrideIPs, v.port, v.primarySNI, additionalSNIs,
                alpns, upgradeSequence, v.trust, v.informationalOnly, v.repeat, Slice(notes, notes.Length),
                useClientCert, v.useProxy, v.proxyURL, headers);
  }

  /** deepCopyProbeTarget: every slice and the map are cloned, the flag pointer is kept. */
  method DeepCopy(src: Target, ghost known: set<object>) returns (dst: Target)
    ensures Sound(dst) && fresh(Owned(dst)) && Owned(dst) !! known && dst.useClientCert == src.useClientCert
    ensures View(dst) == View(src)
  {
    dst := NewTarget(View(src), src.useClientCert, known);
  }

  method NewBase(opts: Options, t: ServiceTemplate, port: int, base16: string, upgrades: seq<UpgradeAttempt>,
                 ghost known: set<object>)
    returns (b: Target)
    ensures Sound(b) && fresh(Owned(b)) && Owned(b) !! known && b.useClientCert == null
    ensures View(b) == BaseFrom(opts, t, port, base16, upgrades)
  {
    b := NewTarget(
      ProbeTarget(t.key, t.displayName, opts.publicAddr, [], opts.ipAddresses, port, t.snis(opts, base16).0,
                  t.snis(opts, base16).1, t.alpns(opts, base16), if t.needsUpgrade then upgrades else [],
                  if t.trust == Unset then SystemRoots else t.trust, false, opts.repeat, t.notes, None,
                  false, "", map[]),
      null, known);
    if t.informational.Some? && t.informational.value(opts) {
      b := AddNote(b.(informationalOnly := true), INFORMATIONAL_NOTE);
    } else {
      assert t.notes + [] == t.notes;
    }
  }

  function WithNote(v: ProbeTarget, note: string): ProbeTarget {
    v.(notes := v.notes + [note])
  }

  /** A note is appended, in place when the notes have room. */
  method AddNote(t: Target, note: string) returns (r: Target)
    requires Sound(t)
    modifies t.notes.backing
    ensures Sound(r) && r == t.(notes := r.notes)
    ensures r.notes.backing == t.notes.backing || fresh(r.notes.backing)
    ensures View(r) == WithNote(old(View(t)), note)
  {
    var notes := Append(t.notes, note);
    r := t.(notes := notes);
  }

  // ---------------------------------------------------------------- instantiate

  /** withCert and withoutCert */
  method CertTarget(b: Target, flag: bool, note: string, ghost known: set<object>) returns (r: Target)
    ensures Sound(r) && fresh(Owned(r)) && Owned(r) !! known && fresh(r.useClientCert)
    ensures View(r) == WithNote(View(b).(useClientCert := Some(flag)), note)
  {
    var copy := DeepCopy(b, known);
    var box := new BoolBox(flag);
    r := AddNote(copy.(useClientCert := box), note);
  }

  method CertPair(b: Target, ghost known: set<object>) returns (with: Target, without: Target)
    ensures Sound(with) && Sound(without) && Apart(with, without)
    ensures fresh(Owned(with)) && fresh(Owned(without)) && Owned(with) !! known && Owned(without) !! known
    ensures fresh(with.useClientCert) && fresh(without.useClientCert) && !ShareFlag(with, without)
    ensures [View(with), View(without)] == DualTargets(View(b))
  {
    with := CertTarget(b, true, WITH_CERT_NOTE, known);
    without := CertTarget(b, false, WITHOUT_CERT_NOTE, known + Owned(with));
  }

  /** The targets of one port. */
  method PortTargets(t: ServiceTemplate, opts: Options, port: int, base16: string, upgrades: seq<UpgradeAttempt>,
                     ghost known: set<object>)
    returns (r: seq<Target>)
    requires base16 == Base16Name(opts.clusterName) && upgrades == Upgrades(opts)
    ensures AllSound(r) && AllSeparate(r) && FlagsApart(r)
    ensures forall i | 0 <= i < |r| :: New(r[i], known)
    ensures |r| == |CertVariants(opts, t)(port)|
    ensures forall i | 0 <= i < |r| :: View(r[i]) == CertVariants(opts, t)(port)[i]
  {
    var b := NewBase(opts, t, port, base16, upgrades, known);
    assert View(b) == BaseTarget(opts, t, port);
    if t.useClientCert && opts.hasClientCert {
      var with, without := CertPair(b, known);
      r := [with, without];
    } else if opts.hasClientCert {
      var box := new BoolBox(t.useClientCert);
      r := [b.(useClientCert := box)];
    } else {
      r := [b];
    }
  }

  ghost function Known(ts: seq<Target>): set<object> {
    set i, o | 0 <= i < |ts| && o in Owned(ts[i]) :: o
  }

  /** Targets outside the memory of a separate list can be added to it. */
  lemma SeparateConcat(ts: seq<Target>, more: seq<Target>)
    requires AllSeparate(ts) && AllSeparate(more)
    requires forall j | 0 <= j < |more| :: Owned(more[j]) !! Known(ts)
    ensures AllSeparate(ts + more)
  {
    forall i, j | 0 <= i < |ts| && 0 <= j < |more| ensures Apart(ts[i], more[j]) {
      assert forall o | o in Owned(ts[i]) :: o in Known(ts);
    }
  }

  /** One target may get a piece of memory that no other target has. */
  lemma SeparateUpdate(ts: seq<Target>, n: nat, x: Target, a: object)
    requires AllSeparate(ts) && n < |ts|
    requires (a in Owned(ts[n]) || a !in Known(ts)) && Owned(x) <= Owned(ts[n]) + {a}
    ensures AllSeparate(ts[n := x])
  {
    forall i | 0 <= i < |ts| && i != n ensures Apart(ts[i], x) && Apart(x, ts[i]) {
      assert forall o | o in Owned(ts[i]) :: o in Known(ts);
      assert if i < n then Apart(ts[i], ts[n]) else Apart(ts[n], ts[i]);
    }
  }

  lemma FlagsConcat(ts: seq<Target>, more: seq<Target>)
    requires FlagsApart(ts) && FlagsApart(more)
    requires forall i, j | 0 <= i < |ts| && 0 <= j < |more| :: !ShareFlag(ts[i], more[j])
    ensures FlagsApart(ts + more)
  {
  }

  lemma FlagsKept(ts: seq<Target>, r: seq<Target>)
    requires FlagsApart(ts) && |r| == |ts|
    requires forall i | 0 <= i < |ts| :: r[i].useClientCert == ts[i].useClientCert
    ensures FlagsApart(r)
  {
    forall i, j | 0 <= i < j < |r| ensures !ShareFlag(r[i], r[j]) {
      assert !ShareFlag(ts[i], ts[j]);
    }
  }

  lemma ShowsConcat(ts: seq<Target>, vs: seq<ProbeTarget>, more: seq<Target>, ws: seq<ProbeTarget>)
    requires |ts| == |vs| && forall i | 0 <= i < |ts| :: View(ts[i]) == vs[i]
    requires |more| == |ws| && forall i | 0 <= i < |more| :: View(more[i]) == ws[i]
    ensures forall i | 0 <= i < |ts + more| :: View((ts + more)[i]) == (vs + ws)[i]
  {
  }

  /** The loop over ports */
  method AllPorts(t: ServiceTemplate, opts: Options, base16: string, upgrades: seq<UpgradeAttempt>,
                  ghost known: set<object>)
    returns (ts: seq<Target>)
    requires base16 == Base16Name(opts.clusterName) && upgrades == Upgrades(opts)
    ensures AllSound(ts) && AllSeparate(ts) && FlagsApart(ts)
    ensures forall i | 0 <= i < |ts| :: New(ts[i], known)
    ensures |ts| == |FlatMap(CertVariants(opts, t), t.ports(opts))|
    ensures forall i | 0 <= i < |ts| :: View(ts[i]) == FlatMap(CertVariants(opts, t), t.ports(opts))[i]
  {
    var ports := t.ports(opts);
    ghost var f := CertVariants(opts, t);
    ghost var vs: seq<ProbeTarget> := [];
    ts := [];
    for n := 0 to |ports|
      invariant AllSound(ts) && AllSeparate(ts) && FlagsApart(ts)
      invariant forall i | 0 <= i < |ts| :: New(ts[i], known)
      invariant vs == FlatMap(f, ports[..n]) && |ts| == |vs|
      invariant forall i | 0 <= i < |ts| :: View(ts[i]) == vs[i]
    {
      FlatMapStep(f, ports, n);
      label before:
      var more := AddPort(t, opts, ports[n], base16, upgrades, known, ts, vs);
      forall j | 0 <= j < |more| ensures New(more[j], known) {
        assert New@before(more[j], known);
      }
      SoundConcat(ts, more);
      ts, vs := ts + more, vs + f(ports[n]);
    }
    assert ports[..|ports|] == ports;
  }

  /** The targets of one more port are appended. */
  method AddPort(t: ServiceTemplate, opts: Options, port: int, base16: string, upgrades: seq<UpgradeAttempt>,
                 ghost known: set<object>, ghost ts: seq<Target>, ghost vs: seq<ProbeTarget>)
    returns (more: seq<Target>)
    requires base16 == Base16Name(opts.clusterName) && upgrades == Upgrades(opts)
    requires AllSound(ts) && AllSeparate(ts) && FlagsApart(ts)
    requires |ts| == |vs| && forall i | 0 <= i < |ts| :: View(ts[i]) == vs[i]
    ensures AllSound(more) && AllSeparate(ts + more) && FlagsApart(ts + more)
    ensures forall i | 0 <= i < |more| :: New(more[i], known)
    ensures |more| == |CertVariants(opts, t)(port)|
    ensures forall i | 0 <= i < |ts + more| :: View((ts + more)[i]) == (vs + CertVariants(opts, t)(port))[i]
  {
    more := PortTargets(t, opts, port, base16, upgrades, known + Known(ts));
    forall i | 0 <= i < |ts| ensures View(ts[i]) == vs[i] {
      assert View(ts[i]) == old(View(ts[i]));
    }
    SeparateConcat(ts, more);
    FlagsConcat(ts, more);
    ShowsConcat(ts, vs, more, CertVariants(opts, t)(port));
  }

  /** The hint is appended to the notes of the first target, in place when they have room. */
  method AddHint(ts: seq<Target>, note: string, ghost vs: seq<ProbeTarget>) returns (r: seq<Target>)
    requires AllSound(ts) && AllSeparate(ts) && FlagsApart(ts) && |ts| > 0
    requires |ts| == |vs| && forall i | 0 <= i < |ts| :: View(ts[i]) == vs[i]
    modifies ts[0].notes.backing
    ensures |r| == |ts| && AllSound(r) && AllSeparate(r) && FlagsApart(r)
    ensures r == ts[0 := ts[0].(notes := r[0].notes)]
    ensures r[0].notes.backing == ts[0].notes.backing || fresh(r[0].notes.backing)
    ensures forall i | 0 <= i < |r| :: View(r[i]) == vs[0 := WithNote(vs[0], note)][i]
  {
    ghost var known := Known(ts);
    SeparateIsNotesSeparate(ts);
    var first := AppendNote(ts, 0, note);
    SeparateUpdate(ts, 0, first, first.notes.backing);
    r := ts[0 := first];
    FlagsKept(ts, r);
  }

  method Instantiate(t: ServiceTemplate, opts: Options, base16: string, upgrades: seq<UpgradeAttempt>,
                     ghost known: set<object>)
    returns (ts: seq<Target>)
    requires base16 == Base16Name(opts.clusterName) && upgrades == Upgrades(opts)
    ensures AllSound(ts) && AllSeparate(ts) && FlagsApart(ts)
    ensures forall i | 0 <= i < |ts| :: New(ts[i], known)
    ensures |ts| == |Instantiated(opts)(t)|
    ensures forall i | 0 <= i < |ts| :: View(ts[i]) == Instantiated(opts)(t)[i]
  {
    ts := AllPorts(t, opts, base16, upgrades, known);
    if t.base16Hint && |ts| > 0 && base16 != "" {
      assert ts[0].notes.backing in Owned(ts[0]);
      ts := AddHint(ts, "Uses base16-encoded cluster name in SNI: " + base16,
                    FlatMap(CertVariants(opts, t), t.ports(opts)));
    }
  }

  // ---------------------------------------------------------------- Build

  ghost function Names(names: seq<string>): set<string> {
    set k | k in names
  }

  ghost function Keys(templates: seq<ServiceTemplate>): set<string> {
    set i | 0 <= i < |templates| :: templates[i].key
  }

  /** The keys of a filter that name no template. */
  ghost function Unknown(templates: seq<ServiceTemplate>, filter: seq<string>): set<string> {
    Names(Wanted(filter)) - Keys(templates)
  }

  lemma SelectStep(templates: seq<ServiceTemplate>, filter: seq<string>, n: nat)
    requires DistinctKeys(templates) && n < |templates|
    ensures Unknown(templates[..n + 1], filter) == Unknown(templates[..n], filter) - {templates[n].key}
    ensures Selected(templates[..n + 1], filter) ==
      if Selects(filter, templates[n].key) then Selected(templates[..n], filter) + [templates[n]]
      else Selected(templates[..n], filter)
    ensures filter != [] ==>
      (Selects(filter, templates[n].key) <==> templates[n].key in Unknown(templates[..n], filter))
  {
    var k := templates[n].key;
    assert templates[..n + 1][..n] == templates[..n];
    assert templates[..n + 1][n].key == k;
    forall i | 0 <= i < n ensures templates[..n][i].key != k {
      assert templates[i].key != templates[n].key;
    }
    forall x ensures x in Keys(templates[..n + 1]) <==> x in Keys(templates[..n]) || x == k {
      if x in Keys(templates[..n]) {
        var i :| 0 <= i < n && templates[..n][i].key == x;
        assert templates[..n + 1][i].key == x;
      }
    }
  }

  /** After `n` templates: the keys left in the filter, and the values of the targets. */
  ghost function SoFar(templates: seq<ServiceTemplate>, n: nat, opts: Options): (set<string>, seq<ProbeTarget>)
    requires n <= |templates|
  {
    (Unknown(templates[..n], opts.serviceFilter),
     FlatMap(Instantiated(opts), Selected(templates[..n], opts.serviceFilter)))
  }

  lemma SoFarStart(templates: seq<ServiceTemplate>, opts: Options)
    ensures SoFar(templates, 0, opts) == (set k | k in Wanted(opts.serviceFilter), [])
  {
    assert templates[..0] == [] && Keys([]) == {};
    assert Unknown([], opts.serviceFilter) == (set k | k in Wanted(opts.serviceFilter));
    assert Selected([], opts.serviceFilter) == [] && FlatMap(Instantiated(opts), []) == [];
  }

  lemma NothingUnknown(templates: seq<ServiceTemplate>)
    ensures Unknown(templates, []) == {}
  {
    assert Map(Normalise, []) == [] && Wanted([]) == [];
  }

  lemma SoFarStep(templates: seq<ServiceTemplate>, n: nat, opts: Options)
    requires DistinctKeys(templates) && n < |templates|
    ensures var (left, vs), t := SoFar(templates, n, opts), templates[n];
      SoFar(templates, n + 1, opts) ==
        if opts.serviceFilter == [] then (left, vs + Instantiated(opts)(t))
        else if t.key in left then (left - {t.key}, vs + Instantiated(opts)(t))
        else (left, vs)
  {
    var sel, left := Selected(templates[..n], opts.serviceFilter), Unknown(templates[..n], opts.serviceFilter);
    SelectStep(templates, opts.serviceFilter, n);
    FlatMapOfSnoc(Instantiated(opts), sel, templates[n]);
    if opts.serviceFilter == [] {
      NothingUnknown(templates[..n]);
      assert left - {templates[n].key} == left;
    } else if templates[n].key !in left {
      assert left - {templates[n].key} == left;
    }
  }

  /** The loop over templates: every selected template is instantiated and its key struck from the filter. */
  method InstantiateAll(templates: seq<ServiceTemplate>, opts: Options, base16: string,
                        upgrades: seq<UpgradeAttempt>, wanted: seq<string>)
    returns (ts: seq<Target>, tmplFilter: set<string>)
    requires DistinctKeys(templates)
    requires base16 == Base16Name(opts.clusterName) && upgrades == Upgrades(opts)
    requires wanted == Wanted(opts.serviceFilter)
    ensures tmplFilter == Unknown(templates, opts.serviceFilter)
    ensures AllSound(ts) && AllSeparate(ts) && FlagsApart(ts)
    ensures |ts| == |FlatMap(Instantiated(opts), Selected(templates, opts.serviceFilter))|
    ensures forall i | 0 <= i < |ts| ::
      View(ts[i]) == FlatMap(Instantiated(opts), Selected(templates, opts.serviceFilter))[i]
  {
    var filtering := |opts.serviceFilter| > 0;
    tmplFilter := set k | k in wanted;
    ghost var f := Instantiated(opts);
    ghost var vs: seq<ProbeTarget> := [];
    ts := [];
    SoFarStart(templates, opts);
    for n := 0 to |templates|
      invariant (tmplFilter, vs) == SoFar(templates, n, opts)
      invariant AllSound(ts) && AllSeparate(ts) && FlagsApart(ts) && |ts| == |vs|
      invariant forall i | 0 <= i < |ts| :: View(ts[i]) == vs[i]
    {
      SoFarStep(templates, n, opts);
      if !filtering || templates[n].key in tmplFilter {
        if filtering {
          tmplFilter := tmplFilter - {templates[n].key};
        }
        ts := AddTemplate(templates[n], opts, base16, upgrades, ts, vs);
        vs := vs + f(templates[n]);
      }
    }
    assert templates[..|templates|] == templates;
  }

  /** The targets of one more template are appended. */
  method AddTemplate(t: ServiceTemplate, opts: Options, base16: string, upgrades: seq<UpgradeAttempt>,
                     ts: seq<Target>, ghost vs: seq<ProbeTarget>)
    returns (r: seq<Target>)
    requires base16 == Base16Name(opts.clusterName) && upgrades == Upgrades(opts)
    requires AllSound(ts) && AllSeparate(ts) && FlagsApart(ts)
    requires |ts| == |vs| && forall i | 0 <= i < |ts| :: View(ts[i]) == vs[i]
    ensures AllSound(r) && AllSeparate(r) && FlagsApart(r)
    ensures |r| == |vs + Instantiated(opts)(t)|
    ensures forall i | 0 <= i < |r| :: View(r[i]) == (vs + Instantiated(opts)(t))[i]
  {
    var more := Instantiate(t, opts, base16, upgrades, Known(ts));
    forall i | 0 <= i < |ts| ensures View(ts[i]) == vs[i] {
      assert View(ts[i]) == old(View(ts[i]));
    }
    SeparateConcat(ts, more);
    FlagsConcat(ts, more);
    ShowsConcat(ts, vs, more, Instantiated(opts)(t));
    r := ts + more;
  }

  /** Resolving the n-th target puts a new slice into it, or leaves it alone. */
  method ResolveOne(ts: seq<Target>, n: nat, ips: seq<string>, ghost vs: seq<ProbeTarget>) returns (r: seq<Target>)
    requires AllSound(ts) && AllSeparate(ts) && n < |ts|
    requires |ts| == |vs| && forall i | 0 <= i < |ts| :: View(ts[i]) == vs[i]
    ensures |r| == |ts| && AllSound(r) && AllSeparate(r)
    ensures r == ts[n := ts[n].(dnsResolvedIPs := r[n].dnsResolvedIPs)]
    ensures r[n].dnsResolvedIPs == ts[n].dnsResolvedIPs || fresh(r[n].dnsResolvedIPs)
    ensures forall i | 0 <= i < |r| :: View(r[i]) == vs[n := ResolvedTarget(vs[n], ips)][i]
  {
    if ts[n].overrideIPs.Length > 0 || |ips| == 0 {
      assert ResolvedTarget(vs[n], ips) == vs[n];
      return ts;
    }
    ghost var known := Known(ts);
    var dns := Clone(ips);
    assert dns !in known;
    forall i | 0 <= i < |ts| ensures View(ts[i]) == vs[i] {
      assert View(ts[i]) == old(View(ts[i]));
    }
    var x := ts[n].(dnsResolvedIPs := dns);
    SeparateUpdate(ts, n, x, dns);
    assert dns != x.notes.backing by {
      assert x.notes.backing in known;
    }
    r := ts[n := x];
  }

  method ResolveAll(ts: seq<Target>, dns: Resolver, ghost vs: seq<ProbeTarget>) returns (r: seq<Target>)
    requires AllSound(ts) && AllSeparate(ts)
    requires |ts| == |vs| && forall i | 0 <= i < |ts| :: View(ts[i]) == vs[i]
    ensures |r| == |ts| && AllSound(r) && AllSeparate(r)
    ensures forall i | 0 <= i < |r| :: View(r[i]) == Resolved(vs, dns)[i]
    ensures forall i | 0 <= i < |r| ::
      r[i] == ts[i].(dnsResolvedIPs := r[i].dnsResolvedIPs)
      && (r[i].dnsResolvedIPs == ts[i].dnsResolvedIPs || fresh(r[i].dnsResolvedIPs))
  {
    r := ts;
    ghost var ws := vs;
    for n := 0 to |ts|
      invariant |r| == |ts| == |ws| && AllSound(r) && AllSeparate(r)
      invariant forall i | 0 <= i < |r| :: View(r[i]) == ws[i]
      invariant forall i | 0 <= i < |ts| :: ws[i] == if i < n then Resolved(vs, dns)[i] else vs[i]
      invariant forall i | 0 <= i < |r| ::
        r[i] == ts[i].(dnsResolvedIPs := r[i].dnsResolvedIPs)
        && (r[i].dnsResolvedIPs == ts[i].dnsResolvedIPs || fresh(r[i].dnsResolvedIPs))
    {
      assert View(r[n]) == vs[n];
      var ips := dns(n, r[n].address);
      r := ResolveOne(r, n, ips, ws);
      ws := ws[n := ResolvedTarget(ws[n], ips)];
    }
  }

  /** append(sliceutil.CloneStrings(notes), note): always new memory. */
  method NotedCopy(notes: Slice, note: string, ghost known: set<object>) returns (s: Slice)
    requires Wf(notes)
    ensures Wf(s) && fresh(s.backing) && s.backing !in known
    ensures Contents(s) == Contents(notes) + [note]
  {
    var copy := Clone(Contents(notes));
    s := Append(Slice(copy, copy.Length), note);
  }

  /** What the proxy duplication guarantees: a copy has all memory of the original but its notes. */
  ghost predicate IsTwin(t: Target, a: Target) {
    a == t.(useProxy := a.useProxy, proxyURL := a.proxyURL, notes := a.notes)
  }

  method ProxyTwin(t: Target, url: string, ghost known: set<object>) returns (with: Target, without: Target)
    requires Sound(t) && Owned(t) <= known
    ensures Sound(with) && Sound(without) && IsTwin(t, with) && IsTwin(t, without)
    ensures fresh(with.notes.backing) && fresh(without.notes.backing)
    ensures with.notes.backing !in known && without.notes.backing !in known
    ensures with.notes.backing != without.notes.backing
    ensures [View(with), View(without)] == ProxyPair(url)(View(t))
  {
    var a := NotedCopy(t.notes, "Using proxy: " + url, known);
    with := t.(useProxy := true, proxyURL := url, notes := a);
    var b := NotedCopy(t.notes, DIRECT_NOTE, known + {a.backing});
    without := t.(useProxy := false, notes := b);
    assert Shared(with) == Shared(t) && Shared(without) == Shared(t);
    assert forall o | o in Shared(t) :: o in Owned(t);
  }

  ghost function NotesOf(r: seq<Target>): set<object> {
    set i | 0 <= i < |r| :: r[i].notes.backing
  }

  /** Notes lie outside the memory of the original targets, and apart from one another. */
  ghost predicate NotesApart(r: seq<Target>, known: set<object>) {
    && (forall i | 0 <= i < |r| :: r[i].notes.backing !in known)
    && (forall i, j | 0 <= i < j < |r| :: r[i].notes.backing != r[j].notes.backing)
  }

  lemma NotesApartPair(r: seq<Target>, known: set<object>, a: Target, b: Target)
    requires NotesApart(r, known)
    requires a.notes.backing !in known + NotesOf(r) && b.notes.backing !in known + NotesOf(r)
    requires a.notes.backing != b.notes.backing
    ensures NotesApart(r + [a, b], known)
  {
    assert forall i | 0 <= i < |r| :: r[i].notes.backing in NotesOf(r);
  }

  /** The targets of `r` are the twins of the first `n` targets of `ts`. */
  ghost predicate TwinsOf(ts: seq<Target>, n: nat, r: seq<Target>) {
    n <= |ts| && |r| == 2 * n && forall i | 0 <= i < |r| :: IsTwin(ts[i / 2], r[i])
  }

  lemma TwinsPair(ts: seq<Target>, n: nat, r: seq<Target>, a: Target, b: Target)
    requires n < |ts| && TwinsOf(ts, n, r) && IsTwin(ts[n], a) && IsTwin(ts[n], b)
    ensures TwinsOf(ts, n + 1, r + [a, b])
  {
  }

  lemma SoundConcat(ts: seq<Target>, more: seq<Target>)
    requires AllSound(ts) && AllSound(more)
    ensures AllSound(ts + more)
  {
  }

  lemma TwinsHaveSeparateNotes(ts: seq<Target>, r: seq<Target>)
    requires NotesApart(r, Known(ts)) && TwinsOf(ts, |ts|, r)
    ensures NotesSeparate(r)
  {
    forall i, j | 0 <= i < |r| && 0 <= j < |r| && i != j ensures r[i].notes.backing !in Owned(r[j]) {
      assert IsTwin(ts[j / 2], r[j]) && Shared(r[j]) <= Owned(ts[j / 2]) <= Known(ts) by {
        KnownHas(ts, j / 2);
      }
      assert if i < j then r[i].notes.backing != r[j].notes.backing else r[j].notes.backing != r[i].notes.backing;
    }
  }

  lemma KnownHas(ts: seq<Target>, n: nat)
    requires n < |ts|
    ensures Owned(ts[n]) <= Known(ts)
  {
    assert forall o | o in Owned(ts[n]) :: o in Known(ts);
  }

  /** One round of the proxy loop. */
  method AddProxyTwin(ts: seq<Target>, n: nat, url: string, ghost vs: seq<ProbeTarget>,
                      r: seq<Target>, ghost ws: seq<ProbeTarget>)
    returns (s: seq<Target>)
    requires n < |ts| == |vs| && AllSound(ts) && TwinsOf(ts, n, r)
    requires forall i | 0 <= i < |ts| :: View(ts[i]) == vs[i]
    requires AllSound(r) && NotesApart(r, Known(ts)) && |r| == |ws|
    requires forall i | 0 <= i < |r| :: View(r[i]) == ws[i]
    ensures forall i | 0 <= i < |ts| :: View(ts[i]) == vs[i]
    ensures TwinsOf(ts, n + 1, s)
    ensures AllSound(s) && NotesApart(s, Known(ts)) && |s| == |ws + ProxyPair(url)(vs[n])|
    ensures forall i | 0 <= i < |s| :: View(s[i]) == (ws + ProxyPair(url)(vs[n]))[i]
  {
    ghost var known := Known(ts);
    KnownHas(ts, n);
    var with, without := ProxyTwin(ts[n], url, known + NotesOf(r));
    forall i | 0 <= i < |ts| ensures View(ts[i]) == vs[i] {
      assert View(ts[i]) == old(View(ts[i]));
    }
    forall i | 0 <= i < |r| ensures View(r[i]) == ws[i] {
      assert View(r[i]) == old(View(r[i]));
    }
    NotesApartPair(r, known, with, without);
    TwinsPair(ts, n, r, with, without);
    SoundConcat(r, [with, without]);
    ShowsConcat(r, ws, [with, without], ProxyPair(url)(vs[n]));
    s := r + [with, without];
  }

  /** Every target twice: through the proxy and direct. */
  method DuplicateForProxy(ts: seq<Target>, url: string, ghost vs: seq<ProbeTarget>) returns (r: seq<Target>)
    requires AllSound(ts)
    requires |ts| == |vs| && forall i | 0 <= i < |ts| :: View(ts[i]) == vs[i]
    ensures AllSound(r) && NotesSeparate(r) && |r| == |FlatMap(ProxyPair(url), vs)|
    ensures forall i | 0 <= i < |r| :: View(r[i]) == FlatMap(ProxyPair(url), vs)[i]
    ensures TwinsOf(ts, |ts|, r)
  {
    ghost var f := ProxyPair(url);
    ghost var ws: seq<ProbeTarget> := [];
    r := [];
    for n := 0 to |ts|
      invariant AllSound(r) && NotesApart(r, Known(ts)) && |r| == |ws|
      invariant ws == FlatMap(f, vs[..n])
      invariant forall i | 0 <= i < |r| :: View(r[i]) == ws[i]
      invariant forall i | 0 <= i < |ts| :: View(ts[i]) == vs[i]
      invariant TwinsOf(ts, n, r)
    {
      FlatMapStep(f, vs, n);
      r := AddProxyTwin(ts, n, url, vs, r, ws);
      ws := ws + f(vs[n]);
    }
    assert vs[..|ts|] == vs;
    TwinsHaveSeparateNotes(ts, r);
  }

  /** One target without and one with the extra headers, both deep copies. */
  method HeaderTwin(t: Target, headers: map<string, string>, names: string, ghost known: set<object>)
    returns (without: Target, with: Target)
    ensures Sound(without) && Sound(with) && Apart(without, with)
    ensures fresh(Owned(without)) && fresh(Owned(with)) && Owned(without) !! known && Owned(with) !! known
    ensures without.useClientCert == with.useClientCert == t.useClientCert
    ensures [View(without), View(with)] == HeaderPair(headers, names)(View(t))
  {
    without := DeepCopy(t, known);
    without := AddNote(without, WITHOUT_HEADERS_NOTE);
    with := DeepCopyWithHeaders(t, headers, "With extra headers: " + names, known + Owned(without));
  }

  method DeepCopyWithHeaders(t: Target, headers: map<string, string>, note: string, ghost known: set<object>)
    returns (r: Target)
    ensures Sound(r) && fresh(Owned(r)) && Owned(r) !! known && r.useClientCert == t.useClientCert
    ensures View(r) == WithNote(View(t).(extraHeaders := headers), note)
  {
    r := DeepCopy(t, known);
    var copy := new HeaderMap(headers);
    r := AddNote(r.(extraHeaders := copy), note);
  }

  /** The targets of `r` are deep copies of the first `n` targets of `ts`, two of each: they keep its flag. */
  ghost predicate FlagsOf(ts: seq<Target>, n: nat, r: seq<Target>) {
    n <= |ts| && |r| == 2 * n && forall i | 0 <= i < |r| :: r[i].useClientCert == ts[i / 2].useClientCert
  }

  lemma FlagsPair(ts: seq<Target>, n: nat, r: seq<Target>, a: Target, b: Target)
    requires n < |ts| && FlagsOf(ts, n, r) && a.useClientCert == b.useClientCert == ts[n].useClientCert
    ensures FlagsOf(ts, n + 1, r + [a, b])
  {
  }

  /** One round of the header loop. */
  method AddHeaderTwin(ts: seq<Target>, n: nat, headers: map<string, string>, names: string,
                       ghost vs: seq<ProbeTarget>, ghost r: seq<Target>, ghost ws: seq<ProbeTarget>)
    returns (more: seq<Target>)
    requires n < |ts| == |vs| && FlagsOf(ts, n, r)
    requires forall i | 0 <= i < |ts| :: View(ts[i]) == vs[i]
    requires AllSound(r) && AllSeparate(r) && |r| == |ws|
    requires forall i | 0 <= i < |r| :: View(r[i]) == ws[i]
    ensures forall i | 0 <= i < |ts| :: View(ts[i]) == vs[i]
    ensures AllSound(more) && AllSeparate(r + more) && FlagsOf(ts, n + 1, r + more)
    ensures forall i | 0 <= i < |more| :: fresh(Owned(more[i]))
    ensures |r + more| == |ws + HeaderPair(headers, names)(vs[n])|
    ensures forall i | 0 <= i < |r + more| :: View((r + more)[i]) == (ws + HeaderPair(headers, names)(vs[n]))[i]
  {
    var without, with := HeaderTwin(ts[n], headers, names, Known(r));
    forall i | 0 <= i < |ts| ensures View(ts[i]) == vs[i] {
      assert View(ts[i]) == old(View(ts[i]));
    }
    forall i | 0 <= i < |r| ensures View(r[i]) == ws[i] {
      assert View(r[i]) == old(View(r[i]));
    }
    SeparateConcat(r, [without, with]);
    FlagsPair(ts, n, r, without, with);
    ShowsConcat(r, ws, [without, with], HeaderPair(headers, names)(vs[n]));
    more := [without, with];
  }

  /** Every target twice: without and with the extra headers. */
  method DuplicateForHeaders(ts: seq<Target>, headers: map<string, string>, names: string, ghost vs: seq<ProbeTarget>)
    returns (r: seq<Target>)
    requires |ts| == |vs| && forall i | 0 <= i < |ts| :: View(ts[i]) == vs[i]
    ensures AllSound(r) && AllSeparate(r) && |r| == |FlatMap(HeaderPair(headers, names), vs)|
    ensures forall i | 0 <= i < |r| :: View(r[i]) == FlatMap(HeaderPair(headers, names), vs)[i]
    ensures forall i | 0 <= i < |r| :: fresh(Owned(r[i]))
    ensures FlagsOf(ts, |ts|, r)
  {
    ghost var f := HeaderPair(headers, names);
    ghost var ws: seq<ProbeTarget> := [];
    r := [];
    for n := 0 to |ts|
      invariant AllSound(r) && AllSeparate(r) && |r| == |ws|
      invariant ws == FlatMap(f, vs[..n])
      invariant forall i | 0 <= i < |r| :: View(r[i]) == ws[i]
      invariant forall i | 0 <= i < |r| :: fresh(Owned(r[i]))
      invariant forall i | 0 <= i < |ts| :: View(ts[i]) == vs[i]
      invariant FlagsOf(ts, n, r)
    {
      FlatMapStep(f, vs, n);
      var more := AddHeaderTwin(ts, n, headers, names, vs, r, ws);
      SoundConcat(r, more);
      r, ws := r + more, ws + f(vs[n]);
    }
    assert vs[..|ts|] == vs;
  }

  lemma {:induction false} SortedNamesAreSorted(keys: set<string>)
    ensures multiset(SortedNames(keys)) == multiset(keys)
    ensures Ordered(Before, SortedNames(keys))
  {
    if keys != {} {
      var m := Least(keys);
      var rest := SortedNames(keys - {m});
      SortedNamesAreSorted(keys - {m});
      assert multiset(keys) == multiset{m} + multiset(keys - {m});
      OrderedBehindLeast(m, rest);
    }
  }

  lemma OrderedBehindLeast(m: string, rest: seq<string>)
    requires Ordered(Before, rest)
    requires forall k | k in rest :: Before(m, k)
    ensures Ordered(Before, [m] + rest)
  {
    forall i, j | 0 <= i < j < |[m] + rest| ensures !Before(([m] + rest)[j], ([m] + rest)[i]) {
      if i == 0 {
        BeforeIsStrictTotal(m, rest[j - 1]);
      }
    }
  }

  lemma BeforeIsStrictWeakOrder()
    ensures StrictWeakOrder(Before)
  {
    forall x, y, z
      ensures !Before(x, x)
      ensures Before(x, y) && Before(y, z) ==> Before(x, z)
      ensures !Before(x, y) && !Before(y, z) ==> !Before(x, z)
    {
      BeforeIsStrictTotal(x, y);
      BeforeIsStrictTotal(y, z);
      BeforeIsStrictTotal(x, z);
      if Before(x, y) && Before(y, z) {
        BeforeIsTransitive(x, y, z);
      }
      if Before(z, y) && Before(y, x) {
        BeforeIsTransitive(z, y, x);
      }
    }
  }

  lemma OrderedNamesAreUnique(a: seq<string>, b: seq<string>)
    requires multiset(a) == multiset(b) && Ordered(Before, a) && Ordered(Before, b)
    ensures a == b
  {
    var le := (x: string, y: string) => !Before(y, x);
    forall x, y | le(x, y) && le(y, x) ensures x == y {
      BeforeIsStrictTotal(x, y);
    }
    SortedPermutationIsUnique(le, a, b);
  }

  /** joinMapKeys: whatever order the map is iterated in, the sorted names are the same. */
  method JoinMapKeys(headers: map<string, string>) returns (names: string)
    ensures names == HeaderNames(headers)
  {
    var keys: seq<string> := [];
    var rest := headers.Keys;
    while rest != {}
      invariant rest <= headers.Keys
      invariant multiset(keys) + multiset(rest) == multiset(headers.Keys)
      decreases |rest|
    {
      var k :| k in rest;
      assert multiset(rest) == multiset{k} + multiset(rest - {k});
      keys, rest := keys + [k], rest - {k};
    }
    var sorted := Clone(keys);
    BeforeIsStrictWeakOrder();
    SortSlice(sorted, Before);
    SortedNamesAreSorted(headers.Keys);
    OrderedNamesAreUnique(sorted[..], SortedNames(headers.Keys));
    names := Join(sorted[..], ", ");
  }

  datatype BuildResult =
    | Built(versionBand: Band, base16ClusterName: string, defaultUpgradePath: seq<UpgradeAttempt>,
            targets: seq<Target>)
    | UnknownServices(keys: set<string>)

  lemma SeparateIsNotesSeparate(ts: seq<Target>)
    requires AllSeparate(ts)
    ensures NotesSeparate(ts)
  {
    forall i, j | 0 <= i < |ts| && 0 <= j < |ts| && i != j ensures ts[i].notes.backing !in Owned(ts[j]) {
      assert if i < j then Apart(ts[i], ts[j]) else Apart(ts[j], ts[i]);
      assert ts[i].notes.backing in Owned(ts[i]);
    }
  }

  lemma SeparateSharesFlags(ts: seq<Target>)
    requires AllSeparate(ts)
    ensures NothingShared(ts) <==> FlagsApart(ts)
  {
    forall i, j | 0 <= i < j < |ts| ensures Share(ts[i], ts[j]) <==> ShareFlag(ts[i], ts[j]) {
      assert Apart(ts[i], ts[j]);
    }
  }

  lemma ReachesShared(t: Target)
    ensures (exists o | o in Shared(t) :: Reaches(t, o)) <==> !ListFree(View(t))
  {
    if !ListFree(View(t)) {
      assert Reaches(t, t.extraHeaders) || Reaches(t, t.dnsResolvedIPs) || Reaches(t, t.overrideIPs)
        || Reaches(t, t.additionalSNIs) || Reaches(t, t.alpns) || Reaches(t, t.upgradeSequence);
    }
  }

  /** Twins share whatever list or map there is. */
  lemma TwinsShareLists(t: Target, a: Target, b: Target)
    requires IsTwin(t, a) && IsTwin(t, b)
    requires a.notes.backing !in Owned(b) && b.notes.backing !in Owned(a)
    ensures ShareLists(a, b) <==> !ListFree(View(t))
  {
    ReachesShared(t);
    if o :| o in Shared(t) && Reaches(t, o) {
      assert o in Owned(a) && Reaches(a, o) && Reaches(b, o);
    }
    if o :| o in Owned(a) && Reaches(a, o) && Reaches(b, o) {
      assert o in Owned(b);
      assert o in Shared(t) && Reaches(t, o);
    }
  }

  /** A target with nothing that a copy could share but its notes. */
  predicate Shareless(v: ProbeTarget) {
    ListFree(v) && v.useClientCert.None?
  }

  /** Twins share memory exactly when the original has a list, a map or a flag. */
  lemma TwinsShare(t: Target, a: Target, b: Target)
    requires IsTwin(t, a) && IsTwin(t, b)
    requires a.notes.backing !in Owned(b) && b.notes.backing !in Owned(a)
    ensures Share(a, b) <==> !Shareless(View(t))
  {
    TwinsShareLists(t, a, b);
  }

  lemma TwinsAt(ts: seq<Target>, r: seq<Target>, b: nat)
    requires TwinsOf(ts, |ts|, r) && NotesSeparate(r) && b < |ts|
    ensures Share(r[2 * b], r[2 * b + 1]) <==> !Shareless(View(ts[b]))
  {
    assert IsTwin(ts[2 * b / 2], r[2 * b]) && IsTwin(ts[(2 * b + 1) / 2], r[2 * b + 1]);
    TwinsShare(ts[b], r[2 * b], r[2 * b + 1]);
  }

  /** Duplication for a proxy shares nothing exactly when there is nothing to share. */
  lemma TwinsShareNothing(ts: seq<Target>, r: seq<Target>)
    requires TwinsOf(ts, |ts|, r) && NotesSeparate(r)
    ensures NothingShared(r) <==> forall i | 0 <= i < |ts| :: Shareless(View(ts[i]))
  {
    if NothingShared(r) {
      forall b | 0 <= b < |ts| ensures Shareless(View(ts[b])) {
        TwinsAt(ts, r, b);
        assert !Share(r[2 * b], r[2 * b + 1]);
      }
    }
    if forall i | 0 <= i < |ts| :: Shareless(View(ts[i])) {
      forall i, j | 0 <= i < j < |r| ensures !Share(r[i], r[j]) {
        assert IsTwin(ts[i / 2], r[i]) && Shareless(View(ts[i / 2]));
        OnlyNotes(ts[i / 2], r[i], r[j]);
      }
    }
  }

  lemma OnlyNotes(t: Target, a: Target, b: Target)
    requires IsTwin(t, a) && Shareless(View(t)) && a.notes.backing !in Owned(b)
    ensures !Share(a, b)
  {
    forall o | o in Owned(a) && Reaches(a, o) ensures o == a.notes.backing {
    }
    assert forall o | o in Owned(a) && Reaches(b, o) :: o in Owned(b);
  }

  /** Deep copies have no flag in common exactly when no original has a flag. */
  lemma CopiesShareFlags(ts: seq<Target>, r: seq<Target>)
    requires FlagsOf(ts, |ts|, r)
    ensures FlagsApart(r) <==> forall i | 0 <= i < |ts| :: ts[i].useClientCert == null
  {
    if FlagsApart(r) {
      forall b | 0 <= b < |ts| ensures ts[b].useClientCert == null {
        assert r[2 * b].useClientCert == ts[2 * b / 2].useClientCert;
        assert r[2 * b + 1].useClientCert == ts[(2 * b + 1) / 2].useClientCert;
        assert !ShareFlag(r[2 * b], r[2 * b + 1]);
      }
    }
    if forall i | 0 <= i < |ts| :: ts[i].useClientCert == null {
      assert forall i | 0 <= i < |r| :: r[i].useClientCert == null;
    }
  }

  lemma CopiesShareNothing(ts: seq<Target>, r: seq<Target>)
    requires FlagsOf(ts, |ts|, r) && AllSeparate(r)
    ensures NothingShared(r) <==> forall i | 0 <= i < |ts| :: ts[i].useClientCert == null
  {
    SeparateSharesFlags(r);
    CopiesShareFlags(ts, r);
  }

  /** When the duplications of a plan share nothing. */
  ghost predicate Unshared(opts: Options, vs: seq<ProbeTarget>) {
    || (ProxyURL(opts.proxy) == "" && opts.extraHeaders == map[])
    || forall v | v in vs :: v.useClientCert.None? && (opts.extraHeaders != map[] || ListFree(v))
  }

  /** The duplications of a resolved plan. */
  method Duplicate(ts: seq<Target>, opts: Options, ghost vs: seq<ProbeTarget>) returns (r: seq<Target>)
    requires AllSound(ts) && AllSeparate(ts) && FlagsApart(ts)
    requires |ts| == |vs| && forall i | 0 <= i < |ts| :: View(ts[i]) == vs[i]
    ensures |r| == |Headered(opts, Proxied(opts, vs))|
    ensures forall i | 0 <= i < |r| :: View(r[i]) == Headered(opts, Proxied(opts, vs))[i]
    ensures AllSound(r) && NotesSeparate(r)
    ensures NothingShared(r) <==> Unshared(opts, vs)
    ensures ProxyURL(opts.proxy) != "" && opts.extraHeaders == map[] ==> TwinsOf(ts, |ts|, r)
  {
    r := ts;
    var url := ProxyURL(opts.proxy);
    if url != "" {
      r := DuplicateForProxy(ts, url, vs);
      TwinsShareNothing(ts, r);
      SharelessViews(ts, vs);
    } else {
      SeparateIsNotesSeparate(ts);
      SeparateSharesFlags(ts);
    }
    if |opts.extraHeaders| > 0 {
      r := CopyForHeaders(r, opts, vs);
    }
  }

  /** The second duplication, whose copies keep the flags. */
  method CopyForHeaders(ts: seq<Target>, opts: Options, ghost vs: seq<ProbeTarget>) returns (r: seq<Target>)
    requires opts.extraHeaders != map[]
    requires |ts| == |Proxied(opts, vs)| && forall i | 0 <= i < |ts| :: View(ts[i]) == Proxied(opts, vs)[i]
    ensures |r| == |Headered(opts, Proxied(opts, vs))|
    ensures forall i | 0 <= i < |r| :: View(r[i]) == Headered(opts, Proxied(opts, vs))[i]
    ensures AllSound(r) && AllSeparate(r) && NotesSeparate(r)
    ensures NothingShared(r) <==> Flagless(vs)
  {
    var names := JoinMapKeys(opts.extraHeaders);
    r := DuplicateForHeaders(ts, opts.extraHeaders, names, Proxied(opts, vs));
    SeparateIsNotesSeparate(r);
    CopiesShareNothing(ts, r);
    FlaglessTargets(ts, opts, vs);
  }

  lemma FlaglessViews(ts: seq<Target>, vs: seq<ProbeTarget>)
    requires |ts| == |vs| && forall i | 0 <= i < |ts| :: View(ts[i]) == vs[i]
    ensures (forall i | 0 <= i < |ts| :: ts[i].useClientCert == null) <==> Flagless(vs)
  {
    forall i | 0 <= i < |ts| ensures ts[i].useClientCert == null <==> vs[i].useClientCert.None? {
      assert View(ts[i]) == vs[i];
    }
    if v :| v in vs && !v.useClientCert.None? {
      var i :| 0 <= i < |vs| && vs[i] == v;
      assert ts[i].useClientCert != null;
    }
  }

  lemma FlaglessTargets(ts: seq<Target>, opts: Options, vs: seq<ProbeTarget>)
    requires |ts| == |Proxied(opts, vs)| && forall i | 0 <= i < |ts| :: View(ts[i]) == Proxied(opts, vs)[i]
    ensures (forall i | 0 <= i < |ts| :: ts[i].useClientCert == null) <==> Flagless(vs)
  {
    FlaglessViews(ts, Proxied(opts, vs));
    PairFlags(ProxyURL(opts.proxy), vs);
  }

  predicate Flagless(vs: seq<ProbeTarget>) {
    forall v | v in vs :: v.useClientCert.None?
  }

  lemma SharelessViews(ts: seq<Target>, vs: seq<ProbeTarget>)
    requires |ts| == |vs| && forall i | 0 <= i < |ts| :: View(ts[i]) == vs[i]
    ensures (forall i | 0 <= i < |ts| :: Shareless(View(ts[i]))) <==> (forall v | v in vs :: Shareless(v))
  {
    if v :| v in vs && !Shareless(v) {
      var i :| 0 <= i < |vs| && vs[i] == v;
      assert !Shareless(View(ts[i]));
    }
  }

  lemma {:induction false} PairFlags(url: string, vs: seq<ProbeTarget>)
    ensures Flagless(FlatMap(ProxyPair(url), vs)) <==> Flagless(vs)
  {
    if vs != [] {
      var n := |vs| - 1;
      var pair := ProxyPair(url)(vs[n]);
      PairFlags(url, vs[..n]);
      FlaglessConcat(vs[..n], [vs[n]]);
      FlaglessConcat(FlatMap(ProxyPair(url), vs[..n]), pair);
      assert vs == vs[..n] + [vs[n]];
      assert pair[0].useClientCert == pair[1].useClientCert == vs[n].useClientCert;
      assert Flagless(pair) <==> Flagless([vs[n]]) by {
        assert pair == [pair[0], pair[1]] && pair[0] in pair && vs[n] in [vs[n]];
      }
    }
  }

  lemma FlaglessConcat(a: seq<ProbeTarget>, b: seq<ProbeTarget>)
    ensures Flagless(a + b) <==> Flagless(a) && Flagless(b)
  {
    assert forall v :: v in a + b <==> v in a || v in b;
  }

  /** Build: the plan is the declarative one, unless the filter names an unknown service.  Notes are never
      shared.  Nothing is shared exactly when there is nothing to probe, or nothing is duplicated, or no
      client certificate is configured and there are extra headers or no target has a list to share. */
  method Build(templates: seq<ServiceTemplate>, opts: Options, dns: Resolver) returns (plan: BuildResult)
    requires DistinctKeys(templates)
    ensures plan.UnknownServices? <==> Unknown(templates, opts.serviceFilter) != {}
    ensures plan.UnknownServices? ==> plan.keys == Unknown(templates, opts.serviceFilter)
    ensures plan.Built? ==>
      && |plan.targets| == |PlanTargets(templates, opts, dns)|
      && forall i | 0 <= i < |plan.targets| :: View(plan.targets[i]) == PlanTargets(templates, opts, dns)[i]
    ensures plan.Built? ==> AllSound(plan.targets) && NotesSeparate(plan.targets)
    ensures plan.Built? ==> (NothingShared(plan.targets) <==>
      || BaseTargets(templates, opts, dns) == []
      || (ProxyURL(opts.proxy) == "" && opts.extraHeaders == map[])
      || (!opts.hasClientCert
          && (opts.extraHeaders != map[] || forall v | v in BaseTargets(templates, opts, dns) :: ListFree(v))))
    ensures plan.Built? ==>
      && IsUpgradePath(plan.defaultUpgradePath, Parsed(opts.teleportVersion).0, Parsed(opts.teleportVersion).1)
      && plan.defaultUpgradePath == Upgrades(opts)
      && plan.versionBand == VersionBand(Parsed(opts.teleportVersion).0)
      && plan.base16ClusterName == Base16Name(opts.clusterName)
  {
    var major, minor := ParseVersion(opts.teleportVersion);
    var upgrades := UpgradeSequence(major, minor);
    var base16 := Base16Name(opts.clusterName);
    var wanted := MakeUnique(opts.serviceFilter);
    var ts, tmplFilter := InstantiateAll(templates, opts, base16, upgrades, wanted);
    if tmplFilter != {} {
      return UnknownServices(tmplFilter);
    }
    ghost var vs := FlatMap(Instantiated(opts), Selected(templates, opts.serviceFilter));
    ghost var unresolved := ts;
    ts := ResolveAll(ts, dns, vs);
    FlagsKept(unresolved, ts);
    ts := Duplicate(ts, opts, Resolved(vs, dns));
    BaseFlags(templates, opts, dns);
    UpgradePathMeaning(major, minor);
    plan := Built(VersionBand(major), base16, upgrades, ts);
  }

  // ---------------------------------------------------------------- what separation is good for

  /** Writing a note of one target changes no other target of the plan. */
  method WriteNote(ts: seq<Target>, i: nat, k: nat, note: string)
    requires NotesSeparate(ts) && i < |ts| && k < ts[i].notes.backing.Length
    modifies ts[i].notes.backing
    ensures forall j | 0 <= j < |ts| && j != i :: View(ts[j]) == old(View(ts[j]))
  {
    ts[i].notes.backing[k] := note;
    forall j | 0 <= j < |ts| && j != i ensures View(ts[j]) == old(View(ts[j])) {
      assert ts[i].notes.backing !in Owned(ts[j]);
    }
  }

  /** Appending to the notes of one target, in place or not, changes no other target. */
  method AppendNote(ts: seq<Target>, i: nat, note: string) returns (r: Target)
    requires AllSound(ts) && NotesSeparate(ts) && i < |ts|
    modifies ts[i].notes.backing
    ensures Sound(r) && r == ts[i].(notes := r.notes)
    ensures r.notes.backing == ts[i].notes.backing || fresh(r.notes.backing)
    ensures View(r) == WithNote(old(View(ts[i])), note)
    ensures forall j | 0 <= j < |ts| && j != i :: View(ts[j]) == old(View(ts[j]))
  {
    r := AddNote(ts[i], note);
    forall j | 0 <= j < |ts| && j != i ensures View(ts[j]) == old(View(ts[j])) {
      assert ts[i].notes.backing !in Owned(ts[j]);
    }
  }

  /** When nothing is shared, writing through any slice of one target changes no other target. */
  method WriteElement<T>(ts: seq<Target>, i: nat, list: array<T>, k: nat, x: T)
    requires NothingShared(ts) && i < |ts| && list as object in Owned(ts[i]) && k < list.Length
    modifies list
    ensures forall j | 0 <= j < |ts| && j != i :: View(ts[j]) == old(View(ts[j]))
  {
    NotReached(ts, i, list);
    list[k] := x;
    forall j | 0 <= j < |ts| && j != i ensures View(ts[j]) == old(View(ts[j])) {
      assert list as object !in Owned(ts[j]);
    }
  }

  /** So does writing to its header map. */
  method WriteHeader(ts: seq<Target>, i: nat, name: string, value: string)
    requires NothingShared(ts) && i < |ts| && ts[i].extraHeaders.entries != map[]
    modifies ts[i].extraHeaders
    ensures ts[i].extraHeaders.entries == old(ts[i].extraHeaders.entries)[name := value]
    ensures forall j | 0 <= j < |ts| && j != i :: View(ts[j]) == old(View(ts[j]))
  {
    NotReached(ts, i, ts[i].extraHeaders);
    ts[i].extraHeaders.entries := ts[i].extraHeaders.entries[name := value];
    forall j | 0 <= j < |ts| && j != i ensures View(ts[j]) == old(View(ts[j])) {
      assert ts[i].extraHeaders !in Owned(ts[j]);
    }
  }

  /** What one target reaches is no part of another. */
  lemma NotReached(ts: seq<Target>, i: nat, o: object)
    requires NothingShared(ts) && i < |ts| && o in Owned(ts[i]) && Reaches(ts[i], o)
    ensures forall j | 0 <= j < |ts| && j != i :: o !in Owned(ts[j])
  {
    forall j | 0 <= j < |ts| && j != i ensures o !in Owned(ts[j]) {
      if o in Owned(ts[j]) {
        assert Reaches(ts[j], o);
        assert if i < j then ShareLists(ts[i], ts[j]) else ShareLists(ts[j], ts[i]);
      }
    }
  }

  /** So does setting its certificate flag. */
  method WriteFlag(ts: seq<Target>, i: nat, value: bool)
    requires NothingShared(ts) && i < |ts| && ts[i].useClientCert != null
    modifies ts[i].useClientCert
    ensures View(ts[i]) == old(View(ts[i])).(useClientCert := Some(value))
    ensures forall j | 0 <= j < |ts| && j != i :: View(ts[j]) == old(View(ts[j]))
  {
    ts[i].useClientCert.value := value;
    forall j | 0 <= j < |ts| && j != i ensures View(ts[j]) == old(View(ts[j])) {
      assert if i < j then !Share(ts[i], ts[j]) else !Share(ts[j], ts[i]);
      assert ts[i].useClientCert as object !in Owned(ts[j]);
    }
  }

  /** Between two copies of one target, deep or shallow, setting the flag does show. */
  method WriteFlagThroughCopy(a: Target, b: Target, value: bool)
    requires ShareFlag(a, b)
    modifies a.useClientCert
    ensures View(b) == old(View(b)).(useClientCert := Some(value))
  {
    a.useClientCert.value := value;
  }

  /** Between the twins of a plan duplicated for a proxy alone, a write does show. */
  method WriteThroughTwin(t: Target, a: Target, b: Target, k: nat, x: string)
    requires IsTwin(t, a) && IsTwin(t, b) && k < a.alpns.Length
    modifies a.alpns
    ensures View(b).alpns == old(View(b)).alpns[k := x]
  {
    a.alpns[k] := x;
  }
}
