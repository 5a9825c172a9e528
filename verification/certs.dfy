/** Certificates: what is recorded of one, how a chain is captured, and what stays true over a run
    (internal/probe/certinfo.go, refcerts.go and the certificate part of engine.go). */
module Certs {
  import opened Text
  import opened Hex
  import opened Lists

  // ---------------------------------------------------------------- the library, as an oracle

  datatype X509 = X509(
    raw: seq<byte>,
    subject: string,
    issuer: string,
    issuerCommonName: string,
    subjectName: Name,
    issuerName: Name,
    dnsNames: seq<string>,
    ipAddresses: seq<string>,
    uris: seq<string>,
    emails: seq<string>,
    keyUsage: seq<string>,
    extKeyUsage: seq<string>,
    extensions: seq<Extension>,
    subjectKeyId: seq<byte>,
    authorityKeyId: seq<byte>)

  /** The lists of a distinguished name. */
  datatype Name = Name(
    organization: seq<string>,
    organizationalUnit: seq<string>,
    country: seq<string>,
    province: seq<string>,
    locality: seq<string>)

  datatype Extension = Extension(oid: string, name: string, critical: bool, value: string)

  datatype PemBlock = PemBlock(kind: string, bytes: seq<byte>)

  /** SHA-256, PEM and X.509 parsing: nothing is known of them but that pem.Decode consumes input. */
  datatype Crypto = Crypto(
    sha256: seq<byte> -> seq<byte>,
    pemDecode: seq<byte> -> Option<(PemBlock, seq<byte>)>,
    pemEncode: PemBlock -> seq<byte>,
    parseCertificate: seq<byte> -> Option<X509>,
    keyPair: (seq<byte>, seq<byte>) -> bool)

  ghost predicate Consumes(lib: Crypto) {
    forall d :: lib.pemDecode(d).Some? ==> |lib.pemDecode(d).value.1| < |d|
  }

  function Fingerprint(lib: Crypto, c: X509): string {
    HexText(lib.sha256(c.raw), Upper)
  }

  /** The certificate in the first PEM block, if it is one. */
  function FirstCert(lib: Crypto, pem: seq<byte>): Option<X509> {
    match lib.pemDecode(pem)
    case None => None
    case Some((block, _)) =>
      if block.kind != "CERTIFICATE" then None else lib.parseCertificate(block.bytes)
  }

  // ---------------------------------------------------------------- suspicion of interception

  datatype ReferenceCA = ReferenceCA(name: string, fingerprint: string, subjectCN: string)

  const REFERENCE_CAS: seq<ReferenceCA> := [
    ReferenceCA("Let's Encrypt ISRG Root X1",
                "96BCEC06264976F37460779ACF28C5A7CFE8A3C0AAE11A8FFCEE05C0BDDF08C6", "ISRG Root X1"),
    ReferenceCA("Let's Encrypt ISRG Root X2",
                "69729B8E15A86EFC177A57AFB7171DFC64ADD28C2FCA8CF1507E34453CCB1470", "ISRG Root X2"),
    ReferenceCA("DigiCert Global Root CA",
                "4348A0E9444C78CB265E058D5E8944B4D84F9662BD26DB257F8934A443C70161", "DigiCert Global Root CA"),
    ReferenceCA("DigiCert Global Root G2",
                "CB3CCBB76031E5E0138F8DD39A23F9DE47FFC35E43C1144CEA27D46A5AB1CB5F", "DigiCert Global Root G2")]

  datatype TrustView = TrustView(
    trustedBy: seq<string>, mitmSuspected: bool, mitmReason: string, matchesReference: bool)

  predicate Confirms(ref: ReferenceCA, issuerCN: string, issuerFP: string) {
    issuerCN == ref.subjectCN && issuerFP == ref.fingerprint
  }

  predicate Contradicts(ref: ReferenceCA, issuerCN: string, issuerFP: string) {
    issuerCN == ref.subjectCN && issuerFP != "" && issuerFP != ref.fingerprint
  }

  /** The references that confirm an issuer, by name and in order. */
  function Confirming(refs: seq<ReferenceCA>, issuerCN: string, issuerFP: string): seq<string> {
    if refs == [] then [] else
      var front, ref := refs[..|refs| - 1], refs[|refs| - 1];
      Confirming(front, issuerCN, issuerFP) + if Confirms(ref, issuerCN, issuerFP) then [ref.name] else []
  }

  /** The reason given by the last reference that contradicts an issuer. */
  function Reason(refs: seq<ReferenceCA>, issuerCN: string, issuerFP: string): string {
    if refs == [] then "" else
      var ref := refs[|refs| - 1];
      if Contradicts(ref, issuerCN, issuerFP) then "Issuer CN matches " + ref.name + " but fingerprint differs"
      else Reason(refs[..|refs| - 1], issuerCN, issuerFP)
  }

  predicate Contradicted(refs: seq<ReferenceCA>, issuerCN: string, issuerFP: string) {
    exists i | 0 <= i < |refs| :: Contradicts(refs[i], issuerCN, issuerFP)
  }

  function Suspicion(refs: seq<ReferenceCA>, issuerCN: string, issuerFP: string): Option<TrustView> {
    var names := Confirming(refs, issuerCN, issuerFP);
    if !Contradicted(refs, issuerCN, issuerFP) && names == [] then None
    else Some(TrustView(names, Contradicted(refs, issuerCN, issuerFP), Reason(refs, issuerCN, issuerFP), names != []))
  }

  lemma ReferenceNamesAreDistinct()
    ensures forall i, j | 0 <= i < j < |REFERENCE_CAS| :: REFERENCE_CAS[i].subjectCN != REFERENCE_CAS[j].subjectCN
  {
    var refs := REFERENCE_CAS;
    assert |refs[0].subjectCN| == |refs[1].subjectCN| == 12 && |refs[2].subjectCN| == |refs[3].subjectCN| == 23;
    assert refs[0].subjectCN[11] != refs[1].subjectCN[11] && refs[2].subjectCN[21] != refs[3].subjectCN[21];
  }

  lemma {:induction false} NoReference(refs: seq<ReferenceCA>, cn: string, fp: string)
    requires forall r | r in refs :: r.subjectCN != cn
    ensures Confirming(refs, cn, fp) == [] && Reason(refs, cn, fp) == "" && !Contradicted(refs, cn, fp)
  {
    if refs != [] {
      assert refs[|refs| - 1] in refs;
      NoReference(refs[..|refs| - 1], cn, fp);
    }
    forall i | 0 <= i < |refs| ensures !Contradicts(refs[i], cn, fp) {
      assert refs[i] in refs;
    }
  }

  /** One reference alone carries the name: it alone decides. */
  lemma {:induction false} SoleReference(refs: seq<ReferenceCA>, i: nat, cn: string, fp: string)
    requires i < |refs| && refs[i].subjectCN == cn
    requires forall j | 0 <= j < |refs| && j != i :: refs[j].subjectCN != cn
    ensures Confirming(refs, cn, fp) == if fp == refs[i].fingerprint then [refs[i].name] else []
    ensures Contradicted(refs, cn, fp) <==> fp != "" && fp != refs[i].fingerprint
    ensures Reason(refs, cn, fp) ==
      if fp != "" && fp != refs[i].fingerprint then "Issuer CN matches " + refs[i].name + " but fingerprint differs"
      else ""
  {
    var n := |refs| - 1;
    if i < n {
      SoleReference(refs[..n], i, cn, fp);
    } else {
      NoReference(refs[..n], cn, fp);
    }
    if Contradicted(refs, cn, fp) {
      var j :| 0 <= j < |refs| && Contradicts(refs[j], cn, fp);
      assert j == i;
    }
    if fp != "" && fp != refs[i].fingerprint {
      assert Contradicts(refs[i], cn, fp);
    }
  }

  /** The verdict on a certificate whose issuer has the name `cn` and was found in the chain as `fp`. */
  ghost predicate IsVerdict(cn: string, fp: string, trust: Option<TrustView>) {
    && (fp == "" || (forall r | r in REFERENCE_CAS :: cn != r.subjectCN) ==> trust == None)
    && (forall r | r in REFERENCE_CAS && cn == r.subjectCN && fp == r.fingerprint ::
          trust == Some(TrustView([r.name], false, "", true)))
    && (forall r | r in REFERENCE_CAS && cn == r.subjectCN && fp != "" && fp != r.fingerprint ::
          trust == Some(TrustView([], true, "Issuer CN matches " + r.name + " but fingerprint differs", false)))
  }

  /** Against the built-in references, a certificate is confirmed, and not suspect, when its issuer carries
      the name and the fingerprint of a reference; suspect, and not confirmed, when it carries the name with
      another fingerprint; and not judged at all otherwise. */
  lemma ReferenceVerdict(issuerCN: string, issuerFP: string)
    ensures IsVerdict(issuerCN, issuerFP, Suspicion(REFERENCE_CAS, issuerCN, issuerFP))
  {
    var refs := REFERENCE_CAS;
    ReferenceNamesAreDistinct();
    assert refs[0].fingerprint != "" && refs[1].fingerprint != "" && refs[2].fingerprint != ""
      && refs[3].fingerprint != "";
    if i :| 0 <= i < |refs| && issuerCN == refs[i].subjectCN {
      SoleReference(refs, i, issuerCN, issuerFP);
      forall r | r in refs && r.subjectCN == issuerCN ensures r == refs[i] {
        var j :| 0 <= j < |refs| && refs[j] == r;
        assert j == i;
      }
    } else {
      NoReference(refs, issuerCN, issuerFP);
    }
  }

  // ---------------------------------------------------------------- what is recorded

  datatype Source = NoSource | Server | Client | HostCASource

  datatype Entry = Entry(
    fingerprint: string,
    cert: X509,
    pem: seq<byte>,
    authorityKeyID: string,
    subjectKeyID: string,
    issuerFingerprint: string,
    source: Source,
    trust: Option<TrustView>)

  /** ParseCertInfo */
  function Parsed(lib: Crypto, c: X509, pem: seq<byte>): Entry {
    Entry(Fingerprint(lib, c), c, pem, KeyIDText(c.authorityKeyId), KeyIDText(c.subjectKeyId), "", NoSource, None)
  }

  datatype NameList = Organization | OrganizationalUnit | Country | Province | Locality

  /** The slices of a record. */
  datatype ListField =
    | Subject(list: NameList) | Issuer(list: NameList)
    | SanDNS | SanIP | SanURI | SanEmail | KeyUsage | ExtKeyUsage | Extensions

  datatype Item = Value(text: string) | Extended(extension: Extension)

  const NAME_LISTS: seq<NameList> := [Organization, OrganizationalUnit, Country, Province, Locality]
  const LIST_FIELDS: seq<ListField> :=
    Map((n: NameList) => Subject(n), NAME_LISTS) + Map((n: NameList) => Issuer(n), NAME_LISTS)
    + [SanDNS, SanIP, SanURI, SanEmail, KeyUsage, ExtKeyUsage, Extensions]

  function ListOfName(name: Name, n: NameList): seq<string> {
    match n
    case Organization => name.organization
    case OrganizationalUnit => name.organizationalUnit
    case Country => name.country
    case Province => name.province
    case Locality => name.locality
  }

  function Texts(list: seq<string>): seq<Item> {
    Map((s: string) => Value(s), list)
  }

  /** What a slice of a certificate's record holds. */
  function ListOf(c: X509, f: ListField): seq<Item> {
    match f
    case Subject(n) => Texts(ListOfName(c.subjectName, n))
    case Issuer(n) => Texts(ListOfName(c.issuerName, n))
    case SanDNS => Texts(c.dnsNames)
    case SanIP => Texts(c.ipAddresses)
    case SanURI => Texts(c.uris)
    case SanEmail => Texts(c.emails)
    case KeyUsage => Texts(c.keyUsage)
    case ExtKeyUsage => Texts(c.extKeyUsage)
    case Extensions => Map((e: Extension) => Extended(e), c.extensions)
  }

  lemma EveryListField(f: ListField)
    ensures f in LIST_FIELDS
  {
    var i := if f.Subject? || f.Issuer? then NameListAt(f.list) else 0;
    assert LIST_FIELDS[i] == Subject(NAME_LISTS[i]) && LIST_FIELDS[5 + i] == Issuer(NAME_LISTS[i]);
    assert LIST_FIELDS[10..] == [SanDNS, SanIP, SanURI, SanEmail, KeyUsage, ExtKeyUsage, Extensions];
    assert f.SanDNS? || f.SanIP? || f.SanURI? || f.SanEmail? || f.KeyUsage? || f.ExtKeyUsage? || f.Extensions?
      ==> f in LIST_FIELDS[10..];
  }

  function NameListAt(n: NameList): (i: nat)
    ensures i < |NAME_LISTS| && NAME_LISTS[i] == n
  {
    match n
    case Organization => 0
    case OrganizationalUnit => 1
    case Country => 2
    case Province => 3
    case Locality => 4
  }

  /** The slices of a new record: every list of the certificate in new memory, an empty one nil, which
      here is absent. */
  method NewLists(c: X509) returns (lists: map<ListField, array<Item>>)
    ensures forall f :: f in lists <==> ListOf(c, f) != []
    ensures forall f | f in lists :: fresh(lists[f]) && lists[f][..] == ListOf(c, f)
  {
    lists := map[];
    for n := 0 to |LIST_FIELDS|
      invariant forall f :: f in lists <==> f in LIST_FIELDS[..n] && ListOf(c, f) != []
      invariant forall f | f in lists :: fresh(lists[f]) && lists[f][..] == ListOf(c, f)
    {
      var f, list := LIST_FIELDS[n], ListOf(c, LIST_FIELDS[n]);
      TakeOneMore(LIST_FIELDS, n);
      if |list| > 0 {
        var a := new Item[|list|](i requires 0 <= i < |list| => list[i]);
        assert a[..] == list;
        lists := lists[f := a];
      }
    }
    assert LIST_FIELDS[..|LIST_FIELDS|] == LIST_FIELDS;
    forall f ensures f in LIST_FIELDS {
      EveryListField(f);
    }
  }

  class TrustInfo {
    var trustedBy: seq<string>
    var mitmSuspected: bool
    var mitmReason: string
    var matchesReference: bool

    constructor ()
      ensures View() == TrustView([], false, "", false)
    {
      trustedBy, mitmSuspected, mitmReason, matchesReference := [], false, "", false;
    }

    function View(): TrustView
      reads this
    {
      TrustView(trustedBy, mitmSuspected, mitmReason, matchesReference)
    }
  }

  class CertInfo {
    const fingerprint: string
    const cert: X509
    const pem: seq<byte>
    const authorityKeyID: string
    const subjectKeyID: string
    var issuerFingerprint: string
    var source: Source
    var trustStatus: TrustInfo?
    /** The slices that are not nil. */
    var lists: map<ListField, array<Item>>

    /** ParseCertInfo */
    constructor Parse(lib: Crypto, c: X509, pem: seq<byte>)
      ensures View() == Parsed(lib, c, pem) && trustStatus == null
      ensures forall f :: f in lists <==> ListOf(c, f) != []
      ensures forall f | f in lists :: fresh(lists[f]) && lists[f][..] == ListOf(c, f)
    {
      this.fingerprint, this.cert, this.pem := Fingerprint(lib, c), c, pem;
      this.authorityKeyID, this.subjectKeyID := KeyIDText(c.authorityKeyId), KeyIDText(c.subjectKeyId);
      this.issuerFingerprint, this.source, this.trustStatus := "", NoSource, null;
      new;
      lists := NewLists(c);
    }

    /** A copy of the fields: the trust pointer and the slices are those of the original. */
    constructor Copy(v: CertInfo)
      ensures View() == v.View() && trustStatus == v.trustStatus && lists == v.lists
    {
      this.fingerprint, this.cert, this.pem := v.fingerprint, v.cert, v.pem;
      this.authorityKeyID, this.subjectKeyID := v.authorityKeyID, v.subjectKeyID;
      this.issuerFingerprint, this.source, this.trustStatus := v.issuerFingerprint, v.source, v.trustStatus;
      this.lists := v.lists;
    }

    function View(): Entry
      reads this, trustStatus
    {
      Entry(fingerprint, cert, pem, authorityKeyID, subjectKeyID, issuerFingerprint, source,
            if trustStatus == null then None else Some(trustStatus.View()))
    }

    method SetIssuerFingerprint(fingerprint: string)
      modifies this
      ensures View() == old(View()).(issuerFingerprint := fingerprint) && trustStatus == old(trustStatus)
    {
      issuerFingerprint := fingerprint;
    }

    method SetSource(source: Source)
      modifies this
      ensures View() == old(View()).(source := source) && trustStatus == old(trustStatus)
    {
      this.source := source;
    }
  }

  /** A record and a shallow copy of it. */
  ghost predicate IsCopy(v: CertInfo, copy: CertInfo)
    reads v, copy
  {
    copy.trustStatus == v.trustStatus && copy.lists == v.lists
  }

  /** Every record of `copies` is a shallow copy of the record under the same key, and none of `certs`. */
  ghost predicate AreCopies(certs: map<string, CertInfo>, copies: map<string, CertInfo>)
    reads certs.Values, copies.Values
  {
    && copies.Keys == certs.Keys
    && (forall k | k in copies :: IsCopy(certs[k], copies[k]))
    && forall k, j | k in copies && j in certs :: copies[k] != certs[j]
  }

  /** The values of collected records. */
  ghost function Shown(infos: map<string, CertInfo>): map<string, Entry>
    reads infos.Values, set k | k in infos :: infos[k].trustStatus
  {
    map k | k in infos :: infos[k].View()
  }

  method CheckMITMSuspicion(cert: CertInfo, refs: seq<ReferenceCA>) returns (t: TrustInfo?)
    ensures (if t == null then None else Some(t.View()))
      == Suspicion(refs, cert.cert.issuerCommonName, cert.issuerFingerprint)
    ensures t != null ==> fresh(t)
  {
    var trust := new TrustInfo();
    ghost var cn, fp := cert.cert.issuerCommonName, cert.issuerFingerprint;
    for n := 0 to |refs|
      invariant fresh(trust)
      invariant trust.trustedBy == Confirming(refs[..n], cn, fp) && trust.mitmReason == Reason(refs[..n], cn, fp)
      invariant trust.mitmSuspected == Contradicted(refs[..n], cn, fp)
      invariant trust.matchesReference == (trust.trustedBy != [])
    {
      var ref := refs[n];
      assert refs[..n + 1][..n] == refs[..n] && refs[..n + 1][n] == ref;
      assert Contradicted(refs[..n + 1], cn, fp) <==> Contradicted(refs[..n], cn, fp) || Contradicts(ref, cn, fp) by {
        ContradictedStep(refs, n, cn, fp);
      }
      if cert.cert.issuerCommonName == ref.subjectCN {
        if cert.issuerFingerprint != "" && cert.issuerFingerprint != ref.fingerprint {
          trust.mitmSuspected := true;
          trust.mitmReason := "Issuer CN matches " + ref.name + " but fingerprint differs";
        } else if cert.issuerFingerprint == ref.fingerprint {
          trust.matchesReference := true;
          trust.trustedBy := trust.trustedBy + [ref.name];
        }
      }
    }
    assert refs[..|refs|] == refs;
    if !trust.mitmSuspected && |trust.trustedBy| == 0 {
      return null;
    }
    return trust;
  }

  lemma ContradictedStep(refs: seq<ReferenceCA>, n: nat, cn: string, fp: string)
    requires n < |refs|
    ensures Contradicted(refs[..n + 1], cn, fp) <==> Contradicted(refs[..n], cn, fp) || Contradicts(refs[n], cn, fp)
  {
    var front := refs[..n + 1];
    assert front[n] == refs[n];
    if Contradicted(refs[..n], cn, fp) {
      var i :| 0 <= i < n && Contradicts(refs[..n][i], cn, fp);
      assert Contradicts(front[i], cn, fp);
    }
    if Contradicted(front, cn, fp) {
      var i :| 0 <= i < n + 1 && Contradicts(front[i], cn, fp);
      assert i < n ==> Contradicts(refs[..n][i], cn, fp);
    }
  }

  // ---------------------------------------------------------------- capturing a chain

  function Fingerprints(lib: Crypto, chain: seq<X509>): (r: seq<string>)
    ensures |r| == |chain| && forall i | 0 <= i < |r| :: r[i] == Fingerprint(lib, chain[i])
  {
    seq(|chain|, i requires 0 <= i < |chain| => Fingerprint(lib, chain[i]))
  }

  /** The linear search that the index replaces: the last certificate of the chain with this subject
      key identifier, by its bytes. */
  function LastWithKey(lib: Crypto, chain: seq<X509>, keyID: seq<byte>): string {
    if chain == [] then ""
    else if chain[|chain| - 1].subjectKeyId == keyID then Fingerprint(lib, chain[|chain| - 1])
    else LastWithKey(lib, chain[..|chain| - 1], keyID)
  }

  function IssuerIn(lib: Crypto, chain: seq<X509>, c: X509): string {
    if c.authorityKeyId == [] then "" else LastWithKey(lib, chain, c.authorityKeyId)
  }

  /** What is stored for a certificate first seen in `chain`. */
  function ServerEntry(lib: Crypto, chain: seq<X509>, c: X509): Entry {
    Parsed(lib, c, lib.pemEncode(PemBlock("CERTIFICATE", c.raw))).(
      source := Server,
      issuerFingerprint := IssuerIn(lib, chain, c),
      trust := Suspicion(REFERENCE_CAS, c.issuerCommonName, IssuerIn(lib, chain, c)))
  }

  type Store = map<string, Entry>

  function AddNew<V>(m: map<string, V>, k: string, v: V): map<string, V> {
    if k in m then m else m[k := v]
  }

  /** Adding pairs in order, each only if its key is new. */
  function AddAll<V>(m: map<string, V>, ks: seq<string>, vs: seq<V>): map<string, V>
    requires |ks| == |vs|
  {
    if ks == [] then m else
      var n := |ks| - 1;
      AddNew(AddAll(m, ks[..n], vs[..n]), ks[n], vs[n])
  }

  lemma AddAllStep<V>(m: map<string, V>, ks: seq<string>, vs: seq<V>, n: nat)
    requires |ks| == |vs| && n < |ks|
    ensures AddAll(m, ks[..n + 1], vs[..n + 1]) == AddNew(AddAll(m, ks[..n], vs[..n]), ks[n], vs[n])
  {
    assert ks[..n + 1][..n] == ks[..n] && vs[..n + 1][..n] == vs[..n];
  }

  function ServerEntries(lib: Crypto, chain: seq<X509>): (r: seq<Entry>)
    ensures |r| == |chain| && forall i | 0 <= i < |r| :: r[i] == ServerEntry(lib, chain, chain[i])
  {
    seq(|chain|, i requires 0 <= i < |chain| => ServerEntry(lib, chain, chain[i]))
  }

  /** The store after a chain: only certificates not seen before are recorded. */
  function Captured(lib: Crypto, store: Store, chain: seq<X509>): Store {
    AddAll(store, Fingerprints(lib, chain), ServerEntries(lib, chain))
  }

  /** The first loop of captureCertificateDetails: a map from printed subject key identifiers to
      fingerprints.  Looking an identifier up in it is the linear search through the chain. */
  method IndexByKey(lib: Crypto, chain: seq<X509>) returns (index: map<string, string>)
    ensures forall id | id != [] ::
      (if KeyIDText(id) in index then index[KeyIDText(id)] else "") == LastWithKey(lib, chain, id)
  {
    index := map[];
    for n := 0 to |chain|
      invariant forall id | id != [] ::
        (if KeyIDText(id) in index then index[KeyIDText(id)] else "") == LastWithKey(lib, chain[..n], id)
    {
      var c := chain[n];
      assert chain[..n + 1][..n] == chain[..n];
      var fp := HexText(lib.sha256(c.raw), Upper);
      if |c.subjectKeyId| > 0 {
        var text := FormatKeyID(c.subjectKeyId);
        forall id | id != [] && KeyIDText(id) == text ensures id == c.subjectKeyId {
          KeyIDTextIsInjective(id, c.subjectKeyId);
        }
        index := index[text := fp];
      }
    }
    assert chain[..|chain|] == chain;
  }

  ghost predicate IsLastWithKey(chain: seq<X509>, keyID: seq<byte>, i: nat) {
    i < |chain| && chain[i].subjectKeyId == keyID && forall j | i < j < |chain| :: chain[j].subjectKeyId != keyID
  }

  /** The search finds the last certificate with the key identifier (at index `i`), or gives nothing
      when there is none (`i` is -1). */
  lemma {:induction false} LastWithKeyMeaning(lib: Crypto, chain: seq<X509>, keyID: seq<byte>) returns (i: int)
    ensures i >= 0 ==> IsLastWithKey(chain, keyID, i) && LastWithKey(lib, chain, keyID) == Fingerprint(lib, chain[i])
    ensures i < 0 ==>
      LastWithKey(lib, chain, keyID) == "" && forall j | 0 <= j < |chain| :: chain[j].subjectKeyId != keyID
  {
    var n := |chain| - 1;
    if chain == [] {
      i := -1;
    } else if chain[n].subjectKeyId == keyID {
      i := n;
    } else {
      i := LastWithKeyMeaning(lib, chain[..n], keyID);
      assert forall j | 0 <= j < n :: chain[..n][j] == chain[j];
    }
  }

  lemma {:induction false} AddAllKeeps<V>(m: map<string, V>, ks: seq<string>, vs: seq<V>)
    requires |ks| == |vs|
    ensures forall k | k in m :: k in AddAll(m, ks, vs) && AddAll(m, ks, vs)[k] == m[k]
  {
    if ks != [] {
      AddAllKeeps(m, ks[..|ks| - 1], vs[..|ks| - 1]);
    }
  }

  lemma {:induction false} AddAllKeys<V>(m: map<string, V>, ks: seq<string>, vs: seq<V>)
    requires |ks| == |vs|
    ensures forall k :: k in AddAll(m, ks, vs) <==> k in m || k in ks
  {
    if ks != [] {
      var n := |ks| - 1;
      AddAllKeys(m, ks[..n], vs[..n]);
      assert ks == ks[..n] + [ks[n]];
    }
  }

  lemma {:induction false} AddAllFirst<V>(m: map<string, V>, ks: seq<string>, vs: seq<V>, k: string)
    requires |ks| == |vs| && k in ks && k !in m
    ensures k in AddAll(m, ks, vs) && FirstIndex(ks, k) < |ks| && AddAll(m, ks, vs)[k] == vs[FirstIndex(ks, k)]
  {
    var n := |ks| - 1;
    AddAllKeys(m, ks[..n], vs[..n]);
    assert ks == ks[..n] + [ks[n]];
    if k in ks[..n] {
      AddAllFirst(m, ks[..n], vs[..n], k);
      FirstIndexIs(ks, k, FirstIndex(ks[..n], k));
    } else {
      FirstIndexIs(ks, k, n);
    }
  }

  /** What capturing a chain means: old entries stay as they were, the keys gained are the chain's
      fingerprints, and each new entry is that of the first certificate with its fingerprint. */
  lemma CapturedMeaning(lib: Crypto, store: Store, chain: seq<X509>)
    ensures var after := Captured(lib, store, chain);
      && (forall k | k in store :: k in after && after[k] == store[k])
      && (forall k :: k in after <==> k in store || k in Fingerprints(lib, chain))
      && (forall k | k in after && k !in store ::
            var i := FirstIndex(Fingerprints(lib, chain), k);
            i < |chain| && after[k] == ServerEntry(lib, chain, chain[i]))
  {
    var fps, es := Fingerprints(lib, chain), ServerEntries(lib, chain);
    AddAllKeeps(store, fps, es);
    AddAllKeys(store, fps, es);
    forall k | k in fps && k !in store
      ensures FirstIndex(fps, k) < |chain| && AddAll(store, fps, es)[k] == es[FirstIndex(fps, k)]
    {
      AddAllFirst(store, fps, es, k);
    }
  }

  /** The issuer link of a certificate: the last one in the chain whose subject key identifier is its
      authority key identifier, or none. */
  ghost predicate IsLink(lib: Crypto, chain: seq<X509>, c: X509, link: string) {
    && (forall i: nat | c.authorityKeyId != [] && IsLastWithKey(chain, c.authorityKeyId, i) ::
          link == Fingerprint(lib, chain[i]))
    && (c.authorityKeyId == [] || (forall i | 0 <= i < |chain| :: chain[i].subjectKeyId != c.authorityKeyId)
        ==> link == "")
  }

  lemma LinkMeaning(lib: Crypto, chain: seq<X509>, c: X509)
    ensures IsLink(lib, chain, c, IssuerIn(lib, chain, c))
  {
    var n := LastWithKeyMeaning(lib, chain, c.authorityKeyId);
    forall i: nat | IsLastWithKey(chain, c.authorityKeyId, i) ensures i == n {
      assert n >= 0 ==> IsLastWithKey(chain, c.authorityKeyId, n);
    }
  }

  /** The record of a certificate that a server presented in `chain`, field by field. */
  ghost predicate IsServerRecord(lib: Crypto, chain: seq<X509>, c: X509, e: Entry) {
    && HexBytes(e.fingerprint) == Some(lib.sha256(c.raw))
    && e.cert == c && e.pem == lib.pemEncode(PemBlock("CERTIFICATE", c.raw))
    && e.subjectKeyID == KeyIDText(c.subjectKeyId) && e.authorityKeyID == KeyIDText(c.authorityKeyId)
    && e.source == Server
    && IsLink(lib, chain, c, e.issuerFingerprint)
    && IsVerdict(c.issuerCommonName, e.issuerFingerprint, e.trust)
  }

  lemma ServerEntryMeaning(lib: Crypto, chain: seq<X509>, c: X509)
    ensures IsServerRecord(lib, chain, c, ServerEntry(lib, chain, c))
  {
    HexRoundTrip(lib.sha256(c.raw), Upper);
    LinkMeaning(lib, chain, c);
    ReferenceVerdict(c.issuerCommonName, IssuerIn(lib, chain, c));
  }

  /** A fingerprint that is new in a chain gets the record of the first certificate with it. */
  lemma CapturedRecord(lib: Crypto, store: Store, chain: seq<X509>, i: nat)
    requires i < |chain| && Fingerprint(lib, chain[i]) !in store
    requires forall j | 0 <= j < i :: Fingerprint(lib, chain[j]) != Fingerprint(lib, chain[i])
    ensures var k, after := Fingerprint(lib, chain[i]), Captured(lib, store, chain);
      k in after && IsServerRecord(lib, chain, chain[i], after[k])
  {
    var fps := Fingerprints(lib, chain);
    CapturedMeaning(lib, store, chain);
    assert fps[i] == Fingerprint(lib, chain[i]);
    assert forall j | 0 <= j < i :: fps[j] == Fingerprint(lib, chain[j]);
    FirstIndexIs(fps, fps[i], i);
    ServerEntryMeaning(lib, chain, chain[i]);
  }

  function FirstIndex(s: seq<string>, k: string): (i: nat)
    ensures i <= |s| && k !in s[..i]
    ensures i < |s| ==> s[i] == k
  {
    if s == [] || s[0] == k then 0 else 1 + FirstIndex(s[1..], k)
  }

  lemma FirstIndexIs(s: seq<string>, k: string, n: nat)
    requires n < |s| && s[n] == k && k !in s[..n]
    ensures FirstIndex(s, k) == n
  {
    var i := FirstIndex(s, k);
    assert forall j | 0 <= j < i :: s[..i][j] == s[j];
    assert forall j | 0 <= j < n :: s[..n][j] == s[j];
  }

  // ---------------------------------------------------------------- over a whole run

  /** The store after capturing chains one after the other. */
  function CapturedAll(lib: Crypto, store: Store, chains: seq<seq<X509>>): Store {
    if chains == [] then store else
      var last := chains[|chains| - 1];
      Captured(lib, CapturedAll(lib, store, chains[..|chains| - 1]), last)
  }

  lemma CapturedAllStep(lib: Crypto, store: Store, chains: seq<seq<X509>>, chain: seq<X509>)
    ensures CapturedAll(lib, store, chains + [chain])
      == Captured(lib, CapturedAll(lib, store, chains), chain)
  {
    assert (chains + [chain])[..|chains|] == chains;
  }

  /** Every key is its entry's fingerprint, and every issuer link leads to a key. */
  ghost predicate WellLinked(store: Store) {
    && (forall k | k in store :: store[k].fingerprint == k)
    && (forall k | k in store && store[k].issuerFingerprint != "" :: store[k].issuerFingerprint in store)
  }

  lemma IssuerIsInChain(lib: Crypto, chain: seq<X509>, c: X509)
    ensures IssuerIn(lib, chain, c) != "" ==> IssuerIn(lib, chain, c) in Fingerprints(lib, chain)
  {
    var i := LastWithKeyMeaning(lib, chain, c.authorityKeyId);
    if IssuerIn(lib, chain, c) != "" {
      assert Fingerprints(lib, chain)[i] == Fingerprint(lib, chain[i]);
    }
  }

  lemma CaptureKeepsLinks(lib: Crypto, store: Store, chain: seq<X509>)
    requires WellLinked(store)
    ensures WellLinked(Captured(lib, store, chain))
  {
    var after := Captured(lib, store, chain);
    CapturedMeaning(lib, store, chain);
    var fps := Fingerprints(lib, chain);
    forall k | k in after && k !in store
      ensures after[k].fingerprint == k
      ensures after[k].issuerFingerprint != "" ==> after[k].issuerFingerprint in after
    {
      var c := chain[FirstIndex(fps, k)];
      IssuerIsInChain(lib, chain, c);
    }
  }

  /** One more chain: nothing is lost or changed, and the chain's own fingerprints are there. */
  lemma CaptureStep(lib: Crypto, store: Store, chain: seq<X509>)
    ensures var after := Captured(lib, store, chain);
      && (forall k | k in store :: k in after && after[k] == store[k])
      && (forall k | k in Fingerprints(lib, chain) :: k in after)
  {
    CapturedMeaning(lib, store, chain);
  }

  /** Over any sequence of probes all links hold. */
  lemma {:induction false} RunKeepsLinks(lib: Crypto, store: Store, chains: seq<seq<X509>>)
    requires WellLinked(store)
    ensures WellLinked(CapturedAll(lib, store, chains))
  {
    if chains != [] {
      var n := |chains| - 1;
      RunKeepsLinks(lib, store, chains[..n]);
      CaptureKeepsLinks(lib, CapturedAll(lib, store, chains[..n]), chains[n]);
    }
  }

  /** Over any sequence of probes keys only grow, and an entry once stored never changes. */
  lemma {:induction false} RunKeepsEntries(lib: Crypto, store: Store, chains: seq<seq<X509>>, i: nat)
    requires i <= |chains|
    ensures var before, after := CapturedAll(lib, store, chains[..i]), CapturedAll(lib, store, chains);
      forall k | k in before :: k in after && after[k] == before[k]
  {
    var n := |chains| - 1;
    if i == |chains| {
      assert chains[..i] == chains;
    } else {
      RunKeepsEntries(lib, store, chains[..n], i);
      assert chains[..n][..i] == chains[..i];
      CaptureStep(lib, CapturedAll(lib, store, chains[..n]), chains[n]);
    }
  }

  /** Every fingerprint of every captured chain is a key at the end. */
  lemma RunHasChain(lib: Crypto, store: Store, chains: seq<seq<X509>>, i: nat)
    requires i < |chains|
    ensures forall k | k in Fingerprints(lib, chains[i]) :: k in CapturedAll(lib, store, chains)
  {
    assert chains[..i + 1][..i] == chains[..i] && chains[..i + 1][i] == chains[i];
    CaptureStep(lib, CapturedAll(lib, store, chains[..i]), chains[i]);
    RunKeepsEntries(lib, store, chains, i + 1);
  }

  /** Some chain has a certificate with this fingerprint. */
  ghost predicate Presented(lib: Crypto, chains: seq<seq<X509>>, k: string) {
    exists n | 0 <= n < |chains| :: k in Fingerprints(lib, chains[n])
  }

  lemma PresentedLast(lib: Crypto, chains: seq<seq<X509>>, k: string)
    requires chains != []
    ensures var m := |chains| - 1;
      Presented(lib, chains, k) <==> Presented(lib, chains[..m], k) || k in Fingerprints(lib, chains[m])
  {
    var m := |chains| - 1;
    if n :| 0 <= n < m && k in Fingerprints(lib, chains[..m][n]) {
      assert chains[n] == chains[..m][n];
    }
    if n :| 0 <= n < |chains| && k in Fingerprints(lib, chains[n]) {
      assert n < m ==> chains[..m][n] == chains[n];
    }
  }

  /** The keys after a run are those from before and the fingerprints of all chains. */
  lemma {:induction false} RunKeys(lib: Crypto, store: Store, chains: seq<seq<X509>>, k: string)
    ensures k in CapturedAll(lib, store, chains) <==> k in store || Presented(lib, chains, k)
  {
    if chains != [] {
      var m := |chains| - 1;
      RunKeys(lib, store, chains[..m], k);
      CapturedMeaning(lib, CapturedAll(lib, store, chains[..m]), chains[m]);
      PresentedLast(lib, chains, k);
    }
  }

  /** Over a whole run: a fingerprint not known before has, at the end, the record of the first certificate
      with it in the first chain that shows it. */
  lemma RunRecord(lib: Crypto, store: Store, chains: seq<seq<X509>>, n: nat, i: nat)
    requires n < |chains| && i < |chains[n]| && Fingerprint(lib, chains[n][i]) !in store
    requires !Presented(lib, chains[..n], Fingerprint(lib, chains[n][i]))
    requires forall j | 0 <= j < i :: Fingerprint(lib, chains[n][j]) != Fingerprint(lib, chains[n][i])
    ensures var k, after := Fingerprint(lib, chains[n][i]), CapturedAll(lib, store, chains);
      k in after && IsServerRecord(lib, chains[n], chains[n][i], after[k])
  {
    RunKeys(lib, store, chains[..n], Fingerprint(lib, chains[n][i]));
    CapturedRecord(lib, CapturedAll(lib, store, chains[..n]), chains[n], i);
    RunOneMore(lib, store, chains, n);
    RunKeepsEntries(lib, store, chains, n + 1);
  }

  lemma RunOneMore(lib: Crypto, store: Store, chains: seq<seq<X509>>, n: nat)
    requires n < |chains|
    ensures CapturedAll(lib, store, chains[..n + 1]) == Captured(lib, CapturedAll(lib, store, chains[..n]), chains[n])
  {
    assert chains[..n + 1][..n] == chains[..n] && chains[..n + 1][n] == chains[n];
  }

  // ---------------------------------------------------------------- bundles

  /** The certificates of a bundle with their blocks, in order. */
  ghost function BundleCerts(lib: Crypto, data: seq<byte>): seq<(PemBlock, X509)>
    requires Consumes(lib)
    decreases |data|
  {
    if data == [] || lib.pemDecode(data).None? then [] else
      var (block, rest) := lib.pemDecode(data).value;
      var later := BundleCerts(lib, rest);
      if block.kind == "CERTIFICATE" && lib.parseCertificate(block.bytes).Some?
      then [(block, lib.parseCertificate(block.bytes).value)] + later
      else later
  }

  /** The record of a bundled certificate, field by field. */
  ghost predicate IsBundleRecord(lib: Crypto, block: PemBlock, c: X509, source: Source, e: Entry) {
    && HexBytes(e.fingerprint) == Some(lib.sha256(c.raw))
    && e.cert == c && e.pem == lib.pemEncode(block)
    && e.subjectKeyID == KeyIDText(c.subjectKeyId) && e.authorityKeyID == KeyIDText(c.authorityKeyId)
    && e.source == source && e.issuerFingerprint == "" && e.trust == None
  }

  ghost predicate IsLastWithPrint(lib: Crypto, certs: seq<(PemBlock, X509)>, k: string, i: nat) {
    && i < |certs| && Fingerprint(lib, certs[i].1) == k
    && forall j | i < j < |certs| :: Fingerprint(lib, certs[j].1) != k
  }

  /** The entry of a fingerprint is that of the last certificate with it, if there is one. */
  ghost predicate Describes(lib: Crypto, certs: seq<(PemBlock, X509)>, es: Store, source: Source, k: string) {
    && (k in es <==> exists i: nat :: IsLastWithPrint(lib, certs, k, i))
    && (k in es ==> forall i: nat | IsLastWithPrint(lib, certs, k, i) ::
          IsBundleRecord(lib, certs[i].0, certs[i].1, source, es[k]))
  }

  lemma LastShift(lib: Crypto, first: (PemBlock, X509), later: seq<(PemBlock, X509)>, k: string, i: nat)
    ensures IsLastWithPrint(lib, [first] + later, k, i + 1) <==> IsLastWithPrint(lib, later, k, i)
  {
    var all := [first] + later;
    assert forall j | 0 <= j < |later| :: all[j + 1] == later[j];
    assert forall j | 0 < j < |all| :: all[j] == later[j - 1];
  }

  lemma LastAtHead(lib: Crypto, first: (PemBlock, X509), later: seq<(PemBlock, X509)>, k: string)
    ensures IsLastWithPrint(lib, [first] + later, k, 0) <==>
      Fingerprint(lib, first.1) == k && forall i: nat :: !IsLastWithPrint(lib, later, k, i)
  {
    LastOrNone(lib, later, k);
    var all := [first] + later;
    assert forall i | 0 <= i < |later| :: all[i + 1] == later[i];
    assert forall j | 0 < j < |all| :: all[j] == later[j - 1];
  }

  lemma HidesNothing(lib: Crypto, first: (PemBlock, X509), later: seq<(PemBlock, X509)>, es: Store, e: Entry,
                     source: Source, k: string)
    requires Describes(lib, later, es, source, k) && k in es
    ensures Describes(lib, [first] + later, map[e.fingerprint := e] + es, source, k)
  {
    var n: nat :| IsLastWithPrint(lib, later, k, n);
    LastShift(lib, first, later, k, n);
    LastAtHead(lib, first, later, k);
    forall i: nat | IsLastWithPrint(lib, [first] + later, k, i)
      ensures IsBundleRecord(lib, ([first] + later)[i].0, ([first] + later)[i].1, source, es[k])
    {
      LastShift(lib, first, later, k, i - 1);
      assert ([first] + later)[i] == later[i - 1];
    }
  }

  lemma NothingHidden(lib: Crypto, first: (PemBlock, X509), later: seq<(PemBlock, X509)>, es: Store, e: Entry,
                      source: Source, k: string)
    requires Describes(lib, later, es, source, k) && k !in es
    requires e.fingerprint == Fingerprint(lib, first.1) && IsBundleRecord(lib, first.0, first.1, source, e)
    ensures Describes(lib, [first] + later, map[e.fingerprint := e] + es, source, k)
  {
    LastAtHead(lib, first, later, k);
    forall i: nat | IsLastWithPrint(lib, [first] + later, k, i) ensures i == 0 && e.fingerprint == k {
      if i > 0 {
        LastShift(lib, first, later, k, i - 1);
      }
    }
  }

  lemma DescribesOneMore(lib: Crypto, block: PemBlock, c: X509, later: seq<(PemBlock, X509)>, es: Store,
                         source: Source, k: string)
    requires Describes(lib, later, es, source, k)
    ensures var e := Parsed(lib, c, lib.pemEncode(block)).(source := source);
      Describes(lib, [(block, c)] + later, map[e.fingerprint := e] + es, source, k)
  {
    var e := Parsed(lib, c, lib.pemEncode(block)).(source := source);
    HexRoundTrip(lib.sha256(c.raw), Upper);
    if k in es {
      HidesNothing(lib, (block, c), later, es, e, source, k);
    } else {
      NothingHidden(lib, (block, c), later, es, e, source, k);
    }
  }

  /** A bundle is recorded under the fingerprints of its certificates, each with the last certificate of
      that fingerprint. */
  lemma {:induction false} BundleMeaning(lib: Crypto, data: seq<byte>, source: Source, k: string)
    requires Consumes(lib)
    ensures Describes(lib, BundleCerts(lib, data), BundleEntries(lib, data, source), source, k)
    decreases |data|
  {
    if data != [] && lib.pemDecode(data).Some? {
      var (block, rest) := lib.pemDecode(data).value;
      BundleMeaning(lib, rest, source, k);
      if block.kind == "CERTIFICATE" && lib.parseCertificate(block.bytes).Some? {
        DescribesOneMore(lib, block, lib.parseCertificate(block.bytes).value, BundleCerts(lib, rest),
                         BundleEntries(lib, rest, source), source, k);
      }
    }
  }

  lemma {:induction false} LastOrNone(lib: Crypto, certs: seq<(PemBlock, X509)>, k: string)
    ensures (forall i | 0 <= i < |certs| :: Fingerprint(lib, certs[i].1) != k)
      <==> (forall i: nat :: !IsLastWithPrint(lib, certs, k, i))
  {
    if certs != [] {
      var n := |certs| - 1;
      LastOrNone(lib, certs[..n], k);
      if Fingerprint(lib, certs[n].1) == k {
        assert IsLastWithPrint(lib, certs, k, n);
      } else {
        if i: nat :| IsLastWithPrint(lib, certs[..n], k, i) {
          assert certs[..n][i] == certs[i] && forall j | i < j < n :: certs[..n][j] == certs[j];
          assert IsLastWithPrint(lib, certs, k, i);
        } else {
          assert forall i | 0 <= i < n :: certs[..n][i] == certs[i];
        }
      }
    }
  }

  /** The record of a bundled certificate. */
  function BundleEntry(lib: Crypto, block: PemBlock, source: Source): Option<Entry> {
    if block.kind != "CERTIFICATE" then None
    else match lib.parseCertificate(block.bytes)
      case None => None
      case Some(c) => Some(Parsed(lib, c, lib.pemEncode(block)).(source := source))
  }

  /** The certificates of a bundle by fingerprint: a later one hides an earlier one, and blocks that
      are no certificates are passed over. */
  ghost function BundleEntries(lib: Crypto, data: seq<byte>, source: Source): (r: Store)
    requires Consumes(lib)
    ensures forall k | k in r :: r[k].fingerprint == k && r[k].issuerFingerprint == ""
    decreases |data|
  {
    if data == [] || lib.pemDecode(data).None? then map[] else
      var (block, rest) := lib.pemDecode(data).value;
      var later := BundleEntries(lib, rest, source);
      match BundleEntry(lib, block, source)
      case None => later
      case Some(e) => map[e.fingerprint := e] + later
  }

  method ParseBlock(lib: Crypto, block: PemBlock, source: Source) returns (info: CertInfo?)
    ensures info == null <==> BundleEntry(lib, block, source).None?
    ensures info != null ==> fresh(info) && info.trustStatus == null
    ensures info != null ==> info.View() == BundleEntry(lib, block, source).value
  {
    if block.kind != "CERTIFICATE" {
      return null;
    }
    var cert := lib.parseCertificate(block.bytes);
    if cert.None? {
      return null;
    }
    info := new CertInfo.Parse(lib, cert.value, lib.pemEncode(block));
    info.SetSource(source);
  }

  /** A block that is a certificate is entered under its fingerprint. */
  method AddBlock(lib: Crypto, block: PemBlock, source: Source, infos: map<string, CertInfo>)
    returns (r: map<string, CertInfo>)
    ensures Shown(infos) == old(Shown(infos))
    ensures Shown(r) == match BundleEntry(lib, block, source)
      case None => Shown(infos)
      case Some(e) => Shown(infos)[e.fingerprint := e]
  {
    var info := ParseBlock(lib, block, source);
    forall k | k in infos ensures infos[k].View() == old(Shown(infos))[k] {
      assert infos[k].View() == old(infos[k].View());
    }
    assert Shown(infos) == old(Shown(infos));
    r := infos;
    if info != null {
      r := r[info.fingerprint := info];
      assert Shown(r) == Shown(infos)[info.fingerprint := info.View()];
    }
  }

  lemma BundleStep(lib: Crypto, data: seq<byte>, source: Source, values: Store, vs: Store)
    requires Consumes(lib) && data != [] && lib.pemDecode(data).Some?
    requires vs == match BundleEntry(lib, lib.pemDecode(data).value.0, source)
      case None => values
      case Some(e) => values[e.fingerprint := e]
    ensures vs + BundleEntries(lib, lib.pemDecode(data).value.1, source) == values + BundleEntries(lib, data, source)
  {
  }

  method ParseCertBundleFromPEM(lib: Crypto, pemData: seq<byte>, source: Source)
    returns (result: map<string, CertInfo>)
    requires Consumes(lib)
    ensures Shown(result) == BundleEntries(lib, pemData, source)
  {
    result := map[];
    var rest := pemData;
    while |rest| > 0
      invariant Shown(result) + BundleEntries(lib, rest, source) == BundleEntries(lib, pemData, source)
      decreases |rest|
    {
      var decoded := lib.pemDecode(rest);
      if decoded.None? {
        break;
      }
      ghost var values, was := Shown(result), rest;
      rest := decoded.value.1;
      result := AddBlock(lib, decoded.value.0, source, result);
      BundleStep(lib, was, source, values, Shown(result));
    }
    assert Shown(result) + map[] == Shown(result);
  }

  /** ParseCertFromPEM: the certificate in the first block, recorded with the whole text. */
  method ParseCertFromPEM(lib: Crypto, pemData: seq<byte>) returns (info: CertInfo?)
    ensures info == null <==> FirstCert(lib, pemData).None?
    ensures info != null ==> fresh(info) && info.trustStatus == null
    ensures info != null ==> info.View() == Parsed(lib, FirstCert(lib, pemData).value, pemData)
  {
    var decoded := lib.pemDecode(pemData);
    if decoded.None? || decoded.value.0.kind != "CERTIFICATE" {
      return null;
    }
    var cert := lib.parseCertificate(decoded.value.0.bytes);
    if cert.None? {
      return null;
    }
    info := new CertInfo.Parse(lib, cert.value, pemData);
  }
}
