/** What a caller can do to the certificate store through the copies it is given
    (internal/probe/engine.go). */
module Copies {
  import opened Text
  import opened Certs

  /** One assignment through a record: to a field of its own, to an element of one of its slices, or to
      the trust record that it points to. */
  datatype Write =
    | SetIssuer(fingerprint: string)
    | SetSource(source: Source)
    | SetTrustStatus(trust: TrustInfo?)
    | SetLists(lists: map<ListField, array<Item>>)
    | SetItem(field: ListField, index: nat, item: Item)
    | SetTrust(view: TrustView)

  /** Everything that a record shows: its entry, and the content of its slices. */
  datatype Record = Record(entry: Entry, lists: map<ListField, seq<Item>>)

  ghost function Whole(c: CertInfo): Record
    reads c, c.trustStatus, c.lists.Values
  {
    Record(c.View(), map f | f in c.lists :: c.lists[f][..])
  }

  predicate ToOwnField(w: Write) {
    !w.SetItem? && !w.SetTrust?
  }

  /** There is such a location, and the assignment changes what it holds. */
  ghost predicate Effective(c: CertInfo, w: Write)
    reads c, c.trustStatus, c.lists.Values
  {
    match w
    case SetItem(f, i, x) => f in c.lists && i < c.lists[f].Length && c.lists[f][i] != x
    case SetTrust(v) => c.trustStatus != null && c.trustStatus.View() != v
    case _ => true
  }

  /** How a write that is not to a field of the copy itself shows in the original. */
  predicate Shows(before: Record, after: Record, w: Write) {
    match w
    case SetItem(f, i, x) =>
      && f in before.lists && i < |before.lists[f]| && f in after.lists
      && after.lists[f] == before.lists[f][i := x] && after.entry == before.entry
    case SetTrust(v) => after == before.(entry := before.entry.(trust := Some(v)))
    case _ => after == before
  }

  /** Writing an element of a slice: the record shows it. */
  method WriteItem(c: CertInfo, f: ListField, i: nat, x: Item)
    requires f in c.lists && i < c.lists[f].Length
    modifies c.lists[f]
    ensures c.lists[f][..] == old(c.lists[f][..])[i := x]
  {
    c.lists[f][i] := x;
  }

  method WriteTrust(t: TrustInfo, v: TrustView)
    modifies t
    ensures t.View() == v
  {
    t.trustedBy, t.mitmSuspected := v.trustedBy, v.mitmSuspected;
    t.mitmReason, t.matchesReference := v.mitmReason, v.matchesReference;
  }

  method WriteOwnField(c: CertInfo, w: Write)
    requires ToOwnField(w)
    modifies c
    ensures w.SetIssuer? ==> c.issuerFingerprint == w.fingerprint
    ensures w.SetSource? ==> c.source == w.source
    ensures w.SetTrustStatus? ==> c.trustStatus == w.trust
    ensures w.SetLists? ==> c.lists == w.lists
  {
    match w {
      case SetIssuer(fingerprint) => c.SetIssuerFingerprint(fingerprint);
      case SetSource(source) => c.SetSource(source);
      case SetTrustStatus(trust) => c.trustStatus := trust;
      case SetLists(lists) => c.lists := lists;
    }
  }

  /** A write through a copy leaves every record of the store as it was if and only if it is to a field of
      the copy itself: neither to the trust record nor to an element of a slice.  Any other write shows in
      the record under the same key. */
  method WriteThroughCopy(certs: map<string, CertInfo>, copies: map<string, CertInfo>, k: string, w: Write)
    requires AreCopies(certs, copies) && k in copies && Effective(copies[k], w)
    modifies copies[k], copies[k].trustStatus, copies[k].lists.Values
    ensures (forall j | j in certs :: Whole(certs[j]) == old(Whole(certs[j]))) <==> ToOwnField(w)
    ensures Shows(old(Whole(certs[k])), Whole(certs[k]), w)
  {
    var c := copies[k];
    match w {
      case SetItem(f, i, x) =>
        WriteItem(c, f, i, x);
        assert Whole(certs[k]).lists[f][i] == x;
      case SetTrust(v) =>
        WriteTrust(c.trustStatus, v);
        assert Whole(certs[k]).entry.trust == Some(v);
      case _ => WriteOwnField(c, w);
    }
  }
}
