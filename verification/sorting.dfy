/** Sorting in place by a comparison, as sort.Slice does it: the order among equals is not promised. */
module Sorting {
  import opened Lists

  /** What sort.Slice asks of its comparison. */
  ghost predicate StrictWeakOrder<T(!new)>(less: (T, T) -> bool) {
    && (forall x :: !less(x, x))
    && (forall x, y, z :: less(x, y) && less(y, z) ==> less(x, z))
    && (forall x, y, z :: !less(x, y) && !less(y, z) ==> !less(x, z))
  }

  ghost predicate Ordered<T(!new)>(less: (T, T) -> bool, s: seq<T>) {
    forall i, j | 0 <= i < j < |s| :: !less(s[j], s[i])
  }

  lemma OrderedByNeighbours<T(!new)>(less: (T, T) -> bool, s: seq<T>)
    requires StrictWeakOrder(less)
    requires forall i | 0 < i < |s| :: !less(s[i], s[i - 1])
    ensures Ordered(less, s)
  {
    forall i, j | 0 <= i < j < |s| ensures !less(s[j], s[i]) {
      NotBelow(less, s, i, j);
    }
  }

  lemma {:induction false} NotBelow<T(!new)>(less: (T, T) -> bool, s: seq<T>, i: nat, j: nat)
    requires StrictWeakOrder(less)
    requires forall k | 0 < k < |s| :: !less(s[k], s[k - 1])
    requires i <= j < |s|
    ensures !less(s[j], s[i])
  {
    if i < j {
      NotBelow(less, s, i, j - 1);
      assert !less(s[j], s[j - 1]);
    }
  }

  /** `s` with element `j` and the one before it exchanged. */
  function Exchanged<T>(s: seq<T>, j: nat): seq<T>
    requires 0 < j < |s|
  {
    s[j := s[j - 1]][j - 1 := s[j]]
  }

  lemma ExchangeIsPermutation<T>(s: seq<T>, j: nat)
    requires 0 < j < |s|
    ensures multiset(Exchanged(s, j)) == multiset(s)
  {
    var front, back := s[..j - 1], s[j + 1..];
    assert s == front + [s[j - 1], s[j]] + back;
    assert Exchanged(s, j) == front + [s[j], s[j - 1]] + back;
  }

  /** The first `i + 1` elements are in order, but for the one on its way down at `j`. */
  ghost predicate Sinking<T(!new)>(less: (T, T) -> bool, s: seq<T>, i: nat, j: nat) {
    && j <= i < |s|
    && (forall k | 0 < k <= i && k != j :: !less(s[k], s[k - 1]))
    && (0 < j < i ==> !less(s[j + 1], s[j - 1]))
  }

  lemma ExchangeSinks<T(!new)>(less: (T, T) -> bool, s: seq<T>, i: nat, j: nat)
    requires StrictWeakOrder(less) && Sinking(less, s, i, j) && 0 < j && less(s[j], s[j - 1])
    ensures Sinking(less, Exchanged(s, j), i, j - 1)
  {
    var t := Exchanged(s, j);
    assert t[j] == s[j - 1] && t[j - 1] == s[j];
    assert forall k | 0 <= k < |s| && k != j && k != j - 1 :: t[k] == s[k];
  }

  /** The insertion sort that Go's sort.Slice uses on short slices, by swapping neighbours. */
  method SortSlice<T(!new)>(a: array<T>, less: (T, T) -> bool)
    requires StrictWeakOrder(less)
    modifies a
    ensures multiset(a[..]) == multiset(old(a[..]))
    ensures Ordered(less, a[..])
  {
    ghost var s := a[..];
    var i := 0;
    while i < a.Length
      invariant 0 <= i <= a.Length && s == a[..]
      invariant multiset(s) == multiset(old(a[..]))
      invariant forall k | 0 < k < i :: !less(s[k], s[k - 1])
    {
      var j := i;
      while j > 0 && less(a[j], a[j - 1])
        invariant s == a[..] && Sinking(less, s, i, j)
        invariant multiset(s) == multiset(old(a[..]))
      {
        ExchangeIsPermutation(s, j);
        ExchangeSinks(less, s, i, j);
        a[j], a[j - 1] := a[j - 1], a[j];
        s := Exchanged(s, j);
        j := j - 1;
      }
      i := i + 1;
    }
    OrderedByNeighbours(less, s);
  }

  // ---------------------------------------------------------------- uniqueness

  /** The comparison looks only at a key, and tells different keys apart. */
  ghost predicate ComparesKeys<T(!new), K(!new)>(less: (T, T) -> bool, key: T -> K) {
    forall x, y :: !less(x, y) && !less(y, x) <==> key(x) == key(y)
  }

  /** Any two results of sorting the same list carry the same keys in the same order, even though
      the sort is unstable. */
  lemma SortedKeysAreUnique<T(!new), K(!new)>(less: (T, T) -> bool, key: T -> K, a: seq<T>, b: seq<T>)
    requires StrictWeakOrder(less) && ComparesKeys(less, key)
    requires multiset(a) == multiset(b)
    requires Ordered(less, a) && Ordered(less, b)
    ensures Map(key, a) == Map(key, b)
  {
    MapOfPermutation(key, a, b);
    KeysAgree(less, key, a, b);
  }

  lemma TailOfMap<A, K>(key: A -> K, a: seq<A>)
    requires a != []
    ensures Map(key, a) == [key(a[0])] + Map(key, a[1..])
    ensures multiset(Map(key, a[1..])) == multiset(Map(key, a)) - multiset{key(a[0])}
  {
    assert Map(key, a) == [key(a[0])] + Map(key, a[1..]);
  }

  lemma {:induction false} KeysAgree<T(!new), K(!new)>(less: (T, T) -> bool, key: T -> K, a: seq<T>, b: seq<T>)
    requires StrictWeakOrder(less) && ComparesKeys(less, key)
    requires multiset(Map(key, a)) == multiset(Map(key, b))
    requires Ordered(less, a) && Ordered(less, b)
    ensures Map(key, a) == Map(key, b)
  {
    var ka, kb := Map(key, a), Map(key, b);
    PermutationSameLength(ka, kb);
    if a != [] {
      HeadsAgree(less, key, a, b);
      TailOfMap(key, a);
      TailOfMap(key, b);
      KeysAgree(less, key, a[1..], b[1..]);
    }
  }

  lemma HeadsAgree<T(!new), K(!new)>(less: (T, T) -> bool, key: T -> K, a: seq<T>, b: seq<T>)
    requires StrictWeakOrder(less) && ComparesKeys(less, key)
    requires a != [] && b != []
    requires key(a[0]) in Map(key, b) && key(b[0]) in Map(key, a)
    requires Ordered(less, a) && Ordered(less, b)
    ensures key(a[0]) == key(b[0])
  {
    var j :| 0 <= j < |b| && Map(key, b)[j] == key(a[0]);
    var i :| 0 <= i < |a| && Map(key, a)[i] == key(b[0]);
    assert !less(b[j], b[0]) && !less(a[i], a[0]);
    assert !less(a[0], b[j]) && !less(b[0], a[i]);
    assert !less(a[0], b[0]) && !less(b[0], a[0]);
  }
}
