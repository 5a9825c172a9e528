/** Sequences: first appearances, flattening, permutations and sorted permutations. */
module Lists {

  ghost predicate Distinct<T(!new)>(s: seq<T>) {
    forall i, j | 0 <= i < j < |s| :: s[i] != s[j]
  }

  // ---------------------------------------------------------------- first appearances

  /** The distinct elements of `s`, in the order in which each appears first. */
  function Firsts<T(==)>(s: seq<T>): seq<T> {
    if s == [] then [] else
      var f := Firsts(s[..|s| - 1]);
      if s[|s| - 1] in f then f else f + [s[|s| - 1]]
  }

  lemma {:induction false} FirstsMeaning<T(!new)>(s: seq<T>)
    ensures forall x :: x in Firsts(s) <==> x in s
    ensures Distinct(Firsts(s))
  {
    if s != [] {
      FirstsMeaning(s[..|s| - 1]);
      assert s == s[..|s| - 1] + [s[|s| - 1]];
    }
  }

  lemma TakeOneMore<T>(s: seq<T>, n: nat)
    requires n < |s|
    ensures s[..n + 1] == s[..n] + [s[n]]
  {
  }

  lemma FrontAndLast<T>(s: seq<T>, front: seq<T>)
    requires |s| == |front| + 1 && s[..|front|] == front
    ensures s == front + [s[|front|]]
  {
  }

  lemma ConcatIsAssociative<T>(a: seq<T>, b: seq<T>, c: seq<T>)
    ensures (a + b) + c == a + (b + c)
  {
  }

  function IndexOf<T(==)>(s: seq<T>, x: T): (i: nat)
    requires x in s
    ensures i < |s| && s[i] == x && x !in s[..i]
  {
    if s[0] == x then 0 else
      assert s == [s[0]] + s[1..];
      1 + IndexOf(s[1..], x)
  }

  lemma IndexOfDistinct<T(!new)>(s: seq<T>, i: nat)
    requires Distinct(s) && i < |s|
    ensures IndexOf(s, s[i]) == i
  {
  }

  /** `s` lists the elements of `order` in blocks: in the same order, with repetitions. */
  ghost predicate FollowsOrder<T(!new)>(s: seq<T>, order: seq<T>) {
    && (forall x | x in s :: x in order)
    && (forall i, j | 0 <= i < j < |s| :: IndexOf(order, s[i]) <= IndexOf(order, s[j]))
  }

  lemma IndexInFront<T(!new)>(order: seq<T>, n: nat, y: T)
    requires Distinct(order) && n <= |order| && y in order
    ensures y in order[..n] <==> IndexOf(order, y) < n
    ensures y in order[..n] ==> IndexOf(order[..n], y) == IndexOf(order, y)
  {
    var front := order[..n];
    if y in front {
      var i :| 0 <= i < n && front[i] == y;
      IndexOfDistinct(front, i);
      IndexOfDistinct(order, i);
    } else {
      assert forall i | 0 <= i < n :: front[i] == order[i];
    }
  }

  lemma EmptyOrInhabited<T>(s: seq<T>)
    ensures s == [] || exists x :: x in s
  {
    if s != [] {
      assert s[0] in s;
    }
  }

  lemma LastOfOrdered<T(!new)>(s: seq<T>, order: seq<T>)
    requires Distinct(order) && FollowsOrder(s, order) && s != []
    requires forall x | x in order :: x in s
    ensures IndexOf(order, s[|s| - 1]) == |order| - 1
  {
    assert s[|s| - 1] in order;
    var n := |order| - 1;
    IndexOfDistinct(order, n);
    assert order[n] in s;
    var i :| 0 <= i < |s| && s[i] == order[n];
  }

  lemma RepeatFollowsOrder<T(!new)>(t: seq<T>, x: T, order: seq<T>)
    requires FollowsOrder(t + [x], order) && x in t
    requires forall y | y in order :: y in t + [x]
    ensures FollowsOrder(t, order)
    ensures forall y | y in order :: y in t
  {
    var s := t + [x];
    assert forall y | y in t :: y in s;
    assert forall i | 0 <= i < |t| :: s[i] == t[i];
  }

  lemma FrontFollowsOrder<T(!new)>(t: seq<T>, x: T, order: seq<T>)
    requires Distinct(order) && FollowsOrder(t + [x], order) && x !in t
    requires forall y | y in order :: y in t + [x]
    requires order != [] && order[|order| - 1] == x
    ensures FollowsOrder(t, order[..|order| - 1])
    ensures forall y | y in order[..|order| - 1] :: y in t
  {
    var n := |order| - 1;
    var front := order[..n];
    forall y | y in front ensures y in t {
      assert y in order;
      IndexInFront(order, n, y);
      IndexOfDistinct(order, n);
    }
    forall y | y in t ensures y in front && IndexOf(front, y) == IndexOf(order, y) {
      assert y in t + [x];
      IndexInFront(order, n, y);
    }
    forall i, j | 0 <= i < j < |t| ensures IndexOf(front, t[i]) <= IndexOf(front, t[j]) {
      assert (t + [x])[i] == t[i] && (t + [x])[j] == t[j];
    }
  }

  /** A list that follows an order and misses none of it has that order of first appearances. */
  lemma {:induction false} FirstsOfOrdered<T(!new)>(s: seq<T>, order: seq<T>)
    requires Distinct(order) && FollowsOrder(s, order)
    requires forall x | x in order :: x in s
    ensures Firsts(s) == order
  {
    if s == [] {
      EmptyOrInhabited(order);
    } else {
      var t, x := s[..|s| - 1], s[|s| - 1];
      assert s == t + [x];
      LastOfOrdered(s, order);
      var n := |order| - 1;
      assert order == order[..n] + [x];
      if x in t {
        RepeatFollowsOrder(t, x, order);
        FirstsOfOrdered(t, order);
      } else {
        FrontFollowsOrder(t, x, order);
        FirstsOfOrdered(t, order[..n]);
      }
    }
  }

  lemma {:induction false} FirstsOfDistinct<T(!new)>(s: seq<T>)
    requires Distinct(s)
    ensures Firsts(s) == s
  {
    if s != [] {
      FirstsOfDistinct(s[..|s| - 1]);
      assert s == s[..|s| - 1] + [s[|s| - 1]];
    }
  }

  /** A run of one value adds that value once. */
  lemma {:induction false} FirstsOfRun<T(!new)>(s: seq<T>, run: seq<T>, x: T)
    requires run != [] && forall i | 0 <= i < |run| :: run[i] == x
    ensures Firsts(s + run) == Firsts(s + [x])
  {
    var n := |run| - 1;
    assert (s + run)[..|s + run| - 1] == s + run[..n];
    assert (s + [x])[..|s|] == s;
    if n > 0 {
      FirstsOfRun(s, run[..n], x);
    } else {
      assert s + run[..n] == s;
    }
  }

  // ---------------------------------------------------------------- mapping and flattening

  function Map<A, B>(f: A -> B, xs: seq<A>): (r: seq<B>)
    ensures |r| == |xs| && forall i | 0 <= i < |xs| :: r[i] == f(xs[i])
  {
    seq(|xs|, i requires 0 <= i < |xs| => f(xs[i]))
  }

  /** The groups `f(x)` of all elements, one after the other. */
  function FlatMap<A, B>(f: A -> seq<B>, xs: seq<A>): seq<B> {
    if xs == [] then [] else FlatMap(f, xs[..|xs| - 1]) + f(xs[|xs| - 1])
  }

  lemma FlatMapStep<A, B>(f: A -> seq<B>, xs: seq<A>, i: nat)
    requires i < |xs|
    ensures FlatMap(f, xs[..i + 1]) == FlatMap(f, xs[..i]) + f(xs[i])
  {
    assert xs[..i + 1][..i] == xs[..i];
  }

  lemma FlatMapOfSnoc<A, B>(f: A -> seq<B>, xs: seq<A>, x: A)
    ensures FlatMap(f, xs + [x]) == FlatMap(f, xs) + f(x)
  {
    assert (xs + [x])[..|xs|] == xs;
  }

  lemma MapOfSnoc<A, B>(f: A -> B, xs: seq<A>, x: A)
    ensures Map(f, xs + [x]) == Map(f, xs) + [f(x)]
  {
  }

  lemma {:induction false} FlatMapOfConcat<A, B>(f: A -> seq<B>, xs: seq<A>, ys: seq<A>)
    ensures FlatMap(f, xs + ys) == FlatMap(f, xs) + FlatMap(f, ys)
  {
    if ys == [] {
      assert xs + ys == xs;
    } else {
      var n := |ys| - 1;
      FlatMapOfConcat(f, xs, ys[..n]);
      assert (xs + ys)[..|xs + ys| - 1] == xs + ys[..n];
    }
  }

  lemma {:induction false} FlatMapLength<A, B>(f: A -> seq<B>, xs: seq<A>, k: nat)
    requires forall x | x in xs :: |f(x)| == k
    ensures |FlatMap(f, xs)| == |xs| * k
  {
    if xs != [] {
      FlatMapLength(f, xs[..|xs| - 1], k);
      assert xs[|xs| - 1] in xs;
      assert (|xs| - 1) * k + k == |xs| * k;
    }
  }

  lemma {:induction false} MatrixIndex(n: nat, k: nat, i: nat, j: nat)
    requires i < n && j < k
    ensures 0 <= i * k + j < n * k
  {
    if i < n - 1 {
      MatrixIndex(n - 1, k, i, j);
    }
    assert n * k == (n - 1) * k + k;
  }

  /** With groups of one fixed size, the flattened list is indexed like a matrix. */
  lemma {:induction false} FlatMapIndex<A, B>(f: A -> seq<B>, xs: seq<A>, k: nat, i: nat, j: nat)
    requires forall x | x in xs :: |f(x)| == k
    requires i < |xs| && j < k
    ensures 0 <= i * k + j < |FlatMap(f, xs)| == |xs| * k && FlatMap(f, xs)[i * k + j] == f(xs[i])[j]
  {
    var n := |xs| - 1;
    FlatMapLength(f, xs, k);
    FlatMapLength(f, xs[..n], k);
    MatrixIndex(|xs|, k, i, j);
    if i < n {
      MatrixIndex(n, k, i, j);
      FlatMapIndex(f, xs[..n], k, i, j);
    } else {
      assert xs[n] in xs;
    }
  }

  /** The elements of the flattened list are those of its groups. */
  lemma {:induction false} FlatMapMember<A, B>(f: A -> seq<B>, xs: seq<A>, y: B)
    ensures y in FlatMap(f, xs) <==> exists i :: 0 <= i < |xs| && y in f(xs[i])
  {
    if xs != [] {
      var n := |xs| - 1;
      FlatMapMember(f, xs[..n], y);
      if y in FlatMap(f, xs) {
        if y !in f(xs[n]) {
          var i :| 0 <= i < n && y in f(xs[..n][i]);
          assert y in f(xs[i]);
        }
      }
      if i :| 0 <= i < |xs| && y in f(xs[i]) && i < n {
        assert y in f(xs[..n][i]);
      }
    }
  }

  lemma FirstsOfSnoc<T(!new)>(a: seq<T>, b: seq<T>, x: T)
    requires Firsts(a) == Firsts(b)
    ensures Firsts(a + [x]) == Firsts(b + [x])
  {
    assert (a + [x])[..|a|] == a && (b + [x])[..|b|] == b;
  }

  /** Replacing every element by a non-empty group of the same key keeps the order of keys. */
  lemma {:induction false} FirstsOfFlatMap<A, B, K(!new)>(f: A -> seq<B>, xs: seq<A>, keyA: A -> K, keyB: B -> K)
    requires forall x | x in xs :: f(x) != [] && forall y | y in f(x) :: keyB(y) == keyA(x)
    ensures Firsts(Map(keyB, FlatMap(f, xs))) == Firsts(Map(keyA, xs))
  {
    if xs != [] {
      var n := |xs| - 1;
      var front, x := xs[..n], xs[n];
      FirstsOfFlatMap(f, front, keyA, keyB);
      var groups, group := Map(keyB, FlatMap(f, front)), Map(keyB, f(x));
      assert Map(keyB, FlatMap(f, xs)) == groups + group;
      assert Map(keyA, xs) == Map(keyA, front) + [keyA(x)];
      assert x in xs;
      forall i | 0 <= i < |group| ensures group[i] == keyA(x) {
        assert f(x)[i] in f(x);
      }
      FirstsOfRun(groups, group, keyA(x));
      FirstsOfSnoc(groups, Map(keyA, front), keyA(x));
    }
  }

  // ---------------------------------------------------------------- permutations

  /** Any occurrence of `x` can be taken out of a list: the rest has one `x` less. */
  lemma TakeOut<A>(b: seq<A>, x: A) returns (front: seq<A>, back: seq<A>)
    requires x in b
    ensures b == front + [x] + back
    ensures multiset(front + back) == multiset(b) - multiset{x}
  {
    var j :| 0 <= j < |b| && b[j] == x;
    front, back := b[..j], b[j + 1..];
    assert b == front + [x] + back;
  }

  lemma MapOfInsert<A, B>(f: A -> B, front: seq<A>, x: A, back: seq<A>)
    ensures multiset(Map(f, front + [x] + back)) == multiset(Map(f, front + back)) + multiset{f(x)}
  {
    assert Map(f, front + [x] + back) == Map(f, front) + [f(x)] + Map(f, back);
    assert Map(f, front + back) == Map(f, front) + Map(f, back);
  }

  /** Mapping keeps permutations. */
  lemma {:induction false} MapOfPermutation<A, B>(f: A -> B, a: seq<A>, b: seq<A>)
    requires multiset(a) == multiset(b)
    ensures multiset(Map(f, a)) == multiset(Map(f, b))
  {
    PermutationSameLength(a, b);
    if a != [] {
      var x := a[0];
      assert x in a && a == [] + [x] + a[1..] && a[1..] == [] + a[1..];
      var front, back := TakeOut(b, x);
      MapOfPermutation(f, a[1..], front + back);
      MapOfInsert(f, [], x, a[1..]);
      MapOfInsert(f, front, x, back);
    }
  }

  lemma PermutationSameLength<A>(a: seq<A>, b: seq<A>)
    requires multiset(a) == multiset(b)
    ensures |a| == |b|
    ensures forall x :: x in a <==> x in b
  {
    assert |a| == |multiset(a)| == |multiset(b)| == |b|;
    assert forall x :: x in a <==> x in multiset(a);
    assert forall x :: x in b <==> x in multiset(b);
  }

  ghost predicate SortedBy<A(!new)>(le: (A, A) -> bool, s: seq<A>) {
    forall i, j | 0 <= i < j < |s| :: le(s[i], s[j])
  }

  /** Two sorted arrangements of the same values are equal when the order tells values apart. */
  lemma {:induction false} SortedPermutationIsUnique<A(!new)>(le: (A, A) -> bool, a: seq<A>, b: seq<A>)
    requires forall x, y | x in a && y in a && le(x, y) && le(y, x) :: x == y
    requires SortedBy(le, a) && SortedBy(le, b) && multiset(a) == multiset(b)
    ensures a == b
  {
    PermutationSameLength(a, b);
    if a != [] {
      assert a[0] in a && b[0] in b;
      assert a[0] == b[0] by {
        var j :| 0 <= j < |b| && b[j] == a[0];
        var k :| 0 <= k < |a| && a[k] == b[0];
      }
      assert a == [a[0]] + a[1..] && b == [b[0]] + b[1..];
      assert multiset(a[1..]) == multiset(a) - multiset{a[0]};
      assert multiset(b[1..]) == multiset(b) - multiset{b[0]};
      SortedPermutationIsUnique(le, a[1..], b[1..]);
    }
  }
}
