/**
 The library sort the program calls (`Array.prototype.sort`, `ORDER BY`) as a function of an order,
 and the one fact every canonical form rests on: under a total order a collection has exactly one
 sorted arrangement.
 */
module Sorting {

  type Order<!T> = (T, T) -> bool

  ghost predicate TotalOrder<T(!new)>(leq: Order<T>) {
    && (forall a, b :: leq(a, b) || leq(b, a))
    && (forall a, b :: leq(a, b) && leq(b, a) ==> a == b)
    && (forall a, b, c :: leq(a, b) && leq(b, c) ==> leq(a, c))
  }

  /** A total preorder: distinct elements may tie. */
  ghost predicate Preorder<T(!new)>(leq: Order<T>) {
    && (forall a, b :: leq(a, b) || leq(b, a))
    && (forall a, b, c :: leq(a, b) && leq(b, c) ==> leq(a, c))
  }

  ghost predicate Sorted<T>(leq: Order<T>, xs: seq<T>) {
    forall i, j :: 0 <= i < j < |xs| ==> leq(xs[i], xs[j])
  }

  function Insert<T>(leq: Order<T>, x: T, xs: seq<T>): seq<T> {
    if xs == [] then [x]
    else if leq(x, xs[0]) then [x] + xs
    else [xs[0]] + Insert(leq, x, xs[1..])
  }

  /** Stable: equal elements keep their order, as in ECMAScript. */
  function Sort<T>(leq: Order<T>, xs: seq<T>): seq<T> {
    if xs == [] then [] else Insert(leq, xs[0], Sort(leq, xs[1..]))
  }

  lemma SortSingle<T>(leq: Order<T>, x: T)
    ensures Sort(leq, [x]) == [x]
  {
    assert [x][1..] == [];
    assert Sort(leq, [x][1..]) == [];
  }

  lemma {:induction false} InsertElements<T>(leq: Order<T>, x: T, xs: seq<T>)
    ensures multiset(Insert(leq, x, xs)) == multiset(xs) + multiset{x}
  {
    if xs != [] && !leq(x, xs[0]) {
      InsertElements(leq, x, xs[1..]);
      assert xs == [xs[0]] + xs[1..];
    }
  }

  lemma {:induction false} InsertSorted<T(!new)>(leq: Order<T>, x: T, xs: seq<T>)
    requires Preorder(leq)
    requires Sorted(leq, xs)
    ensures Sorted(leq, Insert(leq, x, xs))
  {
    if xs == [] {
    } else if leq(x, xs[0]) {
    } else {
      var rest := Insert(leq, x, xs[1..]);
      InsertSorted(leq, x, xs[1..]);
      InsertElements(leq, x, xs[1..]);
      forall k | 0 <= k < |rest| ensures leq(xs[0], rest[k]) {
        assert rest[k] in multiset(xs[1..]) + multiset{x};
      }
    }
  }

  lemma InsertFacts<T(!new)>(leq: Order<T>, x: T, xs: seq<T>)
    requires Preorder(leq)
    requires Sorted(leq, xs)
    ensures Sorted(leq, Insert(leq, x, xs))
    ensures multiset(Insert(leq, x, xs)) == multiset(xs) + multiset{x}
  {
    InsertSorted(leq, x, xs);
    InsertElements(leq, x, xs);
  }

  lemma SameElements<T>(a: seq<T>, b: seq<T>)
    requires multiset(a) == multiset(b)
    ensures |a| == |b|
    ensures forall x :: x in a <==> x in b
  {
    assert |multiset(a)| == |multiset(b)|;
    forall x ensures x in a <==> x in b {
      assert x in a <==> x in multiset(a);
      assert x in b <==> x in multiset(b);
    }
  }

  lemma {:induction false} SortArranges<T(!new)>(leq: Order<T>, xs: seq<T>)
    requires Preorder(leq)
    ensures Sorted(leq, Sort(leq, xs))
    ensures multiset(Sort(leq, xs)) == multiset(xs)
  {
    if xs != [] {
      SortArranges(leq, xs[1..]);
      InsertFacts(leq, xs[0], Sort(leq, xs[1..]));
      assert xs == [xs[0]] + xs[1..];
    }
  }

  lemma SortFacts<T(!new)>(leq: Order<T>, xs: seq<T>)
    requires Preorder(leq)
    ensures Sorted(leq, Sort(leq, xs))
    ensures multiset(Sort(leq, xs)) == multiset(xs)
    ensures |Sort(leq, xs)| == |xs|
    ensures forall x :: x in Sort(leq, xs) <==> x in xs
  {
    SortArranges(leq, xs);
    SameElements(Sort(leq, xs), xs);
  }

  lemma RemoveAt<T>(xs: seq<T>, i: nat)
    requires i < |xs|
    ensures multiset(xs[..i] + xs[i + 1..]) == multiset(xs) - multiset{xs[i]}
  {
    assert xs == xs[..i] + [xs[i]] + xs[i + 1..];
  }

  lemma LeastFirst<T(!new)>(leq: Order<T>, xs: seq<T>, x: T)
    requires TotalOrder(leq) && Sorted(leq, xs) && x in xs
    ensures leq(xs[0], x)
  {
    var i :| 0 <= i < |xs| && xs[i] == x;
    assert leq(x, x);
  }

  lemma RemoveFirst<T>(xs: seq<T>)
    requires xs != []
    ensures multiset(xs[1..]) == multiset(xs) - multiset{xs[0]}
  {
    assert xs == [xs[0]] + xs[1..];
  }

  /** Two sorted arrangements of the same elements are the same list. */
  lemma {:induction false} SortedUnique<T(!new)>(leq: Order<T>, a: seq<T>, b: seq<T>)
    requires TotalOrder(leq)
    requires Sorted(leq, a) && Sorted(leq, b)
    requires multiset(a) == multiset(b)
    ensures a == b
  {
    SameElements(a, b);
    if a != [] {
      assert a[0] == b[0] by {
        assert a[0] in b && b[0] in a;
        LeastFirst(leq, a, b[0]);
        LeastFirst(leq, b, a[0]);
      }
      hide TotalOrder;
      RemoveFirst(a);
      RemoveFirst(b);
      SortedUnique(leq, a[1..], b[1..]);
      assert a == [a[0]] + a[1..] && b == [b[0]] + b[1..];
    }
  }

  /** Sorting depends only on which elements there are. */
  lemma SortPermutation<T(!new)>(leq: Order<T>, a: seq<T>, b: seq<T>)
    requires TotalOrder(leq)
    requires multiset(a) == multiset(b)
    ensures Sort(leq, a) == Sort(leq, b)
  {
    SortFacts(leq, a);
    SortFacts(leq, b);
    SortedUnique(leq, Sort(leq, a), Sort(leq, b));
  }

  /** Sorting a sorted list changes nothing. */
  lemma SortIdempotent<T(!new)>(leq: Order<T>, xs: seq<T>)
    requires TotalOrder(leq)
    requires Sorted(leq, xs)
    ensures Sort(leq, xs) == xs
  {
    SortFacts(leq, xs);
    SortedUnique(leq, Sort(leq, xs), xs);
  }

  ghost predicate DistinctKeys<T, K>(key: T -> K, xs: seq<T>) {
    forall i, j :: 0 <= i < j < |xs| ==> key(xs[i]) != key(xs[j])
  }

  lemma Repeated<T>(xs: seq<T>, i: nat, j: nat)
    requires i < j < |xs| && xs[i] == xs[j]
    ensures multiset(xs)[xs[i]] >= 2
  {
    assert xs == xs[..j] + [xs[j]] + xs[j + 1..];
    assert xs[i] in xs[..j];
    assert multiset(xs) == multiset(xs[..j]) + multiset([xs[j]]) + multiset(xs[j + 1..]);
    assert multiset(xs[..j])[xs[i]] >= 1;
  }

  lemma {:induction false} NotRepeated<T, K>(key: T -> K, xs: seq<T>, x: T)
    requires DistinctKeys(key, xs)
    ensures multiset(xs)[x] <= 1
  {
    if xs != [] {
      var init, last := xs[..|xs| - 1], xs[|xs| - 1];
      NotRepeated(key, init, x);
      assert xs == init + [last];
      assert x == last ==> x !in init;
    }
  }

  /** Rearranging a list keeps its keys pairwise different. */
  lemma PermutationKeepsKeys<T, K>(key: T -> K, xs: seq<T>, ys: seq<T>)
    requires multiset(xs) == multiset(ys)
    requires DistinctKeys(key, xs)
    ensures DistinctKeys(key, ys)
  {
    forall i, j | 0 <= i < j < |ys| ensures key(ys[i]) != key(ys[j]) {
      if key(ys[i]) == key(ys[j]) {
        assert ys[i] in multiset(xs) && ys[j] in multiset(xs);
        var p :| 0 <= p < |xs| && xs[p] == ys[i];
        var q :| 0 <= q < |xs| && xs[q] == ys[j];
        assert p == q;
        Repeated(ys, i, j);
        NotRepeated(key, xs, ys[i]);
      }
    }
  }

  /** Without repetition, having the same elements is being a rearrangement. */
  lemma SameElementsPermutation<T, K>(key: T -> K, a: seq<T>, b: seq<T>)
    requires DistinctKeys(key, a) && DistinctKeys(key, b)
    requires forall x :: x in a <==> x in b
    ensures multiset(a) == multiset(b)
  {
    forall x ensures multiset(a)[x] == multiset(b)[x] {
      NotRepeated(key, a, x);
      NotRepeated(key, b, x);
      assert x in multiset(a) <==> x in a;
      assert x in multiset(b) <==> x in b;
    }
  }

  function Map<T, U>(f: T -> U, xs: seq<T>): seq<U> {
    seq(|xs|, i requires 0 <= i < |xs| => f(xs[i]))
  }

  lemma MapRemoveAt<T, U>(f: T -> U, xs: seq<T>, i: nat)
    requires i < |xs|
    ensures multiset(Map(f, xs)) == multiset(Map(f, xs[..i] + xs[i + 1..])) + multiset{f(xs[i])}
  {
    var ys := Map(f, xs);
    assert Map(f, xs[..i] + xs[i + 1..]) == ys[..i] + ys[i + 1..];
    RemoveAt(ys, i);
    assert f(xs[i]) == ys[i] && ys[i] in ys;
  }

  /** Mapping rearranged lists gives rearranged lists. */
  lemma {:induction false} MapPermutation<T, U>(f: T -> U, a: seq<T>, b: seq<T>)
    requires multiset(a) == multiset(b)
    ensures multiset(Map(f, a)) == multiset(Map(f, b))
  {
    hide Map;
    SameElements(a, b);
    if a != [] {
      assert a[0] in b;
      var i :| 0 <= i < |b| && b[i] == a[0];
      RemoveAt(a, 0);
      RemoveAt(b, i);
      MapPermutation(f, a[..0] + a[1..], b[..i] + b[i + 1..]);
      MapRemoveAt(f, a, 0);
      MapRemoveAt(f, b, i);
    }
  }
}
