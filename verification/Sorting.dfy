/** Stable sorting, as Go's sort.SliceStable and sort.Stable promise it, and the order of strings. */
module Sorting {

  /** `less` orders keys; elements neither of which is less than the other have equal keys. */
  ghost predicate IsOrder<T(!new)>(less: (T, T) -> bool) {
    && (forall x :: !less(x, x))
    && (forall x, y, z :: less(x, y) && less(y, z) ==> less(x, z))
    && (forall x, y, z :: !less(x, y) && !less(y, z) ==> !less(x, z))
  }

  ghost predicate Sorted<T>(less: (T, T) -> bool, xs: seq<T>) {
    forall i, j :: 0 <= i < j < |xs| ==> !less(xs[j], xs[i])
  }

  function Insert<T>(less: (T, T) -> bool, xs: seq<T>, x: T): (r: seq<T>) {
    if xs == [] || !less(x, xs[|xs| - 1]) then xs + [x]
    else Insert(less, xs[..|xs| - 1], x) + [xs[|xs| - 1]]
  }

  function StableSort<T>(less: (T, T) -> bool, xs: seq<T>): (r: seq<T>) {
    if xs == [] then [] else Insert(less, StableSort(less, xs[..|xs| - 1]), xs[|xs| - 1])
  }

  function Filter<T(!new)>(p: T -> bool, xs: seq<T>): (r: seq<T>)
    ensures |r| <= |xs|
    ensures forall x :: x in r <==> x in xs && p(x)
  {
    if xs == [] then []
    else Filter(p, xs[..|xs| - 1]) + (if p(xs[|xs| - 1]) then [xs[|xs| - 1]] else [])
  }

  function SameKey<T>(less: (T, T) -> bool, k: T): T -> bool {
    x => !less(x, k) && !less(k, x)
  }

  /** The elements with the same key as `k`. */
  function Class<T(!new)>(less: (T, T) -> bool, k: T, xs: seq<T>): seq<T> {
    Filter(SameKey(less, k), xs)
  }

  lemma {:induction false} InsertKeepsElements<T(!new)>(less: (T, T) -> bool, xs: seq<T>, x: T)
    ensures multiset(Insert(less, xs, x)) == multiset(xs) + multiset{x}
    ensures forall y :: y in Insert(less, xs, x) ==> y == x || y in xs
  {
    if xs != [] && less(x, xs[|xs| - 1]) {
      InsertKeepsElements(less, xs[..|xs| - 1], x);
      assert xs == xs[..|xs| - 1] + [xs[|xs| - 1]];
    }
  }

  lemma {:induction false} InsertKeepsOrder<T(!new)>(less: (T, T) -> bool, xs: seq<T>, x: T)
    requires IsOrder(less) && Sorted(less, xs)
    ensures Sorted(less, Insert(less, xs, x))
  {
    if xs != [] && less(x, xs[|xs| - 1]) {
      var init, last := xs[..|xs| - 1], xs[|xs| - 1];
      InsertKeepsOrder(less, init, x);
      InsertKeepsElements(less, init, x);
      forall y | y in init ensures !less(last, y) {
        var i :| 0 <= i < |init| && init[i] == y;
        assert xs[i] == y;
      }
    }
  }

  /** Sorting gives the same elements, in order. */
  lemma {:induction false} StableSortSorts<T(!new)>(less: (T, T) -> bool, xs: seq<T>)
    requires IsOrder(less)
    ensures Sorted(less, StableSort(less, xs))
    ensures multiset(StableSort(less, xs)) == multiset(xs)
    ensures |StableSort(less, xs)| == |xs|
  {
    if xs != [] {
      var init, last := xs[..|xs| - 1], xs[|xs| - 1];
      StableSortSorts(less, init);
      InsertKeepsElements(less, StableSort(less, init), last);
      InsertKeepsOrder(less, StableSort(less, init), last);
      assert xs == init + [last];
    }
    assert |multiset(StableSort(less, xs))| == |multiset(xs)|;
  }

  lemma FilterSnoc<T(!new)>(p: T -> bool, xs: seq<T>, x: T)
    ensures Filter(p, xs + [x]) == Filter(p, xs) + (if p(x) then [x] else [])
  {
    assert (xs + [x])[..|xs|] == xs;
  }

  /** Elements of different classes may be swapped without a class noticing. */
  lemma SwapUnnoticed<T(!new)>(p: T -> bool, xs: seq<T>, x: T, y: T)
    requires !p(x) || !p(y)
    ensures Filter(p, xs + [x] + [y]) == Filter(p, xs + [y] + [x])
  {
    FilterSnoc(p, xs, x);
    FilterSnoc(p, xs + [x], y);
    FilterSnoc(p, xs, y);
    FilterSnoc(p, xs + [y], x);
  }

  lemma {:induction false} InsertIsStable<T(!new)>(less: (T, T) -> bool, p: T -> bool, xs: seq<T>, x: T)
    requires forall y, z :: less(y, z) ==> !p(y) || !p(z)
    ensures Filter(p, Insert(less, xs, x)) == Filter(p, xs + [x])
  {
    if xs != [] && less(x, xs[|xs| - 1]) {
      var init, last := xs[..|xs| - 1], xs[|xs| - 1];
      var end := if p(last) then [last] else [];
      calc {
        Filter(p, Insert(less, init, x) + [last]);
        { FilterSnoc(p, Insert(less, init, x), last); }
        Filter(p, Insert(less, init, x)) + end;
        { InsertIsStable(less, p, init, x); }
        Filter(p, init + [x]) + end;
        { FilterSnoc(p, init + [x], last); }
        Filter(p, init + [x] + [last]);
        { SwapUnnoticed(p, init, x, last); }
        Filter(p, init + [last] + [x]);
        { assert xs == init + [last]; }
        Filter(p, xs + [x]);
      }
    }
  }

  /** Elements with equal keys stay in the order they had. */
  lemma {:induction false} StableSortIsStable<T(!new)>(less: (T, T) -> bool, xs: seq<T>, k: T)
    requires IsOrder(less)
    ensures Class(less, k, StableSort(less, xs)) == Class(less, k, xs)
  {
    if xs != [] {
      var init, last := xs[..|xs| - 1], xs[|xs| - 1];
      var p := SameKey(less, k);
      assert xs == init + [last];
      StableSortIsStable(less, init, k);
      InsertIsStable(less, p, StableSort(less, init), last);
      FilterSnoc(p, StableSort(less, init), last);
      FilterSnoc(p, init, last);
    }
  }

  ghost predicate DistinctKeys<T, K>(key: T -> K, xs: seq<T>) {
    forall i, j :: 0 <= i < j < |xs| ==> key(xs[i]) != key(xs[j])
  }

  lemma {:induction false} InsertKeepsDistinct<T(!new), K>(less: (T, T) -> bool, key: T -> K, xs: seq<T>, x: T)
    requires DistinctKeys(key, xs) && forall y <- xs :: key(y) != key(x)
    ensures DistinctKeys(key, Insert(less, xs, x))
    ensures forall y :: y in Insert(less, xs, x) <==> y in xs || y == x
  {
    if xs == [] || !less(x, xs[|xs| - 1]) {
    } else {
      var init, last := xs[..|xs| - 1], xs[|xs| - 1];
      InsertKeepsDistinct(less, key, init, x);
      assert xs == init + [last];
      assert last in xs;
      forall y <- Insert(less, init, x) ensures key(y) != key(last) {
        assert y == x || y in init;
      }
      assert forall y :: y in Insert(less, init, x) + [last] <==> y in Insert(less, init, x) || y == last;
    }
  }

  /** Keys that tell elements apart keep doing so. */
  lemma {:induction false} StableSortKeepsDistinct<T(!new), K>(less: (T, T) -> bool, key: T -> K, xs: seq<T>)
    requires DistinctKeys(key, xs)
    ensures DistinctKeys(key, StableSort(less, xs))
    ensures forall y :: y in StableSort(less, xs) <==> y in xs
  {
    if xs != [] {
      var init, last := xs[..|xs| - 1], xs[|xs| - 1];
      assert xs == init + [last];
      StableSortKeepsDistinct(less, key, init);
      InsertKeepsDistinct(less, key, StableSort(less, init), last);
    }
  }

  /** Two sequences in strict order with the same elements are the same. */
  lemma {:induction false} StrictOrderIsUnique<T(!new)>(less: (T, T) -> bool, xs: seq<T>, ys: seq<T>)
    requires IsOrder(less)
    requires forall i, j :: 0 <= i < j < |xs| ==> less(xs[i], xs[j])
    requires forall i, j :: 0 <= i < j < |ys| ==> less(ys[i], ys[j])
    requires forall x :: x in xs <==> x in ys
    ensures xs == ys
    decreases |xs| + |ys|, xs == []
  {
    if xs == [] && ys != [] {
      StrictOrderIsUnique(less, ys, xs);
    } else if xs != [] {
      assert xs[0] in ys && ys != [] && ys[0] in xs;
      assert xs[0] == ys[0];
      assert forall x :: x in xs <==> x == xs[0] || x in xs[1..];
      assert forall x :: x in ys <==> x == ys[0] || x in ys[1..];
      assert xs[0] !in xs[1..] && ys[0] !in ys[1..];
      StrictOrderIsUnique(less, xs[1..], ys[1..]);
    }
  }

  // Strings in lexicographic order.

  predicate StringLess(a: string, b: string) {
    if b == [] then false
    else if a == [] then true
    else if a[0] != b[0] then a[0] < b[0]
    else StringLess(a[1..], b[1..])
  }

  /** `a` is a proper prefix of `b`, or at the first place where they differ it has the smaller character. */
  ghost predicate FirstDifference(a: string, b: string, k: nat) {
    k <= |a| && k < |b| && a[..k] == b[..k] && (k < |a| ==> a[k] < b[k])
  }

  lemma {:induction false} StringLessMeans(a: string, b: string)
    ensures StringLess(a, b) <==> exists k: nat :: FirstDifference(a, b, k)
  {
    forall k: nat | FirstDifference(a, b, k) && k > 0 ensures a != [] && a[0] == b[0] {
      assert a[..k][0] == b[..k][0];
    }
    if a == [] || b == [] || a[0] != b[0] {
      assert StringLess(a, b) ==> FirstDifference(a, b, 0);
    } else {
      StringLessMeans(a[1..], b[1..]);
      if k: nat :| FirstDifference(a[1..], b[1..], k) {
        assert a[..k + 1] == [a[0]] + a[1..][..k] && b[..k + 1] == [b[0]] + b[1..][..k];
        assert FirstDifference(a, b, k + 1);
      }
      if k: nat :| FirstDifference(a, b, k) {
        assert k > 0;
        assert a[1..][..k - 1] == a[..k][1..] && b[1..][..k - 1] == b[..k][1..];
        assert FirstDifference(a[1..], b[1..], k - 1);
      }
    }
  }

  lemma {:induction false} StringLessTransitive(a: string, b: string, c: string)
    ensures StringLess(a, b) && StringLess(b, c) ==> StringLess(a, c)
    ensures !StringLess(a, b) && !StringLess(b, c) ==> !StringLess(a, c)
  {
    if a != [] && b != [] && c != [] {
      StringLessTransitive(a[1..], b[1..], c[1..]);
    }
  }

  lemma {:induction false} StringLessTotal(a: string, b: string)
    ensures !StringLess(a, a)
    ensures !StringLess(a, b) && !StringLess(b, a) ==> a == b
  {
    if a != [] {
      StringLessTotal(a[1..], if b == [] then [] else b[1..]);
    }
  }

  lemma StringOrder()
    ensures IsOrder(StringLess)
    ensures forall a, b :: !StringLess(a, b) && !StringLess(b, a) ==> a == b
  {
    forall a, b, c
      ensures StringLess(a, b) && StringLess(b, c) ==> StringLess(a, c)
      ensures !StringLess(a, b) && !StringLess(b, c) ==> !StringLess(a, c)
    {
      StringLessTransitive(a, b, c);
    }
    forall a, b
      ensures !StringLess(a, a)
      ensures !StringLess(a, b) && !StringLess(b, a) ==> a == b
    {
      StringLessTotal(a, b);
    }
  }
}
