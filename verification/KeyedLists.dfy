/** Lists that hold one entry for each key, kept in the order of their keys: a map, written as a list. */
module KeyedLists {
  import opened Sorting

  ghost predicate Represents<T>(key: T -> string, xs: seq<T>, m: map<string, T>) {
    && DistinctKeys(key, xs)
    && (forall i :: 0 <= i < |xs| ==> key(xs[i]) in m && m[key(xs[i])] == xs[i])
    && (forall k <- m :: m[k] in xs && key(m[k]) == k)
  }

  /** Strictly increasing. */
  ghost predicate Canonical<T>(less: (T, T) -> bool, xs: seq<T>) {
    forall i, j :: 0 <= i < j < |xs| ==> less(xs[i], xs[j])
  }

  /** `less` orders entries by their keys and by nothing else. */
  ghost predicate OrdersByKey<T(!new)>(key: T -> string, less: (T, T) -> bool) {
    && IsOrder(less)
    && (forall a, b :: !less(a, b) && !less(b, a) ==> key(a) == key(b))
  }

  lemma AppendRepresents<T(!new)>(key: T -> string, xs: seq<T>, m: map<string, T>, c: T)
    requires Represents(key, xs, m) && forall i :: 0 <= i < |xs| ==> key(xs[i]) != key(c)
    ensures key(c) !in m
    ensures Represents(key, xs + [c], m[key(c) := c])
  {
    var ys := xs + [c];
    assert ys[|xs|] == c;
    forall k <- m ensures m[k] in ys { assert m[k] in xs; }
  }

  lemma ReplaceRepresents<T(!new)>(key: T -> string, xs: seq<T>, m: map<string, T>, i: nat, c: T)
    requires Represents(key, xs, m) && i < |xs| && key(xs[i]) == key(c)
    ensures Represents(key, xs[i := c], m[key(c) := c])
  {
    var ys := xs[i := c];
    assert ys[i] == c;
    forall j | 0 <= j < |ys| && j != i ensures key(ys[j]) != key(c) && ys[j] == xs[j] {
      if j < i { assert key(xs[j]) != key(xs[i]); } else { assert key(xs[i]) != key(xs[j]); }
    }
    forall k | k in m && k != key(c) ensures m[k] in ys {
      var j :| 0 <= j < |xs| && xs[j] == m[k];
      assert ys[j] == m[k];
    }
  }

  /** Sorting keeps what a list represents and makes it canonical. */
  lemma SortRepresents<T(!new)>(key: T -> string, less: (T, T) -> bool, xs: seq<T>, m: map<string, T>)
    requires OrdersByKey(key, less) && Represents(key, xs, m)
    ensures Represents(key, StableSort(less, xs), m) && Canonical(less, StableSort(less, xs))
  {
    var ys := StableSort(less, xs);
    StableSortSorts(less, xs);
    StableSortKeepsDistinct(less, key, xs);
    forall i | 0 <= i < |ys| ensures key(ys[i]) in m && m[key(ys[i])] == ys[i] {
      assert ys[i] in xs;
      var j :| 0 <= j < |xs| && xs[j] == ys[i];
      assert key(xs[j]) in m;
    }
    forall i, j | 0 <= i < j < |ys| ensures less(ys[i], ys[j]) {
      assert key(ys[i]) != key(ys[j]);
    }
  }

  /** The content determines the canonical list. */
  lemma CanonicalIsUnique<T(!new)>(key: T -> string, less: (T, T) -> bool, xs: seq<T>, ys: seq<T>, m: map<string, T>)
    requires OrdersByKey(key, less)
    requires Represents(key, xs, m) && Represents(key, ys, m) && Canonical(less, xs) && Canonical(less, ys)
    ensures xs == ys
  {
    forall c ensures c in xs <==> c in ys {
      if c in xs { var i :| 0 <= i < |xs| && xs[i] == c; assert m[key(xs[i])] == c; }
      if c in ys { var i :| 0 <= i < |ys| && ys[i] == c; assert m[key(ys[i])] == c; }
    }
    StrictOrderIsUnique(less, xs, ys);
  }
}
