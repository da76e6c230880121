/** Sorting by a key, equal keys keeping their order. */
module StableSorts {

  /** Places x after every element whose key is not larger. */
  function Insert<T>(key: T -> int, xs: seq<T>, x: T): seq<T> {
    if xs == [] || key(xs[|xs| - 1]) <= key(x) then xs + [x]
    else Insert(key, xs[..|xs| - 1], x) + [xs[|xs| - 1]]
  }

  function SortBy<T>(key: T -> int, xs: seq<T>): seq<T> {
    if xs == [] then [] else Insert(key, SortBy(key, xs[..|xs| - 1]), xs[|xs| - 1])
  }

  ghost predicate Ascending<T>(key: T -> int, xs: seq<T>) {
    forall i, j :: 0 <= i < j < |xs| ==> key(xs[i]) <= key(xs[j])
  }

  function WithKey<T>(key: T -> int, xs: seq<T>, k: int): seq<T> {
    if xs == [] then []
    else WithKey(key, xs[..|xs| - 1], k) + if key(xs[|xs| - 1]) == k then [xs[|xs| - 1]] else []
  }

  lemma SplitLast<T>(xs: seq<T>)
    requires xs != []
    ensures xs == xs[..|xs| - 1] + [xs[|xs| - 1]]
  {
  }

  lemma {:induction false} InsertKeeps<T>(key: T -> int, xs: seq<T>, x: T)
    ensures multiset(Insert(key, xs, x)) == multiset(xs) + multiset{x}
  {
    if xs != [] && key(xs[|xs| - 1]) > key(x) {
      InsertKeeps(key, xs[..|xs| - 1], x);
      SplitLast(xs);
    }
  }

  lemma {:induction false} InsertAscends<T>(key: T -> int, xs: seq<T>, x: T)
    requires Ascending(key, xs)
    ensures Ascending(key, Insert(key, xs, x))
  {
    if xs != [] && key(xs[|xs| - 1]) > key(x) {
      var front, last := xs[..|xs| - 1], xs[|xs| - 1];
      InsertAscends(key, front, x);
      InsertKeeps(key, front, x);
      var inserted := Insert(key, front, x);
      forall i | 0 <= i < |inserted| ensures key(inserted[i]) <= key(last) {
        assert inserted[i] in multiset(inserted);
        assert inserted[i] in multiset(front) || inserted[i] == x;
      }
    }
  }

  lemma {:induction false} SortedAscends<T>(key: T -> int, xs: seq<T>)
    ensures Ascending(key, SortBy(key, xs)) && multiset(SortBy(key, xs)) == multiset(xs)
  {
    if xs != [] {
      var front := xs[..|xs| - 1];
      SortedAscends(key, front);
      InsertAscends(key, SortBy(key, front), xs[|xs| - 1]);
      InsertKeeps(key, SortBy(key, front), xs[|xs| - 1]);
      SplitLast(xs);
    }
  }

  lemma WithKeyPush<T>(key: T -> int, xs: seq<T>, x: T, k: int)
    ensures WithKey(key, xs + [x], k) == WithKey(key, xs, k) + if key(x) == k then [x] else []
  {
    assert (xs + [x])[..|xs|] == xs;
  }

  lemma {:induction false} InsertIsStable<T>(key: T -> int, xs: seq<T>, x: T, k: int)
    ensures WithKey(key, Insert(key, xs, x), k) == WithKey(key, xs, k) + if key(x) == k then [x] else []
  {
    if xs == [] || key(xs[|xs| - 1]) <= key(x) {
      WithKeyPush(key, xs, x, k);
    } else {
      var front, last := xs[..|xs| - 1], xs[|xs| - 1];
      InsertIsStable(key, front, x, k);
      WithKeyPush(key, Insert(key, front, x), last, k);
      LargestGoesLast(key, front, x, last, k);
    }
  }

  lemma LargestGoesLast<T>(key: T -> int, front: seq<T>, x: T, last: T, k: int)
    requires key(last) > key(x)
    ensures var f := WithKey(key, front, k);
            f + (if key(x) == k then [x] else []) + (if key(last) == k then [last] else [])
            == f + (if key(last) == k then [last] else []) + (if key(x) == k then [x] else [])
  {
  }

  lemma {:induction false} SortIsStable<T>(key: T -> int, xs: seq<T>, k: int)
    ensures WithKey(key, SortBy(key, xs), k) == WithKey(key, xs, k)
  {
    if xs != [] {
      SortIsStable(key, xs[..|xs| - 1], k);
      InsertIsStable(key, SortBy(key, xs[..|xs| - 1]), xs[|xs| - 1], k);
    }
  }
}
