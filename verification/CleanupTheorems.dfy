/** What a cleanup pass guarantees about the cache it leaves. */
module CleanupTheorems {
  import opened Common
  import opened Collections
  import opened Codecs
  import opened BlobStores
  import opened TreeStores
  import opened StableSorts
  import opened Cleanups

  type Walk = set<string> -> seq<string>

  function Sum(items: seq<Item>): nat {
    if items == [] then 0 else Sum(items[..|items| - 1]) + items[|items| - 1].bytes
  }

  // ── The pass is determined ────────────────────────────────────────

  lemma ShortestIsUnique(queue: seq<Item>, total: nat, floor: nat, k: int, k': int)
    requires ShortestPrefix(queue, total, floor, k) && ShortestPrefix(queue, total, floor, k')
    ensures k == k'
  {
  }

  /** Hard tier before grace tier, oldest first within each. */
  lemma QueueOrder(policy: Policy, now: int, references: seq<References>, items: seq<Item>, i: nat, j: nat)
    requires i < j < |Queue(policy, now, references, items)|
    ensures var x, y := Queue(policy, now, references, items)[i], Queue(policy, now, references, items)[j];
            || (InHardTier(policy, now, references, x) && InGraceTier(policy, now, references, y))
            || (InHardTier(policy, now, references, x) && InHardTier(policy, now, references, y) && x.last <= y.last)
            || (InGraceTier(policy, now, references, x) && InGraceTier(policy, now, references, y) && x.last <= y.last)
  {
    hide InHardTier, InGraceTier, SortBy;
    var hard, grace := HardTier(policy, now, references, items), GraceTier(policy, now, references, items);
    SortedAscends(Age, hard);
    SortedAscends(Age, grace);
    SameElements(SortBy(Age, hard), hard);
    SameElements(SortBy(Age, grace), grace);
    var first, second := SortBy(Age, hard), SortBy(Age, grace);
    if i < |first| { assert first[i] in first; } else { assert second[i - |first|] in second; }
    if j < |first| { assert first[j] in first; } else { assert second[j - |first|] in second; }
  }

  // ── Totals ────────────────────────────────────────────────────────

  lemma {:induction false} TotalIsClampedSum(items: seq<Item>)
    ensures Total(items) == Min(Sum(items), TWO64 - 1)
  {
    if items != [] { TotalIsClampedSum(items[..|items| - 1]); }
  }

  lemma {:induction false} ReclaimedIsClampedSum(deleted: seq<Item>)
    ensures Tally(deleted).reclaimed == Min(Sum(deleted), TWO64 - 1) && Tally(deleted).deletedBlobs + Tally(deleted).deletedTrees == |deleted|
  {
    if deleted != [] { ReclaimedIsClampedSum(deleted[..|deleted| - 1]); }
  }

  lemma {:induction false} LeftIsDifference(total: nat, deleted: seq<Item>)
    requires Sum(deleted) <= total
    ensures Left(total, deleted) == total - Sum(deleted)
  {
    if deleted != [] { LeftIsDifference(total, deleted[..|deleted| - 1]); }
  }

  // ── Sums over rearranged lists ────────────────────────────────────

  lemma {:induction false} SumWithout(xs: seq<Item>, i: nat)
    requires i < |xs|
    ensures Sum(xs) == Sum(Without(xs, i)) + xs[i].bytes
  {
    if i == |xs| - 1 {
      assert Without(xs, i) == xs[..i];
    } else {
      var front := xs[..|xs| - 1];
      SumWithout(front, i);
      assert Without(xs, i)[..|xs| - 2] == Without(front, i);
    }
  }

  lemma MultisetWithout(xs: seq<Item>, i: nat)
    requires i < |xs|
    ensures multiset(Without(xs, i)) == multiset(xs) - multiset{xs[i]}
  {
    assert xs == xs[..i] + [xs[i]] + xs[i + 1..];
  }

  lemma PartsWithout(xs: seq<Item>, ys: seq<Item>, zs: seq<Item>, i: nat)
    requires multiset(xs) == multiset(ys) + multiset(zs) && xs != [] && i < |ys| && ys[i] == xs[|xs| - 1]
    ensures var rest := Without(xs, |xs| - 1);
            && multiset(rest) == multiset(Without(ys, i)) + multiset(zs)
            && Sum(xs) == Sum(rest) + ys[i].bytes && Sum(ys) == Sum(Without(ys, i)) + ys[i].bytes
  {
    hide Sum, Without;
    SumWithout(xs, |xs| - 1);
    SumWithout(ys, i);
    MultisetWithout(xs, |xs| - 1);
    MultisetWithout(ys, i);
  }

  lemma {:induction false} SumOfParts(xs: seq<Item>, ys: seq<Item>, zs: seq<Item>)
    requires multiset(xs) == multiset(ys) + multiset(zs)
    ensures Sum(xs) == Sum(ys) + Sum(zs)
    decreases |xs|
  {
    SizesAddUp(xs, ys, zs);
    if xs != [] {
      var x := xs[|xs| - 1];
      assert x in multiset(xs);
      if x in ys {
        var i :| 0 <= i < |ys| && ys[i] == x;
        PartsWithout(xs, ys, zs, i);
        SumOfParts(Without(xs, |xs| - 1), Without(ys, i), zs);
      } else {
        assert x in multiset(zs);
        var i :| 0 <= i < |zs| && zs[i] == x;
        PartsWithout(xs, zs, ys, i);
        SumOfParts(Without(xs, |xs| - 1), Without(zs, i), ys);
      }
    }
  }

  lemma SizesAddUp(xs: seq<Item>, ys: seq<Item>, zs: seq<Item>)
    requires multiset(xs) == multiset(ys) + multiset(zs)
    ensures |xs| == |ys| + |zs|
  {
    assert |multiset(xs)| == |xs| && |multiset(ys)| == |ys| && |multiset(zs)| == |zs|;
  }

  ghost predicate NoRepeats(xs: seq<Item>) {
    forall x :: multiset(xs)[x] <= 1
  }

  lemma {:induction false} DistinctHasNoRepeats(xs: seq<Item>)
    requires forall i, j :: 0 <= i < j < |xs| ==> xs[i] != xs[j]
    ensures NoRepeats(xs)
  {
    if xs != [] {
      var front, last := xs[..|xs| - 1], xs[|xs| - 1];
      DistinctHasNoRepeats(front);
      SplitLast(xs);
      assert last !in front;
      assert multiset(front)[last] == 0;
    }
  }

  // ── What is left ──────────────────────────────────────────────────

  function DigestsOf(kind: Kind, deleted: seq<Item>): set<string> {
    set x | x in deleted && x.kind == kind :: x.digest
  }

  function Removed(c: Snap, blobs: set<string>, trees: set<string>): Snap {
    Snap(Store(c.store.blobs - blobs, c.store.zstd - blobs, c.store.meta - blobs), c.trees - trees)
  }

  lemma DigestsSplit(kind: Kind, deleted: seq<Item>)
    requires deleted != []
    ensures var last := deleted[|deleted| - 1];
            DigestsOf(kind, deleted) == DigestsOf(kind, deleted[..|deleted| - 1]) + if last.kind == kind then {last.digest} else {}
  {
    var front, last := deleted[..|deleted| - 1], deleted[|deleted| - 1];
    assert forall x :: x in deleted <==> x in front || x == last;
    forall d ensures d in DigestsOf(kind, deleted) <==> d in DigestsOf(kind, front) || (last.kind == kind && d == last.digest) {
      if d in DigestsOf(kind, deleted) {
        var x :| x in deleted && x.kind == kind && x.digest == d;
        assert x in front || x == last;
      }
      if last.kind == kind && d == last.digest { assert last in deleted; }
    }
  }

  lemma RemovedIsSound(codec: Codec, c: Snap, blobs: set<string>, trees: set<string>)
    requires CacheSound(codec, c)
    ensures CacheSound(codec, Removed(c, blobs, trees))
  {
    var st := Removed(c, blobs, trees).store;
    forall d | d in st.blobs ensures BlobSound(codec, st, d) { assert BlobSound(codec, c.store, d); }
    forall d | d in st.zstd ensures VariantSound(codec, st, d) { assert VariantSound(codec, c.store, d); }
  }

  lemma DeleteOne(codec: Codec, c: Snap, x: Item)
    requires CacheSound(codec, c) && ValidDigest(x.digest)
    ensures DeleteItem(c, x) == Removed(c, if x.kind.Blob? then {x.digest} else {}, if x.kind.Tree? then {x.digest} else {})
  {
    if x.kind.Blob? {
      if x.digest in c.store.zstd { assert VariantSound(codec, c.store, x.digest); }
      assert DeleteItem(c, x).store.zstd == c.store.zstd - {x.digest};
      assert c.trees - {} == c.trees;
    } else {
      assert c.store.blobs - {} == c.store.blobs && c.store.zstd - {} == c.store.zstd && c.store.meta - {} == c.store.meta;
    }
  }

  lemma RemovedTwice(c: Snap, b: set<string>, t: set<string>, b': set<string>, t': set<string>)
    ensures Removed(Removed(c, b, t), b', t') == Removed(c, b + b', t + t')
  {
    assert (c.store.blobs - b) - b' == c.store.blobs - (b + b');
    assert (c.store.zstd - b) - b' == c.store.zstd - (b + b');
    assert (c.store.meta - b) - b' == c.store.meta - (b + b');
    assert (c.trees - t) - t' == c.trees - (t + t');
  }

  lemma NothingRemoved(c: Snap)
    ensures Removed(c, {}, {}) == c
  {
    assert c.store.blobs - {} == c.store.blobs && c.store.zstd - {} == c.store.zstd && c.store.meta - {} == c.store.meta && c.trees - {} == c.trees;
  }

  /** Deleting a list removes every trace of those digests and leaves the rest as it was. */
  lemma {:induction false} DeletedExactly(codec: Codec, c: Snap, deleted: seq<Item>)
    requires CacheSound(codec, c) && forall x :: x in deleted ==> ValidDigest(x.digest)
    ensures DeleteItems(c, deleted) == Removed(c, DigestsOf(Blob, deleted), DigestsOf(Tree, deleted))
    ensures CacheSound(codec, DeleteItems(c, deleted))
    decreases |deleted|
  {
    hide CacheSound, Removed, DeleteItem, ValidDigest;
    if deleted == [] {
      assert DigestsOf(Blob, deleted) == {} && DigestsOf(Tree, deleted) == {};
      NothingRemoved(c);
    } else {
      var front, last := deleted[..|deleted| - 1], deleted[|deleted| - 1];
      assert last in deleted;
      DeletedExactly(codec, c, front);
      DeleteOne(codec, DeleteItems(c, front), last);
      DigestsSplit(Blob, deleted);
      DigestsSplit(Tree, deleted);
      RemovedTwice(c, DigestsOf(Blob, front), DigestsOf(Tree, front), if last.kind.Blob? then {last.digest} else {}, if last.kind.Tree? then {last.digest} else {});
      RemovedIsSound(codec, c, DigestsOf(Blob, deleted), DigestsOf(Tree, deleted));
    }
  }

  lemma StoredAfter(c: Snap, deleted: seq<Item>, x: Item)
    requires forall y :: y in deleted ==> Stored(c, y)
    ensures Stored(Removed(c, DigestsOf(Blob, deleted), DigestsOf(Tree, deleted)), x) <==> Stored(c, x) && x !in deleted
  {
    var c' := Removed(c, DigestsOf(Blob, deleted), DigestsOf(Tree, deleted));
    if Stored(c, x) && x in deleted { assert x.digest in DigestsOf(x.kind, deleted); }
    if Stored(c, x) && x.digest in DigestsOf(x.kind, deleted) {
      var y :| y in deleted && y.kind == x.kind && y.digest == x.digest;
      assert Stored(c, y);
    }
  }

  lemma StoredIsListed(walk: Walk, c: Snap, x: Item)
    requires Walks(walk)
    ensures x in Items(walk, c) <==> Stored(c, x)
  {
    var ds, ts := walk(c.store.meta.Keys), walk(c.trees.Keys);
    var bs := BlobItems(c.store.meta, ds);
    var ys := TreeItems(c.trees, ts);
    if Stored(c, x) {
      if x.kind.Blob? {
        assert x.digest in ds;
        var i :| 0 <= i < |ds| && ds[i] == x.digest;
        assert bs[i] == x;
      } else {
        assert x.digest in ts;
        var i :| 0 <= i < |ts| && ts[i] == x.digest;
        assert ys[i] == x;
      }
    }
    if x in bs {
      var i :| 0 <= i < |bs| && bs[i] == x;
      assert ds[i] in ds;
    }
    if x in ys {
      var i :| 0 <= i < |ys| && ys[i] == x;
      assert ts[i] in ts;
    }
  }

  lemma ListedOnce(walk: Walk, c: Snap)
    requires Walks(walk)
    ensures NoRepeats(Items(walk, c))
  {
    var items := Items(walk, c);
    var bs := BlobItems(c.store.meta, walk(c.store.meta.Keys));
    forall i, j | 0 <= i < j < |items| ensures items[i] != items[j] {
      if j < |bs| {
        assert items[i].digest != items[j].digest;
      } else if i >= |bs| {
        assert items[i].digest != items[j].digest;
      } else {
        assert items[i].kind != items[j].kind;
      }
    }
    DistinctHasNoRepeats(items);
  }

  lemma {:induction false} TiersAreParts(policy: Policy, now: int, references: seq<References>, items: seq<Item>)
    ensures multiset(HardTier(policy, now, references, items)) + multiset(GraceTier(policy, now, references, items)) <= multiset(items)
  {
    hide Active;
    if items != [] {
      TiersAreParts(policy, now, references, items[..|items| - 1]);
      SplitLast(items);
    }
  }

  lemma QueueIsPart(policy: Policy, now: int, references: seq<References>, items: seq<Item>)
    ensures multiset(Queue(policy, now, references, items)) <= multiset(items)
  {
    hide HardTier, GraceTier, SortBy;
    var hard, grace := HardTier(policy, now, references, items), GraceTier(policy, now, references, items);
    SortedAscends(Age, hard);
    SortedAscends(Age, grace);
    TiersAreParts(policy, now, references, items);
  }

  /** The parts of a split list: what stays listed and what was deleted make up what was listed. */
  lemma KeptPlusDeleted(items: seq<Item>, deleted: seq<Item>, kept: seq<Item>)
    requires NoRepeats(items) && NoRepeats(kept) && multiset(deleted) <= multiset(items)
    requires forall x :: x in kept <==> x in items && x !in deleted
    ensures multiset(items) == multiset(kept) + multiset(deleted)
  {
    forall x ensures multiset(items)[x] == multiset(kept)[x] + multiset(deleted)[x] {
      assert (x in items <==> multiset(items)[x] > 0) && (x in kept <==> multiset(kept)[x] > 0) && (x in deleted <==> multiset(deleted)[x] > 0);
    }
  }

  // ── The pass as a whole ───────────────────────────────────────────

  lemma PrefixIsPart<T>(xs: seq<T>, k: nat)
    requires k <= |xs|
    ensures multiset(xs[..k]) <= multiset(xs) && forall x :: x in xs[..k] ==> x in xs
  {
    assert xs == xs[..k] + xs[k..];
  }

  /** The items still listed are those that were listed and not deleted, and their sizes add up. */
  lemma LeftBehind(codec: Codec, walk: Walk, c: Snap, policy: Policy, now: int, references: seq<References>, k: nat)
    requires Walks(walk) && CacheSound(codec, c) && k <= |Queue(policy, now, references, Items(walk, c))|
    ensures var items := Items(walk, c);
            var deleted := Queue(policy, now, references, items)[..k];
            var c' := DeleteItems(c, deleted);
            && CacheSound(codec, c') && c' == Removed(c, DigestsOf(Blob, deleted), DigestsOf(Tree, deleted))
            && (forall x :: x in Items(walk, c') <==> x in items && x !in deleted)
            && Sum(items) == Sum(Items(walk, c')) + Sum(deleted)
  {
    hide Walks, CacheSound, Queue, Items, Stored, DeleteItems, Removed, ValidDigest;
    var items := Items(walk, c);
    var queue := Queue(policy, now, references, items);
    var deleted := queue[..k];
    var c' := DeleteItems(c, deleted);
    QueueDigestsAreValid(codec, walk, c, policy, now, references);
    QueueIsPart(policy, now, references, items);
    QueueIsTheTiers(policy, now, references, items);
    PrefixIsPart(queue, k);
    DeletedExactly(codec, c, deleted);
    forall x ensures x in items <==> Stored(c, x) { StoredIsListed(walk, c, x); }
    forall x ensures x in Items(walk, c') <==> x in items && x !in deleted {
      StoredIsListed(walk, c', x);
      StoredAfter(c, deleted, x);
    }
    ListedOnce(walk, c);
    ListedOnce(walk, c');
    KeptPlusDeleted(items, deleted, Items(walk, c'));
    SumOfParts(items, Items(walk, c'), deleted);
  }

  /**
   A cleanup pass: nothing in use or newer than both cutoffs goes, everything not deleted is
   as it was, the reclaimed size is what went, and, when the sizes fit in 64 bits, the pass
   deletes the shortest prefix that brings what is really left to the floor.
   */
  lemma CleanupTheorem(codec: Codec, walk: Walk, c: Snap, policy: Policy, now: int, references: seq<References>, k: nat)
    requires Walks(walk) && CacheSound(codec, c)
    requires ShortestPrefix(Queue(policy, now, references, Items(walk, c)), Total(Items(walk, c)), policy.floor, k)
    ensures var items := Items(walk, c);
            var queue := Queue(policy, now, references, items);
            var c' := DeleteItems(c, queue[..k]);
            && CacheSound(codec, c')
            && (forall x :: x in queue[..k] ==> Stored(c, x) && !Active(references, x) && (x.last <= Cutoff(now, policy.hardHours) || x.last <= Cutoff(now, policy.graceHours)))
            && (forall x :: x in Items(walk, c') <==> x in items && x !in queue[..k])
            && Tally(queue[..k]).reclaimed == Min(Sum(queue[..k]), TWO64 - 1)
            && Sum(Items(walk, c')) == Sum(items) - Sum(queue[..k])
    ensures var items := Items(walk, c);
            var queue := Queue(policy, now, references, items);
            Sum(items) < TWO64 ==>
              && (forall j :: 0 <= j < k ==> Sum(items) - Sum(queue[..j]) > policy.floor)
              && (k < |queue| ==> Sum(Items(walk, DeleteItems(c, queue[..k]))) <= policy.floor)
  {
    hide Walks, CacheSound, Queue, Items, Stored, DeleteItems, Active, Total, Tally, Left;
    var items := Items(walk, c);
    var queue := Queue(policy, now, references, items);
    LeftBehind(codec, walk, c, policy, now, references, k);
    QueueIsTheTiers(policy, now, references, items);
    PrefixIsPart(queue, k);
    forall x | x in items ensures Stored(c, x) { StoredIsListed(walk, c, x); }
    ReclaimedIsClampedSum(queue[..k]);
    TotalIsClampedSum(items);
    if Sum(items) < TWO64 {
      forall j | 0 <= j <= k ensures Left(Total(items), queue[..j]) == Sum(items) - Sum(queue[..j]) {
        LeftBehind(codec, walk, c, policy, now, references, j);
        LeftIsDifference(Sum(items), queue[..j]);
      }
    }
  }

  lemma NothingEligible(policy: Policy, now: int, references: seq<References>, items: seq<Item>)
    requires forall x :: x in items ==> !InHardTier(policy, now, references, x) && !InGraceTier(policy, now, references, x)
    ensures Queue(policy, now, references, items) == []
  {
    hide Queue, InHardTier, InGraceTier;
    QueueIsTheTiers(policy, now, references, items);
    NoMembers(Queue(policy, now, references, items));
  }

  lemma NoMembers<T>(xs: seq<T>)
    ensures xs == [] || xs[0] in xs
  {
  }

  /** A second pass right after the first deletes nothing. */
  lemma SecondPassDeletesNothing(codec: Codec, walk: Walk, c: Snap, policy: Policy, now: int, references: seq<References>, k: nat, k': nat)
    requires Walks(walk) && CacheSound(codec, c) && Sum(Items(walk, c)) < TWO64
    requires ShortestPrefix(Queue(policy, now, references, Items(walk, c)), Total(Items(walk, c)), policy.floor, k)
    requires var c' := DeleteItems(c, Queue(policy, now, references, Items(walk, c))[..k]);
             ShortestPrefix(Queue(policy, now, references, Items(walk, c')), Total(Items(walk, c')), policy.floor, k')
    ensures k' == 0
  {
    hide Walks, CacheSound, Queue, Items, Stored, DeleteItems, Active, Total, InHardTier, InGraceTier;
    var items := Items(walk, c);
    var queue := Queue(policy, now, references, items);
    var items' := Items(walk, DeleteItems(c, queue[..k]));
    CleanupTheorem(codec, walk, c, policy, now, references, k);
    TotalIsClampedSum(items');
    if k == |queue| {
      assert queue[..k] == queue;
      QueueIsTheTiers(policy, now, references, items);
      NothingEligible(policy, now, references, items');
    } else {
      assert Queue(policy, now, references, items')[..0] == [];
    }
  }
}
