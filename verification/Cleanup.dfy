/** The cleanup pass over the snapshot cache: two age tiers, oldest first, down to a retained-size floor. */
module Cleanups {
  import opened Common
  import opened Collections
  import opened Codecs
  import opened BlobStores
  import opened TreeStores
  import opened StableSorts

  datatype Kind = Blob | Tree

  datatype Item = Item(kind: Kind, digest: string, last: int, bytes: nat)

  /** What one workorder still uses. */
  datatype References = References(blobs: set<string>, trees: set<string>)

  datatype Policy = Policy(graceHours: nat, hardHours: nat, floor: nat)

  datatype Summary = Summary(deletedBlobs: nat, deletedTrees: nat, reclaimed: nat)

  function Cutoff(now: int, hours: nat): int {
    now - hours * 3600
  }

  predicate Active(references: seq<References>, x: Item) {
    exists i :: 0 <= i < |references| && x.digest in (if x.kind.Blob? then references[i].blobs else references[i].trees)
  }

  // ── What is listed ────────────────────────────────────────────────

  function VariantBytes(size: Option<nat>): nat {
    if size.Some? then size.value else 0
  }

  function BlobItem(meta: map<string, Metadata>, d: string): Item
    requires d in meta
  {
    Item(Blob, d, meta[d].lastReferencedAt, meta[d].rawSize + VariantBytes(meta[d].zstdSize))
  }

  function TreeItem(trees: Trees, d: string): Item
    requires d in trees
  {
    Item(Tree, d, trees[d].lastReferencedAt, trees[d].rawSize + VariantBytes(trees[d].zstdSize))
  }

  function BlobItems(meta: map<string, Metadata>, digests: seq<string>): (items: seq<Item>)
    requires forall d :: d in digests ==> d in meta
    ensures |items| == |digests| && forall i :: 0 <= i < |digests| ==> items[i] == BlobItem(meta, digests[i])
  {
    if digests == [] then [] else BlobItems(meta, digests[..|digests| - 1]) + [BlobItem(meta, digests[|digests| - 1])]
  }

  function TreeItems(trees: Trees, digests: seq<string>): (items: seq<Item>)
    requires forall d :: d in digests ==> d in trees
    ensures |items| == |digests| && forall i :: 0 <= i < |digests| ==> items[i] == TreeItem(trees, digests[i])
  {
    if digests == [] then [] else TreeItems(trees, digests[..|digests| - 1]) + [TreeItem(trees, digests[|digests| - 1])]
  }

  function Items(walk: set<string> -> seq<string>, c: Snap): seq<Item>
    requires Walks(walk)
  {
    BlobItems(c.store.meta, walk(c.store.meta.Keys)) + TreeItems(c.trees, walk(c.trees.Keys))
  }

  // ── What is deleted ───────────────────────────────────────────────

  function Total(items: seq<Item>): nat {
    if items == [] then 0 else SatAdd(Total(items[..|items| - 1]), items[|items| - 1].bytes)
  }

  /** The running total after these deletions. */
  function Left(total: nat, deleted: seq<Item>): nat {
    if deleted == [] then total else SatSub(Left(total, deleted[..|deleted| - 1]), deleted[|deleted| - 1].bytes)
  }

  predicate InHardTier(policy: Policy, now: int, references: seq<References>, x: Item) {
    !Active(references, x) && x.last <= Cutoff(now, policy.hardHours)
  }

  predicate InGraceTier(policy: Policy, now: int, references: seq<References>, x: Item) {
    !Active(references, x) && x.last > Cutoff(now, policy.hardHours) && x.last <= Cutoff(now, policy.graceHours)
  }

  function HardTier(policy: Policy, now: int, references: seq<References>, items: seq<Item>): (tier: seq<Item>)
    ensures forall x :: x in tier <==> x in items && InHardTier(policy, now, references, x)
  {
    if items == [] then []
    else
      var last := items[|items| - 1];
      HardTier(policy, now, references, items[..|items| - 1]) + if InHardTier(policy, now, references, last) then [last] else []
  }

  function GraceTier(policy: Policy, now: int, references: seq<References>, items: seq<Item>): (tier: seq<Item>)
    ensures forall x :: x in tier <==> x in items && InGraceTier(policy, now, references, x)
  {
    if items == [] then []
    else
      var last := items[|items| - 1];
      GraceTier(policy, now, references, items[..|items| - 1]) + if InGraceTier(policy, now, references, last) then [last] else []
  }

  function Age(x: Item): int {
    x.last
  }

  /** The order in which deletion is considered. */
  function Queue(policy: Policy, now: int, references: seq<References>, items: seq<Item>): seq<Item> {
    SortBy(Age, HardTier(policy, now, references, items)) + SortBy(Age, GraceTier(policy, now, references, items))
  }

  /** Of the first `upto`, k were deleted: each deletion began above the floor, and k falls short only at or below it. */
  ghost predicate Drained(queue: seq<Item>, total: nat, floor: nat, upto: int, k: int) {
    && 0 <= k <= upto <= |queue|
    && (forall j :: 0 <= j < k ==> Left(total, queue[..j]) > floor)
    && (k < upto ==> Left(total, queue[..k]) <= floor)
  }

  /** No shorter prefix reaches the floor, and this one does unless it is everything. */
  ghost predicate ShortestPrefix(queue: seq<Item>, total: nat, floor: nat, k: int) {
    Drained(queue, total, floor, |queue|, k)
  }

  function Tally(deleted: seq<Item>): Summary {
    if deleted == [] then Summary(0, 0, 0)
    else
      var s, x := Tally(deleted[..|deleted| - 1]), deleted[|deleted| - 1];
      Summary(s.deletedBlobs + (if x.kind.Blob? then 1 else 0), s.deletedTrees + (if x.kind.Tree? then 1 else 0), SatAdd(s.reclaimed, x.bytes))
  }

  function DeleteItem(c: Snap, x: Item): Snap {
    if x.kind.Blob? then c.(store := DeleteBlob(c.store, x.digest).store) else c.(trees := c.trees - {x.digest})
  }

  function DeleteItems(c: Snap, deleted: seq<Item>): Snap {
    if deleted == [] then c else DeleteItem(DeleteItems(c, deleted[..|deleted| - 1]), deleted[|deleted| - 1])
  }

  ghost predicate CacheSound(codec: Codec, c: Snap) {
    codec.Lawful() && Sound(codec, c.store) && forall d :: d in c.trees ==> ValidDigest(d)
  }

  // ── The pass as the server performs it ────────────────────────────

  class SnapshotCache {
    const blobs: BlobStore
    const walk: set<string> -> seq<string>
    const trees: TreeStore

    ghost function Contents(): Snap
      reads blobs, trees
    {
      Snap(blobs.Contents(), trees.trees)
    }

    ghost predicate Valid()
      reads blobs, trees
    {
      Walks(walk) && CacheSound(blobs.codec, Contents())
    }

    constructor (blobs: BlobStore, trees: TreeStore, walk: set<string> -> seq<string>)
      requires Walks(walk) && CacheSound(blobs.codec, Snap(blobs.Contents(), trees.trees))
      ensures Valid() && this.blobs == blobs && this.trees == trees && this.walk == walk
    {
      this.blobs, this.trees, this.walk := blobs, trees, walk;
    }

    method List() returns (items: seq<Item>)
      requires Valid()
      ensures items == Items(walk, Contents())
    {
      return BlobItems(blobs.meta, walk(blobs.meta.Keys)) + TreeItems(trees.trees, walk(trees.trees.Keys));
    }

    /** Sorts one listing into the running total and the two tiers. */
    static method Classify(policy: Policy, now: int, references: seq<References>, items: seq<Item>)
      returns (total: nat, hard: seq<Item>, grace: seq<Item>)
      ensures total == Total(items)
      ensures hard == HardTier(policy, now, references, items) && grace == GraceTier(policy, now, references, items)
    {
      total, hard, grace := 0, [], [];
      var i := 0;
      while i < |items|
        invariant i <= |items| && total == Total(items[..i])
        invariant hard == HardTier(policy, now, references, items[..i]) && grace == GraceTier(policy, now, references, items[..i])
      {
        assert items[..i + 1][..i] == items[..i];
        var x := items[i];
        total := SatAdd(total, x.bytes);
        if !Active(references, x) {
          if x.last <= Cutoff(now, policy.hardHours) {
            hard := hard + [x];
          } else if x.last <= Cutoff(now, policy.graceHours) {
            grace := grace + [x];
          }
        }
        i := i + 1;
      }
      assert items[..i] == items;
    }

    method DeleteEntry(x: Item, before: Summary) returns (after: Summary)
      requires Valid() && ValidDigest(x.digest)
      modifies trees, blobs
      ensures Valid() && Contents() == DeleteItem(old(Contents()), x)
      ensures after == Summary(before.deletedBlobs + (if x.kind.Blob? then 1 else 0), before.deletedTrees + (if x.kind.Tree? then 1 else 0),
                               SatAdd(before.reclaimed, x.bytes))
    {
      after := before;
      match x.kind {
        case Blob =>
          var _ := blobs.Delete(x.digest);
          after := after.(deletedBlobs := after.deletedBlobs + 1);
        case Tree =>
          trees.Delete(x.digest);
          after := after.(deletedTrees := after.deletedTrees + 1);
      }
      after := after.(reclaimed := SatAdd(after.reclaimed, x.bytes));
    }

    /** Deletes from the front of a tier until the floor is reached; `k` entries of earlier tiers are already gone. */
    method DrainTier(tier: seq<Item>, floor: nat, total: nat, summary: Summary,
                     ghost start: Snap, ghost total0: nat, ghost queue: seq<Item>, ghost from: nat, ghost k: nat)
      returns (total': nat, summary': Summary, ghost k': nat)
      requires Valid() && k <= |queue| && Drained(queue, total0, floor, from, k)
      requires from + |tier| <= |queue| && tier == queue[from..from + |tier|] && forall x :: x in tier ==> ValidDigest(x.digest)
      requires Contents() == DeleteItems(start, queue[..k]) && summary == Tally(queue[..k]) && total == Left(total0, queue[..k])
      modifies trees, blobs
      ensures Valid() && k' <= |queue| && Drained(queue, total0, floor, from + |tier|, k')
      ensures Contents() == DeleteItems(start, queue[..k']) && summary' == Tally(queue[..k']) && total' == Left(total0, queue[..k'])
    {
      hide Walks, CacheSound, ValidDigest, DeleteItem, DeleteItems, Tally, Left, Drained;
      total', summary', k' := total, summary, k;
      var i := 0;
      while i < |tier|
        invariant i <= |tier| && Valid() && 0 <= k' <= |queue| && Drained(queue, total0, floor, from + i, k')
        invariant Contents() == DeleteItems(start, queue[..k']) && summary' == Tally(queue[..k']) && total' == Left(total0, queue[..k'])
      {
        if total' <= floor {
          DrainedStop(queue, total0, floor, from + i, from + |tier|, k');
          break;
        }
        DrainedNext(queue, total0, floor, from + i, k', start);
        var x := tier[i];
        assert x in tier;
        summary' := DeleteEntry(x, summary');
        total' := SatSub(total', x.bytes);
        k' := k' + 1;
        i := i + 1;
      }
    }

    method Cleanup(policy: Policy, references: seq<References>, now: int) returns (summary: Summary, ghost k: nat)
      requires Valid()
      modifies trees, blobs
      ensures Valid()
      ensures var items := Items(walk, old(Contents()));
              var queue := Queue(policy, now, references, items);
              && ShortestPrefix(queue, Total(items), policy.floor, k)
              && Contents() == DeleteItems(old(Contents()), queue[..k]) && summary == Tally(queue[..k])
    {
      hide Walks, CacheSound, SortBy, Total, Items;
      ghost var start := Contents();
      var items := List();
      ghost var queue := Queue(policy, now, references, items);
      QueueDigestsAreValid(blobs.codec, walk, start, policy, now, references);
      var total, hard, grace := Classify(policy, now, references, items);
      summary, k := Summary(0, 0, 0), 0;
      assert queue[..0] == [];
      if total <= policy.floor { return; }
      ghost var total0 := total;
      var first, second := SortBy(Age, hard), SortBy(Age, grace);
      assert queue == first + second;
      total, summary, k := DrainTier(first, policy.floor, total, summary, start, total0, queue, 0, k);
      total, summary, k := DrainTier(second, policy.floor, total, summary, start, total0, queue, |first|, k);
    }
  }

  lemma DrainedStop(queue: seq<Item>, total: nat, floor: nat, upto: nat, end: nat, k: nat)
    requires Drained(queue, total, floor, upto, k) && upto <= end <= |queue| && Left(total, queue[..k]) <= floor
    ensures Drained(queue, total, floor, end, k)
  {
  }

  lemma DrainedNext(queue: seq<Item>, total: nat, floor: nat, upto: nat, k: nat, start: Snap)
    requires Drained(queue, total, floor, upto, k) && upto < |queue| && Left(total, queue[..k]) > floor
    ensures k == upto && Drained(queue, total, floor, upto + 1, k + 1)
    ensures Left(total, queue[..k + 1]) == SatSub(Left(total, queue[..k]), queue[k].bytes)
    ensures DeleteItems(start, queue[..k + 1]) == DeleteItem(DeleteItems(start, queue[..k]), queue[k])
    ensures var s, x := Tally(queue[..k]), queue[k];
            Tally(queue[..k + 1]) == Summary(s.deletedBlobs + (if x.kind.Blob? then 1 else 0), s.deletedTrees + (if x.kind.Tree? then 1 else 0), SatAdd(s.reclaimed, x.bytes))
  {
    assert queue[..k + 1][..k] == queue[..k];
  }

  lemma QueueDigestsAreValid(codec: Codec, walk: set<string> -> seq<string>, c: Snap, policy: Policy, now: int, references: seq<References>)
    requires Walks(walk) && CacheSound(codec, c)
    ensures forall x :: x in Queue(policy, now, references, Items(walk, c)) ==> ValidDigest(x.digest)
  {
    var items := Items(walk, c);
    QueueIsTheTiers(policy, now, references, items);
    forall x | x in items ensures ValidDigest(x.digest) { ListedIsStored(codec, walk, c, x); }
  }

  // ── What the queue holds ──────────────────────────────────────────

  ghost predicate Stored(c: Snap, x: Item) {
    if x.kind.Blob? then x.digest in c.store.meta && x == BlobItem(c.store.meta, x.digest)
    else x.digest in c.trees && x == TreeItem(c.trees, x.digest)
  }

  lemma ListedIsStored(codec: Codec, walk: set<string> -> seq<string>, c: Snap, x: Item)
    requires Walks(walk) && CacheSound(codec, c) && x in Items(walk, c)
    ensures Stored(c, x) && ValidDigest(x.digest)
  {
    var ds, ts := walk(c.store.meta.Keys), walk(c.trees.Keys);
    var bs := BlobItems(c.store.meta, ds);
    var i :| 0 <= i < |Items(walk, c)| && Items(walk, c)[i] == x;
    if i < |bs| {
      assert ds[i] in ds;
      assert BlobSound(codec, c.store, ds[i]);
    } else {
      assert ts[i - |bs|] in ts;
    }
  }

  lemma SameElements<T>(xs: seq<T>, ys: seq<T>)
    requires multiset(xs) == multiset(ys)
    ensures forall x :: x in xs <==> x in ys
  {
    forall x ensures x in xs <==> x in ys {
      assert x in xs <==> x in multiset(xs);
      assert x in ys <==> x in multiset(ys);
    }
  }

  lemma QueueIsTheTiers(policy: Policy, now: int, references: seq<References>, items: seq<Item>)
    ensures forall x :: x in Queue(policy, now, references, items) <==>
                          x in items && (InHardTier(policy, now, references, x) || InGraceTier(policy, now, references, x))
  {
    var hard, grace := HardTier(policy, now, references, items), GraceTier(policy, now, references, items);
    SortedAscends(Age, hard);
    SortedAscends(Age, grace);
    SameElements(SortBy(Age, hard), hard);
    SameElements(SortBy(Age, grace), grace);
  }
}
