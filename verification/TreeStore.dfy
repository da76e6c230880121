/**
 The tree store: lists of references, kept under the hash of their serialised form, with the
 size, age and variant that cleanup goes by.
 */
module TreeStores {
  import opened Common
  import opened Codecs
  import opened BlobStores

  type Refs = map<string, string>

  datatype TreeRecord = TreeRecord(refs: Refs, rawSize: nat, lastReferencedAt: int, zstdSize: Option<nat>)

  type Trees = map<string, TreeRecord>

  /** What the snapshot cache holds. */
  datatype Snap = Snap(store: Store, trees: Trees)

  /** Hashing of blobs, and the serialised form of a list of references. */
  datatype Forms = Forms(codec: Codec, treeBytes: Refs -> Bytes) {
    function TreeDigest(refs: Refs): string {
      codec.sha256(treeBytes(refs))
    }

    /** Two lists that hash alike are the same. */
    predicate TreesApart(a: Refs, b: Refs) {
      TreeDigest(a) == TreeDigest(b) ==> a == b
    }

    /** No two of these contents collide, and no two of these trees. */
    ghost predicate CollisionFreeOn(pool: Pool) {
      codec.CollisionFreeOn(pool.contents) && forall a, b :: a in pool.trees && b in pool.trees ==> TreesApart(a, b)
    }
  }

  /** The byte strings and the trees that occur. */
  datatype Pool = Pool(contents: set<Bytes>, trees: set<Refs>)

  function VariantSize(codec: Codec, bytes: Bytes): Option<nat> {
    match codec.EncodeIfWorthwhile(bytes)
    case None => None
    case Some(encoded) => Some(|encoded|)
  }

  /** A tree that is stored already is touched, and gets the variant it may still lack. */
  function StoreTree(forms: Forms, trees: Trees, refs: Refs, now: int): Trees {
    var d, bytes := forms.TreeDigest(refs), forms.treeBytes(refs);
    if d in trees then
      var t := trees[d];
      trees[d := t.(lastReferencedAt := now, zstdSize := if t.zstdSize.Some? then t.zstdSize else VariantSize(forms.codec, bytes))]
    else trees[d := TreeRecord(refs, |bytes|, now, VariantSize(forms.codec, bytes))]
  }

  /** Every tree is stored under its own digest and its size is that of its serialised form. */
  ghost predicate TreesSound(forms: Forms, trees: Trees) {
    forall d :: d in trees ==> d == forms.TreeDigest(trees[d].refs) && trees[d].rawSize == |forms.treeBytes(trees[d].refs)|
  }

  /** A stored tree can be read back under its digest, is as young as the call, and no other tree changes. */
  lemma StoredTreeIsFound(forms: Forms, trees: Trees, refs: Refs, now: int)
    requires TreesSound(forms, trees) && (forms.TreeDigest(refs) in trees ==> forms.TreesApart(trees[forms.TreeDigest(refs)].refs, refs))
    ensures var d := forms.TreeDigest(refs);
            var after := StoreTree(forms, trees, refs, now);
            && TreesSound(forms, after)
            && d in after && after[d].refs == refs && after[d].lastReferencedAt == now
            && after.Keys == trees.Keys + {d} && (forall t :: t in trees && t != d ==> after[t] == trees[t])
            && (d in trees ==> after[d].refs == trees[d].refs)
  {
    hide VariantSize;
  }

  class TreeStore {
    const forms: Forms
    var trees: Trees

    constructor (forms: Forms)
      ensures this.forms == forms && trees == map[]
    {
      this.forms, trees := forms, map[];
    }

    method Put(refs: Refs, now: int) returns (digest: string)
      modifies this
      ensures digest == forms.TreeDigest(refs) && trees == StoreTree(forms, old(trees), refs, now)
    {
      var bytes := forms.treeBytes(refs);
      digest := forms.codec.sha256(bytes);
      if digest !in trees { trees := trees[digest := TreeRecord(refs, |bytes|, now, None)]; }
      var t := trees[digest];
      if t.zstdSize.None? { t := t.(zstdSize := VariantSize(forms.codec, bytes)); }
      trees := trees[digest := t.(lastReferencedAt := now)];
    }

    method Delete(digest: string)
      modifies this
      ensures trees == old(trees) - {digest}
    {
      trees := trees - {digest};
    }
  }
}
