/**
 The content-addressed blob store. The functions give the meaning of each operation on
 the stored files as a value; class BlobStore performs them by updating its fields.
 */
module BlobStores {
  import opened Common
  import opened Codecs

  datatype Metadata = Metadata(canonicalDigest: string, rawSize: nat, lastReferencedAt: int, zstdSize: Option<nat>)

  /** The raw blobs, the zstd variants and the metadata files, by digest. */
  datatype Store = Store(blobs: map<string, Bytes>, zstd: map<string, Bytes>, meta: map<string, Metadata>)

  const EMPTY: Store := Store(map[], map[], map[])

  datatype StoreError =
    | InvalidDigest
    | BlobDigestMismatch
    | MetadataDigestMismatch
    | MetadataSizeMismatch
    | MissingBlob

  datatype Effect<+T> = Effect(store: Store, outcome: Result<T, StoreError>)

  // ── Operations as functions ───────────────────────────────────────

  function EnsureMetadata(st: Store, digest: string, rawSize: nat, now: int): Effect<Metadata> {
    if !ValidDigest(digest) then Effect(st, Err(InvalidDigest))
    else if digest in st.meta then
      var m := st.meta[digest];
      if m.canonicalDigest != digest then Effect(st, Err(MetadataDigestMismatch))
      else if m.rawSize != rawSize then Effect(st, Err(MetadataSizeMismatch))
      else Effect(st, Ok(m))
    else
      var m := Metadata(digest, rawSize, now, None);
      Effect(st.(meta := st.meta[digest := m]), Ok(m))
  }

  /** An existing variant file is kept; only the recorded size changes. */
  function StoreEncodedVariant(st: Store, digest: string, rawSize: nat, bytes: Bytes, now: int): Effect<nat> {
    var e := EnsureMetadata(st, digest, rawSize, now);
    if e.outcome.Err? then Effect(e.store, Err(e.outcome.error))
    else
      var zstd := if digest in e.store.zstd then e.store.zstd else e.store.zstd[digest := bytes];
      var m := e.outcome.value.(zstdSize := Some(|bytes|));
      Effect(e.store.(zstd := zstd, meta := e.store.meta[digest := m]), Ok(|bytes|))
  }

  function MaybeStoreZstdVariant(codec: Codec, st: Store, digest: string, bytes: Bytes, now: int): Effect<bool> {
    var e := EnsureMetadata(st, digest, |bytes|, now);
    if e.outcome.Err? then Effect(e.store, Err(e.outcome.error))
    else if e.outcome.value.zstdSize.Some? && digest in e.store.zstd then Effect(e.store, Ok(false))
    else
      match codec.EncodeIfWorthwhile(bytes)
      case None => Effect(e.store, Ok(false))
      case Some(compressed) =>
        var v := StoreEncodedVariant(e.store, digest, |bytes|, compressed, now);
        if v.outcome.Err? then Effect(v.store, Err(v.outcome.error)) else Effect(v.store, Ok(true))
  }

  function TouchBlob(st: Store, digest: string, at: int, now: int): Effect<Metadata> {
    if !ValidDigest(digest) then Effect(st, Err(InvalidDigest))
    else if digest !in st.blobs then Effect(st, Err(MissingBlob))
    else
      var e := EnsureMetadata(st, digest, |st.blobs[digest]|, now);
      if e.outcome.Err? then e
      else
        var m := e.outcome.value.(lastReferencedAt := at);
        Effect(e.store.(meta := e.store.meta[digest := m]), Ok(m))
  }

  /** Returns whether this call created the blob. */
  function StoreBlobForDigest(codec: Codec, st: Store, digest: string, bytes: Bytes, now: int): Effect<bool> {
    if !ValidDigest(digest) then Effect(st, Err(InvalidDigest))
    else if codec.sha256(bytes) != digest then Effect(st, Err(BlobDigestMismatch))
    else
      var uploaded := digest !in st.blobs;
      var s0 := if uploaded then st.(blobs := st.blobs[digest := bytes]) else st;
      var e := EnsureMetadata(s0, digest, |bytes|, now);
      if e.outcome.Err? then Effect(e.store, Err(e.outcome.error))
      else
        var z := MaybeStoreZstdVariant(codec, e.store, digest, bytes, now);
        if z.outcome.Err? then Effect(z.store, Err(z.outcome.error))
        else
          var t := TouchBlob(z.store, digest, now, now);
          if t.outcome.Err? then Effect(t.store, Err(t.outcome.error)) else Effect(t.store, Ok(uploaded))
  }

  function DeleteBlob(st: Store, digest: string): Effect<()> {
    if !ValidDigest(digest) then Effect(st, Err(InvalidDigest))
    else
      var zstd := if digest in st.meta && st.meta[digest].zstdSize.Some? then st.zstd - {digest} else st.zstd;
      Effect(Store(st.blobs - {digest}, zstd, st.meta - {digest}), Ok(()))
  }

  datatype Download = NotFound | Raw(bytes: Bytes) | Zstd(encoded: Bytes)

  /** What the download handler serves; the variant is preferred when the client accepts zstd. */
  function DownloadBlob(st: Store, digest: string, acceptsZstd: bool): Download {
    if acceptsZstd && digest in st.meta && st.meta[digest].zstdSize.Some? && digest in st.zstd then Zstd(st.zstd[digest])
    else if digest in st.blobs then Raw(st.blobs[digest])
    else NotFound
  }

  function DecodeDownload(codec: Codec, d: Download): Option<Bytes> {
    match d
    case NotFound => None
    case Raw(bytes) => Some(bytes)
    case Zstd(encoded) => codec.zstdDecode(encoded)
  }

  // ── Integrity ─────────────────────────────────────────────────────

  ghost predicate BlobSound(codec: Codec, st: Store, d: string)
    requires d in st.blobs
  {
    && codec.sha256(st.blobs[d]) == d
    && d in st.meta
    && st.meta[d].canonicalDigest == d
    && st.meta[d].rawSize == |st.blobs[d]|
  }

  /** A variant decodes to bytes with the blob's digest and length. */
  ghost predicate VariantSound(codec: Codec, st: Store, d: string)
    requires d in st.zstd
  {
    && d in st.blobs
    && d in st.meta && st.meta[d].zstdSize.Some?
    && codec.zstdDecode(st.zstd[d]).Some?
    && codec.sha256(codec.zstdDecode(st.zstd[d]).value) == d
    && |codec.zstdDecode(st.zstd[d]).value| == |st.blobs[d]|
  }

  ghost predicate Sound(codec: Codec, st: Store) {
    && (forall d :: d in st.blobs ==> BlobSound(codec, st, d))
    && (forall d :: d in st.zstd ==> VariantSound(codec, st, d))
    && (forall d :: d in st.meta ==> d in st.blobs)
  }

  /** st' agrees with st on every digest other than d. */
  ghost predicate SameElsewhere(st: Store, st': Store, d: string) {
    && st'.blobs - {d} == st.blobs - {d}
    && st'.zstd - {d} == st.zstd - {d}
    && st'.meta - {d} == st.meta - {d}
  }

  /** Storing a colliding payload of another length is refused before anything is written. */
  predicate StorableAs(st: Store, digest: string, bytes: Bytes) {
    digest in st.blobs ==> |st.blobs[digest]| == |bytes|
  }

  lemma VariantStoreKeeps(codec: Codec, st: Store, digest: string, raw: Bytes, encoded: Bytes, now: int)
    requires Sound(codec, st) && ValidDigest(digest) && digest in st.blobs && |st.blobs[digest]| == |raw|
    requires codec.zstdDecode(encoded) == Some(raw) && codec.sha256(raw) == digest
    ensures var r := StoreEncodedVariant(st, digest, |raw|, encoded, now);
            && r.outcome.Ok? && Sound(codec, r.store) && SameElsewhere(st, r.store, digest)
            && r.store.blobs == st.blobs && digest in r.store.zstd
  {
    assert BlobSound(codec, st, digest);
    var r := StoreEncodedVariant(st, digest, |raw|, encoded, now).store;
    forall d | d in r.zstd ensures VariantSound(codec, r, d) {
      if d in st.zstd { assert VariantSound(codec, st, d); }
    }
    forall d | d in r.blobs ensures BlobSound(codec, r, d) {
      assert BlobSound(codec, st, d);
    }
  }

  lemma MaybeVariantKeeps(codec: Codec, st: Store, digest: string, raw: Bytes, now: int)
    requires codec.Lawful() && Sound(codec, st) && digest in st.blobs && |st.blobs[digest]| == |raw|
    requires codec.sha256(raw) == digest
    ensures var r := MaybeStoreZstdVariant(codec, st, digest, raw, now);
            r.outcome.Ok? && Sound(codec, r.store) && SameElsewhere(st, r.store, digest) && r.store.blobs == st.blobs
  {
    assert ValidDigest(digest);
    assert BlobSound(codec, st, digest);
    if codec.EncodeIfWorthwhile(raw).Some? {
      VariantStoreKeeps(codec, st, digest, raw, codec.EncodeIfWorthwhile(raw).value, now);
    }
  }

  lemma TouchKeeps(codec: Codec, st: Store, digest: string, at: int, now: int)
    requires Sound(codec, st)
    ensures var r := TouchBlob(st, digest, at, now);
            && Sound(codec, r.store) && SameElsewhere(st, r.store, digest) && r.store.blobs == st.blobs
            && r.store.zstd == st.zstd
            && (r.outcome.Ok? <==> ValidDigest(digest) && digest in st.blobs)
            && (r.outcome.Err? ==> r.store == st)
  {
    if digest in st.blobs {
      assert BlobSound(codec, st, digest);
    }
    var r := TouchBlob(st, digest, at, now).store;
    forall d | d in r.zstd ensures VariantSound(codec, r, d) {
      assert VariantSound(codec, st, d);
    }
    forall d | d in r.blobs ensures BlobSound(codec, r, d) {
      assert BlobSound(codec, st, d);
    }
  }

  /**
   Storing under a digest: refused without effect unless the bytes hash to it and do not
   collide; otherwise the blob is there afterwards and no other digest is affected.
   */
  lemma StoreKeeps(codec: Codec, st: Store, digest: string, bytes: Bytes, now: int)
    requires codec.Lawful() && Sound(codec, st)
    ensures var r := StoreBlobForDigest(codec, st, digest, bytes, now);
            && Sound(codec, r.store) && SameElsewhere(st, r.store, digest)
            && (r.outcome.Ok? <==> codec.sha256(bytes) == digest && StorableAs(st, digest, bytes))
            && (r.outcome.Err? ==> r.store == st)
            && (r.outcome.Ok? ==>
                  && r.outcome.value == (digest !in st.blobs)
                  && r.store.blobs == if digest in st.blobs then st.blobs else st.blobs[digest := bytes])
  {
    if codec.sha256(bytes) == digest && StorableAs(st, digest, bytes) {
      var s0 := if digest !in st.blobs then st.(blobs := st.blobs[digest := bytes]) else st;
      var e := EnsureMetadata(s0, digest, |bytes|, now).store;
      if digest in st.blobs {
        assert BlobSound(codec, st, digest);
        assert e == st;
      } else {
        WithNewBlob(codec, st, digest, bytes, now);
      }
      MaybeVariantKeeps(codec, e, digest, bytes, now);
      TouchKeeps(codec, MaybeStoreZstdVariant(codec, e, digest, bytes, now).store, digest, now, now);
    } else if digest in st.blobs {
      assert BlobSound(codec, st, digest);
    }
  }

  lemma WithNewBlob(codec: Codec, st: Store, digest: string, bytes: Bytes, now: int)
    requires Sound(codec, st) && digest !in st.blobs && codec.sha256(bytes) == digest && ValidDigest(digest)
    ensures var e := EnsureMetadata(st.(blobs := st.blobs[digest := bytes]), digest, |bytes|, now);
            e.outcome.Ok? && Sound(codec, e.store) && SameElsewhere(st, e.store, digest)
            && e.store.blobs == st.blobs[digest := bytes]
  {
    var e := EnsureMetadata(st.(blobs := st.blobs[digest := bytes]), digest, |bytes|, now).store;
    forall d | d in e.zstd ensures VariantSound(codec, e, d) {
      assert VariantSound(codec, st, d);
    }
    forall d | d in e.blobs ensures BlobSound(codec, e, d) {
      if d in st.blobs { assert BlobSound(codec, st, d); }
    }
  }

  /** Deleting leaves no trace of the digest and touches nothing else. */
  lemma DeleteKeeps(codec: Codec, st: Store, digest: string)
    requires Sound(codec, st)
    ensures var r := DeleteBlob(st, digest);
            && Sound(codec, r.store) && SameElsewhere(st, r.store, digest)
            && (r.outcome.Ok? <==> ValidDigest(digest))
            && (r.outcome.Ok? ==> digest !in r.store.blobs && digest !in r.store.zstd && digest !in r.store.meta)
            && (r.outcome.Err? ==> r.store == st)
  {
    var r := DeleteBlob(st, digest).store;
    forall d | d in r.zstd ensures VariantSound(codec, r, d) {
      assert VariantSound(codec, st, d);
    }
    forall d | d in r.blobs ensures BlobSound(codec, r, d) {
      assert BlobSound(codec, st, d);
    }
    if digest in st.zstd { assert VariantSound(codec, st, digest); }
  }

  /** Whatever encoding is served, the client decodes the blob that was stored. */
  lemma DownloadServesTheBlob(codec: Codec, st: Store, digest: string, acceptsZstd: bool)
    requires Sound(codec, st)
    ensures var got := DecodeDownload(codec, DownloadBlob(st, digest, acceptsZstd));
            && (got.Some? <==> digest in st.blobs)
            && (got.Some? ==> codec.sha256(got.value) == digest && |got.value| == |st.blobs[digest]|)
            && (got.Some? && codec.Apart(got.value, st.blobs[digest]) ==> got.value == st.blobs[digest])
  {
    if digest in st.zstd { assert VariantSound(codec, st, digest); }
    if digest in st.blobs { assert BlobSound(codec, st, digest); }
  }

  // ── The store as an object ────────────────────────────────────────

  class BlobStore {
    const codec: Codec
    var blobs: map<string, Bytes>
    var zstd: map<string, Bytes>
    var meta: map<string, Metadata>

    ghost function Contents(): Store
      reads this
    {
      Store(blobs, zstd, meta)
    }

    ghost predicate Valid()
      reads this
    {
      Sound(codec, Contents())
    }

    constructor (codec: Codec)
      ensures this.codec == codec && Contents() == EMPTY && Valid()
    {
      this.codec := codec;
      blobs, zstd, meta := map[], map[], map[];
    }

    method HasBlob(digest: string) returns (r: Result<bool, StoreError>)
      ensures r == if ValidDigest(digest) then Ok(digest in blobs) else Err(InvalidDigest)
    {
      if !ValidDigest(digest) { return Err(InvalidDigest); }
      return Ok(digest in blobs);
    }

    method Ensure(digest: string, rawSize: nat, now: int) returns (r: Result<Metadata, StoreError>)
      modifies this`meta
      ensures Effect(Contents(), r) == EnsureMetadata(old(Contents()), digest, rawSize, now)
    {
      if !ValidDigest(digest) { return Err(InvalidDigest); }
      if digest in meta {
        var m := meta[digest];
        if m.canonicalDigest != digest { return Err(MetadataDigestMismatch); }
        if m.rawSize != rawSize { return Err(MetadataSizeMismatch); }
        return Ok(m);
      }
      var m := Metadata(digest, rawSize, now, None);
      meta := meta[digest := m];
      return Ok(m);
    }

    method StoreVariant(digest: string, rawSize: nat, bytes: Bytes, now: int) returns (r: Result<nat, StoreError>)
      modifies this`meta, this`zstd
      ensures Effect(Contents(), r) == StoreEncodedVariant(old(Contents()), digest, rawSize, bytes, now)
    {
      var e := Ensure(digest, rawSize, now);
      if e.Err? { return Err(e.error); }
      if digest !in zstd {
        zstd := zstd[digest := bytes];
      }
      meta := meta[digest := e.value.(zstdSize := Some(|bytes|))];
      return Ok(|bytes|);
    }

    method MaybeStoreVariant(digest: string, bytes: Bytes, now: int) returns (r: Result<bool, StoreError>)
      modifies this`meta, this`zstd
      ensures Effect(Contents(), r) == MaybeStoreZstdVariant(codec, old(Contents()), digest, bytes, now)
    {
      var e := Ensure(digest, |bytes|, now);
      if e.Err? { return Err(e.error); }
      if e.value.zstdSize.Some? && digest in zstd { return Ok(false); }
      var compressed := codec.EncodeIfWorthwhile(bytes);
      if compressed.None? { return Ok(false); }
      var v := StoreVariant(digest, |bytes|, compressed.value, now);
      if v.Err? { return Err(v.error); }
      return Ok(true);
    }

    method Touch(digest: string, at: int, now: int) returns (r: Result<Metadata, StoreError>)
      modifies this`meta
      ensures Effect(Contents(), r) == TouchBlob(old(Contents()), digest, at, now)
      ensures old(Valid()) ==> Valid()
    {
      ghost var before := Contents();
      if old(Valid()) { TouchKeeps(codec, before, digest, at, now); }
      if !ValidDigest(digest) { return Err(InvalidDigest); }
      if digest !in blobs { return Err(MissingBlob); }
      var e := Ensure(digest, |blobs[digest]|, now);
      if e.Err? { return e; }
      var m := e.value.(lastReferencedAt := at);
      meta := meta[digest := m];
      return Ok(m);
    }

    method StoreForDigest(digest: string, bytes: Bytes, now: int) returns (r: Result<bool, StoreError>)
      modifies this
      ensures Effect(Contents(), r) == StoreBlobForDigest(codec, old(Contents()), digest, bytes, now)
      ensures codec.Lawful() && old(Valid()) ==> Valid()
    {
      ghost var before := Contents();
      if codec.Lawful() && old(Valid()) { StoreKeeps(codec, before, digest, bytes, now); }
      if !ValidDigest(digest) { return Err(InvalidDigest); }
      if codec.sha256(bytes) != digest { return Err(BlobDigestMismatch); }
      var uploaded := digest !in blobs;
      if uploaded {
        blobs := blobs[digest := bytes];
      }
      var e := Ensure(digest, |bytes|, now);
      if e.Err? { return Err(e.error); }
      var z := MaybeStoreVariant(digest, bytes, now);
      if z.Err? { return Err(z.error); }
      var t := Touch(digest, now, now);
      if t.Err? { return Err(t.error); }
      return Ok(uploaded);
    }

    method Delete(digest: string) returns (r: Result<(), StoreError>)
      modifies this
      ensures Effect(Contents(), r) == DeleteBlob(old(Contents()), digest)
      ensures old(Valid()) ==> Valid()
    {
      ghost var before := Contents();
      if old(Valid()) { DeleteKeeps(codec, before, digest); }
      if !ValidDigest(digest) { return Err(InvalidDigest); }
      var recorded := if digest in meta then meta[digest].zstdSize else None;
      blobs := blobs - {digest};
      if recorded.Some? {
        zstd := zstd - {digest};
      }
      meta := meta - {digest};
      return Ok(());
    }
  }
}
