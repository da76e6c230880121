/**
 Every run of the store: any number of upload handlers with arbitrary client bytes,
 direct uploads, ingests, touches and deletes, in any order.
 */
module StoreIntegrity {
  import opened Common
  import opened Codecs
  import opened BlobStores
  import opened UploadSessions

  datatype DiskOp =
    | PrepareOp(digest: string, params: Params)
    | AppendOp(digest: string, params: Params, payload: Bytes)
    | FinalizeOp(digest: string, now: int)
    | ForgetOp(digest: string)
    | StoreOp(digest: string, bytes: Bytes, now: int)
    | TouchOp(digest: string, at: int, now: int)
    | DeleteOp(digest: string)

  function Perform(codec: Codec, disk: Disk, op: DiskOp): Disk {
    match op
    case PrepareOp(d, params) => Prepare(disk, d, params).disk
    case AppendOp(d, params, payload) => Append(disk, d, params, payload).disk
    case FinalizeOp(d, now) => Finalize(codec, disk, d, now).disk
    case ForgetOp(d) => RemoveSession(disk, d)
    case StoreOp(d, bytes, now) => disk.(store := StoreBlobForDigest(codec, disk.store, d, bytes, now).store)
    case TouchOp(d, at, now) => disk.(store := TouchBlob(disk.store, d, at, now).store)
    case DeleteOp(d) => disk.(store := DeleteBlob(disk.store, d).store)
  }

  function PerformAll(codec: Codec, disk: Disk, ops: seq<DiskOp>): Disk
    decreases |ops|
  {
    if ops == [] then disk else PerformAll(codec, Perform(codec, disk, ops[0]), ops[1..])
  }

  lemma OperationKeeps(codec: Codec, disk: Disk, op: DiskOp)
    requires codec.Lawful() && Sound(codec, disk.store)
    ensures Sound(codec, Perform(codec, disk, op).store)
  {
    match op
    case PrepareOp(_, _) =>
    case AppendOp(_, _, _) =>
    case FinalizeOp(d, now) => FinalizeKeeps(codec, disk, d, now);
    case ForgetOp(_) =>
    case StoreOp(d, bytes, now) => StoreKeeps(codec, disk.store, d, bytes, now);
    case TouchOp(d, at, now) => TouchKeeps(codec, disk.store, d, at, now);
    case DeleteOp(d) => DeleteKeeps(codec, disk.store, d);
  }

  lemma {:induction false} RunKeeps(codec: Codec, disk: Disk, ops: seq<DiskOp>)
    requires codec.Lawful() && Sound(codec, disk.store)
    ensures Sound(codec, PerformAll(codec, disk, ops).store)
    decreases |ops|
  {
    if ops != [] {
      OperationKeeps(codec, disk, ops[0]);
      RunKeeps(codec, Perform(codec, disk, ops[0]), ops[1..]);
    }
  }

  /**
   After any run from an empty store, a blob stored under d hashes to d, its metadata
   records its length, and a stored zstd variant decodes to bytes of that digest and
   length, hence to the blob itself unless those two byte strings collide.
   */
  lemma StoreIntegrityTheorem(codec: Codec, ops: seq<DiskOp>, d: string)
    requires codec.Lawful()
    ensures var st := PerformAll(codec, Disk(map[], map[], EMPTY), ops).store;
            && (d in st.blobs ==> codec.sha256(st.blobs[d]) == d && d in st.meta && st.meta[d].rawSize == |st.blobs[d]|)
            && (d in st.zstd ==>
                  && d in st.blobs
                  && codec.zstdDecode(st.zstd[d]).Some?
                  && codec.sha256(codec.zstdDecode(st.zstd[d]).value) == d
                  && (codec.Apart(codec.zstdDecode(st.zstd[d]).value, st.blobs[d]) ==> codec.zstdDecode(st.zstd[d]) == Some(st.blobs[d])))
            && (d in st.meta <==> d in st.blobs)
  {
    RunKeeps(codec, Disk(map[], map[], EMPTY), ops);
    var st := PerformAll(codec, Disk(map[], map[], EMPTY), ops).store;
    if d in st.blobs { assert BlobSound(codec, st, d); }
    if d in st.zstd { assert VariantSound(codec, st, d); assert BlobSound(codec, st, d); }
  }

  /** An operation on another digest leaves this digest's session, staged bytes and blob alone. */
  lemma OtherDigestUntouched(codec: Codec, disk: Disk, op: DiskOp, d: string)
    requires codec.Lawful() && Sound(codec, disk.store) && op.digest != d
    ensures var after := Perform(codec, disk, op);
            && (d in after.sessions <==> d in disk.sessions) && (d in disk.sessions ==> after.sessions[d] == disk.sessions[d])
            && (d in after.parts <==> d in disk.parts) && (d in disk.parts ==> after.parts[d] == disk.parts[d])
            && (d in after.store.blobs <==> d in disk.store.blobs)
            && (d in disk.store.blobs ==> after.store.blobs[d] == disk.store.blobs[d])
  {
    hide Sound, Codec.Lawful, StoreBlobForDigest, TouchBlob, DeleteBlob;
    var e := op.digest;
    var after := Perform(codec, disk, op);
    match op {
      case PrepareOp(_, _) =>
      case AppendOp(_, _, _) =>
      case FinalizeOp(_, now) => FinalizeKeeps(codec, disk, e, now);
      case ForgetOp(_) =>
      case StoreOp(_, bytes, now) => StoreKeeps(codec, disk.store, e, bytes, now);
      case TouchOp(_, at, now) => TouchKeeps(codec, disk.store, e, at, now);
      case DeleteOp(_) => DeleteKeeps(codec, disk.store, e);
    }
    assert after.store.blobs - {e} == disk.store.blobs - {e};
    assert d in after.store.blobs <==> d in after.store.blobs - {e};
    assert d in disk.store.blobs <==> d in disk.store.blobs - {e};
    assert d in disk.store.blobs ==> (disk.store.blobs - {e})[d] == disk.store.blobs[d];
    assert d in after.store.blobs ==> (after.store.blobs - {e})[d] == after.store.blobs[d];
  }
}
