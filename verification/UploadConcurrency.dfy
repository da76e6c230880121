/** Why the protocol needs one live connection per digest. */
module UploadConcurrency {
  import opened Common
  import opened Codecs
  import opened BlobStores
  import opened ChunkPolicies
  import opened UploadSessions
  import opened UploadProtocol
  import opened UploadSafety

  /** The record agrees with the staged bytes, which are a prefix of the stream. */
  predicate Agrees(disk: Disk, digest: string, params: Params, stream: Bytes) {
    && params.streamSize == |stream| && Staged(disk, digest) <= stream && digest in disk.sessions
    && var s := disk.sessions[digest];
       s.params == params && s.received == s.nextOffset == |Staged(disk, digest)| && (s.received > 0 ==> s.nextSequence > 0)
  }

  /** The session may send this much of the stream in one frame. */
  predicate Sends(live: Live, stream: Bytes, size: nat) {
    && |stream| == live.params.streamSize < TWO64 && live.nextSequence < TWO64
    && 0 < size <= live.params.chunkSize && live.received + size <= |stream|
  }

  function FrameAt(live: Live, stream: Bytes, size: nat): Bytes
    requires Sends(live, stream, size)
  {
    ChunkWire(stream, live.received, live.nextSequence, size).sent
  }

  /** Append writes the chunk at the staged length, whatever offset the sender meant. */
  lemma AppendWritesAtStagedLength(disk: Disk, digest: string, params: Params, payload: Bytes, stream: Bytes)
    requires Agrees(disk, digest, params, stream) && payload != []
    ensures var a := Append(disk, digest, params, payload);
            var n := |Staged(disk, digest)| + |payload|;
            && (a.result.Ok? <==> n <= |stream|)
            && (a.result.Ok? ==> Staged(a.disk, digest) == Staged(disk, digest) + payload && a.result.value.received == n)
            && (a.result.Err? ==> a.result.error == ChunkOverflows && a.disk.parts == disk.parts)
  {
  }

  lemma PrefixExactlyWhenSame(stream: Bytes, n: nat, r: nat, size: nat)
    requires n + size <= |stream| && r + size <= |stream|
    ensures stream[..n] + stream[r..r + size] <= stream <==> stream[r..r + size] == stream[n..n + size]
  {
    var joined := stream[..n] + stream[r..r + size];
    assert joined[n..] == stream[r..r + size];
    if joined <= stream {
      assert joined == stream[..n + size];
      assert stream[..n + size][n..] == stream[n..n + size];
    } else if stream[r..r + size] == stream[n..n + size] {
      SliceGrows(stream, n, size);
    }
  }

  /**
   A session that is behind or ahead of the staged bytes has its frame accepted and appended
   all the same, as long as it fits. The staged bytes stay a prefix of the stream if and only
   if the frame happens to carry what the stream has at the staged length.
   */
  lemma FrameFromStaleSession(codec: Codec, disk: Disk, live: Live, stream: Bytes, size: nat, now: int)
    requires Agrees(disk, live.digest, live.params, stream) && Sends(live, stream, size)
    ensures var h := HandleFrame(codec, disk, live, FrameAt(live, stream, size), now);
            var n := |Staged(disk, live.digest)|;
            && |h.replies| >= 1
            && (h.replies[0].UploadAck? <==> n + size <= |stream|)
            && (n + size > |stream| ==>
                  && h.replies == [UploadError(Envelope(PROTOCOL_VERSION, live.workorder, live.digest), PersistFailed(ChunkOverflows))]
                  && Staged(h.disk, live.digest) == Staged(disk, live.digest))
            && (n + size < |stream| || (n + size == |stream| && h.replies[|h.replies| - 1].UploadError?) ==>
                  && Staged(h.disk, live.digest) == Staged(disk, live.digest) + stream[live.received..live.received + size]
                  && (Staged(h.disk, live.digest) <= stream <==> stream[live.received..live.received + size] == stream[n..n + size]))
  {
    hide AcceptFrame, Append, ChunkWire, Agrees, Finalize;
    var d, n, chunk := live.digest, |Staged(disk, live.digest)|, stream[live.received..live.received + size];
    FrameAccepted(live, stream, size);
    AppendWritesAtStagedLength(disk, d, live.params, chunk, stream);
    AgreesMeansPrefix(disk, d, live.params, stream);
    if n + size <= |stream| {
      PrefixExactlyWhenSame(stream, n, live.received, size);
      FailedFinalizeKeepsParts(codec, Append(disk, d, live.params, chunk).disk, d, now);
    }
  }

  lemma AgreesMeansPrefix(disk: Disk, digest: string, params: Params, stream: Bytes)
    requires Agrees(disk, digest, params, stream)
    ensures |Staged(disk, digest)| <= |stream| && Staged(disk, digest) == stream[..|Staged(disk, digest)|]
  {
  }

  lemma FailedFinalizeKeepsParts(codec: Codec, disk: Disk, digest: string, now: int)
    ensures Finalize(codec, disk, digest, now).result.Err? ==> Finalize(codec, disk, digest, now).disk.parts == disk.parts
  {
  }

  /** A server that holds the first bytes of a stream. */
  function Holding(store: Store, digest: string, params: Params, sequence: nat, staged: Bytes): Disk {
    Disk(map[digest := Session(params, sequence, |staged|, |staged|)], map[digest := staged], store)
  }

  /** The frame keeps the staged bytes a prefix, whatever the stream. */
  ghost predicate KeepsEveryPrefix(codec: Codec, store: Store, sequence: nat, staged: nat, live: Live, size: nat, now: int) {
    forall stream: Bytes :: Sends(live, stream, size) && staged <= |stream| ==>
      Staged(HandleFrame(codec, Holding(store, live.digest, live.params, sequence, stream[..staged]), live, FrameAt(live, stream, size), now).disk, live.digest) <= stream
  }

  /**
   A frame that does not end its stream keeps the staged bytes a prefix of whatever is being
   uploaded if and only if the session's offset is the staged length.
   */
  lemma StaleSessionBreaksPrefix(codec: Codec, store: Store, sequence: nat, staged: nat, live: Live, size: nat, now: int)
    requires live.params.streamSize < TWO64 && live.nextSequence < TWO64 && 0 < size <= live.params.chunkSize
    requires live.received + size <= live.params.streamSize && staged + size < live.params.streamSize && (staged > 0 ==> sequence > 0)
    ensures KeepsEveryPrefix(codec, store, sequence, staged, live, size, now) <==> live.received == staged
  {
    hide HandleFrame, FrameAt, Holding;
    var total := live.params.streamSize;
    if live.received == staged {
      forall stream: Bytes | Sends(live, stream, size) && staged <= |stream|
        ensures Staged(HandleFrame(codec, Holding(store, live.digest, live.params, sequence, stream[..staged]), live, FrameAt(live, stream, size), now).disk, live.digest) <= stream
      {
        HeldStream(codec, store, sequence, staged, live, stream, size, now);
      }
    } else {
      var stream: Bytes := seq(total, i => if i == live.received then 1 else 0);
      HeldStream(codec, store, sequence, staged, live, stream, size, now);
      assert stream[live.received..live.received + size][0] == 1 && stream[staged..staged + size][0] == 0;
    }
  }

  lemma HeldStream(codec: Codec, store: Store, sequence: nat, staged: nat, live: Live, stream: Bytes, size: nat, now: int)
    requires Sends(live, stream, size) && staged + size < |stream| && (staged > 0 ==> sequence > 0)
    ensures var disk := Holding(store, live.digest, live.params, sequence, stream[..staged]);
            Staged(HandleFrame(codec, disk, live, FrameAt(live, stream, size), now).disk, live.digest) <= stream
            <==> stream[live.received..live.received + size] == stream[staged..staged + size]
  {
    hide HandleFrame, FrameAt;
    FrameFromStaleSession(codec, Holding(store, live.digest, live.params, sequence, stream[..staged]), live, stream, size, now);
  }

  // ── Two connections for one upload ────────────────────────────────

  /** The session of a connection that finds nothing uploaded yet. */
  function Opening(job: Job): Live {
    Live(job.workorder, job.Digest(), job.Params(), 0, 0)
  }

  /** Any number of connections may be opened before the first frame: each gets the same session. */
  lemma InitsAgree(job: Job, disk: Disk, now: int)
    requires job.Valid() && job.Digest() !in disk.store.blobs && job.Digest() !in disk.parts
    requires job.Digest() in disk.sessions ==> disk.sessions[job.Digest()] == Session(job.Params(), 0, 0, 0)
    ensures var h := HandleInit(job.codec, disk, job.InitMessage(), now);
            && h.live == Some(Opening(job)) && h.disk.store == disk.store && h.disk.parts == disk.parts
            && job.Digest() in h.disk.sessions && h.disk.sessions[job.Digest()] == Session(job.Params(), 0, 0, 0)
            && Agrees(h.disk, job.Digest(), job.Params(), job.Stream())
  {
    EncodingSelected(job);
    StreamNonEmpty(job);
    assert ValidDigest(job.Digest());
  }

  /**
   Two connections opened for the same upload both accept a first chunk. The first leaves a
   prefix of the stream; the second appends its own beginning of the stream behind it, so the
   staged bytes stay a prefix if and only if the stream repeats itself there.
   */
  lemma TwoConnectionsDuplicateAChunk(job: Job, disk: Disk, size: nat, again: nat, now: int)
    requires job.Valid() && FreshFor(job, disk) && job.Digest() !in disk.store.blobs
    requires 0 < size <= DEFAULT_CHUNK_SIZE && 0 < again <= DEFAULT_CHUNK_SIZE && size + again < |job.Stream()|
    ensures var one := HandleInit(job.codec, disk, job.InitMessage(), now);
            var two := HandleInit(job.codec, one.disk, job.InitMessage(), now);
            && one.live.Some? && two.live.Some? && Sends(one.live.value, job.Stream(), size) && Sends(two.live.value, job.Stream(), again)
            && var first := HandleFrame(job.codec, two.disk, one.live.value, FrameAt(one.live.value, job.Stream(), size), now);
               var second := HandleFrame(job.codec, first.disk, two.live.value, FrameAt(two.live.value, job.Stream(), again), now);
               && Staged(first.disk, job.Digest()) == job.Stream()[..size]
               && |second.replies| >= 1 && second.replies[0].UploadAck?
               && Staged(second.disk, job.Digest()) == job.Stream()[..size] + job.Stream()[..again]
               && (Staged(second.disk, job.Digest()) <= job.Stream() <==> job.Stream()[..again] == job.Stream()[size..size + again])
  {
    hide HandleInit, HandleFrame, FrameAt, Sound, Codec.Lawful;
    InitsAgree(job, disk, now);
    var one := HandleInit(job.codec, disk, job.InitMessage(), now);
    InitsAgree(job, one.disk, now);
    var two := HandleInit(job.codec, one.disk, job.InitMessage(), now);
    StreamNonEmpty(job);
    FrameFromStaleSession(job.codec, two.disk, Opening(job), job.Stream(), size, now);
    var first := HandleFrame(job.codec, two.disk, Opening(job), FrameAt(Opening(job), job.Stream(), size), now);
    assert job.Stream()[0..0 + size] == job.Stream()[..size];
    FirstFrameAgrees(job, two.disk, size, now);
    FrameFromStaleSession(job.codec, first.disk, Opening(job), job.Stream(), again, now);
    assert job.Stream()[0..0 + again] == job.Stream()[..again];
  }

  lemma FirstFrameAgrees(job: Job, disk: Disk, size: nat, now: int)
    requires job.Valid() && Agrees(disk, job.Digest(), job.Params(), job.Stream()) && Staged(disk, job.Digest()) == []
    requires Sends(Opening(job), job.Stream(), size) && size < |job.Stream()|
    ensures Agrees(HandleFrame(job.codec, disk, Opening(job), FrameAt(Opening(job), job.Stream(), size), now).disk,
                   job.Digest(), job.Params(), job.Stream())
  {
    hide AcceptFrame, ChunkWire;
    FrameAccepted(Opening(job), job.Stream(), size);
    assert job.Stream()[0..0 + size] <= job.Stream();
  }
}
