/**
 One payload streamed over a connection that holds, with the client's retries, to a server
 whose session record and staged bytes for it may be anything.
 */
module StreamedUploads {
  import opened Common
  import opened Codecs
  import opened BlobStores
  import opened ChunkPolicies
  import opened UploadSessions
  import opened StoreIntegrity
  import opened UploadProtocol
  import opened UploadSafety

  datatype Attempt = Attempt(disk: Disk, done: bool)

  /** How the client cuts a stream: the size of the chunk at an offset, given the total. */
  type Cut = (nat, nat) -> nat

  ghost predicate Cuts(cut: Cut) {
    forall total: nat, at: nat {:trigger cut(total, at)} :: at < total ==> 0 < cut(total, at) <= DEFAULT_CHUNK_SIZE && at + cut(total, at) <= total
  }

  // ── The client's side ─────────────────────────────────────────────

  predicate CanSend(job: Job, live: Live, size: nat) {
    |job.Stream()| < TWO64 && live.nextSequence < TWO64 && 0 < size <= DEFAULT_CHUNK_SIZE && live.received + size <= |job.Stream()|
  }

  predicate Completed(h: Handled) {
    h.replies != [] && h.replies[|h.replies| - 1].UploadComplete?
  }

  /** Chunk after chunk until the server answers with completion or an error. */
  function SendRest(job: Job, disk: Disk, live: Live, cut: Cut, now: int): Attempt
    decreases |job.Stream()| - live.received
  {
    var size := cut(|job.Stream()|, live.received);
    if !CanSend(job, live, size) then Attempt(disk, false)
    else
      var h := HandleFrame(job.codec, disk, live, ChunkWire(job.Stream(), live.received, live.nextSequence, size).sent, now);
      if h.live.None? then Attempt(h.disk, Completed(h))
      else if live.received < h.live.value.received <= |job.Stream()| then SendRest(job, h.disk, h.live.value, cut, now)
      else Attempt(h.disk, false)
  }

  function UploadOnce(job: Job, disk: Disk, cut: Cut, now: int): Attempt {
    var h := HandleInit(job.codec, disk, job.InitMessage(), now);
    if h.live.None? then Attempt(h.disk, Completed(h)) else SendRest(job, h.disk, h.live.value, cut, now)
  }

  /** Attempts until one completes, or there are no more. */
  function Upload(job: Job, disk: Disk, cut: Cut, attempts: nat, now: int): Attempt
    decreases attempts
  {
    if attempts == 0 then Attempt(disk, false)
    else
      var first := UploadOnce(job, disk, cut, now);
      if first.done then first else Upload(job, first.disk, cut, attempts - 1, now)
  }

  // ── When the server lets it through ───────────────────────────────

  /** The recorded session, if any, is one of this upload. */
  predicate NoConflict(job: Job, disk: Disk) {
    job.Digest() in disk.sessions ==> disk.sessions[job.Digest()].params == job.Params()
  }

  /** The record agrees with the staged bytes. */
  predicate RecordAgrees(job: Job, disk: Disk) {
    var d, n := job.Digest(), |Staged(disk, job.Digest())|;
    n == 0 || (d in disk.sessions && disk.sessions[d].received == disk.sessions[d].nextOffset == n && disk.sessions[d].nextSequence > 0)
  }

  /** The staged bytes followed by the rest of the stream. */
  function Whole(job: Job, disk: Disk): Bytes {
    var staged := Staged(disk, job.Digest());
    if |staged| <= |job.Stream()| then staged + job.Stream()[|staged|..] else staged
  }

  /** What is staged goes on to something that decodes to the payload. */
  predicate Lands(job: Job, disk: Disk) {
    DecodeStream(job.codec, job.Encoding(), Whole(job, disk)) == Ok(job.payload)
  }

  /** What finalisation will read does not collide with the payload. */
  predicate NoClash(job: Job, disk: Disk) {
    var raw := DecodeStream(job.codec, job.Encoding(), Whole(job, disk));
    raw.Ok? ==> job.codec.Apart(raw.value, job.payload)
  }

  /** An attempt ends in completion. */
  predicate GoesThrough(job: Job, disk: Disk) {
    && NoConflict(job, disk) && |Staged(disk, job.Digest())| <= |job.Stream()| && RecordAgrees(job, disk) && Lands(job, disk)
    && (job.payload == [] ==> job.Digest() in disk.parts)
  }

  /** The upload succeeds within so many attempts: one attempt is lost on removing staged bytes that are too long. */
  predicate Uploadable(job: Job, disk: Disk, attempts: nat) {
    if |Staged(disk, job.Digest())| > |job.Stream()| then NoConflict(job, disk) && attempts >= 2 && job.payload != []
    else attempts >= 1 && GoesThrough(job, disk)
  }

  /** A record never counts more chunks than bytes. */
  predicate ChunksWithinBytes(disk: Disk, d: string) {
    d in disk.sessions ==> disk.sessions[d].nextSequence <= disk.sessions[d].received
  }

  /** The state of the server that an upload starts from. */
  ghost predicate Begins(job: Job, disk: Disk) {
    && job.codec.Lawful() && |job.payload| < TWO64 && Sound(job.codec, disk.store) && job.Digest() !in disk.store.blobs
    && ChunksWithinBytes(disk, job.Digest()) && NoClash(job, disk)
  }

  /** Record, staged bytes and blob of this digest are the same. */
  predicate SameAt(disk: Disk, disk': Disk, e: string) {
    && (e in disk'.sessions <==> e in disk.sessions) && (e in disk.sessions ==> disk'.sessions[e] == disk.sessions[e])
    && (e in disk'.parts <==> e in disk.parts) && (e in disk.parts ==> disk'.parts[e] == disk.parts[e])
    && (e in disk'.store.blobs <==> e in disk.store.blobs) && (e in disk.store.blobs ==> disk'.store.blobs[e] == disk.store.blobs[e])
  }

  /** Nothing of any other digest has changed. */
  ghost predicate SameOthers(disk: Disk, disk': Disk, d: string) {
    forall e :: e != d ==> SameAt(disk, disk', e)
  }

  lemma OthersUntouched(codec: Codec, disk: Disk, op: DiskOp)
    requires codec.Lawful() && Sound(codec, disk.store)
    ensures Sound(codec, Perform(codec, disk, op).store) && SameOthers(disk, Perform(codec, disk, op), op.digest)
  {
    hide Perform, Sound, Codec.Lawful;
    OperationKeeps(codec, disk, op);
    forall e | e != op.digest ensures SameAt(disk, Perform(codec, disk, op), e) { OtherDigestUntouched(codec, disk, op, e); }
  }

  lemma OthersThrough(a: Disk, b: Disk, c: Disk, d: string)
    requires SameOthers(a, b, d) && SameOthers(b, c, d)
    ensures SameOthers(a, c, d)
  {
    forall e | e != d ensures SameAt(a, c, e) { assert SameAt(a, b, e) && SameAt(b, c, e); }
  }

  // ── Preparing and finalising ──────────────────────────────────────

  lemma PrepareExactly(job: Job, disk: Disk)
    requires ChunksWithinBytes(disk, job.Digest())
    ensures var d, n := job.Digest(), |Staged(disk, job.Digest())|;
            var p := Prepare(disk, d, job.Params());
            && (p.result.Ok? <==> NoConflict(job, disk) && n <= |job.Stream()| && RecordAgrees(job, disk))
            && (p.result.Ok? ==>
                  && p.disk.store == disk.store && p.disk.parts == disk.parts
                  && d in p.disk.sessions && p.disk.sessions[d] == p.result.value == Session(job.Params(), p.result.value.nextSequence, n, n)
                  && p.result.value.nextSequence <= n && (n > 0 ==> p.result.value.nextSequence > 0)
                  && (d in disk.sessions && disk.sessions[d].received == n == disk.sessions[d].nextOffset ==>
                        p.result.value.nextSequence == disk.sessions[d].nextSequence))
            && (p.result.Err? ==> p.disk == if NoConflict(job, disk) && n > |job.Stream()| then RemoveSession(disk, d) else disk)
  {
  }

  /** A record that agrees with the staged bytes and stands at them. */
  predicate StandsAt(job: Job, disk: Disk, sequence: nat, n: nat) {
    var d := job.Digest();
    && |Staged(disk, d)| == n <= |job.Stream()| && sequence <= n && (n > 0 ==> sequence > 0)
    && d in disk.sessions && disk.sessions[d] == Session(job.Params(), sequence, n, n)
  }

  /** With everything staged, finalisation succeeds exactly when what is staged decodes to the payload. */
  lemma FinalizeExactly(job: Job, disk: Disk, sequence: nat, now: int)
    requires Begins(job, disk) && StandsAt(job, disk, sequence, |job.Stream()|)
    ensures var f := Finalize(job.codec, disk, job.Digest(), now);
            && (f.result.Ok? <==> Lands(job, disk) && job.Digest() in disk.parts)
            && (f.result.Ok? ==> job.Digest() in f.disk.store.blobs && f.disk.store.blobs[job.Digest()] == job.payload)
            && (f.result.Err? ==> f.disk == disk)
  {
    var d := job.Digest();
    FinalizeKeeps(job.codec, disk, d, now);
    if d in disk.parts {
      assert Whole(job, disk) == disk.parts[d];
      var raw := DecodeStream(job.codec, job.Encoding(), disk.parts[d]);
      if raw.Ok? && |raw.value| == |job.payload| {
        StoreKeeps(job.codec, disk.store, d, raw.value, now);
        var b := StoreBlobForDigest(job.codec, disk.store, d, raw.value, now);
        if b.outcome.Ok? && job.Encoding() == Some(ZSTD) { VariantStoreKeeps(job.codec, b.store, d, raw.value, disk.parts[d], now); }
      }
    }
  }

  // ── One chunk ─────────────────────────────────────────────────────

  function LiveAt(job: Job, sequence: nat, n: nat): Live {
    Live(job.workorder, job.Digest(), job.Params(), sequence, n)
  }

  lemma AppendStands(job: Job, disk: Disk, sequence: nat, n: nat, size: nat)
    requires |job.Stream()| < TWO64 && StandsAt(job, disk, sequence, n) && 0 < size && n + size <= |job.Stream()|
    ensures var a := Append(disk, job.Digest(), job.Params(), job.Stream()[n..n + size]);
            && a.result == Ok(Session(job.Params(), sequence + 1, n + size, n + size))
            && a.disk.store == disk.store && job.Digest() in a.disk.parts
            && StandsAt(job, a.disk, sequence + 1, n + size) && Whole(job, a.disk) == Whole(job, disk)
  {
    hide Prepare;
    PrepareExactly(job, disk);
    var a := Append(disk, job.Digest(), job.Params(), job.Stream()[n..n + size]);
    assert Staged(a.disk, job.Digest()) == Staged(disk, job.Digest()) + job.Stream()[n..n + size];
    assert job.Stream()[n..n + size] + job.Stream()[n + size..] == job.Stream()[n..];
  }

  /** What the server makes of the next chunk. */
  lemma FrameStands(job: Job, disk: Disk, sequence: nat, n: nat, size: nat, now: int)
    requires Begins(job, disk) && StandsAt(job, disk, sequence, n) && CanSend(job, LiveAt(job, sequence, n), size)
    ensures var a := Append(disk, job.Digest(), job.Params(), job.Stream()[n..n + size]);
            var h := HandleFrame(job.codec, disk, LiveAt(job, sequence, n), ChunkWire(job.Stream(), n, sequence, size).sent, now);
            && a.result.Ok? && a.disk.store == disk.store && StandsAt(job, a.disk, sequence + 1, n + size) && Whole(job, a.disk) == Whole(job, disk)
            && job.Digest() in a.disk.parts
            && (n + size < |job.Stream()| ==> h.live == Some(LiveAt(job, sequence + 1, n + size)) && h.disk == a.disk)
            && (n + size == |job.Stream()| ==>
                  && h.live.None? && h.disk == Finalize(job.codec, a.disk, job.Digest(), now).disk
                  && (Completed(h) <==> Finalize(job.codec, a.disk, job.Digest(), now).result.Ok?))
  {
    hide AcceptFrame, Append, Finalize, StandsAt, Sound, Codec.Lawful, Whole;
    AppendStands(job, disk, sequence, n, size);
    FrameAccepted(LiveAt(job, sequence, n), job.Stream(), size);
  }

  // ── One attempt ───────────────────────────────────────────────────

  /** What an attempt that gets past the init leaves. */
  ghost predicate Streamed(job: Job, disk: Disk, a: Attempt) {
    && Sound(job.codec, a.disk.store) && SameOthers(disk, a.disk, job.Digest())
    && (a.done <==> Lands(job, disk))
    && (a.done ==> job.Digest() in a.disk.store.blobs && a.disk.store.blobs[job.Digest()] == job.payload)
    && (!a.done ==> job.Digest() !in a.disk.store.blobs && Whole(job, a.disk) == Whole(job, disk)
                    && exists sequence :: StandsAt(job, a.disk, sequence, |job.Stream()|))
  }

  lemma StoreKeptBegins(job: Job, disk: Disk, disk': Disk, sequence: nat, n: nat)
    requires Begins(job, disk) && disk'.store == disk.store && Whole(job, disk') == Whole(job, disk) && StandsAt(job, disk', sequence, n)
    ensures Begins(job, disk')
  {
    hide Whole, Sound, Codec.Lawful;
  }

  lemma {:induction false} RestStreamed(job: Job, disk: Disk, sequence: nat, n: nat, cut: Cut, now: int)
    requires Begins(job, disk) && StandsAt(job, disk, sequence, n) && n < |job.Stream()| && Cuts(cut)
    ensures Streamed(job, disk, SendRest(job, disk, LiveAt(job, sequence, n), cut, now))
    decreases |job.Stream()| - n
  {
    hide HandleFrame, Append, Finalize, Begins, StandsAt, Whole, Lands, Streamed, Sound;
    var size := cut(|job.Stream()|, n);
    BeginsFits(job, disk, sequence, n);
    FrameStands(job, disk, sequence, n, size, now);
    var op := AppendOp(job.Digest(), job.Params(), job.Stream()[n..n + size]);
    var next := Append(disk, job.Digest(), job.Params(), job.Stream()[n..n + size]).disk;
    OthersUntouched(job.codec, disk, op);
    StoreKeptBegins(job, disk, next, sequence + 1, n + size);
    if n + size < |job.Stream()| {
      RestStreamed(job, next, sequence + 1, n + size, cut, now);
      StreamedFurther(job, disk, next, SendRest(job, next, LiveAt(job, sequence + 1, n + size), cut, now));
    } else {
      LastStreamed(job, disk, next, sequence + 1, now);
    }
  }

  lemma BeginsFits(job: Job, disk: Disk, sequence: nat, n: nat)
    requires Begins(job, disk) && StandsAt(job, disk, sequence, n)
    ensures |job.Stream()| < TWO64 && sequence <= n && job.codec.Lawful() && Sound(job.codec, disk.store)
  {
  }

  lemma StreamedFurther(job: Job, disk: Disk, next: Disk, a: Attempt)
    requires SameOthers(disk, next, job.Digest()) && Whole(job, next) == Whole(job, disk) && Streamed(job, next, a)
    ensures Streamed(job, disk, a)
  {
    hide Whole, Sound, StandsAt, SameOthers;
    OthersThrough(disk, next, a.disk, job.Digest());
  }

  lemma LastStreamed(job: Job, disk: Disk, next: Disk, sequence: nat, now: int)
    requires Begins(job, next) && StandsAt(job, next, sequence, |job.Stream()|) && job.Digest() in next.parts
    requires SameOthers(disk, next, job.Digest()) && Whole(job, next) == Whole(job, disk)
    ensures var f := Finalize(job.codec, next, job.Digest(), now); Streamed(job, disk, Attempt(f.disk, f.result.Ok?))
  {
    hide Finalize, Whole, StandsAt, SameOthers, Sound, Codec.Lawful;
    FinalizeExactly(job, next, sequence, now);
    OthersUntouched(job.codec, next, FinalizeOp(job.Digest(), now));
    OthersThrough(disk, next, Finalize(job.codec, next, job.Digest(), now).disk, job.Digest());
  }

  /** An init that stops the attempt before anything is sent. */
  lemma RefusedAtInit(job: Job, disk: Disk, cut: Cut, now: int)
    requires Begins(job, disk)
    requires !(NoConflict(job, disk) && |Staged(disk, job.Digest())| <= |job.Stream()| && RecordAgrees(job, disk))
    ensures var a := UploadOnce(job, disk, cut, now);
            && !a.done
            && a.disk == if NoConflict(job, disk) && |Staged(disk, job.Digest())| > |job.Stream()| then RemoveSession(disk, job.Digest()) else disk
  {
    hide Prepare, Finalize, Sound;
    EncodingSelected(job);
    assert ValidDigest(job.Digest());
    PrepareExactly(job, disk);
  }

  /** An init that finds everything staged finalises at once; any other starts at the staged length. */
  lemma PassedInit(job: Job, disk: Disk, now: int)
    requires Begins(job, disk) && NoConflict(job, disk) && |Staged(disk, job.Digest())| <= |job.Stream()| && RecordAgrees(job, disk)
    ensures var d, n := job.Digest(), |Staged(disk, job.Digest())|;
            var p := Prepare(disk, d, job.Params());
            var h := HandleInit(job.codec, disk, job.InitMessage(), now);
            && p.result.Ok? && p.disk.store == disk.store && p.disk.parts == disk.parts && StandsAt(job, p.disk, p.result.value.nextSequence, n)
            && Whole(job, p.disk) == Whole(job, disk)
            && (n < |job.Stream()| ==> h.live == Some(LiveAt(job, p.result.value.nextSequence, n)) && h.disk == p.disk)
            && (n == |job.Stream()| ==>
                  && h.live.None? && h.disk == Finalize(job.codec, p.disk, d, now).disk
                  && (Completed(h) <==> Finalize(job.codec, p.disk, d, now).result.Ok?))
  {
    hide Prepare, Finalize, Sound;
    EncodingSelected(job);
    assert ValidDigest(job.Digest());
    PrepareExactly(job, disk);
  }

  /** What any attempt that is not refused at the init leaves. */
  ghost predicate Attempted(job: Job, disk: Disk, a: Attempt) {
    && Sound(job.codec, a.disk.store) && SameOthers(disk, a.disk, job.Digest())
    && (a.done <==> GoesThrough(job, disk))
    && (a.done ==> job.Digest() in a.disk.store.blobs && a.disk.store.blobs[job.Digest()] == job.payload)
    && (!a.done ==> Begins(job, a.disk) && |Staged(a.disk, job.Digest())| <= |job.Stream()| && !GoesThrough(job, a.disk))
  }

  lemma AttemptExactly(job: Job, disk: Disk, cut: Cut, now: int)
    requires Begins(job, disk) && Cuts(cut) && NoConflict(job, disk) && |Staged(disk, job.Digest())| <= |job.Stream()| && RecordAgrees(job, disk)
    ensures Attempted(job, disk, UploadOnce(job, disk, cut, now))
  {
    hide HandleInit, Prepare, Finalize, SendRest, Begins, StandsAt, Whole, Lands, Attempted, Streamed;
    var d, n := job.Digest(), |Staged(disk, job.Digest())|;
    PassedInit(job, disk, now);
    var p := Prepare(disk, d, job.Params());
    var sequence := p.result.value.nextSequence;
    StoreKeptBegins(job, disk, p.disk, sequence, n);
    BeginsIsSound(job, disk);
    OthersUntouched(job.codec, disk, PrepareOp(d, job.Params()));
    if n < |job.Stream()| {
      RestStreamed(job, p.disk, sequence, n, cut, now);
      StreamedFurther(job, disk, p.disk, SendRest(job, p.disk, LiveAt(job, sequence, n), cut, now));
      AfterStreaming(job, disk, UploadOnce(job, disk, cut, now));
    } else {
      WholeStaged(job, disk, p.disk, sequence, now);
    }
  }

  lemma EmptyTogether(job: Job)
    requires job.codec.Lawful()
    ensures job.Stream() == [] <==> job.payload == []
  {
  }

  lemma BeginsIsSound(job: Job, disk: Disk)
    requires Begins(job, disk)
    ensures job.codec.Lawful() && Sound(job.codec, disk.store)
  {
  }

  lemma AfterStreaming(job: Job, disk: Disk, a: Attempt)
    requires Begins(job, disk) && Streamed(job, disk, a) && |Staged(disk, job.Digest())| < |job.Stream()|
    requires NoConflict(job, disk) && RecordAgrees(job, disk)
    ensures Attempted(job, disk, a)
  {
    hide Whole, Sound, SameOthers;
  }

  lemma WholeStaged(job: Job, disk: Disk, p: Disk, sequence: nat, now: int)
    requires Begins(job, disk) && Begins(job, p) && p.store == disk.store && p.parts == disk.parts && SameOthers(disk, p, job.Digest())
    requires StandsAt(job, p, sequence, |job.Stream()|) && Whole(job, p) == Whole(job, disk)
    requires NoConflict(job, disk) && RecordAgrees(job, disk)
    ensures var f := Finalize(job.codec, p, job.Digest(), now); Attempted(job, disk, Attempt(f.disk, f.result.Ok?))
  {
    hide Finalize, Whole, SameOthers, Sound, Codec.Lawful;
    EmptyTogether(job);
    FinalizeExactly(job, p, sequence, now);
    OthersUntouched(job.codec, p, FinalizeOp(job.Digest(), now));
    OthersThrough(disk, p, Finalize(job.codec, p, job.Digest(), now).disk, job.Digest());
  }

  // ── With retries ──────────────────────────────────────────────────

  ghost predicate Uploaded(job: Job, disk: Disk, attempts: nat, a: Attempt) {
    && Sound(job.codec, a.disk.store) && SameOthers(disk, a.disk, job.Digest())
    && (a.done <==> Uploadable(job, disk, attempts))
    && (a.done ==> job.Digest() in a.disk.store.blobs && a.disk.store.blobs[job.Digest()] == job.payload)
    && (!a.done ==> job.Digest() !in a.disk.store.blobs)
  }

  lemma RemovedBegins(job: Job, disk: Disk)
    requires Begins(job, disk)
    ensures var fresh' := RemoveSession(disk, job.Digest());
            Begins(job, fresh') && Staged(fresh', job.Digest()) == [] && (GoesThrough(job, fresh') <==> job.payload != [])
  {
    var fresh' := RemoveSession(disk, job.Digest());
    assert Whole(job, fresh') == job.Stream();
    assert DecodeStream(job.codec, job.Encoding(), job.Stream()) == Ok(job.payload);
  }

  /**
   For every session record and every staged bytes the server may have: an upload over a
   connection that holds stores the payload within its attempts if and only if the record is
   of this upload and agrees with the staged bytes, and these go on to something that decodes
   to the payload; staged bytes that are too long cost one attempt, and an empty payload needs
   its part file to exist already.
   */
  lemma {:induction false} UploadExactly(job: Job, disk: Disk, cut: Cut, attempts: nat, now: int)
    requires Begins(job, disk) && Cuts(cut)
    ensures Uploaded(job, disk, attempts, Upload(job, disk, cut, attempts, now))
    decreases attempts
  {
    hide UploadOnce, Begins, Uploaded, Lands, SameOthers, NoConflict, RecordAgrees, Attempted;
    NothingDone(job, disk);
    if attempts > 0 {
      var first := UploadOnce(job, disk, cut, now);
      if NoConflict(job, disk) && |Staged(disk, job.Digest())| <= |job.Stream()| && RecordAgrees(job, disk) {
        AttemptExactly(job, disk, cut, now);
        if !first.done { AttemptFailed(job, disk, first); UploadExactly(job, first.disk, cut, attempts - 1, now); }
        OnceMore(job, disk, first, attempts, Upload(job, first.disk, cut, attempts - 1, now));
      } else {
        RefusedAtInit(job, disk, cut, now);
        RemovedBegins(job, disk);
        BeginsIsSound(job, disk);
        OthersUntouched(job.codec, disk, ForgetOp(job.Digest()));
        UploadExactly(job, first.disk, cut, attempts - 1, now);
        AfterRefusal(job, disk, first.disk, attempts, Upload(job, first.disk, cut, attempts - 1, now));
      }
    }
  }

  lemma NothingDone(job: Job, disk: Disk)
    requires Begins(job, disk)
    ensures Uploaded(job, disk, 0, Attempt(disk, false))
  {
  }

  lemma AttemptFailed(job: Job, disk: Disk, first: Attempt)
    requires Attempted(job, disk, first) && !first.done
    ensures Begins(job, first.disk)
  {
  }

  /** After an attempt that was let in, further ones change nothing about the answer. */
  lemma OnceMore(job: Job, disk: Disk, first: Attempt, attempts: nat, rest: Attempt)
    requires attempts > 0 && Attempted(job, disk, first) && |Staged(disk, job.Digest())| <= |job.Stream()|
    requires !first.done ==> Uploaded(job, first.disk, attempts - 1, rest)
    ensures Uploaded(job, disk, attempts, if first.done then first else rest)
  {
    hide Sound, SameOthers, Begins, GoesThrough;
    if !first.done { OthersThrough(disk, first.disk, rest.disk, job.Digest()); }
  }

  lemma AfterRefusal(job: Job, disk: Disk, next: Disk, attempts: nat, rest: Attempt)
    requires attempts > 0 && Begins(job, disk)
    requires !(NoConflict(job, disk) && |Staged(disk, job.Digest())| <= |job.Stream()| && RecordAgrees(job, disk))
    requires next == if NoConflict(job, disk) && |Staged(disk, job.Digest())| > |job.Stream()| then RemoveSession(disk, job.Digest()) else disk
    requires SameOthers(disk, RemoveSession(disk, job.Digest()), job.Digest()) && Uploaded(job, next, attempts - 1, rest)
    ensures Uploaded(job, disk, attempts, rest)
  {
    hide Sound, SameOthers, RecordAgrees, Lands;
    RemovedBegins(job, disk);
    OthersReflexive(disk, job.Digest());
    OthersThrough(disk, next, rest.disk, job.Digest());
  }

  lemma OthersReflexive(disk: Disk, d: string)
    ensures SameOthers(disk, disk, d)
  {
  }

  /** Without record and part for the digest, exactly the empty payload is refused. */
  lemma FreshIsUploadable(job: Job, disk: Disk, attempts: nat)
    requires job.codec.Lawful() && attempts > 0 && job.Digest() !in disk.sessions && job.Digest() !in disk.parts
    ensures Uploadable(job, disk, attempts) <==> job.payload != []
  {
    assert Whole(job, disk) == job.Stream();
    assert DecodeStream(job.codec, job.Encoding(), job.Stream()) == Ok(job.payload);
  }

  /** A torn write is one way to fail: with the record behind the staged bytes no number of attempts helps. */
  lemma TornIsNotUploaded(job: Job, disk: Disk, cut: Cut, attempts: nat, now: int)
    requires Begins(job, disk) && Cuts(cut)
    requires job.Digest() in disk.sessions && disk.sessions[job.Digest()].received < |Staged(disk, job.Digest())| <= |job.Stream()|
    ensures !Upload(job, disk, cut, attempts, now).done
  {
    UploadExactly(job, disk, cut, attempts, now);
  }

  /** The handlers keep every record within its bytes. */
  lemma InitKeepsRecords(codec: Codec, disk: Disk, init: Init, now: int)
    requires ChunksWithinBytes(disk, init.digest)
    ensures ChunksWithinBytes(HandleInit(codec, disk, init, now).disk, init.digest)
  {
    hide StoreBlobForDigest, StoreEncodedVariant, DecodeStream;
  }

  lemma FrameKeepsRecords(codec: Codec, disk: Disk, live: Live, frame: Bytes, now: int)
    requires ChunksWithinBytes(disk, live.digest) && live.received < live.params.streamSize
    requires live.digest in disk.sessions ==> disk.sessions[live.digest].received < live.params.streamSize
    ensures ChunksWithinBytes(HandleFrame(codec, disk, live, frame, now).disk, live.digest)
  {
    hide AcceptFrame, StoreBlobForDigest, StoreEncodedVariant, DecodeStream;
  }
}
