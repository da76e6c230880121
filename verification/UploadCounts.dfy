/** How many chunks an upload takes, and why an empty payload takes forever. */
module UploadCounts {
  import opened Common
  import opened Codecs
  import opened BlobStores
  import opened ChunkPolicies
  import opened UploadSessions
  import opened StoreIntegrity
  import opened UploadProtocol
  import opened UploadSafety

  // ── Chunks appended ───────────────────────────────────────────────

  function MaxChunks(n: nat): nat {
    (n + MIN_CHUNK_SIZE - 1) / MIN_CHUNK_SIZE
  }

  /** The record counts the chunks; without a record none was appended, or the blob is stored. */
  ghost predicate CountOk(job: Job, w: World) {
    var d := job.Digest();
    && w.appended <= MaxChunks(|job.Stream()|)
    && (d in w.disk.sessions ==> w.appended == w.disk.sessions[d].nextSequence)
    && (d !in w.disk.sessions && d !in w.disk.store.blobs ==> w.appended == 0)
  }

  lemma CountedIsBounded(received: nat, sequence: nat, total: nat)
    requires Counted(received, sequence, total)
    ensures sequence <= MaxChunks(total)
  {
  }

  lemma InitCounts(job: Job, w: World, now: int)
    requires job.Valid() && Inv(job, w) && CountOk(job, w)
    ensures CountOk(job, DoServerInit(job, w, now))
  {
    hide Sound, Codec.Lawful, Finalize, Counted, ClientOk, CompletionOk;
    if w.handler.AwaitInit? {
      var d := job.Digest();
      EncodingSelected(job);
      PrepareOutcome(job, w.disk);
      var p := Prepare(w.disk, d, job.Params());
      if d !in w.disk.store.blobs && p.result.Ok? { FinalizeKeeps(job.codec, p.disk, d, now); }
    }
  }

  lemma FrameCounts(job: Job, w: World, now: int)
    requires job.Valid() && Inv(job, w) && CountOk(job, w) && FrameWaiting(w)
    ensures CountOk(job, DoServerFrame(job, w, now))
  {
    hide Sound, Codec.Lawful, Finalize, ClientOk, CompletionOk, AcceptFrame, Append, Counted;
    var live, c := w.handler.live, w.toServer[0];
    if c.fault.Some? {
      DamagedFrame(job, live, c);
    } else {
      GoodFrameAppends(job, w);
      GoodFrame(job, live, c);
      AppendCounts(job, w);
      var a := Append(w.disk, live.digest, live.params, Appending(w).value);
      FinalizeKeeps(job.codec, a.disk, job.Digest(), now);
    }
  }

  /** The appended chunk is the next of its sequence. */
  lemma AppendCounts(job: Job, w: World)
    requires job.Valid() && Inv(job, w) && CountOk(job, w) && FrameWaiting(w) && w.toServer[0].fault.None?
    ensures Appending(w).Some?
    ensures var a := Append(w.disk, w.handler.live.digest, w.handler.live.params, Appending(w).value);
            && job.Digest() in a.disk.sessions && a.disk.sessions[job.Digest()].nextSequence == w.appended + 1
            && w.appended + 1 <= MaxChunks(|job.Stream()|)
  {
    hide Sound, Codec.Lawful, ClientOk, CompletionOk, AcceptFrame, Append, Counted;
    GoodFrameAppends(job, w);
    var s := Append(w.disk, w.handler.live.digest, w.handler.live.params, Appending(w).value).disk.sessions[job.Digest()];
    CountedIsBounded(s.received, s.nextSequence, |job.Stream()|);
  }

  lemma PartialFinalizeCounts(job: Job, disk: Disk, stage: nat, now: int)
    requires job.Valid() && Sound(job.codec, disk.store)
    ensures var d := job.Digest();
            var r := PartialFinalize(job.codec, disk, d, stage, now);
            && (d in r.sessions ==> d in disk.sessions && r.sessions[d] == disk.sessions[d])
            && (d in disk.sessions && d !in r.sessions ==> d in r.store.blobs)
  {
    hide Sound, Codec.Lawful, Finalize, StoreBlobForDigest;
    FinalizeKeeps(job.codec, disk, job.Digest(), now);
  }

  lemma CrashInFinalizeCounts(job: Job, w: World, stage: nat, now: int)
    requires job.Valid() && Inv(job, w) && CountOk(job, w)
    ensures CountOk(job, DoCrashInFinalize(job, w, stage, now))
  {
    hide Sound, Codec.Lawful, AcceptFrame, Append, PartialFinalize, Counted, ClientOk, CompletionOk;
    if FrameWaiting(w) && Appending(w).Some? {
      AppendingIsUndamaged(job, w);
      GoodFrameAppends(job, w);
      AppendCounts(job, w);
      PartialFinalizeCounts(job, Append(w.disk, w.handler.live.digest, w.handler.live.params, Appending(w).value).disk, stage, now);
    } else if w.handler.AwaitInit? && StagedComplete(job, w.disk) {
      PartialFinalizeCounts(job, w.disk, stage, now);
    }
  }

  lemma CrashInAppendCounts(job: Job, w: World, written: nat)
    requires job.Valid() && Inv(job, w) && CountOk(job, w)
    ensures CountOk(job, DoCrashInAppend(job, w, written))
  {
    hide Sound, Codec.Lawful, AcceptFrame, Append, Prepare, Counted, ClientOk, CompletionOk;
    if FrameWaiting(w) && Appending(w).Some? && written <= |Appending(w).value| {
      AppendingIsUndamaged(job, w);
      GoodFrameAppends(job, w);
      PrepareOutcome(job, w.disk);
    }
  }

  lemma OutsideCounts(job: Job, w: World, op: DiskOp)
    requires job.Valid() && Inv(job, w) && CountOk(job, w)
    ensures CountOk(job, DoOutside(job, w, op))
  {
    hide Sound, Codec.Lawful, StoreBlobForDigest, TouchBlob, Counted, ClientOk, CompletionOk;
    if op.digest != job.Digest() {
      OtherDigestUntouched(job.codec, w.disk, op, job.Digest());
    } else if op.StoreOp? {
      StoreKeeps(job.codec, w.disk.store, op.digest, op.bytes, op.now);
    } else if op.TouchOp? {
      TouchKeeps(job.codec, w.disk.store, op.digest, op.at, op.now);
    }
  }

  lemma StepCounts(job: Job, w: World, step: Step)
    requires job.Valid() && Inv(job, w) && CountOk(job, w)
    ensures CountOk(job, Do(job, w, step))
  {
    hide Inv, DoServerInit, DoServerFrame, DoCrashInAppend, DoCrashInFinalize, DoOutside;
    match step
    case ServerInit(now) => InitCounts(job, w, now);
    case ServerFrame(now) => if FrameWaiting(w) { FrameCounts(job, w, now); } else { NothingToDo(job, w, now); }
    case CrashInAppend(written) => CrashInAppendCounts(job, w, written);
    case CrashInFinalize(stage, now) => CrashInFinalizeCounts(job, w, stage, now);
    case Outside(op) => OutsideCounts(job, w, op);
    case _ =>
  }

  lemma NothingToDo(job: Job, w: World, now: int)
    requires !FrameWaiting(w)
    ensures DoServerFrame(job, w, now) == w
  {
  }

  lemma {:induction false} RunCounts(job: Job, w: World, steps: seq<Step>)
    requires job.Valid() && Inv(job, w) && CountOk(job, w)
    ensures CountOk(job, Run(job, w, steps))
    decreases |steps|
  {
    hide Inv, CountOk, Do;
    if steps != [] {
      StepKeeps(job, w, steps[0]);
      StepCounts(job, w, steps[0]);
      RunCounts(job, Do(job, w, steps[0]), steps[1..]);
    }
  }

  /** In every state of every run, across all reconnects and crashes, an n-byte stream has taken at most ceil(n / 256 KiB) chunks. */
  lemma ChunkCountTheorem(job: Job, disk: Disk, steps: seq<Step>)
    requires job.Valid() && FreshFor(job, disk)
    ensures Run(job, Start(disk), steps).appended <= (|job.Stream()| + MIN_CHUNK_SIZE - 1) / MIN_CHUNK_SIZE
  {
    RunCounts(job, Start(disk), steps);
  }

  // ── The empty payload ─────────────────────────────────────────────

  /** With nothing to stream no part file is ever created, so finalisation cannot read it. */
  lemma EmptyPayloadIsRefused(job: Job, disk: Disk, now: int)
    requires job.codec.Lawful() && job.payload == [] && Barren(job, disk)
    ensures var h := HandleInit(job.codec, disk, job.InitMessage(), now);
            && h.replies == [UploadError(job.Envelope(), StoreFailure(MissingPart))]
            && h.live.None? && Barren(job, h.disk)
  {
    EncodingSelected(job);
    assert ValidDigest(job.Digest());
  }

  /** Neither blob nor part; a record, if any, still stands at the start. */
  predicate Barren(job: Job, disk: Disk) {
    var d := job.Digest();
    d !in disk.store.blobs && d !in disk.parts && (d in disk.sessions ==> disk.sessions[d] == Session(job.Params(), 0, 0, 0))
  }

  ghost predicate Refused(job: Job, w: World) {
    && Sound(job.codec, w.disk.store) && Barren(job, w.disk)
    && !w.handler.Serving? && (w.handler.AwaitInit? ==> w.toServer == [InitFrame(job.InitMessage())]) && (w.handler.Closed? ==> w.toServer == [])
    && (w.client.Idle? || w.client.AwaitResume? || w.client.Failed?)
    && (forall i :: 0 <= i < |w.toClient| ==> w.toClient[i].UploadError?)
  }

  lemma EmptyPayloadOutside(job: Job, w: World, op: DiskOp)
    requires job.codec.Lawful() && Refused(job, w) && NotStoredOutside(job, Outside(op))
    ensures Refused(job, DoOutside(job, w, op))
  {
    hide Sound, Codec.Lawful, StoreBlobForDigest, TouchBlob;
    OperationKeeps(job.codec, w.disk, op);
    if op.digest != job.Digest() {
      OtherDigestUntouched(job.codec, w.disk, op, job.Digest());
    } else if op.TouchOp? {
      TouchKeeps(job.codec, w.disk.store, op.digest, op.at, op.now);
    }
  }

  lemma EmptyPayloadCrash(job: Job, w: World, stage: nat, now: int)
    requires job.codec.Lawful() && job.payload == [] && Refused(job, w)
    ensures Refused(job, DoCrashInFinalize(job, w, stage, now))
  {
    hide Sound, Codec.Lawful, StoreBlobForDigest;
    assert Finalize(job.codec, w.disk, job.Digest(), now).result.Err?;
  }

  lemma EmptyPayloadStep(job: Job, w: World, step: Step)
    requires job.codec.Lawful() && job.payload == [] && Refused(job, w) && NotStoredOutside(job, step)
    ensures Refused(job, Do(job, w, step))
  {
    hide Sound, Codec.Lawful, Barren, HandleInit, DoOutside, DoCrashInFinalize;
    match step
    case ServerInit(now) => EmptyPayloadIsRefused(job, w.disk, now); EmptyInitKeeps(job, w.disk, now);
    case CrashInFinalize(stage, now) => EmptyPayloadCrash(job, w, stage, now);
    case Outside(op) => EmptyPayloadOutside(job, w, op);
    case _ =>
  }

  lemma EmptyInitKeeps(job: Job, disk: Disk, now: int)
    requires job.codec.Lawful() && job.payload == [] && Barren(job, disk)
    ensures HandleInit(job.codec, disk, job.InitMessage(), now).disk.store == disk.store
  {
    EncodingSelected(job);
    assert ValidDigest(job.Digest());
  }

  /** In every run an empty payload is refused for good, unless it is stored by another way. */
  lemma {:induction false} EmptyPayloadNeverCompletes(job: Job, w: World, steps: seq<Step>)
    requires job.codec.Lawful() && job.payload == [] && Refused(job, w) && forall step :: step in steps ==> NotStoredOutside(job, step)
    ensures Refused(job, Run(job, w, steps))
    decreases |steps|
  {
    hide Refused, Do, NotStoredOutside;
    if steps != [] {
      EmptyPayloadStep(job, w, steps[0]);
      EmptyPayloadNeverCompletes(job, Do(job, w, steps[0]), steps[1..]);
    }
  }

  /** From a server that knows nothing of it, the client of an empty payload is never done. */
  lemma EmptyPayloadTheorem(job: Job, disk: Disk, steps: seq<Step>)
    requires job.codec.Lawful() && job.payload == [] && FreshFor(job, disk) && job.Digest() !in disk.store.blobs
    requires forall step :: step in steps ==> NotStoredOutside(job, step)
    ensures var w := Run(job, Start(disk), steps);
            !w.client.Done? && job.Digest() !in w.disk.store.blobs
  {
    EmptyPayloadNeverCompletes(job, Start(disk), steps);
  }
}
