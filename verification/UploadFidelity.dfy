/** What an upload stores is the payload, whatever the hash function does. */
module UploadFidelity {
  import opened Common
  import opened Codecs
  import opened BlobStores
  import opened UploadSessions
  import opened StoreIntegrity
  import opened UploadProtocol
  import opened UploadSafety

  /** The blob under the digest, if there is one, is the payload. */
  predicate Faithful(job: Job, store: Store) {
    job.Digest() in store.blobs ==> store.blobs[job.Digest()] == job.payload
  }

  /** Finalising a session whose staged bytes are a prefix of the stream can only store the payload. */
  lemma FinalizeIsFaithful(job: Job, disk: Disk, now: int)
    requires job.Valid() && Sound(job.codec, disk.store) && SessionOk(job, disk) && Staged(disk, job.Digest()) <= job.Stream() && Faithful(job, disk.store)
    ensures Faithful(job, Finalize(job.codec, disk, job.Digest(), now).disk.store)
  {
    hide Counted;
    var d := job.Digest();
    FinalizeKeeps(job.codec, disk, d, now);
    if d in disk.sessions && d in disk.parts && |disk.parts[d]| == |job.Stream()| {
      assert disk.parts[d] == job.Stream();
      assert DecodeStream(job.codec, job.Encoding(), job.Stream()) == Ok(job.payload);
      StoreIsFaithful(job, disk.store, now);
    }
  }

  lemma StoreIsFaithful(job: Job, store: Store, now: int)
    requires job.Valid() && Sound(job.codec, store) && Faithful(job, store)
    ensures var b := StoreBlobForDigest(job.codec, store, job.Digest(), job.payload, now);
            Faithful(job, b.store) && Faithful(job, StoreEncodedVariant(b.store, job.Digest(), |job.payload|, job.Stream(), now).store)
  {
    StoreKeeps(job.codec, store, job.Digest(), job.payload, now);
  }

  lemma PartialFinalizeIsFaithful(job: Job, disk: Disk, stage: nat, now: int)
    requires job.Valid() && Sound(job.codec, disk.store) && SessionOk(job, disk) && Staged(disk, job.Digest()) <= job.Stream() && Faithful(job, disk.store)
    ensures Faithful(job, PartialFinalize(job.codec, disk, job.Digest(), stage, now).store)
  {
    hide Counted, Sound, StoreBlobForDigest, Codec.Lawful;
    FinalizeIsFaithful(job, disk, now);
    if Finalize(job.codec, disk, job.Digest(), now).result.Ok? {
      FinalizedWhole(job, disk, now);
      StoreIsFaithful(job, disk.store, now);
    }
  }

  lemma FinalizedWhole(job: Job, disk: Disk, now: int)
    requires job.Valid() && SessionOk(job, disk) && Staged(disk, job.Digest()) <= job.Stream()
    requires Finalize(job.codec, disk, job.Digest(), now).result.Ok?
    ensures var d := job.Digest();
            && d in disk.sessions && d in disk.parts
            && DecodeStream(job.codec, disk.sessions[d].params.encoding, disk.parts[d]) == Ok(job.payload)
  {
    hide Counted, StoreBlobForDigest, StoreEncodedVariant;
    assert disk.parts[job.Digest()] == job.Stream();
  }

  lemma InitIsFaithful(job: Job, w: World, now: int)
    requires job.Valid() && Inv(job, w) && Faithful(job, w.disk.store)
    ensures Faithful(job, DoServerInit(job, w, now).disk.store)
  {
    hide Sound, Codec.Lawful, Finalize, ClientOk, CompletionOk;
    if w.handler.AwaitInit? {
      EncodingSelected(job);
      StreamNonEmpty(job);
      PrepareOutcome(job, w.disk);
      var p := Prepare(w.disk, job.Digest(), job.Params());
      if job.Digest() !in w.disk.store.blobs && p.result.Ok? { FinalizeIsFaithful(job, p.disk, now); }
    }
  }

  lemma FrameIsFaithful(job: Job, w: World, now: int)
    requires job.Valid() && Inv(job, w) && Faithful(job, w.disk.store)
    ensures Faithful(job, DoServerFrame(job, w, now).disk.store)
  {
    hide Sound, Codec.Lawful, Finalize, Counted, ClientOk, CompletionOk, AcceptFrame, Append;
    if FrameWaiting(w) {
      var live, c := w.handler.live, w.toServer[0];
      if c.fault.Some? {
        DamagedFrame(job, live, c);
      } else {
        GoodFrameAppends(job, w);
        GoodFrame(job, live, c);
        FinalizeIsFaithful(job, Append(w.disk, live.digest, live.params, Appending(w).value).disk, now);
      }
    }
  }

  lemma CrashIsFaithful(job: Job, w: World, stage: nat, now: int)
    requires job.Valid() && Inv(job, w) && Faithful(job, w.disk.store)
    ensures Faithful(job, DoCrashInFinalize(job, w, stage, now).disk.store)
  {
    hide Sound, Codec.Lawful, AcceptFrame, Append, PartialFinalize, Counted, ClientOk, CompletionOk;
    if FrameWaiting(w) && Appending(w).Some? {
      AppendingIsUndamaged(job, w);
      GoodFrameAppends(job, w);
      PartialFinalizeIsFaithful(job, Append(w.disk, w.handler.live.digest, w.handler.live.params, Appending(w).value).disk, stage, now);
    } else if w.handler.AwaitInit? && StagedComplete(job, w.disk) {
      PartialFinalizeIsFaithful(job, w.disk, stage, now);
    }
  }

  lemma TornAppendIsFaithful(job: Job, w: World, written: nat)
    requires job.Valid() && Inv(job, w) && Faithful(job, w.disk.store)
    ensures Faithful(job, DoCrashInAppend(job, w, written).disk.store)
  {
    hide Sound, Codec.Lawful, AcceptFrame, Append, Counted, ClientOk, CompletionOk;
  }

  lemma OutsideIsFaithful(job: Job, w: World, op: DiskOp)
    requires job.Valid() && Inv(job, w) && Faithful(job, w.disk.store) && NotStoredOutside(job, Outside(op))
    ensures Faithful(job, DoOutside(job, w, op).disk.store)
  {
    hide Sound, Codec.Lawful, TouchBlob, Counted, ClientOk, CompletionOk;
    if op.digest != job.Digest() {
      OtherDigestUntouched(job.codec, w.disk, op, job.Digest());
    } else if op.TouchOp? {
      TouchKeeps(job.codec, w.disk.store, op.digest, op.at, op.now);
    }
  }

  lemma StepIsFaithful(job: Job, w: World, step: Step)
    requires job.Valid() && Inv(job, w) && Faithful(job, w.disk.store) && NotStoredOutside(job, step)
    ensures Faithful(job, Do(job, w, step).disk.store)
  {
    hide Inv, Faithful, DoServerInit, DoServerFrame, DoCrashInAppend, DoCrashInFinalize, DoOutside, NotStoredOutside;
    match step
    case ServerInit(now) => InitIsFaithful(job, w, now);
    case ServerFrame(now) => FrameIsFaithful(job, w, now);
    case CrashInAppend(written) => TornAppendIsFaithful(job, w, written);
    case CrashInFinalize(stage, now) => CrashIsFaithful(job, w, stage, now);
    case Outside(op) => OutsideIsFaithful(job, w, op);
    case _ =>
  }

  lemma {:induction false} RunIsFaithful(job: Job, w: World, steps: seq<Step>)
    requires job.Valid() && Inv(job, w) && Faithful(job, w.disk.store) && forall step :: step in steps ==> NotStoredOutside(job, step)
    ensures Faithful(job, Run(job, w, steps).disk.store)
    decreases |steps|
  {
    hide Inv, Faithful, Do, NotStoredOutside;
    if steps != [] {
      StepKeeps(job, w, steps[0]);
      StepIsFaithful(job, w, steps[0]);
      RunIsFaithful(job, Do(job, w, steps[0]), steps[1..]);
    }
  }

  /**
   In every run over a server that did not have the blob, and that gets it in no other way, the
   blob under the digest is byte for byte the payload; a client that sees completion finds it
   there. Nothing is asked of the hash.
   */
  lemma StoredIsThePayload(job: Job, disk: Disk, steps: seq<Step>)
    requires job.Valid() && FreshFor(job, disk) && job.Digest() !in disk.store.blobs
    requires forall step :: step in steps ==> NotStoredOutside(job, step)
    ensures var w := Run(job, Start(disk), steps);
            && (job.Digest() in w.disk.store.blobs ==> w.disk.store.blobs[job.Digest()] == job.payload)
            && (w.client.Done? ==> job.Digest() in w.disk.store.blobs)
  {
    RunKeepsInv(job, Start(disk), steps);
    RunIsFaithful(job, Start(disk), steps);
  }
}
