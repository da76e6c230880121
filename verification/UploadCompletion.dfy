/** When an upload can still be completed. */
module UploadCompletion {
  import opened Common
  import opened Codecs
  import opened BlobStores
  import opened ChunkPolicies
  import opened UploadSessions
  import opened StoreIntegrity
  import opened UploadProtocol
  import opened UploadSafety
  import ChunkFrame

  /** The blob is stored, or the session record agrees with the staged length. */
  ghost predicate Intact(job: Job, disk: Disk) {
    var d := job.Digest();
    || d in disk.store.blobs
    || (if d in disk.sessions then disk.sessions[d].received == |Staged(disk, d)| else Staged(disk, d) == [])
  }

  predicate Undirected(job: Job, step: Step) {
    !(step.Outside? && step.op.digest == job.Digest())
  }

  lemma {:induction false} RunSplit(job: Job, w: World, a: seq<Step>, b: seq<Step>)
    ensures Run(job, w, a + b) == Run(job, Run(job, w, a), b)
    decreases |a|
  {
    if a == [] {
      assert a + b == b;
    } else {
      assert (a + b)[0] == a[0] && (a + b)[1..] == a[1..] + b;
      RunSplit(job, Do(job, w, a[0]), a[1..], b);
    }
  }

  // ── From any intact state the upload can be finished ──────────────

  /** Staging everything makes finalisation store the payload. */
  lemma FinalizeSucceeds(job: Job, disk: Disk, now: int)
    requires job.Valid() && Sound(job.codec, disk.store) && job.Digest() !in disk.store.blobs
    requires job.Digest() in disk.sessions && disk.sessions[job.Digest()].params == job.Params()
    requires job.Digest() in disk.parts && disk.parts[job.Digest()] == job.Stream()
    ensures Finalize(job.codec, disk, job.Digest(), now).result.Ok?
  {
    var d := job.Digest();
    assert DecodeStream(job.codec, job.Encoding(), job.Stream()) == Ok(job.payload);
    StoreKeeps(job.codec, disk.store, d, job.payload, now);
    var b := StoreBlobForDigest(job.codec, disk.store, d, job.payload, now);
    if job.Encoding() == Some(ZSTD) {
      VariantStoreKeeps(job.codec, b.store, d, job.payload, job.Stream(), now);
    }
  }

  /** Client and server both at rest. */
  ghost predicate AtRest(job: Job, w: World) {
    Inv(job, w) && Intact(job, w.disk) && w.client.Idle? && w.handler.Closed?
  }

  lemma RunThree(job: Job, w: World, a: Step, b: Step, c: Step)
    ensures Run(job, w, [a, b, c]) == Do(job, Do(job, Do(job, w, a), b), c)
  {
    hide Do;
    assert [a, b, c][1..] == [b, c] && [b, c][1..] == [c];
    assert Run(job, Do(job, Do(job, w, a), b), [c]) == Run(job, Do(job, Do(job, Do(job, w, a), b), c), []);
  }

  lemma ThreeStepsKeep(job: Job, w: World, a: Step, b: Step, c: Step)
    requires job.Valid() && Inv(job, w)
    ensures Inv(job, Do(job, w, a)) && Inv(job, Do(job, Do(job, w, a), b)) && Inv(job, Do(job, Do(job, Do(job, w, a), b), c))
  {
    hide Do, Inv;
    StepKeeps(job, w, a);
    StepKeeps(job, Do(job, w, a), b);
    StepKeeps(job, Do(job, Do(job, w, a), b), c);
  }

  lemma Rest(job: Job, w: World) returns (steps: seq<Step>)
    requires job.Valid() && Inv(job, w) && Intact(job, w.disk) && !w.client.Done?
    ensures AtRest(job, Run(job, w, steps)) && forall s :: s in steps ==> Undirected(job, s)
  {
    hide Inv, Intact;
    steps := [ServerDrop, ClientDrop, ClientRetry];
    RunThree(job, w, ServerDrop, ClientDrop, ClientRetry);
    ThreeStepsKeep(job, w, ServerDrop, ClientDrop, ClientRetry);
  }

  /** The client may send and the server is listening. */
  ghost predicate Streaming(job: Job, w: World) {
    Inv(job, w) && w.client.Ready? && w.handler.Serving? && job.Digest() !in w.disk.store.blobs
  }

  ghost predicate Finishing(job: Job, w: World) {
    Inv(job, w) && w.client.AwaitComplete? && |w.toClient| == 1 && w.toClient[0].UploadComplete? && w.toClient[0].env == job.Envelope()
  }

  lemma Reconnect(job: Job, w: World) returns (steps: seq<Step>)
    requires job.Valid() && AtRest(job, w)
    ensures var w' := Run(job, w, steps); w'.client.Done? || Streaming(job, w')
    ensures forall s :: s in steps ==> Undirected(job, s)
  {
    hide Inv, Intact, HandleInit;
    steps := [Connect, ServerInit(0), ClientReceive(0)];
    RunThree(job, w, Connect, ServerInit(0), ClientReceive(0));
    ThreeStepsKeep(job, w, Connect, ServerInit(0), ClientReceive(0));
    var w1 := Do(job, w, Connect);
    InitWorld(job, w1);
    InitReceived(job, Do(job, w1, ServerInit(0)));
  }

  lemma InitWorld(job: Job, w: World)
    requires job.Valid() && Inv(job, w) && Intact(job, w.disk)
    requires w.handler.AwaitInit? && w.client.AwaitResume?
    ensures var w1 := DoServerInit(job, w, 0);
            && w1.client.AwaitResume? && w1.attached && |w1.toClient| == 1
            && (w1.handler.Serving? ==> job.Digest() !in w1.disk.store.blobs)
            && (w1.handler.Serving? || (w1.toClient[0].UploadComplete? && w1.toClient[0].env == job.Envelope()))
  {
    ServerInitKeeps(job, w, 0);
    InitAnswers(job, w.disk);
    hide HandleInit;
  }

  lemma InitReceived(job: Job, w: World)
    requires job.Valid() && Inv(job, w) && w.client.AwaitResume? && |w.toClient| == 1
    requires w.handler.Serving? || (w.toClient[0].UploadComplete? && w.toClient[0].env == job.Envelope())
    ensures var w1 := DoClientReceive(job, w, 0);
            w1.disk == w.disk && (w1.client.Done? || (w1.client.Ready? && w1.handler.Serving?))
  {
    if w.handler.Serving? {
      assert job.PayloadForEncoding(w.toClient[0].encoding) == Some(job.Stream());
    }
  }

  lemma InitAnswers(job: Job, disk: Disk)
    requires job.Valid() && Sound(job.codec, disk.store) && SessionOk(job, disk) && Intact(job, disk)
    requires Staged(disk, job.Digest()) <= job.Stream()
    ensures var h := HandleInit(job.codec, disk, job.InitMessage(), 0);
            && (h.live.Some? ==> job.Digest() !in h.disk.store.blobs)
            && (h.live.Some? || (|h.replies| == 1 && h.replies[0].UploadComplete? && h.replies[0].env == job.Envelope()))
  {
    var d := job.Digest();
    EncodingSelected(job);
    StreamNonEmpty(job);
    if d !in disk.store.blobs {
      PrepareOutcome(job, disk);
      var p := Prepare(disk, d, job.Params());
      if p.result.value.received == |job.Stream()| {
        FinalizeSucceeds(job, p.disk, 0);
      }
    }
  }

  /** One chunk and its acknowledgement. */
  lemma Round(job: Job, w: World) returns (steps: seq<Step>)
    requires job.Valid() && Streaming(job, w)
    ensures var w' := Run(job, w, steps);
            Finishing(job, w') || (Streaming(job, w') && w'.client.offset > w.client.offset)
    ensures forall s :: s in steps ==> Undirected(job, s)
  {
    hide Inv, DoClientSend, DoServerFrame, DoClientReceive;
    steps := [ClientSend, ServerFrame(0), ClientReceive(0)];
    RunThree(job, w, ClientSend, ServerFrame(0), ClientReceive(0));
    ChunkSent(job, w);
    StepKeeps(job, w, ClientSend);
    RoundAnswered(job, DoClientSend(w));
  }

  lemma RoundAnswered(job: Job, w: World)
    requires job.Valid() && Inv(job, w) && w.client.AwaitAck? && w.client.size > 0 && FrameWaiting(w) && job.Digest() !in w.disk.store.blobs
    requires w.toServer[0].fault.None? && w.toClient == []
    ensures var w' := DoClientReceive(job, DoServerFrame(job, w, 0), 0);
            Finishing(job, w') || (Streaming(job, w') && w'.client.offset > w.client.offset)
  {
    hide Inv, DoServerFrame, DoClientReceive;
    var w2 := DoServerFrame(job, w, 0);
    ServerFrameKeeps(job, w, 0);
    FrameAnswered(job, w);
    ClientReceiveKeeps(job, w2, 0);
    AckReceived(job, w2);
    WithinStream(job, w);
  }

  lemma WithinStream(job: Job, w: World)
    requires Inv(job, w) && w.client.AwaitAck?
    ensures w.client.offset + w.client.size <= |job.Stream()|
  {
  }

  lemma ChunkSent(job: Job, w: World)
    requires job.Valid() && Streaming(job, w)
    ensures var w1 := DoClientSend(w);
            && w1.client.AwaitAck? && w1.client.offset == w.client.offset && w1.client.size > 0
            && FrameWaiting(w1) && w1.toServer[0].fault.None? && w1.toServer[0].size == w1.client.size && w1.toClient == []
            && w1.handler == w.handler && w1.attached && w1.disk == w.disk
  {
    StreamNonEmpty(job);
    ChunkFits(w.policy, |job.Stream()| - w.client.offset);
  }

  lemma FrameAnswered(job: Job, w: World)
    requires job.Valid() && Inv(job, w) && w.client.AwaitAck? && FrameWaiting(w) && job.Digest() !in w.disk.store.blobs
    requires w.toServer[0].fault.None? && w.toClient == []
    ensures var w1 := DoServerFrame(job, w, 0);
            && w1.client == w.client && w1.attached
            && |w1.toClient| >= 1 && AckOk(job, w.client, w1.toClient[0])
            && (w.client.offset + w.client.size < |job.Stream()| ==> w1.handler.Serving? && |w1.toClient| == 1 && w1.disk.store == w.disk.store)
            && (w.client.offset + w.client.size == |job.Stream()| ==>
                  |w1.toClient| == 2 && w1.toClient[1].UploadComplete? && w1.toClient[1].env == job.Envelope())
  {
    hide AcceptFrame, Append, HandleFrame, Inv;
    FrameFromClient(job, w);
    FrameReplies(job, w);
  }

  /** What the server is about to read is what the client is waiting for. */
  lemma FrameFromClient(job: Job, w: World)
    requires Inv(job, w) && w.client.AwaitAck? && FrameWaiting(w)
    ensures w.attached && w.handler.live.received == w.client.offset && w.handler.live.nextSequence == w.client.sequence
    ensures w.toServer[0].size == w.client.size && w.client.offset + w.client.size <= |job.Stream()|
  {
    hide StagedOk, SessionOk, CompletionOk;
  }

  lemma FrameReplies(job: Job, w: World)
    requires job.Valid() && Inv(job, w) && FrameWaiting(w) && w.toServer[0].fault.None? && job.Digest() !in w.disk.store.blobs
    ensures var live, size := w.handler.live, w.toServer[0].size;
            var h := HandleFrame(job.codec, w.disk, live, w.toServer[0].sent, 0);
            var ack := UploadAck(job.Envelope(), live.nextSequence, live.received, size, live.received + size);
            && live.received + size <= |job.Stream()|
            && (live.received + size < |job.Stream()| ==> h.live.Some? && h.replies == [ack] && h.disk.store == w.disk.store)
            && (live.received + size == |job.Stream()| ==> exists uploaded :: h.replies == [ack, UploadComplete(job.Envelope(), uploaded)])
  {
    hide AcceptFrame, Append, Finalize, ClientOk, CompletionOk;
    var live := w.handler.live;
    var c := w.toServer[0];
    GoodFrameAppends(job, w);
    GoodFrame(job, live, c);
    var a := Append(w.disk, live.digest, live.params, Appending(w).value);
    if live.received + c.size == |job.Stream()| {
      SliceGrows(job.Stream(), live.received, c.size);
      FinalizeSucceeds(job, a.disk, 0);
      var f := Finalize(job.codec, a.disk, job.Digest(), 0);
      var ack := UploadAck(job.Envelope(), live.nextSequence, live.received, c.size, live.received + c.size);
      assert HandleFrame(job.codec, w.disk, live, c.sent, 0).replies == [ack] + [UploadComplete(job.Envelope(), f.result.value)];
      assert [ack] + [UploadComplete(job.Envelope(), f.result.value)] == [ack, UploadComplete(job.Envelope(), f.result.value)];
    }
  }

  lemma AckReceived(job: Job, w: World)
    requires job.Valid() && Inv(job, w) && w.client.AwaitAck? && w.attached && |w.toClient| >= 1 && AckOk(job, w.client, w.toClient[0])
    ensures DoClientReceive(job, w, 0).client == NextSend(job.Stream(), w.client.offset + w.client.size, w.client.sequence + 1)
    ensures DoClientReceive(job, w, 0).toClient == w.toClient[1..] && DoClientReceive(job, w, 0).handler == w.handler && DoClientReceive(job, w, 0).disk == w.disk
  {
  }

  lemma StreamingOffset(job: Job, w: World)
    requires Streaming(job, w)
    ensures w.client.Ready? && w.client.offset <= |job.Stream()|
  {
  }

  lemma LastReply(job: Job, w: World)
    requires job.Valid() && Finishing(job, w)
    ensures Run(job, w, [ClientReceive(0)]).client.Done? && Undirected(job, ClientReceive(0))
  {
    assert Run(job, w, [ClientReceive(0)]) == Run(job, Do(job, w, ClientReceive(0)), []);
  }

  lemma {:induction false} StreamToEnd(job: Job, w: World) returns (steps: seq<Step>)
    requires job.Valid() && Streaming(job, w)
    ensures Run(job, w, steps).client.Done? && forall s :: s in steps ==> Undirected(job, s)
    decreases |job.Stream()| - w.client.offset
  {
    hide Inv, Streaming, Finishing, Run;
    StreamingOffset(job, w);
    var round := Round(job, w);
    var w' := Run(job, w, round);
    if Finishing(job, w') {
      steps := round + [ClientReceive(0)];
      RunSplit(job, w, round, [ClientReceive(0)]);
      LastReply(job, w');
    } else {
      StreamingOffset(job, w');
      var rest := StreamToEnd(job, w');
      steps := round + rest;
      RunSplit(job, w, round, rest);
    }
  }

  lemma CanComplete(job: Job, w: World) returns (steps: seq<Step>)
    requires job.Valid() && Inv(job, w) && Intact(job, w.disk)
    ensures Run(job, w, steps).client.Done? && forall s :: s in steps ==> Undirected(job, s)
  {
    if w.client.Done? {
      return [];
    }
    var rest := Rest(job, w);
    var w1 := Run(job, w, rest);
    var join := Reconnect(job, w1);
    var w2 := Run(job, w1, join);
    RunSplit(job, w, rest, join);
    if w2.client.Done? {
      return rest + join;
    }
    var stream := StreamToEnd(job, w2);
    RunSplit(job, w, rest + join, stream);
    steps := rest + join + stream;
  }

  // ── From a torn state it cannot ───────────────────────────────────

  ghost predicate Torn(job: Job, w: World) {
    Inv(job, w) && !Intact(job, w.disk) && !w.client.Done?
  }

  lemma NothingCompleted(job: Job, w: World)
    requires Torn(job, w)
    ensures w.toClient != [] ==> !w.toClient[0].UploadComplete?
  {
  }

  lemma TornInit(job: Job, w: World, now: int)
    requires job.Valid() && Torn(job, w)
    ensures !Intact(job, DoServerInit(job, w, now).disk) && !DoServerInit(job, w, now).client.Done?
  {
    hide ClientOk, CompletionOk, Counted, Sound, Finalize, Codec.Lawful;
    EncodingSelected(job);
    PrepareOutcome(job, w.disk);
  }

  lemma TornReceive(job: Job, w: World, latency: nat)
    requires Torn(job, w)
    ensures DoClientReceive(job, w, latency).disk == w.disk && !DoClientReceive(job, w, latency).client.Done?
  {
    hide Intact, Sound, Codec.Lawful, SessionOk;
    NothingCompleted(job, w);
  }

  /** In a torn state no connection is being served, so no frame is handled and nothing is finalised. */
  lemma TornIsIdle(job: Job, w: World)
    requires Torn(job, w)
    ensures !w.handler.Serving? && !StagedComplete(job, w.disk)
  {
    hide ClientOk, CompletionOk, Counted, Sound, Codec.Lawful;
  }

  lemma TornStep(job: Job, w: World, step: Step)
    requires job.Valid() && Torn(job, w) && Undirected(job, step)
    ensures Torn(job, Do(job, w, step))
  {
    hide Inv, Intact, DoServerInit, DoClientReceive, StagedComplete;
    StepKeeps(job, w, step);
    TornIsIdle(job, w);
    match step {
      case ServerInit(now) => TornInit(job, w, now);
      case ClientReceive(latency) => TornReceive(job, w, latency);
      case Outside(op) => TornOutside(job, w, op);
      case _ =>
    }
  }

  lemma TornOutside(job: Job, w: World, op: DiskOp)
    requires job.Valid() && Torn(job, w) && op.digest != job.Digest()
    ensures !Intact(job, DoOutside(job, w, op).disk)
  {
    hide ClientOk, CompletionOk, HandlerOk, Counted, Codec.Lawful;
    OtherDigestUntouched(job.codec, w.disk, op, job.Digest());
  }

  lemma {:induction false} TornForever(job: Job, w: World, steps: seq<Step>)
    requires job.Valid() && Torn(job, w) && forall s :: s in steps ==> Undirected(job, s)
    ensures !Run(job, w, steps).client.Done?
    decreases |steps|
  {
    if steps != [] {
      TornStep(job, w, steps[0]);
      TornForever(job, Do(job, w, steps[0]), steps[1..]);
    }
  }

  ghost predicate Completes(job: Job, w: World, steps: seq<Step>) {
    Run(job, w, steps).client.Done? && forall s :: s in steps ==> Undirected(job, s)
  }

  /**
   In any reachable state, the upload can still be completed without a direct upload of the
   same payload exactly when the session record agrees with the staged length (or the blob
   is stored already): a torn write blocks the digest for good, and nothing else does.
   */
  lemma CompletableExactlyWhenIntact(job: Job, disk: Disk, steps: seq<Step>)
    requires job.Valid() && FreshFor(job, disk)
    ensures var w := Run(job, Start(disk), steps);
            (exists more :: Completes(job, w, more)) <==> Intact(job, w.disk)
  {
    RunKeepsInv(job, Start(disk), steps);
    var w := Run(job, Start(disk), steps);
    if Intact(job, w.disk) {
      var more := CanComplete(job, w);
      assert Completes(job, w, more);
    } else {
      forall more | forall s :: s in more ==> Undirected(job, s) ensures !Completes(job, w, more) {
        TornForever(job, w, more);
      }
    }
  }

  /** A torn write is reachable from every fresh upload: stop the server after one byte of the first chunk. */
  lemma TornWriteBlocks(job: Job, disk: Disk)
    requires job.Valid() && FreshFor(job, disk) && job.Digest() !in disk.store.blobs
    ensures !Intact(job, Run(job, Start(disk), [Connect, ServerInit(0), ClientReceive(0)] + [ClientSend, CrashInAppend(1)]).disk)
  {
    hide Intact, DoClientSend, DoCrashInAppend, Streaming;
    var w0 := Start(disk);
    var w3 := Run(job, w0, [Connect, ServerInit(0), ClientReceive(0)]);
    FirstContact(job, disk);
    SendThenTear(job, w3);
    RunSplit(job, w0, [Connect, ServerInit(0), ClientReceive(0)], [ClientSend, CrashInAppend(1)]);
  }

  lemma SendThenTear(job: Job, w: World)
    requires job.Valid() && Streaming(job, w) && job.Digest() !in w.disk.store.blobs
    ensures !Intact(job, Run(job, w, [ClientSend, CrashInAppend(1)]).disk)
  {
    hide Intact, DoCrashInAppend, Inv;
    var w1 := Do(job, w, ClientSend);
    StepKeeps(job, w, ClientSend);
    ChunkSent(job, w);
    TornAfterOneByte(job, w1);
    assert [ClientSend, CrashInAppend(1)][1..] == [CrashInAppend(1)];
    assert Run(job, w1, [CrashInAppend(1)]) == Run(job, Do(job, w1, CrashInAppend(1)), []);
  }

  lemma FirstContact(job: Job, disk: Disk)
    requires job.Valid() && FreshFor(job, disk) && job.Digest() !in disk.store.blobs
    ensures var w := Run(job, Start(disk), [Connect, ServerInit(0), ClientReceive(0)]);
            Streaming(job, w) && job.Digest() !in w.disk.store.blobs
  {
    hide HandleInit, Inv;
    var w := Start(disk);
    RunKeepsInv(job, w, []);
    ThreeStepsKeep(job, w, Connect, ServerInit(0), ClientReceive(0));
    RunThree(job, w, Connect, ServerInit(0), ClientReceive(0));
    FreshInit(job, disk);
    var w2 := Do(job, Do(job, w, Connect), ServerInit(0));
    assert w2.handler.Serving?;
    InitReceived(job, w2);
  }

  lemma FreshInit(job: Job, disk: Disk)
    requires job.Valid() && FreshFor(job, disk) && job.Digest() !in disk.store.blobs
    ensures var h := HandleInit(job.codec, disk, job.InitMessage(), 0);
            h.live.Some? && |h.replies| == 1 && h.replies[0].UploadResume? && h.disk.store == disk.store
  {
    EncodingSelected(job);
    StreamNonEmpty(job);
    assert ValidDigest(job.Digest());
  }

  lemma TornAfterOneByte(job: Job, w: World)
    requires job.Valid() && Inv(job, w) && FrameWaiting(w) && w.toServer[0].fault.None? && job.Digest() !in w.disk.store.blobs
    ensures !Intact(job, DoCrashInAppend(job, w, 1).disk)
  {
    hide AcceptFrame, Append;
    GoodFrameAppends(job, w);
    PrepareOutcome(job, w.disk);
  }
}
