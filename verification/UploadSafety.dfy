/** Safety of the upload protocol over every run, crashes included. */
module UploadSafety {
  import opened Common
  import opened Codecs
  import opened BlobStores
  import opened ChunkPolicies
  import opened UploadSessions
  import opened StoreIntegrity
  import opened UploadProtocol
  import ChunkFrame

  // ── One server operation at a time ────────────────────────────────

  lemma EncodingSelected(job: Job)
    ensures var i := job.InitMessage();
            SelectUploadEncoding(i.totalSize, i.capabilities, i.offers) == Some((job.Encoding(), |job.Stream()|))
  {
    assert job.Offers() != [] ==> FirstOffer(job.Offers(), false) == FirstOffer([], false);
  }

  lemma StreamNonEmpty(job: Job)
    requires job.Valid()
    ensures 0 < |job.Stream()| < TWO64
  {
  }

  /** What Prepare answers when the record is not ahead of the staged bytes. */
  lemma PrepareOutcome(job: Job, disk: Disk)
    requires SessionOk(job, disk) && |Staged(disk, job.Digest())| <= |job.Stream()|
    ensures var d := job.Digest();
            var n := |Staged(disk, d)|;
            var p := Prepare(disk, d, job.Params());
            var unstarted := Session(job.Params(), 0, 0, 0);
            var s := if d in disk.sessions then disk.sessions[d] else unstarted;
            && (p.result.Ok? <==> s.received == n)
            && (p.result.Ok? ==> p.result.value == s && p.disk == disk.(sessions := disk.sessions[d := s]))
            && (p.result.Err? ==> p.disk == disk && p.result.error == Inconsistent)
  {
  }

  /** A session accepts the frame its sender cuts from the stream at the session's own offset. */
  lemma FrameAccepted(live: Live, stream: Bytes, size: nat)
    requires |stream| == live.params.streamSize < TWO64 && live.nextSequence < TWO64
    requires size <= live.params.chunkSize && live.received + size <= |stream|
    ensures var chunk := stream[live.received..live.received + size];
            AcceptFrame(live, ChunkWire(stream, live.received, live.nextSequence, size).sent)
            == Ok(ChunkFrame.Decoded(ChunkFrame.FromPayload(live.nextSequence, live.received, chunk), chunk))
  {
    hide ChunkFrame.Decode, ChunkFrame.Encode, ChunkFrame.Adler32;
    ChunkFrame.FromPayloadEncodes(live.nextSequence, live.received, stream[live.received..live.received + size]);
  }

  lemma GoodFrame(job: Job, live: Live, c: Wire)
    requires job.Valid() && live.params == job.Params()
    requires ChunkOk(job, c, live.received, live.nextSequence)
    ensures var chunk := job.Stream()[live.received..live.received + c.size];
            AcceptFrame(live, c.sent) == Ok(ChunkFrame.Decoded(ChunkFrame.FromPayload(live.nextSequence, live.received, chunk), chunk))
  {
    hide AcceptFrame, ChunkWire;
    FrameAccepted(live, job.Stream(), c.size);
  }

  lemma DamagedFrame(job: Job, live: Live, c: Wire)
    requires job.Valid() && live.params == job.Params()
    requires ChunkOk(job, c, live.received, live.nextSequence) && c.fault.Some?
    ensures AcceptFrame(live, Delivered(c)).Err?
  {
    GoodFrame(job, live, c);
    OneByteChangeRejected(live, c.sent, c.fault.value.at, c.fault.value.byte);
  }

  ghost predicate Extended(job: Job, disk: Disk, live: Live, size: nat, after: Disk)
    requires live.received + size <= |job.Stream()|
  {
    && after.store == disk.store
    && job.Digest() in after.parts && job.Digest() in after.sessions
    && after.parts[job.Digest()] == Staged(disk, job.Digest()) + job.Stream()[live.received..live.received + size]
    && after.parts[job.Digest()] <= job.Stream()
    && after.sessions[job.Digest()] == Session(job.Params(), live.nextSequence + 1, live.received + size, live.received + size)
    && SessionOk(job, after)
  }

  lemma SliceGrows(s: Bytes, r: nat, n: nat)
    requires r + n <= |s|
    ensures s[..r] + s[r..r + n] == s[..r + n]
  {
  }

  lemma CountGrows(received: nat, sequence: nat, size: nat, total: nat)
    requires Counted(received, sequence, total) && received < total && ChunkSizeOk(received, size, total)
    ensures Counted(received + size, sequence + 1, total)
  {
  }

  lemma AppendGood(job: Job, disk: Disk, live: Live, size: nat)
    requires job.Valid() && SessionOk(job, disk) && LiveOk(job, disk, live) && Staged(disk, job.Digest()) <= job.Stream()
    requires ChunkSizeOk(live.received, size, |job.Stream()|)
    ensures var a := Append(disk, live.digest, live.params, job.Stream()[live.received..live.received + size]);
            a.result.Ok? && a.result.value == a.disk.sessions[job.Digest()] && Extended(job, disk, live, size, a.disk)
  {
    hide Prepare, Counted, Codec.Lawful;
    PrepareOutcome(job, disk);
    StreamNonEmpty(job);
    SliceGrows(job.Stream(), live.received, size);
    CountGrows(live.received, live.nextSequence, size, |job.Stream()|);
    SequenceFits(job, live);
    var a := Append(disk, live.digest, live.params, job.Stream()[live.received..live.received + size]);
    assert a.result == Ok(Session(job.Params(), live.nextSequence + 1, live.received + size, live.received + size));
    assert a.disk.parts[job.Digest()] == job.Stream()[..live.received + size];
  }

  lemma SequenceFits(job: Job, live: Live)
    requires job.Valid() && Counted(live.received, live.nextSequence, |job.Stream()|) && live.received < |job.Stream()|
    ensures SatAdd(live.nextSequence, 1) == live.nextSequence + 1
  {
    StreamNonEmpty(job);
  }

  lemma ConcatAppend(log: seq<Bytes>, chunk: Bytes)
    ensures Concat(log + [chunk]) == Concat(log) + chunk
  {
    assert (log + [chunk])[..|log|] == log;
  }

  /** Finalising, whatever it answers, leaves a state that satisfies the disk part of the invariant. */
  lemma FinishOk(job: Job, disk: Disk, now: int, before: seq<Reply>)
    requires job.Valid() && Sound(job.codec, disk.store) && SessionOk(job, disk) && Staged(disk, job.Digest()) <= job.Stream()
    ensures var h := FinishUpload(job.codec, disk, job.Envelope(), now, before);
            && Sound(job.codec, h.disk.store) && SessionOk(job, h.disk) && Staged(h.disk, job.Digest()) <= job.Stream()
            && h.live.None? && |h.replies| == |before| + 1 && h.replies[..|before|] == before
            && (h.replies[|before|].UploadComplete? || h.replies[|before|].UploadError?)
            && (h.replies[|before|].UploadComplete? ==> job.Digest() in h.disk.store.blobs)
            && (job.Digest() in disk.store.blobs ==> job.Digest() in h.disk.store.blobs)
            && (job.Digest() in h.disk.parts ==> h.disk.parts == disk.parts)
  {
    FinalizeKeeps(job.codec, disk, job.Digest(), now);
  }

  // ── Every step keeps the invariant ────────────────────────────────

  lemma ConnectKeeps(job: Job, w: World)
    requires job.Valid() && Inv(job, w)
    ensures Inv(job, DoConnect(job, w))
  {
  }

  lemma ServerInitKeeps(job: Job, w: World, now: int)
    requires job.Valid() && Inv(job, w)
    ensures Inv(job, DoServerInit(job, w, now))
  {
    if w.handler.AwaitInit? {
      var d := job.Digest();
      var h := HandleInit(job.codec, w.disk, job.InitMessage(), now);
      EncodingSelected(job);
      StreamNonEmpty(job);
      assert ValidDigest(d);
      PrepareOutcome(job, w.disk);
      var p := Prepare(w.disk, d, job.Params());
      if d !in w.disk.store.blobs && p.result.Ok? {
        assert Staged(p.disk, d) == Staged(w.disk, d);
        if p.result.value.received == |job.Stream()| {
          FinishOk(job, p.disk, now, []);
        } else {
          assert LiveOk(job, h.disk, h.live.value);
        }
      }
      InitAbsorbed(job, w, h);
    }
  }

  /** What an init handler may leave behind. */
  ghost predicate InitResult(job: Job, w: World, h: Handled) {
    && Sound(job.codec, h.disk.store) && SessionOk(job, h.disk) && Staged(h.disk, job.Digest()) <= job.Stream()
    && (job.Digest() in h.disk.parts ==> h.disk.parts == w.disk.parts)
    && (job.Digest() in w.disk.store.blobs ==> job.Digest() in h.disk.store.blobs)
    && |h.replies| == 1
    && (h.live.Some? ==> LiveOk(job, h.disk, h.live.value) && ResumeOk(job, h.replies[0])
                         && h.replies[0].nextOffset == h.live.value.received && h.replies[0].nextSequence == h.live.value.nextSequence)
    && (h.live.None? ==> h.replies[0].UploadComplete? || h.replies[0].UploadError?)
    && (h.replies[0].UploadComplete? ==> job.Digest() in h.disk.store.blobs)
  }

  lemma InitAbsorbed(job: Job, w: World, h: Handled)
    requires job.Valid() && Inv(job, w) && w.handler.AwaitInit? && InitResult(job, w, h)
    ensures Inv(job, Absorb(job, w, h, w.log))
  {
    var w' := Absorb(job, w, h, w.log);
    if job.Digest() !in h.disk.parts { assert Concat([]) == []; }
    if w.attached { assert w.toClient + h.replies == h.replies; }
    assert w.toServer[1..] == [];
  }

  ghost predicate FrameResult(job: Job, w: World, h: Handled, size: nat, log: seq<Bytes>) {
    && Sound(job.codec, h.disk.store) && SessionOk(job, h.disk) && Staged(h.disk, job.Digest()) <= job.Stream()
    && (job.Digest() in h.disk.parts ==> Concat(log) == h.disk.parts[job.Digest()])
    && (job.Digest() in w.disk.store.blobs ==> job.Digest() in h.disk.store.blobs)
    && match h.live
       case Some(live) =>
         && LiveOk(job, h.disk, live) && |h.replies| == 1 && w.handler.Serving?
         && live.received == w.handler.live.received + size && live.nextSequence == w.handler.live.nextSequence + 1
         && h.replies[0] == UploadAck(job.Envelope(), w.handler.live.nextSequence, w.handler.live.received, size, w.handler.live.received + size)
       case None =>
         || (|h.replies| == 1 && h.replies[0].UploadError?)
         || (&& |h.replies| == 2 && w.handler.Serving? && w.handler.live.received + size == |job.Stream()|
             && h.replies[0] == UploadAck(job.Envelope(), w.handler.live.nextSequence, w.handler.live.received, size, |job.Stream()|)
             && (h.replies[1].UploadComplete? || h.replies[1].UploadError?)
             && (h.replies[1].UploadComplete? ==> job.Digest() in h.disk.store.blobs))
  }

  lemma FrameAbsorbed(job: Job, w: World, h: Handled, log: seq<Bytes>)
    requires job.Valid() && Inv(job, w) && FrameWaiting(w)
    requires FrameResult(job, w, h, w.toServer[0].size, log)
    ensures Inv(job, Absorb(job, w, h, log))
  {
    hide StagedOk, HandlerOk, CompletionOk, ClientOk, Codec.Lawful, Counted, InBounds, Sound;
    AbsorbedByServer(job, w, h, log);
    AbsorbedByClient(job, w, h, log);
  }

  lemma AbsorbedByServer(job: Job, w: World, h: Handled, log: seq<Bytes>)
    requires Inv(job, w) && FrameWaiting(w) && FrameResult(job, w, h, w.toServer[0].size, log)
    ensures var w' := Absorb(job, w, h, log); StagedOk(job, w') && SessionOk(job, w'.disk) && HandlerOk(job, w')
  {
    hide Sound, Codec.Lawful, Counted, ClientOk, CompletionOk;
    if job.Digest() !in h.disk.parts { assert Concat([]) == []; }
    assert w.toServer[1..] == [];
  }

  /** An attached client whose frame waits at the server awaits its acknowledgement. */
  lemma WaitingClient(job: Job, w: World)
    requires Inv(job, w) && FrameWaiting(w)
    ensures w.attached == Connected(w.client) && (!w.attached ==> w.toClient == [])
    ensures w.attached ==> AwaitAckOk(job, w) && w.toClient == []
    ensures w.attached ==> w.handler.live.received == w.client.offset && w.handler.live.nextSequence == w.client.sequence && w.toServer[0].size == w.client.size
  {
    hide StagedOk, SessionOk, CompletionOk, ChunkOk, LiveOk, ChunkSizeOk;
  }

  lemma AbsorbedByClient(job: Job, w: World, h: Handled, log: seq<Bytes>)
    requires job.Valid() && Inv(job, w) && FrameWaiting(w) && FrameResult(job, w, h, w.toServer[0].size, log)
    ensures var w' := Absorb(job, w, h, log); CompletionOk(job, w') && ClientOk(job, w')
  {
    hide Inv, Sound, Codec.Lawful, SessionOk, LiveOk, Concat;
    WaitingClient(job, w);
    AbsorbedCompletion(job, w, h, log);
    if w.attached {
      assert w.toClient + h.replies == h.replies;
      OneFrameAtATime(job, w);
    }
  }

  lemma OneFrameAtATime(job: Job, w: World)
    requires Inv(job, w) && FrameWaiting(w)
    ensures w.toServer[1..] == []
  {
    hide StagedOk, SessionOk, CompletionOk, ClientOk;
  }

  lemma AbsorbedCompletion(job: Job, w: World, h: Handled, log: seq<Bytes>)
    requires Inv(job, w) && FrameWaiting(w) && FrameResult(job, w, h, w.toServer[0].size, log)
    ensures CompletionOk(job, Absorb(job, w, h, log))
  {
    hide ClientOk, HandlerOk, StagedOk, SessionOk, Sound, LiveOk;
  }

  /** An undamaged frame in flight is accepted and appended. */
  lemma GoodFrameAppends(job: Job, w: World)
    requires job.Valid() && Inv(job, w) && FrameWaiting(w) && w.toServer[0].fault.None?
    ensures var live := w.handler.live;
            var size := w.toServer[0].size;
            && LiveOk(job, w.disk, live) && ChunkSizeOk(live.received, size, |job.Stream()|)
            && Appending(w) == Some(job.Stream()[live.received..live.received + size])
            && Extended(job, w.disk, live, size, Append(w.disk, live.digest, live.params, Appending(w).value).disk)
            && Append(w.disk, live.digest, live.params, Appending(w).value).result
               == Ok(Append(w.disk, live.digest, live.params, Appending(w).value).disk.sessions[job.Digest()])
  {
    hide AcceptFrame, Append;
    var c := w.toServer[0];
    GoodFrame(job, w.handler.live, c);
    AppendGood(job, w.disk, w.handler.live, c.size);
    assert Delivered(c) == c.sent;
  }

  lemma GoodFrameHandled(job: Job, w: World, now: int)
    requires job.Valid() && Inv(job, w) && FrameWaiting(w) && w.toServer[0].fault.None?
    ensures Appending(w).Some?
    ensures FrameResult(job, w, HandleFrame(job.codec, w.disk, w.handler.live, w.toServer[0].sent, now),
                        w.toServer[0].size, w.log + [Appending(w).value])
  {
    hide AcceptFrame, Append, FinishUpload, FrameResult, Inv, Appending;
    StagedAndServed(job, w);
    GoodFrameAppends(job, w);
    GoodFrame(job, w.handler.live, w.toServer[0]);
    var live := w.handler.live;
    var a := Append(w.disk, live.digest, live.params, Appending(w).value);
    ExtendedHandled(job, w, a, now);
  }

  lemma StagedAndServed(job: Job, w: World)
    requires Inv(job, w) && FrameWaiting(w)
    ensures StagedOk(job, w) && ChunkOk(job, w.toServer[0], w.handler.live.received, w.handler.live.nextSequence) && LiveOk(job, w.disk, w.handler.live)
  {
    hide ClientOk, CompletionOk, SessionOk;
  }

  lemma ExtendedHandled(job: Job, w: World, a: Outcome<Session>, now: int)
    requires job.Valid() && StagedOk(job, w) && FrameWaiting(w)
    requires LiveOk(job, w.disk, w.handler.live) && ChunkSizeOk(w.handler.live.received, w.toServer[0].size, |job.Stream()|)
    requires Extended(job, w.disk, w.handler.live, w.toServer[0].size, a.disk)
    requires a.result == Ok(a.disk.sessions[job.Digest()])
    ensures var live := w.handler.live;
            var size := w.toServer[0].size;
            var ack := UploadAck(job.Envelope(), live.nextSequence, live.received, size, live.received + size);
            var log := w.log + [job.Stream()[live.received..live.received + size]];
            && (live.received + size == |job.Stream()| ==>
                  FrameResult(job, w, FinishUpload(job.codec, a.disk, job.Envelope(), now, [ack]), size, log))
            && (live.received + size < |job.Stream()| ==>
                  FrameResult(job, w, Handled(a.disk, Some(live.(nextSequence := live.nextSequence + 1, received := live.received + size)), [ack]), size, log))
  {
    hide FinishUpload, SessionOk, Sound, Codec.Lawful, FrameResult;
    var live := w.handler.live;
    var size := w.toServer[0].size;
    var ack := UploadAck(job.Envelope(), live.nextSequence, live.received, size, live.received + size);
    ConcatAppend(w.log, job.Stream()[live.received..live.received + size]);
    if live.received + size == |job.Stream()| {
      LastFrameHandled(job, w, a.disk, ack, now);
    } else {
      NextFrameAwaited(job, w, a.disk, ack);
    }
  }

  lemma LastFrameHandled(job: Job, w: World, disk: Disk, ack: Reply, now: int)
    requires job.Valid() && StagedOk(job, w) && FrameWaiting(w) && w.handler.live.received + w.toServer[0].size == |job.Stream()|
    requires Extended(job, w.disk, w.handler.live, w.toServer[0].size, disk)
    requires ack == UploadAck(job.Envelope(), w.handler.live.nextSequence, w.handler.live.received, w.toServer[0].size, |job.Stream()|)
    requires Concat(w.log + [job.Stream()[w.handler.live.received..]]) == disk.parts[job.Digest()]
    ensures FrameResult(job, w, FinishUpload(job.codec, disk, job.Envelope(), now, [ack]), w.toServer[0].size,
                        w.log + [job.Stream()[w.handler.live.received..w.handler.live.received + w.toServer[0].size]])
  {
    hide FinishUpload, Codec.Lawful, Counted;
    FinishOk(job, disk, now, [ack]);
    var h := FinishUpload(job.codec, disk, job.Envelope(), now, [ack]);
    assert h.replies[0] == h.replies[..1][0];
    assert job.Stream()[w.handler.live.received..] == job.Stream()[w.handler.live.received..w.handler.live.received + w.toServer[0].size];
  }

  lemma NextFrameAwaited(job: Job, w: World, disk: Disk, ack: Reply)
    requires job.Valid() && StagedOk(job, w) && FrameWaiting(w) && LiveOk(job, w.disk, w.handler.live)
    requires w.handler.live.received + w.toServer[0].size < |job.Stream()|
    requires Extended(job, w.disk, w.handler.live, w.toServer[0].size, disk)
    requires var live := w.handler.live;
             ack == UploadAck(job.Envelope(), live.nextSequence, live.received, w.toServer[0].size, live.received + w.toServer[0].size)
    requires Concat(w.log + [job.Stream()[w.handler.live.received..w.handler.live.received + w.toServer[0].size]]) == disk.parts[job.Digest()]
    ensures var live := w.handler.live;
            var size := w.toServer[0].size;
            FrameResult(job, w, Handled(disk, Some(live.(nextSequence := live.nextSequence + 1, received := live.received + size)), [ack]), size,
                        w.log + [job.Stream()[live.received..live.received + size]])
  {
    hide Codec.Lawful, Counted, Concat;
  }

  lemma CountIsApart(job: Job, w: World, appended: nat)
    requires Inv(job, w)
    ensures Inv(job, w.(appended := appended))
  {
  }

  lemma ServerFrameKeeps(job: Job, w: World, now: int)
    requires job.Valid() && Inv(job, w)
    ensures Inv(job, DoServerFrame(job, w, now))
  {
    if FrameWaiting(w) {
      var live := w.handler.live;
      var c := w.toServer[0];
      var h := HandleFrame(job.codec, w.disk, live, Delivered(c), now);
      if c.fault.Some? {
        DamagedFrame(job, live, c);
        FrameAbsorbed(job, w, h, w.log);
      } else {
        GoodFrameHandled(job, w, now);
        FrameAbsorbed(job, w, h, w.log + [Appending(w).value]);
        CountIsApart(job, Absorb(job, w, h, w.log + [Appending(w).value]), w.appended + 1);
      }
    }
  }

  lemma ReceiveWhileAwaitingResume(job: Job, w: World, latencyMillis: nat)
    requires job.Valid() && Inv(job, w) && w.client.AwaitResume? && w.toClient != []
    ensures Inv(job, DoClientReceive(job, w, latencyMillis))
  {
    StreamNonEmpty(job);
    assert w.toClient[1..] == [];
    var r := w.toClient[0];
    if ResumeOk(job, r) {
      assert job.PayloadForEncoding(r.encoding) == Some(job.Stream());
    }
  }

  lemma ReceiveWhileAwaitingAck(job: Job, w: World, latencyMillis: nat)
    requires job.Valid() && Inv(job, w) && w.client.AwaitAck? && w.toClient != []
    ensures Inv(job, DoClientReceive(job, w, latencyMillis))
  {
    hide SessionOk, Sound, Codec.Lawful;
    StreamNonEmpty(job);
    var w' := DoClientReceive(job, w, latencyMillis);
    if |w.toClient| == 2 { assert w.toClient[1..] == [w.toClient[1]]; } else { assert w.toClient[1..] == []; }
    if AckOk(job, w.client, w.toClient[0]) {
      assert w'.client == NextSend(job.Stream(), w.client.offset + w.client.size, w.client.sequence + 1);
      assert ClientOk(job, w');
      assert CompletionOk(job, w');
    }
  }

  lemma ReceiveWhileAwaitingComplete(job: Job, w: World, latencyMillis: nat)
    requires job.Valid() && Inv(job, w) && w.client.AwaitComplete? && w.toClient != []
    ensures Inv(job, DoClientReceive(job, w, latencyMillis))
  {
  }

  lemma ClientReceiveKeeps(job: Job, w: World, latencyMillis: nat)
    requires job.Valid() && Inv(job, w)
    ensures Inv(job, DoClientReceive(job, w, latencyMillis))
  {
    if w.attached && w.toClient != [] {
      if w.client.AwaitResume? {
        ReceiveWhileAwaitingResume(job, w, latencyMillis);
      } else if w.client.AwaitAck? {
        ReceiveWhileAwaitingAck(job, w, latencyMillis);
      } else if w.client.AwaitComplete? {
        ReceiveWhileAwaitingComplete(job, w, latencyMillis);
      }
    }
  }

  lemma ClientSendKeeps(job: Job, w: World)
    requires job.Valid() && Inv(job, w)
    ensures Inv(job, DoClientSend(w))
  {
    StreamNonEmpty(job);
    if w.client.Ready? {
      ChunkFits(w.policy, |job.Stream()| - w.client.offset);
    }
  }

  lemma CorruptKeeps(job: Job, w: World, fault: Fault)
    requires job.Valid() && Inv(job, w)
    ensures Inv(job, DoCorrupt(w, fault))
  {
  }

  /** Losing the handler, whatever became of the staged bytes, keeps the invariant. */
  lemma HandlerGoneKeeps(job: Job, w: World, disk: Disk, log: seq<Bytes>)
    requires job.Valid() && Inv(job, w)
    requires Sound(job.codec, disk.store) && SessionOk(job, disk) && Staged(disk, job.Digest()) <= job.Stream()
    requires Concat(log) == Staged(disk, job.Digest())
    requires job.Digest() in w.disk.store.blobs ==> job.Digest() in disk.store.blobs
    ensures forall n: nat :: Inv(job, HandlerGone(w.(disk := disk, log := log, appended := n)))
  {
  }

  lemma TornWrite(job: Job, disk: Disk, live: Live, size: nat, written: nat)
    requires job.Valid() && SessionOk(job, disk) && LiveOk(job, disk, live) && Staged(disk, job.Digest()) <= job.Stream()
    requires written <= size && live.received + size <= |job.Stream()|
    ensures var p := Prepare(disk, live.digest, live.params).disk;
            var torn := job.Stream()[live.received..live.received + size][..written];
            var after := p.(parts := p.parts[live.digest := Staged(disk, live.digest) + torn]);
            && after.store == disk.store && SessionOk(job, after) && Staged(after, job.Digest()) <= job.Stream()
            && Staged(after, job.Digest()) == Staged(disk, job.Digest()) + torn
  {
    PrepareOutcome(job, disk);
    assert job.Stream()[live.received..live.received + size][..written] == job.Stream()[live.received..live.received + written];
    SliceGrows(job.Stream(), live.received, written);
  }

  /** A frame that is being appended was not damaged. */
  lemma AppendingIsUndamaged(job: Job, w: World)
    requires job.Valid() && Inv(job, w) && FrameWaiting(w) && Appending(w).Some?
    ensures w.toServer[0].fault.None?
  {
    if w.toServer[0].fault.Some? {
      DamagedFrame(job, w.handler.live, w.toServer[0]);
    }
  }

  lemma CrashInAppendKeeps(job: Job, w: World, written: nat)
    requires job.Valid() && Inv(job, w)
    ensures Inv(job, DoCrashInAppend(job, w, written))
  {
    hide AcceptFrame, Append, Prepare;
    if FrameWaiting(w) && Appending(w).Some? && written <= |Appending(w).value| {
      AppendingIsUndamaged(job, w);
      GoodFrameAppends(job, w);
      var live := w.handler.live;
      TornWrite(job, w.disk, live, w.toServer[0].size, written);
      var torn := Appending(w).value[..written];
      ConcatAppend(w.log, torn);
      var p := Prepare(w.disk, live.digest, live.params).disk;
      HandlerGoneKeeps(job, w, p.(parts := p.parts[live.digest := Staged(w.disk, live.digest) + torn]), w.log + [torn]);
    }
  }

  lemma PartialFinalizeOk(job: Job, disk: Disk, stage: nat, now: int)
    requires job.Valid() && Sound(job.codec, disk.store) && SessionOk(job, disk)
    ensures var r := PartialFinalize(job.codec, disk, job.Digest(), stage, now);
            && Sound(job.codec, r.store) && SessionOk(job, r) && r.parts == disk.parts
            && (job.Digest() in disk.store.blobs ==> job.Digest() in r.store.blobs)
  {
    hide Sound, Codec.Lawful, StoreBlobForDigest, Counted;
    var d := job.Digest();
    FinalizeKeeps(job.codec, disk, d, now);
    var f := Finalize(job.codec, disk, d, now);
    if f.result.Ok? {
      StoreKeeps(job.codec, disk.store, d, DecodeStream(job.codec, disk.sessions[d].params.encoding, disk.parts[d]).value, now);
    }
    var r := PartialFinalize(job.codec, disk, d, stage, now);
    assert r.parts == disk.parts;
    assert d in r.sessions ==> d in disk.sessions && r.sessions[d] == disk.sessions[d];
    assert Sound(job.codec, r.store);
  }

  lemma CrashInFinalizeKeeps(job: Job, w: World, stage: nat, now: int)
    requires job.Valid() && Inv(job, w)
    ensures Inv(job, DoCrashInFinalize(job, w, stage, now))
  {
    hide AcceptFrame, Append, PartialFinalize;
    if FrameWaiting(w) && Appending(w).Some? {
      AppendingIsUndamaged(job, w);
      GoodFrameAppends(job, w);
      var live := w.handler.live;
      var a := Append(w.disk, live.digest, live.params, Appending(w).value).disk;
      ConcatAppend(w.log, Appending(w).value);
      PartialFinalizeOk(job, a, stage, now);
      HandlerGoneKeeps(job, w, PartialFinalize(job.codec, a, job.Digest(), stage, now), w.log + [Appending(w).value]);
    } else if w.handler.AwaitInit? && StagedComplete(job, w.disk) {
      PartialFinalizeOk(job, w.disk, stage, now);
      HandlerGoneKeeps(job, w, PartialFinalize(job.codec, w.disk, job.Digest(), stage, now), w.log);
    }
  }

  lemma OutsideKeeps(job: Job, w: World, op: DiskOp)
    requires job.Valid() && Inv(job, w)
    ensures Inv(job, DoOutside(job, w, op))
  {
    hide Sound, Codec.Lawful, StoreBlobForDigest, TouchBlob, Counted;
    OperationKeeps(job.codec, w.disk, op);
    if op.digest != job.Digest() {
      OtherDigestUntouched(job.codec, w.disk, op, job.Digest());
    } else if op.StoreOp? {
      StoreKeeps(job.codec, w.disk.store, op.digest, op.bytes, op.now);
    } else if op.TouchOp? {
      TouchKeeps(job.codec, w.disk.store, op.digest, op.at, op.now);
    }
  }

  lemma ClientStops(job: Job, w: World)
    requires Inv(job, w)
    ensures Inv(job, DoClientDrop(w)) && Inv(job, DoClientRetry(w))
  {
    hide Sound, SessionOk, Codec.Lawful;
  }

  lemma ServerStops(job: Job, w: World)
    requires job.Valid() && Inv(job, w)
    ensures Inv(job, HandlerGone(w))
  {
    hide ClientOk, HandlerOk;
    HandlerGoneKeeps(job, w, w.disk, w.log);
    assert w.(disk := w.disk, log := w.log, appended := w.appended) == w;
  }

  lemma StepKeeps(job: Job, w: World, step: Step)
    requires job.Valid() && Inv(job, w)
    ensures Inv(job, Do(job, w, step))
  {
    hide DoServerInit, DoServerFrame, DoClientReceive, DoClientSend, DoCorrupt, DoCrashInAppend, DoCrashInFinalize, DoOutside, Inv, Codec.Lawful;
    match step
    case Connect => ConnectKeeps(job, w);
    case ServerInit(now) => ServerInitKeeps(job, w, now);
    case ServerFrame(now) => ServerFrameKeeps(job, w, now);
    case ClientReceive(latency) => ClientReceiveKeeps(job, w, latency);
    case ClientSend => ClientSendKeeps(job, w);
    case ClientDrop => ClientStops(job, w);
    case ServerDrop => ServerStops(job, w);
    case ClientRetry => ClientStops(job, w);
    case Corrupt(fault) => CorruptKeeps(job, w, fault);
    case Crash => ServerStops(job, w);
    case CrashInAppend(written) => CrashInAppendKeeps(job, w, written);
    case CrashInFinalize(stage, now) => CrashInFinalizeKeeps(job, w, stage, now);
    case Outside(op) => OutsideKeeps(job, w, op);
  }

  lemma {:induction false} RunKeepsInv(job: Job, w: World, steps: seq<Step>)
    requires job.Valid() && Inv(job, w)
    ensures Inv(job, Run(job, w, steps))
    decreases |steps|
  {
    if steps != [] {
      StepKeeps(job, w, steps[0]);
      RunKeepsInv(job, Do(job, w, steps[0]), steps[1..]);
    }
  }

  // ── What follows for every run ────────────────────────────────────

  /** A server that has nothing staged for the payload's digest. */
  ghost predicate FreshFor(job: Job, disk: Disk) {
    Sound(job.codec, disk.store) && job.Digest() !in disk.sessions && job.Digest() !in disk.parts
  }

  /**
   In every run the staged file is a prefix of the stream, made of the writes in order with
   no byte written twice; while a connection is served its length is the received count and
   the next offset; and a client that sees completion finds its payload under its digest.
   */
  lemma UploadSafetyTheorem(job: Job, disk: Disk, steps: seq<Step>)
    requires job.Valid() && FreshFor(job, disk)
    ensures var w := Run(job, Start(disk), steps);
            var d := job.Digest();
            && Staged(w.disk, d) <= job.Stream()
            && Concat(w.log) == Staged(w.disk, d)
            && (w.handler.Serving? ==>
                  && d in w.disk.sessions
                  && w.disk.sessions[d].received == w.disk.sessions[d].nextOffset == w.handler.live.received == |Staged(w.disk, d)|)
            && (w.client.Done? ==> d in w.disk.store.blobs && job.codec.sha256(w.disk.store.blobs[d]) == d)
            && (w.client.Done? && job.codec.Apart(job.payload, w.disk.store.blobs[d]) ==> w.disk.store.blobs[d] == job.payload)
  {
    RunKeepsInv(job, Start(disk), steps);
    var w := Run(job, Start(disk), steps);
    if w.client.Done? { assert BlobSound(job.codec, w.disk.store, job.Digest()); }
  }

  /**
   After any run, crashes at any point included, an init is either refused or answered with
   exactly the staged length, and the staged bytes are still a prefix of the stream.
   */
  lemma CrashSafetyTheorem(job: Job, disk: Disk, steps: seq<Step>, now: int)
    requires job.Valid() && FreshFor(job, disk)
    ensures var w := Run(job, Start(disk), steps);
            var h := HandleInit(job.codec, w.disk, job.InitMessage(), now);
            && Staged(w.disk, job.Digest()) <= job.Stream()
            && |h.replies| == 1
            && (h.replies[0].UploadResume? ==>
                  h.replies[0].nextOffset == |Staged(w.disk, job.Digest())| && h.disk.parts == w.disk.parts)
            && (h.replies[0].UploadResume? || h.replies[0].UploadComplete? || h.replies[0].UploadError?)
  {
    hide Run;
    RunKeepsInv(job, Start(disk), steps);
    InitAfter(job, Run(job, Start(disk), steps), now);
  }

  lemma InitAfter(job: Job, w: World, now: int)
    requires job.Valid() && Inv(job, w)
    ensures var h := HandleInit(job.codec, w.disk, job.InitMessage(), now);
            && |h.replies| == 1
            && (h.replies[0].UploadResume? ==> h.replies[0].nextOffset == |Staged(w.disk, job.Digest())| && h.disk.parts == w.disk.parts)
            && (h.replies[0].UploadResume? || h.replies[0].UploadComplete? || h.replies[0].UploadError?)
  {
    hide ClientOk, CompletionOk, HandlerOk, Counted, Sound, Finalize;
    EncodingSelected(job);
    PrepareOutcome(job, w.disk);
  }
}
