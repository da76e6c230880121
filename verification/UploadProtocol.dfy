/**
 The two-party upload protocol as a step system. One client uploads one payload over a
 connection that may drop, reconnect or damage a byte, to a server that may stop at any
 point; other handlers work on other digests meanwhile, and the payload may also arrive
 by a direct upload. At most one connection for the digest is live at a time: a client
 connects only after the previous handler has ended.
 */
module UploadProtocol {
  import opened Common
  import opened Codecs
  import opened BlobStores
  import opened ChunkPolicies
  import opened UploadSessions
  import opened StoreIntegrity
  import ChunkFrame

  // ── The upload being made ─────────────────────────────────────────

  datatype Job = Job(codec: Codec, payload: Bytes, workorder: int) {
    function Digest(): string {
      codec.sha256(payload)
    }

    function Zstd(): Option<Bytes> {
      codec.EncodeIfWorthwhile(payload)
    }

    function Offers(): seq<Offer> {
      if Zstd().Some? then [Offer(ZSTD, |Zstd().value|)] else []
    }

    function Encoding(): Option<string> {
      if Zstd().Some? then Some(ZSTD) else None
    }

    /** The bytes that travel. */
    function Stream(): Bytes {
      if Zstd().Some? then Zstd().value else payload
    }

    function Params(): Params {
      UploadSessions.Params(|payload|, |Stream()|, DEFAULT_CHUNK_SIZE, Encoding())
    }

    function InitMessage(): Init {
      Init(PROTOCOL_VERSION, workorder, Digest(), |payload|, DEFAULT_CHUNK_SIZE,
           if Zstd().Some? then [ZSTD] else [], Offers())
    }

    function Envelope(): Envelope {
      UploadSessions.Envelope(PROTOCOL_VERSION, workorder, Digest())
    }

    function PayloadForEncoding(encoding: Option<string>): Option<Bytes> {
      match encoding
      case None => Some(payload)
      case Some(name) => if name == ZSTD then Zstd() else None
    }

    ghost predicate Valid() {
      codec.Lawful() && 0 < |payload| < TWO64
    }
  }

  datatype Client =
    | Idle
    | AwaitResume
    | Ready(stream: Bytes, offset: nat, sequence: nat)
    | AwaitAck(stream: Bytes, offset: nat, sequence: nat, size: nat)
    | AwaitComplete
    | Done(uploaded: bool)
    | Failed

  datatype Fault = Fault(at: nat, byte: Byte)

  datatype Wire =
    | InitFrame(init: Init)
    | Chunk(sent: Bytes, size: nat, fault: Option<Fault>)

  function Delivered(w: Wire): Bytes
    requires w.Chunk?
  {
    if w.fault.Some? && w.fault.value.at < |w.sent| then w.sent[w.fault.value.at := w.fault.value.byte] else w.sent
  }

  datatype Handler = Closed | AwaitInit | Serving(live: Live)

  /** `log` records every write to the staged file since it was created, `appended` counts the chunks appended so far. */
  datatype World = World(
    disk: Disk,
    client: Client,
    policy: Policy,
    attached: bool,
    toServer: seq<Wire>,
    toClient: seq<Reply>,
    handler: Handler,
    log: seq<Bytes>,
    appended: nat
  )

  datatype Step =
    | Connect
    | ServerInit(now: int)
    | ServerFrame(now: int)
    | ClientReceive(latencyMillis: nat)
    | ClientSend
    | ClientDrop
    | ServerDrop
    | ClientRetry
    | Corrupt(fault: Fault)
    | Crash
    | CrashInAppend(written: nat)
    | CrashInFinalize(stage: nat, now: int)
    | Outside(op: DiskOp)

  function Start(disk: Disk): World {
    World(disk, Idle, NewPolicy(DEFAULT_CHUNK_SIZE), false, [], [], Closed, [], 0)
  }

  // ── Steps ─────────────────────────────────────────────────────────

  function DoConnect(job: Job, w: World): World {
    if w.client.Idle? && w.handler.Closed? then
      w.(client := AwaitResume, attached := true, toServer := [InitFrame(job.InitMessage())], toClient := [], handler := AwaitInit)
    else w
  }

  /** Apply what a handler did; replies are lost when the client is gone. */
  function Absorb(job: Job, w: World, h: Handled, log: seq<Bytes>): World
    requires w.toServer != []
  {
    w.(disk := h.disk,
       toServer := if h.live.Some? then w.toServer[1..] else [],
       toClient := if w.attached then w.toClient + h.replies else [],
       handler := if h.live.Some? then Serving(h.live.value) else Closed,
       log := if job.Digest() in h.disk.parts then log else [])
  }

  function DoServerInit(job: Job, w: World, now: int): World {
    if w.handler.AwaitInit? && w.toServer != [] && w.toServer[0].InitFrame? then
      Absorb(job, w, HandleInit(job.codec, w.disk, w.toServer[0].init, now), w.log)
    else w
  }

  predicate FrameWaiting(w: World) {
    w.handler.Serving? && w.toServer != [] && w.toServer[0].Chunk?
  }

  /** The chunk the handler is about to append, if it passes every check. */
  function Appending(w: World): Option<Bytes>
    requires FrameWaiting(w)
  {
    match AcceptFrame(w.handler.live, Delivered(w.toServer[0]))
    case Err(_) => None
    case Ok(d) =>
      if Append(w.disk, w.handler.live.digest, w.handler.live.params, d.payload).result.Ok? then Some(d.payload) else None
  }

  function DoServerFrame(job: Job, w: World, now: int): World {
    if FrameWaiting(w) then
      var log := if Appending(w).Some? then w.log + [Appending(w).value] else w.log;
      Absorb(job, w, HandleFrame(job.codec, w.disk, w.handler.live, Delivered(w.toServer[0]), now), log)
      .(appended := w.appended + if Appending(w).Some? then 1 else 0)
    else w
  }

  /** The client gives up on this connection for good. */
  function Abandon(w: World, client: Client): World {
    w.(client := client, attached := false, toClient := [])
  }

  function DoClientReceive(job: Job, w: World, latencyMillis: nat): World {
    if !w.attached || w.toClient == [] then w
    else
      var r := w.toClient[0];
      var rest := w.toClient[1..];
      if w.client.AwaitResume? then
        if r.UploadResume? && r.env == job.Envelope() && job.PayloadForEncoding(r.encoding).Some?
           && r.expectedSize == |job.PayloadForEncoding(r.encoding).value| then
          var stream := job.PayloadForEncoding(r.encoding).value;
          w.(client := NextSend(stream, r.nextOffset, r.nextSequence), toClient := rest)
        else if r.UploadComplete? && r.env == job.Envelope() then Abandon(w, Done(r.uploaded))
        else Abandon(w, Failed)
      else if w.client.AwaitAck? then
        var c := w.client;
        if r.UploadAck? && r.env == job.Envelope() && r.sequence == c.sequence && r.offset == c.offset && r.size == c.size then
          w.(client := NextSend(c.stream, r.received, c.sequence + 1), policy := OnAck(w.policy, latencyMillis), toClient := rest)
        else Abandon(w, Failed)
      else if w.client.AwaitComplete? then
        if r.UploadComplete? && r.env == job.Envelope() then Abandon(w, Done(r.uploaded))
        else Abandon(w, Failed)
      else w
  }

  function NextSend(stream: Bytes, offset: nat, sequence: nat): Client {
    if offset < |stream| then Ready(stream, offset, sequence) else AwaitComplete
  }

  function ChunkWire(stream: Bytes, offset: nat, sequence: nat, size: nat): Wire
    requires offset + size <= |stream| && offset < TWO64 && sequence < TWO64 && size < TWO64
  {
    var chunk := stream[offset..offset + size];
    ChunkFrame.FromPayloadEncodes(sequence, offset, chunk);
    Chunk(ChunkFrame.Encode(ChunkFrame.FromPayload(sequence, offset, chunk), chunk).value, size, None)
  }

  function DoClientSend(w: World): World {
    if w.client.Ready? && w.client.offset < |w.client.stream| && w.client.sequence < TWO64 && |w.client.stream| < TWO64 then
      var c := w.client;
      var size := ChunkSizeForRemaining(w.policy, |c.stream| - c.offset);
      w.(client := AwaitAck(c.stream, c.offset, c.sequence, size),
         toServer := if w.handler.Closed? then [] else w.toServer + [ChunkWire(c.stream, c.offset, c.sequence, size)])
    else w
  }

  predicate Connected(c: Client) {
    c.AwaitResume? || c.Ready? || c.AwaitAck? || c.AwaitComplete?
  }

  function DoClientDrop(w: World): World {
    if Connected(w.client) then Abandon(w, Idle).(policy := OnReconnect(w.policy)) else w
  }

  function HandlerGone(w: World): World {
    w.(handler := Closed, toServer := [])
  }

  /** After an error the caller may start the whole upload again with a fresh policy. */
  function DoClientRetry(w: World): World {
    if w.client.Failed? || w.client.Idle? then w.(client := Idle, policy := NewPolicy(DEFAULT_CHUNK_SIZE)) else w
  }

  function DoCorrupt(w: World, fault: Fault): World {
    if w.toServer != [] && w.toServer[0].Chunk? && fault.at < |w.toServer[0].sent|
       && fault.byte != w.toServer[0].sent[fault.at] then
      w.(toServer := w.toServer[0 := w.toServer[0].(fault := Some(fault))])
    else w
  }

  /** The server stops while writing a chunk: part of it is on disk, the record is not yet rewritten. */
  function DoCrashInAppend(job: Job, w: World, written: nat): World {
    if FrameWaiting(w) && Appending(w).Some? && written <= |Appending(w).value| then
      var live := w.handler.live;
      var torn := Appending(w).value[..written];
      var disk := Prepare(w.disk, live.digest, live.params).disk;
      HandlerGone(w.(disk := disk.(parts := disk.parts[live.digest := Staged(w.disk, live.digest) + torn]),
                     log := w.log + [torn]))
    else w
  }

  /** How far finalisation got: nothing, blob stored, variant stored, session record removed. */
  function PartialFinalize(codec: Codec, disk: Disk, digest: string, stage: nat, now: int): Disk {
    var f := Finalize(codec, disk, digest, now);
    if f.result.Err? || stage == 0 then disk
    else if stage == 1 then
      var s := disk.sessions[digest];
      disk.(store := StoreBlobForDigest(codec, disk.store, digest,
                       DecodeStream(codec, s.params.encoding, disk.parts[digest]).value, now).store)
    else if stage == 2 then disk.(store := f.disk.store)
    else disk.(store := f.disk.store, sessions := disk.sessions - {digest})
  }

  /** An init that finds everything staged goes straight to finalisation. */
  predicate StagedComplete(job: Job, disk: Disk) {
    && job.Digest() !in disk.store.blobs
    && job.Digest() in disk.sessions
    && Prepare(disk, job.Digest(), job.Params()).result.Ok?
    && Prepare(disk, job.Digest(), job.Params()).result.value.received == |job.Stream()|
  }

  function DoCrashInFinalize(job: Job, w: World, stage: nat, now: int): World {
    if FrameWaiting(w) && Appending(w).Some? then
      var live := w.handler.live;
      var disk := Append(w.disk, live.digest, live.params, Appending(w).value).disk;
      HandlerGone(w.(disk := PartialFinalize(job.codec, disk, live.digest, stage, now), log := w.log + [Appending(w).value],
                     appended := w.appended + 1))
    else if w.handler.AwaitInit? && StagedComplete(job, w.disk) then
      HandlerGone(w.(disk := PartialFinalize(job.codec, w.disk, job.Digest(), stage, now)))
    else w
  }

  /** Work on other digests, or a direct upload or touch of this one. */
  function DoOutside(job: Job, w: World, op: DiskOp): World {
    if op.digest != job.Digest() || op.StoreOp? || op.TouchOp? then w.(disk := Perform(job.codec, w.disk, op)) else w
  }

  function Do(job: Job, w: World, step: Step): World {
    match step
    case Connect => DoConnect(job, w)
    case ServerInit(now) => DoServerInit(job, w, now)
    case ServerFrame(now) => DoServerFrame(job, w, now)
    case ClientReceive(latency) => DoClientReceive(job, w, latency)
    case ClientSend => DoClientSend(w)
    case ClientDrop => DoClientDrop(w)
    case ServerDrop => HandlerGone(w)
    case ClientRetry => DoClientRetry(w)
    case Corrupt(fault) => DoCorrupt(w, fault)
    case Crash => HandlerGone(w)
    case CrashInAppend(written) => DoCrashInAppend(job, w, written)
    case CrashInFinalize(stage, now) => DoCrashInFinalize(job, w, stage, now)
    case Outside(op) => DoOutside(job, w, op)
  }

  function Run(job: Job, w: World, steps: seq<Step>): World
    decreases |steps|
  {
    if steps == [] then w else Run(job, Do(job, w, steps[0]), steps[1..])
  }

  /** The payload does not reach the store by another way. */
  predicate NotStoredOutside(job: Job, step: Step) {
    !(step.Outside? && step.op.StoreOp? && step.op.digest == job.Digest())
  }

  // ── Invariant ─────────────────────────────────────────────────────

  function Concat(log: seq<Bytes>): Bytes {
    if log == [] then [] else Concat(log[..|log|-1]) + log[|log|-1]
  }

  ghost predicate StagedOk(job: Job, w: World) {
    && Sound(job.codec, w.disk.store)
    && Staged(w.disk, job.Digest()) <= job.Stream()
    && Concat(w.log) == Staged(w.disk, job.Digest())
  }

  /** Every chunk but one that ends the stream has at least the minimum size. */
  predicate Counted(received: nat, sequence: nat, total: nat) {
    && received <= total
    && (received == 0 <==> sequence == 0)
    && (received < total ==> MIN_CHUNK_SIZE * sequence <= received)
    && (received == total ==> MIN_CHUNK_SIZE * (sequence - 1) < total)
  }

  ghost predicate SessionOk(job: Job, disk: Disk) {
    job.Digest() in disk.sessions ==>
      var s := disk.sessions[job.Digest()];
      && s.params == job.Params()
      && s.received == s.nextOffset <= |Staged(disk, job.Digest())|
      && Counted(s.received, s.nextSequence, |job.Stream()|)
  }

  /** The live session agrees with the record and with the staged bytes. */
  ghost predicate LiveOk(job: Job, disk: Disk, live: Live) {
    && live.workorder == job.workorder && live.digest == job.Digest() && live.params == job.Params()
    && job.Digest() in disk.sessions
    && live.received == disk.sessions[job.Digest()].received == |Staged(disk, job.Digest())| < |job.Stream()|
    && live.nextSequence == disk.sessions[job.Digest()].nextSequence
  }

  predicate ChunkSizeOk(offset: nat, size: nat, total: nat) {
    && 0 < size <= DEFAULT_CHUNK_SIZE && offset + size <= total
    && (offset + size < total ==> size >= MIN_CHUNK_SIZE)
  }

  ghost predicate ChunkOk(job: Job, c: Wire, offset: nat, sequence: nat) {
    && c.Chunk?
    && ChunkSizeOk(offset, c.size, |job.Stream()|)
    && |job.Stream()| < TWO64 && sequence < TWO64
    && c.sent == ChunkWire(job.Stream(), offset, sequence, c.size).sent
    && (c.fault.Some? ==> c.fault.value.at < |c.sent| && c.fault.value.byte != c.sent[c.fault.value.at])
  }

  ghost predicate HandlerOk(job: Job, w: World) {
    match w.handler
    case Closed => w.toServer == []
    case AwaitInit => w.toServer == [InitFrame(job.InitMessage())]
    case Serving(live) =>
      && LiveOk(job, w.disk, live)
      && (w.toServer == [] || (|w.toServer| == 1 && ChunkOk(job, w.toServer[0], live.received, live.nextSequence)))
  }

  predicate ResumeOk(job: Job, r: Reply) {
    && r.UploadResume? && r.env == job.Envelope() && r.encoding == job.Encoding() && r.expectedSize == |job.Stream()|
    && r.nextOffset < |job.Stream()| && MIN_CHUNK_SIZE * r.nextSequence <= r.nextOffset
  }

  ghost predicate AwaitResumeOk(job: Job, w: World) {
    match w.handler
    case AwaitInit => w.toClient == []
    case Serving(live) =>
      && w.toServer == [] && |w.toClient| == 1 && ResumeOk(job, w.toClient[0])
      && w.toClient[0].nextOffset == live.received && w.toClient[0].nextSequence == live.nextSequence
    case Closed =>
      |w.toClient| <= 1 && (w.toClient != [] ==> ResumeOk(job, w.toClient[0]) || w.toClient[0].UploadComplete? || w.toClient[0].UploadError?)
  }

  ghost predicate ReadyOk(job: Job, w: World) {
    var c := w.client;
    && c.Ready? && c.stream == job.Stream() && c.offset < |job.Stream()| && MIN_CHUNK_SIZE * c.sequence <= c.offset
    && w.toClient == [] && !w.handler.AwaitInit?
    && (w.handler.Serving? ==> w.handler.live.received == c.offset && w.handler.live.nextSequence == c.sequence && w.toServer == [])
  }

  predicate AckOk(job: Job, c: Client, r: Reply)
    requires c.AwaitAck?
  {
    r == UploadAck(job.Envelope(), c.sequence, c.offset, c.size, c.offset + c.size)
  }

  ghost predicate AwaitAckOk(job: Job, w: World) {
    var c := w.client;
    && c.AwaitAck? && c.stream == job.Stream()
    && ChunkSizeOk(c.offset, c.size, |job.Stream()|) && MIN_CHUNK_SIZE * c.sequence <= c.offset
    && match w.handler
       case AwaitInit => false
       case Serving(live) =>
         || (&& live.received == c.offset && live.nextSequence == c.sequence && w.toClient == []
             && |w.toServer| == 1 && w.toServer[0].Chunk? && w.toServer[0].size == c.size)
         || (&& live.received == c.offset + c.size && live.nextSequence == c.sequence + 1 && w.toServer == []
             && |w.toClient| == 1 && AckOk(job, c, w.toClient[0]))
       case Closed =>
         || w.toClient == []
         || (|w.toClient| == 1 && w.toClient[0].UploadError?)
         || (|w.toClient| == 1 && AckOk(job, c, w.toClient[0]))
         || (&& |w.toClient| == 2 && AckOk(job, c, w.toClient[0]) && c.offset + c.size == |job.Stream()|
             && (w.toClient[1].UploadComplete? || w.toClient[1].UploadError?))
  }

  ghost predicate AwaitCompleteOk(job: Job, w: World) {
    && w.handler.Closed? && |w.toClient| <= 1
    && (w.toClient != [] ==> w.toClient[0].UploadComplete? || w.toClient[0].UploadError?)
  }

  ghost predicate ClientOk(job: Job, w: World) {
    && w.attached == Connected(w.client)
    && (!w.attached ==> w.toClient == [])
    && match w.client
       case Idle => true
       case AwaitResume => AwaitResumeOk(job, w)
       case Ready(_, _, _) => ReadyOk(job, w)
       case AwaitAck(_, _, _, _) => AwaitAckOk(job, w)
       case AwaitComplete => AwaitCompleteOk(job, w)
       case Done(_) => true
       case Failed => true
  }

  /** A completion that is on its way or has been seen means the blob is stored. */
  ghost predicate CompletionOk(job: Job, w: World) {
    (w.client.Done? || exists i :: 0 <= i < |w.toClient| && w.toClient[i].UploadComplete?) ==> job.Digest() in w.disk.store.blobs
  }

  ghost predicate Inv(job: Job, w: World) {
    && StagedOk(job, w)
    && SessionOk(job, w.disk)
    && HandlerOk(job, w)
    && ClientOk(job, w)
    && CompletionOk(job, w)
    && InBounds(w.policy)
  }
}
