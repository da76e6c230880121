/**
 The server side of a resumable blob upload: the persisted session record, the staged
 `.part` bytes, and the handler that drives one websocket connection.
 */
module UploadSessions {
  import opened Common
  import opened Codecs
  import opened BlobStores
  import ChunkFrame
  import opened ChunkPolicies

  const ZSTD: string := "zstd"
  const PROTOCOL_VERSION: nat := 1

  /** What upload_init fixes for the whole upload. */
  datatype Params = Params(rawSize: nat, streamSize: nat, chunkSize: nat, encoding: Option<string>)

  datatype Session = Session(params: Params, nextSequence: nat, nextOffset: nat, received: nat)

  /** Session records and staged bytes by digest, next to the blob store. */
  datatype Disk = Disk(sessions: map<string, Session>, parts: map<string, Bytes>, store: Store)

  datatype SessionError =
    | RawSizeDiffers
    | StreamSizeDiffers
    | ChunkSizeDiffers
    | EncodingDiffers
    | PartTooLong
    | Inconsistent
    | MissingSequence
    | ChunkOverflows
    | EmptyChunk
    | NoSession
    | Incomplete
    | MissingPart
    | DecodeFailed
    | UnsupportedEncoding
    | RawSizeMismatch
    | StoreFailed(cause: StoreError)

  datatype Outcome<+T> = Outcome(disk: Disk, result: Result<T, SessionError>)

  function Staged(disk: Disk, digest: string): Bytes {
    if digest in disk.parts then disk.parts[digest] else []
  }

  function RemoveSession(disk: Disk, digest: string): Disk {
    disk.(sessions := disk.sessions - {digest}, parts := disk.parts - {digest})
  }

  // ── prepare, append, finalize ─────────────────────────────────────

  function ParamsConflict(have: Params, want: Params): Option<SessionError> {
    if have.rawSize != want.rawSize then Some(RawSizeDiffers)
    else if have.streamSize != want.streamSize then Some(StreamSizeDiffers)
    else if have.chunkSize != want.chunkSize then Some(ChunkSizeDiffers)
    else if have.encoding != want.encoding then Some(EncodingDiffers)
    else None
  }

  function Prepare(disk: Disk, digest: string, params: Params): Outcome<Session> {
    var s := if digest in disk.sessions then disk.sessions[digest] else Session(params, 0, 0, 0);
    var conflict := ParamsConflict(s.params, params);
    var n := |Staged(disk, digest)|;
    if conflict.Some? then Outcome(disk, Err(conflict.value))
    else if n > params.streamSize then Outcome(RemoveSession(disk, digest), Err(PartTooLong))
    else
      var off := s.received != n || s.nextOffset != n;
      if off && n != 0 then Outcome(disk, Err(Inconsistent))
      else
        var s1 := if off then s.(nextSequence := 0) else s;
        if n > 0 && s1.nextSequence == 0 then Outcome(disk, Err(MissingSequence))
        else
          var s2 := s1.(received := n, nextOffset := n);
          Outcome(disk.(sessions := disk.sessions[digest := s2]), Ok(s2))
  }

  function Append(disk: Disk, digest: string, params: Params, payload: Bytes): Outcome<Session> {
    var p := Prepare(disk, digest, params);
    if p.result.Err? then p
    else
      var next := p.result.value.received + |payload|;
      if next > params.streamSize then Outcome(p.disk, Err(ChunkOverflows))
      else if payload == [] && next < params.streamSize then Outcome(p.disk, Err(EmptyChunk))
      else
        var s := Session(params, SatAdd(p.result.value.nextSequence, 1), next, next);
        Outcome(p.disk.(sessions := p.disk.sessions[digest := s],
                        parts := p.disk.parts[digest := Staged(disk, digest) + payload]), Ok(s))
  }

  /** The bytes the staged stream stands for. */
  function DecodeStream(codec: Codec, encoding: Option<string>, stream: Bytes): Result<Bytes, SessionError> {
    match encoding
    case None => Ok(stream)
    case Some(name) =>
      if name != ZSTD then Err(UnsupportedEncoding)
      else
        match codec.zstdDecode(stream)
        case None => Err(DecodeFailed)
        case Some(raw) => Ok(raw)
  }

  function Finalize(codec: Codec, disk: Disk, digest: string, now: int): Outcome<bool> {
    if digest !in disk.sessions then Outcome(disk, Err(NoSession))
    else
      var s := disk.sessions[digest];
      if |Staged(disk, digest)| != s.params.streamSize then Outcome(disk, Err(Incomplete))
      else if digest !in disk.parts then Outcome(disk, Err(MissingPart))
      else
        var raw := DecodeStream(codec, s.params.encoding, disk.parts[digest]);
        if raw.Err? then Outcome(disk, Err(raw.error))
        else if |raw.value| != s.params.rawSize then Outcome(disk, Err(RawSizeMismatch))
        else
          var b := StoreBlobForDigest(codec, disk.store, digest, raw.value, now);
          if b.outcome.Err? then Outcome(disk.(store := b.store), Err(StoreFailed(b.outcome.error)))
          else if s.params.encoding == Some(ZSTD) then
            var v := StoreEncodedVariant(b.store, digest, s.params.rawSize, disk.parts[digest], now);
            if v.outcome.Err? then Outcome(disk.(store := v.store), Err(StoreFailed(v.outcome.error)))
            else Outcome(RemoveSession(disk.(store := v.store), digest), Ok(b.outcome.value))
          else Outcome(RemoveSession(disk.(store := b.store), digest), Ok(b.outcome.value))
  }

  /** Finalising never damages the store, whatever bytes a client staged. */
  lemma FinalizeKeeps(codec: Codec, disk: Disk, digest: string, now: int)
    requires codec.Lawful() && Sound(codec, disk.store)
    ensures var r := Finalize(codec, disk, digest, now);
            && Sound(codec, r.disk.store) && SameElsewhere(disk.store, r.disk.store, digest)
            && (r.result.Ok? ==> r.disk == RemoveSession(disk.(store := r.disk.store), digest) && digest in r.disk.store.blobs)
            && (r.result.Err? ==> r.disk == disk)
            && (digest in disk.store.blobs ==> digest in r.disk.store.blobs && r.disk.store.blobs[digest] == disk.store.blobs[digest])
  {
    if digest in disk.sessions && digest in disk.parts {
      var s := disk.sessions[digest];
      var raw := DecodeStream(codec, s.params.encoding, disk.parts[digest]);
      if raw.Ok? && |raw.value| == s.params.rawSize {
        StoreKeeps(codec, disk.store, digest, raw.value, now);
        var b := StoreBlobForDigest(codec, disk.store, digest, raw.value, now);
        if b.outcome.Ok? && s.params.encoding == Some(ZSTD) {
          VariantStoreKeeps(codec, b.store, digest, raw.value, disk.parts[digest], now);
        }
      }
    }
  }

  // ── Messages ──────────────────────────────────────────────────────

  datatype Offer = Offer(encoding: string, size: nat)

  datatype Init = Init(version: nat, workorder: int, digest: string, totalSize: nat, chunkSize: nat,
                       capabilities: seq<string>, offers: seq<Offer>)

  datatype ErrorCode =
    | UnsupportedVersion
    | UnsupportedChunkSize
    | UnsupportedOffer
    | BadDigest
    | ResumePrepareFailed(why: SessionError)
    | StoreFailure(why: SessionError)
    | InvalidChunkFrame(frame: ChunkFrame.FrameError)
    | UnexpectedSequence
    | UnexpectedOffset
    | ChunkTooLarge
    | BlobTooLarge
    | PersistFailed(why: SessionError)

  datatype Envelope = Envelope(version: nat, workorder: int, digest: string)

  datatype Reply =
    | UploadResume(env: Envelope, nextOffset: nat, nextSequence: nat, encoding: Option<string>, expectedSize: nat)
    | UploadAck(env: Envelope, sequence: nat, offset: nat, size: nat, received: nat)
    | UploadComplete(env: Envelope, uploaded: bool)
    | UploadError(env: Envelope, code: ErrorCode)

  /** The session a live connection keeps in memory. */
  datatype Live = Live(workorder: int, digest: string, params: Params, nextSequence: nat, received: nat)

  datatype Handled = Handled(disk: Disk, live: Option<Live>, replies: seq<Reply>)

  function FirstOffer(offers: seq<Offer>, zstd: bool): Option<Offer> {
    if offers == [] then None
    else if (offers[0].encoding == ZSTD) == zstd then Some(offers[0])
    else FirstOffer(offers[1..], zstd)
  }

  /** The selected encoding and the size of the stream, or nothing when only unknown encodings are offered. */
  function SelectUploadEncoding(rawSize: nat, capabilities: seq<string>, offers: seq<Offer>): Option<(Option<string>, nat)> {
    var zstd := FirstOffer(offers, true);
    if ZSTD in capabilities && zstd.Some? then Some((Some(ZSTD), zstd.value.size))
    else if FirstOffer(offers, false).Some? then None
    else Some((None, rawSize))
  }

  function EnvelopeFor(init: Init): Envelope {
    Envelope(PROTOCOL_VERSION, init.workorder, init.digest)
  }

  function HandleInit(codec: Codec, disk: Disk, init: Init, now: int): Handled {
    var env := EnvelopeFor(init);
    var selected := SelectUploadEncoding(init.totalSize, init.capabilities, init.offers);
    if init.version != PROTOCOL_VERSION then Handled(disk, None, [UploadError(env, UnsupportedVersion)])
    else if init.chunkSize != DEFAULT_CHUNK_SIZE then Handled(disk, None, [UploadError(env, UnsupportedChunkSize)])
    else if selected.None? then Handled(disk, None, [UploadError(env, UnsupportedOffer)])
    else if !ValidDigest(init.digest) then Handled(disk, None, [UploadError(env, BadDigest)])
    else if init.digest in disk.store.blobs then
      Handled(RemoveSession(disk, init.digest), None, [UploadComplete(env, false)])
    else
      var params := Params(init.totalSize, selected.value.1, init.chunkSize, selected.value.0);
      var p := Prepare(disk, init.digest, params);
      if p.result.Err? then Handled(p.disk, None, [UploadError(env, ResumePrepareFailed(p.result.error))])
      else if p.result.value.received == params.streamSize then
        FinishUpload(codec, p.disk, env, now, [])
      else
        var s := p.result.value;
        Handled(p.disk, Some(Live(init.workorder, init.digest, params, s.nextSequence, s.nextOffset)),
                [UploadResume(env, s.nextOffset, s.nextSequence, s.params.encoding, s.params.streamSize)])
  }

  function FinishUpload(codec: Codec, disk: Disk, env: Envelope, now: int, before: seq<Reply>): Handled {
    var f := Finalize(codec, disk, env.digest, now);
    Handled(f.disk, None,
            before + [if f.result.Ok? then UploadComplete(env, f.result.value)
                      else UploadError(env, StoreFailure(f.result.error))])
  }

  /** The checks a binary frame passes before anything is written. */
  function AcceptFrame(live: Live, frame: Bytes): Result<ChunkFrame.Decoded, ErrorCode> {
    match ChunkFrame.Decode(frame)
    case Err(e) => Err(InvalidChunkFrame(e))
    case Ok(d) =>
      if d.header.sequence != live.nextSequence then Err(UnexpectedSequence)
      else if d.header.offsetBytes != live.received then Err(UnexpectedOffset)
      else if d.header.payloadSize > live.params.chunkSize then Err(ChunkTooLarge)
      else if SatAdd(live.received, d.header.payloadSize) > live.params.streamSize then Err(BlobTooLarge)
      else Ok(d)
  }

  function HandleFrame(codec: Codec, disk: Disk, live: Live, frame: Bytes, now: int): Handled {
    var env := Envelope(PROTOCOL_VERSION, live.workorder, live.digest);
    match AcceptFrame(live, frame)
    case Err(code) => Handled(disk, None, [UploadError(env, code)])
    case Ok(d) =>
      var a := Append(disk, live.digest, live.params, d.payload);
      if a.result.Err? then Handled(a.disk, None, [UploadError(env, PersistFailed(a.result.error))])
      else
        var s := a.result.value;
        var ack := UploadAck(env, d.header.sequence, d.header.offsetBytes, d.header.payloadSize, s.received);
        if s.received == live.params.streamSize then FinishUpload(codec, a.disk, env, now, [ack])
        else Handled(a.disk, Some(live.(nextSequence := s.nextSequence, received := s.received)), [ack])
  }

  /** A frame the session accepts is rejected by it after any one-byte change. */
  lemma OneByteChangeRejected(live: Live, frame: Bytes, i: nat, b: Byte)
    requires AcceptFrame(live, frame).Ok? && i < |frame| && b != frame[i]
    ensures AcceptFrame(live, frame[i := b]).Err?
  {
    ChunkFrame.OneByteChange(frame, i, b);
  }

  // ── The server as an object ───────────────────────────────────────

  class UploadServer {
    const store: BlobStore
    var sessions: map<string, Session>
    var parts: map<string, Bytes>

    ghost function Contents(): Disk
      reads this, store
    {
      Disk(sessions, parts, store.Contents())
    }

    constructor (store: BlobStore)
      ensures this.store == store && Contents() == Disk(map[], map[], store.Contents())
    {
      this.store := store;
      sessions, parts := map[], map[];
    }

    method RemoveState(digest: string)
      modifies this
      ensures Contents() == RemoveSession(old(Contents()), digest)
    {
      sessions := sessions - {digest};
      parts := parts - {digest};
    }

    method PrepareSession(digest: string, params: Params) returns (r: Result<Session, SessionError>)
      modifies this
      ensures Outcome(Contents(), r) == Prepare(old(Contents()), digest, params)
    {
      var s := if digest in sessions then sessions[digest] else Session(params, 0, 0, 0);
      if s.params.rawSize != params.rawSize { return Err(RawSizeDiffers); }
      if s.params.streamSize != params.streamSize { return Err(StreamSizeDiffers); }
      if s.params.chunkSize != params.chunkSize { return Err(ChunkSizeDiffers); }
      if s.params.encoding != params.encoding { return Err(EncodingDiffers); }
      var n := if digest in parts then |parts[digest]| else 0;
      if n > params.streamSize {
        RemoveState(digest);
        return Err(PartTooLong);
      }
      if s.received != n || s.nextOffset != n {
        if n != 0 { return Err(Inconsistent); }
        s := s.(received := 0, nextOffset := 0, nextSequence := 0);
      }
      if n > 0 && s.nextSequence == 0 { return Err(MissingSequence); }
      s := s.(received := n, nextOffset := n);
      sessions := sessions[digest := s];
      return Ok(s);
    }

    method AppendChunk(digest: string, params: Params, payload: Bytes) returns (r: Result<Session, SessionError>)
      modifies this
      ensures Outcome(Contents(), r) == Append(old(Contents()), digest, params, payload)
    {
      var p := PrepareSession(digest, params);
      if p.Err? { return p; }
      var s := p.value;
      var next := s.received + |payload|;
      if next > params.streamSize { return Err(ChunkOverflows); }
      if payload == [] && next < params.streamSize { return Err(EmptyChunk); }
      parts := parts[digest := (if digest in parts then parts[digest] else []) + payload];
      s := s.(received := next, nextOffset := next, nextSequence := SatAdd(s.nextSequence, 1));
      sessions := sessions[digest := s];
      return Ok(s);
    }

    method FinalizeSession(digest: string, now: int) returns (r: Result<bool, SessionError>)
      modifies this, store
      ensures Outcome(Contents(), r) == Finalize(store.codec, old(Contents()), digest, now)
    {
      if digest !in sessions { return Err(NoSession); }
      var s := sessions[digest];
      var n := if digest in parts then |parts[digest]| else 0;
      if n != s.params.streamSize { return Err(Incomplete); }
      if digest !in parts { return Err(MissingPart); }
      var raw := DecodeStream(store.codec, s.params.encoding, parts[digest]);
      if raw.Err? { return Err(raw.error); }
      if |raw.value| != s.params.rawSize { return Err(RawSizeMismatch); }
      var b := store.StoreForDigest(digest, raw.value, now);
      if b.Err? { return Err(StoreFailed(b.error)); }
      if s.params.encoding == Some(ZSTD) {
        var v := store.StoreVariant(digest, s.params.rawSize, parts[digest], now);
        if v.Err? { return Err(StoreFailed(v.error)); }
      }
      RemoveState(digest);
      return Ok(b.value);
    }

    method OpenUpload(init: Init, now: int) returns (live: Option<Live>, replies: seq<Reply>)
      modifies this, store
      ensures Handled(Contents(), live, replies) == HandleInit(store.codec, old(Contents()), init, now)
    {
      var env := EnvelopeFor(init);
      if init.version != PROTOCOL_VERSION { return None, [UploadError(env, UnsupportedVersion)]; }
      if init.chunkSize != DEFAULT_CHUNK_SIZE { return None, [UploadError(env, UnsupportedChunkSize)]; }
      var selected := SelectUploadEncoding(init.totalSize, init.capabilities, init.offers);
      if selected.None? { return None, [UploadError(env, UnsupportedOffer)]; }
      var present := store.HasBlob(init.digest);
      if present.Err? { return None, [UploadError(env, BadDigest)]; }
      if present.value {
        RemoveState(init.digest);
        return None, [UploadComplete(env, false)];
      }
      var params := Params(init.totalSize, selected.value.1, init.chunkSize, selected.value.0);
      var p := PrepareSession(init.digest, params);
      if p.Err? { return None, [UploadError(env, ResumePrepareFailed(p.error))]; }
      var s := p.value;
      if s.received == params.streamSize {
        var f := FinalizeSession(init.digest, now);
        if f.Err? { return None, [UploadError(env, StoreFailure(f.error))]; }
        return None, [UploadComplete(env, f.value)];
      }
      return Some(Live(init.workorder, init.digest, params, s.nextSequence, s.nextOffset)),
             [UploadResume(env, s.nextOffset, s.nextSequence, s.params.encoding, s.params.streamSize)];
    }
  }

  /** One websocket connection after a successful init. */
  class UploadHandler {
    const server: UploadServer
    const workorder: int
    const digest: string
    const params: Params
    var nextSequence: nat
    var received: nat
    var open: bool

    ghost function Session(): Live
      reads this
    {
      Live(workorder, digest, params, nextSequence, received)
    }

    constructor (server: UploadServer, live: Live)
      ensures this.server == server && Session() == live && open
    {
      this.server := server;
      workorder, digest, params := live.workorder, live.digest, live.params;
      nextSequence, received, open := live.nextSequence, live.received, true;
    }

    method Finish(env: Envelope, now: int, before: seq<Reply>) returns (replies: seq<Reply>)
      requires env.digest == digest
      modifies this, server, server.store
      ensures Handled(server.Contents(), None, replies)
              == FinishUpload(server.store.codec, old(server.Contents()), env, now, before)
      ensures !open
    {
      open := false;
      var f := server.FinalizeSession(digest, now);
      if f.Ok? {
        return before + [UploadComplete(env, f.value)];
      }
      return before + [UploadError(env, StoreFailure(f.error))];
    }

    method BinaryFrame(frame: Bytes, now: int) returns (replies: seq<Reply>)
      requires open
      modifies this, server, server.store
      ensures Handled(server.Contents(), if open then Some(Session()) else None, replies)
              == HandleFrame(server.store.codec, old(server.Contents()), old(Session()), frame, now)
    {
      var env := Envelope(PROTOCOL_VERSION, workorder, digest);
      var parsed := ChunkFrame.Decode(frame);
      if parsed.Err? {
        open := false;
        return [UploadError(env, InvalidChunkFrame(parsed.error))];
      }
      var h := parsed.value.header;
      if h.sequence != nextSequence {
        open := false;
        return [UploadError(env, UnexpectedSequence)];
      }
      if h.offsetBytes != received {
        open := false;
        return [UploadError(env, UnexpectedOffset)];
      }
      if h.payloadSize > params.chunkSize {
        open := false;
        return [UploadError(env, ChunkTooLarge)];
      }
      if SatAdd(received, h.payloadSize) > params.streamSize {
        open := false;
        return [UploadError(env, BlobTooLarge)];
      }
      var a := server.AppendChunk(digest, params, parsed.value.payload);
      if a.Err? {
        open := false;
        return [UploadError(env, PersistFailed(a.error))];
      }
      received := a.value.received;
      nextSequence := a.value.nextSequence;
      var ack := UploadAck(env, h.sequence, h.offsetBytes, h.payloadSize, received);
      if received == params.streamSize {
        replies := Finish(env, now, [ack]);
        return;
      }
      return [ack];
    }
  }
}
