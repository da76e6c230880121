/**
 The binary chunk frame of the blob-upload stream: a 36-byte header followed by
 the chunk, protected by Adler-32 (section 2.2 of RFC 1950).
 */
module ChunkFrame {
  import opened Common

  const MAGIC: Bytes := [0x52, 0x4D, 0x43, 0x48]  // "RMCH"
  const PROTOCOL_VERSION: Byte := 1
  const HEADER_LEN: nat := 36

  datatype Header = Header(sequence: U64, offsetBytes: U64, payloadSize: U64, checksum: U32)

  datatype FrameError =
    | FrameTooShort(actual: nat)
    | InvalidMagic
    | UnsupportedVersion(version: Byte)
    | UnsupportedFlags(flags: Byte)
    | NonZeroReserved
    | PayloadSizeMismatch(declared: nat, actualSize: nat)
    | ChecksumMismatch(expected: nat, actualSum: nat)

  datatype Decoded = Decoded(header: Header, payload: Bytes)

  // ── Adler-32 ──────────────────────────────────────────────────────

  const ADLER_BASE: int := 65521

  function AdlerA(s: Bytes): (a: nat)
    ensures a < ADLER_BASE
  {
    if |s| == 0 then 1 else (AdlerA(s[..|s|-1]) + s[|s|-1]) % ADLER_BASE
  }

  function AdlerB(s: Bytes): (b: nat)
    ensures b < ADLER_BASE
  {
    if |s| == 0 then 0 else (AdlerB(s[..|s|-1]) + AdlerA(s)) % ADLER_BASE
  }

  function Adler32(s: Bytes): U32 {
    AdlerB(s) * 65536 + AdlerA(s)
  }

  function ByteSum(s: Bytes): nat {
    if |s| == 0 then 0 else ByteSum(s[..|s|-1]) + s[|s|-1]
  }

  lemma ReduceThenAdd(x: nat, y: nat)
    ensures (x % ADLER_BASE + y) % ADLER_BASE == (x + y) % ADLER_BASE
  {
  }

  lemma {:induction false} AdlerIsSum(s: Bytes)
    ensures AdlerA(s) == (1 + ByteSum(s)) % ADLER_BASE
  {
    if |s| > 0 {
      AdlerIsSum(s[..|s|-1]);
      ReduceThenAdd(1 + ByteSum(s[..|s|-1]), s[|s|-1]);
    }
  }

  lemma {:induction false} ByteSumShift(s: Bytes, i: nat, b: Byte)
    requires i < |s|
    ensures ByteSum(s[i := b]) == ByteSum(s) - s[i] + b
  {
    var t := s[i := b];
    var n := |s| - 1;
    if i == n {
      assert t[..n] == s[..n];
    } else {
      ByteSumShift(s[..n], i, b);
      assert t[..n] == s[..n][i := b];
    }
  }

  lemma NearbyResidues(x: nat, y: nat)
    requires x != y && -256 < x - y < 256
    ensures x % ADLER_BASE != y % ADLER_BASE
  {
  }

  lemma SameChecksumSameSums(s: Bytes, t: Bytes)
    requires Adler32(s) == Adler32(t)
    ensures AdlerA(s) == AdlerA(t)
  {
    hide AdlerA, AdlerB;
  }

  /** Adler-32 detects every single-byte substitution, whatever the length. */
  lemma AdlerDetectsOneByte(s: Bytes, i: nat, b: Byte)
    requires i < |s| && b != s[i]
    ensures Adler32(s[i := b]) != Adler32(s)
  {
    AdlerIsSum(s);
    AdlerIsSum(s[i := b]);
    ByteSumShift(s, i, b);
    NearbyResidues(1 + ByteSum(s), 1 + ByteSum(s[i := b]));
    if Adler32(s[i := b]) == Adler32(s) {
      SameChecksumSameSums(s[i := b], s);
    }
  }

  // ── Big-endian integers ───────────────────────────────────────────

  function Pow256(w: nat): (p: nat)
    ensures p > 0
  {
    if w == 0 then 1 else 256 * Pow256(w - 1)
  }

  function ToBigEndian(n: nat, width: nat): (s: Bytes)
    ensures |s| == width
  {
    if width == 0 then [] else ToBigEndian(n / 256, width - 1) + [n % 256]
  }

  function FromBigEndian(s: Bytes): (n: nat)
    ensures n < Pow256(|s|)
  {
    if |s| == 0 then 0 else FromBigEndian(s[..|s|-1]) * 256 + s[|s|-1]
  }

  lemma {:induction false} BigEndianReads(n: nat, width: nat)
    requires n < Pow256(width)
    ensures FromBigEndian(ToBigEndian(n, width)) == n
  {
    if width > 0 {
      BigEndianReads(n / 256, width - 1);
      var s := ToBigEndian(n, width);
      assert s[..width-1] == ToBigEndian(n / 256, width - 1);
    }
  }

  lemma {:induction false} BigEndianWrites(s: Bytes)
    ensures ToBigEndian(FromBigEndian(s), |s|) == s
  {
    if |s| > 0 {
      BigEndianWrites(s[..|s|-1]);
      assert FromBigEndian(s) / 256 == FromBigEndian(s[..|s|-1]);
      assert s == s[..|s|-1] + [s[|s|-1]];
    }
  }

  lemma PowersOf256()
    ensures Pow256(2) == 65536 && Pow256(4) == TWO32 && Pow256(8) == TWO64
  {
    assert Pow256(1) == 256 && Pow256(3) == 16777216;
    assert Pow256(5) == 256 * TWO32 && Pow256(6) == 65536 * TWO32 && Pow256(7) == 16777216 * TWO32;
  }

  function ReadU64(s: Bytes): U64
    requires |s| == 8
  {
    PowersOf256();
    FromBigEndian(s)
  }

  function ReadU32(s: Bytes): U32
    requires |s| == 4
  {
    PowersOf256();
    FromBigEndian(s)
  }

  lemma ZeroReserved(s: Bytes)
    requires |s| == 2
    ensures FromBigEndian(s) == 0 <==> s == [0, 0]
  {
    assert FromBigEndian(s) == FromBigEndian(s[..1]) * 256 + s[1];
    assert FromBigEndian(s[..1]) == s[0];
  }

  // ── Frame layout ──────────────────────────────────────────────────

  function FromPayload(sequence: U64, offset: U64, payload: Bytes): Header
    requires |payload| < TWO64
  {
    Header(sequence, offset, |payload|, Adler32(payload))
  }

  function HeaderBytes(h: Header): (s: Bytes)
    ensures |s| == HEADER_LEN
  {
    MAGIC + [PROTOCOL_VERSION, 0, 0, 0]
    + ToBigEndian(h.sequence, 8) + ToBigEndian(h.offsetBytes, 8)
    + ToBigEndian(h.payloadSize, 8) + ToBigEndian(h.checksum, 4)
  }

  function Encode(h: Header, payload: Bytes): (r: Result<Bytes, FrameError>) {
    if |payload| != h.payloadSize then Err(PayloadSizeMismatch(h.payloadSize, |payload|))
    else if Adler32(payload) != h.checksum then Err(ChecksumMismatch(h.checksum, Adler32(payload)))
    else Ok(HeaderBytes(h) + payload)
  }

  function Decode(frame: Bytes): (r: Result<Decoded, FrameError>) {
    if |frame| < HEADER_LEN then Err(FrameTooShort(|frame|))
    else if frame[..4] != MAGIC then Err(InvalidMagic)
    else if frame[4] != PROTOCOL_VERSION then Err(UnsupportedVersion(frame[4]))
    else if frame[5] != 0 then Err(UnsupportedFlags(frame[5]))
    else if FromBigEndian(frame[6..8]) != 0 then Err(NonZeroReserved)
    else
      var h := Header(ReadU64(frame[8..16]), ReadU64(frame[16..24]), ReadU64(frame[24..32]), ReadU32(frame[32..36]));
      var payload := frame[HEADER_LEN..];
      if |payload| != h.payloadSize then Err(PayloadSizeMismatch(h.payloadSize, |payload|))
      else if Adler32(payload) != h.checksum then Err(ChecksumMismatch(h.checksum, Adler32(payload)))
      else Ok(Decoded(h, payload))
  }

  /** The writer pushes the fields one after another into a buffer. */
  method EncodeWithPayload(h: Header, payload: Bytes) returns (r: Result<Bytes, FrameError>)
    ensures r == Encode(h, payload)
  {
    if |payload| != h.payloadSize {
      return Err(PayloadSizeMismatch(h.payloadSize, |payload|));
    }
    if Adler32(payload) != h.checksum {
      return Err(ChecksumMismatch(h.checksum, Adler32(payload)));
    }
    var frame: Bytes := [];
    frame := frame + MAGIC;
    frame := frame + [PROTOCOL_VERSION];
    frame := frame + [0];
    frame := frame + [0, 0];
    frame := frame + ToBigEndian(h.sequence, 8);
    frame := frame + ToBigEndian(h.offsetBytes, 8);
    frame := frame + ToBigEndian(h.payloadSize, 8);
    frame := frame + ToBigEndian(h.checksum, 4);
    frame := frame + payload;
    assert frame == HeaderBytes(h) + payload;
    return Ok(frame);
  }

  lemma HeaderFields(h: Header, tail: Bytes)
    ensures var f := HeaderBytes(h) + tail;
            && f[..4] == MAGIC && f[4] == PROTOCOL_VERSION && f[5] == 0 && f[6] == 0 && f[7] == 0
            && f[8..16] == ToBigEndian(h.sequence, 8) && f[16..24] == ToBigEndian(h.offsetBytes, 8)
            && f[24..32] == ToBigEndian(h.payloadSize, 8) && f[32..36] == ToBigEndian(h.checksum, 4)
            && f[36..] == tail
  {
  }

  /** Decoding inverts encoding. */
  lemma DecodeInvertsEncode(h: Header, payload: Bytes)
    requires Encode(h, payload).Ok?
    ensures Decode(Encode(h, payload).value) == Ok(Decoded(h, payload))
  {
    HeaderFields(h, payload);
    var f := HeaderBytes(h) + payload;
    ZeroReserved(f[6..8]);
    ReadBack(h);
    assert f[HEADER_LEN..] == payload;
  }

  lemma ReadBack(h: Header)
    ensures ReadU64(ToBigEndian(h.sequence, 8)) == h.sequence
    ensures ReadU64(ToBigEndian(h.offsetBytes, 8)) == h.offsetBytes
    ensures ReadU64(ToBigEndian(h.payloadSize, 8)) == h.payloadSize
    ensures ReadU32(ToBigEndian(h.checksum, 4)) == h.checksum
  {
    PowersOf256();
    BigEndianReads(h.sequence, 8);
    BigEndianReads(h.offsetBytes, 8);
    BigEndianReads(h.payloadSize, 8);
    BigEndianReads(h.checksum, 4);
  }

  /** Encoding inverts decoding: an accepted frame is the only frame for its content. */
  lemma EncodeInvertsDecode(frame: Bytes)
    requires Decode(frame).Ok?
    ensures Encode(Decode(frame).value.header, Decode(frame).value.payload) == Ok(frame)
  {
    var d := Decode(frame).value;
    BigEndianWrites(frame[8..16]);
    BigEndianWrites(frame[16..24]);
    BigEndianWrites(frame[24..32]);
    BigEndianWrites(frame[32..36]);
    ZeroReserved(frame[6..8]);
    assert frame[6] == frame[6..8][0] && frame[7] == frame[6..8][1];
    assert frame[4..8] == [PROTOCOL_VERSION, 0, 0, 0];
    assert frame == frame[..4] + frame[4..8] + frame[8..16] + frame[16..24] + frame[24..32] + frame[32..36] + frame[36..];
  }

  /** What the sender builds with FromPayload always encodes. */
  lemma FromPayloadEncodes(sequence: U64, offset: U64, payload: Bytes)
    requires |payload| < TWO64
    ensures Encode(FromPayload(sequence, offset, payload), payload).Ok?
    ensures Decode(Encode(FromPayload(sequence, offset, payload), payload).value)
            == Ok(Decoded(FromPayload(sequence, offset, payload), payload))
  {
    DecodeInvertsEncode(FromPayload(sequence, offset, payload), payload);
  }

  lemma SameNumberSameBytes(s: Bytes, t: Bytes)
    requires |s| == |t| && FromBigEndian(s) == FromBigEndian(t)
    ensures s == t
  {
    BigEndianWrites(s);
    BigEndianWrites(t);
  }

  /**
   A frame with one byte replaced either fails to decode, or decodes to the very same
   chunk under a different sequence number or a different offset.
   */
  lemma OneByteChange(frame: Bytes, i: nat, b: Byte)
    requires Decode(frame).Ok? && i < |frame| && b != frame[i]
    ensures var d := Decode(frame).value;
            var r := Decode(frame[i := b]);
            r.Ok? ==> && r.value.payload == d.payload
                      && (r.value.header.sequence != d.header.sequence
                          || r.value.header.offsetBytes != d.header.offsetBytes)
  {
    if i < 8 {
      PreambleChange(frame, i, b);
    } else if i < 32 {
      assert frame[i := b][36..] == frame[36..];
      ChangedField(frame, i, b);
    } else {
      ChecksummedChange(frame, i, b);
    }
  }

  lemma PreambleChange(frame: Bytes, i: nat, b: Byte)
    requires Decode(frame).Ok? && i < 8 && b != frame[i]
    ensures Decode(frame[i := b]).Err?
  {
    var g := frame[i := b];
    assert i < 4 ==> g[..4][i] == b && frame[..4][i] == frame[i];
    if i >= 6 && FromBigEndian(g[6..8]) == 0 {
      assert g[6..8][i - 6] == b && frame[6..8][i - 6] == frame[i];
      SameNumberSameBytes(g[6..8], frame[6..8]);
    }
  }

  lemma ChangedField(frame: Bytes, i: nat, b: Byte)
    requires |frame| >= 36 && 8 <= i < 32 && b != frame[i]
    ensures var g := frame[i := b];
            || FromBigEndian(g[8..16]) != FromBigEndian(frame[8..16])
            || FromBigEndian(g[16..24]) != FromBigEndian(frame[16..24])
            || FromBigEndian(g[24..32]) != FromBigEndian(frame[24..32])
  {
    FieldChanged(frame, i, b, if i < 16 then 8 else if i < 24 then 16 else 24);
  }

  lemma FieldChanged(frame: Bytes, i: nat, b: Byte, lo: nat)
    requires lo <= i < lo + 8 <= |frame| && b != frame[i]
    ensures FromBigEndian(frame[i := b][lo..lo + 8]) != FromBigEndian(frame[lo..lo + 8])
  {
    hide FromBigEndian;
    var f, g := frame[lo..lo + 8], frame[i := b][lo..lo + 8];
    assert g[i - lo] == b && f[i - lo] == frame[i];
    if FromBigEndian(g) == FromBigEndian(f) { SameNumberSameBytes(g, f); }
  }

  lemma ChecksummedChange(frame: Bytes, i: nat, b: Byte)
    requires Decode(frame).Ok? && 32 <= i < |frame| && b != frame[i]
    ensures Decode(frame[i := b]).Err?
  {
    var g := frame[i := b];
    if i < 36 {
      assert g[36..] == frame[36..];
      assert g[32..36][i - 32] == b && frame[32..36][i - 32] == frame[i];
      if FromBigEndian(g[32..36]) == FromBigEndian(frame[32..36]) {
        SameNumberSameBytes(g[32..36], frame[32..36]);
      }
    } else {
      assert g[36..] == frame[36..][i - 36 := b];
      assert g[32..36] == frame[32..36];
      AdlerDetectsOneByte(frame[36..], i - 36, b);
    }
  }
}
