/** NXFR frames: the 28-byte header and the incremental decoder over a growing buffer. */
module Framing {
  import opened Bytes
  import opened Results

  const FRAME_MAGIC: seq<Byte> := [0x4E, 0x58, 0x46, 0x52]
  const FRAME_VERSION: Byte := 1
  const FRAME_HEADER_SIZE: nat := 28
  const CONTROL_PAYLOAD_MAX: nat := 65_536
  const CHUNK_PAYLOAD_MIN: nat := 41
  const CHUNK_PAYLOAD_MAX: nat := 4_194_304
  const KEEPALIVE_PAYLOAD_MAX: nat := 8

  datatype FrameKind = Control | Chunk | Keepalive

  datatype FrameHeader = FrameHeader(
    kind: FrameKind, flags: U16, sessionId: U32, streamId: U32, messageId: U64, payloadLen: U32)

  datatype FrameError =
    | IncompleteHeader(len: nat)
    | InvalidMagic
    | UnsupportedVersion(version: Byte)
    | UnknownKind(code: Byte)
    | PayloadTooLarge(kind: FrameKind, size: U32, max: nat)
    | ChunkPayloadTooSmall(size: U32)
    | KeepalivePayloadInvalid(size: U32)

  datatype Frame = Frame(header: FrameHeader, payload: seq<Byte>)

  function KindCode(kind: FrameKind): Byte {
    match kind
    case Control => 1
    case Chunk => 2
    case Keepalive => 3
  }

  function KindFromCode(code: Byte): Result<FrameKind, FrameError> {
    match code
    case 1 => Ok(Control)
    case 2 => Ok(Chunk)
    case 3 => Ok(Keepalive)
    case _ => Err(UnknownKind(code))
  }

  function ValidatePayloadLen(h: FrameHeader): Result<(), FrameError> {
    match h.kind
    case Control =>
      if h.payloadLen > CONTROL_PAYLOAD_MAX then Err(PayloadTooLarge(Control, h.payloadLen, CONTROL_PAYLOAD_MAX))
      else Ok(())
    case Chunk =>
      if h.payloadLen < CHUNK_PAYLOAD_MIN then Err(ChunkPayloadTooSmall(h.payloadLen))
      else if h.payloadLen > CHUNK_PAYLOAD_MAX then Err(PayloadTooLarge(Chunk, h.payloadLen, CHUNK_PAYLOAD_MAX))
      else Ok(())
    case Keepalive =>
      if h.payloadLen != 0 && h.payloadLen != KEEPALIVE_PAYLOAD_MAX then Err(KeepalivePayloadInvalid(h.payloadLen))
      else Ok(())
  }

  /** A `width`-byte big-endian field read from a buffer. */
  function Field(buf: seq<Byte>, at: nat, width: nat): (v: nat)
    requires at + width <= |buf|
    ensures v < Capacity(width)
  {
    FromBigEndian(buf[at..at + width])
  }

  function Parse(buf: seq<Byte>): Result<FrameHeader, FrameError> {
    if |buf| < FRAME_HEADER_SIZE then Err(IncompleteHeader(|buf|))
    else if buf[0..4] != FRAME_MAGIC then Err(InvalidMagic)
    else if buf[4] != FRAME_VERSION then Err(UnsupportedVersion(buf[4]))
    else
      var kind :- KindFromCode(buf[5]);
      FieldCapacities();
      var h := FrameHeader(kind, Field(buf, 6, 2), Field(buf, 8, 4), Field(buf, 12, 4),
                           Field(buf, 16, 8), Field(buf, 24, 4));
      var _ :- ValidatePayloadLen(h);
      Ok(h)
  }

  function Serialize(h: FrameHeader): (b: seq<Byte>)
    ensures |b| == FRAME_HEADER_SIZE
  {
    FRAME_MAGIC + [FRAME_VERSION] + [KindCode(h.kind)] + BigEndian(h.flags, 2) + BigEndian(h.sessionId, 4)
    + BigEndian(h.streamId, 4) + BigEndian(h.messageId, 8) + BigEndian(h.payloadLen, 4)
  }

  lemma HeaderLayout(magic: seq<Byte>, version: Byte, kind: Byte, flags: seq<Byte>, session: seq<Byte>, stream: seq<Byte>,
      id: seq<Byte>, length: seq<Byte>, b: seq<Byte>)
    requires |magic| == 4 && |flags| == 2 && |session| == 4 && |stream| == 4 && |id| == 8 && |length| == 4
    requires b == magic + [version] + [kind] + flags + session + stream + id + length
    ensures b[0..4] == magic && b[4] == version && b[5] == kind
    ensures b[6..8] == flags && b[8..12] == session && b[12..16] == stream && b[16..24] == id && b[24..28] == length
  {
  }

  /** The places of the fields inside a serialised header. */
  lemma SerializedFields(h: FrameHeader)
    ensures var b := Serialize(h);
            && b[0..4] == [0x4E, 0x58, 0x46, 0x52] && b[4] == 1
            && b[5] == (match h.kind case Control => 1 case Chunk => 2 case Keepalive => 3)
            && Field(b, 6, 2) == h.flags && Field(b, 8, 4) == h.sessionId && Field(b, 12, 4) == h.streamId
            && Field(b, 16, 8) == h.messageId && Field(b, 24, 4) == h.payloadLen
  {
    var b := Serialize(h);
    FieldCapacities();
    HeaderLayout(FRAME_MAGIC, FRAME_VERSION, KindCode(h.kind), BigEndian(h.flags, 2), BigEndian(h.sessionId, 4),
                 BigEndian(h.streamId, 4), BigEndian(h.messageId, 8), BigEndian(h.payloadLen, 4), b);
    BigEndianRoundTrip(h.flags, 2);
    BigEndianRoundTrip(h.sessionId, 4);
    BigEndianRoundTrip(h.streamId, 4);
    BigEndianRoundTrip(h.messageId, 8);
    BigEndianRoundTrip(h.payloadLen, 4);
  }

  /** At most 64 KiB for control, 41 bytes to 4 MiB for chunks, none or 8 bytes for keepalives. */
  predicate Legal(kind: FrameKind, length: nat) {
    match kind
    case Control => length <= 65_536
    case Chunk => 41 <= length <= 4_194_304
    case Keepalive => length == 0 || length == 8
  }

  /** What is wrong with a length that is not legal. */
  function LengthError(kind: FrameKind, length: U32): FrameError {
    match kind
    case Control => PayloadTooLarge(Control, length, 65_536)
    case Chunk => if length < 41 then ChunkPayloadTooSmall(length) else PayloadTooLarge(Chunk, length, 4_194_304)
    case Keepalive => KeepalivePayloadInvalid(length)
  }

  /** A header survives the wire exactly when its payload length is legal for its kind. */
  lemma HeaderRoundTrip(h: FrameHeader)
    ensures Parse(Serialize(h))
         == if Legal(h.kind, h.payloadLen) then Ok(h) else Err(LengthError(h.kind, h.payloadLen))
  {
    SerializedFields(h);
  }

  lemma HeaderPieces(b: seq<Byte>)
    requires |b| == FRAME_HEADER_SIZE
    ensures b == b[0..4] + [b[4]] + [b[5]] + b[6..8] + b[8..12] + b[12..16] + b[16..24] + b[24..28]
  {
  }

  /** The wire form of a header is unique: whatever 28 bytes parse are the serialisation of the result. */
  lemma HeaderIsCanonical(b: seq<Byte>)
    requires |b| == FRAME_HEADER_SIZE && Parse(b).Ok?
    ensures Serialize(Parse(b).value) == b
  {
    BigEndianReadBack(b[6..8]);
    BigEndianReadBack(b[8..12]);
    BigEndianReadBack(b[12..16]);
    BigEndianReadBack(b[16..24]);
    BigEndianReadBack(b[24..28]);
    HeaderPieces(b);
  }

  lemma ParseReadsHeaderOnly(buf: seq<Byte>, b: seq<Byte>)
    requires |b| == FRAME_HEADER_SIZE && b <= buf
    ensures Parse(buf) == Parse(b)
  {
    assert buf[0..4] == b[0..4] && buf[6..8] == b[6..8] && buf[8..12] == b[8..12] && buf[12..16] == b[12..16];
    assert buf[16..24] == b[16..24] && buf[24..28] == b[24..28];
  }

  /**
   * What parses is exactly a serialised header with a legal length, whatever follows it; and what is wrong with anything
   * else is told in the order of the bytes: too few, the magic, the version, the kind, the length.
   */
  lemma ParseIsExact(buf: seq<Byte>, h: FrameHeader)
    ensures Parse(buf) == Ok(h) <==> Serialize(h) <= buf && Legal(h.kind, h.payloadLen)
    ensures |buf| < 28 ==> Parse(buf) == Err(IncompleteHeader(|buf|))
    ensures |buf| >= 28 ==>
              && (buf[..4] != [0x4E, 0x58, 0x46, 0x52] ==> Parse(buf) == Err(InvalidMagic))
              && (buf[..4] == [0x4E, 0x58, 0x46, 0x52] && buf[4] != 1 ==> Parse(buf) == Err(UnsupportedVersion(buf[4])))
              && (buf[..4] == [0x4E, 0x58, 0x46, 0x52] && buf[4] == 1 && !(1 <= buf[5] <= 3) ==>
                    Parse(buf) == Err(UnknownKind(buf[5])))
    ensures Serialize(h) <= buf && !Legal(h.kind, h.payloadLen) ==> Parse(buf) == Err(LengthError(h.kind, h.payloadLen))
  {
    if |buf| >= 28 {
      var b := buf[..28];
      ParseReadsHeaderOnly(buf, b);
      HeaderRoundTrip(h);
      if Serialize(h) <= buf {
        assert b == Serialize(h);
      }
      if Parse(b).Ok? {
        HeaderIsCanonical(b);
      }
    }
  }

  // ----- The incremental decoder -----

  datatype Decoded = Incomplete | Malformed(error: FrameError) | Complete(frame: Frame, rest: seq<Byte>)

  /** What one call of the decoder makes of the buffered bytes. */
  function DecodeOne(src: seq<Byte>): (d: Decoded)
    ensures d.Complete? ==> |d.rest| < |src|
  {
    if |src| < FRAME_HEADER_SIZE then Incomplete
    else match Parse(src[..FRAME_HEADER_SIZE])
      case Err(e) => Malformed(e)
      case Ok(h) =>
        if |src| < FRAME_HEADER_SIZE + h.payloadLen then Incomplete
        else Complete(Frame(h, src[FRAME_HEADER_SIZE..FRAME_HEADER_SIZE + h.payloadLen]),
                      src[FRAME_HEADER_SIZE + h.payloadLen..])
  }

  function EncodeOne(f: Frame): seq<Byte> {
    Serialize(f.header) + f.payload
  }

  /** Frames decoded so far, the bytes still buffered, and the error that ended decoding, if any. */
  datatype Drained = Drained(frames: seq<Frame>, rest: seq<Byte>, failure: Option<FrameError>)

  function Prepend(frames: seq<Frame>, d: Drained): Drained {
    d.(frames := frames + d.frames)
  }

  /** Decoding until no complete frame is left. */
  function Drain(src: seq<Byte>): Drained
    decreases |src|
  {
    match DecodeOne(src)
    case Incomplete => Drained([], src, None)
    case Malformed(e) => Drained([], src, Some(e))
    case Complete(f, rest) => Prepend([f], Drain(rest))
  }

  lemma PrependTwice(xs: seq<Frame>, ys: seq<Frame>, d: Drained)
    ensures Prepend(xs, Prepend(ys, d)) == Prepend(xs + ys, d)
  {
    assert xs + (ys + d.frames) == (xs + ys) + d.frames;
  }

  /** The transport's codec, working on a buffer that reads extend and decoding consumes. */
  class NxfrCodec {
    var buffer: seq<Byte>

    constructor ()
      ensures buffer == []
    {
      buffer := [];
    }

    method Decode() returns (r: Result<Option<Frame>, FrameError>)
      modifies this
      ensures match DecodeOne(old(buffer))
              case Incomplete => r == Ok(None) && buffer == old(buffer)
              case Malformed(e) => r == Err(e) && buffer == old(buffer)
              case Complete(f, rest) => r == Ok(Some(f)) && buffer == rest
    {
      if |buffer| < FRAME_HEADER_SIZE {
        return Ok(None);
      }
      var parsed := Parse(buffer[..FRAME_HEADER_SIZE]);
      if parsed.Err? {
        return Err(parsed.error);
      }
      var header := parsed.value;
      if |buffer| < FRAME_HEADER_SIZE + header.payloadLen {
        return Ok(None);
      }
      buffer := buffer[FRAME_HEADER_SIZE..];
      var payload := buffer[..header.payloadLen];
      buffer := buffer[header.payloadLen..];
      assert buffer == old(buffer)[FRAME_HEADER_SIZE + header.payloadLen..];
      assert payload == old(buffer)[FRAME_HEADER_SIZE..FRAME_HEADER_SIZE + header.payloadLen];
      return Ok(Some(Frame(header, payload)));
    }

    method Encode(f: Frame)
      modifies this
      ensures buffer == old(buffer) + EncodeOne(f)
    {
      buffer := buffer + Serialize(f.header);
      buffer := buffer + f.payload;
      assert buffer == old(buffer) + EncodeOne(f);
    }

    /** One read of the framed stream: the bytes join the buffer, then frames are decoded until none is complete. */
    method Feed(bytes: seq<Byte>) returns (frames: seq<Frame>, failure: Option<FrameError>)
      modifies this
      ensures Drained(frames, buffer, failure) == Drain(old(buffer) + bytes)
    {
      buffer := buffer + bytes;
      frames, failure := [], None;
      ghost var start := buffer;
      while true
        invariant failure == None
        invariant Drain(start) == Prepend(frames, Drain(buffer))
        decreases |buffer|
      {
        var r := Decode();
        match r {
          case Err(e) => failure := Some(e); return;
          case Ok(None) => return;
          case Ok(Some(f)) =>
            PrependTwice(frames, [f], Drain(buffer));
            frames := frames + [f];
        }
      }
    }
  }

  /** The framed stream over a sequence of reads; it ends at the first error. */
  function FeedAll(src: seq<Byte>, pieces: seq<seq<Byte>>): Drained
    decreases |pieces|
  {
    if pieces == [] then Drained([], src, None)
    else
      var d := Drain(src + pieces[0]);
      if d.failure.Some? then d else Prepend(d.frames, FeedAll(d.rest, pieces[1..]))
  }

  /** Bytes that arrive later never change a verdict already reached. */
  lemma LaterBytesDoNotMatter(b: seq<Byte>, c: seq<Byte>)
    ensures match DecodeOne(b)
            case Incomplete => true
            case Malformed(e) => DecodeOne(b + c) == Malformed(e)
            case Complete(f, rest) => DecodeOne(b + c) == Complete(f, rest + c)
  {
    if |b| >= FRAME_HEADER_SIZE {
      assert (b + c)[..FRAME_HEADER_SIZE] == b[..FRAME_HEADER_SIZE];
      if DecodeOne(b).Complete? {
        var n := FRAME_HEADER_SIZE + DecodeOne(b).frame.header.payloadLen;
        assert (b + c)[n..] == b[n..] + c;
        assert (b + c)[FRAME_HEADER_SIZE..n] == b[FRAME_HEADER_SIZE..n];
      }
    }
  }

  lemma PrependNothing(d: Drained)
    ensures Prepend([], d) == d
  {
    assert [] + d.frames == d.frames;
  }

  /** Draining in two stages is draining at once. */
  lemma {:induction false} DrainInStages(b: seq<Byte>, c: seq<Byte>)
    ensures var d := Drain(b);
            if d.failure.Some? then Drain(b + c) == Drained(d.frames, d.rest + c, d.failure)
            else Drain(b + c) == Prepend(d.frames, Drain(d.rest + c))
    decreases |b|
  {
    LaterBytesDoNotMatter(b, c);
    var d := Drain(b);
    var step := DecodeOne(b);
    if step.Complete? {
      DrainInStages(step.rest, c);
      PrependTwice([step.frame], Drain(step.rest).frames, Drain(d.rest + c));
    } else {
      PrependNothing(Drain(b + c));
    }
  }

  lemma {:induction false} DrainLeavesIncomplete(src: seq<Byte>)
    ensures Drain(src).failure.None? ==> DecodeOne(Drain(src).rest).Incomplete?
    decreases |src|
  {
    if DecodeOne(src).Complete? {
      DrainLeavesIncomplete(DecodeOne(src).rest);
    }
  }

  /**
   * Framing does not depend on fragmentation: for every byte stream, well formed or not, and every split of it
   * into reads, the frames delivered and the error reported are those of the unsplit stream. What remains is the same
   * too, up to the reads that an error keeps from happening.
   */
  lemma {:induction false} SplitDoesNotMatter(src: seq<Byte>, pieces: seq<seq<Byte>>)
    requires DecodeOne(src).Incomplete?
    ensures var d, whole := FeedAll(src, pieces), Drain(src + Concat(pieces));
            && d.frames == whole.frames && d.failure == whole.failure
            && if d.failure.None? then d.rest == whole.rest else d.rest <= whole.rest
    decreases |pieces|
  {
    if pieces == [] {
      assert src + Concat(pieces) == src;
    } else {
      var d := Drain(src + pieces[0]);
      assert src + Concat(pieces) == (src + pieces[0]) + Concat(pieces[1..]);
      DrainInStages(src + pieces[0], Concat(pieces[1..]));
      if d.failure.None? {
        DrainLeavesIncomplete(src + pieces[0]);
        SplitDoesNotMatter(d.rest, pieces[1..]);
      }
    }
  }

  /** A frame whose header states its payload's length, which is legal. */
  predicate ValidFrame(f: Frame) {
    f.header.payloadLen == |f.payload| && Legal(f.header.kind, |f.payload|)
  }

  function EncodeAll(frames: seq<Frame>): seq<Byte> {
    if frames == [] then [] else EncodeOne(frames[0]) + EncodeAll(frames[1..])
  }

  lemma DecodeEncoded(f: Frame, more: seq<Byte>)
    requires ValidFrame(f)
    ensures DecodeOne(EncodeOne(f) + more) == Complete(f, more)
  {
    var src := EncodeOne(f) + more;
    assert src[..FRAME_HEADER_SIZE] == Serialize(f.header);
    HeaderRoundTrip(f.header);
    var n := FRAME_HEADER_SIZE + |f.payload|;
    assert src[FRAME_HEADER_SIZE..n] == f.payload;
    assert src[n..] == more;
  }

  /** The decoder takes off exactly the valid frames that the buffer starts with, and refuses exactly bad headers. */
  lemma DecodeIsExact(src: seq<Byte>, f: Frame, rest: seq<Byte>, e: FrameError)
    ensures DecodeOne(src) == Complete(f, rest) <==> ValidFrame(f) && src == EncodeOne(f) + rest
    ensures DecodeOne(src) == Malformed(e) <==> |src| >= 28 && Parse(src[..28]) == Err(e)
  {
    if ValidFrame(f) && src == EncodeOne(f) + rest {
      DecodeEncoded(f, rest);
    }
    if DecodeOne(src) == Complete(f, rest) {
      ParseIsExact(src[..28], f.header);
      var n := 28 + f.header.payloadLen;
      assert src == src[..28] + src[28..n] + src[n..];
    }
  }

  lemma {:induction false} DrainEncoded(frames: seq<Frame>)
    requires forall f :: f in frames ==> ValidFrame(f)
    ensures Drain(EncodeAll(frames)) == Drained(frames, [], None)
  {
    if frames != [] {
      DecodeEncoded(frames[0], EncodeAll(frames[1..]));
      DrainEncoded(frames[1..]);
      assert frames == [frames[0]] + frames[1..];
    }
  }

  /** Any valid frames, sent back to back and split anywhere, arrive in order with nothing left over. */
  lemma FramesSurviveAnySplit(frames: seq<Frame>, pieces: seq<seq<Byte>>)
    requires forall f :: f in frames ==> ValidFrame(f)
    requires Concat(pieces) == EncodeAll(frames)
    ensures FeedAll([], pieces) == Drained(frames, [], None)
  {
    SplitDoesNotMatter([], pieces);
    assert [] + Concat(pieces) == EncodeAll(frames);
    DrainEncoded(frames);
  }
}
