/** Payloads as they travel: control messages as bytes, and why the peer's length check lets every sent frame through. */
module Payloads {
  import opened Bytes
  import opened Results
  import opened Cbor
  import Messages
  import Codec
  import CodecRoundTrip
  import Framing
  import Chunks
  import Sender

  /** CBOR serialisation and parsing; the model only relies on their being inverse. */
  type Serialiser = Value -> seq<Byte>
  type Parser = seq<Byte> -> Option<Value>

  ghost function EncodeControl(m: Messages.ControlMessage, serialise: Serialiser): Result<seq<Byte>, CodecError> {
    var v :- Codec.Encode(m);
    if |serialise(v)| > Framing.CONTROL_PAYLOAD_MAX then Err(EncodedTooLarge) else Ok(serialise(v))
  }

  function DecodeControl(payload: seq<Byte>, parse: Parser): Result<Messages.ControlMessage, CodecError> {
    match parse(payload)
    case None => Err(CborDecode)
    case Some(v) => Codec.Decode(v)
  }

  /** The payload's length is legal and fits its header field, so that a peer parses the header that announces it. */
  predicate LengthAccepted(kind: Framing.FrameKind, payload: seq<Byte>) {
    |payload| < 0x1_0000_0000 && Framing.Legal(kind, |payload|)
  }

  /** A canonical message that is encoded at all arrives as the same message in a frame of legal length. */
  lemma ControlRoundTrip(m: Messages.ControlMessage, serialise: Serialiser, parse: Parser)
    requires (forall v :: parse(serialise(v)) == Some(v)) && EncodeControl(m, serialise).Ok?
    ensures LengthAccepted(Framing.Control, EncodeControl(m, serialise).value)
    ensures DecodeControl(EncodeControl(m, serialise).value, parse) == Ok(m) <==> Messages.Canonical(m)
  {
    CodecRoundTrip.RoundTrip(m);
  }

  predicate PeerAccepts(f: Sender.LinkFrame) {
    f.ChunkFrame? ==> LengthAccepted(Framing.Chunk, f.payload) && Chunks.ParseChunk(f.payload).Some?
  }

  /** Whatever the peer answers, every frame that a sender puts on the wire is accepted by the peer's decoder. */
  lemma {:induction false} SentFramesAreAccepted(job: Sender.Job, s: Sender.SenderState, inbox: seq<Sender.LinkFrame>)
    requires forall f <- s.outbox :: PeerAccepts(f)
    ensures forall f <- Sender.Run(job, s, inbox).state.outbox :: PeerAccepts(f)
    decreases if s.offset < |job.file| then |job.file| - s.offset else 0, |inbox|
  {
    match Sender.Mode(job, s) {
      case Skipping => SentFramesAreAccepted(job, Sender.SkipStep(job, s), inbox);
      case Sending => SentFramesAreAccepted(job, Sender.SendStep(job, s), inbox);
      case Finished =>
      case Awaiting =>
        if inbox != [] {
          var next := Sender.AwaitStep(job, s, inbox[0]);
          if next.Some? {
            SentFramesAreAccepted(job, next.value, inbox[1..]);
          }
        }
    }
  }
}
