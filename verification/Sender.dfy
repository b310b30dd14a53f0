/** The sending loops: chunking, the in-flight window, skip ranges and the final drain of acknowledgements. */
module Sender {
  import opened Bytes
  import opened Results
  import opened Chunks

  const MAX_IN_FLIGHT: nat := 8

  datatype ErrorCode = ChecksumMismatch | InvalidFrame

  /** The control messages that the transfer loops tell apart. */
  datatype Message =
    | ChunkAck(streamId: nat, messageId: nat, offset: nat, length: nat)
    | ErrorReply(code: ErrorCode)
    | TransferCancel
    | SessionClose
    | OtherMessage
    | Undecodable

  datatype LinkFrame =
    | ChunkFrame(streamId: nat, messageId: nat, last: bool, payload: seq<Byte>)
    | ControlFrame(message: Message)
    | KeepaliveFrame

  /** A range `(offset, length)` that the peer already holds. */
  type Range = (nat, nat)

  /** What a sender sends: the file, the ranges it skips, the hash in use, and its stream. */
  datatype Job = Job(file: seq<Byte>, ranges: seq<Range>, sha: Sha, streamId: nat)

  datatype SenderState = SenderState(
    offset: nat, inFlight: nat, acked: nat, sent: nat, skipped: nat, nextId: nat, outbox: seq<LinkFrame>)

  datatype SenderMode = Skipping | Sending | Awaiting | Finished

  datatype SendOutcome = SendComplete | ConnectionLost | BadControl

  datatype SenderRun = SenderRun(outcome: SendOutcome, state: SenderState)

  /** The chunk lies inside one of the ranges. */
  predicate Covered(ranges: seq<Range>, offset: nat, length: nat) {
    exists r <- ranges :: offset >= r.0 && offset + length <= r.0 + r.1
  }

  function RangeTotal(ranges: seq<Range>): nat {
    if ranges == [] then 0 else ranges[0].1 + RangeTotal(ranges[1..])
  }

  /** The end of the chunk that starts at `offset`. */
  function EndOf(file: seq<Byte>, offset: nat): (end: nat)
    requires offset < |file|
    ensures offset < end <= |file|
  {
    if offset + CHUNK_DATA_SIZE <= |file| then offset + CHUNK_DATA_SIZE else |file|
  }

  /** What the sender does next; it reads a frame only while awaiting. */
  function Mode(job: Job, s: SenderState): SenderMode {
    if s.offset < |job.file| then
      if Covered(job.ranges, s.offset, EndOf(job.file, s.offset) - s.offset) then Skipping
      else if s.inFlight >= MAX_IN_FLIGHT then Awaiting
      else Sending
    else if s.inFlight > 0 then Awaiting
    else Finished
  }

  /** The frame that carries the file's bytes from `from` to `to`. */
  function ChunkFrameFor(job: Job, from: nat, to: nat, id: nat): LinkFrame
    requires from <= to <= |job.file|
  {
    var data := job.file[from..to];
    ChunkFrame(job.streamId, id, to == |job.file|, BigEndian(from, 8) + job.sha(data) + data)
  }

  function SkipStep(job: Job, s: SenderState): SenderState
    requires Mode(job, s).Skipping?
  {
    s.(offset := EndOf(job.file, s.offset), skipped := s.skipped + 1)
  }

  function SendStep(job: Job, s: SenderState): SenderState
    requires Mode(job, s).Sending?
  {
    var end := EndOf(job.file, s.offset);
    s.(offset := end, inFlight := s.inFlight + 1, sent := s.sent + 1, nextId := s.nextId + 1,
       outbox := s.outbox + [ChunkFrameFor(job, s.offset, end, s.nextId)])
  }

  /** Reading one frame: only an acknowledgement changes anything, and an undecodable control frame is fatal. */
  function AwaitStep(job: Job, s: SenderState, f: LinkFrame): Option<SenderState>
    requires Mode(job, s).Awaiting?
  {
    match f
    case ControlFrame(Undecodable) => None
    case ControlFrame(ChunkAck(_, _, _, length)) => Some(s.(acked := s.acked + length, inFlight := s.inFlight - 1))
    case _ => Some(s)
  }

  /** The whole run of a sender against the frames that its peer sends. */
  function Run(job: Job, s: SenderState, inbox: seq<LinkFrame>): SenderRun
    decreases if s.offset < |job.file| then |job.file| - s.offset else 0, |inbox|
  {
    match Mode(job, s)
    case Skipping => Run(job, SkipStep(job, s), inbox)
    case Sending => Run(job, SendStep(job, s), inbox)
    case Finished => SenderRun(SendComplete, s)
    case Awaiting =>
      if inbox == [] then SenderRun(ConnectionLost, s)
      else match AwaitStep(job, s, inbox[0])
        case None => SenderRun(BadControl, s)
        case Some(s') => Run(job, s', inbox[1..])
  }

  function StartSender(job: Job, nextId: nat): SenderState {
    SenderState(0, 0, RangeTotal(job.ranges), 0, 0, nextId, [])
  }

  lemma RunSkips(job: Job, s: SenderState, inbox: seq<LinkFrame>, end: nat, next: SenderState)
    requires s.offset < |job.file| && end == EndOf(job.file, s.offset) && Covered(job.ranges, s.offset, end - s.offset)
    requires next == s.(offset := end, skipped := s.skipped + 1)
    ensures Run(job, s, inbox) == Run(job, next, inbox)
  {
  }

  lemma RunSends(job: Job, s: SenderState, inbox: seq<LinkFrame>, end: nat, next: SenderState)
    requires s.offset < |job.file| && end == EndOf(job.file, s.offset) && !Covered(job.ranges, s.offset, end - s.offset)
    requires s.inFlight < MAX_IN_FLIGHT
    requires next == SenderState(end, s.inFlight + 1, s.acked, s.sent + 1, s.skipped, s.nextId + 1,
                                 s.outbox + [ChunkFrameFor(job, s.offset, end, s.nextId)])
    ensures Run(job, s, inbox) == Run(job, next, inbox)
  {
  }

  /**
   * The loop that reads frames while more than `limit` chunks are unacknowledged: with `limit` 7 it enforces the
   * window, with `limit` 0 it drains the last acknowledgements.
   */
  method ReadAcks(job: Job, s: SenderState, inbox: seq<LinkFrame>, start: nat, limit: nat)
    returns (failure: Option<SendOutcome>, inFlight: nat, acked: nat, pos: nat)
    requires start <= |inbox|
    requires s.offset < |job.file| ==> !Covered(job.ranges, s.offset, EndOf(job.file, s.offset) - s.offset)
    requires limit == if s.offset < |job.file| then MAX_IN_FLIGHT - 1 else 0
    ensures start <= pos <= |inbox| && inFlight <= s.inFlight
    ensures var s' := s.(inFlight := inFlight, acked := acked);
            match failure
            case None => inFlight <= limit && Run(job, s', inbox[pos..]) == Run(job, s, inbox[start..])
            case Some(outcome) => Run(job, s, inbox[start..]) == SenderRun(outcome, s')
  {
    inFlight, acked, pos := s.inFlight, s.acked, start;
    while inFlight > limit
      invariant start <= pos <= |inbox| && inFlight <= s.inFlight
      invariant var s' := s.(inFlight := inFlight, acked := acked);
                && Run(job, s', inbox[pos..]) == Run(job, s, inbox[start..])
                && (inFlight > limit ==> Mode(job, s').Awaiting?)
      decreases |inbox| - pos
    {
      if pos == |inbox| {
        failure := Some(ConnectionLost);
        return;
      }
      var f := inbox[pos];
      if f.ControlFrame? && f.message.Undecodable? {
        failure := Some(BadControl);
        return;
      }
      assert inbox[pos..][1..] == inbox[pos + 1..];
      pos := pos + 1;
      if f.ControlFrame? && f.message.ChunkAck? {
        acked, inFlight := acked + f.message.length, inFlight - 1;
      }
    }
    failure := None;
  }

  /** `send_file`: the loop for a fresh transfer. */
  method SendFile(job: Job, inbox: seq<LinkFrame>, nextId: nat)
    returns (outcome: SendOutcome, acked: nat, outbox: seq<LinkFrame>)
    requires job.ranges == []
    ensures var r := Run(job, StartSender(job, nextId), inbox);
            outcome == r.outcome && acked == r.state.acked && outbox == r.state.outbox
  {
    var offset: nat, inFlight: nat, pos: nat, id, failure := 0, 0, 0, nextId, None;
    acked, outbox := 0, [];
    var s := StartSender(job, nextId);
    ghost var spec := Run(job, s, inbox);
    assert inbox[0..] == inbox;
    while offset < |job.file|
      invariant pos <= |inbox| && inFlight <= MAX_IN_FLIGHT
      invariant s == SenderState(offset, inFlight, acked, s.sent, 0, id, outbox) && Run(job, s, inbox[pos..]) == spec
    {
      failure, inFlight, acked, pos := ReadAcks(job, s, inbox, pos, MAX_IN_FLIGHT - 1);
      if failure.Some? {
        return failure.value, acked, outbox;
      }
      var end := if offset + CHUNK_DATA_SIZE <= |job.file| then offset + CHUNK_DATA_SIZE else |job.file|;
      var frame := ChunkFrameFor(job, offset, end, id);
      s := s.(inFlight := inFlight, acked := acked);
      var next := SenderState(end, inFlight + 1, acked, s.sent + 1, 0, id + 1, outbox + [frame]);
      RunSends(job, s, inbox[pos..], end, next);
      outbox := outbox + [frame];
      inFlight, offset, id, s := inFlight + 1, end, id + 1, next;
    }
    failure, inFlight, acked, pos := ReadAcks(job, s, inbox, pos, 0);
    outcome := if failure.Some? then failure.value else SendComplete;
  }

  /** `send_file_resume`: the loop that skips the ranges already received. */
  method SendFileResume(job: Job, inbox: seq<LinkFrame>, nextId: nat)
    returns (outcome: SendOutcome, acked: nat, chunksSent: nat, chunksSkipped: nat, outbox: seq<LinkFrame>)
    ensures Run(job, StartSender(job, nextId), inbox).outcome == outcome
    ensures var s := Run(job, StartSender(job, nextId), inbox).state;
            acked == s.acked && outbox == s.outbox && chunksSent == s.sent && chunksSkipped == s.skipped
  {
    var offset: nat, inFlight: nat, pos: nat, id, failure := 0, 0, 0, nextId, None;
    acked, chunksSent, chunksSkipped, outbox := RangeTotal(job.ranges), 0, 0, [];
    var s := StartSender(job, nextId);
    ghost var spec := Run(job, s, inbox);
    assert inbox[0..] == inbox;
    while offset < |job.file|
      invariant pos <= |inbox| && inFlight <= MAX_IN_FLIGHT
      invariant s == SenderState(offset, inFlight, acked, chunksSent, chunksSkipped, id, outbox)
      invariant Run(job, s, inbox[pos..]) == spec
    {
      var end := if offset + CHUNK_DATA_SIZE <= |job.file| then offset + CHUNK_DATA_SIZE else |job.file|;
      if Covered(job.ranges, offset, end - offset) {
        var next := s.(offset := end, skipped := chunksSkipped + 1);
        RunSkips(job, s, inbox[pos..], end, next);
        chunksSkipped, offset, s := chunksSkipped + 1, end, next;
        continue;
      }
      failure, inFlight, acked, pos := ReadAcks(job, s, inbox, pos, MAX_IN_FLIGHT - 1);
      if failure.Some? {
        outcome := failure.value;
        return;
      }
      var frame := ChunkFrameFor(job, offset, end, id);
      s := s.(inFlight := inFlight, acked := acked);
      var next := SenderState(end, inFlight + 1, acked, chunksSent + 1, chunksSkipped, id + 1, outbox + [frame]);
      RunSends(job, s, inbox[pos..], end, next);
      outbox := outbox + [frame];
      inFlight, chunksSent, offset, id, s := inFlight + 1, chunksSent + 1, end, id + 1, next;
    }
    failure, inFlight, acked, pos := ReadAcks(job, s, inbox, pos, 0);
    outcome := if failure.Some? then failure.value else SendComplete;
  }

  // ----- What a sender does, whatever its peer sends -----

  /** The frames for the uncovered ones among the first `k` chunks, numbered from `id`. */
  function Plan(job: Job, id: nat, k: nat): seq<LinkFrame> {
    if k == 0 then []
    else
      var before := Plan(job, id, k - 1);
      var size := |job.file|;
      if Covered(job.ranges, ChunkStart(size, k - 1), ChunkLength(size, k - 1)) then before
      else before + [ChunkFrameFor(job, ChunkStart(size, k - 1), ChunkStart(size, k), id + |before|)]
  }

  /** The sender has handled the first `sent + skipped` chunks, in order, and holds the window. */
  predicate OnPlan(job: Job, id: nat, s: SenderState) {
    var k := s.sent + s.skipped;
    && k <= ChunkCount(|job.file|)
    && s.offset == ChunkStart(|job.file|, k)
    && s.outbox == Plan(job, id, k)
    && s.nextId == id + |s.outbox|
    && |s.outbox| == s.sent
    && s.inFlight <= s.sent
    && s.inFlight <= MAX_IN_FLIGHT
  }

  /** The number of acknowledgements among frames, and the bytes they acknowledge. */
  function Acks(frames: seq<LinkFrame>): nat {
    if frames == [] then 0
    else (if frames[0].ControlFrame? && frames[0].message.ChunkAck? then 1 else 0) + Acks(frames[1..])
  }

  function AckedBytes(frames: seq<LinkFrame>): nat {
    if frames == [] then 0
    else (if frames[0].ControlFrame? && frames[0].message.ChunkAck? then frames[0].message.length else 0)
         + AckedBytes(frames[1..])
  }

  /** Between chunks, the loop's arithmetic agrees with the chunk indices. */
  lemma NextChunk(file: seq<Byte>, k: nat)
    requires ChunkStart(|file|, k) < |file|
    ensures EndOf(file, ChunkStart(|file|, k)) == ChunkStart(|file|, k + 1)
  {
  }

  lemma SkipStepKeepsPlan(job: Job, id: nat, s: SenderState)
    requires OnPlan(job, id, s) && Mode(job, s).Skipping?
    ensures OnPlan(job, id, SkipStep(job, s))
  {
    var k := s.sent + s.skipped;
    NextChunk(job.file, k);
    assert Plan(job, id, k + 1) == Plan(job, id, k);
  }

  lemma SendStepKeepsPlan(job: Job, id: nat, s: SenderState)
    requires OnPlan(job, id, s) && Mode(job, s).Sending?
    ensures OnPlan(job, id, SendStep(job, s))
  {
    var k := s.sent + s.skipped;
    NextChunk(job.file, k);
    var f := ChunkFrameFor(job, ChunkStart(|job.file|, k), ChunkStart(|job.file|, k + 1), s.nextId);
    assert Plan(job, id, k + 1) == Plan(job, id, k) + [f];
  }

  /**
   * Against any peer whatever, the frames sent are exactly the uncovered chunks, in file order and numbered in sequence;
   * at most eight of them are unacknowledged, and the loop ends well only with the file exhausted and nothing
   * unacknowledged.
   */
  lemma {:induction false} RunStaysOnPlan(job: Job, id: nat, s: SenderState, inbox: seq<LinkFrame>)
    requires OnPlan(job, id, s)
    ensures var r := Run(job, s, inbox);
            && OnPlan(job, id, r.state)
            && (r.outcome.SendComplete? ==>
                  r.state.sent + r.state.skipped == ChunkCount(|job.file|) && r.state.inFlight == 0)
    decreases if s.offset < |job.file| then |job.file| - s.offset else 0, |inbox|
  {
    match Mode(job, s)
    case Skipping => SkipStepKeepsPlan(job, id, s); RunStaysOnPlan(job, id, SkipStep(job, s), inbox);
    case Sending => SendStepKeepsPlan(job, id, s); RunStaysOnPlan(job, id, SendStep(job, s), inbox);
    case Finished =>
    case Awaiting =>
      if inbox != [] && AwaitStep(job, s, inbox[0]).Some? {
        RunStaysOnPlan(job, id, AwaitStep(job, s, inbox[0]).value, inbox[1..]);
      }
  }

  /** Between two states `frames` were read: each acknowledgement frees one place in the window and adds its bytes. */
  predicate Accounted(s: SenderState, s': SenderState, frames: seq<LinkFrame>) {
    && s'.inFlight == s.inFlight + (s'.sent - s.sent) - Acks(frames)
    && s'.acked == s.acked + AckedBytes(frames)
  }

  lemma AwaitAccounts(job: Job, s: SenderState, f: LinkFrame, s1: SenderState, s': SenderState, rest: seq<LinkFrame>)
    requires Mode(job, s).Awaiting? && AwaitStep(job, s, f) == Some(s1) && Accounted(s1, s', rest)
    ensures Accounted(s, s', [f] + rest)
  {
    assert ([f] + rest)[1..] == rest;
  }

  /** What ends the loop: the file and its acknowledgements, the link, or a frame that does not decode. */
  predicate EndsAfter(r: SenderRun, inbox: seq<LinkFrame>, read: nat) {
    match r.outcome
    case SendComplete => r.state.inFlight == 0
    case ConnectionLost => read == |inbox|
    case BadControl => read < |inbox| && inbox[read] == ControlFrame(Undecodable)
  }

  /**
   * The sender's counts are exact for the frames it `read`: nothing but acknowledgements moves them, so at a good end as
   * many acknowledgements have been read as chunks were sent, and the acknowledged bytes are the ones they name.
   */
  lemma {:induction false} CountsAreExact(job: Job, s: SenderState, inbox: seq<LinkFrame>) returns (read: nat)
    ensures read <= |inbox| && Accounted(s, Run(job, s, inbox).state, inbox[..read])
    ensures EndsAfter(Run(job, s, inbox), inbox, read)
    decreases if s.offset < |job.file| then |job.file| - s.offset else 0, |inbox|
  {
    read := 0;
    match Mode(job, s)
    case Skipping => read := CountsAreExact(job, SkipStep(job, s), inbox);
    case Sending => read := CountsAreExact(job, SendStep(job, s), inbox);
    case Finished =>
    case Awaiting =>
      if inbox != [] && AwaitStep(job, s, inbox[0]).Some? {
        var s1 := AwaitStep(job, s, inbox[0]).value;
        var more := CountsAreExact(job, s1, inbox[1..]);
        read := more + 1;
        assert inbox[..read] == [inbox[0]] + inbox[1..][..more];
        AwaitAccounts(job, s, inbox[0], s1, Run(job, s1, inbox[1..]).state, inbox[1..][..more]);
      }
  }
}
