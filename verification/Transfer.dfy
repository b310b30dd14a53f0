/**
 * A transfer of one file between an honest sender and receiver, step by step: FIFO links, single disk operations,
 * crashes at any point, and reconnection through the resume journal.
 */
module Transfer {
  import opened Bytes
  import opened Results
  import opened Chunks
  import opened Sender
  import opened Storage
  import opened Receiver

  /** The file on the sender's side, the hash in use and the stream; offsets are 64-bit. */
  datatype Params = Params(file: seq<Byte>, sha: Sha, streamId: nat)

  predicate Fits(p: Params) {
    |p.file| < Capacity(8)
  }

  /** What the receiver is doing; `ops` are the disk operations still ahead of it. */
  datatype Phase =
    | Offline
    | Opening(ops: seq<DiskOp>, complete: bool)
    | Listening
    | Reacting(ops: seq<DiskOp>, replies: seq<Message>, next: Continuation)
    | Closing(ops: seq<DiskOp>, outcome: ReceiveOutcome)
    | Returned(outcome: ReceiveOutcome)
    | Done

  /**
   * The frames in transit are `sender.outbox[delivered..]`, the replies in transit `said[heard..]`; `crashes`
   * counts the interruptions so far.
   */
  datatype World = World(
    disk: Disk, phase: Phase, ranges: seq<Range>, sender: SenderState, rx: ReceiverState,
    delivered: nat, said: seq<Message>, heard: nat, crashes: nat)

  datatype Event = SenderMoves | SenderHears | ReceiverReads | DiskMoves | ReceiverMoves | Connects | Completes
                 | Interrupted(left: Disk)

  const FIRST_ID: nat := 1

  function Cfg(p: Params): Config {
    Config(p.streamId, |p.file|, p.sha(p.file), p.sha)
  }

  function JobOf(p: Params, w: World): Job {
    Job(p.file, w.ranges, p.sha, p.streamId)
  }

  function Pending(phase: Phase): seq<DiskOp> {
    match phase
    case Opening(ops, _) => ops
    case Reacting(ops, _, _) => ops
    case Closing(ops, _) => ops
    case _ => []
  }

  predicate InSession(w: World) {
    !w.phase.Offline? && !w.phase.Done?
  }

  /** The record that a session starts from: a journalled entry without progress is made afresh. */
  function SessionRecord(d: Disk): Record {
    match Load(d)
    case Ok(Some(Some(e))) => if e.receivedBytes > 0 then Some(e) else Some(Entry(0, []))
    case _ => Some(Entry(0, []))
  }

  /** The ranges that RESUME_STATUS reports, none for a fresh transfer. */
  function SkipRanges(d: Disk): seq<Range> {
    match Load(d)
    case Ok(Some(Some(e))) => e.receivedRanges
    case _ => []
  }

  /** A session starts: the state is saved, and the `.part` opened, created, or committed if already complete. */
  function Connect(p: Params, w: World): World
    requires w.phase.Offline?
  {
    var record := SessionRecord(w.disk);
    var complete := AlreadyComplete(Cfg(p), w.disk, record);
    var opening := if complete then [CommitPart] else OpenOps(w.disk, record);
    var ranges := SkipRanges(w.disk);
    World(w.disk, Opening(SaveOps(record) + opening, complete), ranges,
          StartSender(Job(p.file, ranges, p.sha, p.streamId), FIRST_ID),
          Opened(w.disk, record), 0, [], 0, w.crashes)
  }

  predicate Enabled(p: Params, w: World, e: Event) {
    match e
    case SenderMoves => InSession(w) && (Mode(JobOf(p, w), w.sender).Skipping? || Mode(JobOf(p, w), w.sender).Sending?)
    case SenderHears =>
      InSession(w) && Mode(JobOf(p, w), w.sender).Awaiting? && w.heard < |w.said| && !w.said[w.heard].Undecodable?
    case ReceiverReads => w.phase.Listening? && w.delivered < |w.sender.outbox|
    case DiskMoves => Pending(w.phase) != []
    case ReceiverMoves => (w.phase.Opening? || w.phase.Reacting? || w.phase.Closing?) && Pending(w.phase) == []
    case Connects => w.phase.Offline? && Load(w.disk).Ok?
    case Completes => w.phase == Returned(Committed) && Mode(JobOf(p, w), w.sender).Finished?
    case Interrupted(left) => !w.phase.Done? && CrashLeaves(w.disk, left)
  }

  function Step(p: Params, w: World, e: Event): World
    requires Enabled(p, w, e)
  {
    match e
    case SenderMoves =>
      var job := JobOf(p, w);
      w.(sender := if Mode(job, w.sender).Skipping? then SkipStep(job, w.sender) else SendStep(job, w.sender))
    case SenderHears =>
      w.(sender := AwaitStep(JobOf(p, w), w.sender, ControlFrame(w.said[w.heard])).value, heard := w.heard + 1)
    case ReceiverReads =>
      var a := React(Cfg(p), w.rx, w.sender.outbox[w.delivered]);
      w.(rx := a.state, delivered := w.delivered + 1, phase := Reacting(a.ops, a.replies, a.next))
    case DiskMoves =>
      var ops := Pending(w.phase);
      w.(disk := Apply(w.disk, ops[0]),
         phase := match w.phase
                  case Opening(_, complete) => Opening(ops[1..], complete)
                  case Reacting(_, replies, next) => Reacting(ops[1..], replies, next)
                  case Closing(_, outcome) => Closing(ops[1..], outcome))
    case ReceiverMoves =>
      (match w.phase
       case Opening(_, complete) => w.(phase := if complete then Returned(Committed) else Listening)
       case Reacting(_, replies, next) =>
         var c := Conclude(Cfg(p), w.rx, next);
         w.(said := w.said + replies, phase := if next.Continue? then Listening else Closing(c.ops, c.outcome))
       case Closing(_, outcome) => w.(phase := Returned(outcome)))
    case Connects => Connect(p, w)
    case Completes => w.(disk := Apply(w.disk, RemoveJournal), phase := Done)
    case Interrupted(left) => w.(disk := left, phase := Offline, crashes := w.crashes + 1)
  }

  /** A run: events that are not enabled are passed over. */
  function Execute(p: Params, w: World, events: seq<Event>): World
    decreases |events|
  {
    if events == [] then w
    else Execute(p, if Enabled(p, w, events[0]) then Step(p, w, events[0]) else w, events[1..])
  }

  lemma {:induction false} ExecuteAppend(p: Params, w: World, xs: seq<Event>, ys: seq<Event>)
    ensures Execute(p, w, xs + ys) == Execute(p, Execute(p, w, xs), ys)
    decreases |xs|
  {
    if xs == [] {
      assert xs + ys == ys;
    } else {
      assert (xs + ys)[1..] == xs[1..] + ys;
      ExecuteAppend(p, if Enabled(p, w, xs[0]) then Step(p, w, xs[0]) else w, xs[1..], ys);
    }
  }

  function InitialWorld(): World {
    World(Disk(None, 0, None, None, false, []), Offline, [], SenderState(0, 0, 0, 0, 0, FIRST_ID, []),
          ReceiverState(0, [], None), 0, [], 0, 0)
  }

  // ----- The frames of an honest sender -----

  function Skips(n: nat): seq<Range> {
    if n == 0 then [] else [(0, n)]
  }

  /** `n` bytes end between chunks. */
  predicate Aligned(p: Params, n: nat) {
    n == ChunkStart(|p.file|, ChunkCount(n))
  }

  function FrameAt(p: Params, ranges: seq<Range>, k: nat, id: nat): LinkFrame {
    ChunkFrameFor(Job(p.file, ranges, p.sha, p.streamId), ChunkStart(|p.file|, k), ChunkStart(|p.file|, k + 1), id)
  }

  function AckFor(p: Params, k: nat, id: nat): Message {
    ChunkAck(p.streamId, id, ChunkStart(|p.file|, k), ChunkLength(|p.file|, k))
  }

  /** With the first `n` bytes skipped, the frames are the chunks from there on. */
  lemma {:induction false} PlanAfterSkip(p: Params, n: nat, k: nat)
    requires Aligned(p, n) && k <= ChunkCount(|p.file|)
    ensures var plan, k0 := Plan(Job(p.file, Skips(n), p.sha, p.streamId), FIRST_ID, k), ChunkCount(n);
            && |plan| == (if k <= k0 then 0 else k - k0)
            && forall i :: 0 <= i < |plan| ==> plan[i] == FrameAt(p, Skips(n), k0 + i, FIRST_ID + i)
  {
    if k > 0 {
      PlanAfterSkip(p, n, k - 1);
      var start, len := ChunkStart(|p.file|, k - 1), ChunkLength(|p.file|, k - 1);
      if n > 0 {
        assert Skips(n)[0] == (0, n);
        assert Covered(Skips(n), start, len) <==> start + len <= n;
      }
      assert Covered(Skips(n), start, len) <==> k <= ChunkCount(n);
    }
  }

  /** The three answers that chunk `k` of the file can get. */
  function HonestAnswer(p: Params, rx: ReceiverState, k: nat, id: nat): Reaction {
    var from, to, size := ChunkStart(|p.file|, k), ChunkStart(|p.file|, k + 1), |p.file|;
    if from == rx.received then
      Reaction(ReceiverState(to, rx.hashed + ChunkData(p.file, k), Progress(rx.record, to)),
               [AppendPart(ChunkData(p.file, k)), SyncPart] + SaveOps(Progress(rx.record, to)),
               [AckFor(p, k, id)], if to == size then Verify else Continue)
    else if to <= rx.received then
      Reaction(rx, [], [AckFor(p, k, id)], if to == size || rx.received == size then Verify else Continue)
    else Reaction(rx, [], [ErrorReply(InvalidFrame)], Abort(false))
  }

  /** The receiver gives them. */
  lemma ReactToHonestChunk(p: Params, rx: ReceiverState, ranges: seq<Range>, k: nat, id: nat)
    requires Fits(p) && k < ChunkCount(|p.file|) && rx.received <= |p.file|
    ensures React(Cfg(p), rx, FrameAt(p, ranges, k, id)) == HonestAnswer(p, rx, k, id)
  {
    var f := FrameAt(p, ranges, k, id);
    var from, data := ChunkStart(|p.file|, k), ChunkData(p.file, k);
    FieldCapacities();
    var c := ChunkPayload(from, p.sha(data), data);
    assert f.payload == SerializeChunk(c);
    ChunkRoundTrip(c);
  }
}
