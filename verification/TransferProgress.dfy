/** Sessions that run without interruption: the window, conservation and termination. */
module TransferProgress {
  import opened Results
  import opened Chunks
  import opened Sender
  import opened Storage
  import opened Receiver
  import opened Transfer
  import opened TransferSafety

  /** The events of a session that nothing interrupts. */
  predicate Internal(e: Event) {
    e.SenderMoves? || e.SenderHears? || e.ReceiverReads? || e.DiskMoves? || e.ReceiverMoves?
  }

  /** No internal event is possible any more. */
  predicate Stuck(p: Params, w: World) {
    && !Enabled(p, w, SenderMoves) && !Enabled(p, w, SenderHears) && !Enabled(p, w, ReceiverReads)
    && !Enabled(p, w, DiskMoves) && !Enabled(p, w, ReceiverMoves)
  }

  /** Both loops have returned successfully. */
  predicate BothDone(p: Params, w: World) {
    w.phase == Returned(Committed) && Mode(JobOf(p, w), w.sender).Finished?
  }

  // ----- Termination -----

  function PhaseWeight(phase: Phase): nat {
    match phase
    case Opening(ops, _) => 6 + |ops|
    case Listening => 5
    case Reacting(ops, _, _) => 10 + |ops|
    case Closing(ops, _) => 1 + |ops|
    case _ => 0
  }

  /** Built from the unsent chunks, the queued chunks, the receiver's pending work and the queued replies. */
  function Measure(p: Params, w: World): int {
    20 * (ChunkCount(|p.file|) - (w.sender.sent + w.sender.skipped)) + 19 * (|w.sender.outbox| - w.delivered)
    + PhaseWeight(w.phase) + (|w.said| - w.heard)
  }

  lemma ReactionIsSmall(cfg: Config, rx: ReceiverState, f: LinkFrame)
    ensures |React(cfg, rx, f).ops| <= 6 && |React(cfg, rx, f).replies| <= 1
  {
  }

  /** Every internal event decreases the measure, whatever the state. */
  lemma InternalEventsDecreaseMeasure(p: Params, w: World, e: Event, w': World)
    requires Internal(e) && Enabled(p, w, e) && w' == Step(p, w, e)
    requires w.phase.Reacting? ==> |w.phase.replies| <= 1
    ensures Measure(p, w') < Measure(p, w)
    ensures w'.phase.Reacting? ==> |w'.phase.replies| <= 1
  {
    if e.ReceiverReads? {
      ReactionIsSmall(Cfg(p), w.rx, w.sender.outbox[w.delivered]);
    }
  }

  /** What the measure counts is never negative. */
  predicate Counted(p: Params, w: World) {
    && OnPlan(JobOf(p, w), FIRST_ID, w.sender)
    && w.delivered <= |w.sender.outbox| && w.heard <= |w.said|
    && (w.phase.Reacting? ==> |w.phase.replies| <= 1)
  }

  lemma MeasureIsNatural(p: Params, w: World)
    requires Counted(p, w)
    ensures Measure(p, w) >= 0
  {
  }

  lemma ConnectIsCounted(p: Params, w: World)
    requires w.phase.Offline?
    ensures Counted(p, Connect(p, w)) && Measure(p, Connect(p, w)) <= 20 * ChunkCount(|p.file|) + 11
  {
  }

  lemma StepKeepsCounted(p: Params, w: World, e: Event, w': World)
    requires Counted(p, w) && Internal(e) && Enabled(p, w, e) && w' == Step(p, w, e)
    ensures Counted(p, w') && Measure(p, w') < Measure(p, w)
  {
    InternalEventsDecreaseMeasure(p, w, e, w');
    assert JobOf(p, w') == JobOf(p, w);
    if e.SenderMoves? || e.SenderHears? {
      SenderStaysOnPlan(p, w, e, w'.sender);
    }
  }

  /** The number of events that had an effect. */
  function Effective(p: Params, w: World, events: seq<Event>): nat
    decreases |events|
  {
    if events == [] then 0
    else if Enabled(p, w, events[0]) then 1 + Effective(p, Step(p, w, events[0]), events[1..])
    else Effective(p, w, events[1..])
  }

  lemma {:induction false} MeasureBoundsEvents(p: Params, w: World, events: seq<Event>)
    requires Counted(p, w) && forall e <- events :: Internal(e)
    ensures Counted(p, Execute(p, w, events)) && Effective(p, w, events) <= Measure(p, w)
    decreases |events|
  {
    MeasureIsNatural(p, w);
    if events != [] {
      if Enabled(p, w, events[0]) {
        StepKeepsCounted(p, w, events[0], Step(p, w, events[0]));
        MeasureBoundsEvents(p, Step(p, w, events[0]), events[1..]);
      } else {
        MeasureBoundsEvents(p, w, events[1..]);
      }
    }
  }

  /** No session runs forever: whatever the disk it starts from, the length of the file bounds its steps. */
  lemma SessionsEnd(p: Params, w: World, events: seq<Event>)
    requires w.phase.Offline? && forall e <- events :: Internal(e)
    ensures Effective(p, Connect(p, w), events) <= 20 * ChunkCount(|p.file|) + 11
  {
    ConnectIsCounted(p, w);
    MeasureBoundsEvents(p, Connect(p, w), events);
  }

  lemma SomethingMoves(p: Params, w: World) returns (e: Event)
    requires !Stuck(p, w)
    ensures Internal(e) && Enabled(p, w, e)
  {
    e := if Enabled(p, w, SenderMoves) then SenderMoves
         else if Enabled(p, w, SenderHears) then SenderHears
         else if Enabled(p, w, ReceiverReads) then ReceiverReads
         else if Enabled(p, w, DiskMoves) then DiskMoves
         else ReceiverMoves;
  }

  lemma {:induction false} RunsOnUntilStuck(p: Params, w: World) returns (more: seq<Event>)
    requires Counted(p, w)
    ensures (forall e <- more :: Internal(e)) && Stuck(p, Execute(p, w, more))
    decreases Measure(p, w)
  {
    MeasureIsNatural(p, w);
    more := [];
    if !Stuck(p, w) {
      var e := SomethingMoves(p, w);
      var w' := Step(p, w, e);
      StepKeepsCounted(p, w, e, w');
      MeasureIsNatural(p, w');
      var rest := RunsOnUntilStuck(p, w');
      more := [e] + rest;
      assert more[1..] == rest;
    }
  }

  /** Every run of a session extends to one in which nothing can move any more. */
  lemma EverySessionRunExtends(p: Params, w: World, events: seq<Event>) returns (more: seq<Event>)
    requires w.phase.Offline? && forall e <- events :: Internal(e)
    ensures (forall e <- more :: Internal(e)) && Stuck(p, Execute(p, Connect(p, w), events + more))
  {
    ConnectIsCounted(p, w);
    MeasureBoundsEvents(p, Connect(p, w), events);
    more := RunsOnUntilStuck(p, Execute(p, Connect(p, w), events));
    ExecuteAppend(p, Connect(p, w), events, more);
  }

  // ----- The invariant of a session -----

  /** The bytes end inside a chunk. */
  predicate TornAt(p: Params, n: nat) {
    !Aligned(p, n)
  }

  /** The bytes held after `j` frames have been read, starting from `held` bytes. */
  function HeldAfter(p: Params, k0: nat, held: nat, j: nat): nat {
    var at := ChunkStart(|p.file|, k0 + j);
    if at <= held then held else at
  }

  predicate Rejecting(phase: Phase) {
    || (phase.Reacting? && phase.next == Abort(false))
    || (phase.Closing? && phase.outcome.Rejected?)
    || (phase.Returned? && phase.outcome.Rejected?)
  }

  /** The replies so far are the acknowledgements of the chunks from `k0` on. */
  predicate AcksInOrder(p: Params, k0: nat, said: seq<Message>) {
    forall i :: 0 <= i < |said| ==> said[i] == AckFor(p, k0 + i, FIRST_ID + i)
  }

  /** The queues: frames read, replies sent and replies heard, against what the sender counts. */
  predicate QueuesAgree(p: Params, k0: nat, w: World) {
    && w.heard <= |w.said| <= w.delivered <= |w.sender.outbox|
    && AcksInOrder(p, k0, w.said)
    && w.sender.inFlight == |w.sender.outbox| - w.heard
    && w.sender.acked == ChunkStart(|p.file|, k0 + w.heard)
  }

  predicate EndedAs(p: Params, w: World, k0: nat, held: nat, outcome: ReceiveOutcome) {
    match outcome
    case Committed => |w.said| == w.delivered && k0 + w.delivered == ChunkCount(|p.file|) > 0 && !TornAt(p, held)
    case Rejected => TornAt(p, held)
    case LinkLost => false
  }

  predicate ReceiverRunning(p: Params, w: World, k0: nat, held: nat) {
    var j, count := w.delivered, ChunkCount(|p.file|);
    match w.phase
    case Opening(_, complete) => !complete && j == |w.said| == 0 && w.rx.received == held
    case Listening =>
      && |w.said| == j && (k0 + j < count || count == 0)
      && w.rx.received == HeldAfter(p, k0, held, j) && (TornAt(p, held) ==> ChunkStart(|p.file|, k0 + j) < held)
    case Reacting(_, replies, next) =>
      && j >= 1 && count > 0 && w.rx.received <= |p.file|
      && if next == Abort(false) then TornAt(p, held)
         else
           && |w.said| == j - 1 && k0 + j <= count && replies == [AckFor(p, k0 + j - 1, FIRST_ID + j - 1)]
           && w.rx.received == HeldAfter(p, k0, held, j) && (TornAt(p, held) ==> ChunkStart(|p.file|, k0 + j) < held)
           && next == (if k0 + j == count then Verify else Continue)
    case Closing(_, outcome) => EndedAs(p, w, k0, held, outcome)
    case Returned(outcome) => EndedAs(p, w, k0, held, outcome)
    case _ => false
  }

  /** A session whose sender skips `k0` chunks and whose receiver opened a `.part` of `held` bytes, not complete. */
  predicate Running(p: Params, w: World, k0: nat, held: nat) {
    && Fits(p) && k0 <= ChunkCount(|p.file|) && ChunkStart(|p.file|, k0) <= held
    && (held < |p.file| || held == |p.file| == 0)
    && w.ranges == Skips(ChunkStart(|p.file|, k0))
    && OnPlan(JobOf(p, w), FIRST_ID, w.sender)
    && w.heard <= |w.said| && w.delivered <= |w.sender.outbox|
    && (!Rejecting(w.phase) ==> QueuesAgree(p, k0, w))
    && ReceiverRunning(p, w, k0, held)
  }

  lemma ChunkStartCounts(size: nat, k: nat)
    requires k <= ChunkCount(size)
    ensures ChunkCount(ChunkStart(size, k)) == k
  {
  }

  /** What concerns only the sender and what it has heard. */
  lemma SenderOnly(p: Params, w: World, s: SenderState, heard: nat, k0: nat, held: nat)
    requires Running(p, w, k0, held) && OnPlan(JobOf(p, w), FIRST_ID, s)
    requires heard <= |w.said| && w.delivered <= |s.outbox|
    requires !Rejecting(w.phase) ==> QueuesAgree(p, k0, w.(sender := s, heard := heard))
    ensures Running(p, w.(sender := s, heard := heard), k0, held)
  {
    assert JobOf(p, w.(sender := s, heard := heard)) == JobOf(p, w);
  }

  lemma SenderMoveKeepsRunning(p: Params, w: World, w': World, k0: nat, held: nat)
    requires Running(p, w, k0, held) && Enabled(p, w, SenderMoves) && w' == Step(p, w, SenderMoves)
    ensures Running(p, w', k0, held)
  {
    var job := JobOf(p, w);
    if Mode(job, w.sender).Skipping? {
      SkipStepKeepsPlan(job, FIRST_ID, w.sender);
    } else {
      SendStepKeepsPlan(job, FIRST_ID, w.sender);
    }
    SenderOnly(p, w, w'.sender, w.heard, k0, held);
  }

  lemma HearingKeepsPlan(p: Params, w: World, m: Message)
    requires OnPlan(JobOf(p, w), FIRST_ID, w.sender) && Mode(JobOf(p, w), w.sender).Awaiting? && !m.Undecodable?
    ensures OnPlan(JobOf(p, w), FIRST_ID, AwaitStep(JobOf(p, w), w.sender, ControlFrame(m)).value)
  {
  }

  lemma HearingKeepsQueues(p: Params, w: World, k0: nat, s: SenderState)
    requires QueuesAgree(p, k0, w) && Mode(JobOf(p, w), w.sender).Awaiting? && w.heard < |w.said|
    requires Some(s) == AwaitStep(JobOf(p, w), w.sender, ControlFrame(w.said[w.heard]))
    ensures QueuesAgree(p, k0, w.(sender := s, heard := w.heard + 1))
  {
    assert w.said[w.heard] == AckFor(p, k0 + w.heard, FIRST_ID + w.heard);
  }

  lemma HearingKeepsRunning(p: Params, w: World, w': World, k0: nat, held: nat)
    requires Running(p, w, k0, held) && Enabled(p, w, SenderHears) && w' == Step(p, w, SenderHears)
    ensures Running(p, w', k0, held)
  {
    var heard := w.said[w.heard];
    var s := AwaitStep(JobOf(p, w), w.sender, ControlFrame(heard)).value;
    HearingKeepsPlan(p, w, heard);
    if !Rejecting(w.phase) {
      HearingKeepsQueues(p, w, k0, s);
    }
    SenderOnly(p, w, s, w.heard + 1, k0, held);
  }

  /** The frame read next is chunk `k0 + delivered`. */
  lemma NextFrame(p: Params, w: World, k0: nat, held: nat)
    requires Running(p, w, k0, held) && w.delivered < |w.sender.outbox|
    ensures k0 + w.delivered < ChunkCount(|p.file|)
    ensures w.sender.outbox[w.delivered] == FrameAt(p, w.ranges, k0 + w.delivered, FIRST_ID + w.delivered)
  {
    ChunkStartCounts(|p.file|, k0);
    TransitIsHonest(p, w.ranges, ChunkStart(|p.file|, k0), w.sender, w.delivered);
  }

  lemma HeldWithinFile(p: Params, k0: nat, held: nat, j: nat)
    requires held <= |p.file|
    ensures HeldAfter(p, k0, held, j) <= |p.file|
  {
  }

  lemma ReadGetsAnswer(p: Params, w: World, w': World, k0: nat, held: nat)
    requires Running(p, w, k0, held) && Enabled(p, w, ReceiverReads) && w' == Step(p, w, ReceiverReads)
    ensures k0 + w.delivered < ChunkCount(|p.file|)
    ensures w' == AfterRead(w, HonestAnswer(p, w.rx, k0 + w.delivered, FIRST_ID + w.delivered))
  {
    NextFrame(p, w, k0, held);
    HeldWithinFile(p, k0, held, w.delivered);
    HonestRead(p, w, k0 + w.delivered, FIRST_ID + w.delivered);
  }

  /** Where the next chunk lies relative to the bytes held. */
  lemma HeldAtNextChunk(p: Params, k0: nat, held: nat, j: nat)
    requires k0 + j < ChunkCount(|p.file|) && held < |p.file|
    ensures var from, to, now := ChunkStart(|p.file|, k0 + j), ChunkStart(|p.file|, k0 + j + 1), HeldAfter(p, k0, held, j);
            && (from == now ==> HeldAfter(p, k0, held, j + 1) == to && (TornAt(p, held) ==> from > held))
            && (from != now && to <= now ==> HeldAfter(p, k0, held, j + 1) == now == held && to < |p.file|
                                             && (TornAt(p, held) ==> to < held))
            && (from != now && to > now ==> TornAt(p, held))
  {
    var from := ChunkStart(|p.file|, k0 + j);
    if from == held {
      ChunkStartCounts(|p.file|, k0 + j);
    }
    if ChunkStart(|p.file|, k0 + j + 1) == held {
      ChunkStartCounts(|p.file|, k0 + j + 1);
    }
    if from < held < ChunkStart(|p.file|, k0 + j + 1) {
      assert ChunkCount(held) == k0 + j + 1;
    }
  }

  /** The answer that the receiver's invariant expects. */
  lemma AnswerIsExpected(p: Params, w: World, k0: nat, held: nat, a: Reaction)
    requires held < |p.file| && k0 + w.delivered < ChunkCount(|p.file|)
    requires a == HonestAnswer(p, w.rx, k0 + w.delivered, FIRST_ID + w.delivered)
    requires w.rx.received == HeldAfter(p, k0, held, w.delivered)
    ensures a.state.received <= |p.file|
    ensures if a.next == Abort(false) then TornAt(p, held)
            else
              var j := w.delivered + 1;
              && a.replies == [AckFor(p, k0 + j - 1, FIRST_ID + j - 1)]
              && a.state.received == HeldAfter(p, k0, held, j)
              && (TornAt(p, held) && ChunkStart(|p.file|, k0 + w.delivered) < held ==> ChunkStart(|p.file|, k0 + j) < held)
              && a.next == (if k0 + j == ChunkCount(|p.file|) then Verify else Continue)
  {
    HeldAtNextChunk(p, k0, held, w.delivered);
    var to := ChunkStart(|p.file|, k0 + w.delivered + 1);
    assert to == |p.file| <==> k0 + (w.delivered + 1) == ChunkCount(|p.file|);
  }

  lemma AnswerKeepsRunning(p: Params, w: World, k0: nat, held: nat, a: Reaction, w': World)
    requires Running(p, w, k0, held) && w.phase.Listening? && w.delivered < |w.sender.outbox|
    requires k0 + w.delivered < ChunkCount(|p.file|)
    requires a == HonestAnswer(p, w.rx, k0 + w.delivered, FIRST_ID + w.delivered) && w' == AfterRead(w, a)
    ensures Running(p, w', k0, held)
  {
    assert JobOf(p, w') == JobOf(p, w);
    AnswerIsExpected(p, w, k0, held, a);
  }

  lemma ReadKeepsRunning(p: Params, w: World, w': World, k0: nat, held: nat)
    requires Running(p, w, k0, held) && Enabled(p, w, ReceiverReads) && w' == Step(p, w, ReceiverReads)
    ensures Running(p, w', k0, held)
  {
    ReadGetsAnswer(p, w, w', k0, held);
    AnswerKeepsRunning(p, w, k0, held, HonestAnswer(p, w.rx, k0 + w.delivered, FIRST_ID + w.delivered), w');
  }

  lemma DiskStepKeepsRunning(p: Params, w: World, w': World, k0: nat, held: nat)
    requires Running(p, w, k0, held) && Enabled(p, w, DiskMoves) && w' == Step(p, w, DiskMoves)
    ensures Running(p, w', k0, held)
  {
    assert JobOf(p, w') == JobOf(p, w);
  }

  /** A file whose chunks have all been received passes the final checks. */
  lemma ReceivedAllVerifies(p: Params, w: World, k0: nat, held: nat)
    requires Safe(p, w) && Running(p, w, k0, held) && w.phase.Reacting? && w.phase.next.Verify?
    ensures Conclude(Cfg(p), w.rx, Verify) == ReceiverRun(Committed, [CommitPart], [])
    ensures !TornAt(p, held) && k0 + w.delivered == ChunkCount(|p.file|)
  {
    assert w.rx.hashed == p.file;
  }

  /** What concerns only the receiver's phase and replies. */
  lemma ReceiverOnly(p: Params, w: World, said: seq<Message>, phase: Phase, k0: nat, held: nat)
    requires Running(p, w, k0, held) && ReceiverRunning(p, w.(said := said, phase := phase), k0, held)
    requires |w.said| <= |said|
    requires !Rejecting(phase) ==> !Rejecting(w.phase) && |said| <= w.delivered && AcksInOrder(p, k0, said)
    ensures Running(p, w.(said := said, phase := phase), k0, held)
  {
    assert JobOf(p, w.(said := said, phase := phase)) == JobOf(p, w);
  }

  lemma OpenedKeepsRunning(p: Params, w: World, k0: nat, held: nat)
    requires Running(p, w, k0, held) && w.phase.Opening?
    ensures Running(p, w.(phase := Listening), k0, held)
  {
    ChunkStartCounts(|p.file|, k0);
    ReceiverOnly(p, w, w.said, Listening, k0, held);
  }

  lemma RepliesKeepOrder(p: Params, k0: nat, said: seq<Message>, replies: seq<Message>)
    requires AcksInOrder(p, k0, said) && replies == [AckFor(p, k0 + |said|, FIRST_ID + |said|)]
    ensures AcksInOrder(p, k0, said + replies)
  {
  }

  lemma ReactedKeepsRunning(p: Params, w: World, phase: Phase, k0: nat, held: nat)
    requires Running(p, w, k0, held) && w.phase.Reacting?
    requires match w.phase.next
             case Continue => phase == Listening
             case Verify => phase.Closing? && phase.outcome.Committed? && !TornAt(p, held)
                            && k0 + w.delivered == ChunkCount(|p.file|)
             case Abort(_) => phase.Closing? && phase.outcome.Rejected?
    ensures Running(p, w.(said := w.said + w.phase.replies, phase := phase), k0, held)
  {
    if w.phase.next != Abort(false) {
      RepliesKeepOrder(p, k0, w.said, w.phase.replies);
    }
    ReceiverOnly(p, w, w.said + w.phase.replies, phase, k0, held);
  }

  lemma ReceiverMoveKeepsRunning(p: Params, w: World, w': World, k0: nat, held: nat)
    requires Safe(p, w) && Running(p, w, k0, held) && Enabled(p, w, ReceiverMoves) && w' == Step(p, w, ReceiverMoves)
    ensures Running(p, w', k0, held)
  {
    match w.phase
    case Opening(_, _) => OpenedKeepsRunning(p, w, k0, held);
    case Closing(_, outcome) => ReceiverOnly(p, w, w.said, Returned(outcome), k0, held);
    case Reacting(_, _, next) =>
      if next.Verify? {
        ReceivedAllVerifies(p, w, k0, held);
      }
      ReactedKeepsRunning(p, w, w'.phase, k0, held);
  }

  lemma StepKeepsRunning(p: Params, w: World, e: Event, w': World, k0: nat, held: nat)
    requires Safe(p, w) && Running(p, w, k0, held) && Internal(e) && Enabled(p, w, e) && w' == Step(p, w, e)
    ensures Running(p, w', k0, held)
  {
    match e
    case SenderMoves => SenderMoveKeepsRunning(p, w, w', k0, held);
    case SenderHears => HearingKeepsRunning(p, w, w', k0, held);
    case ReceiverReads => ReadKeepsRunning(p, w, w', k0, held);
    case DiskMoves => DiskStepKeepsRunning(p, w, w', k0, held);
    case ReceiverMoves => ReceiverMoveKeepsRunning(p, w, w', k0, held);
  }

  /** A sender that cannot move has sent everything, or waits for an acknowledgement that is not there. */
  lemma SenderStuck(p: Params, w: World, k0: nat, held: nat)
    requires Running(p, w, k0, held) && InSession(w) && !Enabled(p, w, SenderMoves) && !Enabled(p, w, SenderHears)
    requires !Rejecting(w.phase)
    ensures Mode(JobOf(p, w), w.sender).Finished? ==> |w.sender.outbox| == ChunkCount(|p.file|) - k0
    ensures !Mode(JobOf(p, w), w.sender).Finished? ==> w.heard == |w.said| < |w.sender.outbox|
  {
    ChunkStartCounts(|p.file|, k0);
    PlanAfterSkip(p, ChunkStart(|p.file|, k0), w.sender.sent + w.sender.skipped);
  }

  lemma SentAtMost(p: Params, w: World, k0: nat, held: nat)
    requires Running(p, w, k0, held)
    ensures |w.sender.outbox| <= ChunkCount(|p.file|) - k0
  {
    ChunkStartCounts(|p.file|, k0);
    PlanAfterSkip(p, ChunkStart(|p.file|, k0), w.sender.sent + w.sender.skipped);
  }

  lemma ListeningMoves(p: Params, w: World, k0: nat, held: nat)
    requires Running(p, w, k0, held) && w.phase.Listening? && |p.file| > 0
    ensures !Stuck(p, w)
  {
    if Stuck(p, w) {
      SenderStuck(p, w, k0, held);
    }
  }

  lemma CommittedMeansDone(p: Params, w: World, k0: nat, held: nat)
    requires Safe(p, w) && Running(p, w, k0, held) && w.phase == Returned(Committed) && Stuck(p, w)
    ensures BothDone(p, w)
    ensures w.disk.finals == [p.file] && w.sender.acked == |p.file| && w.sender.inFlight == 0
  {
    assert ApplyAll(w.disk, []) == w.disk;
    SenderStuck(p, w, k0, held);
    SentAtMost(p, w, k0, held);
  }

  /** No deadlock: where nothing can move any more, the transfer is over on both sides, or was rejected, or is empty. */
  lemma StuckMeansOver(p: Params, w: World, k0: nat, held: nat)
    requires Safe(p, w) && Running(p, w, k0, held) && Stuck(p, w)
    ensures BothDone(p, w) <==> !TornAt(p, held) && |p.file| > 0
    ensures BothDone(p, w) ==> w.disk.finals == [p.file] && w.sender.acked == |p.file| && w.sender.inFlight == 0
    ensures TornAt(p, held) ==> w.phase == Returned(Rejected)
  {
    assert w.phase.Listening? || w.phase.Returned?;
    if w.phase.Listening? {
      if |p.file| > 0 {
        ListeningMoves(p, w, k0, held);
      }
    } else if w.phase.outcome.Committed? {
      CommittedMeansDone(p, w, k0, held);
    }
  }

  // ----- The window and the conservation of bytes -----

  function AckBytes(acks: seq<Message>): nat {
    if acks == [] then 0 else (if acks[0].ChunkAck? then acks[0].length else 0) + AckBytes(acks[1..])
  }

  /** The file data that frames carry: their payload without offset and hash. */
  function DataBytes(frames: seq<LinkFrame>): int {
    if frames == [] then 0 else (if frames[0].ChunkFrame? then |frames[0].payload| - 40 else 0) + DataBytes(frames[1..])
  }

  lemma {:induction false} AckBytesFrom(p: Params, k0: nat, said: seq<Message>, i: nat)
    requires AcksInOrder(p, k0, said) && i <= |said|
    ensures AckBytes(said[i..]) == ChunkStart(|p.file|, k0 + |said|) - ChunkStart(|p.file|, k0 + i)
    decreases |said| - i
  {
    if i < |said| {
      AckBytesFrom(p, k0, said, i + 1);
      assert said[i..][1..] == said[i + 1..] && said[i..][0] == AckFor(p, k0 + i, FIRST_ID + i);
    }
  }

  lemma {:induction false} DataBytesFrom(p: Params, n: nat, s: SenderState, i: nat)
    requires Aligned(p, n) && OnPlan(Job(p.file, Skips(n), p.sha, p.streamId), FIRST_ID, s) && i <= |s.outbox|
    ensures DataBytes(s.outbox[i..])
            == ChunkStart(|p.file|, ChunkCount(n) + |s.outbox|) - ChunkStart(|p.file|, ChunkCount(n) + i)
    decreases |s.outbox| - i
  {
    if i < |s.outbox| {
      DataBytesFrom(p, n, s, i + 1);
      TransitIsHonest(p, Skips(n), n, s, i);
      assert s.outbox[i..][1..] == s.outbox[i + 1..];
      assert |s.outbox[i].payload| == 40 + ChunkLength(|p.file|, ChunkCount(n) + i);
    }
  }

  /** The bytes that the sender has neither skipped nor sent. */
  function Unsent(p: Params, k0: nat, s: SenderState): int {
    var start := ChunkStart(|p.file|, k0);
    |p.file| - (if s.offset < start then start else s.offset)
  }

  /** What is unsent follows the chunks in the outbox. */
  lemma UnsentIs(p: Params, k0: nat, n: nat, s: SenderState)
    requires k0 <= ChunkCount(|p.file|) && n == ChunkStart(|p.file|, k0) && Aligned(p, n) && ChunkCount(n) == k0
    requires OnPlan(Job(p.file, Skips(n), p.sha, p.streamId), FIRST_ID, s)
    ensures Unsent(p, k0, s) == |p.file| - ChunkStart(|p.file|, k0 + |s.outbox|)
  {
    PlanAfterSkip(p, n, s.sent + s.skipped);
  }

  lemma BytesAreConserved(p: Params, w: World, k0: nat, held: nat)
    requires Running(p, w, k0, held) && !Rejecting(w.phase)
    ensures w.sender.acked + AckBytes(w.said[w.heard..]) + DataBytes(w.sender.outbox[|w.said|..])
            + Unsent(p, k0, w.sender) == |p.file|
  {
    var n := ChunkStart(|p.file|, k0);
    ChunkStartCounts(|p.file|, k0);
    AckBytesFrom(p, k0, w.said, w.heard);
    DataBytesFrom(p, n, w.sender, |w.said|);
    UnsentIs(p, k0, n, w.sender);
  }

  /**
   * In every state of a session: never more than eight chunks are unacknowledged, and they are exactly the ones
   * in transit, being written, or acknowledged in transit; acknowledged, travelling and unsent bytes make up the file.
   */
  lemma WindowAndConservation(p: Params, w: World, k0: nat, held: nat)
    requires Running(p, w, k0, held) && !Rejecting(w.phase)
    ensures w.sender.inFlight <= MAX_IN_FLIGHT
    ensures w.sender.inFlight == (|w.sender.outbox| - |w.said|) + (|w.said| - w.heard)
    ensures w.sender.acked + AckBytes(w.said[w.heard..]) + DataBytes(w.sender.outbox[|w.said|..])
            + Unsent(p, k0, w.sender) == |p.file|
  {
    BytesAreConserved(p, w, k0, held);
  }
}
