/** How an uninterrupted session ends, from every state that crashes can leave behind. */
module SessionOutcome {
  import opened Chunks
  import opened Sender
  import opened Storage
  import opened Receiver
  import opened Transfer
  import opened TransferSafety
  import opened TransferProgress

  // ----- The `.part` is complete on opening -----

  /** A session whose receiver finds the `.part` complete on opening: it never reads a frame. */
  predicate Instant(p: Params, w: World, k0: nat) {
    && Fits(p) && k0 <= ChunkCount(|p.file|)
    && w.ranges == Skips(ChunkStart(|p.file|, k0))
    && OnPlan(JobOf(p, w), FIRST_ID, w.sender) && w.sender.inFlight == |w.sender.outbox|
    && w.said == [] && w.heard == w.delivered == 0 && w.sender.acked == ChunkStart(|p.file|, k0)
    && ((w.phase.Opening? && w.phase.complete) || w.phase == Returned(Committed))
  }

  lemma StepKeepsInstant(p: Params, w: World, e: Event, w': World, k0: nat)
    requires Instant(p, w, k0) && Internal(e) && Enabled(p, w, e) && w' == Step(p, w, e)
    ensures Instant(p, w', k0)
  {
    assert JobOf(p, w') == JobOf(p, w);
    if e.SenderMoves? {
      SenderStaysOnPlan(p, w, e, w'.sender);
    }
  }

  /** Such a session completes only if the sender had nothing to send: chunks it sends are never acknowledged. */
  lemma InstantStuck(p: Params, w: World, k0: nat)
    requires Safe(p, w) && Instant(p, w, k0) && Stuck(p, w)
    ensures BothDone(p, w) <==> k0 == ChunkCount(|p.file|)
    ensures w.disk.finals == [p.file]
    ensures BothDone(p, w) ==> w.sender.acked == |p.file|
  {
    assert ApplyAll(w.disk, []) == w.disk;
    ChunkStartCounts(|p.file|, k0);
    PlanAfterSkip(p, ChunkStart(|p.file|, k0), w.sender.sent + w.sender.skipped);
  }

  /** The bytes of the `.part` that a session would go on from. */
  function HeldAtStart(d: Disk): nat {
    Opened(d, SessionRecord(d)).received
  }

  lemma ConnectedIsRunning(p: Params, w: World)
    requires Fits(p) && Safe(p, w) && w.phase.Offline? && w.disk.finals == []
    ensures var k0, complete := ChunkCount(Journalled(w.disk)), AlreadyComplete(Cfg(p), w.disk, SessionRecord(w.disk));
            && (complete ==> Instant(p, Connect(p, w), k0) && HeldAtStart(w.disk) == |p.file| > 0)
            && (!complete ==> Running(p, Connect(p, w), k0, HeldAtStart(w.disk)))
            && (HeldAtStart(w.disk) == |p.file| > 0 ==> complete)
  {
    var d, n := w.disk, Journalled(w.disk);
    ConnectSaves(p, d, w.crashes);
    assert RangeTotal(Skips(n)) == n by {
      assert n > 0 ==> Skips(n)[1..] == [];
    }
    assert n <= |p.file|;
    if Resumes(d, SessionRecord(d)) && |d.part.value| == |p.file| {
      assert d.part.value == p.file;
    }
  }

  lemma {:induction false} InstantRun(p: Params, w: World, k0: nat, events: seq<Event>)
    requires Safe(p, w) && Instant(p, w, k0) && forall e <- events :: Internal(e)
    ensures var w' := Execute(p, w, events); Safe(p, w') && Instant(p, w', k0)
    decreases |events|
  {
    if events != [] {
      if Enabled(p, w, events[0]) {
        StepKeepsSafe(p, w, events[0]);
        StepKeepsInstant(p, w, events[0], Step(p, w, events[0]), k0);
        InstantRun(p, Step(p, w, events[0]), k0, events[1..]);
      } else {
        InstantRun(p, w, k0, events[1..]);
      }
    }
  }

  lemma {:induction false} SessionRun(p: Params, w: World, k0: nat, held: nat, events: seq<Event>)
    requires Safe(p, w) && Running(p, w, k0, held) && forall e <- events :: Internal(e)
    ensures var w' := Execute(p, w, events); Safe(p, w') && Running(p, w', k0, held)
    decreases |events|
  {
    if events != [] {
      if Enabled(p, w, events[0]) {
        StepKeepsSafe(p, w, events[0]);
        StepKeepsRunning(p, w, events[0], Step(p, w, events[0]), k0, held);
        SessionRun(p, Step(p, w, events[0]), k0, held, events[1..]);
      } else {
        SessionRun(p, w, k0, held, events[1..]);
      }
    }
  }

  lemma SessionStaysRunning(p: Params, w: World, events: seq<Event>, w': World)
    requires Fits(p) && Safe(p, w) && w.phase.Offline? && w.disk.finals == []
    requires !AlreadyComplete(Cfg(p), w.disk, SessionRecord(w.disk))
    requires (forall e <- events :: Internal(e)) && w' == Execute(p, Connect(p, w), events)
    ensures Safe(p, w') && Running(p, w', ChunkCount(Journalled(w.disk)), HeldAtStart(w.disk))
  {
    ConnectedIsRunning(p, w);
    StepKeepsSafe(p, w, Connects);
    SessionRun(p, Connect(p, w), ChunkCount(Journalled(w.disk)), HeldAtStart(w.disk), events);
  }

  lemma AlignedIsNotRejected(p: Params, w: World, k0: nat, held: nat)
    requires Running(p, w, k0, held) && Aligned(p, held)
    ensures !Rejecting(w.phase) && !w.phase.Done?
  {
  }

  /**
   * The invariant of every reachable state of a session that starts between chunks, fresh or resumed: the `.part` is
   * a prefix of the file, the window and the queues agree, and no byte is lost or counted twice.
   */
  lemma SessionInvariant(p: Params, w: World, events: seq<Event>, w': World)
    requires Fits(p) && Safe(p, w) && w.phase.Offline? && w.disk.finals == []
    requires Aligned(p, HeldAtStart(w.disk)) && !AlreadyComplete(Cfg(p), w.disk, SessionRecord(w.disk))
    requires (forall e <- events :: Internal(e)) && w' == Execute(p, Connect(p, w), events)
    ensures w'.disk.finals == [] && w'.disk.part.Some? ==> w'.disk.part.value <= p.file
    ensures w'.heard <= |w'.said| <= |w'.sender.outbox| && w'.sender.inFlight <= MAX_IN_FLIGHT
    ensures w'.sender.inFlight == (|w'.sender.outbox| - |w'.said|) + (|w'.said| - w'.heard)
    ensures w'.sender.acked + AckBytes(w'.said[w'.heard..]) + DataBytes(w'.sender.outbox[|w'.said|..])
            + Unsent(p, ChunkCount(Journalled(w.disk)), w'.sender) == |p.file|
  {
    var k0, held := ChunkCount(Journalled(w.disk)), HeldAtStart(w.disk);
    SessionStaysRunning(p, w, events, w');
    AlignedIsNotRejected(p, w', k0, held);
    WindowAndConservation(p, w', k0, held);
    LagMayGrowTo(p, w');
  }

  // ----- The file was committed before -----

  /**
   * A session that goes on after the commit: the journal has survived, so the sender skips what it records, while the
   * receiver starts from an empty `.part`. The first chunk, if there is one, is refused as a gap.
   */
  predicate Spent(p: Params, w: World, k0: nat) {
    && Fits(p) && 0 < k0 <= ChunkCount(|p.file|) && w.rx.received == 0
    && w.ranges == Skips(ChunkStart(|p.file|, k0))
    && OnPlan(JobOf(p, w), FIRST_ID, w.sender) && w.sender.inFlight == |w.sender.outbox|
    && w.heard <= |w.said| && (forall m <- w.said :: m == ErrorReply(InvalidFrame))
    && match w.phase
       case Opening(_, complete) => !complete && w.delivered == 0 && w.said == []
       case Listening => w.delivered == 0 && w.said == []
       case Reacting(_, replies, next) =>
         k0 < ChunkCount(|p.file|) && next == Abort(false) && replies == [ErrorReply(InvalidFrame)]
       case Closing(_, outcome) => k0 < ChunkCount(|p.file|) && outcome.Rejected?
       case Returned(outcome) => k0 < ChunkCount(|p.file|) && outcome.Rejected?
       case _ => false
  }

  lemma SpentReads(p: Params, w: World, w': World, k0: nat)
    requires Spent(p, w, k0) && Enabled(p, w, ReceiverReads) && w' == Step(p, w, ReceiverReads)
    ensures k0 < ChunkCount(|p.file|)
    ensures w' == AfterRead(w, Reaction(w.rx, [], [ErrorReply(InvalidFrame)], Abort(false)))
  {
    ChunkStartCounts(|p.file|, k0);
    TransitIsHonest(p, w.ranges, ChunkStart(|p.file|, k0), w.sender, 0);
    HonestRead(p, w, k0, FIRST_ID);
  }

  lemma StepKeepsSpent(p: Params, w: World, e: Event, w': World, k0: nat)
    requires Spent(p, w, k0) && Internal(e) && Enabled(p, w, e) && w' == Step(p, w, e)
    ensures Spent(p, w', k0)
  {
    assert JobOf(p, w') == JobOf(p, w);
    if e.SenderMoves? {
      SenderStaysOnPlan(p, w, e, w'.sender);
    } else if e.SenderHears? {
      assert w.said[w.heard] in w.said;
    } else if e.ReceiverReads? {
      SpentReads(p, w, w', k0);
    }
  }

  lemma {:induction false} SpentRun(p: Params, w: World, k0: nat, events: seq<Event>)
    requires Spent(p, w, k0) && forall e <- events :: Internal(e)
    ensures Spent(p, Execute(p, w, events), k0)
    decreases |events|
  {
    if events != [] {
      if Enabled(p, w, events[0]) {
        StepKeepsSpent(p, w, events[0], Step(p, w, events[0]), k0);
        SpentRun(p, Step(p, w, events[0]), k0, events[1..]);
      } else {
        SpentRun(p, w, k0, events[1..]);
      }
    }
  }

  lemma SpentStuck(p: Params, w: World, k0: nat)
    requires Spent(p, w, k0) && Stuck(p, w)
    ensures if k0 == ChunkCount(|p.file|) then w.phase.Listening? && Mode(JobOf(p, w), w.sender).Finished?
            else w.phase == Returned(Rejected)
  {
    ChunkStartCounts(|p.file|, k0);
    PlanAfterSkip(p, ChunkStart(|p.file|, k0), w.sender.sent + w.sender.skipped);
  }

  lemma ConnectedIsSpent(p: Params, w: World)
    requires Fits(p) && Safe(p, w) && w.phase.Offline? && w.disk.finals != []
    ensures Spent(p, Connect(p, w), ChunkCount(Journalled(w.disk)))
    ensures ChunkStart(|p.file|, ChunkCount(Journalled(w.disk))) == Journalled(w.disk)
  {
    ConnectSaves(p, w.disk, w.crashes);
  }

  // ----- How every session ends -----

  datatype Ending =
    | Succeeds       // both sides have returned, the file is committed
    | Rejects        // the receiver has refused a chunk
    | ReceiverWaits  // the sender is through, the receiver waits for chunks that never come
    | SenderWaits    // the receiver has committed the file, the sender waits for acknowledgements that never come

  /** The ending that the disk at the start decides. */
  function EndingOf(p: Params, d: Disk): Ending {
    if d.finals != [] then (if Journalled(d) == |p.file| then ReceiverWaits else Rejects)
    else if p.file == [] then ReceiverWaits
    else if !Aligned(p, HeldAtStart(d)) then Rejects
    else if HeldAtStart(d) == |p.file| && Journalled(d) != |p.file| then SenderWaits
    else Succeeds
  }

  /** What each ending means; no two of them can hold of the same state. */
  predicate EndsAs(p: Params, w: World, ending: Ending) {
    match ending
    case Succeeds =>
      BothDone(p, w) && w.disk.finals == [p.file] && w.sender.acked == |p.file| && w.sender.inFlight == 0
    case Rejects => w.phase == Returned(Rejected)
    case ReceiverWaits => w.phase.Listening? && Mode(JobOf(p, w), w.sender).Finished?
    case SenderWaits =>
      w.phase == Returned(Committed) && w.disk.finals == [p.file] && Mode(JobOf(p, w), w.sender).Awaiting?
  }

  lemma InstantOutcome(p: Params, w: World, events: seq<Event>, w': World)
    requires Fits(p) && Safe(p, w) && w.phase.Offline? && w.disk.finals == []
    requires AlreadyComplete(Cfg(p), w.disk, SessionRecord(w.disk))
    requires (forall e <- events :: Internal(e)) && w' == Execute(p, Connect(p, w), events) && Stuck(p, w')
    ensures EndsAs(p, w', EndingOf(p, w.disk))
  {
    var c, k0 := Connect(p, w), ChunkCount(Journalled(w.disk));
    ConnectKeepsSafe(p, w, c);
    ConnectedIsRunning(p, w);
    InstantRun(p, c, k0, events);
    InstantStuck(p, w', k0);
    ChunkStartCounts(|p.file|, ChunkCount(|p.file|));
    ConnectSaves(p, w.disk, w.crashes);
    assert Journalled(w.disk) == ChunkStart(|p.file|, k0);
  }

  lemma RunningOutcome(p: Params, w: World, events: seq<Event>, w': World)
    requires Fits(p) && Safe(p, w) && w.phase.Offline? && w.disk.finals == []
    requires !AlreadyComplete(Cfg(p), w.disk, SessionRecord(w.disk))
    requires (forall e <- events :: Internal(e)) && w' == Execute(p, Connect(p, w), events) && Stuck(p, w')
    ensures EndsAs(p, w', EndingOf(p, w.disk))
  {
    SessionStaysRunning(p, w, events, w');
    ConnectedIsRunning(p, w);
    StuckMeansOver(p, w', ChunkCount(Journalled(w.disk)), HeldAtStart(w.disk));
  }

  lemma SpentOutcome(p: Params, w: World, events: seq<Event>, w': World)
    requires Fits(p) && Safe(p, w) && w.phase.Offline? && w.disk.finals != []
    requires (forall e <- events :: Internal(e)) && w' == Execute(p, Connect(p, w), events) && Stuck(p, w')
    ensures EndsAs(p, w', EndingOf(p, w.disk))
  {
    var k0 := ChunkCount(Journalled(w.disk));
    ConnectedIsSpent(p, w);
    SpentRun(p, Connect(p, w), k0, events);
    SpentStuck(p, w', k0);
    ChunkStartCounts(|p.file|, ChunkCount(|p.file|));
  }

  /**
   * How every session ends. Take any state between sessions (a fresh start, or whatever crashes have left, before or
   * after the commit), connect, and let the session run on uninterrupted, in any interleaving, until nothing can move:
   * it ends in the one of four ways that the disk at its start decides.
   */
  lemma SessionEndsAs(p: Params, w: World, events: seq<Event>, w': World)
    requires Fits(p) && Safe(p, w) && w.phase.Offline?
    requires (forall e <- events :: Internal(e)) && w' == Execute(p, Connect(p, w), events) && Stuck(p, w')
    ensures EndsAs(p, w', EndingOf(p, w.disk))
  {
    if w.disk.finals != [] {
      SpentOutcome(p, w, events, w');
    } else if AlreadyComplete(Cfg(p), w.disk, SessionRecord(w.disk)) {
      InstantOutcome(p, w, events, w');
    } else {
      RunningOutcome(p, w, events, w');
    }
  }

  /**
   * The session can still complete: the file is not empty and not committed yet, the bytes held end between chunks, and a
   * complete `.part` is journalled as complete.
   */
  predicate CanComplete(p: Params, d: Disk) {
    && d.finals == [] && |p.file| > 0 && Aligned(p, HeldAtStart(d))
    && (HeldAtStart(d) == |p.file| ==> Journalled(d) == |p.file|)
  }

  /** Exactly when a session completes, from every state between sessions that any run reaches. */
  lemma SessionCompletesIff(p: Params, before: seq<Event>, w: World, events: seq<Event>, w': World)
    requires Fits(p) && w == Execute(p, InitialWorld(), before) && w.phase.Offline?
    requires (forall e <- events :: Internal(e)) && w' == Execute(p, Connect(p, w), events) && Stuck(p, w')
    ensures BothDone(p, w') <==> CanComplete(p, w.disk)
    ensures BothDone(p, w') ==> w'.disk.finals == [p.file] && w'.sender.acked == |p.file| && w'.sender.inFlight == 0
  {
    RunsAreSafe(p, InitialWorld(), before);
    SessionEndsAs(p, w, events, w');
  }

  /**
    * A fresh transfer left alone: however far it has come, it can be run to its end, and whichever way it is, it ends
    * with the file committed and every byte acknowledged if and only if the file is not empty.
    */
  lemma FreshTransferCompletes(p: Params, events: seq<Event>) returns (more: seq<Event>)
    requires Fits(p) && forall e <- events :: Internal(e)
    ensures (forall e <- more :: Internal(e)) && Stuck(p, Execute(p, Connect(p, InitialWorld()), events + more))
    ensures forall es :: (forall e <- es :: Internal(e)) && Stuck(p, Execute(p, Connect(p, InitialWorld()), es))
              ==> (BothDone(p, Execute(p, Connect(p, InitialWorld()), es)) <==> p.file != [])
  {
    more := EverySessionRunExtends(p, InitialWorld(), events);
    forall es | (forall e <- es :: Internal(e)) && Stuck(p, Execute(p, Connect(p, InitialWorld()), es))
      ensures BothDone(p, Execute(p, Connect(p, InitialWorld()), es)) <==> p.file != []
    {
      SessionCompletesIff(p, [], InitialWorld(), es, Execute(p, Connect(p, InitialWorld()), es));
    }
  }
}
