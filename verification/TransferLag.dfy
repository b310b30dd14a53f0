/** Why the journal can fall behind by more than one chunk: chunks that are sent again are not journalled again. */
module TransferLag {
  import opened Bytes
  import opened Results
  import opened Chunks
  import opened Sender
  import opened Storage
  import opened Receiver
  import opened Transfer
  import opened TransferSafety

  ghost predicate Reaches(p: Params, w: World, w': World) {
    exists events :: Execute(p, w, events) == w'
  }

  lemma ReachesMore(p: Params, w: World, w1: World, w2: World)
    requires Reaches(p, w, w1) && Reaches(p, w1, w2)
    ensures Reaches(p, w, w2)
  {
    var xs :| Execute(p, w, xs) == w1;
    var ys :| Execute(p, w1, ys) == w2;
    ExecuteAppend(p, w, xs, ys);
  }

  lemma ReachesStep(p: Params, w: World, w1: World, e: Event)
    requires Reaches(p, w, w1) && Enabled(p, w1, e)
    ensures Reaches(p, w, Step(p, w1, e))
  {
    assert Execute(p, w1, [e]) == Execute(p, Step(p, w1, e), []);
    ReachesMore(p, w, w1, Step(p, w1, e));
  }

  function WithOps(phase: Phase, ops: seq<DiskOp>): Phase {
    match phase
    case Opening(_, complete) => Opening(ops, complete)
    case Reacting(_, replies, next) => Reacting(ops, replies, next)
    case Closing(_, outcome) => Closing(ops, outcome)
    case _ => phase
  }

  /** The receiver performs its next `n` disk operations. */
  lemma {:induction false} DiskRuns(p: Params, w: World, w1: World, n: nat)
    requires n <= |Pending(w1.phase)| && Reaches(p, w, w1)
    ensures Reaches(p, w, w1.(disk := ApplyAll(w1.disk, Pending(w1.phase)[..n]),
                              phase := WithOps(w1.phase, Pending(w1.phase)[n..])))
    decreases n
  {
    var ops := Pending(w1.phase);
    if n == 0 {
      assert ops[0..] == ops && ApplyAll(w1.disk, ops[..0]) == w1.disk;
    } else {
      ReachesStep(p, w, w1, DiskMoves);
      var w2 := Step(p, w1, DiskMoves);
      assert Pending(w2.phase) == ops[1..];
      DiskRuns(p, w, w2, n - 1);
      assert ops[..n][1..] == ops[1..][..n - 1] && ops[n..] == ops[1..][n - 1..];
    }
  }

  /** A session that starts in `w`, up to its first read. */
  function Started(p: Params, w: World): World {
    var record := SessionRecord(w.disk);
    World(ApplyAll(w.disk, SaveOps(record) + OpenOps(w.disk, record)), Listening, SkipRanges(w.disk),
          StartSender(Job(p.file, SkipRanges(w.disk), p.sha, p.streamId), FIRST_ID), Opened(w.disk, record),
          0, [], 0, w.crashes)
  }

  lemma SessionStarts(p: Params, w: World, w1: World)
    requires Reaches(p, w, w1) && Enabled(p, w1, Connects)
    requires !AlreadyComplete(Cfg(p), w1.disk, SessionRecord(w1.disk))
    ensures Reaches(p, w, Started(p, w1))
  {
    ReachesStep(p, w, w1, Connects);
    var w2 := Step(p, w1, Connects);
    var ops := Pending(w2.phase);
    DiskRuns(p, w, w2, |ops|);
    assert ops[..|ops|] == ops && ops[|ops|..] == [];
    var w3 := w2.(disk := ApplyAll(w2.disk, ops), phase := Opening([], false));
    ReachesStep(p, w, w3, ReceiverMoves);
  }

  /** The sender's next chunk, sent and read. */
  lemma ChunkArrives(p: Params, w: World, w1: World, k: nat, w2: World)
    requires Fits(p) && Reaches(p, w, w1) && w1.phase.Listening? && w1.delivered == |w1.sender.outbox|
    requires Mode(JobOf(p, w1), w1.sender).Sending? && k < ChunkCount(|p.file|) && w1.rx.received <= |p.file|
    requires w1.sender.offset == ChunkStart(|p.file|, k)
    requires w2 == AfterRead(w1.(sender := SendStep(JobOf(p, w1), w1.sender)),
                             HonestAnswer(p, w1.rx, k, w1.sender.nextId))
    ensures Reaches(p, w, w2)
  {
    ReachesStep(p, w, w1, SenderMoves);
    var sent := w1.(sender := SendStep(JobOf(p, w1), w1.sender));
    NextChunk(p.file, k);
    assert sent.sender.outbox[sent.delivered] == FrameAt(p, w1.ranges, k, w1.sender.nextId);
    HonestRead(p, sent, k, w1.sender.nextId);
    ReachesStep(p, w, sent, ReceiverReads);
  }

  /** The receiver finishes its reaction and listens again. */
  lemma ReactionEnds(p: Params, w: World, w1: World)
    requires Reaches(p, w, w1) && w1.phase.Reacting? && w1.phase.next == Continue
    ensures Reaches(p, w, w1.(disk := ApplyAll(w1.disk, w1.phase.ops), said := w1.said + w1.phase.replies, phase := Listening))
  {
    var ops := w1.phase.ops;
    DiskRuns(p, w, w1, |ops|);
    assert ops[..|ops|] == ops && ops[|ops|..] == [];
    var w2 := w1.(disk := ApplyAll(w1.disk, ops), phase := Reacting([], w1.phase.replies, Continue));
    ReachesStep(p, w, w2, ReceiverMoves);
  }

  // ----- Sessions that fall behind, one after the other -----

  const C: nat := CHUNK_DATA_SIZE

  /** The `.part` durably holds `n` chunks, and the journal knows of the first one only. */
  predicate Behind(p: Params, d: Disk, n: nat) {
    && Fits(p) && |p.file| > C && 0 < n <= ChunkCount(|p.file|)
    && d.part == Some(p.file[..ChunkStart(|p.file|, n)]) && d.synced == ChunkStart(|p.file|, n)
    && d.finals == [] && d.journal == Some(Whole(Some(Entry(C, [(0, C)]))))
  }

  /** A session that holds `held` chunks, not all, and has read the chunks before `k` once more. */
  predicate Resending(p: Params, w: World, held: nat, k: nat) {
    && Behind(p, w.disk, held) && held < ChunkCount(|p.file|)
    && w.phase.Listening? && w.ranges in {[], [(0, C)]}
    && w.rx.received == held * C && 1 <= k <= held && w.sender.offset == k * C
    && w.delivered == |w.sender.outbox| == |w.said| == w.heard + w.sender.inFlight
    && w.sender.inFlight <= MAX_IN_FLIGHT && forall m <- w.said :: m.ChunkAck?
  }

  lemma NotCovered(p: Params, w: World, held: nat, k: nat)
    requires Resending(p, w, held, k)
    ensures Mode(JobOf(p, w), w.sender) == if w.sender.inFlight >= MAX_IN_FLIGHT then Awaiting else Sending
    ensures k < ChunkCount(|p.file|) && ChunkStart(|p.file|, k) == k * C
    ensures k < held ==> ChunkStart(|p.file|, k + 1) == (k + 1) * C < |p.file|
  {
    assert forall r <- w.ranges :: r == (0, C);
    NextChunk(p.file, k);
  }

  /** If the window is full, an acknowledgement makes room. */
  lemma RoomInWindow(p: Params, w0: World, w: World, held: nat, k: nat) returns (w': World)
    requires Reaches(p, w0, w) && Resending(p, w, held, k)
    ensures Reaches(p, w0, w') && Resending(p, w', held, k) && w'.crashes == w.crashes
    ensures Mode(JobOf(p, w'), w'.sender).Sending?
  {
    w' := w;
    NotCovered(p, w, held, k);
    if w.sender.inFlight >= MAX_IN_FLIGHT {
      assert w.said[w.heard] in w.said;
      ReachesStep(p, w0, w, SenderHears);
      w' := Step(p, w, SenderHears);
      NotCovered(p, w', held, k);
    }
  }

  /** A chunk that the receiver already has is acknowledged, and the journal stays as it is. */
  lemma ResendOne(p: Params, w0: World, w: World, held: nat, k: nat) returns (w': World)
    requires Reaches(p, w0, w) && Resending(p, w, held, k) && k < held
    ensures Reaches(p, w0, w') && Resending(p, w', held, k + 1) && w'.crashes == w.crashes
  {
    var w1 := RoomInWindow(p, w0, w, held, k);
    NotCovered(p, w1, held, k);
    var a := HonestAnswer(p, w1.rx, k, w1.sender.nextId);
    assert a == Reaction(w1.rx, [], [AckFor(p, k, w1.sender.nextId)], Continue);
    var w2 := AfterRead(w1.(sender := SendStep(JobOf(p, w1), w1.sender)), a);
    ChunkArrives(p, w0, w1, k, w2);
    ReactionEnds(p, w0, w2);
    w' := w2.(disk := ApplyAll(w2.disk, []), said := w2.said + [AckFor(p, k, w1.sender.nextId)], phase := Listening);
    NextChunk(p.file, k);
  }

  lemma {:induction false} ResendAll(p: Params, w0: World, w: World, held: nat, k: nat) returns (w': World)
    requires Reaches(p, w0, w) && Resending(p, w, held, k)
    ensures Reaches(p, w0, w') && Resending(p, w', held, held) && w'.crashes == w.crashes
    decreases held - k
  {
    w' := w;
    if k < held {
      w' := ResendOne(p, w0, w, held, k);
      w' := ResendAll(p, w0, w', held, k + 1);
    }
  }

  /** The next chunk arrives; nothing of it is on disk yet. */
  lemma NextArrives(p: Params, w0: World, w: World, held: nat) returns (w': World)
    requires Reaches(p, w0, w) && Resending(p, w, held, held)
    ensures Reaches(p, w0, w') && Behind(p, w'.disk, held) && w'.crashes == w.crashes && w'.phase.Reacting?
    ensures |w'.phase.ops| >= 2 && w'.phase.ops[..2] == [AppendPart(ChunkData(p.file, held)), SyncPart]
  {
    var w1 := RoomInWindow(p, w0, w, held, held);
    NotCovered(p, w1, held, held);
    var a := HonestAnswer(p, w1.rx, held, w1.sender.nextId);
    w' := AfterRead(w1.(sender := SendStep(JobOf(p, w1), w1.sender)), a);
    ChunkArrives(p, w0, w1, held, w');
  }

  lemma AppendThenSync(d: Disk, data: seq<Byte>)
    requires d.part.Some?
    ensures ApplyAll(d, [AppendPart(data), SyncPart])
         == d.(part := Some(d.part.value + data), synced := |d.part.value + data|)
  {
    var ops := [AppendPart(data), SyncPart];
    assert ApplyAll(Apply(d, ops[0]), ops[1..]) == ApplyAll(Apply(Apply(d, ops[0]), ops[1..][0]), ops[1..][1..]);
  }

  /** It is appended and synced before it is journalled. */
  lemma AppendOne(p: Params, w0: World, w: World, held: nat) returns (w': World)
    requires Reaches(p, w0, w) && Resending(p, w, held, held)
    ensures Reaches(p, w0, w') && Behind(p, w'.disk, held + 1) && w'.crashes == w.crashes && !w'.phase.Done?
  {
    var w1 := NextArrives(p, w0, w, held);
    var data := ChunkData(p.file, held);
    DiskRuns(p, w0, w1, 2);
    AppendThenSync(w1.disk, data);
    w' := w1.(disk := ApplyAll(w1.disk, w1.phase.ops[..2]), phase := WithOps(w1.phase, w1.phase.ops[2..]));
    ChunkExtendsPrefix(p.file, held);
  }

  /** The next session goes on from the `.part`, and its sender skips only the journalled chunk. */
  lemma ResumeStarts(p: Params, w0: World, w: World, held: nat) returns (w': World)
    requires Reaches(p, w0, w) && w.phase.Offline? && Behind(p, w.disk, held) && held < ChunkCount(|p.file|)
    ensures Reaches(p, w0, w') && Resending(p, w', held, 1) && w'.crashes == w.crashes
  {
    var record := Some(Entry(C, [(0, C)]));
    assert SessionRecord(w.disk) == record && SkipRanges(w.disk) == [(0, C)];
    SessionStarts(p, w0, w);
    var w1 := Started(p, w);
    assert SaveOps(record) + [] == SaveOps(record);
    SavedDiskIs(w.disk, record);
    assert w1.ranges[0] == (0, C);
    NextChunk(p.file, 0);
    ReachesStep(p, w0, w1, SenderMoves);
    w' := Step(p, w1, SenderMoves);
  }

  /** The first chunk of a fresh transfer arrives; the `.part` is still empty. */
  lemma FirstArrives(p: Params) returns (w: World)
    requires Fits(p) && p.file != []
    ensures Reaches(p, InitialWorld(), w) && w.crashes == 0 && w.ranges == []
    ensures w.disk.part == Some([]) && w.disk.finals == [] && Journalled(w.disk) == 0
    ensures var job := Job(p.file, [], p.sha, p.streamId);
            var start := StartSender(job, FIRST_ID);
            && Mode(job, start).Sending? && w.sender == SendStep(job, start)
            && w.said == [] && w.heard == 0 && w.delivered == 1
    ensures var a := HonestAnswer(p, ReceiverState(0, [], Some(Entry(0, []))), 0, FIRST_ID);
            w.rx == a.state && w.phase == Reacting(a.ops, a.replies, a.next)
  {
    var w0, record := InitialWorld(), Some(Entry(0, []));
    assert Execute(p, w0, []) == w0;
    SessionStarts(p, w0, w0);
    var w1 := Started(p, w0);
    ApplyAllAppend(w0.disk, SaveOps(record), [CreatePart]);
    SavedDiskIs(w0.disk, record);
    var saved := ApplyAll(w0.disk, SaveOps(record));
    assert ApplyAll(saved, [CreatePart]) == ApplyAll(Apply(saved, CreatePart), []);
    assert w1.disk.part == Some([]) && w1.rx == ReceiverState(0, [], record);
    var a := HonestAnswer(p, w1.rx, 0, FIRST_ID);
    w := AfterRead(w1.(sender := SendStep(JobOf(p, w1), w1.sender)), a);
    ChunkArrives(p, w0, w1, 0, w);
  }

  /** It can be on disk while the journal knows of nothing. */
  lemma FirstWritten(p: Params) returns (w: World)
    requires Fits(p) && p.file != []
    ensures Reaches(p, InitialWorld(), w) && w.crashes == 0 && w.disk.finals == [] && Journalled(w.disk) == 0
    ensures w.disk.part.Some? && |w.disk.part.value| == ChunkStart(|p.file|, 1)
  {
    var w1 := FirstArrives(p);
    var data := ChunkData(p.file, 0);
    assert w1.phase.ops[..2] == [AppendPart(data), SyncPart];
    DiskRuns(p, InitialWorld(), w1, 2);
    AppendThenSync(w1.disk, data);
    w := w1.(disk := ApplyAll(w1.disk, w1.phase.ops[..2]), phase := WithOps(w1.phase, w1.phase.ops[2..]));
  }

  lemma FirstAppend(p: Params, d: Disk, ops: seq<DiskOp>)
    requires Fits(p) && |p.file| > C && d.part == Some([]) && d.finals == []
    requires ops == [AppendPart(ChunkData(p.file, 0)), SyncPart] + SaveOps(Some(Entry(C, [(0, C)])))
    ensures Behind(p, ApplyAll(d, ops), 1)
  {
    var data := ChunkData(p.file, 0);
    ApplyAllAppend(d, [AppendPart(data), SyncPart], SaveOps(Some(Entry(C, [(0, C)]))));
    AppendThenSync(d, data);
    SavedDiskIs(ApplyAll(d, [AppendPart(data), SyncPart]), Some(Entry(C, [(0, C)])));
    assert [] + data == p.file[..C];
  }

  /** And the first session can go on once it is journalled. */
  lemma FirstChunk(p: Params) returns (w: World)
    requires Fits(p) && |p.file| > C
    ensures Reaches(p, InitialWorld(), w) && Resending(p, w, 1, 1) && w.crashes == 0
  {
    var w1 := FirstArrives(p);
    ReactionEnds(p, InitialWorld(), w1);
    w := w1.(disk := ApplyAll(w1.disk, w1.phase.ops), said := w1.said + w1.phase.replies, phase := Listening);
    FirstAppend(p, w1.disk, w1.phase.ops);
    NextChunk(p.file, 0);
  }

  /** After `n` crashes the `.part` can hold `n + 2` chunks while the journal still knows of one. */
  lemma {:induction false} FallsBehind(p: Params, n: nat) returns (w: World)
    requires Fits(p) && n + 2 <= ChunkCount(|p.file|)
    ensures Reaches(p, InitialWorld(), w) && w.crashes == n && !w.phase.Done? && Behind(p, w.disk, n + 2)
  {
    if n == 0 {
      w := FirstChunk(p);
      w := AppendOne(p, InitialWorld(), w, 1);
    } else {
      w := FallsBehind(p, n - 1);
      ReachesStep(p, InitialWorld(), w, Interrupted(w.disk));
      w := Step(p, w, Interrupted(w.disk));
      w := ResumeStarts(p, InitialWorld(), w, n + 1);
      w := ResendAll(p, InitialWorld(), w, n + 1, 1);
      w := AppendOne(p, InitialWorld(), w, n + 1);
    }
  }

  // ----- Exactly how far the journal falls behind -----

  /** How far the `.part` is ahead of its journal. */
  function Lag(d: Disk): int {
    (if d.part.Some? then |d.part.value| else 0) - Journalled(d)
  }

  /** The largest lag that `n` crashes can bring about. */
  function MaxLag(size: nat, n: nat): nat {
    if size <= C then size
    else if n == 0 || size <= 2 * C then C
    else if (n + 1) * C <= size - C then (n + 1) * C
    else size - C
  }

  lemma LagIsBounded(p: Params, events: seq<Event>, w: World, n: nat)
    requires Fits(p) && w == Execute(p, InitialWorld(), events) && w.crashes <= n && w.disk.finals == []
    ensures Lag(w.disk) <= MaxLag(|p.file|, n)
  {
    RunsAreSafe(p, InitialWorld(), events);
    LagMayGrowTo(p, w);
    OnlyTheOriginalIsCommitted(p, events);
    var j := Journalled(w.disk);
    assert j == 0 || j >= C || j == |p.file|;
    assert (w.crashes + 1) * C <= (n + 1) * C;
  }

  lemma LagIsReached(p: Params, n: nat) returns (w: World)
    requires Fits(p)
    ensures Reaches(p, InitialWorld(), w) && w.crashes <= n && w.disk.finals == [] && Lag(w.disk) == MaxLag(|p.file|, n)
  {
    if p.file == [] {
      w := InitialWorld();
      assert Execute(p, w, []) == w;
    } else if n == 0 || |p.file| <= 2 * C {
      w := FirstWritten(p);
    } else {
      var count := ChunkCount(|p.file|);
      w := FallsBehind(p, if n + 2 <= count then n else count - 2);
    }
  }

  /**
   * The largest lag between the `.part` and its journal over all runs with at most `n` crashes, exactly: no run exceeds
   * it, and one reaches it.
   */
  lemma LagBoundIsReached(p: Params, n: nat)
    requires Fits(p)
    ensures forall events :: (var w := Execute(p, InitialWorld(), events);
              w.crashes <= n && w.disk.finals == [] ==> Lag(w.disk) <= MaxLag(|p.file|, n))
    ensures exists events :: (var w := Execute(p, InitialWorld(), events);
              w.crashes <= n && w.disk.finals == [] && Lag(w.disk) == MaxLag(|p.file|, n))
  {
    forall events | Execute(p, InitialWorld(), events).crashes <= n && Execute(p, InitialWorld(), events).disk.finals == []
      ensures Lag(Execute(p, InitialWorld(), events).disk) <= MaxLag(|p.file|, n)
    {
      LagIsBounded(p, events, Execute(p, InitialWorld(), events), n);
    }
    var w := LagIsReached(p, n);
    var events :| Execute(p, InitialWorld(), events) == w;
  }

  /** Over the runs with at most `n` crashes, the journal stays at most one chunk behind. */
  ghost predicate AtMostOneBehind(p: Params, n: nat) {
    forall events :: (var w := Execute(p, InitialWorld(), events);
      w.crashes <= n && w.disk.finals == [] ==> Lag(w.disk) <= C)
  }

  /** That is so exactly without crashes, or for files of at most two chunks. */
  lemma OneChunkBehindIff(p: Params, n: nat)
    requires Fits(p)
    ensures AtMostOneBehind(p, n) <==> n == 0 || |p.file| <= 2 * C
  {
    LagBoundIsReached(p, n);
    if !(n == 0 || |p.file| <= 2 * C) {
      assert 2 * C <= (n + 1) * C;
      var events :| (var w := Execute(p, InitialWorld(), events);
        w.crashes <= n && w.disk.finals == [] && Lag(w.disk) == MaxLag(|p.file|, n));
    } else {
      assert MaxLag(|p.file|, n) <= C;
    }
  }
}
