/** Over every run, with any number of crashes and resumptions: nothing but the original file is ever committed. */
module TransferSafety {
  import opened Bytes
  import opened Results
  import opened Chunks
  import opened Sender
  import opened Storage
  import opened Receiver
  import opened Transfer

  /** The progress that the journal records; none without a journal. */
  function Journalled(d: Disk): nat {
    match Load(d)
    case Ok(Some(Some(e))) => e.receivedBytes
    case _ => 0
  }

  /** The journal is absent or whole, and says that a prefix of the file, ending between chunks, was received. */
  predicate JournalReadable(p: Params, d: Disk) {
    d.journal.Some? ==>
      && d.journal.value.Whole? && d.journal.value.record.Some?
      && var e := d.journal.value.record.value;
         e.receivedRanges == Skips(e.receivedBytes) && Aligned(p, e.receivedBytes)
  }

  /**
   * Until the commit, the `.part` is a prefix of the file that covers the journalled bytes durably and is at most
   * `lag` chunks ahead of them, and one chunk if none is journalled, because a session that knows of no progress
   * starts afresh; after the commit, exactly the original file has been committed and the `.part` is empty.
   */
  predicate Consistent(p: Params, d: Disk, lag: nat) {
    && JournalReadable(p, d)
    && (d.part.Some? ==> d.synced <= |d.part.value|)
    && if d.finals == [] then
         && (d.part.None? ==> Journalled(d) == 0)
         && (d.part.Some? ==>
               && d.part.value <= p.file
               && Journalled(d) <= d.synced
               && (Journalled(d) == 0 ==> |d.part.value| <= CHUNK_DATA_SIZE)
               && |d.part.value| <= ChunkStart(|p.file|, ChunkCount(Journalled(d)) + lag))
       else
         d.finals == [p.file] && Journalled(d) > 0 && (d.part.Some? ==> d.part.value == [])
  }

  /** Consistent now and after each of the operations. */
  predicate ConsistentThroughout(p: Params, d: Disk, ops: seq<DiskOp>, lag: nat)
    decreases |ops|
  {
    Consistent(p, d, lag) && (ops != [] ==> ConsistentThroughout(p, Apply(d, ops[0]), ops[1..], lag))
  }

  /** The receiver's memory agrees with the disk it will have written. */
  predicate Agrees(p: Params, rx: ReceiverState, d: Disk, lag: nat) {
    && Consistent(p, d, lag)
    && d.part == Some(rx.hashed) && d.synced == |rx.hashed| == rx.received
    && rx.hashed <= p.file
    && d.journal == Some(Whole(rx.record)) && rx.record.Some?
    && (rx.received > 0 ==> Journalled(d) > 0)
  }

  /** The number of bytes that a sender skips. */
  function Base(ranges: seq<Range>): nat {
    if ranges == [] then 0 else ranges[0].1
  }

  /** The sender started from a journal that the disk still covers. */
  predicate HonestSender(p: Params, w: World, d: Disk) {
    var n := Base(w.ranges);
    && Aligned(p, n) && w.ranges == Skips(n) && n <= Journalled(d)
    && (d.finals != [] && !w.phase.Closing? && !w.phase.Returned? ==> n > 0)
    && OnPlan(JobOf(p, w), FIRST_ID, w.sender)
  }

  /** Between sessions, what is left of the `.part` is durable. */
  predicate Rested(p: Params, d: Disk, lag: nat) {
    Consistent(p, d, lag) && (d.part.Some? ==> d.synced == |d.part.value|)
  }

  /** What each phase promises of the disk `d` that its pending operations lead to. */
  predicate PhaseFits(p: Params, phase: Phase, rx: ReceiverState, d: Disk, lag: nat)
    requires !phase.Offline? && !phase.Done?
  {
    match phase
    case Opening(_, complete) => if complete then d.finals == [p.file] && d.part == None else Agrees(p, rx, d, lag)
    case Listening => Agrees(p, rx, d, lag)
    case Reacting(_, _, next) =>
      && Agrees(p, rx, d, lag) && next != Abort(true)
      && (next.Verify? ==> rx.received == |p.file| > 0 && d.finals == [])
    case Closing(_, outcome) => outcome.Committed? ==> d.finals == [p.file] && d.part == None
    case Returned(outcome) => outcome.Committed? ==> d.finals == [p.file] && d.part == None
  }

  predicate Safe(p: Params, w: World) {
    if w.phase.Done? then w.disk.finals == [p.file] && w.disk.part == None && w.disk.journal == None
    else if w.phase.Offline? then Rested(p, w.disk, w.crashes)
    else
      var d := ApplyAll(w.disk, Pending(w.phase));
      && ConsistentThroughout(p, w.disk, Pending(w.phase), w.crashes + 1)
      && HonestSender(p, w, d)
      && PhaseFits(p, w.phase, w.rx, d, w.crashes)
  }

  /** A crash turns a consistent disk into a consistent disk. */
  lemma CrashKeepsConsistency(p: Params, d: Disk, d': Disk, lag: nat)
    requires Consistent(p, d, lag) && CrashLeaves(d, d')
    ensures Consistent(p, d', lag)
    ensures Journalled(d') == Journalled(d)
  {
  }

  lemma ConsistentCons(p: Params, d: Disk, op: DiskOp, rest: seq<DiskOp>, lag: nat)
    requires Consistent(p, d, lag) && ConsistentThroughout(p, Apply(d, op), rest, lag)
    ensures ConsistentThroughout(p, d, [op] + rest, lag)
  {
    assert ([op] + rest)[1..] == rest;
  }

  lemma {:induction false} ConsistentAppend(p: Params, d: Disk, xs: seq<DiskOp>, ys: seq<DiskOp>, lag: nat)
    requires ConsistentThroughout(p, d, xs, lag) && ConsistentThroughout(p, ApplyAll(d, xs), ys, lag)
    ensures ConsistentThroughout(p, d, xs + ys, lag)
    decreases |xs|
  {
    if xs == [] {
      assert xs + ys == ys;
    } else {
      ConsistentAppend(p, Apply(d, xs[0]), xs[1..], ys, lag);
      ConsistentCons(p, d, xs[0], xs[1..] + ys, lag);
      assert xs + ys == [xs[0]] + (xs[1..] + ys);
    }
  }

  /** The disk at the end is consistent too. */
  lemma {:induction false} ConsistentAtEnd(p: Params, d: Disk, ops: seq<DiskOp>, lag: nat)
    requires ConsistentThroughout(p, d, ops, lag)
    ensures Consistent(p, ApplyAll(d, ops), lag)
    decreases |ops|
  {
    if ops != [] {
      ConsistentAtEnd(p, Apply(d, ops[0]), ops[1..], lag);
    }
  }

  /** The temporary file does not bear on consistency. */
  lemma TmpIsIrrelevant(p: Params, d: Disk, tmp: Option<Content>, tmpSynced: bool, lag: nat)
    ensures Consistent(p, d.(tmp := tmp, tmpSynced := tmpSynced), lag) == Consistent(p, d, lag)
  {
  }

  /** Saving keeps the disk consistent if both the old and the new record do. */
  lemma SaveKeepsConsistency(p: Params, d: Disk, r: Record, lag: nat)
    requires Consistent(p, d, lag) && Consistent(p, d.(journal := Some(Whole(r))), lag)
    ensures ConsistentThroughout(p, d, SaveOps(r), lag)
    ensures ApplyAll(d, SaveOps(r)) == d.(journal := Some(Whole(r)), tmp := None, tmpSynced := true)
  {
    var ds := SaveSteps(d, r);
    TmpIsIrrelevant(p, d, Some(Torn), false, lag);
    TmpIsIrrelevant(p, d, Some(Whole(r)), false, lag);
    TmpIsIrrelevant(p, d, Some(Whole(r)), true, lag);
    TmpIsIrrelevant(p, d.(journal := Some(Whole(r))), None, true, lag);
    ConsistentCons(p, ds[3], RenameTmp, [], lag);
    ConsistentCons(p, ds[2], SyncTmp, [RenameTmp] + [], lag);
    ConsistentCons(p, ds[1], WriteTmp(r), [SyncTmp] + ([RenameTmp] + []), lag);
    ConsistentCons(p, d, CreateTmp, [WriteTmp(r)] + ([SyncTmp] + ([RenameTmp] + [])), lag);
    assert SaveOps(r) == [CreateTmp] + ([WriteTmp(r)] + ([SyncTmp] + ([RenameTmp] + [])));
    SavedDiskIs(d, r);
  }

  /** The lag may be taken larger. */
  lemma LagMayGrow(p: Params, d: Disk, lag: nat, lag': nat)
    requires Consistent(p, d, lag) && lag <= lag'
    ensures Consistent(p, d, lag')
  {
  }

  /** The lag grows by the one chunk that is written but not yet journalled. */
  lemma WrittenIsConsistent(p: Params, rx: ReceiverState, d: Disk, k: nat, lag: nat, synced: nat)
    requires Agrees(p, rx, d, lag) && d.finals == []
    requires k < ChunkCount(|p.file|) && rx.received == ChunkStart(|p.file|, k)
    requires d.synced <= synced <= ChunkStart(|p.file|, k + 1)
    ensures rx.hashed + ChunkData(p.file, k) == p.file[..ChunkStart(|p.file|, k + 1)]
    ensures Consistent(p, d.(part := Some(rx.hashed + ChunkData(p.file, k)), synced := synced), lag + 1)
  {
    assert rx.hashed == p.file[..rx.received];
    ChunkExtendsPrefix(p.file, k);
    var j := ChunkCount(Journalled(d)) + lag;
    assert ChunkStart(|p.file|, k) <= ChunkStart(|p.file|, j);
    assert k <= j;
  }

  /** Once journalled, the lag is gone. */
  lemma JournalledIsConsistent(p: Params, d: Disk, k: nat)
    requires d.finals == [] && k < ChunkCount(|p.file|)
    ensures var to := ChunkStart(|p.file|, k + 1);
            && Consistent(p, d.(part := Some(p.file[..to]), synced := to,
                                journal := Some(Whole(Some(Entry(to, [(0, to)]))))), 0)
            && to > 0
  {
    assert ChunkCount(ChunkStart(|p.file|, k + 1)) == k + 1;
  }

  /** Writing, syncing and journalling data, one disk after the other. */
  lemma WriteSyncSave(p: Params, d: Disk, d1: Disk, d2: Disk, data: seq<Byte>, record: Record, lag: nat)
    requires d1 == Apply(d, AppendPart(data)) && d2 == Apply(d1, SyncPart)
    requires Consistent(p, d, lag) && Consistent(p, d1, lag) && Consistent(p, d2, lag)
    requires Consistent(p, d2.(journal := Some(Whole(record))), lag)
    ensures ConsistentThroughout(p, d, [AppendPart(data), SyncPart] + SaveOps(record), lag)
  {
    SaveKeepsConsistency(p, d2, record, lag);
    ConsistentCons(p, d1, SyncPart, SaveOps(record), lag);
    ConsistentCons(p, d, AppendPart(data), [SyncPart] + SaveOps(record), lag);
    assert [AppendPart(data), SyncPart] + SaveOps(record) == [AppendPart(data)] + ([SyncPart] + SaveOps(record));
  }

  /** The disks that taking chunk `k` passes through. */
  lemma DisksOfAccept(p: Params, rx: ReceiverState, d: Disk, k: nat, lag: nat)
    requires Agrees(p, rx, d, lag) && d.finals == []
    requires k < ChunkCount(|p.file|) && rx.received == ChunkStart(|p.file|, k)
    ensures var data, to := ChunkData(p.file, k), ChunkStart(|p.file|, k + 1);
            var d2 := d.(part := Some(rx.hashed + data), synced := to);
            && Consistent(p, d, lag + 1)
            && Consistent(p, d.(part := Some(rx.hashed + data)), lag + 1)
            && Consistent(p, d2, lag + 1)
            && Consistent(p, d2.(journal := Some(Whole(Progress(rx.record, to)))), lag + 1)
            && |rx.hashed + data| == to
  {
    var to := ChunkStart(|p.file|, k + 1);
    LagMayGrow(p, d, lag, lag + 1);
    WrittenIsConsistent(p, rx, d, k, lag, d.synced);
    WrittenIsConsistent(p, rx, d, k, lag, to);
    JournalledIsConsistent(p, d, k);
    var d3 := d.(part := Some(p.file[..to]), synced := to, journal := Some(Whole(Some(Entry(to, [(0, to)])))));
    LagMayGrow(p, d3, 0, lag + 1);
  }

  /** Taking chunk `k` at the expected offset. */
  lemma AcceptKeepsConsistency(p: Params, rx: ReceiverState, d: Disk, k: nat, lag: nat)
    requires Agrees(p, rx, d, lag) && d.finals == []
    requires k < ChunkCount(|p.file|) && rx.received == ChunkStart(|p.file|, k)
    ensures var record := Progress(rx.record, ChunkStart(|p.file|, k + 1));
            ConsistentThroughout(p, d, [AppendPart(ChunkData(p.file, k)), SyncPart] + SaveOps(record), lag + 1)
  {
    var data, to := ChunkData(p.file, k), ChunkStart(|p.file|, k + 1);
    DisksOfAccept(p, rx, d, k, lag);
    var d1 := d.(part := Some(rx.hashed + data));
    WriteSyncSave(p, d, d1, d1.(synced := to), data, Progress(rx.record, to), lag + 1);
  }

  // ----- Every event keeps the system safe -----

  lemma LagMayGrowTo(p: Params, w: World)
    requires Safe(p, w) && !w.phase.Done?
    ensures Consistent(p, w.disk, w.crashes + 1)
  {
    if w.phase.Offline? {
      LagMayGrow(p, w.disk, w.crashes, w.crashes + 1);
    }
  }

  lemma InterruptionKeepsSafe(p: Params, w: World, left: Disk)
    requires Safe(p, w) && !w.phase.Done? && CrashLeaves(w.disk, left)
    ensures Safe(p, Step(p, w, Interrupted(left)))
  {
    LagMayGrowTo(p, w);
    CrashKeepsConsistency(p, w.disk, left, w.crashes + 1);
  }

  lemma SenderStaysOnPlan(p: Params, w: World, e: Event, s: SenderState)
    requires OnPlan(JobOf(p, w), FIRST_ID, w.sender)
    requires (e.SenderMoves? || e.SenderHears?) && Enabled(p, w, e) && s == Step(p, w, e).sender
    ensures OnPlan(JobOf(p, w), FIRST_ID, s)
  {
    var job := JobOf(p, w);
    if e.SenderMoves? {
      if Mode(job, w.sender).Skipping? {
        SkipStepKeepsPlan(job, FIRST_ID, w.sender);
      } else {
        SendStepKeepsPlan(job, FIRST_ID, w.sender);
      }
    }
  }

  lemma SafeSession(p: Params, w: World, d: Disk)
    requires InSession(w) && d == ApplyAll(w.disk, Pending(w.phase))
    requires ConsistentThroughout(p, w.disk, Pending(w.phase), w.crashes + 1)
    requires HonestSender(p, w, d) && PhaseFits(p, w.phase, w.rx, d, w.crashes)
    ensures Safe(p, w)
  {
  }

  lemma SenderChangeKeepsSafe(p: Params, w: World, s: SenderState, heard: nat)
    requires Safe(p, w) && InSession(w) && OnPlan(JobOf(p, w), FIRST_ID, s)
    ensures Safe(p, w.(sender := s, heard := heard))
  {
    var w' := w.(sender := s, heard := heard);
    var d := ApplyAll(w.disk, Pending(w.phase));
    assert JobOf(p, w') == JobOf(p, w);
    assert HonestSender(p, w', d);
    SafeSession(p, w', d);
  }

  lemma SenderKeepsSafe(p: Params, w: World, e: Event, w': World)
    requires Safe(p, w) && (e.SenderMoves? || e.SenderHears?) && Enabled(p, w, e) && w' == Step(p, w, e)
    ensures Safe(p, w')
  {
    SenderStaysOnPlan(p, w, e, w'.sender);
    SenderChangeKeepsSafe(p, w, w'.sender, w'.heard);
  }

  lemma DiskStepKeepsSafe(p: Params, w: World)
    requires Safe(p, w) && Enabled(p, w, DiskMoves)
    ensures Safe(p, Step(p, w, DiskMoves))
  {
    var w' := Step(p, w, DiskMoves);
    assert Pending(w'.phase) == Pending(w.phase)[1..];
    assert ApplyAll(w'.disk, Pending(w'.phase)) == ApplyAll(w.disk, Pending(w.phase));
    assert JobOf(p, w') == JobOf(p, w);
  }

  /** The checks at the end commit the file, or leave the disk alone. */
  lemma ConclusionKeepsConsistency(p: Params, rx: ReceiverState, d: Disk, next: Continuation, lag: nat)
    requires PhaseFits(p, Reacting([], [], next), rx, d, lag) && !next.Continue?
    ensures var c := Conclude(Cfg(p), rx, next);
            && ConsistentThroughout(p, d, c.ops, lag + 1)
            && Journalled(ApplyAll(d, c.ops)) == Journalled(d)
            && (c.outcome.Committed? ==> ApplyAll(d, c.ops).finals == [p.file] && Journalled(d) > 0)
            && (!c.outcome.Committed? ==> c.ops == [])
  {
    LagMayGrow(p, d, lag, lag + 1);
    if next.Verify? {
      assert rx.hashed == p.file;
      ConsistentCons(p, d, CommitPart, [], lag + 1);
      OneOp(d, CommitPart, []);
      assert [CommitPart] + [] == [CommitPart];
    }
  }

  /** A change of phase keeps the system safe if the new phase fits and the sender's base stays covered. */
  lemma PhaseChangeKeepsSafe(p: Params, w: World, w': World)
    requires Safe(p, w) && InSession(w) && InSession(w') && Pending(w.phase) == []
    requires w'.disk == w.disk && w'.sender == w.sender && w'.ranges == w.ranges && w'.crashes == w.crashes
    requires (w.phase.Closing? || w.phase.Returned?) ==> (w'.phase.Closing? || w'.phase.Returned?)
    requires ConsistentThroughout(p, w.disk, Pending(w'.phase), w.crashes + 1)
    requires var d := ApplyAll(w.disk, Pending(w'.phase));
             && PhaseFits(p, w'.phase, w'.rx, d, w.crashes)
             && Journalled(d) >= Journalled(w.disk) && (d.finals == w.disk.finals || w'.phase.Closing?)
    ensures Safe(p, w')
  {
    assert ApplyAll(w.disk, []) == w.disk;
    assert JobOf(p, w') == JobOf(p, w);
  }

  /** A phase without operations of its own. */
  lemma PhaseStepKeepsSafe(p: Params, w: World, said: seq<Message>, phase: Phase)
    requires Safe(p, w) && InSession(w) && Pending(w.phase) == []
    requires phase.Listening? || phase.Returned?
    requires w.phase.Closing? ==> phase.Returned?
    requires PhaseFits(p, phase, w.rx, w.disk, w.crashes)
    requires !w.phase.Returned?
    ensures Safe(p, w.(said := said, phase := phase))
  {
    assert ApplyAll(w.disk, []) == w.disk;
    PhaseChangeKeepsSafe(p, w, w.(said := said, phase := phase));
  }

  lemma ConclusionKeepsSafe(p: Params, w: World)
    requires Safe(p, w) && w.phase.Reacting? && Pending(w.phase) == [] && !w.phase.next.Continue?
    ensures var c := Conclude(Cfg(p), w.rx, w.phase.next);
            Safe(p, w.(said := w.said + w.phase.replies, phase := Closing(c.ops, c.outcome)))
  {
    assert ApplyAll(w.disk, []) == w.disk;
    var c := Conclude(Cfg(p), w.rx, w.phase.next);
    ConclusionKeepsConsistency(p, w.rx, w.disk, w.phase.next, w.crashes);
    PhaseChangeKeepsSafe(p, w, w.(said := w.said + w.phase.replies, phase := Closing(c.ops, c.outcome)));
  }

  lemma ReceiverMoveKeepsSafe(p: Params, w: World, w': World)
    requires Safe(p, w) && Enabled(p, w, ReceiverMoves) && w' == Step(p, w, ReceiverMoves)
    ensures Safe(p, w')
  {
    match w.phase
    case Opening(_, complete) => PhaseStepKeepsSafe(p, w, w.said, if complete then Returned(Committed) else Listening);
    case Closing(_, outcome) => PhaseStepKeepsSafe(p, w, w.said, Returned(outcome));
    case Reacting(_, replies, next) =>
      if next.Continue? {
        PhaseStepKeepsSafe(p, w, w.said + replies, Listening);
      } else {
        ConclusionKeepsSafe(p, w);
      }
  }

  lemma TransitIsHonest(p: Params, ranges: seq<Range>, n: nat, s: SenderState, i: nat)
    requires ranges == Skips(n) && Aligned(p, n) && OnPlan(Job(p.file, ranges, p.sha, p.streamId), FIRST_ID, s)
    requires i < |s.outbox|
    ensures s.outbox[i] == FrameAt(p, ranges, ChunkCount(n) + i, FIRST_ID + i)
    ensures ChunkCount(n) + i < ChunkCount(|p.file|)
  {
    PlanAfterSkip(p, n, s.sent + s.skipped);
  }

  /** The next frame to read is a chunk at or past the bytes that the sender skips. */
  lemma NextReadIsHonest(p: Params, w: World)
    requires Safe(p, w) && Enabled(p, w, ReceiverReads)
    ensures var k := ChunkCount(Base(w.ranges)) + w.delivered;
            && w.sender.outbox[w.delivered] == FrameAt(p, w.ranges, k, FIRST_ID + w.delivered)
            && k < ChunkCount(|p.file|)
  {
    assert HonestSender(p, w, w.disk) by {
      assert ApplyAll(w.disk, []) == w.disk;
    }
    TransitIsHonest(p, w.ranges, Base(w.ranges), w.sender, w.delivered);
  }

  /** The world after the receiver has read a frame that it answers with `a`. */
  function AfterRead(w: World, a: Reaction): World {
    w.(rx := a.state, delivered := w.delivered + 1, phase := Reacting(a.ops, a.replies, a.next))
  }

  lemma HonestRead(p: Params, w: World, k: nat, id: nat)
    requires Fits(p) && Enabled(p, w, ReceiverReads) && w.rx.received <= |p.file| && k < ChunkCount(|p.file|)
    requires w.sender.outbox[w.delivered] == FrameAt(p, w.ranges, k, id)
    ensures Step(p, w, ReceiverReads) == AfterRead(w, HonestAnswer(p, w.rx, k, id))
  {
    ReactToHonestChunk(p, w.rx, w.ranges, k, id);
  }

  /** A duplicate or misplaced chunk changes nothing on disk. */
  lemma ReadLeftKeepsSafe(p: Params, w: World, k: nat, replies: seq<Message>, next: Continuation)
    requires Safe(p, w) && w.phase.Listening? && k < ChunkCount(|p.file|)
    requires next == Abort(false) || next == Continue
             || (next == Verify && ChunkStart(|p.file|, k + 1) <= w.rx.received == |p.file|)
    ensures Safe(p, AfterRead(w, Reaction(w.rx, [], replies, next)))
  {
    assert ApplyAll(w.disk, []) == w.disk;
    PhaseChangeKeepsSafe(p, w, AfterRead(w, Reaction(w.rx, [], replies, next)));
  }

  lemma TakenKeepsSafe(p: Params, w: World, k: nat)
    requires Safe(p, w) && w.phase.Listening? && w.disk.finals == []
    requires k < ChunkCount(|p.file|) && ChunkStart(|p.file|, k) == w.rx.received
    ensures var to := ChunkStart(|p.file|, k + 1);
            var record := Progress(w.rx.record, to);
            var ops := [AppendPart(ChunkData(p.file, k)), SyncPart] + SaveOps(record);
            var rx := ReceiverState(to, w.rx.hashed + ChunkData(p.file, k), record);
            && ConsistentThroughout(p, w.disk, ops, w.crashes + 1)
            && Agrees(p, rx, ApplyAll(w.disk, ops), w.crashes)
            && Journalled(ApplyAll(w.disk, ops)) == to >= Journalled(w.disk)
            && ApplyAll(w.disk, ops).finals == []
  {
    var data, to := ChunkData(p.file, k), ChunkStart(|p.file|, k + 1);
    var record := Progress(w.rx.record, to);
    assert ApplyAll(w.disk, []) == w.disk;
    AcceptKeepsConsistency(p, w.rx, w.disk, k, w.crashes);
    AcceptedDisk(w.disk, data, record);
    WrittenIsConsistent(p, w.rx, w.disk, k, w.crashes, to);
    JournalledIsConsistent(p, w.disk, k);
    var d := w.disk.(part := Some(p.file[..to]), synced := to, journal := Some(Whole(record)));
    LagMayGrow(p, d, 0, w.crashes);
    TmpIsIrrelevant(p, d, None, true, w.crashes);
  }

  lemma ReadTakenKeepsSafe(p: Params, w: World, k: nat, replies: seq<Message>)
    requires Safe(p, w) && w.phase.Listening? && ChunkCount(Base(w.ranges)) <= k < ChunkCount(|p.file|)
    requires ChunkStart(|p.file|, k) == w.rx.received
    ensures var to := ChunkStart(|p.file|, k + 1);
            var record := Progress(w.rx.record, to);
            Safe(p, AfterRead(w, Reaction(ReceiverState(to, w.rx.hashed + ChunkData(p.file, k), record),
                                          [AppendPart(ChunkData(p.file, k)), SyncPart] + SaveOps(record), replies,
                                          if to == |p.file| then Verify else Continue)))
  {
    var to := ChunkStart(|p.file|, k + 1);
    var record := Progress(w.rx.record, to);
    assert ApplyAll(w.disk, []) == w.disk;
    assert w.disk.finals != [] ==> w.rx.received == 0 && Base(w.ranges) > 0;
    TakenKeepsSafe(p, w, k);
    PhaseChangeKeepsSafe(p, w, AfterRead(w, Reaction(ReceiverState(to, w.rx.hashed + ChunkData(p.file, k), record),
                                          [AppendPart(ChunkData(p.file, k)), SyncPart] + SaveOps(record), replies,
                                          if to == |p.file| then Verify else Continue)));
  }

  lemma AnswerKeepsSafe(p: Params, w: World, k: nat, id: nat)
    requires Safe(p, w) && w.phase.Listening? && ChunkCount(Base(w.ranges)) <= k < ChunkCount(|p.file|)
    ensures Safe(p, AfterRead(w, HonestAnswer(p, w.rx, k, id)))
    ensures w.rx.received <= |p.file|
  {
    assert ApplyAll(w.disk, []) == w.disk;
    var to := ChunkStart(|p.file|, k + 1);
    if ChunkStart(|p.file|, k) == w.rx.received {
      ReadTakenKeepsSafe(p, w, k, [AckFor(p, k, id)]);
    } else if to <= w.rx.received {
      ReadLeftKeepsSafe(p, w, k, [AckFor(p, k, id)], if to == |p.file| || w.rx.received == |p.file| then Verify else Continue);
    } else {
      ReadLeftKeepsSafe(p, w, k, [ErrorReply(InvalidFrame)], Abort(false));
    }
  }

  lemma ReadKeepsSafe(p: Params, w: World, w': World)
    requires Fits(p) && Safe(p, w) && Enabled(p, w, ReceiverReads) && w' == Step(p, w, ReceiverReads)
    ensures Safe(p, w')
  {
    NextReadIsHonest(p, w);
    var k, id := ChunkCount(Base(w.ranges)) + w.delivered, FIRST_ID + w.delivered;
    AnswerKeepsSafe(p, w, k, id);
    HonestRead(p, w, k, id);
  }

  /** The disk once the session's record has been saved. */
  function SavedDisk(d: Disk): Disk {
    d.(journal := Some(Whole(SessionRecord(d))), tmp := None, tmpSynced := true)
  }

  lemma ConnectSaves(p: Params, d: Disk, lag: nat)
    requires Rested(p, d, lag)
    ensures ConsistentThroughout(p, d, SaveOps(SessionRecord(d)), lag)
    ensures ApplyAll(d, SaveOps(SessionRecord(d))) == SavedDisk(d)
    ensures Rested(p, SavedDisk(d), lag) && Journalled(SavedDisk(d)) == Journalled(d)
    ensures SkipRanges(d) == Skips(Journalled(d)) && Aligned(p, Journalled(d))
  {
    var r := SessionRecord(d);
    assert Consistent(p, d.(journal := Some(Whole(r))), lag);
    SaveKeepsConsistency(p, d, r, lag);
    TmpIsIrrelevant(p, d.(journal := Some(Whole(r))), None, true, lag);
  }

  /** Opening the `.part`: kept, created empty, or committed because it is complete. */
  lemma ConnectOpens(p: Params, d: Disk, lag: nat)
    requires Rested(p, d, lag)
    ensures var s, record := SavedDisk(d), SessionRecord(d);
            if AlreadyComplete(Cfg(p), d, record) then
              && ConsistentThroughout(p, s, [CommitPart], lag) && ApplyAll(s, [CommitPart]).finals == [p.file]
              && Journalled(ApplyAll(s, [CommitPart])) == Journalled(d) > 0
            else
              var s' := ApplyAll(s, OpenOps(d, record));
              && ConsistentThroughout(p, s, OpenOps(d, record), lag)
              && Agrees(p, Opened(d, record), s', lag)
              && Journalled(s') == Journalled(d) && s'.finals == d.finals
  {
    ConnectSaves(p, d, lag);
    var s := SavedDisk(d);
    OneOp(s, CommitPart, []);
    OneOp(s, CreatePart, []);
    assert [CommitPart] + [] == [CommitPart] && [CreatePart] + [] == [CreatePart];
    var record := SessionRecord(d);
    if AlreadyComplete(Cfg(p), d, record) {
      assert s.part.value == p.file;
      ConsistentCons(p, s, CommitPart, [], lag);
    } else if !Resumes(d, record) {
      ConsistentCons(p, s, CreatePart, [], lag);
    }
  }

  lemma {:induction false} ThroughoutMayLagMore(p: Params, d: Disk, ops: seq<DiskOp>, lag: nat)
    requires ConsistentThroughout(p, d, ops, lag)
    ensures ConsistentThroughout(p, d, ops, lag + 1)
    decreases |ops|
  {
    LagMayGrow(p, d, lag, lag + 1);
    if ops != [] {
      ThroughoutMayLagMore(p, Apply(d, ops[0]), ops[1..], lag);
    }
  }

  /** Saving and opening, taken together. */
  lemma ConnectPerforms(p: Params, d: Disk, lag: nat)
    requires Rested(p, d, lag)
    ensures var record := SessionRecord(d);
            var complete := AlreadyComplete(Cfg(p), d, record);
            var opening := if complete then [CommitPart] else OpenOps(d, record);
            var d' := ApplyAll(SavedDisk(d), opening);
            && ApplyAll(d, SaveOps(record) + opening) == d'
            && ConsistentThroughout(p, d, SaveOps(record) + opening, lag + 1)
            && PhaseFits(p, Opening(SaveOps(record) + opening, complete), Opened(d, record), d', lag)
            && Journalled(d') == Journalled(d) && (d'.finals != [] ==> Journalled(d) > 0)
    ensures SkipRanges(d) == Skips(Journalled(d)) && Aligned(p, Journalled(d))
  {
    var record := SessionRecord(d);
    ConnectSaves(p, d, lag);
    ConnectOpens(p, d, lag);
    var opening := if AlreadyComplete(Cfg(p), d, record) then [CommitPart] else OpenOps(d, record);
    ConsistentAppend(p, d, SaveOps(record), opening, lag);
    ThroughoutMayLagMore(p, d, SaveOps(record) + opening, lag);
    ApplyAllAppend(d, SaveOps(record), opening);
  }

  lemma SessionStartIsHonest(p: Params, w: World, n: nat, d: Disk)
    requires Aligned(p, n) && w.ranges == Skips(n) && w.sender == StartSender(JobOf(p, w), FIRST_ID)
    requires Journalled(d) == n && (d.finals != [] ==> n > 0)
    ensures HonestSender(p, w, d)
  {
  }

  lemma ConnectKeepsSafe(p: Params, w: World, w': World)
    requires Safe(p, w) && w.phase.Offline? && w' == Connect(p, w)
    ensures Safe(p, w')
  {
    var d, record := w.disk, SessionRecord(w.disk);
    var complete := AlreadyComplete(Cfg(p), d, record);
    var opening := if complete then [CommitPart] else OpenOps(d, record);
    var d' := ApplyAll(SavedDisk(d), opening);
    ConnectPerforms(p, d, w.crashes);
    SessionStartIsHonest(p, w', Journalled(d), d');
    assert w'.phase == Opening(SaveOps(record) + opening, complete) && w'.rx == Opened(d, record);
    SafeSession(p, w', d');
  }

  lemma StepKeepsSafe(p: Params, w: World, e: Event)
    requires Fits(p) && Safe(p, w) && Enabled(p, w, e)
    ensures Safe(p, Step(p, w, e))
  {
    match e
    case SenderMoves => SenderKeepsSafe(p, w, e, Step(p, w, e));
    case SenderHears => SenderKeepsSafe(p, w, e, Step(p, w, e));
    case ReceiverReads => ReadKeepsSafe(p, w, Step(p, w, e));
    case DiskMoves => DiskStepKeepsSafe(p, w);
    case ReceiverMoves => ReceiverMoveKeepsSafe(p, w, Step(p, w, e));
    case Connects => ConnectKeepsSafe(p, w, Step(p, w, e));
    case Completes => assert ApplyAll(w.disk, []) == w.disk;
    case Interrupted(left) => InterruptionKeepsSafe(p, w, left);
  }

  /** Safety over every run, with any interleaving, any crashes and any number of resumed sessions. */
  lemma {:induction false} RunsAreSafe(p: Params, w: World, events: seq<Event>)
    requires Fits(p) && Safe(p, w)
    ensures Safe(p, Execute(p, w, events))
    decreases |events|
  {
    if events != [] {
      if Enabled(p, w, events[0]) {
        StepKeepsSafe(p, w, events[0]);
        RunsAreSafe(p, Step(p, w, events[0]), events[1..]);
      } else {
        RunsAreSafe(p, w, events[1..]);
      }
    }
  }

  lemma LagInBytes(p: Params, n: nat, lag: nat)
    requires Aligned(p, n)
    ensures ChunkStart(|p.file|, ChunkCount(n) + lag) <= n + lag * CHUNK_DATA_SIZE
  {
  }

  /**
   * The crash-consistency theorem. In every state that any run reaches: nothing is committed but the original
   * file, and that once; and until it is, the journal reads back, the `.part` is a prefix of the file that durably
   * holds the journalled bytes, and it is ahead of them by at most one chunk more than there were crashes; after
   * success no `.part` is left, and once the transfer is done no journal.
   */
  lemma OnlyTheOriginalIsCommitted(p: Params, events: seq<Event>)
    requires Fits(p)
    ensures var w := Execute(p, InitialWorld(), events);
            && (w.disk.finals == [] || w.disk.finals == [p.file])
            && (w.phase == Returned(Committed) || w.phase.Done? ==> w.disk.finals == [p.file] && w.disk.part == None)
            && (w.phase.Done? ==> w.disk.journal == None)
            && (w.disk.finals == [] ==>
                  && Load(w.disk).Ok?
                  && (w.disk.part.Some? ==>
                        && w.disk.part.value <= p.file && Journalled(w.disk) <= |w.disk.part.value|
                        && |w.disk.part.value| <= Journalled(w.disk) + (w.crashes + 1) * CHUNK_DATA_SIZE))
  {
    RunsAreSafe(p, InitialWorld(), events);
    var w := Execute(p, InitialWorld(), events);
    if !w.phase.Done? {
      LagMayGrowTo(p, w);
      if w.disk.part.Some? && w.disk.finals == [] {
        LagInBytes(p, Journalled(w.disk), w.crashes + 1);
      }
    }
  }
}
