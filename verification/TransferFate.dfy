/** What a transfer can still become, over any number of further sessions and crashes. */
module TransferFate {
  import opened Bytes
  import opened Results
  import opened Chunks
  import opened Sender
  import opened Storage
  import opened Transfer
  import opened TransferSafety
  import opened TransferProgress
  import opened SessionOutcome
  import opened SessionEndings

  // ----- Disks that no session changes -----

  /** The journal holds the entry, and until the commit the `.part` durably holds the bytes. */
  predicate Held(part: seq<Byte>, e: Entry, d: Disk) {
    && d.journal == Some(Whole(Some(e)))
    && (d.finals == [] ==> d.part == Some(part) && d.synced == |part|)
  }

  predicate HeldThroughout(part: seq<Byte>, e: Entry, d: Disk, ops: seq<DiskOp>)
    decreases |ops|
  {
    Held(part, e, d) && (ops != [] ==> HeldThroughout(part, e, Apply(d, ops[0]), ops[1..]))
  }

  lemma HeldCons(part: seq<Byte>, e: Entry, d: Disk, op: DiskOp, rest: seq<DiskOp>)
    requires Held(part, e, d) && HeldThroughout(part, e, Apply(d, op), rest)
    ensures HeldThroughout(part, e, d, [op] + rest)
  {
    assert ([op] + rest)[1..] == rest;
  }

  lemma {:induction false} HeldAppend(part: seq<Byte>, e: Entry, d: Disk, xs: seq<DiskOp>, ys: seq<DiskOp>)
    requires HeldThroughout(part, e, d, xs) && HeldThroughout(part, e, ApplyAll(d, xs), ys)
    ensures HeldThroughout(part, e, d, xs + ys)
    decreases |xs|
  {
    if xs == [] {
      assert xs + ys == ys;
    } else {
      HeldAppend(part, e, Apply(d, xs[0]), xs[1..], ys);
      HeldCons(part, e, d, xs[0], xs[1..] + ys);
      assert xs + ys == [xs[0]] + (xs[1..] + ys);
    }
  }

  /** Saving the entry that is journalled already changes nothing that counts. */
  lemma SaveHolds(part: seq<Byte>, e: Entry, d: Disk)
    requires Held(part, e, d)
    ensures HeldThroughout(part, e, d, SaveOps(Some(e))) && Held(part, e, ApplyAll(d, SaveOps(Some(e))))
  {
    var r := Some(e);
    var ds := SaveSteps(d, r);
    HeldCons(part, e, ds[3], RenameTmp, []);
    HeldCons(part, e, ds[2], SyncTmp, [RenameTmp] + []);
    HeldCons(part, e, ds[1], WriteTmp(r), [SyncTmp] + ([RenameTmp] + []));
    HeldCons(part, e, d, CreateTmp, [WriteTmp(r)] + ([SyncTmp] + ([RenameTmp] + [])));
    assert SaveOps(r) == [CreateTmp] + ([WriteTmp(r)] + ([SyncTmp] + ([RenameTmp] + [])));
    SavedDiskIs(d, r);
  }

  /** Nor does a crash, since all of it is durable. */
  lemma CrashHolds(part: seq<Byte>, e: Entry, d: Disk, left: Disk)
    requires Held(part, e, d) && CrashLeaves(d, left)
    ensures Held(part, e, left) && left.finals == d.finals
  {
    if d.finals == [] {
      assert left.part.value == part[..|left.part.value|];
      assert left.part.value == part;
    }
  }

  // ----- A torn `.part` -----

  /** A transfer whose `.part` ends inside a chunk, between sessions or in one. */
  predicate TornWorld(p: Params, w: World, part: seq<Byte>, e: Entry) {
    && Fits(p) && Safe(p, w) && !w.phase.Done? && w.disk.finals == [] && TornAt(p, |part|) && e.receivedBytes > 0
    && HeldThroughout(part, e, w.disk, Pending(w.phase)) && (forall op <- Pending(w.phase) :: !op.CommitPart?)
    && (!w.phase.Offline? ==> Running(p, w, ChunkCount(e.receivedBytes), |part|))
  }

  lemma TornConnects(p: Params, w: World, w': World, part: seq<Byte>, e: Entry)
    requires TornWorld(p, w, part, e) && w.phase.Offline? && w' == Connect(p, w)
    ensures TornWorld(p, w', part, e)
  {
    assert SessionRecord(w.disk) == Some(e);
    ConnectKeepsSafe(p, w, w');
    ConnectedIsRunning(p, w);
    SaveHolds(part, e, w.disk);
    assert SaveOps(Some(e)) + [] == SaveOps(Some(e));
  }

  /** A chunk is acknowledged as a replay or refused, and never taken. */
  lemma TornReads(p: Params, w: World, w': World, part: seq<Byte>, e: Entry)
    requires TornWorld(p, w, part, e) && Enabled(p, w, ReceiverReads) && w' == Step(p, w, ReceiverReads)
    ensures w'.disk == w.disk && w'.phase.Reacting? && w'.phase.ops == []
  {
    ReadGetsAnswer(p, w, w', ChunkCount(e.receivedBytes), |part|);
  }

  lemma TornMoves(p: Params, w: World, w': World, part: seq<Byte>, e: Entry)
    requires TornWorld(p, w, part, e) && Enabled(p, w, ReceiverMoves) && w' == Step(p, w, ReceiverMoves)
    ensures w'.disk == w.disk && Pending(w'.phase) == [] && !w'.phase.Done?
  {
  }

  /** The disk and the operations ahead, after a step within the session. */
  lemma TornDisk(p: Params, w: World, ev: Event, w': World, part: seq<Byte>, e: Entry)
    requires TornWorld(p, w, part, e) && Internal(ev) && Enabled(p, w, ev) && w' == Step(p, w, ev)
    ensures w'.disk.finals == [] && HeldThroughout(part, e, w'.disk, Pending(w'.phase))
    ensures (forall op <- Pending(w'.phase) :: !op.CommitPart?) && InSession(w')
  {
    match ev
    case ReceiverReads => TornReads(p, w, w', part, e);
    case ReceiverMoves => TornMoves(p, w, w', part, e);
    case DiskMoves =>
      assert Pending(w'.phase) == Pending(w.phase)[1..];
      assert Pending(w.phase)[0] in Pending(w.phase) && forall op <- Pending(w.phase)[1..] :: op in Pending(w.phase);
    case _ =>
  }

  lemma TornStays(p: Params, w: World, ev: Event, w': World, part: seq<Byte>, e: Entry)
    requires TornWorld(p, w, part, e) && Enabled(p, w, ev) && w' == Step(p, w, ev)
    ensures TornWorld(p, w', part, e)
  {
    if Internal(ev) {
      StepKeepsSafe(p, w, ev);
      StepKeepsRunning(p, w, ev, w', ChunkCount(e.receivedBytes), |part|);
      TornDisk(p, w, ev, w', part, e);
    } else if ev.Connects? {
      TornConnects(p, w, w', part, e);
    } else if ev.Interrupted? {
      StepKeepsSafe(p, w, ev);
      CrashHolds(part, e, w.disk, ev.left);
    }
  }

  lemma {:induction false} TornRun(p: Params, w: World, events: seq<Event>, part: seq<Byte>, e: Entry)
    requires TornWorld(p, w, part, e)
    ensures TornWorld(p, Execute(p, w, events), part, e)
    decreases |events|
  {
    if events != [] {
      if Enabled(p, w, events[0]) {
        TornStays(p, w, events[0], Step(p, w, events[0]), part, e);
        TornRun(p, Step(p, w, events[0]), events[1..], part, e);
      } else {
        TornRun(p, w, events[1..], part, e);
      }
    }
  }

  lemma TornIsTornWorld(p: Params, w: World) returns (part: seq<Byte>, e: Entry)
    requires Fits(p) && Resting(p, w) && TornPart(p, w)
    ensures w.disk.part == Some(part) && TornWorld(p, w, part, e)
  {
    RestingIsSafe(p, w);
    part, e := w.disk.part.value, w.disk.journal.value.record.value;
  }

  /** A torn `.part` is for ever: no further session or crash changes it, commits anything or completes the transfer. */
  lemma TornIsForever(p: Params, w: World, events: seq<Event>)
    requires Fits(p) && Resting(p, w) && TornPart(p, w)
    ensures var w' := Execute(p, w, events);
            w'.disk.finals == [] && w'.disk.part == w.disk.part && !w'.phase.Done? && !BothDone(p, w')
  {
    var part, e := TornIsTornWorld(p, w);
    TornRun(p, w, events, part, e);
  }

  // ----- After the commit -----

  /** A transfer whose file is committed while its journal lives on, between sessions or in a later one. */
  ghost predicate SpentWorld(p: Params, w: World) {
    && Fits(p) && Safe(p, w) && !w.phase.Done? && w.disk.finals != []
    && (!w.phase.Offline? ==> exists k0 :: Spent(p, w, k0))
  }

  lemma CommitsStay(p: Params, w: World, ev: Event)
    requires Enabled(p, w, ev) && w.disk.finals != []
    ensures Step(p, w, ev).disk.finals != []
  {
  }

  lemma SpentStays(p: Params, w: World, ev: Event, w': World)
    requires SpentWorld(p, w) && Enabled(p, w, ev) && w' == Step(p, w, ev)
    ensures SpentWorld(p, w')
  {
    StepKeepsSafe(p, w, ev);
    CommitsStay(p, w, ev);
    if Internal(ev) {
      var k0 :| Spent(p, w, k0);
      StepKeepsSpent(p, w, ev, w', k0);
    } else if ev.Connects? {
      ConnectedIsSpent(p, w);
    }
  }

  // ----- A complete `.part` ahead of its journal -----

  /** A transfer whose whole file is in the `.part`, or committed from there, while the journal knows of less. */
  predicate AheadWorld(p: Params, w: World, e: Entry) {
    && Fits(p) && Safe(p, w) && !w.phase.Done? && 0 < ChunkCount(e.receivedBytes) < ChunkCount(|p.file|)
    && HeldThroughout(p.file, e, w.disk, Pending(w.phase))
    && (if w.phase.Offline? then w.disk.finals == [] else Instant(p, w, ChunkCount(e.receivedBytes)))
  }

  /** Its sender never comes to its end. */
  lemma AheadIsNotFinished(p: Params, w: World, k0: nat)
    requires Instant(p, w, k0) && k0 < ChunkCount(|p.file|)
    ensures !Mode(JobOf(p, w), w.sender).Finished?
  {
    ChunkStartCounts(|p.file|, k0);
    PlanAfterSkip(p, ChunkStart(|p.file|, k0), w.sender.sent + w.sender.skipped);
  }

  lemma AheadConnects(p: Params, w: World, w': World, e: Entry)
    requires AheadWorld(p, w, e) && w.phase.Offline? && w' == Connect(p, w)
    ensures AheadWorld(p, w', e)
  {
    assert SessionRecord(w.disk) == Some(e);
    ConnectKeepsSafe(p, w, w');
    ConnectedIsRunning(p, w);
    SaveHolds(p.file, e, w.disk);
    var saved := ApplyAll(w.disk, SaveOps(Some(e)));
    HeldCons(p.file, e, saved, CommitPart, []);
    assert [CommitPart] + [] == [CommitPart];
    HeldAppend(p.file, e, w.disk, SaveOps(Some(e)), [CommitPart]);
  }

  lemma AheadMoves(p: Params, w: World, ev: Event, w': World, e: Entry)
    requires AheadWorld(p, w, e) && Internal(ev) && Enabled(p, w, ev) && w' == Step(p, w, ev)
    ensures HeldThroughout(p.file, e, w'.disk, Pending(w'.phase))
  {
    if ev.DiskMoves? {
      assert Pending(w'.phase) == Pending(w.phase)[1..];
    }
  }

  /** It stays so, until a crash after the commit. */
  lemma AheadStays(p: Params, w: World, ev: Event, w': World, e: Entry)
    requires AheadWorld(p, w, e) && Enabled(p, w, ev) && w' == Step(p, w, ev)
    ensures AheadWorld(p, w', e) || SpentWorld(p, w')
  {
    if Internal(ev) {
      StepKeepsSafe(p, w, ev);
      StepKeepsInstant(p, w, ev, w', ChunkCount(e.receivedBytes));
      AheadMoves(p, w, ev, w', e);
    } else if ev.Connects? {
      AheadConnects(p, w, w', e);
    } else if ev.Interrupted? {
      StepKeepsSafe(p, w, ev);
      CrashHolds(p.file, e, w.disk, ev.left);
    } else {
      AheadIsNotFinished(p, w, ChunkCount(e.receivedBytes));
    }
  }

  // ----- An empty file -----

  predicate EmptyWorld(p: Params, w: World) {
    Fits(p) && Safe(p, w) && !w.phase.Done? && w.disk.finals == [] && p.file == []
  }

  lemma EmptyStays(p: Params, w: World, ev: Event, w': World)
    requires EmptyWorld(p, w) && Enabled(p, w, ev) && w' == Step(p, w, ev)
    ensures EmptyWorld(p, w')
  {
    StepKeepsSafe(p, w, ev);
    if !ev.Completes? {
      LagMayGrowTo(p, w');
    }
  }

  lemma {:induction false} EmptyRun(p: Params, w: World, events: seq<Event>)
    requires EmptyWorld(p, w)
    ensures EmptyWorld(p, Execute(p, w, events))
    decreases |events|
  {
    if events != [] {
      if Enabled(p, w, events[0]) {
        EmptyStays(p, w, events[0], Step(p, w, events[0]));
        EmptyRun(p, Step(p, w, events[0]), events[1..]);
      } else {
        EmptyRun(p, w, events[1..]);
      }
    }
  }

  // ----- What can still happen -----

  ghost predicate Hopeless(p: Params, w: World) {
    || (exists part, e :: TornWorld(p, w, part, e))
    || SpentWorld(p, w)
    || (exists e :: AheadWorld(p, w, e))
    || EmptyWorld(p, w)
  }

  lemma HopelessStays(p: Params, w: World, ev: Event, w': World)
    requires Hopeless(p, w) && Enabled(p, w, ev) && w' == Step(p, w, ev)
    ensures Hopeless(p, w')
  {
    if part, e :| TornWorld(p, w, part, e) {
      TornStays(p, w, ev, w', part, e);
    } else if SpentWorld(p, w) {
      SpentStays(p, w, ev, w');
    } else if e :| AheadWorld(p, w, e) {
      AheadStays(p, w, ev, w', e);
    } else {
      EmptyStays(p, w, ev, w');
    }
  }

  lemma {:induction false} HopelessRun(p: Params, w: World, events: seq<Event>)
    requires Hopeless(p, w)
    ensures Hopeless(p, Execute(p, w, events))
    decreases |events|
  {
    if events != [] {
      if Enabled(p, w, events[0]) {
        HopelessStays(p, w, events[0], Step(p, w, events[0]));
        HopelessRun(p, Step(p, w, events[0]), events[1..]);
      } else {
        HopelessRun(p, w, events[1..]);
      }
    }
  }

  lemma HopelessIsNotDone(p: Params, w: World)
    requires Hopeless(p, w)
    ensures !BothDone(p, w) && !w.phase.Done?
  {
    if e :| AheadWorld(p, w, e) {
      if InSession(w) {
        AheadIsNotFinished(p, w, ChunkCount(e.receivedBytes));
      }
    } else if EmptyWorld(p, w) && w.phase.Returned? {
      assert ApplyAll(w.disk, []) == w.disk;
    }
  }

  lemma AheadIsAheadWorld(p: Params, w: World)
    requires Fits(p) && Safe(p, w) && w.phase.Offline? && EndingOf(p, w.disk) == SenderWaits
    ensures AheadWorld(p, w, w.disk.journal.value.record.value)
  {
    assert w.disk.part.value == p.file;
  }

  lemma RestingIsHopeless(p: Params, w: World)
    requires Fits(p) && Resting(p, w) && !CanComplete(p, w.disk)
    ensures Hopeless(p, w)
  {
    RestingIsSafe(p, w);
    if w.disk.finals != [] || p.file == [] {
      assert SpentWorld(p, w) || EmptyWorld(p, w);
    } else if !Aligned(p, HeldAtStart(w.disk)) {
      var part, e := TornIsTornWorld(p, w);
    } else {
      AheadIsAheadWorld(p, w);
    }
  }

  /** The session that a connection starts, run to its end. */
  lemma SessionToItsEnd(p: Params, w: World) returns (events: seq<Event>, w': World)
    requires Fits(p) && Safe(p, w) && w.phase.Offline? && Load(w.disk).Ok?
    ensures w' == Execute(p, w, events) && EndsAs(p, w', EndingOf(p, w.disk))
  {
    var more := EverySessionRunExtends(p, w, []);
    assert [] + more == more;
    events := [Connects] + more;
    assert events[1..] == more;
    w' := Execute(p, w, events);
    SessionEndsAs(p, w, more, w');
  }

  /**
   * Over any number of further sessions and crashes, both sides can still come to a good end exactly if the very next
   * session can: what it cannot complete, nothing later completes.
   */
  lemma DoneReachableIff(p: Params, w: World)
    requires Fits(p) && Resting(p, w)
    ensures (exists events :: BothDone(p, Execute(p, w, events))) <==> CanComplete(p, w.disk)
  {
    if CanComplete(p, w.disk) {
      RestingIsSafe(p, w);
      var events, w' := SessionToItsEnd(p, w);
    } else {
      RestingIsHopeless(p, w);
      forall events ensures !BothDone(p, Execute(p, w, events)) {
        HopelessRun(p, w, events);
        HopelessIsNotDone(p, Execute(p, w, events));
      }
    }
  }

  lemma StayingPut(p: Params, w: World) returns (none: seq<Event>)
    ensures Execute(p, w, none) == w
  {
    none := [];
  }

  /** The file can still be committed exactly if it is not empty and its `.part` is not torn. */
  lemma CommitReachableIff(p: Params, w: World)
    requires Fits(p) && Resting(p, w)
    ensures (exists events :: Execute(p, w, events).disk.finals != []) <==> p.file != [] && !TornPart(p, w)
  {
    RestingIsSafe(p, w);
    if p.file == [] {
      forall events ensures Execute(p, w, events).disk.finals == [] {
        EmptyRun(p, w, events);
      }
    } else if TornPart(p, w) {
      forall events ensures Execute(p, w, events).disk.finals == [] {
        TornIsForever(p, w, events);
      }
    } else if w.disk.finals != [] {
      var none := StayingPut(p, w);
    } else {
      var events, w' := SessionToItsEnd(p, w);
    }
  }
}
