/** Which of the failing endings crashes can really bring about, and for which files. */
module SessionEndings {
  import opened Results
  import opened Chunks
  import opened Storage
  import opened Transfer
  import opened TransferSafety
  import opened TransferProgress
  import opened TransferLag
  import opened SessionOutcome

  /** A state between sessions that some run reaches. */
  ghost predicate Resting(p: Params, w: World) {
    Reaches(p, InitialWorld(), w) && w.phase.Offline?
  }

  lemma RestingIsSafe(p: Params, w: World)
    requires Fits(p) && Resting(p, w)
    ensures Safe(p, w)
  {
    var events :| Execute(p, InitialWorld(), events) == w;
    RunsAreSafe(p, InitialWorld(), events);
  }

  lemma Interrupt(p: Params, w: World, left: Disk) returns (w': World)
    requires Reaches(p, InitialWorld(), w) && !w.phase.Done? && CrashLeaves(w.disk, left)
    ensures Resting(p, w') && w'.disk == left
  {
    ReachesStep(p, InitialWorld(), w, Interrupted(left));
    w' := Step(p, w, Interrupted(left));
  }

  // ----- A torn `.part` -----

  predicate TornPart(p: Params, w: World) {
    w.disk.finals == [] && !Aligned(p, HeldAtStart(w.disk))
  }

  lemma TornIsReached(p: Params) returns (w: World)
    requires Fits(p) && |p.file| > C + 1
    ensures Resting(p, w) && TornPart(p, w)
  {
    var w1 := FirstChunk(p);
    var w2 := NextArrives(p, InitialWorld(), w1, 1);
    var data := ChunkData(p.file, 1);
    DiskRuns(p, InitialWorld(), w2, 1);
    assert w2.phase.ops[..1] == [AppendPart(data)];
    assert ApplyAll(w2.disk, [AppendPart(data)]) == ApplyAll(Apply(w2.disk, AppendPart(data)), []);
    var w3 := w2.(disk := ApplyAll(w2.disk, w2.phase.ops[..1]), phase := WithOps(w2.phase, w2.phase.ops[1..]));
    ChunkExtendsPrefix(p.file, 1);
    var left := w3.disk.(part := Some(p.file[..C + 1]), synced := C + 1);
    w := Interrupt(p, w3, left);
  }

  /** A crash can leave a torn `.part` exactly if the file is more than one byte longer than a chunk. */
  lemma TornIff(p: Params)
    requires Fits(p)
    ensures (exists w :: Resting(p, w) && TornPart(p, w)) <==> |p.file| > C + 1
  {
    if |p.file| > C + 1 {
      var w := TornIsReached(p);
    } else {
      forall w | Resting(p, w) ensures !TornPart(p, w) {
        RestingIsSafe(p, w);
      }
    }
  }

  // ----- A complete `.part` ahead of its journal -----

  lemma AheadIsReached(p: Params) returns (w: World)
    requires Fits(p) && |p.file| > C
    ensures Resting(p, w) && EndingOf(p, w.disk) == SenderWaits && Behind(p, w.disk, ChunkCount(|p.file|))
  {
    var w1 := FallsBehind(p, ChunkCount(|p.file|) - 2);
    w := Interrupt(p, w1, w1.disk);
  }

  /** A crash can leave a complete `.part` ahead of its journal exactly if the file is longer than a chunk. */
  lemma SenderWaitsIff(p: Params)
    requires Fits(p)
    ensures (exists w :: Resting(p, w) && EndingOf(p, w.disk) == SenderWaits) <==> |p.file| > C
  {
    if |p.file| > C {
      var w := AheadIsReached(p);
    } else {
      forall w | Resting(p, w) ensures EndingOf(p, w.disk) != SenderWaits {
        RestingIsSafe(p, w);
      }
    }
  }

  // ----- A journal that outlives the commit -----

  /** What is committed without a crash is journalled as complete. */
  predicate CommitIsJournalled(p: Params, w: World) {
    && w.crashes == 0
    && ((w.phase.Closing? || w.phase.Returned?) && w.phase.outcome.Committed? ==>
          Journalled(w.disk) == |p.file| && forall op <- Pending(w.phase) :: op.CommitPart?)
  }

  lemma VerifiedIsJournalled(p: Params, w: World)
    requires Safe(p, w) && w.crashes == 0 && w.phase.Reacting? && w.phase.next.Verify? && Pending(w.phase) == []
    ensures Journalled(w.disk) == |p.file|
  {
    assert ApplyAll(w.disk, []) == w.disk;
    assert Agrees(p, w.rx, w.disk, 0);
  }

  lemma StepKeepsCommitJournalled(p: Params, w: World, e: Event, w': World)
    requires Safe(p, w) && Running(p, w, 0, 0) && CommitIsJournalled(p, w)
    requires Internal(e) && Enabled(p, w, e) && w' == Step(p, w, e)
    ensures CommitIsJournalled(p, w')
  {
    if e.ReceiverMoves? && w.phase.Reacting? && w.phase.next.Verify? {
      ReceivedAllVerifies(p, w, 0, 0);
      VerifiedIsJournalled(p, w);
    }
  }

  lemma {:induction false} RunKeepsCommitJournalled(p: Params, w: World, events: seq<Event>)
    requires Fits(p) && Safe(p, w) && Running(p, w, 0, 0) && CommitIsJournalled(p, w) && forall e <- events :: Internal(e)
    ensures CommitIsJournalled(p, Execute(p, w, events))
    decreases |events|
  {
    if events != [] {
      if Enabled(p, w, events[0]) {
        var w1 := Step(p, w, events[0]);
        StepKeepsSafe(p, w, events[0]);
        StepKeepsRunning(p, w, events[0], w1, 0, 0);
        StepKeepsCommitJournalled(p, w, events[0], w1);
        RunKeepsCommitJournalled(p, w1, events[1..]);
      } else {
        RunKeepsCommitJournalled(p, w, events[1..]);
      }
    }
  }

  lemma CommittedIsReached(p: Params) returns (w: World)
    requires Fits(p) && p.file != []
    ensures Resting(p, w) && w.disk.finals == [p.file] && Journalled(w.disk) == |p.file|
  {
    var w0 := InitialWorld();
    var c := Connect(p, w0);
    var events := EverySessionRunExtends(p, w0, []);
    assert [] + events == events;
    var w1 := Execute(p, c, events);
    SessionCompletesIff(p, [], w0, events, w1);
    StepKeepsSafe(p, w0, Connects);
    ConnectedIsRunning(p, w0);
    RunKeepsCommitJournalled(p, c, events);
    assert Reaches(p, w0, w1) by {
      assert Execute(p, w0, []) == w0;
      ReachesStep(p, w0, w0, Connects);
      ReachesMore(p, w0, c, w1);
    }
    SessionStaysRunning(p, w0, events, w1);
    LagMayGrowTo(p, w1);
    w := Interrupt(p, w1, w1.disk.(synced := 0));
  }

  /** A crash after the commit can leave a complete journal behind for every file that can be committed at all. */
  lemma CommittedIff(p: Params)
    requires Fits(p)
    ensures (exists w :: Resting(p, w) && w.disk.finals != [] && EndingOf(p, w.disk) == ReceiverWaits) <==> p.file != []
  {
    if p.file != [] {
      var w := CommittedIsReached(p);
    } else {
      forall w | Resting(p, w) ensures w.disk.finals == [] {
        RestingIsSafe(p, w);
      }
    }
  }

  lemma CommittedBehindIsReached(p: Params) returns (w: World)
    requires Fits(p) && |p.file| > C
    ensures Resting(p, w) && w.disk.finals == [p.file] && Journalled(w.disk) == C
  {
    var w0 := AheadIsReached(p);
    RestingIsSafe(p, w0);
    var count, record := ChunkCount(|p.file|), Some(Entry(C, [(0, C)]));
    assert w0.disk.part.value == p.file && SessionRecord(w0.disk) == record;
    ReachesStep(p, InitialWorld(), w0, Connects);
    var w1 := Step(p, w0, Connects);
    var ops := SaveOps(record) + [CommitPart];
    assert w1.phase == Opening(ops, true);
    DiskRuns(p, InitialWorld(), w1, |ops|);
    assert ops[..|ops|] == ops && ops[|ops|..] == [];
    ApplyAllAppend(w1.disk, SaveOps(record), [CommitPart]);
    SavedDiskIs(w1.disk, record);
    var saved := ApplyAll(w1.disk, SaveOps(record));
    assert ApplyAll(saved, [CommitPart]) == ApplyAll(Apply(saved, CommitPart), []);
    var w2 := w1.(disk := ApplyAll(w1.disk, ops), phase := Opening([], true));
    w := Interrupt(p, w2, w2.disk);
  }

  /** And a journal that is behind, exactly if the file is longer than a chunk. */
  lemma CommittedBehindIff(p: Params)
    requires Fits(p)
    ensures (exists w :: Resting(p, w) && w.disk.finals != [] && EndingOf(p, w.disk) == Rejects) <==> |p.file| > C
  {
    if |p.file| > C {
      var w := CommittedBehindIsReached(p);
    } else {
      forall w | Resting(p, w) && w.disk.finals != [] ensures EndingOf(p, w.disk) != Rejects {
        RestingIsSafe(p, w);
      }
    }
  }
}
