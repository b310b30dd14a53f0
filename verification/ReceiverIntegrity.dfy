/** What the receiver guarantees about its disk against any sequence of frames whatever. */
module ReceiverIntegrity {
  import opened Bytes
  import opened Results
  import opened Chunks
  import opened Sender
  import opened Storage
  import opened Receiver

  /** How the loop goes on after a frame: it reads on, makes the final checks, or gives up and keeps or deletes the `.part`. */
  datatype Way = ReadsOn | Checks | Stops | Discards

  /** Whether a frame's data is taken, and how the loop goes on. */
  datatype Verdict = Take(data: seq<Byte>, way: Way) | Leave(way: Way)

  /**
   * Taken are the hash-valid chunks of our stream that start where the `pos` bytes held end and fit the size. A cancelled
   * transfer, a bad hash and data past the announced size delete the `.part`; a closed session, a frame that does not
   * decode, a gap and an overlap leave it for later.
   */
  function Judge(cfg: Config, pos: nat, f: LinkFrame): Verdict {
    match f
    case KeepaliveFrame => Leave(ReadsOn)
    case ControlFrame(m) =>
      Leave(if m.TransferCancel? then Discards else if m.Undecodable? || m.SessionClose? then Stops else ReadsOn)
    case ChunkFrame(stream, _, last, payload) =>
      if stream != cfg.streamId || ParseChunk(payload).None? then Leave(ReadsOn)
      else
        var c := ParseChunk(payload).value;
        var end := c.offset + |c.data|;
        if c.hash != cfg.sha(c.data) then Leave(Discards)
        else if end <= pos then Leave(if last || pos == cfg.expectedSize then Checks else ReadsOn)
        else if c.offset != pos then Leave(Stops)
        else if end > cfg.expectedSize then Leave(Discards)
        else Take(c.data, if last || end == cfg.expectedSize then Checks else ReadsOn)
  }

  /** The replies to a frame: a chunk of our stream is acknowledged, taken or replayed, or answered with an error. */
  function RepliesTo(cfg: Config, pos: nat, f: LinkFrame): seq<Message> {
    if !f.ChunkFrame? || f.streamId != cfg.streamId || ParseChunk(f.payload).None? then []
    else
      var c := ParseChunk(f.payload).value;
      if c.hash != cfg.sha(c.data) then [ErrorReply(ChecksumMismatch)]
      else match Judge(cfg, pos, f)
        case Leave(Stops) => [ErrorReply(InvalidFrame)]
        case Leave(Discards) => [ErrorReply(InvalidFrame)]
        case _ => [ChunkAck(cfg.streamId, f.messageId, c.offset, |c.data|)]
  }

  /** The data taken, from `pos` on, until a frame ends the loop. */
  function Accepted(cfg: Config, pos: nat, frames: seq<LinkFrame>): seq<Byte>
    decreases |frames|
  {
    if frames == [] then []
    else match Judge(cfg, pos, frames[0])
      case Take(data, way) => data + (if way.ReadsOn? then Accepted(cfg, pos + |data|, frames[1..]) else [])
      case Leave(way) => if way.ReadsOn? then Accepted(cfg, pos, frames[1..]) else []
  }

  /** The `.part` and the running hash hold the same bytes, counted by `received`. */
  predicate InStep(r: ReceiverState, d: Disk) {
    d.part == Some(r.hashed) && |r.hashed| == r.received
  }

  predicate JournalLags(d: Disk)
    requires d.part.Some?
  {
    && d.journal.Some? && d.journal.value.Whole?
    && (d.journal.value.record.Some? ==>
          var e := d.journal.value.record.value;
          e.receivedBytes <= |d.part.value| && e.receivedRanges == [(0, e.receivedBytes)])
  }

  /**
   * Every disk on the way: the `.part` is a prefix of the data accepted overall and, unless it is as the receiver
   * found it, within the announced size; a journal written since the start does not run ahead of it; and the only file
   * that may have been committed is the data accepted overall, with the announced size and hash.
   */
  predicate Sound(cfg: Config, base: Disk, total: seq<Byte>, d: Disk) {
    && (d.part.Some? ==> d.part.value <= total && (|d.part.value| <= cfg.expectedSize || d.part == base.part))
    && (d.part.Some? && d.journal != base.journal ==> JournalLags(d))
    && (d.finals == base.finals
        || (d.finals == base.finals + [total] && |total| == cfg.expectedSize && cfg.sha(total) == cfg.expectedHash))
  }

  function Continuing(way: Way): Continuation {
    match way
    case ReadsOn => Continue
    case Checks => Verify
    case Stops => Abort(false)
    case Discards => Abort(true)
  }

  /** A reaction writes to the disk only by taking a chunk, and goes on and replies as the verdict says. */
  lemma ReactionTakes(cfg: Config, r: ReceiverState, f: LinkFrame)
    ensures var a, verdict := React(cfg, r, f), Judge(cfg, r.received, f);
            && a.next == Continuing(verdict.way) && a.replies == RepliesTo(cfg, r.received, f)
            && match verdict
               case Take(data, way) =>
                 && a.state == ReceiverState(r.received + |data|, r.hashed + data, Progress(r.record, r.received + |data|))
                 && a.ops == [AppendPart(data), SyncPart] + SaveOps(a.state.record)
                 && (way.ReadsOn? || way.Checks?) && r.received + |data| <= cfg.expectedSize
               case Leave(_) => a.state == r && a.ops == []
  {
    match f
    case ChunkFrame(_, _, _, _) =>
    case ControlFrame(m) =>
    case KeepaliveFrame =>
  }

  /** `Sound` now and after each of the operations. */
  predicate AlwaysSound(cfg: Config, base: Disk, total: seq<Byte>, d: Disk, ops: seq<DiskOp>)
    decreases |ops|
  {
    Sound(cfg, base, total, d) && (ops != [] ==> AlwaysSound(cfg, base, total, Apply(d, ops[0]), ops[1..]))
  }

  lemma SoundCons(cfg: Config, base: Disk, total: seq<Byte>, d: Disk, op: DiskOp, rest: seq<DiskOp>)
    requires Sound(cfg, base, total, d) && AlwaysSound(cfg, base, total, Apply(d, op), rest)
    ensures AlwaysSound(cfg, base, total, d, [op] + rest)
  {
    assert ([op] + rest)[1..] == rest;
  }

  lemma {:induction false} AlwaysSoundAppend(
    cfg: Config, base: Disk, total: seq<Byte>, d: Disk, xs: seq<DiskOp>, ys: seq<DiskOp>)
    requires AlwaysSound(cfg, base, total, d, xs) && AlwaysSound(cfg, base, total, ApplyAll(d, xs), ys)
    ensures AlwaysSound(cfg, base, total, d, xs + ys)
    decreases |xs|
  {
    if xs == [] {
      assert xs + ys == ys;
    } else {
      AlwaysSoundAppend(cfg, base, total, Apply(d, xs[0]), xs[1..], ys);
      SoundCons(cfg, base, total, d, xs[0], xs[1..] + ys);
      assert xs + ys == [xs[0]] + (xs[1..] + ys);
    }
  }

  lemma {:induction false} SoundAtEnd(cfg: Config, base: Disk, total: seq<Byte>, d: Disk, ops: seq<DiskOp>)
    requires AlwaysSound(cfg, base, total, d, ops)
    ensures Sound(cfg, base, total, ApplyAll(d, ops))
    decreases |ops|
  {
    if ops != [] {
      SoundAtEnd(cfg, base, total, Apply(d, ops[0]), ops[1..]);
    }
  }

  lemma SaveIsSound(cfg: Config, base: Disk, total: seq<Byte>, d: Disk, r: Record)
    requires Sound(cfg, base, total, d) && Sound(cfg, base, total, d.(journal := Some(Whole(r))))
    ensures AlwaysSound(cfg, base, total, d, SaveOps(r))
  {
    var ds := SaveSteps(d, r);
    SoundCons(cfg, base, total, ds[3], RenameTmp, []);
    SoundCons(cfg, base, total, ds[2], SyncTmp, [RenameTmp] + []);
    SoundCons(cfg, base, total, ds[1], WriteTmp(r), [SyncTmp] + ([RenameTmp] + []));
    SoundCons(cfg, base, total, d, CreateTmp, [WriteTmp(r)] + ([SyncTmp] + ([RenameTmp] + [])));
    assert SaveOps(r) == [CreateTmp] + ([WriteTmp(r)] + ([SyncTmp] + ([RenameTmp] + [])));
  }

  lemma AcceptIsSound(cfg: Config, r: ReceiverState, base: Disk, d: Disk, data: seq<Byte>, total: seq<Byte>)
    requires InStep(r, d) && Sound(cfg, base, total, d) && d.finals == base.finals
    requires r.hashed + data <= total && r.received + |data| <= cfg.expectedSize
    ensures var record := Progress(r.record, r.received + |data|);
            AlwaysSound(cfg, base, total, d, [AppendPart(data), SyncPart] + SaveOps(record))
  {
    var record := Progress(r.record, r.received + |data|);
    var d1 := Apply(d, AppendPart(data));
    var d2 := Apply(d1, SyncPart);
    assert Sound(cfg, base, total, d2.(journal := Some(Whole(record))));
    SaveIsSound(cfg, base, total, d2, record);
    SoundCons(cfg, base, total, d1, SyncPart, SaveOps(record));
    SoundCons(cfg, base, total, d, AppendPart(data), [SyncPart] + SaveOps(record));
    assert [AppendPart(data), SyncPart] + SaveOps(record) == [AppendPart(data)] + ([SyncPart] + SaveOps(record));
  }

  /** One reaction keeps the disk sound and the receiver in step with it. */
  lemma ReactionIsSound(cfg: Config, r: ReceiverState, base: Disk, d: Disk, f: LinkFrame, total: seq<Byte>)
    requires InStep(r, d) && Sound(cfg, base, total, d) && d.finals == base.finals
    requires React(cfg, r, f).state.hashed <= total
    ensures var a := React(cfg, r, f);
            var d' := ApplyAll(d, a.ops);
            && AlwaysSound(cfg, base, total, d, a.ops) && Sound(cfg, base, total, d')
            && InStep(a.state, d') && d'.finals == base.finals
            && (a.ops != [] ==> d'.journal == Some(Whole(a.state.record)))
  {
    ReactionTakes(cfg, r, f);
    var a := React(cfg, r, f);
    var verdict := Judge(cfg, r.received, f);
    if verdict.Take? {
      AcceptIsSound(cfg, r, base, d, verdict.data, total);
      AcceptedDisk(d, verdict.data, a.state.record);
    }
    SoundAtEnd(cfg, base, total, d, a.ops);
  }

  lemma ConclusionIsSound(cfg: Config, r: ReceiverState, base: Disk, d: Disk, next: Continuation)
    requires InStep(r, d) && Sound(cfg, base, r.hashed, d) && d.finals == base.finals
    ensures var c := Conclude(cfg, r, next);
            && AlwaysSound(cfg, base, r.hashed, d, c.ops)
            && ApplyAll(d, c.ops).finals == if c.outcome.Committed? then base.finals + [r.hashed] else base.finals
  {
    OneOp(d, CommitPart, []);
    OneOp(d, RemovePart, []);
    SoundCons(cfg, base, r.hashed, d, RemovePart, []);
    if Verified(cfg, r) {
      SoundCons(cfg, base, r.hashed, d, CommitPart, []);
    }
    assert [CommitPart] + [] == [CommitPart] && [RemovePart] + [] == [RemovePart];
  }

  /** The data accepted overall, seen before and after one reaction. */
  lemma AcceptedStep(cfg: Config, r: ReceiverState, frames: seq<LinkFrame>)
    requires frames != []
    ensures var a := React(cfg, r, frames[0]);
            r.hashed + Accepted(cfg, r.received, frames)
            == a.state.hashed + if a.next.Continue? then Accepted(cfg, a.state.received, frames[1..]) else []
  {
    ReactionTakes(cfg, r, frames[0]);
    var verdict := Judge(cfg, r.received, frames[0]);
    if verdict.Take? {
      var rest := if verdict.way.ReadsOn? then Accepted(cfg, r.received + |verdict.data|, frames[1..]) else [];
      Associative(r.hashed, verdict.data, rest);
    }
  }

  /** The whole loop, from a receiver in step with its disk. */
  lemma {:induction false} LoopIsSound(
    cfg: Config, r: ReceiverState, base: Disk, d: Disk, inbox: seq<LinkFrame>, total: seq<Byte>)
    requires InStep(r, d) && Sound(cfg, base, total, d) && d.finals == base.finals
    requires total == r.hashed + Accepted(cfg, r.received, inbox)
    ensures var run := Loop(cfg, r, inbox);
            && AlwaysSound(cfg, base, total, d, run.ops)
            && ApplyAll(d, run.ops).finals == if run.outcome.Committed? then base.finals + [total] else base.finals
    decreases |inbox|
  {
    if inbox != [] {
      var f := inbox[0];
      var a := React(cfg, r, f);
      AcceptedStep(cfg, r, inbox);
      ReactionIsSound(cfg, r, base, d, f, total);
      var d' := ApplyAll(d, a.ops);
      var rest := if a.next.Continue? then Loop(cfg, a.state, inbox[1..]) else Conclude(cfg, a.state, a.next);
      if a.next.Continue? {
        LoopIsSound(cfg, a.state, base, d', inbox[1..], total);
      } else {
        assert total == a.state.hashed;
        ConclusionIsSound(cfg, a.state, base, d', a.next);
      }
      AlwaysSoundAppend(cfg, base, total, d, a.ops, rest.ops);
      ApplyAllAppend(d, a.ops, rest.ops);
    }
  }

  /** Opening leaves the receiver in step with its disk, and journal and commits alone. */
  lemma OpenedInStep(d: Disk, record: Record)
    ensures var base := ApplyAll(d, OpenOps(d, record));
            InStep(Opened(d, record), base) && base.journal == d.journal && base.finals == d.finals
  {
    OneOp(d, CreatePart, []);
    assert [CreatePart] + [] == [CreatePart];
  }

  /** A resumed start whose `.part` already is the announced file: it is committed at once, whatever the frames. */
  lemma CompleteIsCommitted(cfg: Config, d: Disk, record: Record, inbox: seq<LinkFrame>)
    requires AlreadyComplete(cfg, d, record)
    ensures var run, held := Receive(cfg, d, record, inbox), d.part.value;
            && run.outcome.Committed? && run.ops == [CommitPart] && AlwaysSound(cfg, d, held, d, run.ops)
            && ApplyAll(d, run.ops).finals == d.finals + [held]
            && |held| == cfg.expectedSize && cfg.sha(held) == cfg.expectedHash
  {
    OneOp(d, CommitPart, []);
    assert [CommitPart] + [] == [CommitPart];
    SoundCons(cfg, d, d.part.value, d, CommitPart, []);
  }

  lemma LoopLeavesTheDiskSound(cfg: Config, d: Disk, record: Record, inbox: seq<LinkFrame>)
    requires !AlreadyComplete(cfg, d, record)
    ensures var run, r, opening := Receive(cfg, d, record, inbox), Opened(d, record), OpenOps(d, record);
            var base, total := ApplyAll(d, opening), r.hashed + Accepted(cfg, r.received, inbox);
            && opening <= run.ops && AlwaysSound(cfg, base, total, base, run.ops[|opening|..])
            && ApplyAll(d, run.ops).finals == if run.outcome.Committed? then d.finals + [total] else d.finals
  {
    var r, opening := Opened(d, record), OpenOps(d, record);
    var base := ApplyAll(d, opening);
    var rest := Loop(cfg, r, inbox);
    OpenedInStep(d, record);
    ApplyAllAppend(d, opening, rest.ops);
    assert (opening + rest.ops)[|opening|..] == rest.ops;
    LoopIsSound(cfg, r, base, base, inbox, r.hashed + Accepted(cfg, r.received, inbox));
  }

  /** What the receiver ends up with: the bytes it held at the start, and unless these are the file, what it accepts. */
  function Total(cfg: Config, d: Disk, record: Record, inbox: seq<LinkFrame>): seq<Byte> {
    var r := Opened(d, record);
    if AlreadyComplete(cfg, d, record) then r.hashed else r.hashed + Accepted(cfg, r.received, inbox)
  }

  /**
   * Integrity against any peer, from every start, fresh, resumed or complete: on every disk the receiver passes through,
   * the `.part` is a prefix of what it held at the start and the hash-valid chunks accepted at the current offset, and no
   * longer than announced unless it was so before; a file is committed exactly when the outcome says so, once, and only
   * with the announced size and hash.
   */
  lemma AnyFramesLeaveTheDiskSound(cfg: Config, d: Disk, record: Record, inbox: seq<LinkFrame>)
    ensures var run, total, opening := Receive(cfg, d, record, inbox), Total(cfg, d, record, inbox), OpenOps(d, record);
            var base := ApplyAll(d, opening);
            && opening <= run.ops && AlwaysSound(cfg, base, total, base, run.ops[|opening|..])
            && ApplyAll(d, run.ops).finals == if run.outcome.Committed? then d.finals + [total] else d.finals
  {
    if AlreadyComplete(cfg, d, record) {
      CompleteIsCommitted(cfg, d, record, inbox);
    } else {
      LoopLeavesTheDiskSound(cfg, d, record, inbox);
    }
  }

  // ----- After every frame -----

  /** The state and the disk operations after all of the frames, if the loop is still reading then. */
  function Reading(cfg: Config, r: ReceiverState, frames: seq<LinkFrame>): Option<(ReceiverState, seq<DiskOp>)>
    decreases |frames|
  {
    if frames == [] then Some((r, []))
    else
      var a := React(cfg, r, frames[0]);
      if !a.next.Continue? then None
      else match Reading(cfg, a.state, frames[1..])
        case None => None
        case Some((r', ops)) => Some((r', a.ops + ops))
  }

  /** The first frame and the rest. */
  lemma ReadingFirst(cfg: Config, r: ReceiverState, frames: seq<LinkFrame>, a: Reaction)
    requires frames != [] && Reading(cfg, r, frames).Some? && a == React(cfg, r, frames[0])
    ensures a.next.Continue? && Reading(cfg, a.state, frames[1..]).Some?
    ensures var rest := Reading(cfg, a.state, frames[1..]).value;
            Reading(cfg, r, frames).value == (rest.0, a.ops + rest.1)
  {
  }

  lemma LoopFirst(cfg: Config, r: ReceiverState, frames: seq<LinkFrame>, a: Reaction, rest: ReceiverRun)
    requires frames != [] && a == React(cfg, r, frames[0]) && a.next.Continue? && rest == Loop(cfg, a.state, frames[1..])
    ensures Loop(cfg, r, frames) == After(a.ops, a.replies, rest)
  {
  }

  /** It is what the loop does first. */
  lemma {:induction false} ReadingIsLoop(cfg: Config, r: ReceiverState, frames: seq<LinkFrame>, more: seq<LinkFrame>,
      whole: seq<LinkFrame>, r': ReceiverState, ops: seq<DiskOp>)
    requires whole == frames + more && Reading(cfg, r, frames) == Some((r', ops))
    ensures var run, rest := Loop(cfg, r, whole), Loop(cfg, r', more);
            run.outcome == rest.outcome && run.ops == ops + rest.ops
    decreases |frames|
  {
    if frames == [] {
      assert whole == more;
    } else {
      var a := React(cfg, r, frames[0]);
      ReadingFirst(cfg, r, frames, a);
      var later := Reading(cfg, a.state, frames[1..]).value.1;
      ReadingIsLoop(cfg, a.state, frames[1..], more, whole[1..], r', later);
      LoopFirst(cfg, r, whole, a, Loop(cfg, a.state, whole[1..]));
      Associative(a.ops, later, Loop(cfg, r', more).ops);
    }
  }

  /** The record once `accepted` has been taken after `held` bytes; untouched while nothing was. */
  function RecordAfter(record: Record, held: nat, accepted: seq<Byte>): Record {
    if accepted == [] then record else Progress(record, held + |accepted|)
  }

  /**
   * Memory and disk agree exactly with what was accepted: the `.part` and the running hash are the bytes held at the
   * start and the accepted data, and the journal, once anything was accepted, records exactly the length of the `.part`.
   */
  predicate Exact(r: ReceiverState, d: Disk, accepted: seq<Byte>, r': ReceiverState, d': Disk) {
    && r' == ReceiverState(r.received + |accepted|, r.hashed + accepted, RecordAfter(r.record, r.received, accepted))
    && InStep(r', d') && d'.finals == d.finals
    && d'.journal == (if accepted == [] then d.journal else Some(Whole(Progress(r.record, |r'.hashed|))))
  }

  /** Chunks carry data. */
  lemma TakenIsNotEmpty(cfg: Config, pos: nat, f: LinkFrame)
    ensures Judge(cfg, pos, f).Take? ==> Judge(cfg, pos, f).data != []
  {
  }

  lemma OneFrameIsExact(cfg: Config, r: ReceiverState, d: Disk, f: LinkFrame)
    requires InStep(r, d)
    ensures var a, verdict := React(cfg, r, f), Judge(cfg, r.received, f);
            Exact(r, d, if verdict.Take? then verdict.data else [], a.state, ApplyAll(d, a.ops))
  {
    ReactionTakes(cfg, r, f);
    TakenIsNotEmpty(cfg, r.received, f);
    var verdict := Judge(cfg, r.received, f);
    if verdict.Take? {
      AcceptedDisk(d, verdict.data, React(cfg, r, f).state.record);
    } else {
      assert r.hashed + [] == r.hashed;
    }
  }

  lemma ExactTwice(r: ReceiverState, d: Disk, xs: seq<Byte>, r1: ReceiverState, d1: Disk, ys: seq<Byte>,
      r2: ReceiverState, d2: Disk)
    requires Exact(r, d, xs, r1, d1) && Exact(r1, d1, ys, r2, d2) && |r.hashed| == r.received
    ensures Exact(r, d, xs + ys, r2, d2)
  {
    Associative(r.hashed, xs, ys);
    assert ys == [] ==> xs + ys == xs;
  }

  /** What is accepted of the first frame and of the rest. */
  lemma AcceptedFirst(cfg: Config, r: ReceiverState, frames: seq<LinkFrame>, a: Reaction, verdict: Verdict)
    requires frames != [] && a == React(cfg, r, frames[0]) && a.next.Continue?
    requires verdict == Judge(cfg, r.received, frames[0])
    ensures Accepted(cfg, r.received, frames)
         == (if verdict.Take? then verdict.data else []) + Accepted(cfg, a.state.received, frames[1..])
  {
    ReactionTakes(cfg, r, frames[0]);
  }

  /** After any frames that leave the loop reading, memory, `.part` and journal agree exactly with what was accepted. */
  lemma {:induction false} FramesKeepInStep(cfg: Config, r: ReceiverState, d: Disk, frames: seq<LinkFrame>)
    requires InStep(r, d) && Reading(cfg, r, frames).Some?
    ensures var (r', ops) := Reading(cfg, r, frames).value;
            Exact(r, d, Accepted(cfg, r.received, frames), r', ApplyAll(d, ops))
    decreases |frames|
  {
    if frames == [] {
      assert r.hashed + [] == r.hashed;
    } else {
      var a, verdict := React(cfg, r, frames[0]), Judge(cfg, r.received, frames[0]);
      var data, d1 := if verdict.Take? then verdict.data else [], ApplyAll(d, a.ops);
      ReadingFirst(cfg, r, frames, a);
      var (r', ops) := Reading(cfg, a.state, frames[1..]).value;
      OneFrameIsExact(cfg, r, d, frames[0]);
      FramesKeepInStep(cfg, a.state, d1, frames[1..]);
      ApplyAllAppend(d, a.ops, ops);
      AcceptedFirst(cfg, r, frames, a, verdict);
      ExactTwice(r, d, data, a.state, d1, Accepted(cfg, a.state.received, frames[1..]), r', ApplyAll(d1, ops));
    }
  }

  /**
   * From the opening on, after every prefix of any frames: the running hash is over the `.part`, which holds what was
   * there and what was accepted since, and the journal, once anything was accepted, names its length.
   */
  lemma EveryPrefixIsExact(cfg: Config, d: Disk, record: Record, inbox: seq<LinkFrame>, n: nat)
    requires !AlreadyComplete(cfg, d, record) && n <= |inbox|
    requires Reading(cfg, Opened(d, record), inbox[..n]).Some?
    ensures var r, opening := Opened(d, record), OpenOps(d, record);
            var (r', ops) := Reading(cfg, r, inbox[..n]).value;
            && opening + ops <= Receive(cfg, d, record, inbox).ops
            && Exact(r, ApplyAll(d, opening), Accepted(cfg, r.received, inbox[..n]), r', ApplyAll(d, opening + ops))
  {
    var r, opening := Opened(d, record), OpenOps(d, record);
    var (r', ops) := Reading(cfg, r, inbox[..n]).value;
    assert inbox[..n] + inbox[n..] == inbox;
    ReadingIsLoop(cfg, r, inbox[..n], inbox[n..], inbox, r', ops);
    Associative(opening, ops, Loop(cfg, r', inbox[n..]).ops);
    OpenedInStep(d, record);
    FramesKeepInStep(cfg, r, ApplyAll(d, opening), inbox[..n]);
    ApplyAllAppend(d, opening, ops);
  }

  // ----- Within one frame -----

  /** The bytes that the journal records; none without an entry. */
  function Recorded(d: Disk): nat {
    match d.journal
    case Some(Whole(Some(e))) => e.receivedBytes
    case _ => 0
  }

  /** How far the `.part` is ahead of its journal. */
  function Ahead(d: Disk): int {
    (if d.part.Some? then |d.part.value| else 0) - Recorded(d)
  }

  /**
   * A disk between two frames: old or new `.part`, old or new journal, the new journal only with the new `.part`, and no
   * further ahead of its journal than before plus `extra`.
   */
  predicate Between(before: Disk, after: Disk, extra: nat, d: Disk) {
    && (d.part == before.part || d.part == after.part) && d.finals == before.finals
    && (d.journal == before.journal || (d.journal == after.journal && d.part == after.part))
    && (d.journal == before.journal ==> Ahead(d) <= Ahead(before) + extra)
  }

  predicate AlwaysBetween(before: Disk, after: Disk, extra: nat, d: Disk, ops: seq<DiskOp>)
    decreases |ops|
  {
    Between(before, after, extra, d)
    && (ops != [] ==> AlwaysBetween(before, after, extra, Apply(d, ops[0]), ops[1..]))
  }

  lemma BetweenCons(before: Disk, after: Disk, extra: nat, d: Disk, op: DiskOp, rest: seq<DiskOp>)
    requires Between(before, after, extra, d) && AlwaysBetween(before, after, extra, Apply(d, op), rest)
    ensures AlwaysBetween(before, after, extra, d, [op] + rest)
  {
    assert ([op] + rest)[1..] == rest;
  }

  /** The temporary file does not count. */
  lemma TmpIsBetween(before: Disk, after: Disk, extra: nat, d: Disk, d': Disk)
    requires Between(before, after, extra, d) && d'.part == d.part && d'.journal == d.journal && d'.finals == d.finals
    ensures Between(before, after, extra, d')
  {
  }

  lemma SaveIsBetween(before: Disk, after: Disk, extra: nat, d: Disk, r: Record)
    requires Between(before, after, extra, d) && d.part == after.part && after.journal == Some(Whole(r))
    requires after.journal == before.journal ==> Ahead(after) <= Ahead(before) + extra
    ensures AlwaysBetween(before, after, extra, d, SaveOps(r))
  {
    var ds := SaveSteps(d, r);
    TmpIsBetween(before, after, extra, d, ds[1]);
    TmpIsBetween(before, after, extra, d, ds[2]);
    TmpIsBetween(before, after, extra, d, ds[3]);
    assert Between(before, after, extra, Apply(ds[3], RenameTmp));
    BetweenCons(before, after, extra, ds[3], RenameTmp, []);
    BetweenCons(before, after, extra, ds[2], SyncTmp, [RenameTmp] + []);
    BetweenCons(before, after, extra, ds[1], WriteTmp(r), [SyncTmp] + ([RenameTmp] + []));
    BetweenCons(before, after, extra, d, CreateTmp, [WriteTmp(r)] + ([SyncTmp] + ([RenameTmp] + [])));
    assert SaveOps(r) == [CreateTmp] + ([WriteTmp(r)] + ([SyncTmp] + ([RenameTmp] + [])));
  }

  /** The data that a frame adds. */
  function Added(cfg: Config, pos: nat, f: LinkFrame): seq<Byte> {
    match Judge(cfg, pos, f)
    case Take(data, _) => data
    case Leave(_) => []
  }

  /**
   * While a frame is handled, each disk on the way has the old or the new `.part` and the old or the new journal, never
   * the new journal with the old `.part`. Under the old journal the lag is at most what it was before the frame and the
   * frame's own data; once the frame is journalled there is none.
   */
  lemma FrameLagsByItsData(cfg: Config, r: ReceiverState, d: Disk, f: LinkFrame)
    requires InStep(r, d)
    ensures var a, data := React(cfg, r, f), Added(cfg, r.received, f);
            var after := ApplyAll(d, a.ops);
            && AlwaysBetween(d, after, |data|, d, a.ops)
            && (data != [] && r.record.Some? ==> Ahead(after) == 0)
  {
    ReactionTakes(cfg, r, f);
    var a, verdict := React(cfg, r, f), Judge(cfg, r.received, f);
    if verdict.Take? {
      var data := verdict.data;
      var after := ApplyAll(d, a.ops);
      AcceptedDisk(d, data, a.state.record);
      var d1 := Apply(d, AppendPart(data));
      SaveIsBetween(d, after, |data|, Apply(d1, SyncPart), a.state.record);
      BetweenCons(d, after, |data|, d1, SyncPart, SaveOps(a.state.record));
      BetweenCons(d, after, |data|, d, AppendPart(data), [SyncPart] + SaveOps(a.state.record));
      assert a.ops == [AppendPart(data)] + ([SyncPart] + SaveOps(a.state.record));
    }
  }
}
