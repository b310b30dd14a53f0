/** The receiving loop: opening or resuming the `.part` file, the cases of an incoming frame, and the final checks. */
module Receiver {
  import opened Bytes
  import opened Results
  import opened Chunks
  import opened Sender
  import opened Storage

  /** What FILE_METADATA announced. */
  datatype Config = Config(streamId: nat, expectedSize: nat, expectedHash: Digest, sha: Sha)

  /** `hashed` is the input fed to the running hash so far. */
  datatype ReceiverState = ReceiverState(received: nat, hashed: seq<Byte>, record: Record)

  datatype Continuation = Continue | Verify | Abort(remove: bool)

  /** The answer to one frame: new state, disk operations, replies, and how the loop goes on. */
  datatype Reaction = Reaction(state: ReceiverState, ops: seq<DiskOp>, replies: seq<Message>, next: Continuation)

  datatype ReceiveOutcome = Committed | Rejected | LinkLost

  datatype ReceiverRun = ReceiverRun(outcome: ReceiveOutcome, ops: seq<DiskOp>, replies: seq<Message>)

  /** The record after `n` bytes; a missing entry stays missing. */
  function Progress(record: Record, n: nat): Record {
    match record
    case None => None
    case Some(_) => Some(Entry(n, [(0, n)]))
  }

  /** The reaction to a chunk whose payload parsed and whose stream is ours. */
  function ReactToChunk(cfg: Config, r: ReceiverState, id: nat, last: bool, c: ChunkPayload): Reaction {
    var ack := ChunkAck(cfg.streamId, id, c.offset, |c.data|);
    if c.hash != cfg.sha(c.data) then Reaction(r, [], [ErrorReply(ChecksumMismatch)], Abort(true))
    else if c.offset == r.received then
      var total := r.received + |c.data|;
      if total > cfg.expectedSize then Reaction(r, [], [ErrorReply(InvalidFrame)], Abort(true))
      else
        var record := Progress(r.record, total);
        Reaction(ReceiverState(total, r.hashed + c.data, record),
                 [AppendPart(c.data), SyncPart] + SaveOps(record), [ack],
                 if last || total == cfg.expectedSize then Verify else Continue)
    else if c.offset < r.received && c.offset + |c.data| <= r.received then
      Reaction(r, [], [ack], if last || r.received == cfg.expectedSize then Verify else Continue)
    else Reaction(r, [], [ErrorReply(InvalidFrame)], Abort(false))
  }

  function React(cfg: Config, r: ReceiverState, f: LinkFrame): Reaction {
    match f
    case ChunkFrame(stream, id, last, payload) =>
      if stream != cfg.streamId || ParseChunk(payload).None? then Reaction(r, [], [], Continue)
      else ReactToChunk(cfg, r, id, last, ParseChunk(payload).value)
    case ControlFrame(Undecodable) => Reaction(r, [], [], Abort(false))
    case ControlFrame(TransferCancel) => Reaction(r, [], [], Abort(true))
    case ControlFrame(SessionClose) => Reaction(r, [], [], Abort(false))
    case _ => Reaction(r, [], [], Continue)
  }

  /** The checks that guard the rename. */
  predicate Verified(cfg: Config, r: ReceiverState) {
    cfg.sha(r.hashed) == cfg.expectedHash && r.received == cfg.expectedSize
  }

  /** How the loop ends once it leaves off reading. */
  function Conclude(cfg: Config, r: ReceiverState, next: Continuation): ReceiverRun {
    match next
    case Verify => if Verified(cfg, r) then ReceiverRun(Committed, [CommitPart], []) else ReceiverRun(Rejected, [RemovePart], [])
    case Abort(remove) => ReceiverRun(Rejected, if remove then [RemovePart] else [], [])
    case Continue => ReceiverRun(LinkLost, [], [])
  }

  /** A run that goes on after some operations and replies. */
  function After(ops: seq<DiskOp>, replies: seq<Message>, rest: ReceiverRun): ReceiverRun {
    ReceiverRun(rest.outcome, ops + rest.ops, replies + rest.replies)
  }

  function Loop(cfg: Config, r: ReceiverState, inbox: seq<LinkFrame>): ReceiverRun
    decreases |inbox|
  {
    if inbox == [] then Conclude(cfg, r, Continue)
    else
      var a := React(cfg, r, inbox[0]);
      After(a.ops, a.replies,
            if a.next.Continue? then Loop(cfg, a.state, inbox[1..]) else Conclude(cfg, a.state, a.next))
  }

  /** Progress on record and a `.part` to go with it. */
  predicate Resumes(d: Disk, record: Record) {
    record.Some? && record.value.receivedBytes > 0 && d.part.Some?
  }

  /** The `.part` left by an earlier session already is the announced file. */
  predicate AlreadyComplete(cfg: Config, d: Disk, record: Record) {
    Resumes(d, record) && |d.part.value| == cfg.expectedSize && cfg.sha(d.part.value) == cfg.expectedHash
  }

  function Opened(d: Disk, record: Record): ReceiverState {
    if Resumes(d, record) then ReceiverState(|d.part.value|, d.part.value, record) else ReceiverState(0, [], record)
  }

  function OpenOps(d: Disk, record: Record): seq<DiskOp> {
    if Resumes(d, record) then [] else [CreatePart]
  }

  /** The whole of `receive_file` against the frames that its peer sends. */
  function Receive(cfg: Config, d: Disk, record: Record, inbox: seq<LinkFrame>): ReceiverRun {
    if AlreadyComplete(cfg, d, record) then ReceiverRun(Committed, [CommitPart], [])
    else
      var rest := Loop(cfg, Opened(d, record), inbox);
      rest.(ops := OpenOps(d, record) + rest.ops)
  }

  lemma Associative<T>(a: seq<T>, b: seq<T>, c: seq<T>)
    ensures (a + b) + c == a + (b + c)
  {
  }

  lemma AfterTwice(ops: seq<DiskOp>, replies: seq<Message>, ops': seq<DiskOp>, replies': seq<Message>, rest: ReceiverRun)
    ensures After(ops, replies, After(ops', replies', rest)) == After(ops + ops', replies + replies', rest)
  {
    assert ops + (ops' + rest.ops) == (ops + ops') + rest.ops;
    assert replies + (replies' + rest.replies) == (replies + replies') + rest.replies;
  }

  lemma LoopStep(cfg: Config, r: ReceiverState, inbox: seq<LinkFrame>, pos: nat, ops: seq<DiskOp>, said: seq<Message>)
    requires pos < |inbox|
    ensures var a := React(cfg, r, inbox[pos]);
            After(ops, said, Loop(cfg, r, inbox[pos..])) == After(ops + a.ops, said + a.replies,
              if a.next.Continue? then Loop(cfg, a.state, inbox[pos + 1..]) else Conclude(cfg, a.state, a.next))
  {
    var a := React(cfg, r, inbox[pos]);
    assert inbox[pos..][1..] == inbox[pos + 1..];
    AfterTwice(ops, said, a.ops, a.replies,
               if a.next.Continue? then Loop(cfg, a.state, inbox[pos + 1..]) else Conclude(cfg, a.state, a.next));
  }

  /** The receiving side of one file. */
  class FileReceiver {
    const cfg: Config
    const device: Device
    var received: nat
    var hashed: seq<Byte>
    var record: Record
    var replies: seq<Message>

    constructor (cfg: Config, device: Device, record: Record)
      ensures this.cfg == cfg && this.device == device && this.record == record && replies == []
    {
      this.cfg, this.device, this.record := cfg, device, record;
      received, hashed, replies := 0, [], [];
    }

    /** Data at the expected offset: write it, count it, sync it, and only then journal it. */
    method Accept(data: seq<Byte>)
      requires device.Valid()
      modifies this`received, this`hashed, this`record, device
      ensures received == old(received) + |data| && hashed == old(hashed) + data
      ensures record == Progress(old(record), received)
      ensures device.Valid() && device.log == old(device.log) + ([AppendPart(data), SyncPart] + SaveOps(record))
    {
      device.Perform(AppendPart(data));
      hashed := hashed + data;
      received := received + |data|;
      if record.Some? {
        record := Some(Entry(received, [(0, received)]));
      }
      device.Perform(SyncPart);
      device.Save(record);
    }

    /** One chunk of our stream; `step` says how the loop goes on. */
    method OnChunk(id: nat, last: bool, c: ChunkPayload) returns (step: Continuation)
      requires device.Valid()
      modifies this, device
      ensures var a := ReactToChunk(cfg, old(ReceiverState(received, hashed, record)), id, last, c);
              && ReceiverState(received, hashed, record) == a.state
              && step == a.next && replies == old(replies) + a.replies
              && device.Valid() && device.log == old(device.log) + a.ops
    {
      if c.hash != cfg.sha(c.data) {
        replies := replies + [ErrorReply(ChecksumMismatch)];
        return Abort(true);
      }
      if c.offset == received {
        var newTotal := received + |c.data|;
        if newTotal > cfg.expectedSize {
          replies := replies + [ErrorReply(InvalidFrame)];
          return Abort(true);
        }
        Accept(c.data);
      } else if c.offset < received {
        if c.offset + |c.data| > received {
          replies := replies + [ErrorReply(InvalidFrame)];
          return Abort(false);
        }
      } else {
        replies := replies + [ErrorReply(InvalidFrame)];
        return Abort(false);
      }
      replies := replies + [ChunkAck(cfg.streamId, id, c.offset, |c.data|)];
      step := if last || received == cfg.expectedSize then Verify else Continue;
    }

    /** `receive_file`, reading its peer's frames from `inbox` until it returns or the connection ends. */
    method ReceiveFile(inbox: seq<LinkFrame>) returns (outcome: ReceiveOutcome)
      requires device.Valid()
      modifies this, device
      ensures var run := Receive(cfg, old(device.disk), old(record), inbox);
              && outcome == run.outcome && replies == old(replies) + run.replies
              && device.Valid() && device.log == old(device.log) + run.ops
    {
      if record.Some? && record.value.receivedBytes > 0 && device.disk.part.Some? {
        var existing := device.disk.part.value;
        if |existing| == cfg.expectedSize && cfg.sha(existing) == cfg.expectedHash {
          device.Perform(CommitPart);
          return Committed;
        }
        received, hashed := |existing|, existing;
      } else {
        device.Perform(CreatePart);
        received, hashed := 0, [];
      }
      ghost var start := ReceiverState(received, hashed, record);
      ghost var ops := OpenOps(old(device.disk), old(record));
      ghost var rest := Loop(cfg, start, inbox);
      outcome := RunLoop(inbox);
      Associative(old(device.log), ops, rest.ops);
    }

    method RunLoop(inbox: seq<LinkFrame>) returns (outcome: ReceiveOutcome)
      requires device.Valid()
      modifies this, device
      ensures var run := Loop(cfg, old(ReceiverState(received, hashed, record)), inbox);
              && outcome == run.outcome && replies == old(replies) + run.replies
              && device.Valid() && device.log == old(device.log) + run.ops
    {
      ghost var ops: seq<DiskOp>, said: seq<Message> := [], [];
      var step, pos := Continue, 0;
      assert inbox[0..] == inbox;
      while step.Continue? && pos < |inbox|
        invariant pos <= |inbox|
        invariant var r := ReceiverState(received, hashed, record);
                  Loop(cfg, old(ReceiverState(received, hashed, record)), inbox) == After(ops, said,
                    if step.Continue? then Loop(cfg, r, inbox[pos..]) else Conclude(cfg, r, step))
        invariant replies == old(replies) + said
        invariant device.Valid() && device.log == old(device.log) + ops
        decreases |inbox| - pos
      {
        ghost var r := ReceiverState(received, hashed, record);
        LoopStep(cfg, r, inbox, pos, ops, said);
        ghost var a := React(cfg, r, inbox[pos]);
        step := Dispatch(inbox[pos]);
        pos := pos + 1;
        Associative(old(device.log), ops, a.ops);
        Associative(old(replies), said, a.replies);
        ops, said := ops + a.ops, said + a.replies;
      }
      ghost var c := Conclude(cfg, ReceiverState(received, hashed, record), step);
      outcome := End(step);
      Associative(old(device.log), ops, c.ops);
      Associative(old(replies), said, c.replies);
    }

    /** The checks after the loop, or the clean-up of an early exit. */
    method End(step: Continuation) returns (outcome: ReceiveOutcome)
      requires device.Valid()
      modifies device
      ensures var c := Conclude(cfg, ReceiverState(received, hashed, record), step);
              && outcome == c.outcome
              && device.Valid() && device.log == old(device.log) + c.ops
    {
      match step {
        case Continue => return LinkLost;
        case Abort(remove) =>
          if remove {
            device.Perform(RemovePart);
          }
          return Rejected;
        case Verify =>
          if cfg.sha(hashed) != cfg.expectedHash {
            device.Perform(RemovePart);
            return Rejected;
          }
          if received != cfg.expectedSize {
            device.Perform(RemovePart);
            return Rejected;
          }
          device.Perform(CommitPart);
          return Committed;
      }
    }

    /** The match on the frame kind. */
    method Dispatch(f: LinkFrame) returns (step: Continuation)
      requires device.Valid()
      modifies this, device
      ensures var a := React(cfg, old(ReceiverState(received, hashed, record)), f);
              && ReceiverState(received, hashed, record) == a.state
              && step == a.next && replies == old(replies) + a.replies
              && device.Valid() && device.log == old(device.log) + a.ops
    {
      step := Continue;
      match f {
        case ChunkFrame(stream, id, last, payload) =>
          if stream == cfg.streamId && |payload| >= 41 {
            step := OnChunk(id, last, ParseChunk(payload).value);
          }
        case ControlFrame(TransferCancel) => step := Abort(true);
        case ControlFrame(SessionClose) => step := Abort(false);
        case ControlFrame(Undecodable) => step := Abort(false);
        case _ =>
      }
    }
  }
}
