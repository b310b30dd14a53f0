/** What a receiver leaves behind, decided by the frames alone. */
module ReceiverEnd {
  import opened Bytes
  import opened Results
  import opened Sender
  import opened Storage
  import opened Receiver
  import opened ReceiverIntegrity

  /** How the loop leaves off, the data accepted by then and the replies, all read off the frames. */
  datatype Account = Account(way: Way, accepted: seq<Byte>, replies: seq<Message>)

  function Then(data: seq<Byte>, replies: seq<Message>, rest: Account): Account {
    Account(rest.way, data + rest.accepted, replies + rest.replies)
  }

  /** The account of frames of which the first is judged at `pos`; still reading if the connection ends first. */
  function AccountOf(cfg: Config, pos: nat, frames: seq<LinkFrame>): Account
    decreases |frames|
  {
    if frames == [] then Account(ReadsOn, [], [])
    else
      var f := frames[0];
      var way, data := Judge(cfg, pos, f).way, Added(cfg, pos, f);
      Then(data, RepliesTo(cfg, pos, f),
           if way.ReadsOn? then AccountOf(cfg, pos + |data|, frames[1..]) else Account(way, [], []))
  }

  lemma {:induction false} AccountAccepts(cfg: Config, pos: nat, frames: seq<LinkFrame>)
    ensures AccountOf(cfg, pos, frames).accepted == Accepted(cfg, pos, frames)
    decreases |frames|
  {
    if frames != [] && Judge(cfg, pos, frames[0]).way.ReadsOn? {
      AccountAccepts(cfg, pos + |Added(cfg, pos, frames[0])|, frames[1..]);
    }
  }

  predicate Passes(cfg: Config, total: seq<Byte>) {
    |total| == cfg.expectedSize && cfg.sha(total) == cfg.expectedHash
  }

  /**
   * The end of a run that held `r` on disk `d`: the `.part` is gone exactly if the transfer was discarded or the final
   * checks were made, committed exactly if these passed, and otherwise holds all bytes; the journal, once anything was
   * accepted, names their number.
   */
  predicate EndsWith(cfg: Config, r: ReceiverState, d: Disk, account: Account, run: ReceiverRun) {
    var total, way, d' := r.hashed + account.accepted, account.way, ApplyAll(d, run.ops);
    && run.outcome == (if way.ReadsOn? then LinkLost else if way.Checks? && Passes(cfg, total) then Committed else Rejected)
    && d'.part == (if way.Checks? || way.Discards? then None else Some(total))
    && d'.finals == (if run.outcome.Committed? then d.finals + [total] else d.finals)
    && d'.journal == (if account.accepted == [] then d.journal else Some(Whole(Progress(r.record, |total|))))
    && run.replies == account.replies
  }

  lemma ConclusionIsExact(cfg: Config, r: ReceiverState, d: Disk, way: Way)
    requires InStep(r, d)
    ensures EndsWith(cfg, r, d, Account(way, [], []), Conclude(cfg, r, Continuing(way)))
  {
    OneOp(d, CommitPart, []);
    OneOp(d, RemovePart, []);
    assert [CommitPart] + [] == [CommitPart] && [RemovePart] + [] == [RemovePart];
    assert r.hashed + [] == r.hashed;
  }

  lemma EndsAfterOne(cfg: Config, r: ReceiverState, d: Disk, data: seq<Byte>, a: Reaction, rest: Account, run: ReceiverRun)
    requires Exact(r, d, data, a.state, ApplyAll(d, a.ops)) && |r.hashed| == r.received
    requires EndsWith(cfg, a.state, ApplyAll(d, a.ops), rest, run)
    ensures EndsWith(cfg, r, d, Then(data, a.replies, rest), After(a.ops, a.replies, run))
  {
    ApplyAllAppend(d, a.ops, run.ops);
    Associative(r.hashed, data, rest.accepted);
    assert rest.accepted == [] ==> data + rest.accepted == data;
  }

  /** A reaction, without its body: what it adds, what it leaves and how it goes on. */
  lemma ReactionIsExact(cfg: Config, r: ReceiverState, d: Disk, f: LinkFrame)
    requires InStep(r, d)
    ensures var a := React(cfg, r, f);
            && Exact(r, d, Added(cfg, r.received, f), a.state, ApplyAll(d, a.ops))
            && a.next == Continuing(Judge(cfg, r.received, f).way) && a.replies == RepliesTo(cfg, r.received, f)
  {
    ReactionTakes(cfg, r, f);
    OneFrameIsExact(cfg, r, d, f);
  }

  lemma AccountFirst(cfg: Config, pos: nat, frames: seq<LinkFrame>, way: Way, data: seq<Byte>, next: nat)
    requires frames != [] && way == Judge(cfg, pos, frames[0]).way && data == Added(cfg, pos, frames[0])
    requires next == pos + |data|
    ensures AccountOf(cfg, pos, frames) == Then(data, RepliesTo(cfg, pos, frames[0]),
              if way.ReadsOn? then AccountOf(cfg, next, frames[1..]) else Account(way, [], []))
  {
  }

  lemma LoopFirst(cfg: Config, r: ReceiverState, frames: seq<LinkFrame>, a: Reaction, way: Way)
    requires frames != [] && a == React(cfg, r, frames[0]) && a.next == Continuing(way)
    ensures Loop(cfg, r, frames) == After(a.ops, a.replies,
              if way.ReadsOn? then Loop(cfg, a.state, frames[1..]) else Conclude(cfg, a.state, Continuing(way)))
  {
  }

  /** The loop and the account of its frames, over the first frame. */
  lemma FirstFrame(cfg: Config, r: ReceiverState, d: Disk, frames: seq<LinkFrame>)
    returns (a: Reaction, data: seq<Byte>, way: Way)
    requires frames != [] && InStep(r, d)
    ensures Exact(r, d, data, a.state, ApplyAll(d, a.ops))
    ensures Loop(cfg, r, frames) == After(a.ops, a.replies,
              if way.ReadsOn? then Loop(cfg, a.state, frames[1..]) else Conclude(cfg, a.state, Continuing(way)))
    ensures AccountOf(cfg, r.received, frames) == Then(data, a.replies,
              if way.ReadsOn? then AccountOf(cfg, a.state.received, frames[1..]) else Account(way, [], []))
  {
    var f := frames[0];
    a, data, way := React(cfg, r, f), Added(cfg, r.received, f), Judge(cfg, r.received, f).way;
    ReactionIsExact(cfg, r, d, f);
    LoopFirst(cfg, r, frames, a, way);
    AccountFirst(cfg, r.received, frames, way, data, a.state.received);
  }

  lemma {:induction false} LoopEndIsExact(cfg: Config, r: ReceiverState, d: Disk, frames: seq<LinkFrame>)
    requires InStep(r, d)
    ensures EndsWith(cfg, r, d, AccountOf(cfg, r.received, frames), Loop(cfg, r, frames))
    decreases |frames|
  {
    if frames == [] {
      ConclusionIsExact(cfg, r, d, ReadsOn);
    } else {
      var a, data, way := FirstFrame(cfg, r, d, frames);
      var d1 := ApplyAll(d, a.ops);
      if way.ReadsOn? {
        LoopEndIsExact(cfg, a.state, d1, frames[1..]);
        EndsAfterOne(cfg, r, d, data, a, AccountOf(cfg, a.state.received, frames[1..]), Loop(cfg, a.state, frames[1..]));
      } else {
        ConclusionIsExact(cfg, a.state, d1, way);
        EndsAfterOne(cfg, r, d, data, a, Account(way, [], []), Conclude(cfg, a.state, Continuing(way)));
      }
    }
  }

  /**
   * The end of every run, from every start and for every frames, read off the frames alone. A `.part` that was complete on
   * opening is committed at once. Otherwise the `.part` is gone without a commit exactly if the frame that ended the loop
   * was a cancellation, a chunk of our stream with a bad hash or one past the announced size, or if the final checks
   * failed; without a commit it is otherwise exactly what was held and accepted. The replies are exact too.
   */
  lemma EndIsExact(cfg: Config, d: Disk, record: Record, inbox: seq<LinkFrame>)
    ensures var run, r := Receive(cfg, d, record, inbox), Opened(d, record);
            if AlreadyComplete(cfg, d, record) then
              var d' := ApplyAll(d, run.ops);
              && run.outcome.Committed? && run.replies == [] && d'.part == None && d'.journal == d.journal
              && d'.finals == d.finals + [d.part.value] && Passes(cfg, d.part.value)
            else EndsWith(cfg, r, d, AccountOf(cfg, r.received, inbox), run)
  {
    if AlreadyComplete(cfg, d, record) {
      OneOp(d, CommitPart, []);
      assert [CommitPart] + [] == [CommitPart];
    } else {
      var r, opening := Opened(d, record), OpenOps(d, record);
      OpenedInStep(d, record);
      LoopEndIsExact(cfg, r, ApplyAll(d, opening), inbox);
      ApplyAllAppend(d, opening, Loop(cfg, r, inbox).ops);
    }
  }
}
