/** What the frames of a sender carry, read as its peer reads them. */
module SenderFrames {
  import opened Bytes
  import opened Chunks
  import opened Sender

  /** No one range holds all of chunk `j`. */
  predicate Lacking(job: Job, j: nat) {
    forall r <- job.ranges :: !(r.0 <= ChunkStart(|job.file|, j) && ChunkStart(|job.file|, j + 1) <= r.0 + r.1)
  }

  /** Which of the first `k` chunks the peer lacks. */
  function AllLacking(job: Job, k: nat): seq<nat> {
    if k == 0 then []
    else if Lacking(job, k - 1) then AllLacking(job, k - 1) + [k - 1]
    else AllLacking(job, k - 1)
  }

  /** They are in file order, and no others. */
  lemma {:induction false} AllLackingIsExact(job: Job, k: nat)
    ensures forall j: nat :: j in AllLacking(job, k) <==> j < k && Lacking(job, j)
    ensures forall a, b :: 0 <= a < b < |AllLacking(job, k)| ==> AllLacking(job, k)[a] < AllLacking(job, k)[b]
  {
    if k > 0 {
      AllLackingIsExact(job, k - 1);
      var before := AllLacking(job, k - 1);
      assert forall a :: 0 <= a < |before| ==> before[a] in before;
    }
  }

  lemma LackingIsUncovered(job: Job, j: nat)
    ensures Lacking(job, j) <==> !Covered(job.ranges, ChunkStart(|job.file|, j), ChunkLength(|job.file|, j))
  {
  }

  /**
   * The frame is on the job's stream and parses as the file's `j`-th MiB, or what there is of it, at its offset and with
   * its own hash; it is flagged as the last exactly if the file ends there.
   */
  predicate Carries(job: Job, f: LinkFrame, j: nat, id: nat) {
    && f.ChunkFrame? && f.streamId == job.streamId && f.messageId == id
    && var chunk := ParseChunk(f.payload);
    && chunk.Some?
    && var c := chunk.value;
    && var end := c.offset + |c.data|;
    && c.offset == j * 1_048_576 && (|c.data| == 1_048_576 || (|c.data| < 1_048_576 && end == |job.file|))
    && end <= |job.file| && c.data == job.file[c.offset..end] && c.hash == job.sha(c.data)
    && (f.last <==> end == |job.file|)
  }

  predicate CarryAll(job: Job, fs: seq<LinkFrame>, js: seq<nat>, id: nat) {
    |fs| == |js| && forall i :: 0 <= i < |fs| ==> Carries(job, fs[i], js[i], id + i)
  }

  /** The frame that a sender makes of chunk `j`. */
  function FrameOf(job: Job, j: nat, id: nat): LinkFrame {
    ChunkFrameFor(job, ChunkStart(|job.file|, j), ChunkStart(|job.file|, j + 1), id)
  }

  lemma FrameCarries(job: Job, j: nat, id: nat)
    requires j < ChunkCount(|job.file|) && |job.file| <= Capacity(8)
    ensures Carries(job, FrameOf(job, j, id), j, id)
  {
    var c := ChunkPayload(ChunkStart(|job.file|, j), job.sha(ChunkData(job.file, j)), ChunkData(job.file, j));
    FieldCapacities();
    ChunkRoundTrip(c);
  }

  lemma PlanGrows(job: Job, id: nat, j: nat, before: seq<LinkFrame>)
    requires before == Plan(job, id, j)
    ensures Plan(job, id, j + 1) == if Lacking(job, j) then before + [FrameOf(job, j, id + |before|)] else before
  {
    LackingIsUncovered(job, j);
  }

  lemma {:induction false} PlanLength(job: Job, id: nat, k: nat)
    ensures |Plan(job, id, k)| == |AllLacking(job, k)|
  {
    if k > 0 {
      PlanLength(job, id, k - 1);
      PlanGrows(job, id, k - 1, Plan(job, id, k - 1));
    }
  }

  /** The plan and its chunks, over one more chunk. */
  lemma BothGrow(job: Job, id: nat, j: nat, fs: seq<LinkFrame>, js: seq<nat>)
    returns (lacks: bool, fs': seq<LinkFrame>, js': seq<nat>)
    requires fs == Plan(job, id, j + 1) && js == AllLacking(job, j + 1)
    ensures fs' == Plan(job, id, j) && js' == AllLacking(job, j) && |fs'| == |js'| && |fs| == |js|
    ensures js == if lacks then js' + [j] else js'
    ensures fs == if lacks then fs' + [FrameOf(job, j, id + |fs'|)] else fs'
  {
    lacks, fs', js' := Lacking(job, j), Plan(job, id, j), AllLacking(job, j);
    PlanLength(job, id, j);
    PlanGrows(job, id, j, fs');
  }

  /** What holds of the frame of every chunk holds at each place of the plan. */
  lemma {:induction false} PlanHas(job: Job, id: nat, k: nat, i: nat, fs: seq<LinkFrame>, js: seq<nat>,
      has: (LinkFrame, nat, nat) -> bool)
    requires forall j: nat, n: nat :: j < k ==> has(FrameOf(job, j, n), j, n)
    requires fs == Plan(job, id, k) && js == AllLacking(job, k) && i < |fs|
    ensures i < |js| && has(fs[i], js[i], id + i)
    decreases k
  {
    if k > 0 {
      var lacks, fs', js' := BothGrow(job, id, k - 1, fs, js);
      if i < |fs'| {
        PlanHas(job, id, k - 1, i, fs', js', has);
      }
    }
  }

  lemma PlanCarries(job: Job, id: nat, k: nat, fs: seq<LinkFrame>, js: seq<nat>)
    requires k <= ChunkCount(|job.file|) && |job.file| <= Capacity(8)
    requires fs == Plan(job, id, k) && js == AllLacking(job, k) && |fs| == |js|
    ensures CarryAll(job, fs, js, id)
  {
    var has := (f: LinkFrame, j: nat, n: nat) => Carries(job, f, j, n);
    forall j: nat, n: nat | j < k ensures has(FrameOf(job, j, n), j, n) {
      FrameCarries(job, j, n);
    }
    forall i | 0 <= i < |fs| ensures has(fs[i], js[i], id + i) {
      PlanHas(job, id, k, i, fs, js, has);
    }
  }

  /** The flag is on the last frame alone once the file's last chunk was sent, and on none otherwise. */
  predicate WellFlagged(job: Job, fs: seq<LinkFrame>, handled: nat) {
    var ended := 0 < handled == ChunkCount(|job.file|) && Lacking(job, handled - 1);
    forall i :: 0 <= i < |fs| ==> fs[i].ChunkFrame? && (fs[i].last <==> i == |fs| - 1 && ended)
  }

  lemma CarriersAreWellFlagged(job: Job, fs: seq<LinkFrame>, js: seq<nat>, k: nat, id: nat)
    requires js == AllLacking(job, k) && CarryAll(job, fs, js, id) && k <= ChunkCount(|job.file|)
    ensures WellFlagged(job, fs, k)
  {
    var n := ChunkCount(|job.file|);
    AllLackingIsExact(job, k);
    forall i | 0 <= i < |fs|
      ensures fs[i].ChunkFrame? && (fs[i].last <==> i == |fs| - 1 && k == n && Lacking(job, k - 1))
    {
      assert Carries(job, fs[i], js[i], id + i);
      assert js[i] in js && js[|js| - 1] in js;
      assert fs[i].last <==> js[i] == n - 1;
      if k == n && Lacking(job, k - 1) {
        assert n - 1 in js;
      }
    }
  }

  /** The frames sent carry the chunks that the peer lacks among those handled, numbered from `id`. */
  predicate SentExactly(job: Job, id: nat, s: SenderState) {
    var handled := s.sent + s.skipped;
    && handled <= ChunkCount(|job.file|)
    && CarryAll(job, s.outbox, AllLacking(job, handled), id) && WellFlagged(job, s.outbox, handled)
  }

  lemma PlanSendsExactly(job: Job, id: nat, s: SenderState)
    requires OnPlan(job, id, s) && |job.file| <= Capacity(8)
    ensures SentExactly(job, id, s)
  {
    var k := s.sent + s.skipped;
    PlanLength(job, id, k);
    PlanCarries(job, id, k, s.outbox, AllLacking(job, k));
    CarriersAreWellFlagged(job, s.outbox, AllLacking(job, k), k, id);
  }

  /**
   * Whatever the peer answers, the frames sent so far carry the chunks that the peer lacks among those handled, in file
   * order and numbered in sequence, and the flag is on the file's last chunk alone. A sender that ends well has handled
   * all chunks.
   */
  lemma SentIsWhatIsLacking(job: Job, id: nat, inbox: seq<LinkFrame>)
    requires |job.file| <= Capacity(8)
    ensures var r := Run(job, StartSender(job, id), inbox);
            && SentExactly(job, id, r.state)
            && (r.outcome.SendComplete? ==> r.state.sent + r.state.skipped == ChunkCount(|job.file|))
  {
    RunStaysOnPlan(job, id, StartSender(job, id), inbox);
    PlanSendsExactly(job, id, Run(job, StartSender(job, id), inbox).state);
  }
}
