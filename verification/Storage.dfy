/** The receiver's disk: the `.part` file, the resume journal, and what a crash may leave of them. */
module Storage {
  import opened Bytes
  import opened Results
  import opened Sender

  /** A file's entry in the resume state. */
  datatype Entry = Entry(receivedBytes: nat, receivedRanges: seq<Range>)

  /** What the resume state holds for the file being received. */
  type Record = Option<Entry>

  /** A journal file on disk: a whole JSON document, or a torn one that does not parse. */
  datatype Content = Torn | Whole(record: Record)

  /**
   * `synced` is the length of the `.part` prefix known to be durable; `finals` are the files committed so far.
   * Creating, removing and renaming a file is atomic and durable; written data is durable only once synced.
   */
  datatype Disk = Disk(
    part: Option<seq<Byte>>, synced: nat, journal: Option<Content>, tmp: Option<Content>, tmpSynced: bool,
    finals: seq<seq<Byte>>)

  datatype DiskOp =
    | CreatePart
    | AppendPart(data: seq<Byte>)
    | SyncPart
    | RemovePart
    | CommitPart
    | CreateTmp
    | WriteTmp(record: Record)
    | SyncTmp
    | RenameTmp
    | RemoveJournal

  function Apply(d: Disk, op: DiskOp): Disk {
    match op
    case CreatePart => d.(part := Some([]), synced := 0)
    case AppendPart(data) => if d.part.Some? then d.(part := Some(d.part.value + data)) else d
    case SyncPart => if d.part.Some? then d.(synced := |d.part.value|) else d
    case RemovePart => d.(part := None, synced := 0)
    case CommitPart => if d.part.Some? then d.(part := None, synced := 0, finals := d.finals + [d.part.value]) else d
    case CreateTmp => d.(tmp := Some(Torn), tmpSynced := false)
    case WriteTmp(r) => if d.tmp.Some? then d.(tmp := Some(Whole(r)), tmpSynced := false) else d
    case SyncTmp => d.(tmpSynced := true)
    case RenameTmp => if d.tmp.Some? then d.(journal := d.tmp, tmp := None) else d
    case RemoveJournal => d.(journal := None)
  }

  function ApplyAll(d: Disk, ops: seq<DiskOp>): Disk
    decreases |ops|
  {
    if ops == [] then d else ApplyAll(Apply(d, ops[0]), ops[1..])
  }

  /** `d'` is what a crash in state `d` may leave: unsynced data survives as any prefix, an unsynced file as garbage. */
  predicate CrashLeaves(d: Disk, d': Disk) {
    && (match d.part
        case None => d'.part == None
        case Some(c) => d'.part.Some? && d'.part.value <= c && d.synced <= |d'.part.value| == d'.synced)
    && d'.journal == d.journal
    && d'.finals == d.finals
    && (d'.tmp == d.tmp || (d.tmp.Some? && !d.tmpSynced && d'.tmp == Some(Torn)))
  }

  /** `ResumeJournal::load`. */
  function Load(d: Disk): Result<Option<Record>, ()> {
    match d.journal
    case None => Ok(None)
    case Some(Torn) => Err(())
    case Some(Whole(r)) => Ok(Some(r))
  }

  /** The disk operations of `ResumeJournal::save`, in order. */
  function SaveOps(r: Record): seq<DiskOp> {
    [CreateTmp, WriteTmp(r), SyncTmp, RenameTmp]
  }

  lemma {:induction false} ApplyAllAppend(d: Disk, xs: seq<DiskOp>, ys: seq<DiskOp>)
    ensures ApplyAll(d, xs + ys) == ApplyAll(ApplyAll(d, xs), ys)
    decreases |xs|
  {
    if xs == [] {
      assert xs + ys == ys;
    } else {
      assert (xs + ys)[1..] == xs[1..] + ys;
      ApplyAllAppend(Apply(d, xs[0]), xs[1..], ys);
    }
  }

  /** The disk as the receiver drives it; `log` records every operation on the disk it `start`ed from, in order. */
  class Device {
    var disk: Disk
    ghost const start: Disk
    ghost var log: seq<DiskOp>

    ghost predicate Valid()
      reads this
    {
      disk == ApplyAll(start, log)
    }

    constructor (d: Disk)
      ensures disk == d == start && log == [] && Valid()
    {
      disk, start, log := d, d, [];
    }

    method Perform(op: DiskOp)
      requires Valid()
      modifies this
      ensures Valid() && disk == Apply(old(disk), op) && log == old(log) + [op]
    {
      ApplyAllAppend(start, log, [op]);
      disk := Apply(disk, op);
      log := log + [op];
    }

    /** Write a temporary file, sync it, rename it over the journal. */
    method Save(r: Record)
      requires Valid()
      modifies this
      ensures Valid() && log == old(log) + SaveOps(r)
    {
      Perform(CreateTmp);
      Perform(WriteTmp(r));
      Perform(SyncTmp);
      Perform(RenameTmp);
    }
  }

  lemma OneOp(d: Disk, op: DiskOp, rest: seq<DiskOp>)
    ensures ApplyAll(d, [op] + rest) == ApplyAll(Apply(d, op), rest)
  {
    assert ([op] + rest)[1..] == rest;
  }

  /** The five disks that saving passes through. */
  function SaveSteps(d: Disk, r: Record): seq<Disk> {
    var d1 := d.(tmp := Some(Torn), tmpSynced := false);
    var d2 := d1.(tmp := Some(Whole(r)));
    var d3 := d2.(tmpSynced := true);
    [d, d1, d2, d3, d3.(journal := Some(Whole(r)), tmp := None)]
  }

  lemma SavedDiskIs(d: Disk, r: Record)
    ensures ApplyAll(d, SaveOps(r)) == SaveSteps(d, r)[4]
  {
    var ds := SaveSteps(d, r);
    OneOp(ds[0], CreateTmp, [WriteTmp(r), SyncTmp, RenameTmp]);
    OneOp(ds[1], WriteTmp(r), [SyncTmp, RenameTmp]);
    OneOp(ds[2], SyncTmp, [RenameTmp]);
    OneOp(ds[3], RenameTmp, []);
    assert [CreateTmp] + [WriteTmp(r), SyncTmp, RenameTmp] == SaveOps(r);
    assert [WriteTmp(r)] + [SyncTmp, RenameTmp] == [WriteTmp(r), SyncTmp, RenameTmp];
    assert [SyncTmp] + [RenameTmp] == [SyncTmp, RenameTmp];
    assert [RenameTmp] + [] == [RenameTmp];
  }

  /** After the first `i` operations of a save, the disk is the `i`-th of the five. */
  lemma SaveReaches(d: Disk, r: Record, i: nat)
    requires i <= 4
    ensures ApplyAll(d, SaveOps(r)[..i]) == SaveSteps(d, r)[i]
  {
    var ds := SaveSteps(d, r);
    if i > 0 {
      SaveReaches(d, r, i - 1);
      assert SaveOps(r)[..i] == SaveOps(r)[..i - 1] + [SaveOps(r)[i - 1]];
      ApplyAllAppend(d, SaveOps(r)[..i - 1], [SaveOps(r)[i - 1]]);
      OneOp(ds[i - 1], SaveOps(r)[i - 1], []);
      assert [SaveOps(r)[i - 1]] + [] == [SaveOps(r)[i - 1]];
    }
  }

  /**
   * Saving is atomic: a crash before, between or after its disk operations leaves a journal that reads back as
   * the old record, or as the new one once the rename has happened; nothing else is lost.
   */
  lemma SaveIsAtomic(d: Disk, r: Record, i: nat, d': Disk)
    requires i <= 4 && CrashLeaves(ApplyAll(d, SaveOps(r)[..i]), d')
    ensures Load(d') == if i == 4 then Ok(Some(r)) else Load(d)
    ensures d'.finals == d.finals
    ensures i < 4 ==> CrashLeaves(d.(tmp := d'.tmp), d')
  {
    SaveReaches(d, r, i);
    var reached := SaveSteps(d, r)[i];
    assert reached.part == d.part && reached.finals == d.finals && reached.synced == d.synced;
    assert reached.journal == if i == 4 then Some(Whole(r)) else d.journal;
  }

  /** The disk that taking data leaves. */
  lemma AcceptedDisk(d: Disk, data: seq<Byte>, record: Record)
    requires d.part.Some?
    ensures ApplyAll(d, [AppendPart(data), SyncPart] + SaveOps(record))
            == d.(part := Some(d.part.value + data), synced := |d.part.value + data|,
                  journal := Some(Whole(record)), tmp := None, tmpSynced := true)
  {
    var d1 := Apply(d, AppendPart(data));
    assert [AppendPart(data), SyncPart] + SaveOps(record) == [AppendPart(data)] + ([SyncPart] + SaveOps(record));
    OneOp(d, AppendPart(data), [SyncPart] + SaveOps(record));
    OneOp(d1, SyncPart, SaveOps(record));
    SavedDiskIs(Apply(d1, SyncPart), record);
  }
}
