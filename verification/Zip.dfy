/** The streamed ZIP download: records, the archive they make up, and a reader after PKWARE's APPNOTE. */
module Zip {
  import opened Bytes
  import opened Results

  const LOCAL_SIGNATURE: nat := 0x04034b50
  const DESCRIPTOR_SIGNATURE: nat := 0x08074b50
  const CENTRAL_SIGNATURE: nat := 0x02014b50
  const END_SIGNATURE: nat := 0x06054b50

  /** CRC-32 of a byte string. */
  type Crc = seq<Byte> -> U32

  datatype ArchivedFile = ArchivedFile(name: seq<Byte>, data: seq<Byte>)

  datatype ZipEntry = ZipEntry(name: seq<Byte>, size: nat, crc: U32, offset: nat)

  // ----- Records -----

  /** The 26 bytes that local and central headers have in common: stored without compression, sizes in a descriptor. */
  function CommonFields(crc: nat, size: nat, nameLength: nat): (b: seq<Byte>)
    ensures |b| == 26
  {
    [20, 0] + [8, 0] + [0, 0] + [0, 0] + [0x21, 0]
    + LittleEndian(crc, 4) + LittleEndian(size, 4) + LittleEndian(size, 4)
    + LittleEndian(nameLength, 2) + [0, 0]
  }

  /** The header before a file's data, whose checksum and sizes are still unknown. */
  function LocalHeader(name: seq<Byte>): (b: seq<Byte>)
    ensures |b| == 30 + |name|
  {
    LittleEndian(LOCAL_SIGNATURE, 4) + CommonFields(0, 0, |name|) + name
  }

  function Descriptor(crc: nat, size: nat): (b: seq<Byte>)
    ensures |b| == 16
  {
    LittleEndian(DESCRIPTOR_SIGNATURE, 4) + LittleEndian(crc, 4) + LittleEndian(size, 4) + LittleEndian(size, 4)
  }

  function CentralEntry(e: ZipEntry): (b: seq<Byte>)
    ensures |b| == 46 + |e.name|
  {
    LittleEndian(CENTRAL_SIGNATURE, 4) + [0x14, 0x03] + CommonFields(e.crc, e.size, |e.name|)
    + [0, 0, 0, 0, 0, 0, 0, 0, 0, 0] + LittleEndian(e.offset, 4) + e.name
  }

  function EndRecord(count: nat, size: nat, offset: nat): (b: seq<Byte>)
    ensures |b| == 22
  {
    LittleEndian(END_SIGNATURE, 4) + [0, 0, 0, 0] + LittleEndian(count, 2) + LittleEndian(count, 2)
    + LittleEndian(size, 4) + LittleEndian(offset, 4) + [0, 0]
  }

  // ----- The archive as a whole -----

  function LocalFile(f: ArchivedFile, crc: Crc): seq<Byte> {
    LocalHeader(f.name) + f.data + Descriptor(crc(f.data), |f.data|)
  }

  function Locals(files: seq<ArchivedFile>, crc: Crc): seq<Byte> {
    if files == [] then [] else Locals(files[..|files| - 1], crc) + LocalFile(files[|files| - 1], crc)
  }

  /** The directory: each file with the place where its local header starts. */
  function Entries(files: seq<ArchivedFile>, crc: Crc): (es: seq<ZipEntry>)
    ensures |es| == |files|
  {
    if files == [] then []
    else
      var before, f := files[..|files| - 1], files[|files| - 1];
      Entries(before, crc) + [ZipEntry(f.name, |f.data|, crc(f.data), |Locals(before, crc)|)]
  }

  function Directory(es: seq<ZipEntry>): seq<Byte> {
    if es == [] then [] else CentralEntry(es[0]) + Directory(es[1..])
  }

  function Archive(files: seq<ArchivedFile>, crc: Crc): seq<Byte> {
    var locals, directory := Locals(files, crc), Directory(Entries(files, crc));
    locals + directory + EndRecord(|files|, |directory|, |locals|)
  }

  /** The limits that 16-bit and 32-bit fields put on an archive. */
  predicate FitsZip(files: seq<ArchivedFile>, crc: Crc) {
    && |files| < 0x1_0000
    && |Locals(files, crc)| < 0x1_0000_0000
    && |Directory(Entries(files, crc))| < 0x1_0000_0000
    && forall f <- files :: |f.name| < 0x1_0000
  }

  // ----- Reading an archive, from its end -----

  function Field(b: seq<Byte>, at: nat, width: nat): (v: nat)
    requires at + width <= |b|
    ensures v < Capacity(width)
  {
    FromLittleEndian(b[at..at + width])
  }

  datatype Common = Common(version: nat, flags: nat, coding: nat, time: nat, date: nat, crc: nat, packed: nat, size: nat,
                           nameLength: nat, extraLength: nat)

  function ReadCommon(b: seq<Byte>): Common
    requires |b| == 26
  {
    Common(Field(b, 0, 2), Field(b, 2, 2), Field(b, 4, 2), Field(b, 6, 2), Field(b, 8, 2),
           Field(b, 10, 4), Field(b, 14, 4), Field(b, 18, 4), Field(b, 22, 2), Field(b, 24, 2))
  }

  /** Bit 3 of the flags: checksum and sizes follow the data in a descriptor (section 4.4.4). */
  predicate HasDescriptor(flags: nat) {
    flags / 8 % 2 == 1
  }

  /** An MS-DOS time and date that exist. */
  predicate ValidTime(time: nat, date: nat) {
    && time % 32 < 30 && time / 32 % 64 < 60 && time / 2048 < 24
    && 1 <= date % 32 <= 31 && 1 <= date / 32 % 16 <= 12
  }

  /** What a reader of version 2.0 that knows no flag but bit 3 can extract: stored data, not encrypted. */
  predicate Extractable(c: Common) {
    c.version <= 20 && c.flags in {0, 8} && c.coding == 0 && ValidTime(c.time, c.date)
  }

  /** A directory entry as read, with its flags. */
  datatype Listed = Listed(entry: ZipEntry, flags: nat)

  /** The first directory entry and what follows it. */
  function ReadEntry(b: seq<Byte>): Option<(Listed, seq<Byte>)> {
    if |b| < 46 || Field(b, 0, 4) != CENTRAL_SIGNATURE then None
    else
      var c := ReadCommon(b[6..32]);
      var end := 46 + c.nameLength + c.extraLength + Field(b, 32, 2);
      if |b| < end || !Extractable(c) || c.packed != c.size || Field(b, 34, 2) != 0 then None
      else
        FieldCapacities();
        Some((Listed(ZipEntry(b[46..46 + c.nameLength], c.size, c.crc, Field(b, 42, 4)), c.flags), b[end..]))
  }

  function ReadDirectory(b: seq<Byte>, count: nat): Option<seq<Listed>> {
    if count == 0 then (if b == [] then Some([]) else None)
    else match ReadEntry(b)
      case None => None
      case Some((e, rest)) =>
        match ReadDirectory(rest, count - 1)
        case None => None
        case Some(es) => Some([e] + es)
  }

  predicate DescriptorMatches(d: seq<Byte>, e: ZipEntry)
    requires |d| == 16
  {
    && Field(d, 0, 4) == DESCRIPTOR_SIGNATURE
    && Field(d, 4, 4) == e.crc && Field(d, 8, 4) == e.size && Field(d, 12, 4) == e.size
  }

  /**
   * Checksum and sizes as section 4.3.9 has them: with bit 3 zero in the local header and given in a descriptor after the
   * data, without it in the local header itself. Either way they are those of the directory.
   */
  predicate SizesAgree(c: Common, after: seq<Byte>, e: ZipEntry) {
    if HasDescriptor(c.flags) then
      c.crc == c.packed == c.size == 0 && |after| >= 16 && DescriptorMatches(after[..16], e)
    else c.crc == e.crc && c.packed == e.size && c.size == e.size
  }

  /** The file at the start of `b`, checked against its directory entry. */
  function ReadLocal(b: seq<Byte>, l: Listed, crc: Crc): Option<ArchivedFile> {
    if |b| < 30 || Field(b, 0, 4) != LOCAL_SIGNATURE then None
    else
      var c, e := ReadCommon(b[4..30]), l.entry;
      var start := 30 + c.nameLength + c.extraLength;
      var end := start + e.size;
      if |b| < end || !Extractable(c) || c.flags != l.flags || b[30..30 + c.nameLength] != e.name then None
      else if !SizesAgree(c, b[end..], e) || crc(b[start..end]) != e.crc then None
      else Some(ArchivedFile(e.name, b[start..end]))
  }

  function ReadAt(b: seq<Byte>, l: Listed, crc: Crc): Option<ArchivedFile> {
    if l.entry.offset > |b| then None else ReadLocal(b[l.entry.offset..], l, crc)
  }

  /** Every entry's file, if all of them can be read. */
  function ExtractAll(es: seq<Listed>, read: Listed -> Option<ArchivedFile>): Option<seq<ArchivedFile>> {
    if es == [] then Some([])
    else match ExtractAll(es[..|es| - 1], read)
      case None => None
      case Some(files) =>
        match read(es[|es| - 1])
        case None => None
        case Some(f) => Some(files + [f])
  }

  datatype End = End(count: nat, size: nat, offset: nat)

  function ReadEnd(b: seq<Byte>): Option<End>
    requires |b| == 22
  {
    if Field(b, 0, 4) != END_SIGNATURE || Field(b, 4, 2) != 0 || Field(b, 6, 2) != 0 then None
    else if Field(b, 8, 2) != Field(b, 10, 2) || Field(b, 20, 2) != 0 then None
    else Some(End(Field(b, 10, 2), Field(b, 12, 4), Field(b, 16, 4)))
  }

  /** The directory of an archive, found from the end record. */
  function Listing(b: seq<Byte>): Option<seq<Listed>> {
    if |b| < 22 then None
    else match ReadEnd(b[|b| - 22..])
      case None => None
      case Some(end) =>
        if end.offset + end.size > |b| then None
        else ReadDirectory(b[end.offset..end.offset + end.size], end.count)
  }

  /** Every file of an archive, found from the end record through the directory. */
  function ReadArchive(b: seq<Byte>, crc: Crc): Option<seq<ArchivedFile>> {
    match Listing(b)
    case None => None
    case Some(es) => ExtractAll(es, l => ReadAt(b, l, crc))
  }

  // ----- Reading back each record -----

  lemma FieldIs(b: seq<Byte>, at: nat, width: nat, v: nat)
    requires at + width <= |b| && b[at..at + width] == LittleEndian(v, width) && v < Capacity(width)
    ensures Field(b, at, width) == v
  {
    LittleEndianRoundTrip(v, width);
  }

  lemma TwoByteField(b: seq<Byte>, at: nat)
    requires at + 2 <= |b|
    ensures Field(b, at, 2) == b[at] as int + 256 * b[at + 1] as int
  {
    var s := b[at..at + 2];
    assert FromLittleEndian(s[1..]) == s[1] + 256 * FromLittleEndian(s[1..][1..]);
  }

  /** The common fields as a streamed archive has them. */
  function StreamedCommon(crc: nat, size: nat, nameLength: nat): (c: Common)
    ensures Extractable(c) && HasDescriptor(c.flags)
  {
    Common(20, 8, 0, 0, 0x21, crc, size, size, nameLength, 0)
  }

  lemma CommonReads(crc: U32, size: U32, nameLength: U16, b: seq<Byte>)
    requires b == CommonFields(crc, size, nameLength)
    ensures ReadCommon(b) == StreamedCommon(crc, size, nameLength)
  {
    FieldCapacities();
    TwoByteField(b, 0);
    TwoByteField(b, 2);
    TwoByteField(b, 4);
    TwoByteField(b, 6);
    TwoByteField(b, 8);
    FieldIs(b, 10, 4, crc);
    FieldIs(b, 14, 4, size);
    FieldIs(b, 18, 4, size);
    FieldIs(b, 22, 2, nameLength);
    TwoByteField(b, 24);
  }

  predicate EntryFits(e: ZipEntry) {
    e.size < 0x1_0000_0000 && e.offset < 0x1_0000_0000 && |e.name| < 0x1_0000
  }

  lemma EntryLayout(sig: seq<Byte>, made: seq<Byte>, common: seq<Byte>, zeros: seq<Byte>, offset: seq<Byte>,
      name: seq<Byte>, rest: seq<Byte>, b: seq<Byte>)
    requires |sig| == 4 && |made| == 2 && |common| == 26 && |zeros| == 10 && |offset| == 4
    requires b == sig + made + common + zeros + offset + name + rest
    ensures |b| >= 46 + |name| && b[0..4] == sig && b[6..32] == common && b[32..42] == zeros
    ensures b[42..46] == offset && b[46..46 + |name|] == name && b[46 + |name|..] == rest
  {
  }

  lemma ReadEntryIs(b: seq<Byte>, c: Common, e: ZipEntry, rest: seq<Byte>)
    requires |b| >= 46 + |e.name| && Field(b, 0, 4) == CENTRAL_SIGNATURE && ReadCommon(b[6..32]) == c
    requires c == StreamedCommon(e.crc, e.size, |e.name|) && Field(b, 32, 2) == 0 && Field(b, 34, 2) == 0
    requires Field(b, 42, 4) == e.offset && b[46..46 + |e.name|] == e.name && b[46 + |e.name|..] == rest
    ensures ReadEntry(b) == Some((Listed(e, 8), rest))
  {
  }

  lemma EntryReads(e: ZipEntry, rest: seq<Byte>, b: seq<Byte>)
    requires EntryFits(e) && b == CentralEntry(e) + rest
    ensures ReadEntry(b) == Some((Listed(e, 8), rest))
  {
    EntryLayout(LittleEndian(CENTRAL_SIGNATURE, 4), [0x14, 0x03], CommonFields(e.crc, e.size, |e.name|),
                [0, 0, 0, 0, 0, 0, 0, 0, 0, 0], LittleEndian(e.offset, 4), e.name, rest, b);
    assert b[32] == b[32..42][0] && b[33] == b[32..42][1] && b[34] == b[32..42][2] && b[35] == b[32..42][3];
    FieldCapacities();
    FieldIs(b, 0, 4, CENTRAL_SIGNATURE);
    CommonReads(e.crc, e.size, |e.name|, b[6..32]);
    TwoByteField(b, 32);
    TwoByteField(b, 34);
    FieldIs(b, 42, 4, e.offset);
    ReadEntryIs(b, StreamedCommon(e.crc, e.size, |e.name|), e, rest);
  }

  /** The entries as a reader lists them: all with a descriptor. */
  function WithDescriptors(es: seq<ZipEntry>): seq<Listed> {
    seq(|es|, i requires 0 <= i < |es| => Listed(es[i], 8))
  }

  lemma WithDescriptorsCons(es: seq<ZipEntry>)
    requires es != []
    ensures WithDescriptors(es) == [Listed(es[0], 8)] + WithDescriptors(es[1..])
  {
  }

  lemma DirectoryStep(b: seq<Byte>, l: Listed, rest: seq<Byte>, ls: seq<Listed>)
    requires ReadEntry(b) == Some((l, rest)) && ReadDirectory(rest, |ls|) == Some(ls)
    ensures ReadDirectory(b, |ls| + 1) == Some([l] + ls)
  {
  }

  lemma {:induction false} DirectoryReads(es: seq<ZipEntry>)
    requires forall e <- es :: EntryFits(e)
    ensures ReadDirectory(Directory(es), |es|) == Some(WithDescriptors(es))
  {
    if es == [] {
      assert WithDescriptors(es) == [];
    } else {
      DirectoryReads(es[1..]);
      EntryReads(es[0], Directory(es[1..]), Directory(es));
      DirectoryStep(Directory(es), Listed(es[0], 8), Directory(es[1..]), WithDescriptors(es[1..]));
      WithDescriptorsCons(es);
    }
  }

  lemma DescriptorReads(e: ZipEntry, d: seq<Byte>)
    requires EntryFits(e) && d == Descriptor(e.crc, e.size)
    ensures DescriptorMatches(d, e)
  {
    FieldCapacities();
    FieldIs(d, 0, 4, DESCRIPTOR_SIGNATURE);
    FieldIs(d, 4, 4, e.crc);
    FieldIs(d, 8, 4, e.size);
    FieldIs(d, 12, 4, e.size);
  }

  lemma LocalLayout(sig: seq<Byte>, common: seq<Byte>, name: seq<Byte>, data: seq<Byte>, descriptor: seq<Byte>,
      rest: seq<Byte>, b: seq<Byte>, start: nat, end: nat)
    requires |sig| == 4 && |common| == 26 && |descriptor| == 16
    requires b == sig + common + name + data + descriptor + rest
    requires start == 30 + |name| && end == start + |data|
    ensures |b| >= end + 16 && b[0..4] == sig && b[4..30] == common
    ensures b[30..start] == name && b[start..end] == data && b[end..][..16] == descriptor
  {
  }

  lemma ReadLocalIs(b: seq<Byte>, c: Common, e: ZipEntry, crc: Crc, f: ArchivedFile, start: nat, end: nat)
    requires e.name == f.name && e.size == |f.data| && e.crc == crc(f.data)
    requires start == 30 + |f.name| && end == start + |f.data| && |b| >= end + 16
    requires Field(b, 0, 4) == LOCAL_SIGNATURE && ReadCommon(b[4..30]) == c && c == StreamedCommon(0, 0, |f.name|)
    requires b[30..start] == f.name && b[start..end] == f.data && DescriptorMatches(b[end..][..16], e)
    ensures ReadLocal(b, Listed(e, 8), crc) == Some(f)
  {
  }

  lemma LocalReads(f: ArchivedFile, e: ZipEntry, crc: Crc, rest: seq<Byte>, b: seq<Byte>)
    requires EntryFits(e) && e.name == f.name && e.size == |f.data| && e.crc == crc(f.data)
    requires b == LocalFile(f, crc) + rest
    ensures ReadLocal(b, Listed(e, 8), crc) == Some(f)
  {
    var start := 30 + |f.name|;
    var end := start + |f.data|;
    LocalLayout(LittleEndian(LOCAL_SIGNATURE, 4), CommonFields(0, 0, |f.name|), f.name, f.data,
                Descriptor(crc(f.data), |f.data|), rest, b, start, end);
    FieldCapacities();
    FieldIs(b, 0, 4, LOCAL_SIGNATURE);
    CommonReads(0, 0, |f.name|, b[4..30]);
    DescriptorReads(e, b[end..][..16]);
    ReadLocalIs(b, StreamedCommon(0, 0, |f.name|), e, crc, f, start, end);
  }

  lemma EndReads(count: U16, size: U32, offset: U32, b: seq<Byte>)
    requires b == EndRecord(count, size, offset)
    ensures ReadEnd(b) == Some(End(count, size, offset))
  {
    FieldCapacities();
    FieldIs(b, 0, 4, END_SIGNATURE);
    TwoByteField(b, 4);
    TwoByteField(b, 6);
    FieldIs(b, 8, 2, count);
    FieldIs(b, 10, 2, count);
    FieldIs(b, 12, 4, size);
    FieldIs(b, 16, 4, offset);
    TwoByteField(b, 20);
  }

  // ----- The archive reads back -----

  lemma {:induction false} EntriesFit(files: seq<ArchivedFile>, crc: Crc, limit: nat)
    requires |Locals(files, crc)| < limit <= 0x1_0000_0000 && forall f <- files :: |f.name| < 0x1_0000
    ensures forall e <- Entries(files, crc) :: EntryFits(e)
  {
    if files != [] {
      EntriesFit(files[..|files| - 1], crc, limit);
    }
  }

  lemma {:induction false} ExtractEach(es: seq<Listed>, read: Listed -> Option<ArchivedFile>, files: seq<ArchivedFile>)
    requires |es| == |files| && forall i :: 0 <= i < |es| ==> read(es[i]) == Some(files[i])
    ensures ExtractAll(es, read) == Some(files)
  {
    if es != [] {
      var last := |es| - 1;
      ExtractEach(es[..last], read, files[..last]);
      assert files == files[..last] + [files[last]];
    }
  }

  lemma SplitAt(a: seq<Byte>, b: seq<Byte>, c: seq<Byte>, whole: seq<Byte>)
    requires whole == a + b + c
    ensures whole == a + (b + c) && whole[|a|..] == b + c
  {
  }

  lemma LocalReadsAt(before: seq<Byte>, f: ArchivedFile, e: ZipEntry, crc: Crc, rest: seq<Byte>, b: seq<Byte>)
    requires EntryFits(e) && e == ZipEntry(f.name, |f.data|, crc(f.data), |before|)
    requires b == before + LocalFile(f, crc) + rest
    ensures ReadLocal(b[e.offset..], Listed(e, 8), crc) == Some(f)
  {
    SplitAt(before, LocalFile(f, crc), rest, b);
    LocalReads(f, e, crc, rest, b[e.offset..]);
  }

  lemma EntriesSnoc(before: seq<ArchivedFile>, f: ArchivedFile, crc: Crc)
    ensures Entries(before + [f], crc)
         == Entries(before, crc) + [ZipEntry(f.name, |f.data|, crc(f.data), |Locals(before, crc)|)]
    ensures Locals(before + [f], crc) == Locals(before, crc) + LocalFile(f, crc)
  {
    assert (before + [f])[..|before|] == before;
  }

  /** From its entry's offset, every file is found again, whatever follows the local files. */
  lemma {:induction false} EachIsFound(
      files: seq<ArchivedFile>, i: nat, crc: Crc, locals: seq<Byte>, rest: seq<Byte>, b: seq<Byte>)
    requires i < |files| && locals == Locals(files, crc) && b == locals + rest && EntryFits(Entries(files, crc)[i])
    ensures ReadAt(b, Listed(Entries(files, crc)[i], 8), crc) == Some(files[i])
  {
    var last := |files| - 1;
    var before, f := files[..last], files[last];
    assert files == before + [f];
    EntriesSnoc(before, f, crc);
    if i == last {
      LocalReadsAt(Locals(before, crc), f, Entries(files, crc)[i], crc, rest, b);
    } else {
      SplitAt(Locals(before, crc), LocalFile(f, crc), rest, b);
      EachIsFound(before, i, crc, Locals(before, crc), LocalFile(f, crc) + rest, b);
    }
  }

  lemma ListingIs(b: seq<Byte>, end: End, directory: seq<Byte>)
    requires |b| >= 22 && ReadEnd(b[|b| - 22..]) == Some(end)
    requires end.offset + end.size <= |b| && b[end.offset..end.offset + end.size] == directory
    ensures Listing(b) == ReadDirectory(directory, end.count)
  {
  }

  lemma ExtractFromArchive(files: seq<ArchivedFile>, crc: Crc, es: seq<ZipEntry>, rest: seq<Byte>, b: seq<Byte>)
    requires es == Entries(files, crc) && (forall e <- es :: EntryFits(e)) && b == Locals(files, crc) + rest
    ensures ExtractAll(WithDescriptors(es), l => ReadAt(b, l, crc)) == Some(files)
  {
    forall i | 0 <= i < |files| ensures ReadAt(b, Listed(es[i], 8), crc) == Some(files[i]) {
      EachIsFound(files, i, crc, Locals(files, crc), rest, b);
    }
    ExtractEach(WithDescriptors(es), l => ReadAt(b, l, crc), files);
  }

  lemma ArchiveLayout(locals: seq<Byte>, directory: seq<Byte>, end: seq<Byte>, b: seq<Byte>)
    requires b == locals + directory + end
    ensures b == locals + (directory + end)
    ensures b[|b| - |end|..] == end && b[|locals|..|locals| + |directory|] == directory
  {
  }

  /** Within the limits of the format, reading an archive returns exactly the files it was made of, in order. */
  lemma ArchiveRoundTrip(files: seq<ArchivedFile>, crc: Crc)
    requires FitsZip(files, crc)
    ensures ReadArchive(Archive(files, crc), crc) == Some(files)
  {
    var b, locals, es := Archive(files, crc), Locals(files, crc), Entries(files, crc);
    var directory := Directory(es);
    var end := EndRecord(|files|, |directory|, |locals|);
    ArchiveLayout(locals, directory, end, b);
    EndReads(|files|, |directory|, |locals|, end);
    EntriesFit(files, crc, 0x1_0000_0000);
    DirectoryReads(es);
    ListingIs(b, End(|files|, |directory|, |locals|), directory);
    ExtractFromArchive(files, crc, es, directory + end, b);
  }

  // ----- What an archive can hold at all -----

  predicate NamesFit(e: ZipEntry) {
    |e.name| < 0x1_0000 && e.size < 0x1_0000_0000
  }

  lemma ReadEntryFits(b: seq<Byte>)
    requires ReadEntry(b).Some?
    ensures NamesFit(ReadEntry(b).value.0.entry)
  {
    FieldCapacities();
  }

  lemma {:induction false} DirectoryFits(b: seq<Byte>, count: nat)
    requires ReadDirectory(b, count).Some?
    ensures var es := ReadDirectory(b, count).value; |es| == count && forall l <- es :: NamesFit(l.entry)
  {
    if count > 0 {
      ReadEntryFits(b);
      DirectoryFits(ReadEntry(b).value.1, count - 1);
    }
  }

  lemma ListingFits(b: seq<Byte>)
    requires Listing(b).Some?
    ensures |Listing(b).value| < 0x1_0000 && forall l <- Listing(b).value :: NamesFit(l.entry)
  {
    FieldCapacities();
    var end := ReadEnd(b[|b| - 22..]).value;
    DirectoryFits(b[end.offset..end.offset + end.size], end.count);
  }

  lemma {:induction false} ExtractedAreRead(es: seq<Listed>, read: Listed -> Option<ArchivedFile>)
    requires ExtractAll(es, read).Some?
    ensures var files := ExtractAll(es, read).value;
            |files| == |es| && forall i :: 0 <= i < |es| ==> read(es[i]) == Some(files[i])
  {
    if es != [] {
      ExtractedAreRead(es[..|es| - 1], read);
    }
  }

  lemma ReadAtMatches(b: seq<Byte>, l: Listed, crc: Crc)
    requires ReadAt(b, l, crc).Some?
    ensures ReadAt(b, l, crc).value.name == l.entry.name && |ReadAt(b, l, crc).value.data| == l.entry.size
  {
  }

  /** The field widths are real limits: nothing reads back with more files, a longer name or more data than they allow. */
  lemma LimitsAreReal(b: seq<Byte>, crc: Crc)
    requires ReadArchive(b, crc).Some?
    ensures var files := ReadArchive(b, crc).value;
            |files| < 0x1_0000 && forall f <- files :: |f.name| < 0x1_0000 && |f.data| < 0x1_0000_0000
  {
    var es, files := Listing(b).value, ReadArchive(b, crc).value;
    ListingFits(b);
    ExtractedAreRead(es, l => ReadAt(b, l, crc));
    forall i | 0 <= i < |files| ensures |files[i].name| < 0x1_0000 && |files[i].data| < 0x1_0000_0000 {
      assert NamesFit(es[i].entry);
      ReadAtMatches(b, es[i], crc);
    }
  }
}
