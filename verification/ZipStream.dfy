/** Streaming an archive of the shared files: offsets are tracked while the bytes go out through chunked coding. */
module ZipStream {
  import opened Bytes
  import opened Results
  import opened ChunkedCoding
  import opened Zip

  /** A shared file as the server finds it: the results of successive reads, and whether an error ends them. */
  datatype Shared =
    | Missing
    | Present(name: seq<Byte>, parts: seq<seq<Byte>>, fails: bool)

  /** What is read of a file: everything up to the first empty read. */
  function Content(parts: seq<seq<Byte>>): seq<Byte> {
    if parts == [] || parts[0] == [] then [] else parts[0] + Content(parts[1..])
  }

  /** An empty read ends the file. */
  predicate Ended(parts: seq<seq<Byte>>) {
    parts != [] && (parts[0] == [] || Ended(parts[1..]))
  }

  /** An error counts only if no empty read ended the file before it. */
  predicate Readable(item: Shared) {
    item.Present? ==> !item.fails || Ended(item.parts)
  }

  function AsFile(item: Shared): seq<ArchivedFile> {
    match item
    case Missing => []
    case Present(name, parts, _) => [ArchivedFile(name, Content(parts))]
  }

  /** The files that go into the archive: the missing ones are left out. */
  function Included(manifest: seq<Shared>): seq<ArchivedFile> {
    if manifest == [] then []
    else Included(manifest[..|manifest| - 1]) + AsFile(manifest[|manifest| - 1])
  }

  lemma Associate(a: seq<Byte>, b: seq<Byte>, c: seq<Byte>)
    ensures a + b + c == a + (b + c)
  {
  }

  lemma ContentGrows(parts: seq<seq<Byte>>, i: nat, data: seq<Byte>)
    requires i < |parts| && parts[i] != [] && Content(parts) == data + Content(parts[i..])
    ensures Content(parts) == data + parts[i] + Content(parts[i + 1..])
    ensures Ended(parts[i..]) == Ended(parts[i + 1..])
  {
    assert parts[i..][1..] == parts[i + 1..];
    Associate(data, parts[i], Content(parts[i + 1..]));
  }

  /** Passes a file's reads on as they come; `data` stands for what the running checksum has been fed. */
  method StreamContent(parts: seq<seq<Byte>>, fails: bool, out: ChunkedWriter) returns (ok: bool, size: nat, data: seq<Byte>)
    requires out.Valid()
    modifies out
    ensures out.Valid() && size == |data| && out.body == old(out.body) + data
    ensures ok <==> (!fails || Ended(parts))
    ensures ok ==> data == Content(parts)
  {
    size, data := 0, [];
    var i := 0;
    ghost var before := out.body;
    assert parts[0..] == parts;
    while i < |parts| && parts[i] != []
      invariant i <= |parts| && Ended(parts) == Ended(parts[i..])
      invariant out.Valid() && size == |data| && Content(parts) == data + Content(parts[i..])
      invariant out.body == before + data
    {
      var part := parts[i];
      ContentGrows(parts, i, data);
      Associate(before, data, part);
      out.WriteChunk(part);
      data, size := data + part, size + |part|;
      i := i + 1;
    }
    ok := i < |parts| || !fails;
    assert Content(parts[i..]) == [];
  }

  /** One file with its header and descriptor, and its directory entry. */
  method StreamFile(name: seq<Byte>, parts: seq<seq<Byte>>, fails: bool, crc: Crc, offset: nat, out: ChunkedWriter)
    returns (ok: bool, entry: ZipEntry, newOffset: nat)
    requires out.Valid() && offset == |out.body|
    modifies out
    ensures out.Valid()
    ensures ok <==> (!fails || Ended(parts))
    ensures ok ==> out.body == old(out.body) + LocalFile(ArchivedFile(name, Content(parts)), crc)
    ensures ok ==> newOffset == |out.body|
    ensures ok ==> entry == ZipEntry(name, |Content(parts)|, crc(Content(parts)), offset)
  {
    var header := LocalHeader(name);
    out.WriteChunk(header);
    newOffset := offset + |header|;
    var size, data;
    ok, size, data := StreamContent(parts, fails, out);
    entry := ZipEntry(name, size, crc(data), offset);
    if !ok {
      return;
    }
    newOffset := newOffset + size;
    var descriptor := Descriptor(crc(data), size);
    out.WriteChunk(descriptor);
    newOffset := newOffset + |descriptor|;
    Regroup(old(out.body), header, data, descriptor);
  }

  /** The archive so far: the local files and their entries. */
  ghost predicate Streamed(manifest: seq<Shared>, crc: Crc, body: seq<Byte>, entries: seq<ZipEntry>) {
    body == Locals(Included(manifest), crc) && entries == Entries(Included(manifest), crc)
  }

  lemma StreamedNothing(manifest: seq<Shared>, crc: Crc)
    ensures Streamed(manifest[..0], crc, [], [])
  {
    assert manifest[..0] == [];
  }

  lemma StreamedAll(manifest: seq<Shared>, i: nat, crc: Crc, body: seq<Byte>, entries: seq<ZipEntry>)
    requires i == |manifest| && Streamed(manifest[..i], crc, body, entries)
    ensures Streamed(manifest, crc, body, entries)
  {
    WholePrefix(manifest);
  }

  lemma StreamedOneMore(manifest: seq<Shared>, i: nat, crc: Crc, body: seq<Byte>, entries: seq<ZipEntry>, entry: ZipEntry)
    requires i < |manifest| && Streamed(manifest[..i], crc, body, entries) && manifest[i].Present?
    requires var content := Content(manifest[i].parts);
             entry == ZipEntry(manifest[i].name, |content|, crc(content), |body|)
    ensures Streamed(manifest[..i + 1], crc,
                     body + LocalFile(ArchivedFile(manifest[i].name, Content(manifest[i].parts)), crc), entries + [entry])
  {
    assert manifest[..i + 1][..i] == manifest[..i];
    EntriesSnoc(Included(manifest[..i]), ArchivedFile(manifest[i].name, Content(manifest[i].parts)), crc);
  }

  lemma StreamedMissing(manifest: seq<Shared>, i: nat, crc: Crc, body: seq<Byte>, entries: seq<ZipEntry>)
    requires i < |manifest| && Streamed(manifest[..i], crc, body, entries) && manifest[i].Missing?
    ensures Streamed(manifest[..i + 1], crc, body, entries)
  {
    assert manifest[..i + 1][..i] == manifest[..i];
    assert Included(manifest[..i + 1]) == Included(manifest[..i]);
  }

  /** The next file of the manifest, if it is there. */
  method StreamItem(manifest: seq<Shared>, i: nat, crc: Crc, entries: seq<ZipEntry>, offset: nat, out: ChunkedWriter)
    returns (ok: bool, newEntries: seq<ZipEntry>, newOffset: nat)
    requires i < |manifest| && out.Valid() && offset == |out.body| && Streamed(manifest[..i], crc, out.body, entries)
    modifies out
    ensures out.Valid() && (ok <==> Readable(manifest[i]))
    ensures ok ==> Streamed(manifest[..i + 1], crc, out.body, newEntries) && newOffset == |out.body|
  {
    var item := manifest[i];
    ok, newEntries, newOffset := true, entries, offset;
    if item.Missing? {
      StreamedMissing(manifest, i, crc, out.body, entries);
      return;
    }
    ghost var body := out.body;
    var entry;
    ok, entry, newOffset := StreamFile(item.name, item.parts, item.fails, crc, offset, out);
    if ok {
      StreamedOneMore(manifest, i, crc, body, entries, entry);
      newEntries := entries + [entry];
    }
  }

  lemma WholePrefix<T>(s: seq<T>)
    ensures s[..|s|] == s
  {
  }

  predicate ReadableUpTo(manifest: seq<Shared>, n: nat)
    requires n <= |manifest|
  {
    forall j :: 0 <= j < n ==> Readable(manifest[j])
  }

  lemma ReadableOneMore(manifest: seq<Shared>, n: nat)
    requires n < |manifest|
    ensures ReadableUpTo(manifest, n + 1) <==> ReadableUpTo(manifest, n) && Readable(manifest[n])
  {
  }

  lemma ReadableMeansAll(manifest: seq<Shared>, n: nat, ok: bool)
    requires n <= |manifest| && (ok <==> ReadableUpTo(manifest, n)) && (ok ==> n == |manifest|)
    ensures ok <==> forall item <- manifest :: Readable(item)
  {
  }

  /** The loop over the manifest, up to its end or to and including the first file that cannot be read. */
  method StreamEach(manifest: seq<Shared>, crc: Crc, out: ChunkedWriter)
    returns (ok: bool, entries: seq<ZipEntry>, offset: nat, ghost n: nat)
    requires out.Valid() && out.body == []
    modifies out
    ensures n <= |manifest| && out.Valid() && (ok <==> ReadableUpTo(manifest, n)) && (ok ==> n == |manifest|)
    ensures ok ==> offset == |out.body| && Streamed(manifest[..n], crc, out.body, entries)
  {
    entries, offset, ok := [], 0, true;
    var i := 0;
    StreamedNothing(manifest, crc);
    while i < |manifest|
      invariant i <= |manifest| && out.Valid() && ok && ReadableUpTo(manifest, i)
      invariant offset == |out.body| && Streamed(manifest[..i], crc, out.body, entries)
    {
      ReadableOneMore(manifest, i);
      ok, entries, offset := StreamItem(manifest, i, crc, entries, offset, out);
      if !ok {
        n := i + 1;
        return;
      }
      i := i + 1;
    }
    n := i;
  }

  method StreamFiles(manifest: seq<Shared>, crc: Crc, out: ChunkedWriter)
    returns (ok: bool, entries: seq<ZipEntry>, offset: nat)
    requires out.Valid() && out.body == []
    modifies out
    ensures out.Valid() && (ok <==> forall item <- manifest :: Readable(item))
    ensures ok ==> Streamed(manifest, crc, out.body, entries) && offset == |out.body|
  {
    ghost var n;
    ok, entries, offset, n := StreamEach(manifest, crc, out);
    ReadableMeansAll(manifest, n, ok);
    if ok {
      StreamedAll(manifest, n, crc, out.body, entries);
    }
  }

  lemma {:induction false} DirectorySnoc(es: seq<ZipEntry>, e: ZipEntry)
    ensures Directory(es + [e]) == Directory(es) + CentralEntry(e)
  {
    if es == [] {
      assert Directory([e]) == CentralEntry(e) + Directory([]);
    } else {
      assert (es + [e])[1..] == es[1..] + [e];
      DirectorySnoc(es[1..], e);
    }
  }

  lemma DirectoryOneMore(es: seq<ZipEntry>, i: nat, before: seq<Byte>, body: seq<Byte>, record: seq<Byte>)
    requires i < |es| && body == before + Directory(es[..i]) && record == CentralEntry(es[i])
    ensures body + record == before + Directory(es[..i + 1])
  {
    assert es[..i + 1] == es[..i] + [es[i]];
    DirectorySnoc(es[..i], es[i]);
    Associate(before, Directory(es[..i]), record);
  }

  method StreamDirectory(entries: seq<ZipEntry>, offset: nat, out: ChunkedWriter) returns (newOffset: nat)
    requires out.Valid() && offset == |out.body|
    modifies out
    ensures out.Valid() && out.body == old(out.body) + Directory(entries) && newOffset == |out.body|
  {
    newOffset := offset;
    for i := 0 to |entries|
      invariant out.Valid() && newOffset == |out.body|
      invariant out.body == old(out.body) + Directory(entries[..i])
    {
      var record := CentralEntry(entries[i]);
      DirectoryOneMore(entries, i, old(out.body), out.body, record);
      out.WriteChunk(record);
      newOffset := newOffset + |record|;
    }
    assert entries[..|entries|] == entries;
  }

  lemma ArchiveIs(files: seq<ArchivedFile>, crc: Crc, locals: seq<Byte>, entries: seq<ZipEntry>, body: seq<Byte>,
      end: seq<Byte>)
    requires locals == Locals(files, crc) && entries == Entries(files, crc) && body == locals + Directory(entries)
    requires end == EndRecord(|entries|, |body| - |locals|, |locals|)
    ensures body + end == Archive(files, crc)
  {
    assert |body| - |locals| == |Directory(entries)|;
  }

  /**
    * The download: what is sent decodes to the archive of the files present, and within the limits of the format the
    * archive reads back as exactly those files. When a read fails, no complete body is ever sent.
    */
  method StreamZip(manifest: seq<Shared>, crc: Crc, out: ChunkedWriter) returns (ok: bool)
    requires out.Valid() && out.body == []
    modifies out
    ensures ok <==> forall item <- manifest :: Readable(item)
    ensures !ok ==> Unchunk(out.stream) == None
    ensures ok ==> Unchunk(out.stream) == Some((out.body, [])) && out.body == Archive(Included(manifest), crc)
  {
    var entries, offset;
    ok, entries, offset := StreamFiles(manifest, crc, out);
    if !ok {
      out.Unfinished();
      return;
    }
    ghost var locals := out.body;
    var directoryOffset := offset;
    offset := StreamDirectory(entries, offset, out);
    var end := EndRecord(|entries|, offset - directoryOffset, directoryOffset);
    ArchiveIs(Included(manifest), crc, locals, entries, out.body, end);
    out.WriteChunk(end);
    out.Finish();
  }

  /** Within the limits of the format, the downloaded body reads back as exactly the files present, in order. */
  method Download(manifest: seq<Shared>, crc: Crc, out: ChunkedWriter) returns (ok: bool)
    requires out.Valid() && out.body == []
    modifies out
    ensures ok <==> forall item <- manifest :: Readable(item)
    ensures ok && FitsZip(Included(manifest), crc)
            ==> Unchunk(out.stream).Some? && ReadArchive(Unchunk(out.stream).value.0, crc) == Some(Included(manifest))
  {
    ok := StreamZip(manifest, crc, out);
    if ok && FitsZip(Included(manifest), crc) {
      ArchiveRoundTrip(Included(manifest), crc);
    }
  }
}
