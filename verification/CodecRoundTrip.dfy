/** The message codec loses nothing that the wire format can express. */
module CodecRoundTrip {
  import opened Bytes
  import opened Results
  import opened Cbor
  import opened Messages
  import opened Codec

  // ----- Arrays -----

  /** An array reads back when every item does. */
  lemma {:induction false} AllReadBack<T>(items: seq<Value>, read: Value -> Result<T, CodecError>, xs: seq<T>)
    requires |items| == |xs| && forall i :: 0 <= i < |items| ==> read(items[i]) == Ok(xs[i])
    ensures ReadAll(items, read) == Ok(xs)
  {
    if items != [] {
      AllReadBack(items[1..], read, xs[1..]);
      assert xs == [xs[0]] + xs[1..];
    }
  }

  /** And only then. */
  lemma {:induction false} OneFails<T>(items: seq<Value>, read: Value -> Result<T, CodecError>, k: nat)
    requires k < |items| && read(items[k]).Err?
    ensures ReadAll(items, read).Err?
  {
    if k > 0 {
      OneFails(items[1..], read, k - 1);
    }
  }

  lemma TextsReadBack(key: string, texts: seq<string>)
    ensures ReadAll(TextItems(texts), v => TextItem(key, v)) == Ok(texts)
  {
    AllReadBack(TextItems(texts), v => TextItem(key, v), texts);
  }

  lemma U32sReadBack(key: string, ids: seq<U32>)
    ensures ReadAll(IntegerItems(ids), v => U32Item(key, v)) == Ok(ids)
  {
    AllReadBack(IntegerItems(ids), v => U32Item(key, v), ids);
  }

  lemma RangesReadBack(ranges: seq<Range>)
    ensures ReadAll(RangeItems(ranges), RangeItem) == Ok(ranges)
  {
    AllReadBack(RangeItems(ranges), RangeItem, ranges);
  }

  // ----- Records inside arrays -----

  lemma EntryDecodes(e: ManifestEntry, mixed: bool, fields: Fields)
    requires fields == EntryFields(e, mixed)
    ensures CanonicalEntry(e) ==> DecodeEntry(fields) == Ok(e)
    ensures !CanonicalEntry(e) ==> DecodeEntry(fields).Err?
  {
  }

  /** A record inside an array decodes as its fields do. */
  lemma RecordReads(fields: Fields, v: Value)
    requires v == ToValue(fields)
    ensures ReadManifestEntry(v) == DecodeEntry(fields) && ReadResumeFile(v) == DecodeResumeFile(fields)
  {
    MapReadsBack(fields);
  }

  lemma EntryReadsBack(e: ManifestEntry, mixed: bool, v: Value)
    requires v == ToValue(EntryFields(e, mixed))
    ensures CanonicalEntry(e) ==> ReadManifestEntry(v) == Ok(e)
    ensures !CanonicalEntry(e) ==> ReadManifestEntry(v).Err?
  {
    EntryDecodes(e, mixed, EntryFields(e, mixed));
    RecordReads(EntryFields(e, mixed), v);
  }

  lemma ManifestReadsBack(manifest: seq<ManifestEntry>, mixed: bool, items: seq<Value>)
    requires items == ManifestItems(manifest, mixed)
    ensures ReadAll(items, ReadManifestEntry) == Ok(manifest) <==> forall e <- manifest :: CanonicalEntry(e)
  {
    forall i | 0 <= i < |items|
      ensures CanonicalEntry(manifest[i]) ==> ReadManifestEntry(items[i]) == Ok(manifest[i])
      ensures !CanonicalEntry(manifest[i]) ==> ReadManifestEntry(items[i]).Err?
    {
      EntryReadsBack(manifest[i], mixed, items[i]);
    }
    if k :| 0 <= k < |manifest| && !CanonicalEntry(manifest[k]) {
      OneFails(items, ReadManifestEntry, k);
    } else {
      AllReadBack(items, ReadManifestEntry, manifest);
    }
  }

  lemma ResumeFileDecodes(f: ResumeFile, fields: Fields)
    requires fields == ResumeFileFields(f)
    ensures DecodeResumeFile(fields) == Ok(f)
  {
    RangesReadBack(f.receivedRanges);
  }

  lemma ResumeFileReadsBack(f: ResumeFile, v: Value)
    requires v == ToValue(ResumeFileFields(f))
    ensures ReadResumeFile(v) == Ok(f)
  {
    ResumeFileDecodes(f, ResumeFileFields(f));
    RecordReads(ResumeFileFields(f), v);
  }

  lemma ResumeFilesReadBack(files: seq<ResumeFile>, items: seq<Value>)
    requires items == ResumeFileItems(files)
    ensures ReadAll(items, ReadResumeFile) == Ok(files)
  {
    forall i | 0 <= i < |items| ensures ReadResumeFile(items[i]) == Ok(files[i]) {
      ResumeFileReadsBack(files[i], items[i]);
    }
    AllReadBack(items, ReadResumeFile, files);
  }

  // ----- Messages -----

  lemma HelloReadsBack(m: ControlMessage, fields: Fields)
    requires m.Hello? && fields == WithType(HelloFields(m), m)
    ensures DecodeHello(fields) == Ok(m) <==> Canonical(m)
  {
    TextsReadBack("capabilities", m.capabilities);
    PlatformRoundTrip(m.platform);
  }

  lemma HelloAckReadsBack(m: ControlMessage, fields: Fields)
    requires m.HelloAck? && fields == WithType(HelloFields(m)["session_id" := Integer(m.sessionId)], m)
    ensures DecodeHelloAck(fields) == Ok(m) <==> Canonical(m)
  {
    TextsReadBack("capabilities", m.capabilities);
    PlatformRoundTrip(m.platform);
  }

  lemma ErrorReadsBack(m: ControlMessage, fields: Fields)
    requires m.Error? && fields == WithType(ErrorFields(m), m)
    ensures DecodeError(fields) == Ok(m) <==> Canonical(m)
  {
    CodeRoundTrip(m.code);
  }

  predicate RequestHead(m: ControlMessage, items: seq<Value>, fields: Fields)
    requires m.TransferRequest?
  {
    && GetTransferId(fields) == Ok(m.transferId) && ReadTransferType(fields) == Ok(m.transferType)
    && GetText(fields, "display_name") == Ok(m.displayName)
    && GetU32(fields, "total_files") == Ok(m.totalFiles) && GetUint(fields, "total_size") == Ok(m.totalSize)
    && Required(fields, "manifest") == Ok(Array(items))
  }

  lemma RequestHeadReadsBack(m: ControlMessage, items: seq<Value>, fields: Fields)
    requires m.TransferRequest? && fields == WithType(TransferRequestFields(m, items), m)
    ensures RequestHead(m, items, fields)
  {
  }

  lemma RequestAssembles(m: ControlMessage, items: seq<Value>, fields: Fields)
    requires m.TransferRequest? && |items| <= MAX_MANIFEST_ENTRIES && RequestHead(m, items, fields)
    ensures DecodeTransferRequest(fields) == Ok(m) <==> ReadAll(items, ReadManifestEntry) == Ok(m.manifest)
  {
  }

  lemma TransferRequestReadsBack(m: ControlMessage, items: seq<Value>, fields: Fields)
    requires m.TransferRequest? && |items| <= MAX_MANIFEST_ENTRIES
    requires fields == WithType(TransferRequestFields(m, items), m)
    ensures DecodeTransferRequest(fields) == Ok(m) <==> ReadAll(items, ReadManifestEntry) == Ok(m.manifest)
  {
    RequestHeadReadsBack(m, items, fields);
    RequestAssembles(m, items, fields);
  }

  lemma FileMetadataReadsBack(m: ControlMessage, fields: Fields)
    requires m.FileMetadata? && fields == WithType(FileMetadataFields(m), m)
    ensures DecodeFileMetadata(fields) == Ok(m)
  {
  }

  lemma FileMetadataAckReadsBack(m: ControlMessage, fields: Fields)
    requires m.FileMetadataAck? && fields == WithType(FileMetadataAckFields(m), m)
    ensures DecodeFileMetadataAck(fields) == Ok(m)
  {
  }

  lemma ChunkAckReadsBack(m: ControlMessage, fields: Fields)
    requires m.ChunkAck? && fields == WithType(ChunkAckFields(m), m)
    ensures DecodeChunkAck(fields) == Ok(m)
  {
  }

  lemma TransferAckReadsBack(m: ControlMessage, fields: Fields)
    requires m.TransferAck? && fields == WithType(TransferAckFields(m), m)
    ensures DecodeTransferAck(fields) == Ok(m)
  {
    if m.failedFiles.Some? {
      U32sReadBack("failed_files", m.failedFiles.value);
    }
  }

  lemma ResumeStatusReadsBack(m: ControlMessage, files: Option<Value>, fields: Fields)
    requires m.ResumeStatus? && fields == WithType(ResumeStatusFields(m, files), m)
    requires match m.files
             case None => files == None
             case Some(fs) => files.Some? && files.value.Array? && ReadAll(files.value.items, ReadResumeFile) == Ok(fs)
    ensures DecodeResumeStatus(fields) == Ok(m) <==> Canonical(m)
  {
  }

  lemma PairReadsBack(m: ControlMessage, fields: Fields)
    requires m.PairRequest? || m.PairAccept? || m.PairReject? || m.SessionClose?
    requires fields == WithType(BodyFields(m), m)
    ensures DecodeSession(TypeCode(m), fields) == Ok(m)
  {
  }

  lemma ResumeQueryReadsBack(m: ControlMessage, fields: Fields)
    requires m.ResumeQuery? && fields == WithType(BodyFields(m), m)
    ensures DecodeResumeQuery(fields) == Ok(m)
  {
    if m.fileIds.Some? {
      U32sReadBack("file_ids", m.fileIds.value);
    }
  }

  lemma OnlyIdReadsBack(m: ControlMessage, fields: Fields)
    requires HasOnlyId(TypeCode(m)) && fields == WithType(BodyFields(m), m)
    ensures DecodeWithId(TypeCode(m), fields) == Ok(m)
  {
  }

  lemma SessionReadsBack(m: ControlMessage, fields: Fields)
    requires TypeCode(m) < 0x10 && fields == WithType(BodyFields(m), m)
    ensures DecodeSession(TypeCode(m), fields) == Ok(m) <==> Canonical(m)
  {
    match m {
      case Hello(_, _, _, _, _, _) => HelloReadsBack(m, fields);
      case HelloAck(_, _, _, _, _, _, _) => HelloAckReadsBack(m, fields);
      case Error(_, _, _, _) => ErrorReadsBack(m, fields);
      case _ => PairReadsBack(m, fields);
    }
  }

  lemma TransferReadsBack(m: ControlMessage, fields: Fields)
    requires TypeCode(m) >= 0x10 && !HasOnlyId(TypeCode(m)) && fields == WithType(BodyFields(m), m)
    requires m.TransferRequest? ==> |m.manifest| <= MAX_MANIFEST_ENTRIES
    ensures DecodeTransfer(TypeCode(m), fields) == Ok(m) <==> Canonical(m)
  {
    match m {
      case TransferRequest(_, _, _, _, _, manifest) =>
        var items := ManifestItems(manifest, HasDirectory(manifest));
        TransferRequestReadsBack(m, items, fields);
        ManifestReadsBack(manifest, HasDirectory(manifest), items);
      case FileMetadata(_, _, _, _, _, _, _, _) => FileMetadataReadsBack(m, fields);
      case FileMetadataAck(_, _, _, _) => FileMetadataAckReadsBack(m, fields);
      case ChunkAck(_, _, _, _) => ChunkAckReadsBack(m, fields);
      case TransferAck(_, _, _) => TransferAckReadsBack(m, fields);
      case ResumeQuery(_, _) => ResumeQueryReadsBack(m, fields);
      case ResumeStatus(_, _, files, _) =>
        if files.Some? {
          ResumeFilesReadBack(files.value, ResumeFileItems(files.value));
        }
        ResumeStatusReadsBack(m, ResumeFilesOpt(files), fields);
    }
  }

  lemma FieldsReadBack(m: ControlMessage, fields: Fields)
    requires fields == WithType(BodyFields(m), m) && (m.TransferRequest? ==> |m.manifest| <= MAX_MANIFEST_ENTRIES)
    ensures DecodeFields(fields) == Ok(m) <==> Canonical(m)
  {
    assert GetUint(fields, "type") == Ok(TypeCode(m));
    if HasOnlyId(TypeCode(m)) {
      OnlyIdReadsBack(m, fields);
    } else if TypeCode(m) < 0x10 {
      SessionReadsBack(m, fields);
    } else {
      TransferReadsBack(m, fields);
    }
  }

  // ----- The form of encoded messages -----

  lemma EntryIsRegular(e: ManifestEntry, mixed: bool, levels: nat)
    ensures Regular(ToValue(EntryFields(e, mixed)), levels + 1)
  {
    MapIsRegular(EntryFields(e, mixed), levels);
  }

  lemma ResumeFileIsRegular(f: ResumeFile, levels: nat)
    requires f.receivedRanges == [] || levels >= 2
    ensures Regular(ToValue(ResumeFileFields(f)), levels + 1)
  {
    var ranges := RangeItems(f.receivedRanges);
    assert Regular(Array(ranges), levels) by {
      assert forall i :: 0 <= i < |ranges| ==> Regular(ranges[i], levels - 1);
    }
    MapIsRegular(ResumeFileFields(f), levels);
  }

  lemma RequestIsRegular(m: ControlMessage, items: seq<Value>, levels: nat)
    requires m.TransferRequest? && levels > 0 && forall i <- items :: Regular(i, levels - 1)
    ensures AllRegular(WithType(TransferRequestFields(m, items), m), levels)
  {
  }

  lemma ResumeStatusIsRegular(m: ControlMessage, files: Option<Value>, levels: nat)
    requires m.ResumeStatus? && (files.Some? ==> Regular(files.value, levels))
    ensures AllRegular(WithType(ResumeStatusFields(m, files), m), levels)
  {
  }

  lemma FlatIsRegular(m: ControlMessage, levels: nat)
    requires levels > 0 && !m.TransferRequest? && !m.ResumeStatus?
    ensures AllRegular(WithType(BodyFields(m), m), levels)
  {
  }

  /** A resume answer that names a received range. */
  predicate NamesARange(m: ControlMessage) {
    m.ResumeStatus? && m.files.Some? && exists f <- m.files.value :: f.receivedRanges != []
  }

  /** Every value of a message is regular and at most three levels deep, or four if it names a received range. */
  lemma BodyIsRegular(m: ControlMessage, levels: nat)
    requires levels >= if NamesARange(m) then 4 else 3
    ensures AllRegular(WithType(BodyFields(m), m), levels)
  {
    match m {
      case TransferRequest(_, _, _, _, _, manifest) =>
        var items := ManifestItems(manifest, HasDirectory(manifest));
        forall i | 0 <= i < |items| ensures Regular(items[i], levels - 1) {
          EntryIsRegular(manifest[i], HasDirectory(manifest), levels - 2);
        }
        RequestIsRegular(m, items, levels);
      case ResumeStatus(_, _, files, _) =>
        if files.Some? {
          var items := ResumeFileItems(files.value);
          forall i | 0 <= i < |items| ensures Regular(items[i], levels - 1) {
            ResumeFileIsRegular(files.value[i], levels - 2);
          }
          assert Regular(Array(items), levels);
        }
        ResumeStatusIsRegular(m, ResumeFilesOpt(files), levels);
      case _ => FlatIsRegular(m, levels);
    }
  }

  /**
    * What is encoded nests at most five levels deep, carries no tags, and all its maps have text keys in strictly
    * increasing order.
    */
  lemma EncodedIsRegular(m: ControlMessage)
    requires Encode(m).Ok?
    ensures Regular(Encode(m).value, 5) && CheckNesting(Encode(m).value, 0).Ok?
  {
    var fields := WithType(BodyFields(m), m);
    BodyIsRegular(m, 4);
    MapIsRegular(fields, 4);
    BodyIsRegular(m, 5);
    MapIsRegular(fields, 5);
    RegularIsWithin(ToValue(fields), 6);
    NestingCheckIsExact(ToValue(fields), 0);
  }

  lemma RangesNeedThreeLevels(f: ResumeFile)
    requires f.receivedRanges != []
    ensures !Within(ToValue(ResumeFileFields(f)), 2)
  {
    ArrayNestsDeeper(ResumeFileFields(f), "received_ranges", RangeItems(f.receivedRanges), 0, 2);
  }

  lemma FilesField(m: ControlMessage, files: Option<Value>, fields: Fields)
    requires m.ResumeStatus? && files.Some? && fields == WithType(ResumeStatusFields(m, files), m)
    ensures "files" in fields && fields["files"] == files.value
  {
  }

  lemma RangeNeedsFiveLevels(m: ControlMessage, items: seq<Value>, i: nat, fields: Fields)
    requires m.ResumeStatus? && i < |items| && !Within(items[i], 2)
    requires fields == WithType(ResumeStatusFields(m, Some(Array(items))), m)
    ensures !Within(ToValue(fields), 4)
  {
    FilesField(m, Some(Array(items)), fields);
    ArrayNestsDeeper(fields, "files", items, i, 4);
  }

  /** A limit of four levels would let through exactly the messages that are no resume answer naming a received range. */
  lemma FourLevelsSufficeIff(m: ControlMessage)
    requires Encode(m).Ok?
    ensures Within(Encode(m).value, 4) <==> !NamesARange(m)
  {
    var fields := WithType(BodyFields(m), m);
    if NamesARange(m) {
      var i :| 0 <= i < |m.files.value| && m.files.value[i].receivedRanges != [];
      RangesNeedThreeLevels(m.files.value[i]);
      RangeNeedsFiveLevels(m, ResumeFileItems(m.files.value), i, fields);
    } else {
      BodyIsRegular(m, 3);
      MapIsRegular(fields, 3);
      RegularIsWithin(ToValue(fields), 4);
    }
  }

  // ----- The round trip -----

  lemma DecodeIs(v: Value, fields: Fields)
    requires CheckNesting(v, 0).Ok? && ReadMap(v) == Ok(fields)
    ensures Decode(v) == DecodeFields(fields)
  {
  }

  /** Only an oversized manifest is refused; what is encoded decodes to the same message exactly if it was canonical. */
  lemma RoundTrip(m: ControlMessage)
    ensures Encode(m).Err? <==> m.TransferRequest? && |m.manifest| > MAX_MANIFEST_ENTRIES
    ensures Canonical(m) ==> Encode(m).Ok?
    ensures Encode(m).Ok? ==> (Decode(Encode(m).value) == Ok(m) <==> Canonical(m))
  {
    if Encode(m).Ok? {
      var fields := WithType(BodyFields(m), m);
      EncodedIsRegular(m);
      MapReadsBack(fields);
      FieldsReadBack(m, fields);
      DecodeIs(Encode(m).value, fields);
    }
  }

  // ----- Every decoded message is canonical -----

  lemma {:induction false} AllAreRead<T>(items: seq<Value>, read: Value -> Result<T, CodecError>)
    requires ReadAll(items, read).Ok?
    ensures var xs := ReadAll(items, read).value;
            |xs| == |items| && forall i :: 0 <= i < |xs| ==> read(items[i]) == Ok(xs[i])
  {
    if items != [] {
      AllAreRead(items[1..], read);
    }
  }

  lemma DecodedEntryIsCanonical(v: Value)
    requires ReadManifestEntry(v).Ok?
    ensures CanonicalEntry(ReadManifestEntry(v).value)
  {
  }

  lemma DecodedRequestIsCanonical(fields: Fields)
    requires DecodeTransferRequest(fields).Ok?
    ensures Canonical(DecodeTransferRequest(fields).value)
  {
    var items := fields["manifest"].items;
    AllAreRead(items, ReadManifestEntry);
    var manifest := DecodeTransferRequest(fields).value.manifest;
    forall i | 0 <= i < |manifest| ensures CanonicalEntry(manifest[i]) {
      DecodedEntryIsCanonical(items[i]);
    }
  }

  lemma DecodedHelloIsCanonical(fields: Fields)
    ensures DecodeHello(fields).Ok? ==> Canonical(DecodeHello(fields).value)
    ensures DecodeHelloAck(fields).Ok? ==> Canonical(DecodeHelloAck(fields).value)
  {
    if DecodeHello(fields).Ok? {
      NamedPlatformIsCanonical(fields["platform"].text);
    }
  }

  lemma DecodedErrorIsCanonical(fields: Fields)
    ensures DecodeError(fields).Ok? ==> Canonical(DecodeError(fields).value)
  {
    if DecodeError(fields).Ok? {
      NamedCodeIsCanonical(fields["code"].text);
    }
  }

  lemma DecodedSessionIsCanonical(code: U64, fields: Fields)
    requires DecodeSession(code, fields).Ok?
    ensures Canonical(DecodeSession(code, fields).value)
  {
    DecodedHelloIsCanonical(fields);
    DecodedErrorIsCanonical(fields);
  }

  lemma DecodedTransferIsCanonical(code: U64, fields: Fields)
    requires DecodeTransfer(code, fields).Ok?
    ensures Canonical(DecodeTransfer(code, fields).value)
  {
    if code == 0x10 {
      DecodedRequestIsCanonical(fields);
    }
  }

  lemma DecodedIsCanonical(v: Value)
    requires Decode(v).Ok?
    ensures Canonical(Decode(v).value)
  {
    var fields := ReadMap(v).value;
    var code := GetUint(fields, "type").value;
    if !HasOnlyId(code) {
      if code < 0x10 {
        DecodedSessionIsCanonical(code, fields);
      } else {
        DecodedTransferIsCanonical(code, fields);
      }
    }
  }

  /** Decoding, encoding and decoding again gives the message of the first decoding. */
  lemma DecodeEncodeDecode(v: Value)
    requires Decode(v).Ok?
    ensures Encode(Decode(v).value).Ok? && Decode(Encode(Decode(v).value).value) == Decode(v)
  {
    DecodedIsCanonical(v);
    RoundTrip(Decode(v).value);
  }
}
