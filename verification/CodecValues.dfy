/** What decoding keeps: every field it reads, cut to its width, under the key it came with, and no field besides. */
module CodecValues {
  import opened Bytes
  import opened Results
  import opened Cbor
  import opened Messages
  import opened Codec
  import opened CodecRoundTrip

  /** A value with its integers cut to a width. */
  function Cut(v: Value, width: nat): Value
    requires width > 0
  {
    match v
    case Integer(i) => Integer(i % width)
    case Array(items) =>
      Array(seq(|items|, k requires 0 <= k < |items| =>
        if items[k].Integer? then Integer(items[k].i % width) else items[k]))
    case _ => v
  }

  /** The field is in both or in neither, with the same value up to the width. */
  predicate Keeps(from: Fields, to: Fields, key: string, width: nat)
    requires width > 0
  {
    (key in to <==> key in from) && (key in from ==> to[key] == Cut(from[key], width))
  }

  /** The fields of a message that hold 32-bit integers, alone or in an array. */
  function NarrowKeys(code: U64): seq<string> {
    match code
    case 0x01 => ["protocol_version"]
    case 0x02 => ["protocol_version", "session_id"]
    case 0x10 => ["total_files"]
    case 0x13 => ["file_id", "stream_id"]
    case 0x14 => ["file_id", "stream_id"]
    case 0x15 => ["stream_id"]
    case 0x1A => ["failed_files"]
    case 0x20 => ["file_ids"]
    case _ => []
  }

  /** Its other fields, apart from lists of texts and of records. */
  function OtherKeys(code: U64): seq<string> {
    match code
    case 0x01 => ["device_id", "device_name", "platform", "is_paired"]
    case 0x02 => ["device_id", "device_name", "platform", "is_paired"]
    case 0x03 => ["sas_method"]
    case 0x05 => ["reason"]
    case 0x06 => ["reason"]
    case 0x09 => ["code", "message", "fatal"]
    case 0x10 => ["transfer_id", "transfer_type", "display_name", "total_size"]
    case 0x11 => ["transfer_id"]
    case 0x12 => ["transfer_id", "reason"]
    case 0x13 => ["transfer_id", "relative_path", "size", "sha256", "mime_type", "modified_time"]
    case 0x14 => ["transfer_id", "accepted"]
    case 0x15 => ["message_id", "offset", "length"]
    case 0x16 => ["transfer_id"]
    case 0x17 => ["transfer_id"]
    case 0x18 => ["transfer_id", "reason"]
    case 0x19 => ["transfer_id"]
    case 0x1A => ["transfer_id", "status"]
    case 0x20 => ["transfer_id"]
    case 0x21 => ["transfer_id", "resumable", "expiry"]
    case _ => []
  }

  predicate KeepsAll(from: Fields, to: Fields, narrow: seq<string>, other: seq<string>) {
    && (forall key <- narrow :: Keeps(from, to, key, 0x1_0000_0000))
    && forall key <- other :: Keeps(from, to, key, 0x1_0000_0000_0000_0000)
  }

  predicate BodyKept(m: Fields, body: Fields, code: U64) {
    KeepsAll(m, body, NarrowKeys(code), OtherKeys(code))
  }

  /** A missing list of capabilities is empty. */
  predicate CapabilitiesKept(m: Fields, capabilities: seq<string>) {
    Array(TextItems(capabilities)) == if "capabilities" in m then m["capabilities"] else Array([])
  }

  predicate EntryKept(v: Value, e: ManifestEntry) {
    && v.Map? && ReadEntries(v.entries).Ok?
    && var m := ReadEntries(v.entries).value;
    && KeepsAll(m, EntryFields(e, false), ["file_id"], ["relative_path", "size", "sha256"])
    && (e.entryType.Dir? <==> "type" in m && m["type"] == Text("dir"))
  }

  predicate RangeKept(v: Value, r: Range) {
    && v.Array? && |v.items| == 2 && v.items[0].Integer? && v.items[1].Integer?
    && r.offset == v.items[0].i % 0x1_0000_0000_0000_0000 && r.length == v.items[1].i % 0x1_0000_0000_0000_0000
  }

  predicate ResumeFileKept(v: Value, f: ResumeFile) {
    && v.Map? && ReadEntries(v.entries).Ok?
    && var m := ReadEntries(v.entries).value;
    && KeepsAll(m, ResumeFileFields(f), ["file_id"], ["received_bytes", "partial_sha256"])
    && "received_ranges" in m && m["received_ranges"].Array? && |m["received_ranges"].items| == |f.receivedRanges|
    && forall i :: 0 <= i < |f.receivedRanges| ==> RangeKept(m["received_ranges"].items[i], f.receivedRanges[i])
  }

  predicate ManifestKept(items: seq<Value>, manifest: seq<ManifestEntry>) {
    |items| == |manifest| && forall i :: 0 <= i < |items| ==> EntryKept(items[i], manifest[i])
  }

  predicate FilesKept(items: seq<Value>, files: seq<ResumeFile>) {
    |items| == |files| && forall i :: 0 <= i < |items| ==> ResumeFileKept(items[i], files[i])
  }

  /** The message says what the fields say, no more and no less. */
  ghost predicate Faithful(m: Fields, msg: ControlMessage) {
    && "type" in m && m["type"].Integer? && TypeCode(msg) == m["type"].i % 0x1_0000_0000_0000_0000
    && BodyKept(m, BodyFields(msg), TypeCode(msg))
    && match msg
       case Hello(_, _, _, _, capabilities, _) => CapabilitiesKept(m, capabilities)
       case HelloAck(_, _, _, _, capabilities, _, _) => CapabilitiesKept(m, capabilities)
       case TransferRequest(_, _, _, _, _, manifest) =>
         "manifest" in m && m["manifest"].Array? && ManifestKept(m["manifest"].items, manifest)
       case ResumeStatus(_, resumable, files, _) =>
         && (files.Some? <==> resumable && "files" in m && m["files"].Array?)
         && (files.Some? ==> FilesKept(m["files"].items, files.value))
       case _ => true
  }

  // ----- Single fields -----

  lemma CutTwice(i: int)
    ensures i % 0x1_0000_0000_0000_0000 % 0x1_0000_0000 == i % 0x1_0000_0000
  {
  }

  lemma NumberIsCut(m: Fields, key: string)
    requires GetU32(m, key).Ok?
    ensures m[key].Integer? && Integer(GetU32(m, key).value) == Cut(m[key], 0x1_0000_0000)
  {
    CutTwice(m[key].i);
  }

  lemma EarlyCodeNames(s: string)
    requires CodeFromName(s) in {UnsupportedVersion, InvalidFrame, PayloadTooLarge, InvalidCbor, SessionTimeout,
                                 ErrorCode.UnknownMessageType, ChecksumMismatch, DiskFull}
    ensures CodeName(CodeFromName(s)) == s
  {
  }

  lemma LateCodeNames(s: string)
    requires CodeFromName(s) in {StorageError, PathRejected, TransferNotFound, StreamNotFound, IdentityChanged,
                                 PairRequired, RateLimited, InternalError, ErrorCode.ManifestTooLarge}
    ensures CodeName(CodeFromName(s)) == s
  {
  }

  lemma CodeNameReadsBack(s: string)
    ensures CodeName(CodeFromName(s)) == s
  {
    match CodeFromName(s) {
      case UnknownCode(_) =>
      case StorageError => LateCodeNames(s);
      case PathRejected => LateCodeNames(s);
      case TransferNotFound => LateCodeNames(s);
      case StreamNotFound => LateCodeNames(s);
      case IdentityChanged => LateCodeNames(s);
      case PairRequired => LateCodeNames(s);
      case RateLimited => LateCodeNames(s);
      case InternalError => LateCodeNames(s);
      case ManifestTooLarge => LateCodeNames(s);
      case _ => EarlyCodeNames(s);
    }
  }

  lemma TextsAreKept(m: Fields, key: string)
    requires GetTexts(m, key).Ok? && key in m
    ensures Array(TextItems(GetTexts(m, key).value)) == m[key]
  {
    var items, texts := m[key].items, GetTexts(m, key).value;
    AllAreRead(items, v => TextItem(key, v));
    assert TextItems(texts) == items;
  }

  lemma NumbersAreKept(m: Fields, key: string)
    requires GetU32sOpt(m, key).Ok? && key in m
    ensures GetU32sOpt(m, key).value.Some?
    ensures Array(IntegerItems(GetU32sOpt(m, key).value.value)) == Cut(m[key], 0x1_0000_0000)
  {
    var items, ids := m[key].items, GetU32sOpt(m, key).value.value;
    AllAreRead(items, v => U32Item(key, v));
    assert IntegerItems(ids) == Cut(m[key], 0x1_0000_0000).items;
  }

  // ----- Records inside arrays -----

  lemma EntryIsKept(v: Value)
    requires ReadManifestEntry(v).Ok?
    ensures EntryKept(v, ReadManifestEntry(v).value)
  {
    NumberIsCut(ReadEntries(v.entries).value, "file_id");
  }

  lemma ResumeFileIsKept(v: Value)
    requires ReadResumeFile(v).Ok?
    ensures ResumeFileKept(v, ReadResumeFile(v).value)
  {
    var m := ReadEntries(v.entries).value;
    NumberIsCut(m, "file_id");
    AllAreRead(m["received_ranges"].items, RangeItem);
  }

  lemma ManifestIsKept(items: seq<Value>, manifest: seq<ManifestEntry>)
    requires ReadAll(items, ReadManifestEntry) == Ok(manifest)
    ensures ManifestKept(items, manifest)
  {
    AllAreRead(items, ReadManifestEntry);
    forall i | 0 <= i < |items| ensures EntryKept(items[i], manifest[i]) {
      EntryIsKept(items[i]);
    }
  }

  lemma FilesAreKept(items: seq<Value>, files: seq<ResumeFile>)
    requires ReadAll(items, ReadResumeFile) == Ok(files)
    ensures FilesKept(items, files)
  {
    AllAreRead(items, ReadResumeFile);
    forall i | 0 <= i < |items| ensures ResumeFileKept(items[i], files[i]) {
      ResumeFileIsKept(items[i]);
    }
  }

  // ----- Messages -----

  lemma HelloIsKept(m: Fields, body: Fields)
    requires DecodeHello(m).Ok? && body == HelloFields(DecodeHello(m).value)
    ensures BodyKept(m, body, 0x01) && CapabilitiesKept(m, DecodeHello(m).value.capabilities)
  {
    NamedPlatformIsCanonical(m["platform"].text);
    if "capabilities" in m {
      TextsAreKept(m, "capabilities");
    }
  }

  lemma HelloAckIsKept(m: Fields, msg: ControlMessage)
    requires DecodeHelloAck(m) == Ok(msg)
    ensures msg.HelloAck? && BodyKept(m, BodyFields(msg), 0x02) && CapabilitiesKept(m, msg.capabilities)
  {
    HelloIsKept(m, HelloFields(DecodeHello(m).value));
    NumberIsCut(m, "session_id");
    var body := HelloFields(msg);
    assert BodyFields(msg) == body["session_id" := Integer(msg.sessionId)];
  }

  lemma ErrorIsKept(m: Fields, msg: ControlMessage)
    requires DecodeError(m) == Ok(msg)
    ensures msg.Error? && BodyKept(m, BodyFields(msg), 0x09)
  {
    CodeNameReadsBack(m["code"].text);
  }

  lemma RequestReads(m: Fields, msg: ControlMessage)
    requires DecodeTransferRequest(m) == Ok(msg)
    ensures msg.TransferRequest? && GetU32(m, "total_files") == Ok(msg.totalFiles) && GetTransferId(m) == Ok(msg.transferId)
    ensures ReadTransferType(m) == Ok(msg.transferType) && GetText(m, "display_name") == Ok(msg.displayName)
    ensures GetUint(m, "total_size") == Ok(msg.totalSize)
    ensures "manifest" in m && m["manifest"].Array? && ReadAll(m["manifest"].items, ReadManifestEntry) == Ok(msg.manifest)
  {
  }

  lemma RequestHeadIsKept(m: Fields, msg: ControlMessage, body: Fields, items: seq<Value>)
    requires msg.TransferRequest?
    requires GetU32(m, "total_files") == Ok(msg.totalFiles) && GetTransferId(m) == Ok(msg.transferId)
    requires ReadTransferType(m) == Ok(msg.transferType) && GetText(m, "display_name") == Ok(msg.displayName)
    requires GetUint(m, "total_size") == Ok(msg.totalSize) && body == TransferRequestFields(msg, items)
    ensures BodyKept(m, body, 0x10)
  {
    NumberIsCut(m, "total_files");
  }

  lemma RequestIsKept(m: Fields, msg: ControlMessage)
    requires DecodeTransferRequest(m) == Ok(msg)
    ensures msg.TransferRequest? && BodyKept(m, BodyFields(msg), 0x10)
    ensures "manifest" in m && m["manifest"].Array? && ManifestKept(m["manifest"].items, msg.manifest)
  {
    RequestReads(m, msg);
    RequestHeadIsKept(m, msg, BodyFields(msg), ManifestItems(msg.manifest, HasDirectory(msg.manifest)));
    ManifestIsKept(m["manifest"].items, msg.manifest);
  }

  /** The fields of a message that are always there. */
  lemma MetadataReads(m: Fields, msg: ControlMessage)
    requires DecodeFileMetadata(m) == Ok(msg)
    ensures msg.FileMetadata? && GetU32(m, "file_id") == Ok(msg.fileId) && GetU32(m, "stream_id") == Ok(msg.streamId)
    ensures GetTransferId(m) == Ok(msg.transferId) && GetText(m, "relative_path") == Ok(msg.relativePath)
    ensures GetUint(m, "size") == Ok(msg.size) && GetDigest(m, "sha256") == Ok(msg.sha256)
    ensures GetTextOpt(m, "mime_type") == Ok(msg.mimeType) && GetUintOpt(m, "modified_time") == Ok(msg.modifiedTime)
  {
  }

  lemma MetadataIsKept(m: Fields, msg: ControlMessage)
    requires DecodeFileMetadata(m) == Ok(msg)
    ensures msg.FileMetadata? && BodyKept(m, BodyFields(msg), 0x13)
  {
    MetadataReads(m, msg);
    NumberIsCut(m, "file_id");
    NumberIsCut(m, "stream_id");
  }

  lemma MetadataAckIsKept(m: Fields, msg: ControlMessage)
    requires DecodeFileMetadataAck(m) == Ok(msg)
    ensures msg.FileMetadataAck? && BodyKept(m, BodyFields(msg), 0x14)
  {
    NumberIsCut(m, "file_id");
    NumberIsCut(m, "stream_id");
  }

  lemma ChunkAckIsKept(m: Fields, msg: ControlMessage)
    requires DecodeChunkAck(m) == Ok(msg)
    ensures msg.ChunkAck? && BodyKept(m, BodyFields(msg), 0x15)
  {
    NumberIsCut(m, "stream_id");
  }

  lemma TransferAckIsKept(m: Fields, msg: ControlMessage)
    requires DecodeTransferAck(m) == Ok(msg)
    ensures msg.TransferAck? && BodyKept(m, BodyFields(msg), 0x1A)
  {
    if "failed_files" in m {
      NumbersAreKept(m, "failed_files");
    }
  }

  lemma ResumeQueryIsKept(m: Fields, msg: ControlMessage)
    requires DecodeResumeQuery(m) == Ok(msg)
    ensures msg.ResumeQuery? && BodyKept(m, BodyFields(msg), 0x20)
  {
    if "file_ids" in m {
      NumbersAreKept(m, "file_ids");
    }
  }

  lemma ResumeStatusReads(m: Fields, msg: ControlMessage)
    requires DecodeResumeStatus(m) == Ok(msg)
    ensures msg.ResumeStatus? && GetTransferId(m) == Ok(msg.transferId) && GetBool(m, "resumable") == Ok(msg.resumable)
    ensures GetUintOpt(m, "expiry") == Ok(msg.expiry)
    ensures msg.files.Some? <==> msg.resumable && "files" in m && m["files"].Array?
    ensures msg.files.Some? ==> ReadAll(m["files"].items, ReadResumeFile) == Ok(msg.files.value)
  {
  }

  lemma ResumeStatusIsKept(m: Fields, msg: ControlMessage)
    requires DecodeResumeStatus(m) == Ok(msg)
    ensures msg.ResumeStatus? && BodyKept(m, BodyFields(msg), 0x21)
    ensures msg.files.Some? <==> msg.resumable && "files" in m && m["files"].Array?
    ensures msg.files.Some? ==> FilesKept(m["files"].items, msg.files.value)
  {
    ResumeStatusReads(m, msg);
    if msg.files.Some? {
      FilesAreKept(m["files"].items, msg.files.value);
    }
  }

  lemma WithIdIsKept(code: U64, m: Fields, msg: ControlMessage)
    requires HasOnlyId(code) && DecodeWithId(code, m) == Ok(msg)
    ensures TypeCode(msg) == code && BodyKept(m, BodyFields(msg), code)
  {
  }

  lemma PairIsKept(code: U64, m: Fields, msg: ControlMessage)
    requires code in {0x03, 0x04, 0x05, 0x06} && DecodeSession(code, m) == Ok(msg)
    ensures TypeCode(msg) == code && BodyKept(m, BodyFields(msg), code)
  {
  }

  lemma FieldsAreKept(m: Fields)
    requires DecodeFields(m).Ok?
    ensures Faithful(m, DecodeFields(m).value)
  {
    var msg, code := DecodeFields(m).value, GetUint(m, "type").value;
    if HasOnlyId(code) {
      WithIdIsKept(code, m, msg);
    } else {
      match code {
        case 0x01 => HelloIsKept(m, BodyFields(msg));
        case 0x02 => HelloAckIsKept(m, msg);
        case 0x09 => ErrorIsKept(m, msg);
        case 0x10 => RequestIsKept(m, msg);
        case 0x13 => MetadataIsKept(m, msg);
        case 0x14 => MetadataAckIsKept(m, msg);
        case 0x15 => ChunkAckIsKept(m, msg);
        case 0x1A => TransferAckIsKept(m, msg);
        case 0x20 => ResumeQueryIsKept(m, msg);
        case 0x21 => ResumeStatusIsKept(m, msg);
        case _ => PairIsKept(code, m, msg);
      }
    }
  }

  /** Whatever is decoded says exactly what its fields say. */
  lemma DecodedIsFaithful(v: Value)
    requires Decode(v).Ok?
    ensures v.Map? && ReadEntries(v.entries).Ok? && Faithful(ReadEntries(v.entries).value, Decode(v).value)
  {
    FieldsAreKept(ReadEntries(v.entries).value);
  }

  // ----- What is written -----

  /** Lists of texts and of records. */
  function ListKeys(code: U64): seq<string> {
    match code
    case 0x01 => ["capabilities"]
    case 0x02 => ["capabilities"]
    case 0x10 => ["manifest"]
    case 0x21 => ["files"]
    case _ => []
  }

  /** A message is written with the fields of its type and no others. */
  lemma NoOtherFields(msg: ControlMessage)
    ensures forall key <- BodyFields(msg) ::
              key in NarrowKeys(TypeCode(msg)) || key in OtherKeys(TypeCode(msg)) || key in ListKeys(TypeCode(msg))
  {
  }
}
