/** Encoding control messages as CBOR maps and decoding them again. */
module Codec {
  import opened Bytes
  import opened Results
  import opened Cbor
  import opened Messages

  type Fields = map<string, Value>

  // ----- Reading fields -----

  function Required(m: Fields, key: string): Result<Value, CodecError> {
    if key in m then Ok(m[key]) else Err(MissingField(key))
  }

  /** An unsigned integer, cut to 64 bits. */
  function AsUint(key: string, v: Value): Result<U64, CodecError> {
    if v.Integer? && v.i >= 0 then Ok(v.i % 0x1_0000_0000_0000_0000) else Err(WrongType(key, "unsigned integer"))
  }

  function AsText(key: string, v: Value): Result<string, CodecError> {
    if v.Text? then Ok(v.text) else Err(WrongType(key, "text string"))
  }

  function AsBool(key: string, v: Value): Result<bool, CodecError> {
    if v.Bool? then Ok(v.b) else Err(WrongType(key, "boolean"))
  }

  function AsBytes(key: string, length: nat, v: Value): (r: Result<seq<Byte>, CodecError>)
    ensures r.Ok? ==> |r.value| == length
  {
    if !v.Bytes? then Err(WrongType(key, "byte string"))
    else if |v.bytes| != length then Err(WrongType(key, "bytes of correct length"))
    else Ok(v.bytes)
  }

  function GetUint(m: Fields, key: string): Result<U64, CodecError> {
    var v :- Required(m, key);
    AsUint(key, v)
  }

  /** An unsigned integer cut to 32 bits. */
  function GetU32(m: Fields, key: string): Result<U32, CodecError> {
    var n :- GetUint(m, key);
    Ok(n % 0x1_0000_0000)
  }

  function GetUintOpt(m: Fields, key: string): Result<Option<U64>, CodecError> {
    if key !in m then Ok(None)
    else
      var n :- AsUint(key, m[key]);
      Ok(Some(n))
  }

  function GetText(m: Fields, key: string): Result<string, CodecError> {
    var v :- Required(m, key);
    AsText(key, v)
  }

  function GetTextOpt(m: Fields, key: string): Result<Option<string>, CodecError> {
    if key !in m then Ok(None)
    else
      var s :- AsText(key, m[key]);
      Ok(Some(s))
  }

  function GetBool(m: Fields, key: string): Result<bool, CodecError> {
    var v :- Required(m, key);
    AsBool(key, v)
  }

  function GetDigest(m: Fields, key: string): Result<Digest, CodecError> {
    var v :- Required(m, key);
    AsBytes(key, 32, v)
  }

  function GetDigestOpt(m: Fields, key: string): Result<Option<Digest>, CodecError> {
    if key !in m then Ok(None)
    else
      var b :- AsBytes(key, 32, m[key]);
      Ok(Some(b))
  }

  function GetTransferId(m: Fields): Result<TransferId, CodecError> {
    var v :- Required(m, "transfer_id");
    AsBytes("transfer_id", 16, v)
  }

  /** The loop over an array: every item is read in turn, and the first failure ends it. */
  function ReadAll<T>(items: seq<Value>, read: Value -> Result<T, CodecError>): Result<seq<T>, CodecError> {
    if items == [] then Ok([])
    else
      var first :- read(items[0]);
      var rest :- ReadAll(items[1..], read);
      Ok([first] + rest)
  }

  function After<T>(done: seq<T>, r: Result<seq<T>, CodecError>): Result<seq<T>, CodecError> {
    match r
    case Ok(rest) => Ok(done + rest)
    case Err(e) => Err(e)
  }

  lemma AfterOne<T>(done: seq<T>, x: T, r: Result<seq<T>, CodecError>)
    ensures After(done, After([x], r)) == After(done + [x], r)
  {
    if r.Ok? {
      assert done + ([x] + r.value) == done + [x] + r.value;
    }
  }

  method CollectAll<T>(items: seq<Value>, read: Value -> Result<T, CodecError>) returns (r: Result<seq<T>, CodecError>)
    ensures r == ReadAll(items, read)
  {
    var done: seq<T> := [];
    var i := 0;
    assert items[0..] == items;
    assert ReadAll(items, read).Ok? ==> done + ReadAll(items, read).value == ReadAll(items, read).value;
    while i < |items|
      invariant i <= |items|
      invariant ReadAll(items, read) == After(done, ReadAll(items[i..], read))
    {
      var item := read(items[i]);
      assert items[i..][1..] == items[i + 1..];
      if item.Err? {
        return Err(item.error);
      }
      AfterOne(done, item.value, ReadAll(items[i + 1..], read));
      done := done + [item.value];
      i := i + 1;
    }
    assert items[i..] == [] && done + [] == done;
    return Ok(done);
  }

  function TextItem(key: string, v: Value): Result<string, CodecError> {
    if v.Text? then Ok(v.text) else Err(WrongType(key, "array of text strings"))
  }

  /** An array of text; a missing one is empty. */
  function GetTexts(m: Fields, key: string): Result<seq<string>, CodecError> {
    if key !in m then Ok([])
    else if !m[key].Array? then Err(WrongType(key, "array"))
    else ReadAll(m[key].items, v => TextItem(key, v))
  }

  /** Array elements are cut to 32 bits; here a negative integer is not refused. */
  function U32Item(key: string, v: Value): Result<U32, CodecError> {
    if v.Integer? then Ok(v.i % 0x1_0000_0000) else Err(WrongType(key, "array of unsigned integers"))
  }

  function GetU32sOpt(m: Fields, key: string): Result<Option<seq<U32>>, CodecError> {
    if key !in m then Ok(None)
    else if !m[key].Array? then Err(WrongType(key, "array"))
    else
      var ids :- ReadAll(m[key].items, v => U32Item(key, v));
      Ok(Some(ids))
  }

  function ReadVersion(m: Fields): Result<ProtocolVersion, CodecError> {
    var key := "protocol_version";
    var v :- Required(m, key);
    if v.Array? && |v.items| == 2 && v.items[0].Integer? && v.items[1].Integer?
    then Ok(ProtocolVersion(v.items[0].i % 0x1_0000_0000, v.items[1].i % 0x1_0000_0000))
    else Err(WrongType(key, "[uint, uint]"))
  }

  // ----- Decoding -----

  function DecodeHello(m: Fields): (r: Result<ControlMessage, CodecError>)
    ensures r.Ok? ==> r.value.Hello?
  {
    var version :- ReadVersion(m);
    var deviceId :- GetDigest(m, "device_id");
    var deviceName :- GetText(m, "device_name");
    var platform :- GetText(m, "platform");
    var capabilities :- GetTexts(m, "capabilities");
    var isPaired :- GetBool(m, "is_paired");
    Ok(Hello(version, deviceId, deviceName, PlatformFromName(platform), capabilities, isPaired))
  }

  function DecodeHelloAck(m: Fields): Result<ControlMessage, CodecError> {
    var h :- DecodeHello(m);
    var sessionId :- GetU32(m, "session_id");
    Ok(HelloAck(h.version, h.deviceId, h.deviceName, h.platform, h.capabilities, h.isPaired, sessionId))
  }

  function DecodeError(m: Fields): Result<ControlMessage, CodecError> {
    var code :- GetText(m, "code");
    var message :- GetTextOpt(m, "message");
    var fatal :- GetBool(m, "fatal");
    Ok(Error(CodeFromName(code), message, fatal, None))
  }

  function ReadEntryType(m: Fields): Result<EntryType, CodecError> {
    var t :- GetTextOpt(m, "type");
    match t
    case None => Ok(File)
    case Some(s) =>
      if s == "dir" then Ok(Dir)
      else if s == "file" then Ok(File)
      else Err(WrongType("manifest[].type", "\"file\" or \"dir\""))
  }

  function DecodeEntry(m: Fields): Result<ManifestEntry, CodecError> {
    var fileId :- GetU32(m, "file_id");
    var relativePath :- GetText(m, "relative_path");
    var entryType :- ReadEntryType(m);
    match entryType
    case File =>
      var size :- GetUint(m, "size");
      var sha256 :- GetDigest(m, "sha256");
      Ok(ManifestEntry(fileId, relativePath, Some(size), Some(sha256), File))
    case Dir =>
      var size :- GetUintOpt(m, "size");
      var sha256 :- GetDigestOpt(m, "sha256");
      Ok(ManifestEntry(fileId, relativePath, size, sha256, Dir))
  }

  function ReadManifestEntry(v: Value): Result<ManifestEntry, CodecError> {
    if !v.Map? then Err(WrongType("manifest[]", "map"))
    else
      var m :- ReadEntries(v.entries);
      DecodeEntry(m)
  }

  function ReadTransferType(m: Fields): Result<TransferType, CodecError> {
    var s :- GetText(m, "transfer_type");
    if s == "files" then Ok(Files)
    else if s == "directory" then Ok(Directory)
    else Err(WrongType("transfer_type", "\"files\" or \"directory\""))
  }

  function DecodeTransferRequest(m: Fields): Result<ControlMessage, CodecError> {
    var transferId :- GetTransferId(m);
    var transferType :- ReadTransferType(m);
    var displayName :- GetText(m, "display_name");
    var totalFiles :- GetU32(m, "total_files");
    var totalSize :- GetUint(m, "total_size");
    var manifest :- Required(m, "manifest");
    if !manifest.Array? then Err(WrongType("manifest", "array"))
    else if |manifest.items| > MAX_MANIFEST_ENTRIES then Err(CodecError.ManifestTooLarge(|manifest.items|))
    else
      var entries :- ReadAll(manifest.items, ReadManifestEntry);
      Ok(TransferRequest(transferId, transferType, displayName, totalFiles, totalSize, entries))
  }

  function DecodeFileMetadata(m: Fields): Result<ControlMessage, CodecError> {
    var transferId :- GetTransferId(m);
    var fileId :- GetU32(m, "file_id");
    var streamId :- GetU32(m, "stream_id");
    var relativePath :- GetText(m, "relative_path");
    var size :- GetUint(m, "size");
    var sha256 :- GetDigest(m, "sha256");
    var mimeType :- GetTextOpt(m, "mime_type");
    var modifiedTime :- GetUintOpt(m, "modified_time");
    Ok(FileMetadata(transferId, fileId, streamId, relativePath, size, sha256, mimeType, modifiedTime))
  }

  function DecodeFileMetadataAck(m: Fields): Result<ControlMessage, CodecError> {
    var transferId :- GetTransferId(m);
    var fileId :- GetU32(m, "file_id");
    var streamId :- GetU32(m, "stream_id");
    var accepted :- GetBool(m, "accepted");
    Ok(FileMetadataAck(transferId, fileId, streamId, accepted))
  }

  function DecodeChunkAck(m: Fields): Result<ControlMessage, CodecError> {
    var streamId :- GetU32(m, "stream_id");
    var messageId :- GetUint(m, "message_id");
    var offset :- GetUint(m, "offset");
    var length :- GetUint(m, "length");
    Ok(ChunkAck(streamId, messageId, offset, length))
  }

  function DecodeTransferAck(m: Fields): Result<ControlMessage, CodecError> {
    var transferId :- GetTransferId(m);
    var s :- GetText(m, "status");
    if s != "success" && s != "partial_failure" then Err(WrongType("status", "\"success\" or \"partial_failure\""))
    else
      var failedFiles :- GetU32sOpt(m, "failed_files");
      Ok(TransferAck(transferId, if s == "success" then Success else PartialFailure, failedFiles))
  }

  function DecodeResumeQuery(m: Fields): Result<ControlMessage, CodecError> {
    var transferId :- GetTransferId(m);
    var fileIds :- GetU32sOpt(m, "file_ids");
    Ok(ResumeQuery(transferId, fileIds))
  }

  /** Ranges are cut to 64 bits; here too a negative integer is not refused. */
  function RangeItem(v: Value): Result<Range, CodecError> {
    if !v.Array? || |v.items| != 2 then Err(WrongType("received_ranges", "array of [uint, uint]"))
    else
      var offset, length := v.items[0], v.items[1];
      if !offset.Integer? || !length.Integer? then Err(WrongType("received_ranges", "[uint, uint]"))
      else Ok(Range(offset.i % 0x1_0000_0000_0000_0000, length.i % 0x1_0000_0000_0000_0000))
  }

  function DecodeResumeFile(m: Fields): Result<ResumeFile, CodecError> {
    var fileId :- GetU32(m, "file_id");
    var receivedBytes :- GetUint(m, "received_bytes");
    var ranges :- Required(m, "received_ranges");
    if !ranges.Array? then Err(WrongType("received_ranges", "array"))
    else
      var receivedRanges :- ReadAll(ranges.items, RangeItem);
      var partialSha256 :- GetDigestOpt(m, "partial_sha256");
      Ok(ResumeFile(fileId, receivedBytes, receivedRanges, partialSha256))
  }

  function ReadResumeFile(v: Value): Result<ResumeFile, CodecError> {
    if !v.Map? then Err(WrongType("files[]", "map"))
    else
      var m :- ReadEntries(v.entries);
      DecodeResumeFile(m)
  }

  /** The list of files counts only in a resumable answer; one that is no array is taken as absent. */
  function DecodeResumeStatus(m: Fields): Result<ControlMessage, CodecError> {
    var transferId :- GetTransferId(m);
    var resumable :- GetBool(m, "resumable");
    var expiry :- GetUintOpt(m, "expiry");
    if !resumable || "files" !in m || !m["files"].Array? then Ok(ResumeStatus(transferId, resumable, None, expiry))
    else
      var files :- ReadAll(m["files"].items, ReadResumeFile);
      Ok(ResumeStatus(transferId, resumable, Some(files), expiry))
  }

  function DecodeSession(code: U64, m: Fields): Result<ControlMessage, CodecError> {
    match code
    case 0x01 => DecodeHello(m)
    case 0x02 => DecodeHelloAck(m)
    case 0x03 =>
      var sasMethod :- GetText(m, "sas_method");
      Ok(PairRequest(sasMethod))
    case 0x04 => Ok(PairAccept)
    case 0x05 =>
      var reason :- GetTextOpt(m, "reason");
      Ok(PairReject(reason))
    case 0x06 =>
      var reason :- GetTextOpt(m, "reason");
      Ok(SessionClose(reason))
    case 0x09 => DecodeError(m)
    case _ => Err(CodecError.UnknownMessageType(code))
  }

  function DecodeTransfer(code: U64, m: Fields): Result<ControlMessage, CodecError> {
    match code
    case 0x10 => DecodeTransferRequest(m)
    case 0x13 => DecodeFileMetadata(m)
    case 0x14 => DecodeFileMetadataAck(m)
    case 0x15 => DecodeChunkAck(m)
    case 0x1A => DecodeTransferAck(m)
    case 0x20 => DecodeResumeQuery(m)
    case 0x21 => DecodeResumeStatus(m)
    case _ => Err(CodecError.UnknownMessageType(code))
  }

  /** The messages that carry a transfer id and at most a reason. */
  function DecodeWithId(code: U64, m: Fields): Result<ControlMessage, CodecError> {
    var transferId :- GetTransferId(m);
    match code
    case 0x11 => Ok(TransferAccept(transferId))
    case 0x16 => Ok(TransferPause(transferId))
    case 0x17 => Ok(TransferResume(transferId))
    case 0x19 => Ok(TransferComplete(transferId))
    case _ =>
      var reason :- GetTextOpt(m, "reason");
      Ok(if code == 0x12 then TransferReject(transferId, reason) else TransferCancel(transferId, reason))
  }

  predicate HasOnlyId(code: U64) {
    code in {0x11, 0x12, 0x16, 0x17, 0x18, 0x19}
  }

  function DecodeFields(m: Fields): Result<ControlMessage, CodecError> {
    var code :- GetUint(m, "type");
    if HasOnlyId(code) then DecodeWithId(code, m)
    else if code < 0x10 then DecodeSession(code, m)
    else DecodeTransfer(code, m)
  }

  /** Decoding a data item: nesting and tags are checked before anything else; keys nobody asks for are ignored. */
  function Decode(v: Value): Result<ControlMessage, CodecError> {
    var _ :- CheckNesting(v, 0);
    var m :- ReadMap(v);
    DecodeFields(m)
  }

  // ----- Encoding -----

  function TextItems(texts: seq<string>): (r: seq<Value>)
    ensures |r| == |texts|
  {
    seq(|texts|, i requires 0 <= i < |texts| => Text(texts[i]))
  }

  function IntegerItems(ids: seq<U32>): (r: seq<Value>)
    ensures |r| == |ids|
  {
    seq(|ids|, i requires 0 <= i < |ids| => Integer(ids[i]))
  }

  function RangeItems(ranges: seq<Range>): (r: seq<Value>)
    ensures |r| == |ranges|
  {
    seq(|ranges|, i requires 0 <= i < |ranges| => Array([Integer(ranges[i].offset), Integer(ranges[i].length)]))
  }

  /** Absent optional fields are not written at all. */
  function Optional(m: Fields, key: string, v: Option<Value>): Fields {
    if v.Some? then m[key := v.value] else m
  }

  function TextOpt(s: Option<string>): Option<Value> {
    if s.Some? then Some(Text(s.value)) else None
  }

  function UintOpt(n: Option<U64>): Option<Value> {
    if n.Some? then Some(Integer(n.value)) else None
  }

  function DigestOpt(d: Option<Digest>): Option<Value> {
    if d.Some? then Some(Bytes(d.value)) else None
  }

  function IdsOpt(ids: Option<seq<U32>>): Option<Value> {
    if ids.Some? then Some(Array(IntegerItems(ids.value))) else None
  }

  function HelloFields(m: ControlMessage): Fields
    requires m.Hello? || m.HelloAck?
  {
    map["capabilities" := Array(TextItems(m.capabilities)),
        "device_id" := Bytes(m.deviceId),
        "device_name" := Text(m.deviceName),
        "is_paired" := Bool(m.isPaired),
        "platform" := Text(PlatformName(m.platform)),
        "protocol_version" := Array([Integer(m.version.major), Integer(m.version.minor)])]
  }

  function ErrorFields(m: ControlMessage): Fields
    requires m.Error?
  {
    Optional(map["code" := Text(CodeName(m.code)), "fatal" := Bool(m.fatal)], "message", TextOpt(m.message))
  }

  /** The kind of an entry is written for directories, and for files when the manifest has directories too. */
  function EntryKind(e: ManifestEntry, mixed: bool): Option<Value> {
    if e.entryType.Dir? then Some(Text("dir")) else if mixed then Some(Text("file")) else None
  }

  function EntryFields(e: ManifestEntry, mixed: bool): Fields {
    var m := map["file_id" := Integer(e.fileId), "relative_path" := Text(e.relativePath)];
    var m := Optional(m, "sha256", DigestOpt(e.sha256));
    var m := Optional(m, "size", UintOpt(e.size));
    Optional(m, "type", EntryKind(e, mixed))
  }

  predicate HasDirectory(manifest: seq<ManifestEntry>) {
    exists e <- manifest :: e.entryType.Dir?
  }

  ghost function ManifestItems(manifest: seq<ManifestEntry>, mixed: bool): (r: seq<Value>)
    ensures |r| == |manifest|
  {
    seq(|manifest|, i requires 0 <= i < |manifest| => ToValue(EntryFields(manifest[i], mixed)))
  }

  function TransferRequestFields(m: ControlMessage, manifest: seq<Value>): Fields
    requires m.TransferRequest?
  {
    map["display_name" := Text(m.displayName),
        "manifest" := Array(manifest),
        "total_files" := Integer(m.totalFiles),
        "total_size" := Integer(m.totalSize),
        "transfer_id" := Bytes(m.transferId),
        "transfer_type" := Text(if m.transferType.Files? then "files" else "directory")]
  }

  function FileMetadataFields(m: ControlMessage): Fields
    requires m.FileMetadata?
  {
    var fields :=
      map["file_id" := Integer(m.fileId),
          "relative_path" := Text(m.relativePath),
          "sha256" := Bytes(m.sha256),
          "size" := Integer(m.size),
          "stream_id" := Integer(m.streamId),
          "transfer_id" := Bytes(m.transferId)];
    Optional(Optional(fields, "mime_type", TextOpt(m.mimeType)), "modified_time", UintOpt(m.modifiedTime))
  }

  function FileMetadataAckFields(m: ControlMessage): Fields
    requires m.FileMetadataAck?
  {
    map["accepted" := Bool(m.accepted), "file_id" := Integer(m.fileId),
        "stream_id" := Integer(m.streamId), "transfer_id" := Bytes(m.transferId)]
  }

  function ChunkAckFields(m: ControlMessage): Fields
    requires m.ChunkAck?
  {
    map["length" := Integer(m.length), "message_id" := Integer(m.messageId),
        "offset" := Integer(m.offset), "stream_id" := Integer(m.streamId)]
  }

  function TransferAckFields(m: ControlMessage): Fields
    requires m.TransferAck?
  {
    var status := Text(if m.status.Success? then "success" else "partial_failure");
    Optional(map["status" := status, "transfer_id" := Bytes(m.transferId)], "failed_files", IdsOpt(m.failedFiles))
  }

  function ResumeFileFields(f: ResumeFile): Fields {
    var m := map["file_id" := Integer(f.fileId),
                 "received_bytes" := Integer(f.receivedBytes),
                 "received_ranges" := Array(RangeItems(f.receivedRanges))];
    Optional(m, "partial_sha256", DigestOpt(f.partialSha256))
  }

  ghost function ResumeFileItems(files: seq<ResumeFile>): (r: seq<Value>)
    ensures |r| == |files|
  {
    seq(|files|, i requires 0 <= i < |files| => ToValue(ResumeFileFields(files[i])))
  }

  ghost function ResumeFilesOpt(files: Option<seq<ResumeFile>>): Option<Value> {
    if files.Some? then Some(Array(ResumeFileItems(files.value))) else None
  }

  function ResumeStatusFields(m: ControlMessage, files: Option<Value>): Fields
    requires m.ResumeStatus?
  {
    var fields := map["resumable" := Bool(m.resumable), "transfer_id" := Bytes(m.transferId)];
    Optional(Optional(fields, "expiry", UintOpt(m.expiry)), "files", files)
  }

  /** The fields of a message without its type. */
  ghost function BodyFields(m: ControlMessage): Fields {
    match m
    case Hello(_, _, _, _, _, _) => HelloFields(m)
    case HelloAck(_, _, _, _, _, _, sessionId) => HelloFields(m)["session_id" := Integer(sessionId)]
    case PairRequest(sasMethod) => map["sas_method" := Text(sasMethod)]
    case PairAccept => map[]
    case PairReject(reason) => Optional(map[], "reason", TextOpt(reason))
    case SessionClose(reason) => Optional(map[], "reason", TextOpt(reason))
    case Error(_, _, _, _) => ErrorFields(m)
    case TransferRequest(_, _, _, _, _, _) =>
      TransferRequestFields(m, ManifestItems(m.manifest, HasDirectory(m.manifest)))
    case TransferAccept(id) => map["transfer_id" := Bytes(id)]
    case TransferReject(id, reason) => Optional(map["transfer_id" := Bytes(id)], "reason", TextOpt(reason))
    case FileMetadata(_, _, _, _, _, _, _, _) => FileMetadataFields(m)
    case FileMetadataAck(_, _, _, _) => FileMetadataAckFields(m)
    case ChunkAck(_, _, _, _) => ChunkAckFields(m)
    case TransferPause(id) => map["transfer_id" := Bytes(id)]
    case TransferResume(id) => map["transfer_id" := Bytes(id)]
    case TransferCancel(id, reason) => Optional(map["transfer_id" := Bytes(id)], "reason", TextOpt(reason))
    case TransferComplete(id) => map["transfer_id" := Bytes(id)]
    case TransferAck(_, _, _) => TransferAckFields(m)
    case ResumeQuery(id, fileIds) => Optional(map["transfer_id" := Bytes(id)], "file_ids", IdsOpt(fileIds))
    case ResumeStatus(_, _, _, _) =>
      ResumeStatusFields(m, ResumeFilesOpt(m.files))
  }

  ghost function WithType(body: Fields, m: ControlMessage): Fields {
    body["type" := Integer(TypeCode(m))]
  }

  /** Encoding a message as a data item with its keys in order; only an oversized manifest is refused. */
  ghost function Encode(m: ControlMessage): Result<Value, CodecError> {
    if m.TransferRequest? && |m.manifest| > MAX_MANIFEST_ENTRIES then Err(CodecError.ManifestTooLarge(|m.manifest|))
    else Ok(ToValue(WithType(BodyFields(m), m)))
  }
}
