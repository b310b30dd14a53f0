/** The twenty control messages and the enumerations they carry. */
module Messages {
  import opened Bytes
  import opened Results

  type TransferId = b: seq<Byte> | |b| == 16 witness seq(16, _ => 0)

  datatype ProtocolVersion = ProtocolVersion(major: U32, minor: U32)

  datatype Platform = Linux | Android | Windows | MacOs | Ios | OtherPlatform(name: string)

  datatype ErrorCode =
    | UnsupportedVersion | InvalidFrame | PayloadTooLarge | InvalidCbor | UnknownMessageType | SessionTimeout
    | ChecksumMismatch | DiskFull | StorageError | PathRejected | TransferNotFound | StreamNotFound
    | IdentityChanged | PairRequired | RateLimited | InternalError | ManifestTooLarge
    | UnknownCode(name: string)

  datatype EntryType = File | Dir

  datatype ManifestEntry = ManifestEntry(
    fileId: U32, relativePath: string, size: Option<U64>, sha256: Option<Digest>, entryType: EntryType)

  datatype TransferType = Files | Directory

  datatype AckStatus = Success | PartialFailure

  datatype Range = Range(offset: U64, length: U64)

  datatype ResumeFile = ResumeFile(
    fileId: U32, receivedBytes: U64, receivedRanges: seq<Range>, partialSha256: Option<Digest>)

  datatype ControlMessage =
    | Hello(version: ProtocolVersion, deviceId: Digest, deviceName: string, platform: Platform,
            capabilities: seq<string>, isPaired: bool)
    | HelloAck(version: ProtocolVersion, deviceId: Digest, deviceName: string, platform: Platform,
               capabilities: seq<string>, isPaired: bool, sessionId: U32)
    | PairRequest(sasMethod: string)
    | PairAccept
    | PairReject(reason: Option<string>)
    | SessionClose(reason: Option<string>)
    | Error(code: ErrorCode, message: Option<string>, fatal: bool, details: Option<map<string, string>>)
    | TransferRequest(transferId: TransferId, transferType: TransferType, displayName: string,
                      totalFiles: U32, totalSize: U64, manifest: seq<ManifestEntry>)
    | TransferAccept(transferId: TransferId)
    | TransferReject(transferId: TransferId, reason: Option<string>)
    | FileMetadata(transferId: TransferId, fileId: U32, streamId: U32, relativePath: string, size: U64,
                   sha256: Digest, mimeType: Option<string>, modifiedTime: Option<U64>)
    | FileMetadataAck(transferId: TransferId, fileId: U32, streamId: U32, accepted: bool)
    | ChunkAck(streamId: U32, messageId: U64, offset: U64, length: U64)
    | TransferPause(transferId: TransferId)
    | TransferResume(transferId: TransferId)
    | TransferCancel(transferId: TransferId, reason: Option<string>)
    | TransferComplete(transferId: TransferId)
    | TransferAck(transferId: TransferId, status: AckStatus, failedFiles: Option<seq<U32>>)
    | ResumeQuery(transferId: TransferId, fileIds: Option<seq<U32>>)
    | ResumeStatus(transferId: TransferId, resumable: bool, files: Option<seq<ResumeFile>>, expiry: Option<U64>)

  function TypeCode(m: ControlMessage): U64 {
    match m
    case Hello(_, _, _, _, _, _) => 0x01
    case HelloAck(_, _, _, _, _, _, _) => 0x02
    case PairRequest(_) => 0x03
    case PairAccept => 0x04
    case PairReject(_) => 0x05
    case SessionClose(_) => 0x06
    case Error(_, _, _, _) => 0x09
    case TransferRequest(_, _, _, _, _, _) => 0x10
    case TransferAccept(_) => 0x11
    case TransferReject(_, _) => 0x12
    case FileMetadata(_, _, _, _, _, _, _, _) => 0x13
    case FileMetadataAck(_, _, _, _) => 0x14
    case ChunkAck(_, _, _, _) => 0x15
    case TransferPause(_) => 0x16
    case TransferResume(_) => 0x17
    case TransferCancel(_, _) => 0x18
    case TransferComplete(_) => 0x19
    case TransferAck(_, _, _) => 0x1A
    case ResumeQuery(_, _) => 0x20
    case ResumeStatus(_, _, _, _) => 0x21
  }

  // ----- Names on the wire -----

  function PlatformName(p: Platform): string {
    match p
    case Linux => "linux"
    case Android => "android"
    case Windows => "windows"
    case MacOs => "macos"
    case Ios => "ios"
    case OtherPlatform(name) => name
  }

  function PlatformFromName(s: string): Platform {
    if s == "linux" then Linux
    else if s == "android" then Android
    else if s == "windows" then Windows
    else if s == "macos" then MacOs
    else if s == "ios" then Ios
    else OtherPlatform(s)
  }

  /** A platform is canonical unless it spells out the name of a known one. */
  predicate CanonicalPlatform(p: Platform) {
    p.OtherPlatform? ==> p.name !in ["linux", "android", "windows", "macos", "ios"]
  }

  lemma PlatformRoundTrip(p: Platform)
    ensures PlatformFromName(PlatformName(p)) == p <==> CanonicalPlatform(p)
    ensures PlatformName(PlatformFromName(PlatformName(p))) == PlatformName(p)
  {
  }

  lemma NamedPlatformIsCanonical(s: string)
    ensures CanonicalPlatform(PlatformFromName(s)) && PlatformName(PlatformFromName(s)) == s
  {
  }

  function CodeName(c: ErrorCode): string {
    match c
    case UnsupportedVersion => "unsupported_version"
    case InvalidFrame => "invalid_frame"
    case PayloadTooLarge => "payload_too_large"
    case InvalidCbor => "invalid_cbor"
    case UnknownMessageType => "unknown_message_type"
    case SessionTimeout => "session_timeout"
    case ChecksumMismatch => "checksum_mismatch"
    case DiskFull => "disk_full"
    case StorageError => "storage_error"
    case PathRejected => "path_rejected"
    case TransferNotFound => "transfer_not_found"
    case StreamNotFound => "stream_not_found"
    case IdentityChanged => "identity_changed"
    case PairRequired => "pair_required"
    case RateLimited => "rate_limited"
    case InternalError => "internal_error"
    case ManifestTooLarge => "manifest_too_large"
    case UnknownCode(name) => name
  }

  function CodeFromName(s: string): ErrorCode {
    if s == "unsupported_version" then UnsupportedVersion
    else if s == "invalid_frame" then InvalidFrame
    else if s == "payload_too_large" then PayloadTooLarge
    else if s == "invalid_cbor" then InvalidCbor
    else if s == "unknown_message_type" then UnknownMessageType
    else if s == "session_timeout" then SessionTimeout
    else if s == "checksum_mismatch" then ChecksumMismatch
    else if s == "disk_full" then DiskFull
    else if s == "storage_error" then StorageError
    else if s == "path_rejected" then PathRejected
    else if s == "transfer_not_found" then TransferNotFound
    else if s == "stream_not_found" then StreamNotFound
    else if s == "identity_changed" then IdentityChanged
    else if s == "pair_required" then PairRequired
    else if s == "rate_limited" then RateLimited
    else if s == "internal_error" then InternalError
    else if s == "manifest_too_large" then ManifestTooLarge
    else UnknownCode(s)
  }

  /** A code is canonical unless it spells out the name of a known one. */
  predicate CanonicalCode(c: ErrorCode) {
    c.UnknownCode? ==> c.name !in [
      "unsupported_version", "invalid_frame", "payload_too_large", "invalid_cbor", "unknown_message_type",
      "session_timeout", "checksum_mismatch", "disk_full", "storage_error", "path_rejected", "transfer_not_found",
      "stream_not_found", "identity_changed", "pair_required", "rate_limited", "internal_error", "manifest_too_large"]
  }

  lemma CodeRoundTrip1(c: ErrorCode)
    requires c in {UnsupportedVersion, InvalidFrame, PayloadTooLarge, InvalidCbor, UnknownMessageType, SessionTimeout}
    ensures CodeFromName(CodeName(c)) == c
  {
  }

  lemma CodeRoundTrip2(c: ErrorCode)
    requires c in {ChecksumMismatch, DiskFull, StorageError, PathRejected, TransferNotFound, StreamNotFound}
    ensures CodeFromName(CodeName(c)) == c
  {
  }

  lemma CodeRoundTrip3(c: ErrorCode)
    requires c in {IdentityChanged, PairRequired, RateLimited, InternalError, ManifestTooLarge}
    ensures CodeFromName(CodeName(c)) == c
  {
  }

  lemma NamedCodeIsCanonical(s: string)
    ensures CanonicalCode(CodeFromName(s))
    ensures CodeFromName(s) == UnknownCode(s) <==> CanonicalCode(UnknownCode(s))
  {
  }

  lemma CodeRoundTrip(c: ErrorCode)
    ensures CodeFromName(CodeName(c)) == c <==> CanonicalCode(c)
  {
    if c.UnknownCode? {
      NamedCodeIsCanonical(c.name);
    } else if c in {UnsupportedVersion, InvalidFrame, PayloadTooLarge, InvalidCbor, UnknownMessageType, SessionTimeout} {
      CodeRoundTrip1(c);
    } else if c in {ChecksumMismatch, DiskFull, StorageError, PathRejected, TransferNotFound, StreamNotFound} {
      CodeRoundTrip2(c);
    } else {
      CodeRoundTrip3(c);
    }
  }

  // ----- Canonical messages -----

  const MAX_MANIFEST_ENTRIES: nat := 500

  /** A file entry names its size and hash. */
  predicate CanonicalEntry(e: ManifestEntry) {
    e.entryType.File? ==> e.size.Some? && e.sha256.Some?
  }

  /** The messages that the wire format can express. */
  predicate Canonical(m: ControlMessage) {
    match m
    case Hello(_, _, _, platform, _, _) => CanonicalPlatform(platform)
    case HelloAck(_, _, _, platform, _, _, _) => CanonicalPlatform(platform)
    case Error(code, _, _, details) => CanonicalCode(code) && details.None?
    case TransferRequest(_, _, _, _, _, manifest) =>
      |manifest| <= MAX_MANIFEST_ENTRIES && forall e <- manifest :: CanonicalEntry(e)
    case ResumeStatus(_, resumable, files, _) => files.Some? ==> resumable
    case _ => true
  }
}
