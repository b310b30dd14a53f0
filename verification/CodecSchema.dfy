/** What is decoded, and what is refused why: a table of the fields of every message, and the decoder against it. */
module CodecSchema {
  import opened Bytes
  import opened Results
  import opened Cbor
  import opened Codec

  type Problem = Option<CodecError>

  // ----- The table -----

  /** What may stand in a field. */
  datatype Kind =
    | Unsigned | Words | Truth | Octets(length: nat) | TextList | NumberList | Pair | RangeList
    | OneOf(names: seq<string>, expected: string)

  /** The first of two problems. */
  function Or(a: Problem, b: Problem): Problem {
    if a.Some? then a else b
  }

  /** The first problem with any of the items. */
  function FirstOf(items: seq<Value>, problem: Value -> Problem): Problem {
    if items == [] then None else Or(problem(items[0]), FirstOf(items[1..], problem))
  }

  function Unless(ok: bool, key: string, expected: string): Problem {
    if ok then None else Some(WrongType(key, expected))
  }

  predicate BothIntegers(v: Value) {
    v.Array? && |v.items| == 2 && v.items[0].Integer? && v.items[1].Integer?
  }

  /** One received range. */
  function RangeProblem(v: Value): Problem {
    Or(Unless(v.Array? && |v.items| == 2, "received_ranges", "array of [uint, uint]"),
       Unless(BothIntegers(v), "received_ranges", "[uint, uint]"))
  }

  /** What is wrong with a value in a field of that kind. */
  function Misfit(key: string, kind: Kind, v: Value): Problem {
    match kind
    case Unsigned => Unless(v.Integer? && v.i >= 0, key, "unsigned integer")
    case Words => Unless(v.Text?, key, "text string")
    case Truth => Unless(v.Bool?, key, "boolean")
    case Octets(length) =>
      Or(Unless(v.Bytes?, key, "byte string"), Unless(v.Bytes? && |v.bytes| == length, key, "bytes of correct length"))
    case TextList =>
      Or(Unless(v.Array?, key, "array"),
         Unless(v.Array? && forall i <- v.items :: i.Text?, key, "array of text strings"))
    case NumberList =>
      Or(Unless(v.Array?, key, "array"),
         Unless(v.Array? && forall i <- v.items :: i.Integer?, key, "array of unsigned integers"))
    case Pair => Unless(BothIntegers(v), key, "[uint, uint]")
    case RangeList => if v.Array? then FirstOf(v.items, RangeProblem) else Some(WrongType(key, "array"))
    case OneOf(names, expected) =>
      Or(Unless(v.Text?, key, "text string"), Unless(v.Text? && v.text in names, key, expected))
  }

  function Needs(m: Fields, key: string, kind: Kind): Problem {
    if key in m then Misfit(key, kind, m[key]) else Some(MissingField(key))
  }

  function Allows(m: Fields, key: string, kind: Kind): Problem {
    if key in m then Misfit(key, kind, m[key]) else None
  }

  function Entrywise(v: Value, name: string, problem: Fields -> Problem): Problem {
    if !v.Map? then Some(WrongType(name, "map"))
    else match ReadEntries(v.entries)
      case Err(e) => Some(e)
      case Ok(m) => problem(m)
  }

  /** A manifest entry; files need size and hash, and an entry without a type is a file. */
  function EntryProblem(m: Fields): Problem {
    Or(Needs(m, "file_id", Unsigned), Or(Needs(m, "relative_path", Words), Or(Allows(m, "type", Words), Or(
       Unless("type" !in m || m["type"] in [Text("dir"), Text("file")], "manifest[].type", "\"file\" or \"dir\""),
       if "type" in m && m["type"] == Text("dir")
       then Or(Allows(m, "size", Unsigned), Allows(m, "sha256", Octets(32)))
       else Or(Needs(m, "size", Unsigned), Needs(m, "sha256", Octets(32)))))))
  }

  function ManifestProblem(v: Value): Problem {
    if !v.Array? then Some(WrongType("manifest", "array"))
    else if |v.items| > 500 then Some(CodecError.ManifestTooLarge(|v.items|))
    else FirstOf(v.items, i => Entrywise(i, "manifest[]", EntryProblem))
  }

  function ResumeFileProblem(m: Fields): Problem {
    Or(Needs(m, "file_id", Unsigned), Or(Needs(m, "received_bytes", Unsigned),
       Or(Needs(m, "received_ranges", RangeList), Allows(m, "partial_sha256", Octets(32)))))
  }

  /** Files are looked at only in a resumable answer, and only in an array. */
  function FilesProblem(m: Fields): Problem {
    if "resumable" in m && m["resumable"] == Bool(true) && "files" in m && m["files"].Array?
    then FirstOf(m["files"].items, i => Entrywise(i, "files[]", ResumeFileProblem)) else None
  }

  function HelloProblem(m: Fields): Problem {
    Or(Needs(m, "protocol_version", Pair), Or(Needs(m, "device_id", Octets(32)), Or(Needs(m, "device_name", Words),
       Or(Needs(m, "platform", Words), Or(Allows(m, "capabilities", TextList), Needs(m, "is_paired", Truth))))))
  }

  /** The problem with the fields of a message of this type, in the order in which they are looked at. */
  function BodyProblem(code: U64, m: Fields): Problem {
    var id := Needs(m, "transfer_id", Octets(16));
    match code
    case 0x01 => HelloProblem(m)
    case 0x02 => Or(HelloProblem(m), Needs(m, "session_id", Unsigned))
    case 0x03 => Needs(m, "sas_method", Words)
    case 0x04 => None
    case 0x05 => Allows(m, "reason", Words)
    case 0x06 => Allows(m, "reason", Words)
    case 0x09 => Or(Needs(m, "code", Words), Or(Allows(m, "message", Words), Needs(m, "fatal", Truth)))
    case 0x10 =>
      Or(id, Or(Needs(m, "transfer_type", OneOf(["files", "directory"], "\"files\" or \"directory\"")),
         Or(Needs(m, "display_name", Words), Or(Needs(m, "total_files", Unsigned), Or(Needs(m, "total_size", Unsigned),
         if "manifest" in m then ManifestProblem(m["manifest"]) else Some(MissingField("manifest")))))))
    case 0x11 => id
    case 0x12 => Or(id, Allows(m, "reason", Words))
    case 0x13 =>
      Or(id, Or(Needs(m, "file_id", Unsigned), Or(Needs(m, "stream_id", Unsigned), Or(Needs(m, "relative_path", Words),
         Or(Needs(m, "size", Unsigned), Or(Needs(m, "sha256", Octets(32)), Or(Allows(m, "mime_type", Words),
         Allows(m, "modified_time", Unsigned))))))))
    case 0x14 =>
      Or(id, Or(Needs(m, "file_id", Unsigned), Or(Needs(m, "stream_id", Unsigned), Needs(m, "accepted", Truth))))
    case 0x15 =>
      Or(Needs(m, "stream_id", Unsigned), Or(Needs(m, "message_id", Unsigned),
         Or(Needs(m, "offset", Unsigned), Needs(m, "length", Unsigned))))
    case 0x16 => id
    case 0x17 => id
    case 0x18 => Or(id, Allows(m, "reason", Words))
    case 0x19 => id
    case 0x1A =>
      Or(id, Or(Needs(m, "status", OneOf(["success", "partial_failure"], "\"success\" or \"partial_failure\"")),
         Allows(m, "failed_files", NumberList)))
    case 0x20 => Or(id, Allows(m, "file_ids", NumberList))
    case 0x21 => Or(id, Or(Needs(m, "resumable", Truth), Or(Allows(m, "expiry", Unsigned), FilesProblem(m))))
    case _ => Some(CodecError.UnknownMessageType(code))
  }

  function FieldsProblem(m: Fields): Problem {
    Or(Needs(m, "type", Unsigned),
       if "type" in m && m["type"].Integer? && m["type"].i >= 0 then BodyProblem(m["type"].i % 0x1_0000_0000_0000_0000, m)
       else None)
  }

  function ProblemOf<T>(r: Result<T, CodecError>): Problem {
    match r
    case Ok(_) => None
    case Err(e) => Some(e)
  }

  // ----- The decoder follows it -----

  lemma {:induction false} ItemProblems<T>(
    items: seq<Value>, read: Value -> Result<T, CodecError>, problem: Value -> Problem)
    requires forall v <- items :: ProblemOf(read(v)) == problem(v)
    ensures ProblemOf(ReadAll(items, read)) == FirstOf(items, problem)
  {
    if items != [] {
      assert items[0] in items && forall v <- items[1..] :: v in items;
      ItemProblems(items[1..], read, problem);
    }
  }

  lemma {:induction false} SameProblem(items: seq<Value>, problem: Value -> Problem, e: CodecError)
    requires forall v <- items :: problem(v) in {None, Some(e)}
    ensures FirstOf(items, problem) == if forall v <- items :: problem(v) == None then None else Some(e)
  {
    if items != [] {
      assert items[0] in items && forall v <- items[1..] :: v in items;
      SameProblem(items[1..], problem, e);
    }
  }

  lemma TextsProblem(m: Fields, key: string)
    ensures ProblemOf(GetTexts(m, key)) == Allows(m, key, TextList)
  {
    if key in m && m[key].Array? {
      var items, e := m[key].items, WrongType(key, "array of text strings");
      ItemProblems(items, v => TextItem(key, v), v => ProblemOf(TextItem(key, v)));
      SameProblem(items, v => ProblemOf(TextItem(key, v)), e);
    }
  }

  lemma NumbersProblem(m: Fields, key: string)
    ensures ProblemOf(GetU32sOpt(m, key)) == Allows(m, key, NumberList)
  {
    if key in m && m[key].Array? {
      var items, e := m[key].items, WrongType(key, "array of unsigned integers");
      ItemProblems(items, v => U32Item(key, v), v => ProblemOf(U32Item(key, v)));
      SameProblem(items, v => ProblemOf(U32Item(key, v)), e);
    }
  }

  lemma EntryDecodesOrFails(m: Fields)
    ensures ProblemOf(DecodeEntry(m)) == EntryProblem(m)
  {
  }

  lemma ManifestReadsOrFails(v: Value)
    requires v.Array?
    ensures ProblemOf(ReadAll(v.items, ReadManifestEntry))
         == FirstOf(v.items, i => Entrywise(i, "manifest[]", EntryProblem))
  {
    forall i <- v.items ensures ProblemOf(ReadManifestEntry(i)) == Entrywise(i, "manifest[]", EntryProblem) {
      if i.Map? && ReadEntries(i.entries).Ok? {
        EntryDecodesOrFails(ReadEntries(i.entries).value);
      }
    }
    ItemProblems(v.items, ReadManifestEntry, i => Entrywise(i, "manifest[]", EntryProblem));
  }

  lemma ResumeFileDecodesOrFails(m: Fields)
    ensures ProblemOf(DecodeResumeFile(m)) == ResumeFileProblem(m)
  {
    if "received_ranges" in m && m["received_ranges"].Array? {
      ItemProblems(m["received_ranges"].items, RangeItem, RangeProblem);
    }
  }

  lemma FilesReadOrFail(items: seq<Value>)
    ensures ProblemOf(ReadAll(items, ReadResumeFile)) == FirstOf(items, i => Entrywise(i, "files[]", ResumeFileProblem))
  {
    forall i <- items ensures ProblemOf(ReadResumeFile(i)) == Entrywise(i, "files[]", ResumeFileProblem) {
      if i.Map? && ReadEntries(i.entries).Ok? {
        ResumeFileDecodesOrFails(ReadEntries(i.entries).value);
      }
    }
    ItemProblems(items, ReadResumeFile, i => Entrywise(i, "files[]", ResumeFileProblem));
  }

  lemma SessionDecodesOrFails(code: U64, m: Fields)
    requires code < 0x10
    ensures ProblemOf(DecodeSession(code, m)) == BodyProblem(code, m)
  {
    TextsProblem(m, "capabilities");
  }

  lemma RequestDecodesOrFails(m: Fields)
    ensures ProblemOf(DecodeTransferRequest(m)) == BodyProblem(0x10, m)
  {
    if "manifest" in m && m["manifest"].Array? {
      ManifestReadsOrFails(m["manifest"]);
    }
  }

  lemma ResumeStatusDecodesOrFails(m: Fields)
    ensures ProblemOf(DecodeResumeStatus(m)) == BodyProblem(0x21, m)
  {
    if "files" in m && m["files"].Array? {
      FilesReadOrFail(m["files"].items);
    }
  }

  lemma MetadataDecodesOrFails(m: Fields)
    ensures ProblemOf(DecodeFileMetadata(m)) == BodyProblem(0x13, m)
    ensures ProblemOf(DecodeFileMetadataAck(m)) == BodyProblem(0x14, m)
  {
  }

  lemma ChunkAckDecodesOrFails(m: Fields)
    ensures ProblemOf(DecodeChunkAck(m)) == BodyProblem(0x15, m)
  {
  }

  lemma TransferAckDecodesOrFails(m: Fields)
    ensures ProblemOf(DecodeTransferAck(m)) == BodyProblem(0x1A, m)
  {
    NumbersProblem(m, "failed_files");
  }

  lemma ResumeQueryDecodesOrFails(m: Fields)
    ensures ProblemOf(DecodeResumeQuery(m)) == BodyProblem(0x20, m)
  {
    NumbersProblem(m, "file_ids");
  }

  lemma TransferDecodesOrFails(code: U64, m: Fields)
    requires code >= 0x10 && !HasOnlyId(code)
    ensures ProblemOf(DecodeTransfer(code, m)) == BodyProblem(code, m)
  {
    RequestDecodesOrFails(m);
    MetadataDecodesOrFails(m);
    ChunkAckDecodesOrFails(m);
    TransferAckDecodesOrFails(m);
    ResumeQueryDecodesOrFails(m);
    ResumeStatusDecodesOrFails(m);
  }

  lemma WithIdDecodesOrFails(code: U64, m: Fields)
    requires HasOnlyId(code)
    ensures ProblemOf(DecodeWithId(code, m)) == BodyProblem(code, m)
  {
  }

  lemma FieldsDecodeOrFail(m: Fields)
    ensures ProblemOf(DecodeFields(m)) == FieldsProblem(m)
  {
    if GetUint(m, "type").Ok? {
      var code := GetUint(m, "type").value;
      if HasOnlyId(code) {
        WithIdDecodesOrFails(code, m);
      } else if code < 0x10 {
        SessionDecodesOrFails(code, m);
      } else {
        TransferDecodesOrFails(code, m);
      }
    }
  }

  /** Reading a map's entries fails exactly if a key is no text. */
  lemma {:induction false} TextKeysIff(es: seq<Entry>)
    ensures ProblemOf(ReadEntries(es)) == if forall e <- es :: e.key.Text? then None else Some(NonStringKey)
  {
    if es != [] {
      assert es[0] in es && forall e <- es[1..] :: e in es;
      TextKeysIff(es[1..]);
      assert forall e <- es :: e == es[0] || e in es[1..];
    }
  }

  /**
    * For every data item: decoding succeeds exactly if the item is untagged and nests within the limit, is a map with text
    * keys, and its fields are those that the table asks for; otherwise the error is the first problem in that order.
    */
  lemma DecodesOrFails(v: Value)
    ensures ProblemOf(Decode(v)) ==
      Or(ProblemOf(CheckNesting(v, 0)),
         if !v.Map? then Some(NotAMap)
         else if exists e <- v.entries :: !e.key.Text? then Some(NonStringKey)
         else match ReadEntries(v.entries)
           case Err(_) => None
           case Ok(m) => FieldsProblem(m))
  {
    if v.Map? {
      TextKeysIff(v.entries);
    }
    if v.Map? && ReadEntries(v.entries).Ok? {
      FieldsDecodeOrFail(ReadEntries(v.entries).value);
    }
  }
}
