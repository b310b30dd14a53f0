/** Keys that no decoder asks for make no difference, wherever they stand in the map. */
module CodecTolerance {
  import opened Bytes
  import opened Cbor
  import opened Codec

  /** A key that no session message has. */
  predicate NoSessionKey(k: string) {
    && k != "type" && k != "protocol_version" && k != "device_id" && k != "device_name" && k != "platform"
    && k != "capabilities" && k != "is_paired" && k != "session_id" && k != "sas_method" && k != "reason"
    && k != "code" && k != "message" && k != "fatal"
  }

  /** A key that no transfer message has. */
  predicate NoTransferKey(k: string) {
    && k != "type" && k != "reason" && k != "transfer_id" && k != "transfer_type" && k != "display_name"
    && k != "total_files" && k != "total_size" && k != "manifest" && k != "file_id" && k != "stream_id"
    && k != "relative_path" && k != "size" && k != "sha256" && k != "mime_type" && k != "modified_time"
    && k != "accepted" && k != "message_id" && k != "offset" && k != "length" && k != "status"
    && k != "failed_files" && k != "file_ids" && k != "resumable" && k != "expiry" && k != "files"
  }

  predicate Unknown(k: string) {
    NoSessionKey(k) && NoTransferKey(k)
  }

  predicate SameAt(m: Fields, m': Fields, key: string) {
    (key in m <==> key in m') && (key in m ==> m[key] == m'[key])
  }

  ghost predicate SameExcept(m: Fields, m': Fields, k: string) {
    forall key :: key != k ==> SameAt(m, m', key)
  }

  lemma HelloIgnores(m: Fields, m': Fields, k: string)
    requires SameExcept(m, m', k) && NoSessionKey(k)
    ensures DecodeHello(m) == DecodeHello(m') && DecodeHelloAck(m) == DecodeHelloAck(m')
  {
    assert SameAt(m, m', "protocol_version") && SameAt(m, m', "device_id") && SameAt(m, m', "device_name");
    assert SameAt(m, m', "platform") && SameAt(m, m', "capabilities") && SameAt(m, m', "is_paired");
    assert SameAt(m, m', "session_id");
  }

  lemma SessionIgnores(m: Fields, m': Fields, k: string, code: U64)
    requires SameExcept(m, m', k) && NoSessionKey(k)
    ensures DecodeSession(code, m) == DecodeSession(code, m')
  {
    HelloIgnores(m, m', k);
    assert SameAt(m, m', "sas_method") && SameAt(m, m', "reason");
    assert SameAt(m, m', "code") && SameAt(m, m', "message") && SameAt(m, m', "fatal");
  }

  lemma RequestIgnores(m: Fields, m': Fields, k: string)
    requires SameExcept(m, m', k) && NoTransferKey(k)
    ensures DecodeTransferRequest(m) == DecodeTransferRequest(m')
  {
    assert SameAt(m, m', "transfer_id") && SameAt(m, m', "transfer_type") && SameAt(m, m', "display_name");
    assert SameAt(m, m', "total_files") && SameAt(m, m', "total_size") && SameAt(m, m', "manifest");
  }

  lemma MetadataIgnores(m: Fields, m': Fields, k: string)
    requires SameExcept(m, m', k) && NoTransferKey(k)
    ensures DecodeFileMetadata(m) == DecodeFileMetadata(m') && DecodeFileMetadataAck(m) == DecodeFileMetadataAck(m')
  {
    assert SameAt(m, m', "transfer_id") && SameAt(m, m', "file_id") && SameAt(m, m', "stream_id");
    assert SameAt(m, m', "relative_path") && SameAt(m, m', "size") && SameAt(m, m', "sha256");
    assert SameAt(m, m', "mime_type") && SameAt(m, m', "modified_time") && SameAt(m, m', "accepted");
  }

  lemma AcksIgnore(m: Fields, m': Fields, k: string)
    requires SameExcept(m, m', k) && NoTransferKey(k)
    ensures DecodeChunkAck(m) == DecodeChunkAck(m') && DecodeTransferAck(m) == DecodeTransferAck(m')
  {
    assert SameAt(m, m', "stream_id") && SameAt(m, m', "message_id");
    assert SameAt(m, m', "offset") && SameAt(m, m', "length");
    assert SameAt(m, m', "transfer_id") && SameAt(m, m', "status") && SameAt(m, m', "failed_files");
  }

  lemma ResumeIgnores(m: Fields, m': Fields, k: string)
    requires SameExcept(m, m', k) && NoTransferKey(k)
    ensures DecodeResumeQuery(m) == DecodeResumeQuery(m') && DecodeResumeStatus(m) == DecodeResumeStatus(m')
  {
    assert SameAt(m, m', "transfer_id") && SameAt(m, m', "file_ids") && SameAt(m, m', "resumable");
    assert SameAt(m, m', "expiry") && SameAt(m, m', "files");
  }

  lemma OnlyIdIgnores(m: Fields, m': Fields, k: string, code: U64)
    requires SameExcept(m, m', k) && NoTransferKey(k)
    ensures DecodeWithId(code, m) == DecodeWithId(code, m')
  {
    assert SameAt(m, m', "transfer_id") && SameAt(m, m', "reason");
  }

  lemma TransferIgnores(m: Fields, m': Fields, k: string, code: U64)
    requires SameExcept(m, m', k) && NoTransferKey(k)
    ensures DecodeTransfer(code, m) == DecodeTransfer(code, m')
  {
    if code == 0x10 {
      RequestIgnores(m, m', k);
    } else if code == 0x13 || code == 0x14 {
      MetadataIgnores(m, m', k);
    } else if code < 0x20 {
      AcksIgnore(m, m', k);
    } else {
      ResumeIgnores(m, m', k);
    }
  }

  lemma FieldsIgnore(m: Fields, m': Fields, k: string)
    requires SameExcept(m, m', k) && Unknown(k)
    ensures DecodeFields(m) == DecodeFields(m')
  {
    assert SameAt(m, m', "type");
    if GetUint(m, "type").Ok? {
      var code := GetUint(m, "type").value;
      SessionIgnores(m, m', k, code);
      TransferIgnores(m, m', k, code);
      OnlyIdIgnores(m, m', k, code);
    }
  }

  // ----- An entry put anywhere into the map -----

  function With(es: seq<Entry>, i: nat, e: Entry): seq<Entry>
    requires i <= |es|
  {
    es[..i] + [e] + es[i..]
  }

  lemma WithTail(es: seq<Entry>, i: nat, e: Entry)
    requires 0 < i <= |es|
    ensures With(es, i, e) != [] && With(es, i, e)[0] == es[0] && With(es, i, e)[1..] == With(es[1..], i - 1, e)
  {
    assert es[1..][..i - 1] == es[..i][1..] && es[1..][i - 1..] == es[i..];
  }

  lemma SameWithMore(m: Fields, m': Fields, k: string, first: Fields)
    requires SameExcept(m, m', k)
    ensures SameExcept(first + m, first + m', k)
  {
    forall key | key != k ensures SameAt(first + m, first + m', key) {
      assert SameAt(m, m', key);
    }
  }

  lemma {:induction false} ReadingWith(es: seq<Entry>, i: nat, k: string, v: Value)
    requires i <= |es|
    ensures ReadEntries(es).Err? ==> ReadEntries(With(es, i, Entry(Text(k), v))) == ReadEntries(es)
    ensures ReadEntries(es).Ok? ==>
              && ReadEntries(With(es, i, Entry(Text(k), v))).Ok?
              && SameExcept(ReadEntries(es).value, ReadEntries(With(es, i, Entry(Text(k), v))).value, k)
  {
    if i == 0 {
      assert With(es, 0, Entry(Text(k), v)) == [Entry(Text(k), v)] + es;
    } else {
      WithTail(es, i, Entry(Text(k), v));
      ReadingWith(es[1..], i - 1, k, v);
      if ReadEntries(es).Ok? {
        SameWithMore(ReadEntries(es[1..]).value, ReadEntries(With(es[1..], i - 1, Entry(Text(k), v))).value, k,
                     map[es[0].key.text := es[0].value]);
      }
    }
  }

  lemma {:induction false} CheckingWith(es: seq<Entry>, i: nat, e: Entry, depth: nat)
    requires i <= |es| && CheckNesting(e.key, depth).Ok? && CheckNesting(e.value, depth).Ok?
    ensures CheckEntries(With(es, i, e), depth) == CheckEntries(es, depth)
  {
    if i == 0 {
      assert With(es, 0, e) == [e] + es;
    } else {
      WithTail(es, i, e);
      CheckingWith(es[1..], i - 1, e, depth);
    }
  }

  predicate Scalar(v: Value) {
    v.Integer? || v.Text? || v.Bytes? || v.Bool? || v.Simple?
  }

  /** An unknown key with a scalar value changes neither the decoded message nor the error. */
  lemma UnknownKeysAreIgnored(es: seq<Entry>, i: nat, k: string, v: Value)
    requires i <= |es| && Unknown(k) && Scalar(v)
    ensures Decode(Map(With(es, i, Entry(Text(k), v)))) == Decode(Map(es))
  {
    CheckingWith(es, i, Entry(Text(k), v), 1);
    ReadingWith(es, i, k, v);
    if ReadEntries(es).Ok? {
      FieldsIgnore(ReadEntries(es).value, ReadEntries(With(es, i, Entry(Text(k), v))).value, k);
    }
  }
}
