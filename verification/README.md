# NXFR: a verified model of the file-transfer protocol

NXFR moves files between devices on a local network. This project models the parts of it whose correctness is not
visible in any single function, and proves what they promise:

- **Windowed chunk transfer with resume** (`Sender`, `SenderFrames`, `Storage`, `Receiver`, `ReceiverIntegrity`,
  `ReceiverEnd`, `Transfer`, `TransferSafety`, `TransferLag`, `TransferProgress`, `SessionOutcome`, `SessionEndings`,
  `TransferFate`). The sending and receiving loops are methods over their variables, proved against functional
  specifications. What a sender's frames carry and what a receiver leaves behind, whatever frames it gets, are then stated
  from the file and the frames alone. The two parties, their FIFO links and a disk that may crash between any two
  operations form one step system, over which safety, the exact lag of the journal, termination, the way every session
  ends and what a transfer can still become are proved for every run.
- **Streaming byte machinery of the web server** (`Multipart`, `ChunkedCoding`, `Zip`, `ZipStream`). Incremental code
  is shown equal to whole-input specifications: the multipart scanner for any split into reads, and the ZIP download
  through an independent decoder of chunked coding (section 7.1 of RFC 9112) and an independent archive reader
  (sections 4.3.7, 4.3.9, 4.3.12, 4.3.16 and 4.4.4 of PKWARE's APPNOTE) that reads the flags before it decides where
  checksum and sizes are found.
- **Wire formats** (`Bytes`, `Framing`, `Chunks`, `Cbor`, `Messages`, `Codec`, `CodecRoundTrip`, `CodecTolerance`,
  `CodecSchema`, `CodecValues`, `Payloads`). Frame decoding does not depend on fragmentation; the twenty control messages
  round-trip exactly when they are canonical; which data items decode, with which error otherwise, and what is kept of
  their fields is decided by a table of fields per message.
- **Consent** (`Consent`, `ConsentHistory`): requests, confirm calls and the expiry sweeper as freely interleaved atomic
  steps, and what each outcome owes to the events.
- **Small stateful indexes against their logs** (`RateLimit`, `ApprovalGate`, `History`).
- **State machines and names** (`TransferMachine`, `SessionMachine`, `Paths`, `UploadNames`).

`dafny verify dfyconfig.toml` checks everything. Modules import one another by name; there is one module per file.

## What the code turns out to do

These are places where a plausible promise is false of the code. Each has a proof of the failing case and of the exact
condition under which the promise holds.

- *The journal is at most one chunk behind the `.part`* in all runs with at most n crashes exactly if n is zero or the
  file is at most two chunks long (`TransferLag.OneChunkBehindIff`). Chunks that are sent again after a resume are
  acknowledged but not journalled again, so the lag can grow by one chunk per crash, as far as the file goes.
  `TransferLag.LagBoundIsReached` gives the largest lag for every file and every number of crashes, and reaches it.
- *A session completes* exactly if the file is not empty and not committed yet, the bytes held end between chunks, and a
  complete `.part` is journalled as complete (`SessionOutcome.SessionCompletesIff`, from every state between sessions that
  any run reaches). Otherwise it ends in one of three ways, decided by the disk it starts from
  (`SessionOutcome.SessionEndsAs`): the receiver refuses a chunk (a torn `.part`, or a journal that outlived the commit and
  is behind), the receiver waits for chunks that never come (an empty file, or a complete journal that outlived the
  commit), or the sender waits for acknowledgements that never come (a complete `.part` ahead of its journal). For which
  files crashes can bring each of these about is exact too: `SessionEndings.TornIff`, `SenderWaitsIff`, `CommittedIff` and
  `CommittedBehindIff`.
- *A transfer that failed can be tried again*: over any number of further sessions and crashes both sides come to a good
  end exactly if the very next session can (`TransferFate.DoneReachableIff`), and the file is committed exactly if it is
  not empty and its `.part` is not torn (`TransferFate.CommitReachableIff`). A torn `.part` is for ever
  (`TransferFate.TornIsForever`).
- *The multipart result does not depend on how the body is split* exactly if the body does not open with the bare
  delimiter or has no CR LF delimiter after it (`Multipart.SplitMattersIff`).
- *A confirm call that reports success decided the offer* exactly if it sent before the request timed out
  (`Consent.ConfirmDecidesInTime`, `Consent.SuccessIsNotAcceptance`).
- *An offer's channel is not broken by the clean-up of others*: a step breaks it exactly if the entry under its key is its
  own and still holds the sender, and the step discards the entry of that key (`Consent.ChannelBreaksIff`). In all runs
  with at most m requests under a transfer id none of them loses its channel exactly if m is at most one
  (`Consent.NeverLostIff`).
- *Sanitising a sanitised path changes nothing* exactly if the first kept component is no drive letter
  (`Paths.SanitizeAgain`).
- *Five failures in a row block an address* exactly if its connections do not overlap. With up to c of them open at once
  the longest streak is c + 4, and every c reaches it (`RateLimit.LongestStreak`, `RateLimit.LimitHoldsIff`).
- *A final state has no timer running*: for transfers exactly if it was not entered by a cancellation, a fatal error or a
  lost connection (`TransferMachine.RunsAreDisciplined`); for sessions exactly if it was not entered abruptly from a state
  that owns a timer (`SessionMachine.RunsAreDisciplined`).
- *Four levels of nesting are enough*, as the comment at `crates/nxfr-core/src/codec.rs:320` says while the code uses 6:
  exactly for the messages that are no resume answer naming a received range (`CodecRoundTrip.FourLevelsSufficeIff`).

## Modelling decisions

- SHA-256 and CRC-32 are function parameters; nothing relies on collision-freedom. CBOR serialisation is a pair of
  function parameters assumed inverse. Which characters are alphanumeric is a parameter that excludes `/`.
- Creating, removing and renaming a file is atomic and durable; written data survives a crash as any prefix unless it was
  synced; an unsynced file may survive as garbage. A journal file is either torn or a whole record.
- Clocks, random tokens and the results of reads are inputs. Generated tokens are assumed fresh.
- Offsets, sizes and counters are natural numbers where the code's 64-bit arithmetic cannot wrap for a file that fits 64
  bits; where it truncates (ZIP fields, `as u32`, `as u64`) the model truncates.
- `Sender.ReadAcks` stands for the three identical acknowledgement-reading loops. Control messages are reduced there to
  the ones the loops tell apart.
- One session of a transfer at a time: a receiver is gone before the next session for its transfer id connects. The code
  takes no lock per transfer id, so two sessions that overlap and append to one `.part` are not covered.
- A consent step is what a task does between two lock acquisitions or awaits; the sweeper is split into one step per key,
  which allows more interleavings than its single lock does.

## Model

| member | source | states |
|---|---|---|
| Sender.ReadAcks | crates/nxfr-daemon/src/sender.rs:51-72 | reading acknowledgements until the window has room is the same run of the sender, with the count of unacknowledged chunks at the limit or the link failed |
| Sender.SendFile | crates/nxfr-daemon/src/sender.rs:29-133 | the loop with its window and final drain computes exactly the functional run: same frames, same acknowledged bytes, same outcome, against any frames of the peer |
| Sender.SendFileResume | crates/nxfr-daemon/src/sender.rs:135-246 | the same for the loop that skips received ranges, including its counts of sent and skipped chunks |
| Sender.RunStaysOnPlan | crates/nxfr-daemon/src/sender.rs:153-217 | against any peer, the frames sent are exactly the uncovered chunks in file order and numbered in sequence, at most eight unacknowledged; success means every chunk was sent or skipped and none is unacknowledged |
| SenderFrames.SentIsWhatIsLacking | crates/nxfr-daemon/src/sender.rs:153-217 | against any peer the frames sent so far, parsed as the peer parses them, carry the MiBs of the file that no one skipped range holds among those handled, in file order and numbered in sequence, each at its offset with its own hash; success means that all were handled; the last-chunk flag is on the last frame alone once the end of the file was sent, and on none otherwise |
| SenderFrames.FrameCarries | crates/nxfr-daemon/src/sender.rs:74-88 | the frame built for a chunk parses as that stretch of the file with its offset and hash, and is flagged exactly if the file ends there |
| Sender.CountsAreExact | crates/nxfr-daemon/src/sender.rs:51-72 | against any peer, the count of unacknowledged chunks and the acknowledged bytes are exactly those that the acknowledgements among the frames read account for; the loop ends only with nothing unacknowledged, with the link, or at a frame that does not decode |
| Payloads.SentFramesAreAccepted | crates/nxfr-core/src/frame.rs:133-163 | every chunk frame that a sender ever puts out has a payload length that the peer's check accepts, and parses as a chunk |
| Chunks.ChunkRoundTrip | crates/nxfr-core/src/chunk.rs:16-43 | a chunk payload survives serialising and parsing if and only if it carries data |
| Chunks.ChunkIsCanonical | crates/nxfr-core/src/chunk.rs:16-43 | whatever parses as a chunk payload is the serialisation of the result |
| Storage.Device.Save | crates/nxfr-storage/src/resume.rs:63-78 | saving performs create, write, sync and rename of a temporary file, in that order |
| Storage.SaveIsAtomic | crates/nxfr-storage/src/resume.rs:63-89 | a crash after any number of these operations leaves a journal that loads as its old or its new value |
| Receiver.FileReceiver.ReceiveFile | crates/nxfr-daemon/src/receiver.rs:19-248 | the whole of receiving a file, with resume, performs exactly the disk operations, sends exactly the replies and returns the outcome of the functional specification |
| Receiver.FileReceiver.RunLoop | crates/nxfr-daemon/src/receiver.rs:70-221 | the receive loop refines the functional loop over the frames read |
| Receiver.FileReceiver.OnChunk | crates/nxfr-daemon/src/receiver.rs:88-194 | a chunk is appended at the current offset, acknowledged again if it is a replay, and refused on a bad hash, a gap, an overlap or excess data |
| Receiver.FileReceiver.Accept | crates/nxfr-daemon/src/receiver.rs:131-144 | an accepted chunk is written and synced before the journal is saved |
| Receiver.FileReceiver.End | crates/nxfr-daemon/src/receiver.rs:223-248 | the file is renamed only when size and hash equal the announced ones, and discarded otherwise |
| ReceiverIntegrity.AnyFramesLeaveTheDiskSound | crates/nxfr-daemon/src/receiver.rs:31-248 | from every start, fresh, resumed or with the file complete, and for any frames whatever: after every disk operation the `.part` is a prefix of what it held and the hash-valid chunks accepted at the current offset, never longer than announced unless it was so before, and a file is committed exactly when the outcome says so, once, with the announced size and hash |
| ReceiverIntegrity.EveryPrefixIsExact | crates/nxfr-daemon/src/receiver.rs:112-144 | after every prefix of any frames that leaves the loop reading, the running hash is over exactly the bytes of the `.part`, these are the bytes held at the start and the accepted ones, and the journal, once anything was accepted, names exactly their number |
| ReceiverIntegrity.FrameLagsByItsData | crates/nxfr-daemon/src/receiver.rs:131-144 | while a frame is handled every disk has the old or the new `.part` and the old or the new journal, and the new journal only with the new `.part`; under the old journal the lag is at most what it was before and the frame's own data, and once the frame is journalled there is none |
| ReceiverIntegrity.ReactionTakes | crates/nxfr-daemon/src/receiver.rs:79-221 | what a frame does to the loop, the disk and the replies is what an independent verdict on the frame says: take and acknowledge, acknowledge a replay, stop and keep the `.part`, or discard it |
| ReceiverEnd.EndIsExact | crates/nxfr-daemon/src/receiver.rs:19-248 | for every start and all frames, read off the frames alone: a `.part` complete on opening is committed; otherwise the `.part` is gone without a commit exactly if the frame that ended the loop was a cancellation, a chunk of our stream with a bad hash or one past the announced size, or if the final checks failed, and else it is exactly what was held and accepted; the journal names that number once anything was accepted; and the replies, up to the one to the ending frame, are exact |
| Transfer.ReactToHonestChunk | crates/nxfr-daemon/src/receiver.rs:88-194 | the frame an honest sender builds for a chunk is appended, acknowledged as a replay or refused as an overlap, according to where it lies |
| Transfer.PlanAfterSkip | crates/nxfr-daemon/src/handler.rs:1250-1264 | with the ranges reported by the journal the sender sends exactly the chunks after the journalled ones |
| TransferSafety.StepKeepsSafe | crates/nxfr-daemon/src/handler.rs:358-420 | every step of sender, receiver, disk, crash or reconnection keeps the safety invariant |
| TransferSafety.RunsAreSafe | crates/nxfr-daemon/src/handler.rs:663-931 | the invariant holds after every run, with any interleaving, any crashes and any number of resumed sessions |
| TransferSafety.OnlyTheOriginalIsCommitted | crates/nxfr-daemon/src/receiver.rs:131-144 | in every reachable state nothing but the original file is committed, and that once; until then the journal loads, the `.part` is a prefix of the file at least as long as journalled and at most crashes + 1 chunks longer; once the receiver returned with success no `.part` is left, and once the transfer is done no journal |
| TransferLag.LagBoundIsReached | crates/nxfr-daemon/src/receiver.rs:112-188 | the largest lag of the journal behind the `.part` over all runs with at most n crashes, for every file and every n: no run exceeds it and one reaches it |
| TransferLag.OneChunkBehindIff | crates/nxfr-daemon/src/receiver.rs:131-144 | the journal stays at most one chunk behind in all runs with at most n crashes if and only if n is zero or the file is at most two chunks long |
| TransferProgress.InternalEventsDecreaseMeasure | crates/nxfr-daemon/src/sender.rs:49-124 | every internal step decreases a measure built from unsent chunks, queued chunks, queued acknowledgements and pending disk operations |
| TransferProgress.SessionsEnd | crates/nxfr-daemon/src/sender.rs:103-124 | whatever the disk it starts from, a session has at most 20 steps per chunk and 11 more, so none runs forever |
| TransferProgress.EverySessionRunExtends | crates/nxfr-daemon/src/sender.rs:49-124 | every run of a session extends to one in which nothing can move any more |
| TransferProgress.WindowAndConservation | crates/nxfr-daemon/src/sender.rs:49-124 | the session invariant implies the window of eight, the agreement of the count with the queues, and the conservation of bytes |
| SessionOutcome.SessionInvariant | crates/nxfr-daemon/src/sender.rs:49-124 | in every reachable state of a session that starts between chunks, fresh or resumed, the `.part` is a prefix of the file, the window holds, the count of unacknowledged chunks is the number of queued chunks and acknowledgements, and acknowledged, travelling and unsent bytes add up to the file size |
| SessionOutcome.SessionEndsAs | crates/nxfr-daemon/src/receiver.rs:31-68 | from every safe state between sessions, before or after the commit, an uninterrupted session that has come to rest has ended in the one of four ways that the disk at its start decides: success on both sides, a refused chunk, a receiver that waits forever, or a sender that waits forever |
| SessionOutcome.SessionCompletesIff | crates/nxfr-daemon/src/receiver.rs:31-68 | from every state between sessions that any run reaches, a session that has come to rest has the original committed, every byte acknowledged and nothing in flight if and only if the file is not empty and not committed before, the bytes held end between chunks and a complete `.part` is journalled as such |
| SessionEndings.TornIff | crates/nxfr-daemon/src/receiver.rs:131-144 | a crash can leave a `.part` that ends inside a chunk, so that the next session is refused, if and only if the file is more than one byte longer than a chunk |
| SessionEndings.SenderWaitsIff | crates/nxfr-daemon/src/receiver.rs:43-55 | crashes can leave a complete `.part` ahead of its journal, so that the next sender waits forever, if and only if the file is longer than a chunk |
| SessionEndings.CommittedIff | crates/nxfr-daemon/src/handler.rs:883-897 | a crash between the commit and the deletion of the journal can make the next receiver wait forever if and only if the file is not empty |
| SessionEndings.CommittedBehindIff | crates/nxfr-daemon/src/handler.rs:883-897 | such a crash can make the next session end in a refused chunk if and only if the file is longer than a chunk |
| TransferFate.TornIsForever | crates/nxfr-daemon/src/receiver.rs:145-165 | from every state between sessions with a torn `.part`, no run with any sessions and crashes changes the `.part`, commits anything or completes the transfer |
| TransferFate.CommitReachableIff | crates/nxfr-daemon/src/receiver.rs:31-68 | from every state between sessions that a run reaches, some further run commits the file if and only if it is not empty and its `.part` is not torn |
| TransferFate.DoneReachableIff | crates/nxfr-daemon/src/receiver.rs:31-68 | from every state between sessions that a run reaches, some further run brings both sides to a good end if and only if the next session can complete |
| SessionOutcome.FreshTransferCompletes | crates/nxfr-daemon/src/sender.rs:29-133 | every run of a fresh transfer left alone can be run to its end, and however it is, it ends complete on both sides if and only if the file is not empty |
| Multipart.ScanUpload | crates/nxfr-web/src/lib.rs:2666-2765 | the scanning loop computes the functional scanner over the reads; the bytes on disk are the bytes hashed and never exceed the limit |
| Multipart.RunAgrees | crates/nxfr-web/src/lib.rs:2676-2764 | at any point of the scan, what is written so far and what remains give the result of the whole body: no delimiter straddling two reads is missed |
| Multipart.ScanIsWholeBody | crates/nxfr-web/src/lib.rs:2666-2765 | for all reads whatever, of which those before the first empty one make up the body: if it does not open with the bare delimiter, exactly the bytes before the first CR LF delimiter are kept, the limit applies to them, and without a delimiter the upload fails |
| Multipart.SplitMattersIff | crates/nxfr-web/src/lib.rs:2706-2708 | for every body and limit, the result is the same for every split if and only if the body does not open with the bare delimiter or has no CR LF delimiter after it |
| ChunkedCoding.ChunkedWriter.Emit | crates/nxfr-web/src/lib.rs:128-145 | the stream grows by the piece framed with its size in hexadecimal, and by nothing for an empty piece, which would end the body |
| ChunkedCoding.ChunkedWriter.WriteChunk | crates/nxfr-web/src/lib.rs:128-145 | the stream stays the coding of everything written, in order |
| ChunkedCoding.ChunkedWriter.Finish | crates/nxfr-web/src/lib.rs:146-154 | the finished stream decodes to exactly what was written, with nothing after it |
| ChunkedCoding.HexRoundTrip | crates/nxfr-web/src/lib.rs:135-135 | reading a size printed in hexadecimal gives it back |
| ChunkedCoding.UnchunkAll | crates/nxfr-web/src/lib.rs:128-154 | whatever pieces are written, the decoder returns their concatenation and stops exactly at the end of the body |
| ChunkedCoding.UnchunkTruncated | crates/nxfr-web/src/lib.rs:128-154 | a stream cut off anywhere before its end, inside a chunk or between two, is never taken for a complete body |
| Zip.EntryReads | crates/nxfr-web/src/lib.rs:203-247 | a central directory record reads back as its name, size, checksum and offset when they fit their fields, with bit 3 of its flags set and a version, coding, date and disk number that a reader of version 2.0 accepts |
| Zip.LocalReads | crates/nxfr-web/src/lib.rs:159-201 | a local header, data and data descriptor read back as the file: the flags agree with the directory, and since bit 3 is set the header has no checksum and sizes and the descriptor has the right ones |
| Zip.EndReads | crates/nxfr-web/src/lib.rs:250-269 | the end record reads back as entry count, directory size and directory offset, on a single disk |
| Zip.ArchiveRoundTrip | crates/nxfr-web/src/lib.rs:159-269 | within the 16-bit and 32-bit limits, a reader that goes from the end record through the directory to each local header, and takes checksum and sizes from where the flags say, recovers every name and content in order |
| Zip.LimitsAreReal | crates/nxfr-web/src/lib.rs:159-269 | the field widths are real limits: nothing reads back as 65536 files or more, with a name of 65536 bytes or more, or with 4 GiB of data or more |
| ZipStream.StreamContent | crates/nxfr-web/src/lib.rs:2186-2201 | a file's reads are passed on as they come, up to the first empty one, with size and checksum input equal to the content |
| ZipStream.StreamFile | crates/nxfr-web/src/lib.rs:2176-2213 | one file is streamed with header and descriptor, and the tracked offset is the length of the stream |
| ZipStream.StreamDirectory | crates/nxfr-web/src/lib.rs:2216-2228 | the directory written from the collected entries is the directory of the archive, at the tracked offset |
| ZipStream.StreamZip | crates/nxfr-web/src/lib.rs:2155-2239 | for any manifest and any split of file reads the stream decodes to the archive of the files present; a failing read never leaves a complete body |
| ZipStream.Download | crates/nxfr-web/src/lib.rs:2155-2239 | within the limits of the format, decoding the stream and reading the archive returns exactly the files present, in order |
| Framing.HeaderRoundTrip | crates/nxfr-core/src/frame.rs:71-163 | a header survives serialising and parsing if and only if its payload length is legal for its kind (at most 65536, 41 to 4194304, none or 8), and fails with the error for that length otherwise |
| Framing.HeaderIsCanonical | crates/nxfr-core/src/frame.rs:71-131 | 28 bytes that parse are the serialisation of the result |
| Framing.ParseIsExact | crates/nxfr-core/src/frame.rs:71-131 | what parses is exactly a serialised header with a legal length, whatever follows; anything else is refused with the error of the first fault among length, magic, version, kind and payload length |
| Framing.NxfrCodec.Decode | crates/nxfr-transport/src/framing.rs:22-48 | one frame is taken from the front of the buffer if it is complete; otherwise nothing is consumed |
| Framing.DecodeIsExact | crates/nxfr-transport/src/framing.rs:22-48 | the decoder takes off a frame exactly if the buffer starts with the encoding of that valid frame, and reports an error exactly if the header does not parse |
| Framing.NxfrCodec.Encode | crates/nxfr-transport/src/framing.rs:51-61 | encoding appends header and payload to the buffer |
| Framing.NxfrCodec.Feed | crates/nxfr-transport/src/framing.rs:22-48 | feeding a read and decoding until no frame is complete yields the frames of the buffered bytes |
| Framing.LaterBytesDoNotMatter | crates/nxfr-transport/src/framing.rs:22-48 | what decodes from a buffer decodes the same when more bytes follow |
| Framing.SplitDoesNotMatter | crates/nxfr-transport/src/framing.rs:22-48 | any split of a byte stream into reads yields the same frames and the same error, and the same remainder up to the reads that an error keeps from happening |
| Framing.FramesSurviveAnySplit | crates/nxfr-transport/src/framing.rs:22-61 | any valid frames, encoded and split anyhow, decode to exactly those frames in order with nothing left over |
| Cbor.Insert | crates/nxfr-core/src/codec.rs:20-37 | inserting into an ordered map keeps its keys strictly increasing and sets exactly that key |
| Cbor.OrderIsCanonical | crates/nxfr-core/src/codec.rs:719-722 | ordered maps with equal contents are the same list: the order of insertion leaves no trace |
| Cbor.MapReadsBack | crates/nxfr-core/src/codec.rs:22-37 | a map written in key order reads back as the same map |
| Cbor.CollectEntries | crates/nxfr-core/src/codec.rs:22-37 | the loop that collects entries refuses non-text keys and lets the last of repeated keys win |
| Cbor.NestingCheckIsExact | crates/nxfr-core/src/codec.rs:288-311 | the nesting check passes exactly the items that carry no tag and nest within the limit |
| Messages.PlatformRoundTrip | crates/nxfr-common/src/types.rs:85-106 | a platform survives its wire name if and only if it does not spell out a known one |
| Messages.CodeRoundTrip | crates/nxfr-core/src/error_code.rs:45-90 | an error code survives its wire name if and only if it does not spell out a known one |
| Codec.CollectAll | crates/nxfr-core/src/codec.rs:167-218 | the loop over array items reads them in order and stops at the first failure |
| CodecRoundTrip.EntryReadsBack | crates/nxfr-core/src/codec.rs:459-517 | a manifest entry decodes to itself if a file names size and hash, and fails otherwise |
| CodecRoundTrip.ResumeFileReadsBack | crates/nxfr-core/src/codec.rs:599-682 | a resume record with its ranges decodes to itself |
| CodecRoundTrip.RoundTrip | crates/nxfr-core/src/codec.rs:322-387 | only an oversized manifest is not encoded; an encoded message decodes to itself if and only if it is canonical, for all twenty messages |
| CodecRoundTrip.DecodedIsCanonical | crates/nxfr-core/src/codec.rs:389-698 | every decoded message is canonical |
| CodecRoundTrip.DecodeEncodeDecode | crates/nxfr-core/src/codec.rs:322-387 | decoding, encoding and decoding again gives the first result |
| CodecRoundTrip.EncodedIsRegular | crates/nxfr-core/src/codec.rs:724-1066 | encoded messages have strictly increasing text keys in every map, no tags, at most five levels, and pass the nesting check |
| CodecRoundTrip.FourLevelsSufficeIff | crates/nxfr-core/src/codec.rs:314-321 | an encoded message nests within four levels if and only if it is no resume answer that names a received range |
| CodecTolerance.UnknownKeysAreIgnored | crates/nxfr-core/src/codec.rs:314-347 | an unknown key with a scalar value, anywhere in the map, changes neither the decoded message nor the error |
| CodecSchema.DecodesOrFails | crates/nxfr-core/src/codec.rs:322-698 | for every data item: decoding succeeds exactly if it is untagged and nests within the limit, is a map with text keys, and has the fields that a table of the twenty messages asks for; otherwise the error is the first fault in that order, missing field or wrong type, with its field and expected type |
| CodecValues.DecodedIsFaithful | crates/nxfr-core/src/codec.rs:389-698 | whatever is decoded has the type it came with and says what its fields say: every field of the message is kept under its key, cut to 32 or 64 bits where it is an integer, present exactly if it was, and the entries of manifests and resume answers likewise, in order |
| CodecValues.NoOtherFields | crates/nxfr-core/src/codec.rs:724-1066 | a message is written with the fields of its type and no others |
| Payloads.ControlRoundTrip | crates/nxfr-core/src/codec.rs:705-717 | a message that is encoded at all fits a control frame, and arrives as itself if and only if it is canonical |
| Consent.StepKeepsSound | crates/nxfr-daemon/src/handler.rs:239-339 | every step of a request, a confirm call or the sweeper keeps the ownership invariant: a sender is in the table, with one call, used or dropped, never two of these |
| ConsentHistory.FirstConfirmWins | crates/nxfr-daemon/src/handler.rs:187-339 | in every state of every interleaving, request n is the n-th that came in: accepted unasked exactly if its peer is auto-accepted, refused with disk_full exactly if it is not and space is short, with consent_required exactly if it is not, there is space and nobody watches; otherwise it is accepted only if a confirm call for its key said yes and used the sender of that very request, declined only by such a call that said no or after 120 s, timed out only after 120 s, and lost only if its key came in again; no two confirm calls take the same sender and none is used twice |
| ConsentHistory.TakesTheOpenOne | crates/nxfr-daemon/src/ipc.rs:466-473 | in every reachable state a confirm call takes the sender of a request exactly if that request is under its key and not yet taken, swept, dropped or answered unasked |
| Consent.ConfirmDecidesInTime | crates/nxfr-daemon/src/ipc.rs:476-490 | once a confirm call sends, the outcome is its answer if the request still waited, and the time-out otherwise, in every continuation |
| Consent.SuccessIsNotAcceptance | crates/nxfr-daemon/src/ipc.rs:476-490 | there is a run in which a confirm call reports success for an offer that timed out |
| Consent.ChannelBreaksIff | crates/nxfr-daemon/src/handler.rs:239-270 | in every sound state a step drops a request's sender if and only if the entry under its key is its own and still holds the sender, and the step is an asked request under that key, the clean-up of a request with it, or the tail of a confirm call with it |
| Consent.NewerOfferCanBeLost | crates/nxfr-daemon/src/ipc.rs:478-479 | there is a run, for every key, in which the clean-up of one confirm call breaks a newer offer under the same id |
| Consent.NeverLostIff | crates/nxfr-daemon/src/ipc.rs:466-490 | no request under a key loses its channel in any run with at most m requests under it if and only if m is at most one |
| Consent.ExpireKeepsSound | crates/nxfr-daemon/src/main.rs:149-168 | the sweeper's removal and refusal keep the invariant |
| RateLimit.FailureCounter.Admit | crates/nxfr-web/src/lib.rs:1687-1708 | a connection is refused exactly while the log of failures has a streak of at least five and the last failure is under 300 s old |
| RateLimit.FailureCounter.RecordFailure | crates/nxfr-web/src/lib.rs:2070-2081 | recording a failure keeps every stored count equal to the streak of the log |
| RateLimit.StreakIsLongest | crates/nxfr-web/src/lib.rs:2538-2549 | the streak is the longest suffix of the failures with adjacent gaps of at most 60 s |
| RateLimit.Serve | crates/nxfr-web/src/lib.rs:1687-1708 | the counter, driven by connections that open, fail and leave in any interleaving, leaves exactly the log that the specification predicts |
| RateLimit.OverlapBoundsFailures | crates/nxfr-web/src/lib.rs:2070-2081 | with at most c connections of an address open at once, any c + 5 consecutive recorded failures of it contain a gap over 60 s |
| RateLimit.SixFailuresHaveAGap | crates/nxfr-web/src/lib.rs:2070-2081 | with requests one after the other, any six consecutive recorded failures of an address contain a gap over 60 s |
| RateLimit.LongestStreak | crates/nxfr-web/src/lib.rs:1687-1708 | with at most c connections of an address open at once its longest streak is exactly c + 4: no run exceeds it and one reaches it |
| RateLimit.LimitHoldsIff | crates/nxfr-web/src/lib.rs:1687-1708 | streaks stay within five in all runs with at most c connections open at once if and only if c is one |
| ApprovalGate.StepSettles | crates/nxfr-web/src/lib.rs:1154-1169 | a status changes only from Pending, exactly the accepted sessions carry a token, and no two share one |
| ApprovalGate.RunsSettle | crates/nxfr-web/src/lib.rs:1154-1169 | over whole runs an answered session never changes again |
| ApprovalGate.FirstAnswerCounts | crates/nxfr-web/src/lib.rs:1154-1169 | the first answer of the host to a pending request stands whatever happens later: its token stays valid, and a second answer is refused and changes nothing |
| ApprovalGate.ValidIffGrounded | crates/nxfr-web/src/lib.rs:1259-1273 | in every run a credential is valid if and only if it has a finite issuance chain that ends at the main token, the PIN or a host approval of a pending session |
| ApprovalGate.AnswersAreExact | crates/nxfr-web/src/lib.rs:1782-1863 | over every run: a request gets a new valid token exactly if its credential had such a chain when it was checked; else it is left to the host exactly if approval was not automatic then and there is no PIN; else it is forbidden and no session is made |
| ApprovalGate.NobodyGetsIn | crates/nxfr-web/src/lib.rs:1782-1863 | in a run in which the host accepts nobody and neither the main token nor the PIN is presented, exactly the main token and the PIN are valid |
| History.HistoryDb.Add | crates/nxfr-storage/src/history.rs:61-99 | adding and pruning keeps exactly the newest 200 of all rows since the last clear; ids are never used again |
| History.HistoryDb.List | crates/nxfr-storage/src/history.rs:101-133 | listing returns the newest rows of the full log, in order, at most 200 and 200 for a limit of zero |
| History.HistoryDb.Clear | crates/nxfr-storage/src/history.rs:135-138 | clearing empties the log and keeps the id counter |
| History.PruningKeepsTheNewest | crates/nxfr-storage/src/history.rs:90-96 | pruning after every insertion keeps exactly what pruning the whole log once would keep |
| History.FirstAreTheNewest | crates/nxfr-storage/src/history.rs:90-96 | the rows kept are exactly those with fewer than 200 newer ones |
| TransferMachine.RunsAreDisciplined | crates/nxfr-core/src/transfer.rs:207-506 | in every reachable state that is not final exactly its own timers run; at most 5 + 2 per resume events are accepted; Complete comes only after acceptance, then metadata, then the end of chunks; a final state leaves a timer running if and only if it was entered abruptly |
| TransferMachine.LastEventDecides | crates/nxfr-core/src/transfer.rs:207-506 | after every run the state is the one that a table assigns to the last accepted event: Complete after AckSuccess or AckSent, Cancelled after a cancellation or a rejection, Failed after the other ending events |
| TransferMachine.AcceptedIff | crates/nxfr-core/src/transfer.rs:207-506 | an event is accepted exactly in the states that the table lists for it |
| TransferMachine.ActionsAreExact | crates/nxfr-core/src/transfer.rs:207-506 | which messages are sent and which notifications are given on which event, and on no other |
| TransferMachine.TimersAreHandedOver | crates/nxfr-core/src/transfer.rs:211-506 | each transition cancels the timer of its state and starts that of the next, except an abrupt end |
| SessionMachine.RunsAreDisciplined | crates/nxfr-core/src/session.rs:163-366 | in every reachable state but Closed exactly its own timers run, and in Closed those of a state left abruptly; resources are released exactly once if Closed is reached and otherwise never; an identity is pinned at most once and only after a code was displayed |
| SessionMachine.LastEventDecides | crates/nxfr-core/src/session.rs:163-366 | after every run the state is the one that a table assigns to the last accepted event, so that a rejected pairing never leads to Active |
| SessionMachine.AcceptedIff | crates/nxfr-core/src/session.rs:163-366 | an event is accepted exactly in the states that the table lists for it |
| SessionMachine.ActionsAreExact | crates/nxfr-core/src/session.rs:163-366 | which actions are taken on which event, and on no other |
| SessionMachine.PinnedOnAccept | crates/nxfr-core/src/session.rs:271-280 | an identity is pinned on one transition only, from Pairing to Active, with the placeholder that the caller fills in |
| Paths.SanitizePath | crates/nxfr-core/src/path.rs:7-98 | the loop with its early exits computes the functional specification, error by error |
| Paths.SanitizedComponents | crates/nxfr-core/src/path.rs:38-97 | the result splits into exactly the accepted components of the input, each non-empty, neither dot nor dot-dot, not reserved and at most 255 bytes, with at most 4096 bytes in all |
| Paths.SanitizeOkIff | crates/nxfr-core/src/path.rs:7-98 | an input is accepted exactly if it has no backslash and no control character, starts with neither a slash nor a drive letter, some part between slashes names something, every such part is not dot-dot, at most 255 bytes long and no Windows device name in any case before its first dot, and the parts with separators come to at most 4096 bytes |
| Paths.ReservedIff | crates/nxfr-core/src/path.rs:52-79 | a component is reserved exactly if what stands before its first dot, in any mix of cases, is one of the four device words or a serial or parallel port 1 to 9 |
| Paths.SanitizeAgain | crates/nxfr-core/src/path.rs:7-98 | sanitising a result again returns it unchanged, or rejects it solely by the drive-letter rule, which happens if and only if the first kept component is a drive letter |
| Paths.DriveLetterUncovered | crates/nxfr-core/src/path.rs:20-26 | a dot component can hide a drive letter from the check |
| UploadNames.SanitizeFilename | crates/nxfr-web/src/lib.rs:656-675 | every character but letters, digits, dots, hyphens and underscores becomes an underscore and nothing else changes, and a made-up name is used exactly if there is nothing but dots; the result is never empty, a dot or dot-dot and never contains a separator |
| UploadNames.TargetOf | crates/nxfr-web/src/lib.rs:2776-2812 | the name is the last component other than empty, dot and dot-dot, cleaned, and the directories are the cleaned others in order; without such a component the whole name is cleaned; the target has at most eleven components, all safe; exactly deeper paths are refused |
| UploadNames.MeaningfulAppend | crates/nxfr-web/src/lib.rs:2779-2782 | each component counts or not by itself, exactly the empty one, dot and dot-dot do not, and the others keep their order |
| UploadNames.StemAndExtension | crates/nxfr-web/src/lib.rs:2826-2834 | stem and extension make up the name, cut before its last dot unless that is its first character or there is none |
| UploadNames.NumberedIsInjective | crates/nxfr-web/src/lib.rs:2834-2838 | distinct counters give distinct names |
| UploadNames.ChooseName | crates/nxfr-web/src/lib.rs:2823-2842 | in any finite directory the loop ends, on a safe unused name that is the given one or the first free numbered one |
| UploadNames.ResolveCollision | crates/nxfr-daemon/src/receiver.rs:251-281 | the daemon's choice is the name itself, the first free of its 999 variants, or else the name with the time; it is unused if and only if one of these is |

## Left out

- Several files in one transfer: the transfer system moves one file (file id 1, as the sending side does); the manifest
  loop around it adds no new interaction.
- Expiry and peer mismatch of a resume journal, and the fall-back to a fresh transfer: they start a new transfer id and so
  a run of their own.
- `ResumeJournal::delete`, `list_active` and `gc_expired`: single-step file removal.
- Real 64-bit wrap-around of lengths and ranges sent by a dishonest peer: receiver lengths are natural numbers.
- The texts of log lines, notifications and error responses; the JSON and HTTP header parsing around the modelled loops.
- CBOR, TOML, JSON and SQLite at the byte level; TLS, certificates, hashing and random numbers.
- Discovery, socket handling, the FFI bindings, the CLI and the HTML pages.
- `resolve_safe_path`: it depends on the operating system's file system; only the lexical sanitiser is modelled.
- Pairing offers: they use the same table and steps as transfer offers, with 60 s instead of 120 s.
- Zip.ArchiveRoundTrip: the converse is stated for counts, names and data sizes (`Zip.LimitsAreReal`), not for the total
  size of the local files or the directory, because an archive beyond 32-bit offsets may still read back by accident when
  file contents imitate a directory.
- SessionOutcome.SessionInvariant: sessions that start after the commit or with a complete `.part` are left to
  `SessionOutcome.SessionEndsAs`; in them nothing is acknowledged.
