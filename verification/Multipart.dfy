/** The streaming multipart scanner of the web upload: it flushes all but a needle-sized tail between reads. */
module Multipart {
  import opened Bytes
  import opened Results

  /** The part delimiter `--boundary`, and the largest upload that is kept. */
  datatype Upload = Upload(boundary: seq<Byte>, maxAllowed: nat) {
    /** A delimiter at the very start of the body. */
    function AltNeedle(): (n: seq<Byte>)
      ensures n != []
    {
      [0x2D, 0x2D] + boundary
    }

    /** A delimiter after content: CR LF, two hyphens and the boundary. */
    function Needle(): (n: seq<Byte>)
      ensures n != []
    {
      [0x0D, 0x0A] + AltNeedle()
    }
  }

  /** How scanning ends, with the bytes written to the temporary file. */
  datatype Scan = Complete(written: seq<Byte>) | TooLarge(written: seq<Byte>) | Disconnected(written: seq<Byte>)

  predicate OccursAt(needle: seq<Byte>, body: seq<Byte>, i: nat) {
    i + |needle| <= |body| && body[i..i + |needle|] == needle
  }

  /** The first occurrence of `needle` at or after `from`. */
  function FindFrom(needle: seq<Byte>, body: seq<Byte>, from: nat): (r: Option<nat>)
    ensures r.Some? ==> from <= r.value && OccursAt(needle, body, r.value)
    ensures r.Some? ==> forall j :: from <= j < r.value ==> !OccursAt(needle, body, j)
    ensures r.None? ==> forall j :: from <= j ==> !OccursAt(needle, body, j)
    decreases |body| - from
  {
    if from + |needle| > |body| then None
    else if OccursAt(needle, body, from) then Some(from)
    else FindFrom(needle, body, from + 1)
  }

  function Find(needle: seq<Byte>, body: seq<Byte>): Option<nat> {
    FindFrom(needle, body, 0)
  }

  /** The length of the buffer's prefix in which no unfinished delimiter can start. */
  function SafeLength(u: Upload, buffer: seq<Byte>): nat {
    if |buffer| > |u.Needle()| then |buffer| - |u.Needle()| else 0
  }

  /** Scanning from a given buffer, with `written` already on disk and `pieces` still to be read. */
  function Run(u: Upload, written: seq<Byte>, buffer: seq<Byte>, pieces: seq<seq<Byte>>): Scan
    decreases |pieces|
  {
    var needle := u.Needle();
    match Find(needle, buffer)
    case Some(pos) =>
      if pos > 0 && |written| + pos > u.maxAllowed then TooLarge(written) else Complete(written + buffer[..pos])
    case None =>
      if written == [] && u.AltNeedle() <= buffer then Complete(written)
      else
        var safe := SafeLength(u, buffer);
        if safe > 0 && |written| + safe > u.maxAllowed then TooLarge(written)
        else if pieces == [] || pieces[0] == [] then Disconnected(written + buffer[..safe])
        else Run(u, written + buffer[..safe], buffer[safe..] + pieces[0], pieces[1..])
  }

  /** The body-reading loop of the upload route; a read of no bytes means that the client is gone. */
  method ScanUpload(u: Upload, start: seq<Byte>, pieces: seq<seq<Byte>>) returns (outcome: Scan, hashed: seq<Byte>)
    ensures outcome == Run(u, [], start, pieces)
    ensures hashed == outcome.written
    ensures |outcome.written| <= u.maxAllowed
  {
    var needle := u.Needle();
    var buffer, totalWritten, file, i := start, 0, [], 0;
    hashed := [];
    assert pieces[0..] == pieces;
    while true
      invariant 0 <= i <= |pieces| && totalWritten == |file| <= u.maxAllowed && hashed == file
      invariant Run(u, file, buffer, pieces[i..]) == Run(u, [], start, pieces)
      decreases |pieces| - i
    {
      var found := Find(needle, buffer);
      if found.Some? {
        var chunk := buffer[..found.value];
        if chunk != [] {
          totalWritten := totalWritten + |chunk|;
          if totalWritten > u.maxAllowed {
            return TooLarge(file), hashed;
          }
          file, hashed := file + chunk, hashed + chunk;
        }
        return Complete(file), hashed;
      } else if totalWritten == 0 && u.AltNeedle() <= buffer {
        return Complete(file), hashed;
      }
      if |buffer| > |needle| {
        var safeLen := |buffer| - |needle|;
        var chunk := buffer[..safeLen];
        totalWritten := totalWritten + |chunk|;
        if totalWritten > u.maxAllowed {
          return TooLarge(file), hashed;
        }
        file, hashed := file + chunk, hashed + chunk;
        buffer := buffer[safeLen..];
      }
      assert |buffer| <= |needle|;
      assert file + [] == file && buffer[0..] == buffer && buffer[..0] == [];
      if i == |pieces| || pieces[i] == [] {
        return Disconnected(file), hashed;
      }
      assert pieces[i..][1..] == pieces[i + 1..];
      buffer := buffer + pieces[i];
      i := i + 1;
    }
  }

  /** What the reads bring: an empty one means that the client is gone, and what would follow it is never read. */
  function Received(pieces: seq<seq<Byte>>): seq<Byte> {
    if pieces == [] || pieces[0] == [] then [] else pieces[0] + Received(pieces[1..])
  }

  /** The result that the whole body calls for, whatever the reads. */
  function Expected(u: Upload, body: seq<Byte>): Scan {
    match Find(u.Needle(), body)
    case Some(pos) => if pos > u.maxAllowed then TooLarge([]) else Complete(body[..pos])
    case None => if |body| > |u.Needle()| + u.maxAllowed then TooLarge([]) else Disconnected([])
  }

  /** Agreement on the outcome; what was written counts only if it is kept. */
  predicate SameResult(a: Scan, b: Scan) {
    if a.Complete? then a == b else a.TooLarge? == b.TooLarge? && a.Disconnected? == b.Disconnected?
  }

  /** Occurrences inside a buffer are occurrences in the body, shifted. */
  lemma OccurrenceInBuffer(needle: seq<Byte>, written: seq<Byte>, buffer: seq<Byte>, rest: seq<Byte>, j: nat)
    requires j + |needle| <= |buffer|
    ensures OccursAt(needle, buffer, j) <==> OccursAt(needle, written + buffer + rest, |written| + j)
  {
    var body, at := written + buffer + rest, |written| + j;
    assert body[at..at + |needle|] == buffer[j..j + |needle|];
  }

  lemma FirstIs(needle: seq<Byte>, body: seq<Byte>, i: nat)
    requires OccursAt(needle, body, i) && forall j :: 0 <= j < i ==> !OccursAt(needle, body, j)
    ensures Find(needle, body) == Some(i)
  {
  }

  /** No occurrence in the body starts before the first one that lies inside the buffer, or before the kept tail. */
  lemma NoOccurrenceEarly(needle: seq<Byte>, written: seq<Byte>, buffer: seq<Byte>, rest: seq<Byte>)
    requires needle != []
    requires forall j :: 0 <= j < |written| ==> !OccursAt(needle, written + buffer + rest, j)
    ensures var end := match Find(needle, buffer) case Some(pos) => pos
                       case None => if |buffer| >= |needle| then |buffer| - |needle| + 1 else 0;
            forall j :: 0 <= j < |written| + end ==> !OccursAt(needle, written + buffer + rest, j)
  {
    var body := written + buffer + rest;
    var end := match Find(needle, buffer) case Some(pos) => pos
               case None => if |buffer| >= |needle| then |buffer| - |needle| + 1 else 0;
    forall j | 0 <= j < |written| + end
      ensures !OccursAt(needle, body, j)
    {
      if j >= |written| {
        OccurrenceInBuffer(needle, written, buffer, rest, j - |written|);
      }
    }
  }

  /** The delimiter found in the buffer is the first one in the body. */
  lemma FoundIsFirst(needle: seq<Byte>, written: seq<Byte>, buffer: seq<Byte>, rest: seq<Byte>, pos: nat)
    requires needle != [] && Find(needle, buffer) == Some(pos)
    requires forall j :: 0 <= j < |written| ==> !OccursAt(needle, written + buffer + rest, j)
    ensures Find(needle, written + buffer + rest) == Some(|written| + pos)
    ensures (written + buffer + rest)[..|written| + pos] == written + buffer[..pos]
  {
    NoOccurrenceEarly(needle, written, buffer, rest);
    OccurrenceInBuffer(needle, written, buffer, rest, pos);
    FirstIs(needle, written + buffer + rest, |written| + pos);
  }

  /** Moving the safe part of the buffer to the file moves no byte of the body. */
  lemma FlushKeepsBody(written: seq<Byte>, buffer: seq<Byte>, safe: nat, piece: seq<Byte>, rest: seq<Byte>)
    requires safe <= |buffer|
    ensures (written + buffer[..safe]) + (buffer[safe..] + piece) + rest == written + buffer + (piece + rest)
    ensures written + buffer[..safe] <= written + buffer + (piece + rest)
  {
    assert buffer == buffer[..safe] + buffer[safe..];
  }

  lemma NoOccurrenceMeansLate(needle: seq<Byte>, body: seq<Byte>, n: nat)
    requires n + |needle| <= |body| && forall j :: 0 <= j < n ==> !OccursAt(needle, body, j)
    ensures Find(needle, body).Some? ==> Find(needle, body).value >= n
  {
  }

  /** Nothing is lost between reads: the streaming scan agrees with the whole body. */
  lemma {:induction false} RunAgrees(
    u: Upload, written: seq<Byte>, buffer: seq<Byte>, pieces: seq<seq<Byte>>, body: seq<Byte>)
    requires body == written + buffer + Received(pieces)
    requires |written| <= u.maxAllowed
    requires !(u.AltNeedle() <= body) && forall j :: 0 <= j < |written| ==> !OccursAt(u.Needle(), body, j)
    ensures SameResult(Run(u, written, buffer, pieces), Expected(u, body))
    decreases |pieces|
  {
    var needle, safe := u.Needle(), SafeLength(u, buffer);
    if Find(needle, buffer).Some? {
      FoundIsFirst(needle, written, buffer, Received(pieces), Find(needle, buffer).value);
    } else {
      NoOccurrenceEarly(needle, written, buffer, Received(pieces));
      assert !(written == [] && u.AltNeedle() <= buffer) by {
        assert written == [] ==> buffer <= body;
      }
      if safe > 0 && |written| + safe > u.maxAllowed {
        NoOccurrenceMeansLate(needle, body, |written| + safe);
      } else if pieces == [] || pieces[0] == [] {
        assert body == written + buffer;
      } else {
        FlushKeepsBody(written, buffer, safe, pieces[0], Received(pieces[1..]));
        RunAgrees(u, written + buffer[..safe], buffer[safe..] + pieces[0], pieces[1..], body);
      }
    }
  }

  /**
   * The streaming scanner equals its whole-body specification: for all reads of a body that does not open with
   * the bare delimiter, exactly the bytes before the first CR LF delimiter are kept, the limit is enforced on
   * them, and without a delimiter the client counts as gone.
   */
  lemma ScanIsWholeBody(u: Upload, start: seq<Byte>, pieces: seq<seq<Byte>>)
    requires !(u.AltNeedle() <= start + Received(pieces))
    ensures SameResult(Run(u, [], start, pieces), Expected(u, start + Received(pieces)))
  {
    assert [] + start + Received(pieces) == start + Received(pieces);
    RunAgrees(u, [], start, pieces, start + Received(pieces));
  }

  /** However the body is split into reads, the result is that of reading it at once. */
  ghost predicate SplitIndependent(u: Upload, body: seq<Byte>) {
    forall start, pieces | start + Received(pieces) == body ::
      SameResult(Run(u, [], start, pieces), Run(u, [], body, []))
  }

  /** A body that opens with the bare delimiter and has no other is taken for empty under every split. */
  lemma {:induction false} OpeningEndsTheScan(u: Upload, buffer: seq<Byte>, pieces: seq<seq<Byte>>)
    requires u.AltNeedle() <= buffer + Received(pieces) && Find(u.Needle(), buffer + Received(pieces)).None?
    ensures Run(u, [], buffer, pieces) == Complete([])
    decreases |pieces|
  {
    var body := buffer + Received(pieces);
    if pos :| OccursAt(u.Needle(), buffer, pos) {
      assert OccursAt(u.Needle(), body, pos);
    }
    if !(u.AltNeedle() <= buffer) {
      assert Received(pieces) != [] by {
        assert Received(pieces) == [] ==> body == buffer;
      }
      assert SafeLength(u, buffer) == 0 by {
        assert |buffer| > |u.AltNeedle()| ==> u.AltNeedle() <= buffer;
      }
      assert [] + buffer[..0] == [] && buffer[0..] == buffer;
      assert buffer + pieces[0] + Received(pieces[1..]) == body;
      OpeningEndsTheScan(u, buffer + pieces[0], pieces[1..]);
    }
  }

  lemma OpensWithDelimiter(u: Upload, body: seq<Byte>)
    requires u.AltNeedle() <= body && Find(u.Needle(), body).Some?
    ensures Run(u, [], body, []) != Complete([])
    ensures var alt := u.AltNeedle();
            && alt + Received([body[|alt|..]]) == body && body[|alt|..] != []
            && Run(u, [], alt, [body[|alt|..]]) == Complete([])
  {
    var alt, pos := u.AltNeedle(), Find(u.Needle(), body).value;
    assert [] + body[..pos] == body[..pos];
    assert Received([body[|alt|..]]) == body[|alt|..];
    assert pos != 0 by {
      assert body[0] == 0x2D && u.Needle()[0] == 0x0D;
    }
    assert |u.Needle()| == |alt| + 2;
    assert Find(u.Needle(), alt) == None;
  }

  /**
   * Exactly when the split does not matter, for every body and limit: the body does not open with the bare delimiter, or
   * it has no CR LF delimiter after that. A body with both is cut at the later one when read at once, and taken for
   * empty when its first read ends with the opening.
   */
  lemma SplitMattersIff(u: Upload, body: seq<Byte>)
    ensures SplitIndependent(u, body) <==> !(u.AltNeedle() <= body) || Find(u.Needle(), body).None?
  {
    assert body + Received([]) == body;
    if !(u.AltNeedle() <= body) {
      forall start, pieces | start + Received(pieces) == body
        ensures SameResult(Run(u, [], start, pieces), Run(u, [], body, []))
      {
        ScanIsWholeBody(u, start, pieces);
        ScanIsWholeBody(u, body, []);
      }
    } else if Find(u.Needle(), body).None? {
      forall start, pieces | start + Received(pieces) == body
        ensures SameResult(Run(u, [], start, pieces), Run(u, [], body, []))
      {
        OpeningEndsTheScan(u, start, pieces);
        OpeningEndsTheScan(u, body, []);
      }
    } else {
      OpensWithDelimiter(u, body);
      var alt := u.AltNeedle();
      assert !SameResult(Run(u, [], alt, [body[|alt|..]]), Run(u, [], body, []));
    }
  }
}
