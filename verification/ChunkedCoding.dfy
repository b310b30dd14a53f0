/** HTTP chunked transfer coding: the writer of the web server, and a decoder after section 7.1 of RFC 9112. */
module ChunkedCoding {
  import opened Bytes
  import opened Results

  const CR: Byte := 0x0D
  const LF: Byte := 0x0A

  function HexDigit(v: nat): Byte
    requires v < 16
  {
    if v < 10 then 0x30 + v else 0x41 + (v - 10)
  }

  function HexValue(b: Byte): Option<nat> {
    if 0x30 <= b <= 0x39 then Some(b - 0x30)
    else if 0x41 <= b <= 0x46 then Some(b - 0x41 + 10)
    else if 0x61 <= b <= 0x66 then Some(b - 0x61 + 10)
    else None
  }

  /** Upper-case hexadecimal without leading zeros. */
  function Hex(n: nat): (t: seq<Byte>)
    ensures t != []
  {
    if n < 16 then [HexDigit(n)] else Hex(n / 16) + [HexDigit(n % 16)]
  }

  /** The framing of one piece of data; empty data produces nothing, since it would end the body. */
  function ChunkBytes(data: seq<Byte>): seq<Byte> {
    if data == [] then [] else Hex(|data|) + [CR, LF] + data + [CR, LF]
  }

  const LAST_CHUNK: seq<Byte> := [0x30, CR, LF, CR, LF]

  function AllChunks(pieces: seq<seq<Byte>>): seq<Byte> {
    if pieces == [] then [] else ChunkBytes(pieces[0]) + AllChunks(pieces[1..])
  }

  // ----- Decoding -----

  /** The number of leading hexadecimal digits. */
  function DigitCount(s: seq<Byte>): (n: nat)
    ensures n <= |s|
  {
    if s == [] || HexValue(s[0]).None? then 0 else 1 + DigitCount(s[1..])
  }

  /** The number that hexadecimal digits stand for; other bytes count as zero. */
  function HexNumber(s: seq<Byte>): nat {
    if s == [] then 0
    else HexNumber(s[..|s| - 1]) * 16 + (match HexValue(s[|s| - 1]) case Some(v) => v case None => 0)
  }

  predicate CrLfAt(s: seq<Byte>, i: nat) {
    i + 2 <= |s| && s[i] == CR && s[i + 1] == LF
  }

  /** The chunk-size line: the size and where the chunk's data starts. */
  function SizeLine(s: seq<Byte>): Option<(nat, nat)> {
    var d := DigitCount(s);
    if d == 0 || !CrLfAt(s, d) then None else Some((HexNumber(s[..d]), d + 2))
  }

  /** The data of the first chunk, empty for the last one, and what follows it; trailers are not accepted. */
  function FirstChunk(s: seq<Byte>): (r: Option<(seq<Byte>, seq<Byte>)>)
    ensures r.Some? ==> |r.value.1| < |s|
  {
    match SizeLine(s)
    case None => None
    case Some((size, start)) =>
      if !CrLfAt(s, start + size) then None
      else Some((s[start..start + size], s[start + size + 2..]))
  }

  /** The decoded body and what follows it, or nothing if the coding is malformed. */
  function Unchunk(s: seq<Byte>): Option<(seq<Byte>, seq<Byte>)>
    decreases |s|
  {
    match FirstChunk(s)
    case None => None
    case Some((data, rest)) =>
      if data == [] then Some(([], rest))
      else match Unchunk(rest)
        case None => None
        case Some((body, end)) => Some((data + body, end))
  }

  lemma {:induction false} HexRoundTrip(n: nat)
    ensures HexNumber(Hex(n)) == n
    ensures forall b <- Hex(n) :: HexValue(b).Some?
  {
    if n < 16 {
      assert Hex(n)[..0] == [];
    } else {
      HexRoundTrip(n / 16);
      assert Hex(n)[..|Hex(n)| - 1] == Hex(n / 16);
    }
  }

  lemma {:induction false} DigitsThen(digits: seq<Byte>, tail: seq<Byte>)
    requires forall b <- digits :: HexValue(b).Some?
    requires tail != [] && HexValue(tail[0]).None?
    ensures DigitCount(digits + tail) == |digits|
  {
    if digits == [] {
      assert digits + tail == tail;
    } else {
      assert (digits + tail)[1..] == digits[1..] + tail;
      assert forall b <- digits[1..] :: b in digits;
      DigitsThen(digits[1..], tail);
    }
  }

  /** Where the parts of a framed chunk lie. */
  lemma ChunkLayout(digits: seq<Byte>, data: seq<Byte>, more: seq<Byte>, s: seq<Byte>, start: nat)
    requires s == digits + [CR, LF] + data + [CR, LF] + more && start == |digits| + 2
    ensures CrLfAt(s, start + |data|)
    ensures s[start..start + |data|] == data && s[start + |data| + 2..] == more
  {
  }

  lemma FirstChunkIs(s: seq<Byte>, size: nat, start: nat, data: seq<Byte>, more: seq<Byte>)
    requires SizeLine(s) == Some((size, start)) && CrLfAt(s, start + size)
    requires s[start..start + size] == data && s[start + size + 2..] == more
    ensures FirstChunk(s) == Some((data, more))
  {
  }

  lemma {:induction false} DigitsOnly(digits: seq<Byte>)
    requires forall b <- digits :: HexValue(b).Some?
    ensures DigitCount(digits) == |digits|
  {
    if digits != [] {
      assert forall b <- digits[1..] :: b in digits;
      DigitsOnly(digits[1..]);
    }
  }

  /** The size line, as far as it has come. */
  lemma SizeLineOf(size: nat, tail: seq<Byte>, t: seq<Byte>)
    requires CrLfAt(tail, 0) && t <= Hex(size) + tail
    ensures SizeLine(t) == if |t| < |Hex(size)| + 2 then None else Some((size, |Hex(size)| + 2))
  {
    var digits := Hex(size);
    HexRoundTrip(size);
    if |t| <= |digits| {
      assert t == digits[..|t|];
      assert forall b <- digits[..|t|] :: b in digits;
      DigitsOnly(t);
    } else {
      var rest := t[|digits|..];
      assert t == digits + rest && rest[0] == tail[0];
      DigitsThen(digits, rest);
      assert t[..|digits|] == digits;
      assert |t| >= |digits| + 2 ==> t[|digits| + 1] == tail[1];
    }
  }

  lemma Regroup4(a: seq<Byte>, b: seq<Byte>, c: seq<Byte>, d: seq<Byte>, e: seq<Byte>)
    ensures a + b + c + d + e == a + (b + c + d + e)
  {
  }

  lemma SizeLineFirst(digits: seq<Byte>, data: seq<Byte>, more: seq<Byte>, s: seq<Byte>)
    requires digits == Hex(|data|) && s == digits + [CR, LF] + data + [CR, LF] + more
    ensures SizeLine(s) == Some((|data|, |digits| + 2))
  {
    Regroup4(digits, [CR, LF], data, [CR, LF], more);
    SizeLineOf(|data|, [CR, LF] + data + [CR, LF] + more, s);
  }

  /** A size line, that much data and a line end make one chunk. */
  lemma FirstChunkOf(digits: seq<Byte>, data: seq<Byte>, more: seq<Byte>, s: seq<Byte>)
    requires digits == Hex(|data|) && s == digits + [CR, LF] + data + [CR, LF] + more
    ensures FirstChunk(s) == Some((data, more))
  {
    SizeLineFirst(digits, data, more, s);
    ChunkLayout(digits, data, more, s, |digits| + 2);
    FirstChunkIs(s, |data|, |digits| + 2, data, more);
  }

  lemma UnchunkStep(s: seq<Byte>, data: seq<Byte>, more: seq<Byte>)
    requires data != [] && FirstChunk(s) == Some((data, more)) && Unchunk(more).Some?
    ensures Unchunk(s) == Some((data + Unchunk(more).value.0, Unchunk(more).value.1))
  {
  }

  /** One piece decodes to its data. */
  lemma UnchunkOne(data: seq<Byte>, more: seq<Byte>, s: seq<Byte>)
    requires s == ChunkBytes(data) + more && Unchunk(more).Some?
    ensures Unchunk(s) == Some((data + Unchunk(more).value.0, Unchunk(more).value.1))
  {
    if data == [] {
      assert s == more;
      assert data + Unchunk(more).value.0 == Unchunk(more).value.0;
    } else {
      FirstChunkOf(Hex(|data|), data, more, s);
      UnchunkStep(s, data, more);
    }
  }

  lemma UnchunkEnd(more: seq<Byte>, s: seq<Byte>)
    requires s == LAST_CHUNK + more
    ensures Unchunk(s) == Some(([], more))
  {
    assert Hex(0) == [0x30] && LAST_CHUNK == Hex(0) + [CR, LF] + [] + [CR, LF];
    FirstChunkOf([0x30], [], more, s);
  }

  lemma Regroup(a: seq<Byte>, b: seq<Byte>, c: seq<Byte>, d: seq<Byte>)
    ensures (a + b) + c + d == a + (b + c + d)
  {
  }

  /** Whatever pieces are written, the decoder returns their concatenation and stops exactly at the end of the body. */
  lemma {:induction false} UnchunkAll(pieces: seq<seq<Byte>>, more: seq<Byte>, s: seq<Byte>)
    requires s == AllChunks(pieces) + LAST_CHUNK + more
    ensures Unchunk(s) == Some((Concat(pieces), more))
  {
    if pieces == [] {
      UnchunkEnd(more, s);
    } else {
      var rest := AllChunks(pieces[1..]) + LAST_CHUNK + more;
      UnchunkAll(pieces[1..], more, rest);
      Regroup(ChunkBytes(pieces[0]), AllChunks(pieces[1..]), LAST_CHUNK, more);
      UnchunkOne(pieces[0], rest, s);
    }
  }

  /** A chunk that is cut off anywhere is no chunk. */
  lemma CutChunk(digits: seq<Byte>, data: seq<Byte>, whole: seq<Byte>, t: seq<Byte>)
    requires digits == Hex(|data|) && whole == digits + [CR, LF] + data + [CR, LF] && t <= whole && |t| < |whole|
    ensures FirstChunk(t) == None
  {
    Regroup(digits, [CR, LF], data, [CR, LF]);
    SizeLineOf(|data|, [CR, LF] + data + [CR, LF], t);
  }

  lemma UnchunkNone(data: seq<Byte>, more: seq<Byte>, s: seq<Byte>)
    requires s == ChunkBytes(data) + more && Unchunk(more) == None
    ensures Unchunk(s) == None
  {
    if data == [] {
      assert s == more;
    } else {
      FirstChunkOf(Hex(|data|), data, more, s);
    }
  }

  /** A stream that stops anywhere before its end, inside a chunk or between two, is never taken for a complete body. */
  lemma {:induction false} UnchunkTruncated(pieces: seq<seq<Byte>>, s: seq<Byte>, t: seq<Byte>)
    requires s == AllChunks(pieces) + LAST_CHUNK && t <= s && |t| < |s|
    ensures Unchunk(t) == None
  {
    if pieces == [] {
      assert Hex(0) == [0x30] && s == Hex(0) + [CR, LF] + [] + [CR, LF];
      CutChunk([0x30], [], s, t);
    } else {
      var first, rest := ChunkBytes(pieces[0]), AllChunks(pieces[1..]) + LAST_CHUNK;
      assert s == first + rest;
      if |t| < |first| {
        assert t <= first;
        CutChunk(Hex(|pieces[0]|), pieces[0], first, t);
      } else {
        var t' := t[|first|..];
        assert t == first + t' && t' == rest[..|t'|];
        UnchunkTruncated(pieces[1..], rest, t');
        UnchunkNone(pieces[0], t', t);
      }
    }
  }

  lemma {:induction false} AllChunksSnoc(pieces: seq<seq<Byte>>, p: seq<Byte>)
    ensures AllChunks(pieces + [p]) == AllChunks(pieces) + ChunkBytes(p)
  {
    if pieces == [] {
      assert AllChunks([p]) == ChunkBytes(p) + AllChunks([]);
    } else {
      assert (pieces + [p])[1..] == pieces[1..] + [p];
      AllChunksSnoc(pieces[1..], p);
    }
  }

  // ----- The writer -----

  /** The writer; `body` is everything written so far, before coding. */
  class ChunkedWriter {
    var stream: seq<Byte>
    ghost var body: seq<Byte>
    ghost var pieces: seq<seq<Byte>>

    ghost predicate Valid()
      reads this
    {
      stream == AllChunks(pieces) && body == Concat(pieces)
    }

    constructor ()
      ensures Valid() && body == []
    {
      stream, body, pieces := [], [], [];
    }

    /** The framing of one piece; an empty piece would end the body, so nothing is sent for it. */
    method Emit(data: seq<Byte>)
      modifies this`stream
      ensures stream == old(stream) + ChunkBytes(data)
    {
      if data == [] {
        return;
      }
      var header := Hex(|data|) + [CR, LF];
      Regroup(stream, header, data, [CR, LF]);
      stream := stream + header;
      stream := stream + data;
      stream := stream + [CR, LF];
    }

    /** What has been sent stays the coding of what has been written. */
    method WriteChunk(data: seq<Byte>)
      requires Valid()
      modifies this
      ensures Valid() && body == old(body) + data
    {
      AllChunksSnoc(pieces, data);
      ConcatSnoc(pieces, data);
      Emit(data);
      pieces := pieces + [data];
      body := body + data;
    }

    /** The finished stream decodes to what was written, with nothing after it. */
    method Finish()
      requires Valid()
      modifies this
      ensures body == old(body) && Unchunk(stream) == Some((body, []))
    {
      stream := stream + LAST_CHUNK;
      assert stream == AllChunks(pieces) + LAST_CHUNK + [];
      UnchunkAll(pieces, [], stream);
    }

    /** Until it is finished, the stream does not decode. */
    lemma Unfinished()
      requires Valid()
      ensures Unchunk(stream) == None
    {
      UnchunkTruncated(pieces, stream + LAST_CHUNK, stream);
    }
  }
}
