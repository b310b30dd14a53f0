/** Chunk payloads and the way a file is cut into chunks. */
module Chunks {
  import opened Bytes
  import opened Results

  /** Default chunk data size: 1 MiB. */
  const CHUNK_DATA_SIZE: nat := 1_048_576

  /** SHA-256, which the model leaves uninterpreted. */
  type Sha = seq<Byte> -> Digest

  datatype ChunkPayload = ChunkPayload(offset: U64, hash: Digest, data: seq<Byte>)

  /** Layout: 8 bytes of offset, 32 bytes of hash, then the data. */
  function SerializeChunk(c: ChunkPayload): seq<Byte> {
    BigEndian(c.offset, 8) + c.hash + c.data
  }

  function ParseChunk(payload: seq<Byte>): Option<ChunkPayload> {
    if |payload| < 41 then None
    else
      FieldCapacities();
      Some(ChunkPayload(FromBigEndian(payload[0..8]), payload[8..40], payload[40..]))
  }

  /** A chunk payload survives the wire exactly when it carries data. */
  lemma ChunkRoundTrip(c: ChunkPayload)
    ensures ParseChunk(SerializeChunk(c)) == Some(c) <==> c.data != []
  {
    var p := SerializeChunk(c);
    FieldCapacities();
    BigEndianRoundTrip(c.offset, 8);
    assert p[0..8] == BigEndian(c.offset, 8);
    assert p[8..40] == c.hash;
    assert p[40..] == c.data;
  }

  /** Whatever parses as a chunk payload is the serialisation of the result. */
  lemma ChunkIsCanonical(payload: seq<Byte>)
    requires ParseChunk(payload).Some?
    ensures SerializeChunk(ParseChunk(payload).value) == payload
  {
    BigEndianReadBack(payload[0..8]);
    assert payload == payload[0..8] + payload[8..40] + payload[40..];
  }

  // ----- Cutting a file -----

  /** The number of chunks of a file of `size` bytes. */
  function ChunkCount(size: nat): nat {
    (size + CHUNK_DATA_SIZE - 1) / CHUNK_DATA_SIZE
  }

  /** Where chunk `k` starts; the end of the file for `k` at or past the last chunk. */
  function ChunkStart(size: nat, k: nat): (o: nat)
    ensures o <= size
    ensures o < size <==> k < ChunkCount(size)
  {
    if k * CHUNK_DATA_SIZE < size then k * CHUNK_DATA_SIZE else size
  }

  function ChunkLength(size: nat, k: nat): nat {
    ChunkStart(size, k + 1) - ChunkStart(size, k)
  }

  /** The bytes of chunk `k`. */
  function ChunkData(file: seq<Byte>, k: nat): (d: seq<Byte>)
    ensures |d| == ChunkLength(|file|, k) <= CHUNK_DATA_SIZE
    ensures k < ChunkCount(|file|) <==> d != []
  {
    file[ChunkStart(|file|, k)..ChunkStart(|file|, k + 1)]
  }

  /** A prefix of the file that ends between chunks grows by the next chunk's data. */
  lemma ChunkExtendsPrefix(file: seq<Byte>, k: nat)
    ensures file[..ChunkStart(|file|, k)] + ChunkData(file, k) == file[..ChunkStart(|file|, k + 1)]
  {
  }
}
