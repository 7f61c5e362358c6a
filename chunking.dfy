/** The streaming of a served file in fixed-size chunks (`file_iterator`, backend.py:509-512). */
module Chunking {

  newtype byte = x: int | 0 <= x < 256

  const CHUNK_SIZE: nat := 8192

  /** The bytes of a run of chunks, in order. */
  function Flatten(chunks: seq<seq<byte>>): seq<byte>
  {
    if chunks == [] then [] else Flatten(chunks[..|chunks| - 1]) + chunks[|chunks| - 1]
  }

  /** Every chunk holds 1 to CHUNK_SIZE bytes and every chunk but the last is full. */
  predicate WellChunked(chunks: seq<seq<byte>>)
  {
    forall i :: 0 <= i < |chunks| ==>
      && 1 <= |chunks[i]| <= CHUNK_SIZE
      && (i < |chunks| - 1 ==> |chunks[i]| == CHUNK_SIZE)
  }

  /** `f.read(CHUNK_SIZE)` on a file of bytes `data` whose position is `pos`. */
  function Read(data: seq<byte>, pos: nat): (r: seq<byte>)
    requires pos <= |data|
    ensures |r| <= CHUNK_SIZE && pos + |r| <= |data|
    ensures r == [] <==> pos == |data|
  {
    if |data| - pos <= CHUNK_SIZE then data[pos..] else data[pos..pos + CHUNK_SIZE]
  }

  /** Full chunks hold CHUNK_SIZE bytes each. */
  lemma {:induction false} FullLength(chunks: seq<seq<byte>>)
    requires forall i :: 0 <= i < |chunks| ==> |chunks[i]| == CHUNK_SIZE
    ensures |Flatten(chunks)| == |chunks| * CHUNK_SIZE
  {
    if chunks != [] {
      FullLength(chunks[..|chunks| - 1]);
    }
  }

  /** A well-chunked stream of `n` bytes has `ceil(n / CHUNK_SIZE)` chunks. */
  lemma ChunkCount(chunks: seq<seq<byte>>)
    requires WellChunked(chunks)
    ensures |chunks| == (|Flatten(chunks)| + CHUNK_SIZE - 1) / CHUNK_SIZE
  {
    if chunks != [] {
      var n := |chunks|;
      var init := chunks[..n - 1];
      FullLength(init);
      var m := |chunks[n - 1]|;
      assert |Flatten(chunks)| + CHUNK_SIZE - 1 == (n - 1) * CHUNK_SIZE + (m + CHUNK_SIZE - 1);
      assert CHUNK_SIZE <= m + CHUNK_SIZE - 1 < 2 * CHUNK_SIZE;
    }
  }

  /** Appending a chunk after a full one keeps the stream well chunked and adds its bytes. */
  lemma AppendChunk(chunks: seq<seq<byte>>, chunk: seq<byte>)
    requires WellChunked(chunks)
    requires chunks != [] ==> |chunks[|chunks| - 1]| == CHUNK_SIZE
    requires 1 <= |chunk| <= CHUNK_SIZE
    ensures WellChunked(chunks + [chunk])
    ensures Flatten(chunks + [chunk]) == Flatten(chunks) + chunk
  {
    assert (chunks + [chunk])[..|chunks|] == chunks;
  }

  /** The chunks `file_iterator` yields for a file holding `data`: `while chunk := f.read(8192)`. */
  method ReadChunks(data: seq<byte>) returns (chunks: seq<seq<byte>>)
    ensures Flatten(chunks) == data
    ensures WellChunked(chunks)
    ensures |chunks| == (|data| + CHUNK_SIZE - 1) / CHUNK_SIZE
  {
    chunks := [];
    var pos := 0;
    var chunk := Read(data, pos);
    while chunk != []
      invariant 0 <= pos <= |data|
      invariant chunk == Read(data, pos)
      invariant Flatten(chunks) == data[..pos]
      invariant WellChunked(chunks)
      invariant chunks != [] && pos < |data| ==> |chunks[|chunks| - 1]| == CHUNK_SIZE
      decreases |data| - pos
    {
      AppendChunk(chunks, chunk);
      assert data[..pos + |chunk|] == data[..pos] + chunk;
      chunks := chunks + [chunk];
      pos := pos + |chunk|;
      chunk := Read(data, pos);
    }
    assert data[..pos] == data;
    ChunkCount(chunks);
  }
}
