/** Byte streams that arrive in chunks. */
module ByteChunks {
  import opened Totals

  type Byte = b: int | 0 <= b < 0x100

  type Bytes = seq<Byte>

  function Size(chunk: Bytes): nat {
    |chunk|
  }

  lemma {:induction false} FlattenedSize(chunks: seq<Bytes>)
    ensures |Flatten(chunks)| == Sum(Size, chunks)
  {
    if chunks != [] { FlattenedSize(chunks[..|chunks| - 1]); }
  }
}
