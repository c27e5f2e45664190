/** The bounded reader of provider responses (src/adapters/openai-egress-policy.js). */
module ProviderResponse {
  import opened ByteChunks
  import opened Options
  import opened Totals

  /** The outcome of reading: the bytes, the size error, the rejection of a read, or a response with no body. */
  datatype Read = Complete(bytes: Bytes) | TooLarge | Rejected | NoBody

  /** A body arrives in chunks, after which the stream ends or, if broken, the next read rejects; or whole as
      text, which may reject too; or not at all. */
  datatype Body = Stream(chunks: seq<Bytes>, broken: bool) | Whole(bytes: Bytes) | Unreadable | Missing

  /** The declared length is the content-length header if it is a number and not negative. */
  datatype Response = Response(declared: Option<nat>, body: Body)

  /** What a stream's reader has done. */
  class Reader {
    const chunks: seq<Bytes>
    const broken: bool
    var position: nat
    var cancelled: bool
    var locked: bool

    constructor (chunks: seq<Bytes>, broken: bool)
      ensures this.chunks == chunks && this.broken == broken && position == 0 && !cancelled && locked
    {
      this.chunks, this.broken, position, cancelled, locked := chunks, broken, 0, false, true;
    }

    /** Reads on until the stream ends, a read rejects or the limit is passed; at most one chunk beyond the
        limit is taken, and only then the stream is cancelled. The lock is released in every case. */
    method ReadBounded(limit: nat) returns (r: Read)
      requires position == 0 && !cancelled
      modifies this
      ensures r == if Sum(Size, chunks) > limit then TooLarge
                   else if broken then Rejected else Complete(Flatten(chunks))
      ensures !locked && cancelled == r.TooLarge?
      ensures position <= |chunks| && (!r.TooLarge? ==> position == |chunks|)
      ensures r.TooLarge? ==> position > 0 && Sum(Size, chunks[..position - 1]) <= limit < Sum(Size, chunks[..position])
    {
      var kept: seq<Bytes> := [];
      var total := 0;
      while position < |chunks|
        invariant position <= |chunks| && kept == chunks[..position] && !cancelled
        invariant total == Sum(Size, kept) <= limit
        decreases |chunks| - position
      {
        var bytes := chunks[position];
        NextChunk(chunks, position);
        position := position + 1;
        total := total + |bytes|;
        if total > limit {
          PrefixIsNoLarger(chunks, position);
          cancelled, locked := true, false;
          return TooLarge;
        }
        kept := kept + [bytes];
      }
      assert chunks[..|chunks|] == chunks;
      locked := false;
      r := if broken then Rejected else Complete(Flatten(kept));
    }
  }

  lemma NextChunk(chunks: seq<Bytes>, i: nat)
    requires i < |chunks|
    ensures chunks[..i + 1] == chunks[..i] + [chunks[i]]
    ensures Sum(Size, chunks[..i + 1]) == Sum(Size, chunks[..i]) + |chunks[i]|
  {
    assert chunks[..i + 1] == chunks[..i] + [chunks[i]];
    SumSnoc(Size, chunks[..i], chunks[i]);
  }

  lemma PrefixIsNoLarger(chunks: seq<Bytes>, i: nat)
    requires i <= |chunks|
    ensures Sum(Size, chunks[..i]) <= Sum(Size, chunks)
  {
    assert chunks == chunks[..i] + chunks[i..];
    SumConcat(Size, chunks[..i], chunks[i..]);
  }

  /** `boundedResponseBytes`. */
  method BoundedResponseBytes(response: Response, limit: nat) returns (r: Read)
    ensures r == Bounded(response, limit)
    ensures r.TooLarge? <==> || (response.declared.Some? && response.declared.value > limit)
                             || |Content(response.body)| > limit
    ensures r.Rejected? <==> && !r.TooLarge?
                             && (response.body.Unreadable? || (response.body.Stream? && response.body.broken))
    ensures r.NoBody? <==> !r.TooLarge? && response.body.Missing?
    ensures r.Complete? ==> |r.bytes| <= limit && r.bytes == Content(response.body)
  {
    BoundedBySize(response, limit);
    if DeclaredTooLarge(response, limit) { return TooLarge; }
    match response.body {
      case Stream(chunks, broken) =>
        var reader := new Reader(chunks, broken);
        r := reader.ReadBounded(limit);
      case Whole(bytes) => r := if |bytes| > limit then TooLarge else Complete(bytes);
      case Unreadable => r := Rejected;
      case Missing => r := NoBody;
    }
  }

  /** All the bytes of a body that arrive. */
  function Content(body: Body): Bytes {
    match body
    case Stream(chunks, _) => Flatten(chunks)
    case Whole(bytes) => bytes
    case _ => []
  }

  predicate Rejects(body: Body) {
    body.Unreadable? || (body.Stream? && body.broken)
  }

  predicate DeclaredTooLarge(response: Response, limit: nat) {
    response.declared.Some? && response.declared.value > limit
  }

  function Bounded(response: Response, limit: nat): Read {
    if DeclaredTooLarge(response, limit) then TooLarge
    else
      match response.body
      case Stream(chunks, broken) =>
        if Sum(Size, chunks) > limit then TooLarge else if broken then Rejected else Complete(Flatten(chunks))
      case Whole(bytes) => if |bytes| > limit then TooLarge else Complete(bytes)
      case Unreadable => Rejected
      case Missing => NoBody
  }

  /** A response is refused exactly if its declared or its actual size is over the limit; otherwise every
      byte is returned, unless a read rejects. */
  lemma BoundedBySize(response: Response, limit: nat)
    ensures var r := Bounded(response, limit);
      && (r.TooLarge? <==> DeclaredTooLarge(response, limit) || |Content(response.body)| > limit)
      && (r.Rejected? <==> Rejects(response.body) && !DeclaredTooLarge(response, limit)
                           && |Content(response.body)| <= limit)
      && (r.Complete? ==> r.bytes == Content(response.body) && |r.bytes| <= limit)
      && (r.NoBody? <==> response.body.Missing? && !DeclaredTooLarge(response, limit))
  {
    if response.body.Stream? { FlattenedSize(response.body.chunks); }
  }
}
