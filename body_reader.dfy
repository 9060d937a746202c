/** The `'data'` loop of server.js: chunks are pushed onto `body` one at a
    time and the running total is re-checked after each push; the first time
    it passes `MAX_PAYLOAD_SIZE` the request is answered with 413 and the
    connection is destroyed, so no later chunk is read. */
module BodyReader {
  import opened Http

  type Chunk = seq<Byte>

  /** `Buffer.concat(chunks)`. */
  function Concat(chunks: seq<Chunk>): seq<Byte> {
    if chunks == [] then [] else chunks[0] + Concat(chunks[1..])
  }

  /** How reading the body ended. */
  datatype Accumulated =
    | Complete(body: seq<Byte>)   // the `'end'` event: the whole body
    | Aborted(lastChunk: nat)     // 413 sent and connection destroyed after this chunk

  lemma {:induction false} ConcatAppend(a: seq<Chunk>, b: seq<Chunk>)
    ensures Concat(a + b) == Concat(a) + Concat(b)
  {
    if a == [] {
      assert a + b == b;
    } else {
      assert (a + b)[1..] == a[1..] + b;
      ConcatAppend(a[1..], b);
    }
  }

  /** Splitting the chunk list splits the bytes, so a prefix of the chunks
      never holds more bytes than the whole. */
  lemma PrefixLength(chunks: seq<Chunk>, k: nat)
    requires k <= |chunks|
    ensures Concat(chunks) == Concat(chunks[..k]) + Concat(chunks[k..])
    ensures |Concat(chunks[..k])| <= |Concat(chunks)|
  {
    assert chunks == chunks[..k] + chunks[k..];
    ConcatAppend(chunks[..k], chunks[k..]);
  }

  lemma PushChunk(chunks: seq<Chunk>, i: nat)
    requires i < |chunks|
    ensures Concat(chunks[..i + 1]) == Concat(chunks[..i]) + chunks[i]
  {
    assert chunks[..i + 1] == chunks[..i] + [chunks[i]];
    ConcatAppend(chunks[..i], [chunks[i]]);
    assert Concat([chunks[i]]) == chunks[i] + Concat([]);
  }

  /** Reads the chunks in order. The body is complete exactly when the whole
      body fits the ceiling; otherwise reading stops at the first chunk that
      takes the running total past it, and the buffer then exceeds the ceiling
      by at most that one chunk. */
  method Accumulate(chunks: seq<Chunk>) returns (a: Accumulated)
    ensures a.Complete? <==> |Concat(chunks)| <= MaxPayloadSize
    ensures a.Complete? ==> a.body == Concat(chunks)
    ensures a.Aborted? ==> a.lastChunk < |chunks|
    ensures a.Aborted? ==> |Concat(chunks[..a.lastChunk])| <= MaxPayloadSize
                           < |Concat(chunks[..a.lastChunk + 1])|
                           <= MaxPayloadSize + |chunks[a.lastChunk]|
  {
    var body: seq<Byte> := [];
    var i := 0;
    while i < |chunks|
      invariant i <= |chunks|
      invariant body == Concat(chunks[..i])
      invariant |body| <= MaxPayloadSize
    {
      PushChunk(chunks, i);
      body := body + chunks[i];
      if |body| > MaxPayloadSize {
        PrefixLength(chunks, i + 1);
        return Aborted(i);
      }
      i := i + 1;
    }
    assert chunks[..i] == chunks;
    return Complete(body);
  }
}
