/** What `stream_media` is asked for and what it may deliver: a part's request in
    whole 1 MiB chunks, a delivery as a finite list of byte chunks, and the delivery
    an honest server makes from the file's contents. */
module Stream {
  import opened FileSystem
  import opened Config

  /** How one pass over the stream ends. `StopSeen`: the stop flag was found set
      before a chunk, which breaks out of the stream. */
  datatype StreamEnd = Exhausted | StopSeen | FloodWait(seconds: nat) | Raised

  /** One attempt of a part worker: whether a stop was requested before it began,
      the chunks the stream delivered (each appended to the part file), and how the
      stream ended. */
  datatype Attempt = Attempt(stopBefore: bool, chunks: seq<Bytes>, end: StreamEnd)

  function Flatten(chunks: seq<Bytes>): (r: Bytes)
  {
    if |chunks| == 0 then [] else chunks[0] + Flatten(chunks[1..])
  }

  lemma FlattenSingle(x: Bytes)
    ensures Flatten([x]) == x
  {
    assert [x][1..] == [];
  }

  predicate IsPrefix<T(==)>(a: seq<T>, b: seq<T>) {
    |a| <= |b| && a == b[..|a|]
  }

  lemma {:induction false} FlattenAppend(a: seq<Bytes>, b: seq<Bytes>)
    ensures Flatten(a + b) == Flatten(a) + Flatten(b)
  {
    if |a| > 0 {
      assert (a + b)[1..] == a[1..] + b;
      FlattenAppend(a[1..], b);
    } else {
      assert a + b == b;
    }
  }

  /** Fewer chunks deliver a prefix of the bytes. */
  lemma FlattenPrefix(chunks: seq<Bytes>, d: nat)
    requires d <= |chunks|
    ensures IsPrefix(Flatten(chunks[..d]), Flatten(chunks))
  {
    assert chunks == chunks[..d] + chunks[d..];
    FlattenAppend(chunks[..d], chunks[d..]);
  }

  /** The `stream_media(offset=first, limit=count)` request for a part whose download
      resumes at `currentOffset`: the chunk holding that byte, and enough whole
      chunks to reach the part's last byte. */
  function ChunkRequest(currentOffset: int, endOffset: int): (r: (int, nat))
    requires currentOffset <= endOffset
    ensures r.0 * CHUNK_SIZE <= currentOffset < (r.0 + 1) * CHUNK_SIZE
    ensures (r.1 - 1) * CHUNK_SIZE < endOffset - currentOffset + 1 <= r.1 * CHUNK_SIZE
  {
    var needed := endOffset - currentOffset + 1;
    (currentOffset / CHUNK_SIZE, (needed + CHUNK_SIZE - 1) / CHUNK_SIZE)
  }

  function Min(a: int, b: int): int {
    if a <= b then a else b
  }

  /** The chunks an honest server streams from `content`: chunk `first`, `first + 1`, ...,
      at most `limit` of them, the last one cut at the end of the file. */
  function HonestStream(content: Bytes, first: nat, limit: nat): seq<Bytes>
    decreases limit
  {
    if limit == 0 || first * CHUNK_SIZE >= |content| then []
    else [content[first * CHUNK_SIZE .. Min((first + 1) * CHUNK_SIZE, |content|)]]
         + HonestStream(content, first + 1, limit - 1)
  }

  /** An honest stream delivers the file's bytes from the first requested chunk on,
      up to the requested count of chunks or the end of the file. */
  lemma {:induction false} HonestStreamBytes(content: Bytes, first: nat, limit: nat)
    requires first * CHUNK_SIZE <= |content|
    ensures Flatten(HonestStream(content, first, limit))
         == content[first * CHUNK_SIZE .. Min((first + limit) * CHUNK_SIZE, |content|)]
    decreases limit
  {
    var lo := first * CHUNK_SIZE;
    if limit == 0 || lo >= |content| {
    } else {
      var mid := Min((first + 1) * CHUNK_SIZE, |content|);
      var hs := HonestStream(content, first, limit);
      assert hs[0] == content[lo..mid] && hs[1..] == HonestStream(content, first + 1, limit - 1);
      var hi := Min((first + limit) * CHUNK_SIZE, |content|);
      if (first + 1) * CHUNK_SIZE >= |content| {
        assert hs[1..] == [] && mid == hi == |content|;
        assert hs == [content[lo..mid]];
      } else {
        HonestStreamBytes(content, first + 1, limit - 1);
        assert Min((first + 1 + (limit - 1)) * CHUNK_SIZE, |content|) == hi;
        assert content[lo..mid] + content[mid..hi] == content[lo..hi];
      }
    }
  }

  /** Every attempt delivered the start of what an honest server streams for the
      request (first, limit), then stopped or failed. */
  predicate HonestAttempts(content: Bytes, first: nat, limit: nat, attempts: seq<Attempt>) {
    forall k :: 0 <= k < |attempts| ==> IsPrefix(attempts[k].chunks, HonestStream(content, first, limit))
  }

  /** What an honest attempt delivers is the file's bytes from the first requested chunk on. */
  lemma HonestAttemptBytes(content: Bytes, first: nat, limit: nat, chunks: seq<Bytes>)
    requires first * CHUNK_SIZE <= |content|
    requires IsPrefix(chunks, HonestStream(content, first, limit))
    ensures IsPrefix(Flatten(chunks), content[first * CHUNK_SIZE..])
  {
    var hs := HonestStream(content, first, limit);
    FlattenPrefix(hs, |chunks|);
    HonestStreamBytes(content, first, limit);
  }

  /** Every attempt delivered a prefix of the file's bytes from offset `lo` on. */
  predicate Delivers(content: Bytes, lo: nat, attempts: seq<Attempt>) {
    lo <= |content| && forall k :: 0 <= k < |attempts| ==> IsPrefix(Flatten(attempts[k].chunks), content[lo..])
  }

  /** Honest attempts deliver the file's bytes from the first requested chunk on. */
  lemma HonestAttemptsDeliver(content: Bytes, first: nat, limit: nat, attempts: seq<Attempt>)
    requires first * CHUNK_SIZE <= |content|
    requires HonestAttempts(content, first, limit, attempts)
    ensures Delivers(content, first * CHUNK_SIZE, attempts)
  {
    forall k | 0 <= k < |attempts| ensures IsPrefix(Flatten(attempts[k].chunks), content[first * CHUNK_SIZE..]) {
      HonestAttemptBytes(content, first, limit, attempts[k].chunks);
    }
  }
}
