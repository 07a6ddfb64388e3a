/** Splitting the displayed text into pieces that fit one chat message. */
module Chunking {

  /** The longest piece the bridge puts into one message. */
  const CHUNK_SIZE: nat := 1900

  /** The pieces laid end to end. */
  function Concat(parts: seq<string>): string
  {
    if parts == [] then "" else parts[0] + Concat(parts[1..])
  }

  /** The chunks of a text: consecutive pieces of exactly `CHUNK_SIZE`
      characters and a last, possibly shorter, piece; the empty text gives
      one empty chunk. */
  function Chunks(s: string): (r: seq<string>)
    ensures |r| >= 1
    ensures r[0] == s[..if |s| <= CHUNK_SIZE then |s| else CHUNK_SIZE]
    decreases |s|
  {
    if |s| <= CHUNK_SIZE then [s] else [s[..CHUNK_SIZE]] + Chunks(s[CHUNK_SIZE..])
  }

  /** Laid end to end, the chunks give the text back. */
  lemma {:induction false} ChunksConcat(s: string)
    ensures Concat(Chunks(s)) == s
    decreases |s|
  {
    if |s| <= CHUNK_SIZE {
      assert Concat([s]) == s + Concat([]);
    } else {
      var r := Chunks(s);
      ChunksConcat(s[CHUNK_SIZE..]);
      assert r[1..] == Chunks(s[CHUNK_SIZE..]);
      assert s == s[..CHUNK_SIZE] + s[CHUNK_SIZE..];
    }
  }

  /** Every chunk fits a message, and every chunk but the last is full. */
  lemma {:induction false} ChunksSizes(s: string)
    ensures forall k :: 0 <= k < |Chunks(s)| ==> |Chunks(s)[k]| <= CHUNK_SIZE
    ensures forall k :: 0 <= k < |Chunks(s)| - 1 ==> |Chunks(s)[k]| == CHUNK_SIZE
    decreases |s|
  {
    if |s| > CHUNK_SIZE {
      var r := Chunks(s);
      var rest := Chunks(s[CHUNK_SIZE..]);
      ChunksSizes(s[CHUNK_SIZE..]);
      assert r == [s[..CHUNK_SIZE]] + rest;
      forall k | 1 <= k < |r| ensures r[k] == rest[k - 1] { }
    }
  }

  /** There are max(1, ceil(|s| / CHUNK_SIZE)) chunks. */
  lemma {:induction false} ChunksCount(s: string)
    ensures |Chunks(s)| == if s == [] then 1 else (|s| + CHUNK_SIZE - 1) / CHUNK_SIZE
    decreases |s|
  {
    if |s| > CHUNK_SIZE {
      ChunksCount(s[CHUNK_SIZE..]);
    }
  }

  /** A chunk of a non-empty text is never empty. */
  lemma {:induction false} ChunksOfNonEmptyText(s: string)
    requires s != []
    ensures forall k :: 0 <= k < |Chunks(s)| ==> Chunks(s)[k] != []
    decreases |s|
  {
    if |s| > CHUNK_SIZE {
      ChunksOfNonEmptyText(s[CHUNK_SIZE..]);
      var rest := Chunks(s[CHUNK_SIZE..]);
      assert Chunks(s) == [s[..CHUNK_SIZE]] + rest;
      forall k | 0 <= k < |Chunks(s)| ensures Chunks(s)[k] != [] {
        if k > 0 { assert Chunks(s)[k] == rest[k - 1]; }
      }
    }
  }

  /** The other direction of the round trip: pieces cut the way `Chunks`
      cuts are what `Chunks` returns for their concatenation. */
  lemma {:induction false} ChunksOfConcat(parts: seq<string>)
    requires |parts| >= 1
    requires forall k :: 0 <= k < |parts| - 1 ==> |parts[k]| == CHUNK_SIZE
    requires |parts[|parts| - 1]| <= CHUNK_SIZE
    requires |parts| > 1 ==> parts[|parts| - 1] != []
    ensures Chunks(Concat(parts)) == parts
    decreases |parts|
  {
    if |parts| == 1 {
      assert Concat(parts) == parts[0] + Concat([]);
      assert parts[0] + "" == parts[0];
      assert [parts[0]] == parts;
    } else {
      var s := Concat(parts);
      var tail := parts[1..];
      assert s == parts[0] + Concat(tail);
      assert |Concat(tail)| > 0 by {
        ConcatLength(tail);
      }
      assert s[..CHUNK_SIZE] == parts[0];
      assert s[CHUNK_SIZE..] == Concat(tail);
      ChunksOfConcat(tail);
      assert [parts[0]] + tail == parts;
    }
  }

  /** The concatenation is at least as long as its last piece. */
  lemma {:induction false} ConcatLength(parts: seq<string>)
    requires |parts| >= 1
    ensures |Concat(parts)| >= |parts[|parts| - 1]|
    decreases |parts|
  {
    if |parts| > 1 {
      ConcatLength(parts[1..]);
    }
  }

  /** The chunks of the suffix from a chunk boundary `i` inside the text. */
  lemma ChunksFrom(s: string, i: nat)
    requires i < |s|
    ensures |s| - i <= CHUNK_SIZE ==> Chunks(s[i..]) == [s[i..]]
    ensures |s| - i > CHUNK_SIZE ==> Chunks(s[i..]) == [s[i..i + CHUNK_SIZE]] + Chunks(s[i + CHUNK_SIZE..])
  {
    if |s| - i > CHUNK_SIZE {
      assert s[i..][..CHUNK_SIZE] == s[i..i + CHUNK_SIZE];
      assert s[i..][CHUNK_SIZE..] == s[i + CHUNK_SIZE..];
    }
  }

  /** The source's index loop: one `substring(i, i + CHUNK_SIZE)` per step
      of `CHUNK_SIZE`, and a single chunk holding the whole text when the
      loop produced none. */
  method SplitChunks(fullText: string) returns (chunks: seq<string>)
    ensures chunks == Chunks(fullText)
  {
    chunks := [];
    var i := 0;
    while i < |fullText|
      invariant 0 <= i
      invariant fullText == [] ==> chunks == []
      invariant i < |fullText| ==> chunks + Chunks(fullText[i..]) == Chunks(fullText)
      invariant fullText != [] && i >= |fullText| ==> chunks == Chunks(fullText)
      decreases |fullText| - i
    {
      var end := if i + CHUNK_SIZE <= |fullText| then i + CHUNK_SIZE else |fullText|;
      ChunksFrom(fullText, i);
      var piece := fullText[i..end];
      ghost var before := chunks;
      chunks := chunks + [piece];
      if |fullText| - i <= CHUNK_SIZE {
        assert piece == fullText[i..];
        assert chunks == before + Chunks(fullText[i..]);
      } else {
        assert Chunks(fullText[i..]) == [piece] + Chunks(fullText[end..]);
        assert chunks + Chunks(fullText[end..]) == before + Chunks(fullText[i..]);
      }
      i := i + CHUNK_SIZE;
    }
    if |chunks| == 0 {
      chunks := chunks + [fullText];
    }
  }
}
