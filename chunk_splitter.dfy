/** `split_large_chunks`: every chunk whose given token count exceeds the
    limit is cut at its character midpoint; the first half is emitted as it
    is and the second half is measured again, until the remainder fits. */
module ChunkSplitter {
  import opened Text
  import opened Tokens

  /** The pieces one chunk is cut into, in order. Only the remainder is
      re-measured: the first halves are emitted without a check. */
  function Pieces(tok: Tokenizer, chunk: string, ntoken: nat, maxLen: int): (ps: seq<string>)
    requires ShortStringsFit(tok, maxLen)
    ensures ntoken <= maxLen ==> ps == [chunk]
    ensures ntoken > maxLen ==> |ps| >= 2 && Count(tok, ps[|ps| - 1]) <= maxLen
    decreases |chunk|, if ntoken > maxLen then 1 else 0
  {
    if ntoken <= maxLen then [chunk]
    else
      var half := |chunk| / 2;
      ShortFits(tok, maxLen, chunk[half..]);
      [chunk[..half]] + Pieces(tok, chunk[half..], Count(tok, chunk[half..]), maxLen)
  }

  /** The pieces of all chunks, chunk after chunk. */
  function SplitAll(tok: Tokenizer, chunks: seq<string>, ntokens: seq<nat>, maxLen: int): seq<string>
    requires |chunks| == |ntokens|
    requires ShortStringsFit(tok, maxLen)
  {
    if |chunks| == 0 then []
    else
      var n := |chunks| - 1;
      SplitAll(tok, chunks[..n], ntokens[..n], maxLen) + Pieces(tok, chunks[n], ntokens[n], maxLen)
  }

  /** `split_large_chunks(chunks, ntokens, max_len)`. The `zip` stops at the
      shorter of the two lists. */
  method SplitLargeChunks(tok: Tokenizer, chunks: seq<string>, ntokens: seq<nat>, maxLen: int)
    returns (updated: seq<string>)
    requires ShortStringsFit(tok, maxLen)
    ensures var n := if |chunks| < |ntokens| then |chunks| else |ntokens|;
      updated == SplitAll(tok, chunks[..n], ntokens[..n], maxLen)
  {
    var n := if |chunks| < |ntokens| then |chunks| else |ntokens|;
    updated := [];
    var i := 0;
    while i < n
      invariant 0 <= i <= n
      invariant updated == SplitAll(tok, chunks[..i], ntokens[..i], maxLen)
    {
      var chunk: string, ntoken: nat := chunks[i], ntokens[i];
      ghost var before := updated;
      while ntoken > maxLen
        invariant updated + Pieces(tok, chunk, ntoken, maxLen) == before + Pieces(tok, chunks[i], ntokens[i], maxLen)
        decreases |chunk|, if ntoken > maxLen then 1 else 0
      {
        var half := |chunk| / 2;
        var part1 := chunk[..half];
        var part2 := chunk[half..];
        // the source also counts the tokens of part1, and never uses them
        var part2Tokens := Count(tok, part2);
        CutStep(tok, updated, chunk, ntoken, maxLen);
        updated := updated + [part1];
        chunk := part2;
        ntoken := part2Tokens;
      }
      updated := updated + [chunk];
      SplitAllSnoc(tok, chunks, ntokens, maxLen, i);
      i := i + 1;
    }
    assert chunks[..n][..n] == chunks[..n];
  }

  /** A chunk above the limit is its first half followed by the pieces of
      the re-measured second half. */
  lemma PiecesCut(tok: Tokenizer, chunk: string, ntoken: nat, maxLen: int)
    requires ShortStringsFit(tok, maxLen) && ntoken > maxLen
    ensures var half := |chunk| / 2;
      Pieces(tok, chunk, ntoken, maxLen)
        == [chunk[..half]] + Pieces(tok, chunk[half..], Count(tok, chunk[half..]), maxLen)
  {
  }

  /** One turn of the halving loop: emitting the first half and carrying on
      with the second leaves the eventual output unchanged, and a chunk of at
      most one character is left with a count within the limit. */
  lemma CutStep(tok: Tokenizer, done: seq<string>, chunk: string, ntoken: nat, maxLen: int)
    requires ShortStringsFit(tok, maxLen) && ntoken > maxLen
    ensures var half := |chunk| / 2;
      (done + [chunk[..half]]) + Pieces(tok, chunk[half..], Count(tok, chunk[half..]), maxLen)
        == done + Pieces(tok, chunk, ntoken, maxLen)
    ensures |chunk| <= 1 ==> Count(tok, chunk[|chunk| / 2..]) <= maxLen
  {
    PiecesCut(tok, chunk, ntoken, maxLen);
    ShortFits(tok, maxLen, chunk[|chunk| / 2..]);
  }

  /** One more chunk adds its pieces at the end. */
  lemma SplitAllSnoc(tok: Tokenizer, chunks: seq<string>, ntokens: seq<nat>, maxLen: int, i: nat)
    requires ShortStringsFit(tok, maxLen)
    requires i < |chunks| && i < |ntokens|
    ensures SplitAll(tok, chunks[..i + 1], ntokens[..i + 1], maxLen)
      == SplitAll(tok, chunks[..i], ntokens[..i], maxLen) + Pieces(tok, chunks[i], ntokens[i], maxLen)
  {
    assert chunks[..i + 1][..i] == chunks[..i] && ntokens[..i + 1][..i] == ntokens[..i];
  }

  /** Splitting loses nothing: the pieces of a chunk concatenate back to it. */
  lemma {:induction false} PiecesConcat(tok: Tokenizer, chunk: string, ntoken: nat, maxLen: int)
    requires ShortStringsFit(tok, maxLen)
    ensures Concat(Pieces(tok, chunk, ntoken, maxLen)) == chunk
    decreases |chunk|, if ntoken > maxLen then 1 else 0
  {
    if ntoken > maxLen {
      var half := |chunk| / 2;
      var rest := Pieces(tok, chunk[half..], Count(tok, chunk[half..]), maxLen);
      PiecesConcat(tok, chunk[half..], Count(tok, chunk[half..]), maxLen);
      assert ([chunk[..half]] + rest)[1..] == rest;
      assert chunk == chunk[..half] + chunk[half..];
    }
  }

  /** Every piece but the last is the first half, rounded down, of the text
      that was still unsplit when it was cut. */
  lemma {:induction false} PieceIsHalf(tok: Tokenizer, chunk: string, ntoken: nat, maxLen: int, k: nat)
    requires ShortStringsFit(tok, maxLen)
    requires k < |Pieces(tok, chunk, ntoken, maxLen)| - 1
    ensures var ps := Pieces(tok, chunk, ntoken, maxLen);
      |ps[k]| == |Concat(ps[k..])| / 2
    decreases |chunk|, if ntoken > maxLen then 1 else 0
  {
    var ps := Pieces(tok, chunk, ntoken, maxLen);
    var half := |chunk| / 2;
    var rest := Pieces(tok, chunk[half..], Count(tok, chunk[half..]), maxLen);
    assert ps == [chunk[..half]] + rest;
    if k == 0 {
      PiecesConcat(tok, chunk, ntoken, maxLen);
      assert ps[0..] == ps;
    } else {
      PieceIsHalf(tok, chunk[half..], Count(tok, chunk[half..]), maxLen, k - 1);
      assert ps[k] == rest[k - 1];
      assert ps[k..] == rest[k - 1..];
    }
  }

  /** Cutting stops at the first remainder that fits: the chunk is cut only
      when its given count is over the limit, and every later remainder that
      is cut again was re-measured over the limit. With the last piece within
      the limit, the pieces are exactly the cuts the loop makes. */
  lemma {:induction false} PiecesStopsAtFirstFit(tok: Tokenizer, chunk: string, ntoken: nat, maxLen: int, k: nat)
    requires ShortStringsFit(tok, maxLen)
    requires k < |Pieces(tok, chunk, ntoken, maxLen)| - 1
    ensures k == 0 ==> ntoken > maxLen
    ensures k > 0 ==> Count(tok, Concat(Pieces(tok, chunk, ntoken, maxLen)[k..])) > maxLen
    decreases |chunk|, if ntoken > maxLen then 1 else 0
  {
    var ps := Pieces(tok, chunk, ntoken, maxLen);
    var half := |chunk| / 2;
    var rest := Pieces(tok, chunk[half..], Count(tok, chunk[half..]), maxLen);
    assert ps == [chunk[..half]] + rest;
    if k > 0 {
      assert ps[k..] == rest[k - 1..];
      if k == 1 {
        PiecesConcat(tok, chunk[half..], Count(tok, chunk[half..]), maxLen);
        assert rest[0..] == rest;
      } else {
        PiecesStopsAtFirstFit(tok, chunk[half..], Count(tok, chunk[half..]), maxLen, k - 1);
      }
    }
  }

  /** All the pieces of all the chunks concatenate to the chunks' own
      concatenation. */
  lemma {:induction false} SplitAllConcat(tok: Tokenizer, chunks: seq<string>, ntokens: seq<nat>, maxLen: int)
    requires |chunks| == |ntokens|
    requires ShortStringsFit(tok, maxLen)
    ensures Concat(SplitAll(tok, chunks, ntokens, maxLen)) == Concat(chunks)
  {
    if |chunks| > 0 {
      var n := |chunks| - 1;
      SplitAllConcat(tok, chunks[..n], ntokens[..n], maxLen);
      PiecesConcat(tok, chunks[n], ntokens[n], maxLen);
      ConcatAppend(SplitAll(tok, chunks[..n], ntokens[..n], maxLen), Pieces(tok, chunks[n], ntokens[n], maxLen));
      ConcatAppend(chunks[..n], [chunks[n]]);
      assert chunks == chunks[..n] + [chunks[n]];
    }
  }

  /** When every given count is within the limit, nothing is split. */
  lemma {:induction false} SplitAllNoSplit(tok: Tokenizer, chunks: seq<string>, ntokens: seq<nat>, maxLen: int)
    requires |chunks| == |ntokens|
    requires ShortStringsFit(tok, maxLen)
    requires forall i :: 0 <= i < |ntokens| ==> ntokens[i] <= maxLen
    ensures SplitAll(tok, chunks, ntokens, maxLen) == chunks
  {
    if |chunks| > 0 {
      var n := |chunks| - 1;
      var init, ninit := chunks[..n], ntokens[..n];
      assert forall i :: 0 <= i < |ninit| ==> ninit[i] <= maxLen;
      SplitAllNoSplit(tok, init, ninit, maxLen);
      assert SplitAll(tok, chunks, ntokens, maxLen) == init + Pieces(tok, chunks[n], ntokens[n], maxLen);
      assert chunks == init + [chunks[n]];
    }
  }

  /** The first halves are not measured, so a unit above the limit can come
      out: with one token per character and a limit of 1, "abcd" is cut into
      "ab", "c" and "d", and "ab" has two tokens. */
  lemma FirstHalfUnchecked()
    ensures ShortStringsFit(CharTokenizer(), 1)
    ensures Pieces(CharTokenizer(), "abcd", 4, 1) == ["ab", "c", "d"]
    ensures Count(CharTokenizer(), "ab") > 1
  {
    var tok := CharTokenizer();
    CharTokenizerCounts(1);
    var abcd: string := "abcd";
    var cd: string := abcd[2..];
    var d: string := cd[1..];
    assert cd == "cd" && d == "d" && abcd[..2] == "ab" && cd[..1] == "c";
    assert Pieces(tok, d, 1, 1) == [d];
    PiecesCut(tok, cd, 2, 1);
    PiecesCut(tok, abcd, 4, 1);
  }
}
