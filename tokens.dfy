/** The GPT-2 tokenizer, seen only through `encode` and `decode`. Nothing is
    assumed about how the two relate: in particular decoding an encoding is
    not assumed to give the text back. */
module Tokens {
  import opened Base

  datatype Tokenizer = Tokenizer(encode: string -> seq<int>, decode: seq<int> -> string)

  /** `len(tokenizer.encode(s))`. */
  function Count(tok: Tokenizer, s: string): nat
  {
    |tok.encode(s)|
  }

  /** `[len(tokenizer.encode(c)) for c in xs]`. */
  function Counts(tok: Tokenizer, xs: seq<string>): (ns: seq<nat>)
    ensures |ns| == |xs|
    ensures forall i :: 0 <= i < |xs| ==> ns[i] == Count(tok, xs[i])
  {
    seq(|xs|, i requires 0 <= i < |xs| => Count(tok, xs[i]))
  }

  /** Every string of at most one character fits in `maxLen` tokens. The
      halving loop of the chunk splitter only ends under this condition: a
      one-character chunk cannot be cut any further. */
  ghost predicate ShortStringsFit(tok: Tokenizer, maxLen: int)
  {
    Count(tok, "") <= maxLen && forall c: char :: Count(tok, [c]) <= maxLen
  }

  /** Under `ShortStringsFit`, any string of at most one character fits. */
  lemma ShortFits(tok: Tokenizer, maxLen: int, s: string)
    requires ShortStringsFit(tok, maxLen)
    ensures |s| <= 1 ==> Count(tok, s) <= maxLen
  {
    if |s| == 1 {
      assert s == [s[0]];
    }
  }

  /** `tokenizer.decode(tokenizer.encode(prev)[-overlapLen:])`: the text of
      the last `overlapLen` tokens of `prev`. */
  function OverlapText(tok: Tokenizer, prev: string, overlapLen: int): string
  {
    tok.decode(PyTail(tok.encode(prev), overlapLen))
  }

  /** The token counts of a list grow by the count of the string appended. */
  lemma SumCountsSnoc(tok: Tokenizer, xs: seq<string>, x: string)
    ensures Sum(Counts(tok, xs + [x])) == Sum(Counts(tok, xs)) + Count(tok, x)
  {
    assert Counts(tok, xs + [x]) == Counts(tok, xs) + [Count(tok, x)];
    SumSnoc(Counts(tok, xs), Count(tok, x));
  }

  /** The texts of a prefix hold no more tokens than the whole list. */
  lemma SumCountsPrefix(tok: Tokenizer, xs: seq<string>, k: nat)
    requires k <= |xs|
    ensures Sum(Counts(tok, xs[..k])) <= Sum(Counts(tok, xs))
  {
    assert Counts(tok, xs[..k]) == Counts(tok, xs)[..k];
    SumPrefix(Counts(tok, xs), k);
  }

  /** A tokenizer that gives every character one token. */
  function CharTokenizer(): Tokenizer
  {
    Tokenizer(s => seq(|s|, _ => 0), ts => "")
  }

  /** With one token per character a string has as many tokens as
      characters, so every limit of at least 1 admits single characters. */
  lemma CharTokenizerCounts(maxLen: int)
    requires maxLen >= 1
    ensures forall s :: Count(CharTokenizer(), s) == |s|
    ensures ShortStringsFit(CharTokenizer(), maxLen)
  {
  }
}
