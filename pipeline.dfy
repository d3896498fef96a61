/** The `/translate` request once the document has been downloaded: split the
    text into paragraphs, cut paragraphs over the hard limit, pack the pieces
    into overlapping batches, keep the first `num_pages` batches, translate
    them one by one (stopping at the first failure) while counting tokens,
    join the translations and price the tokens. */
module Pipeline {
  import opened Base
  import opened Text
  import opened Tokens
  import opened ChunkSplitter
  import opened OverlapStitcher
  import opened TranslationClient
  import opened Pricing

  const DefaultMaxLen: int := 1000
  const DefaultHardMaxLen: int := 1000
  const DefaultModel: string := "gpt-4"
  /** `translate()` never passes `overlap_len`, so the default applies. */
  const OverlapLen: int := 100

  /** The request fields that drive the pipeline; an absent field is `None`. */
  datatype Request = Request(
    maxLen: Option<int>,
    hardMaxLen: Option<int>,
    destLanguage: Option<string>,
    model: Option<string>,
    numPages: Option<int>)

  /** `request_data.get(key, default)`. */
  function Get<T>(field: Option<T>, default: T): (v: T)
    ensures field.Some? ==> v == field.value
    ensures field.None? ==> v == default
  {
    match field
    case Some(x) => x
    case None => default
  }

  function MaxLenOf(req: Request): int { Get(req.maxLen, DefaultMaxLen) }
  function HardMaxLenOf(req: Request): int { Get(req.hardMaxLen, DefaultHardMaxLen) }
  function ModelOf(req: Request): string { Get(req.model, DefaultModel) }

  /** What a translation run has produced so far. */
  datatype Ledger = Ledger(translated: seq<string>, inputTokens: nat, outputTokens: nat)

  /** The successful response: the joined translation, the token totals and
      the cost. */
  datatype Outcome = Outcome(text: string, inputTokens: nat, outputTokens: nat, cost: real)

  /** The 500 response `Translation failed for chunk <n>` (`n` counts from 1). */
  datatype Failure = TranslationFailed(chunk: nat)

  /** `overlapping_chunks[:num_pages]` when `num_pages` is given. */
  function Cap(batches: seq<string>, numPages: Option<int>): (r: seq<string>)
    ensures |r| <= |batches| && r == batches[..|r|]
    ensures numPages.None? ==> r == batches
    ensures numPages.Some? && numPages.value >= 0 ==> |r| == (if numPages.value < |batches| then numPages.value else |batches|)
    ensures numPages.Some? && numPages.value < 0 ==> |r| == (if -numPages.value < |batches| then |batches| + numPages.value else 0)
  {
    if numPages.Some? then PyPrefix(batches, numPages.value) else batches
  }

  /** A cap at or above the number of batches keeps them all. */
  lemma CapNoop(batches: seq<string>, numPages: int)
    requires numPages >= |batches|
    ensures Cap(batches, Some(numPages)) == batches
  {
    var r := Cap(batches, Some(numPages));
    assert |r| == |batches|;
  }

  /** The batches of `text` the request translates. */
  function Batches(tok: Tokenizer, text: string, req: Request): seq<string>
    requires ShortStringsFit(tok, HardMaxLenOf(req))
  {
    var paragraphs := Split(text, ParagraphBreak);
    var units := SplitAll(tok, paragraphs, Counts(tok, paragraphs), HardMaxLenOf(req));
    Cap(Stitch(tok, units, Counts(tok, units), MaxLenOf(req), OverlapLen), req.numPages)
  }

  /** The translation of each batch, as the service returns it after
      post-processing (empty where the service fails). */
  function Translations(tok: Tokenizer, api: Api, batches: seq<string>, model: string, lang: Option<string>): (ts: seq<string>)
    ensures |ts| == |batches|
    ensures forall i :: 0 <= i < |batches| && TranslateChunk(tok, api, batches[i], model, lang).Some? ==>
      ts[i] == TranslateChunk(tok, api, batches[i], model, lang).value.0
  {
    seq(|batches|, i requires 0 <= i < |batches| =>
      match TranslateChunk(tok, api, batches[i], model, lang)
      case Some(reply) => reply.0
      case None => "")
  }

  /** The first `n` batches are all translated. */
  predicate TranslatesUpTo(tok: Tokenizer, api: Api, batches: seq<string>, model: string, lang: Option<string>, n: nat)
    requires n <= |batches|
  {
    forall j :: 0 <= j < n ==> TranslateChunk(tok, api, batches[j], model, lang).Some?
  }

  /** Every batch is translated. */
  predicate AllTranslate(tok: Tokenizer, api: Api, batches: seq<string>, model: string, lang: Option<string>)
  {
    TranslatesUpTo(tok, api, batches, model, lang, |batches|)
  }

  /** Batch `n - 1` is the first whose translation fails. */
  predicate FirstFailure(tok: Tokenizer, api: Api, batches: seq<string>, model: string, lang: Option<string>, n: nat)
  {
    && 1 <= n <= |batches|
    && TranslateChunk(tok, api, batches[n - 1], model, lang).None?
    && TranslatesUpTo(tok, api, batches, model, lang, n - 1)
  }

  /** The translation loop of `translate()`: each batch in order is counted
      and translated; the first failure ends the run and names its batch,
      counting from 1. */
  method RunTranslations(tok: Tokenizer, api: Api, batches: seq<string>, model: string, lang: Option<string>)
    returns (r: Result<Ledger, nat>)
    ensures r.Ok? <==> AllTranslate(tok, api, batches, model, lang)
    ensures r.Err? ==> FirstFailure(tok, api, batches, model, lang, r.error)
    ensures r.Ok? ==> r.value.translated == Translations(tok, api, batches, model, lang)
    ensures r.Ok? ==> r.value.inputTokens == Sum(Counts(tok, batches))
    ensures r.Ok? ==> r.value.outputTokens == Sum(Counts(tok, r.value.translated))
  {
    var translated: seq<string> := [];
    var inputTokens: nat := 0;
    var outputTokens: nat := 0;
    var i := 0;
    while i < |batches|
      invariant 0 <= i <= |batches|
      invariant TranslatesUpTo(tok, api, batches, model, lang, i)
      invariant |translated| == i
      invariant translated == Translations(tok, api, batches, model, lang)[..i]
      invariant inputTokens == Sum(Counts(tok, batches[..i]))
      invariant outputTokens == Sum(Counts(tok, translated))
    {
      var chunk := batches[i];
      var promptTokens := Count(tok, chunk);
      var reply := TranslateChunk(tok, api, chunk, model, lang);
      if reply.None? {
        return Err(i + 1);
      }
      var (text, responseTokens) := reply.value;
      TranslatesStep(tok, api, batches, model, lang, i);
      TranslationsStep(tok, api, batches, model, lang, i);
      InputStep(tok, batches, i);
      SumCountsSnoc(tok, translated, text);
      translated := translated + [text];
      inputTokens := inputTokens + promptTokens;
      outputTokens := outputTokens + responseTokens;
      i := i + 1;
    }
    assert batches[..i] == batches;
    assert Translations(tok, api, batches, model, lang)[..i] == Translations(tok, api, batches, model, lang);
    return Ok(Ledger(translated, inputTokens, outputTokens));
  }

  /** One more translated batch extends the translations by its text. */
  lemma TranslationsStep(tok: Tokenizer, api: Api, batches: seq<string>, model: string, lang: Option<string>, i: nat)
    requires i < |batches| && TranslateChunk(tok, api, batches[i], model, lang).Some?
    ensures Translations(tok, api, batches, model, lang)[..i + 1]
      == Translations(tok, api, batches, model, lang)[..i] + [TranslateChunk(tok, api, batches[i], model, lang).value.0]
  {
    var all := Translations(tok, api, batches, model, lang);
    assert all[..i + 1] == all[..i] + [all[i]];
  }

  /** One more translated batch extends the run of translated batches. */
  lemma TranslatesStep(tok: Tokenizer, api: Api, batches: seq<string>, model: string, lang: Option<string>, i: nat)
    requires i < |batches| && TranslateChunk(tok, api, batches[i], model, lang).Some?
    requires TranslatesUpTo(tok, api, batches, model, lang, i)
    ensures TranslatesUpTo(tok, api, batches, model, lang, i + 1)
  {
  }

  /** One more batch adds its count to the input total. */
  lemma InputStep(tok: Tokenizer, batches: seq<string>, i: nat)
    requires i < |batches|
    ensures Sum(Counts(tok, batches[..i + 1])) == Sum(Counts(tok, batches[..i])) + Count(tok, batches[i])
  {
    assert batches[..i + 1] == batches[..i] + [batches[i]];
    SumCountsSnoc(tok, batches[..i], batches[i]);
  }

  /** The `/translate` handler from the downloaded text on. It needs every
      string of at most one character to fit in the hard limit; otherwise
      the chunk splitter never stops. */
  method Translate(tok: Tokenizer, api: Api, prices: map<string, real>, text: string, req: Request)
    returns (r: Result<Outcome, Failure>)
    requires ShortStringsFit(tok, HardMaxLenOf(req))
    ensures var batches, model := Batches(tok, text, req), ModelOf(req);
      && (r.Ok? <==> AllTranslate(tok, api, batches, model, req.destLanguage))
      && (r.Err? ==> FirstFailure(tok, api, batches, model, req.destLanguage, r.error.chunk))
      && (r.Ok? ==>
            var translated := Translations(tok, api, batches, model, req.destLanguage);
            && r.value.text == Join(translated, ParagraphBreak)
            && r.value.inputTokens == Sum(Counts(tok, batches))
            && r.value.outputTokens == Sum(Counts(tok, translated))
            && r.value.cost == TotalCost(prices, model, r.value.inputTokens, r.value.outputTokens))
  {
    var maxLen := Get(req.maxLen, DefaultMaxLen);
    var hardMaxLen := Get(req.hardMaxLen, DefaultHardMaxLen);
    var model := Get(req.model, DefaultModel);

    var chunks := Split(text, ParagraphBreak);
    var ntokens := Counts(tok, chunks);
    ghost var paragraphs := chunks;
    chunks := SplitLargeChunks(tok, chunks, ntokens, hardMaxLen);
    assert paragraphs[..|paragraphs|] == paragraphs && ntokens[..|ntokens|] == ntokens;
    ghost var units := SplitAll(tok, paragraphs, Counts(tok, paragraphs), HardMaxLenOf(req));
    assert chunks == units;
    ntokens := Counts(tok, chunks);
    var batches := CreateOverlappingChunks(tok, chunks, ntokens, maxLen, OverlapLen);
    assert chunks[..|chunks|] == chunks && ntokens[..|ntokens|] == ntokens;
    assert batches == Stitch(tok, units, Counts(tok, units), MaxLenOf(req), OverlapLen);
    if req.numPages.Some? {
      batches := PyPrefix(batches, req.numPages.value);
    }
    assert batches == Batches(tok, text, req);

    var run := RunTranslations(tok, api, batches, model, req.destLanguage);
    if run.Err? {
      return Err(TranslationFailed(run.error));
    }
    var ledger := run.value;
    var result := Join(ledger.translated, ParagraphBreak);
    var cost := TotalCost(prices, model, ledger.inputTokens, ledger.outputTokens);
    return Ok(Outcome(result, ledger.inputTokens, ledger.outputTokens, cost));
  }

  /** Translating fewer pages never costs more: with a smaller cap the
      batches are a prefix, every batch of the longer run that translates
      still does, and both token totals and the cost can only drop. */
  lemma FewerPagesCostNoMore(tok: Tokenizer, api: Api, prices: map<string, real>, model: string, lang: Option<string>,
                             all: seq<string>, fewer: int, more: int)
    requires 0 <= fewer <= more
    requires NonNegativePrices(prices)
    ensures var b1, b2 := Cap(all, Some(fewer)), Cap(all, Some(more));
      var t1, t2 := Translations(tok, api, b1, model, lang), Translations(tok, api, b2, model, lang);
      && b1 == b2[..|b1|]
      && (AllTranslate(tok, api, b2, model, lang) ==> AllTranslate(tok, api, b1, model, lang))
      && Sum(Counts(tok, b1)) <= Sum(Counts(tok, b2))
      && Sum(Counts(tok, t1)) <= Sum(Counts(tok, t2))
      && TotalCost(prices, model, Sum(Counts(tok, b1)), Sum(Counts(tok, t1)))
         <= TotalCost(prices, model, Sum(Counts(tok, b2)), Sum(Counts(tok, t2)))
  {
    var b1, b2 := Cap(all, Some(fewer)), Cap(all, Some(more));
    var k := |b1|;
    assert b1 == b2[..k];
    var t1, t2 := Translations(tok, api, b1, model, lang), Translations(tok, api, b2, model, lang);
    TranslationsPrefix(tok, api, b2, model, lang, k);
    SumCountsPrefix(tok, b2, k);
    SumCountsPrefix(tok, t2, k);
    CostMonotone(prices, model, Sum(Counts(tok, b1)), Sum(Counts(tok, t1)), Sum(Counts(tok, b2)), Sum(Counts(tok, t2)));
  }

  /** The batches of a prefix translate as before. */
  lemma TranslationsPrefix(tok: Tokenizer, api: Api, batches: seq<string>, model: string, lang: Option<string>, k: nat)
    requires k <= |batches|
    ensures Translations(tok, api, batches[..k], model, lang) == Translations(tok, api, batches, model, lang)[..k]
    ensures AllTranslate(tok, api, batches, model, lang) ==> AllTranslate(tok, api, batches[..k], model, lang)
  {
  }

  /** With one token per character, three short paragraphs under the
      default limits end up in a single batch, and that batch starts with
      a paragraph break. */
  lemma ThreeParagraphsOneBatch()
    ensures ShortStringsFit(CharTokenizer(), DefaultHardMaxLen)
    ensures Batches(CharTokenizer(), "A\n\nB\n\nC", Request(None, None, None, None, None)) == ["\n\nA\n\nB\n\nC"]
  {
    var tok := CharTokenizer();
    var paragraphs := ["A", "B", "C"];
    CharTokenizerCounts(DefaultHardMaxLen);
    SplitThreeParagraphs();
    ThreeUnitsUncut(tok, paragraphs);
    StitchThreeUnits(tok, paragraphs);
  }

  /** Three one-character paragraphs are each one token and none is cut. */
  lemma ThreeUnitsUncut(tok: Tokenizer, paragraphs: seq<string>)
    requires tok == CharTokenizer() && paragraphs == ["A", "B", "C"]
    ensures Counts(tok, paragraphs) == [1, 1, 1]
    ensures SplitAll(tok, paragraphs, Counts(tok, paragraphs), DefaultHardMaxLen) == paragraphs
  {
    CharTokenizerCounts(DefaultHardMaxLen);
    assert Counts(tok, paragraphs) == [1, 1, 1];
    SplitAllNoSplit(tok, paragraphs, [1, 1, 1], DefaultHardMaxLen);
  }

  /** The text splits into its three paragraphs at the paragraph breaks. */
  lemma SplitThreeParagraphs()
    ensures Split("A\n\nB\n\nC", ParagraphBreak) == ["A", "B", "C"]
  {
    var sep := ParagraphBreak;
    var c, nc, bnc, nbnc, all := "C", "\n\nC", "B\n\nC", "\n\nB\n\nC", "A\n\nB\n\nC";
    assert Split(c[1..], sep) == [""];
    assert c[0] == 'C' && [c[0]] + "" == [c[0]] == "C";
    assert Split(c, sep) == ["C"];
    assert nc[..2] == sep && nc[2..] == c;
    assert Split(nc, sep) == ["", "C"];
    assert bnc[..2] != sep && bnc[1..] == nc;
    assert bnc[0] == 'B' && [bnc[0]] + "" == [bnc[0]] == "B";
    assert Split(bnc, sep) == ["B", "C"];
    assert nbnc[..2] == sep && nbnc[2..] == bnc;
    assert Split(nbnc, sep) == ["", "B", "C"];
    assert all[..2] != sep && all[1..] == nbnc;
    assert all[0] == 'A' && [all[0]] + "" == [all[0]] == "A";
  }

  /** Three one-token units fit in one batch under the default limit. */
  lemma StitchThreeUnits(tok: Tokenizer, units: seq<string>)
    requires units == ["A", "B", "C"] && Counts(tok, units) == [1, 1, 1]
    ensures Stitch(tok, units, Counts(tok, units), DefaultMaxLen, OverlapLen) == ["\n\nA\n\nB\n\nC"]
  {
    var ns: seq<nat> := [1, 1, 1];
    PlanOfThreeUnits(ns);
    ParagraphsOfThree(units);
    assert units[0..3] == units;
  }

  /** Three one-token units are planned as one open batch starting at 0. */
  lemma PlanOfThreeUnits(ns: seq<nat>)
    requires ns == [1, 1, 1]
    ensures PlanOf(ns, DefaultMaxLen) == Plan([0], 3)
  {
    assert ns[..2] == [1, 1] && ns[..2][..1] == [1] && [1][..0] == [];
    assert PlanOf([1], DefaultMaxLen) == Plan([0], 1);
    assert PlanOf([1, 1], DefaultMaxLen) == Plan([0], 2);
  }

  /** Each of the three units is preceded by a paragraph break. */
  lemma ParagraphsOfThree(units: seq<string>)
    requires units == ["A", "B", "C"]
    ensures Paragraphs(units) == "\n\nA\n\nB\n\nC"
  {
    assert units[..2] == ["A", "B"] && units[..2][..1] == ["A"] && ["A"][..0] == [];
    assert Paragraphs(["A"]) == "\n\nA";
    assert Paragraphs(["A", "B"]) == "\n\nA\n\nB";
  }
}
