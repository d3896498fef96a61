# Book translation pipeline and answer-ranking helpers, in Dafny

This project models two pieces of the repository.

The first is the document pipeline behind the `/translate` endpoint of
`bookTransalation/translate.py`:

- The downloaded text is split into paragraphs at `"\n\n"` and every paragraph's tokens are counted.
- `split_large_chunks` cuts any paragraph over the hard limit at its character midpoint, again and again. Only the second half is measured each time.
- `create_overlapping_chunks` greedily packs the resulting units into batches under the soft limit. Each batch closed on overflow is prefixed with the decoded last `overlap_len` tokens of the batch emitted before it.
- The batch list is capped at `num_pages`.
- Each batch in order goes through the completion service. The reply is stripped and every `"""` is removed from it. The first failure ends the request with an error naming that batch.
- Input and output tokens are totalled, the translations are joined with `"\n\n"`, and the cost comes from a per-model price table with a default rate.

The second is the ranking and scoring helpers of `GCPTaskTypeEmbeddings/main.py`:

- `get_top100_similar_answers` is a stable sort of answer indices by descending similarity.
- The relevance vector marks the ranked positions whose answer equals the correct answer.
- `calculate_mrr` averages reciprocal ranks over the queries.

Modules, one per concern:

- `Base`: `Option`/`Result`, Python's slice semantics (`xs[-k:]`, `xs[:k]`) and sums over token counts.
- `Text`: `str.split`/`str.join`, `str.strip()` with Python's whitespace set, and `replace('"""', '')`.
- `Tokens`: the tokenizer as two uninterpreted functions, `encode` and `decode`. The token count is `|encode(s)|`; no round trip is assumed.
- `ChunkSplitter`: `split_large_chunks`, as a loop method proved against the functions `Pieces`/`SplitAll`.
- `OverlapStitcher`: `create_overlapping_chunks`, as a loop method proved against a fold (`ScanAfter`). The fold is tied to a plan of batch start indices (`PlanOf`), and the properties are proved about that plan.
- `TranslationClient`: the post-processing of a reply. The service call is a fixed function-valued oracle that may fail (`None` stands for a raised exception).
- `Pricing`: the price lookup and the cost formula, over `real`.
- `Pipeline`: the `translate()` glue, including the translation loop as a method with its ledger.
- `Ranking` and `Mrr`: the ranking, the relevance vector and the mean reciprocal rank.

## Model

| member | source | states |
|---|---|---|
| Base.PyTail | bookTransalation/translate.py:149 | `xs[-k:]` keeps the last `k` elements, or all of them when `k` exceeds the length; with `k == 0` it keeps the whole list |
| Base.PyPrefix | bookTransalation/translate.py:261 | `xs[:k]` is a prefix of length `min(k, |xs|)`; a negative `k` drops elements from the end |
| Tokens.OverlapText | bookTransalation/translate.py:149 | the definition of the overlap prefix: the decoded last `overlap_len` tokens of a batch; `OverlapStitcher.OverlappedAt` is about it |
| Tokens.Counts | bookTransalation/translate.py:248 | one count per text, each equal to the number of tokens the tokenizer gives that text |
| Text.Join | bookTransalation/translate.py:282 | the definition of `sep.join`; `Text.JoinSplit` and `Pipeline.Translate` are about it |
| Text.Split | bookTransalation/translate.py:247 | splitting always yields at least one part |
| Text.JoinSplit | bookTransalation/translate.py:247 | joining the parts with the separator gives back the text |
| Text.SplitPartsFree | bookTransalation/translate.py:247 | no part contains the separator |
| Text.SplitLeftmost | bookTransalation/translate.py:247 | the cuts are the leftmost ones: no occurrence of the separator starts inside the first part; when there is a second part, the separator stands right after the first, and the remaining parts are the split of the text behind it |
| Text.Strip | bookTransalation/translate.py:195 | the result is a slice of the input; everything cut off is whitespace; the result neither starts nor ends with whitespace |
| Text.StripIdempotent | bookTransalation/translate.py:195 | stripping twice is stripping once |
| Text.RemoveTripleNoTriple | bookTransalation/translate.py:196 | after the replacement the text holds no `"""` |
| Text.RemoveTripleQuotes | bookTransalation/translate.py:196 | the definition of the replacement as a left-to-right scan; the `Text.RemoveTriple*` rows below are about it |
| Text.RemoveTripleLeading | bookTransalation/translate.py:196 | a run of `n` leading quotes shrinks to `n mod 3` |
| Text.RemoveTripleSplit | bookTransalation/translate.py:196 | the scan never carries a match across a character that is not a quote: text in front of such a character is replaced on its own |
| Text.RemoveTripleAround | bookTransalation/translate.py:196 | a character other than a quote stays in place, and the text on each side of it is replaced independently |
| Text.RemoveTripleRun | bookTransalation/translate.py:196 | every maximal run of `n` quotes, wherever it stands, shrinks to `n mod 3` quotes, and the text around it is replaced independently |
| Text.RemoveTripleKeepsText | bookTransalation/translate.py:196 | every character other than `"` survives, in order |
| Text.RemoveTripleIdentity | bookTransalation/translate.py:196 | a text without `"""` is unchanged |
| Text.RemoveTripleIdempotent | bookTransalation/translate.py:196 | replacing twice is replacing once |
| ChunkSplitter.SplitAll | bookTransalation/translate.py:97-123 | the definition of the whole split: the pieces of each paragraph, in order; `ChunkSplitter.SplitAllConcat`, `SplitAllNoSplit` and `SplitLargeChunks` are about it |
| ChunkSplitter.Pieces | bookTransalation/translate.py:101-121 | a paragraph within the limit comes out as itself; a paragraph over it comes out as at least two pieces, and the last piece is within the limit; with `ChunkSplitter.PiecesStopsAtFirstFit` cutting stops at the first re-measured remainder within the limit |
| ChunkSplitter.PiecesStopsAtFirstFit | bookTransalation/translate.py:101-118 | a chunk is cut only when its given count is over the limit, and every later remainder that is cut again was re-measured over the limit; so cutting stops at the first remainder that fits |
| ChunkSplitter.PiecesCut | bookTransalation/translate.py:103-118 | one cut emits `chunk[:len//2]` and continues with `chunk[len//2:]` and its fresh token count |
| ChunkSplitter.PieceIsHalf | bookTransalation/translate.py:103-107 | every piece but the last is the lower half of the text that remained when it was cut |
| ChunkSplitter.PiecesConcat | bookTransalation/translate.py:99-121 | the pieces of a paragraph concatenate back to exactly that paragraph |
| ChunkSplitter.SplitAllConcat | bookTransalation/translate.py:97-123 | all pieces, in order, concatenate to the concatenated input |
| ChunkSplitter.SplitAllNoSplit | bookTransalation/translate.py:99-121 | when every count is within the limit the list comes back unchanged |
| ChunkSplitter.SplitLargeChunks | bookTransalation/translate.py:97-123 | the loop's output is the pieces of each zipped (paragraph, count) pair, in order |
| ChunkSplitter.FirstHalfUnchecked | bookTransalation/translate.py:110-114 | first halves are not measured: with one token per character and limit 1, `"abcd"` becomes `"ab"`, `"c"`, `"d"`, and `"ab"` has two tokens |
| OverlapStitcher.PlanOf | bookTransalation/translate.py:142-153 | the batch start indices are increasing from 0, and the open batch's count is the sum of its units' counts |
| OverlapStitcher.PlanOfGreedy | bookTransalation/translate.py:143-153 | every batch's units sum to at most `max_len`, unless the batch is one unit (or the empty first batch); every closed batch was closed because the next unit did not fit |
| OverlapStitcher.FirstBatchEmpty | bookTransalation/translate.py:143-151 | the first batch holds no unit exactly when the first unit alone exceeds `max_len` |
| OverlapStitcher.GroupsCover | bookTransalation/translate.py:142-153 | the batches' units, taken in order, are the input units, each exactly once |
| OverlapStitcher.BatchBodyJoin | bookTransalation/translate.py:139-145 | a batch body is its units joined by `"\n\n"`; the first body also starts with `"\n\n"` when it holds a unit |
| OverlapStitcher.OverlappedAt | bookTransalation/translate.py:148-151 | each closed batch is the decoded tail of the batch emitted before it, followed by its body; the first has no prefix |
| OverlapStitcher.StitchBatches | bookTransalation/translate.py:144-156 | the output has one batch per closed batch, plus the open batch only when its text is non-empty; closed batches after the first carry the overlap prefix; the first closed batch and the final open batch carry none |
| OverlapStitcher.StitchFits | bookTransalation/translate.py:143-145 | a unit that fits joins the open batch: the text grows by `"\n\n"` and the unit, the count by its count, and nothing is emitted |
| OverlapStitcher.StitchOverflows | bookTransalation/translate.py:146-153 | a unit that does not fit closes the open batch (with the overlap prefix when a batch was emitted before) and opens a batch holding only itself |
| OverlapStitcher.ScanAfterIsPlanned | bookTransalation/translate.py:142-153 | after any number of units the loop state equals the state the plan predicts |
| OverlapStitcher.Stitch | bookTransalation/translate.py:138-158 | the definition of the batches from the plan: the closed bodies with their overlap prefixes, then the open body when non-empty; `StitchBatches`, `StitchIsScan` and `CreateOverlappingChunks` are about it |
| OverlapStitcher.StitchIsScan | bookTransalation/translate.py:142-158 | the batches are the loop's emitted batches plus the open batch when non-empty |
| OverlapStitcher.CreateOverlappingChunks | bookTransalation/translate.py:138-158 | the loop's output is the stitched batches of the zipped (unit, count) pairs |
| TranslationClient.PostProcess | bookTransalation/translate.py:195-196 | the reply holds no `"""`, keeps every non-quote character of the stripped reply, and is no longer than it |
| TranslationClient.PostProcessClean | bookTransalation/translate.py:195-196 | a reply without `"""` and without surrounding whitespace comes through unchanged |
| TranslationClient.PostProcessKeepsInnerSpace | bookTransalation/translate.py:195-196 | stripping happens before the quotes are removed, so `""" Hi """` becomes `" Hi "` |
| TranslationClient.TranslateChunk | bookTransalation/translate.py:183-198 | the call fails exactly when the service fails; otherwise it returns the post-processed reply and that reply's token count |
| Pricing.TokenPrice | bookTransalation/translate.py:232-233 | a listed key costs its table price per million tokens, an unlisted key the default rate; the price is non-negative when the table is |
| Pricing.OutputKey | bookTransalation/translate.py:233 | the output key is the model name followed by `-output`: it starts with the model name and its last seven characters are `-output` |
| Pricing.TotalCost | bookTransalation/translate.py:308 | the definition of the cost: input tokens at the model's price plus output tokens at the output key's price; the `Pricing.Cost*` rows are about it |
| Pricing.CostNonNegative | bookTransalation/translate.py:308 | with non-negative prices the cost is non-negative |
| Pricing.CostOfNothing | bookTransalation/translate.py:308 | zero tokens cost nothing |
| Pricing.CostMonotone | bookTransalation/translate.py:308 | with non-negative prices, more tokens of either kind never cost less |
| Pricing.DefaultPricesNonNegative | bookTransalation/translate.py:71-80 | every price of the built-in table is non-negative |
| Pricing.DefaultModelCost | bookTransalation/translate.py:229-233 | the default model `gpt-4` is not in the table, so both token kinds cost the default rate |
| Pipeline.Get | bookTransalation/translate.py:226-230 | a present request field wins over its default |
| Pipeline.Cap | bookTransalation/translate.py:260-261 | the translated batches are a prefix of the batches, of Python slice length; no cap keeps them all |
| Pipeline.CapNoop | bookTransalation/translate.py:260-261 | a cap at or above the batch count keeps every batch |
| Pipeline.Translations | bookTransalation/translate.py:267-277 | one translation per batch: the post-processed reply wherever the service answers |
| Pipeline.RunTranslations | bookTransalation/translate.py:264-279 | the loop succeeds exactly when every batch translates; otherwise it names the first failing batch, counting from 1; on success it holds the translations in order, the input total is the batches' token sum and the output total is the translations' token sum |
| Pipeline.Batches | bookTransalation/translate.py:246-261 | the definition of the batches a request translates: the text split at `"\n\n"`, counted, cut by `split_large_chunks` at the hard limit, recounted, stitched at the soft limit with an overlap of 100 tokens, and capped at `num_pages`; `Pipeline.Translate` and `Pipeline.ThreeParagraphsOneBatch` are about it |
| Pipeline.Translate | bookTransalation/translate.py:247-282 | the handler's batches are split, cut, stitched and capped as above; it fails exactly when some batch fails, naming the first; otherwise its text is the translations joined by `"\n\n"`, with the token totals and the cost of those totals |
| Pipeline.TranslationsPrefix | bookTransalation/translate.py:260-277 | translating a prefix of the batches gives the prefix of the translations, and a prefix of batches that all translate all translate |
| Pipeline.FewerPagesCostNoMore | bookTransalation/translate.py:260-308 | with the same service replies, a smaller non-negative page cap translates a prefix, never fails where the larger cap succeeds, and never counts more tokens or costs more |
| Pipeline.ThreeParagraphsOneBatch | bookTransalation/translate.py:247-257 | with one token per character and the default limits, `"A\n\nB\n\nC"` becomes the single batch `"\n\nA\n\nB\n\nC"` |
| Ranking.Rank | GCPTaskTypeEmbeddings/main.py:77-78 | the result is a permutation of `0..n-1`, ordered by descending score with ties in ascending index order |
| Ranking.RankIsStableSort | GCPTaskTypeEmbeddings/main.py:78 | any permutation of the indices in that order is the ranking: it is the stable sort |
| Ranking.RankListsBeforeFirst | GCPTaskTypeEmbeddings/main.py:78 | an index with a higher score, or with an equal score and a smaller index, is listed earlier than the other; so equal scores keep their index order |
| Ranking.TiedPairRank | GCPTaskTypeEmbeddings/main.py:78 | example: the scores `[0.5, 0.5]` rank as `[0, 1]` |
| Ranking.OrderedUnique | GCPTaskTypeEmbeddings/main.py:78 | two orderings of the same indices by descending score, ties ascending, are equal |
| Mrr.QueryRanks | GCPTaskTypeEmbeddings/main.py:97 | one entry per ranked answer: 1 exactly where the answer equals the correct one, 0 exactly where it does not |
| Mrr.ScoreQuery | GCPTaskTypeEmbeddings/main.py:95-97 | the ranked answers follow the ranking, and the relevance vector marks the ranked positions holding the correct answer |
| Mrr.QueryRanksAtMostOneHit | GCPTaskTypeEmbeddings/main.py:95-97 | when the correct answer occurs at most once among the answers, the relevance vector holds at most one 1 |
| Mrr.CalculateMrr | GCPTaskTypeEmbeddings/main.py:80-82 | no queries is a division by zero; otherwise the result times the number of queries is the sum of `1/(i+1)` over every position `i` holding 1 |
| Mrr.ReciprocalRanks | GCPTaskTypeEmbeddings/main.py:81 | the definition of the flattened list of `1/(i+1)` terms, query by query; `Mrr.ReciprocalRanksSum` and `Mrr.CalculateMrr` are about it |
| Mrr.ReciprocalRanksSum | GCPTaskTypeEmbeddings/main.py:81 | the flattened reciprocal ranks sum to the sum of the per-query scores |
| Mrr.NoHitsScoreZero | GCPTaskTypeEmbeddings/main.py:81 | a query without a 1 contributes no term |
| Mrr.QueryScoreNonNegative | GCPTaskTypeEmbeddings/main.py:81 | a query's score is non-negative |
| Mrr.QueryScoreAtMostOne | GCPTaskTypeEmbeddings/main.py:81 | with at most one 1, a query's score is at most 1 |
| Mrr.MrrInUnitInterval | GCPTaskTypeEmbeddings/main.py:80-82 | with at most one 1 per query, the mean reciprocal rank lies in [0, 1] |
| Mrr.TwoHitsMrr | GCPTaskTypeEmbeddings/main.py:80-82 | a single query `[1, 1]` scores 1.5: every 1 adds a term |
| Mrr.DuplicateCorrectAnswerExceedsOne | GCPTaskTypeEmbeddings/main.py:80-97 | two equally scored copies of the correct answer give the relevance vector `[1, 1]` and a mean reciprocal rank of 1.5 |
| Mrr.CalculateMrrFirstHit | GCPTaskTypeEmbeddings/main.py:80-82 | first-hit variant: no queries is an error; otherwise the result times the number of queries is the sum of each query's first reciprocal rank |
| Mrr.FirstHitAgrees | GCPTaskTypeEmbeddings/main.py:80-82 | with at most one 1 per query, the first-hit variant equals `calculate_mrr` |
| Mrr.FirstHitMrrInUnitInterval | GCPTaskTypeEmbeddings/main.py:80-82 | the first-hit variant lies in [0, 1] for every non-empty list of queries |

## Left out

- The Flask route, request-schema validation, the download of the document, the S3 upload, logging and `.env` loading are I/O and configuration. `Pipeline.Translate` starts from the downloaded text and stops before the upload. The upload's failure responses are not modelled.
- The prompt text and the chat completion call are an external service. They are the `Api` oracle, whose `None` stands for the exception the loop turns into the 500 response.
- `Api` is a fixed function: the same batch, model and language always give the same reply or the same failure, within one request and across requests. Transient failures and varying replies are not modelled, so `Pipeline.FewerPagesCostNoMore` compares two requests that see the same service replies.
- The GPT-2 tokenizer's algorithm is not modelled; `encode` and `decode` are arbitrary functions.
- Environment overrides of the price table are not modelled. The table is a parameter, and the built-in values are `Pricing.DefaultPrices`.
- Floating-point rounding of prices, of the cost and of the reciprocal ranks is not modelled; all of them are `real`. So is the `f'${total_cost}'` formatting.
- NaN similarity scores are left out: scores are `real`, so every pair is comparable.
- The embedding calls, `cosine_similarity`, the FastAPI endpoint and the `process_data` loop that collects the queries are left out. `Mrr.ScoreQuery` takes the similarities as input.
- `ChunkSplitter.SplitLargeChunks` and everything above it require that every string of at most one character fits in the hard limit (`Tokens.ShortStringsFit`). Without this the source's `while` loop never ends on a one-character paragraph that is over the limit, and a model of a loop that never ends is not a terminating method.
- `part1_tokens` (translate.py:110) is computed and never used, so the model does not compute it.
- `translate()` never passes `overlap_len`, so the pipeline always uses 100. `CreateOverlappingChunks` takes it as a parameter, with `[-0:]` copying the whole previous batch.

Behaviour of the code worth noting:

- The open batch is emitted at the end only when its text is non-empty (translate.py:155).
- The final open batch never gets an overlap prefix (translate.py:156).
- The first batch starts with `"\n\n"` (translate.py:139, 144). So `"A\n\nB\n\nC"` becomes the batch `"\n\nA\n\nB\n\nC"`.
- When the first unit alone exceeds `max_len`, an empty first batch `""` is emitted (translate.py:148-151).

## Findings

| source | as written | input that shows it | evidently intended | confidence | as-written member | corrected member |
|---|---|---|---|---|---|---|
| GCPTaskTypeEmbeddings/main.py:81-82 | every position holding 1 adds `1/(i+1)`, so a correct answer listed twice counts twice | answers `["Paris", "Paris"]`, correct answer `"Paris"`, similarities `[0.5, 0.5]`: relevance `[1, 1]`, MRR 1.5 | a reciprocal rank counts only the first relevant position, so the mean lies in [0, 1] | high (not executed) | Mrr.DuplicateCorrectAnswerExceedsOne | Mrr.CalculateMrrFirstHit |

`Mrr.CalculateMrr` models the code as written. `Mrr.FirstHitMrrInUnitInterval` proves that the corrected mean lies in [0, 1] for every non-empty list of queries. `Mrr.FirstHitAgrees` proves that both agree whenever no query has two hits.
