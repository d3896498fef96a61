/** The relevance vector of one query and `calculate_mrr` over all queries.
    A query's relevance vector has a 1 at each ranked position whose answer
    is the correct one and a 0 elsewhere. The mean reciprocal rank sums
    `1/(i+1)` over every position `i` that holds a 1, in every query, and
    divides by the number of queries. */
module Mrr {
  import opened Base
  import opened Ranking

  /** `[1 if answers[i] == correct_answer else 0 for i in ranked_indices]`. */
  function QueryRanks(answers: seq<string>, correct: string, ranked: seq<int>): (r: seq<int>)
    requires forall k :: 0 <= k < |ranked| ==> 0 <= ranked[k] < |answers|
    ensures |r| == |ranked|
    ensures forall k :: 0 <= k < |r| ==> (r[k] == 1 <==> answers[ranked[k]] == correct)
    ensures forall k :: 0 <= k < |r| ==> (r[k] == 0 <==> answers[ranked[k]] != correct)
  {
    seq(|ranked|, k requires 0 <= k < |ranked| => if answers[ranked[k]] == correct then 1 else 0)
  }

  /** No two positions of `ranks` hold a 1. */
  predicate AtMostOneHit(ranks: seq<int>)
  {
    forall i, j :: 0 <= i < j < |ranks| && ranks[i] == 1 ==> ranks[j] != 1
  }

  /** `correct` is one of the answers at most once. */
  predicate CorrectAtMostOnce(answers: seq<string>, correct: string)
  {
    forall i, j :: 0 <= i < j < |answers| && answers[i] == correct ==> answers[j] != correct
  }

  /** A ranking names each answer once, so when the correct answer occurs at
      most once among the answers its relevance vector has at most one 1. */
  lemma QueryRanksAtMostOneHit(scores: seq<real>, answers: seq<string>, correct: string)
    requires |scores| == |answers| && CorrectAtMostOnce(answers, correct)
    ensures AtMostOneHit(QueryRanks(answers, correct, Rank(scores)))
  {
    var ranked := Rank(scores);
    var r := QueryRanks(answers, correct, ranked);
    forall i, j | 0 <= i < j < |r| && r[i] == 1 ensures r[j] != 1 {
      OrderedPairwise(scores, ranked, i, j);
    }
  }

  /** What one query reports: the answers in ranked order and the relevance
      vector over that order. */
  datatype QueryOutput = QueryOutput(rankedAnswers: seq<string>, queryRanks: seq<int>)

  /** The per-query step of `process_data`: rank the answers by similarity,
      list them in that order, and mark the correct ones. The similarity
      scores are a parameter, since they come from the embedding service. */
  function ScoreQuery(similarities: seq<real>, answers: seq<string>, correct: string): (o: QueryOutput)
    requires |similarities| == |answers|
    ensures |o.rankedAnswers| == |o.queryRanks| == |answers|
    ensures forall k :: 0 <= k < |answers| ==> o.rankedAnswers[k] == answers[Rank(similarities)[k]]
    ensures forall k :: 0 <= k < |answers| ==> (o.queryRanks[k] == 1 <==> o.rankedAnswers[k] == correct)
    ensures forall k :: 0 <= k < |answers| ==> (o.queryRanks[k] == 0 <==> o.rankedAnswers[k] != correct)
  {
    var ranked := Rank(similarities);
    QueryOutput(seq(|ranked|, k requires 0 <= k < |ranked| => answers[ranked[k]]),
                QueryRanks(answers, correct, ranked))
  }

  /** The reciprocal ranks of one query: `1/(i+1)` for each position `i`
      holding a 1, in position order. */
  function Hits(ranks: seq<int>): seq<real>
  {
    if |ranks| == 0 then []
    else
      var n := |ranks|;
      Hits(ranks[..n - 1]) + (if ranks[n - 1] == 1 then [1.0 / n as real] else [])
  }

  /** The comprehension `[1 / (i + 1) for ranks in query_ranks for i, rank
      in enumerate(ranks) if rank == 1]`: the hits of each query in turn. */
  function ReciprocalRanks(qs: seq<seq<int>>): seq<real>
  {
    if |qs| == 0 then [] else ReciprocalRanks(qs[..|qs| - 1]) + Hits(qs[|qs| - 1])
  }

  /** Python's `sum` over a list of numbers. */
  function SumReals(xs: seq<real>): real
  {
    if |xs| == 0 then 0.0 else SumReals(xs[..|xs| - 1]) + xs[|xs| - 1]
  }

  /** The error `calculate_mrr([])` raises. */
  datatype MrrError = ZeroDivision

  /** `calculate_mrr(query_ranks)`. */
  function CalculateMrr(qs: seq<seq<int>>): (r: Result<real, MrrError>)
    ensures r.Err? <==> |qs| == 0
    ensures r.Ok? ==> r.value * |qs| as real == SumReals(ReciprocalRanks(qs))
  {
    if |qs| == 0 then Err(ZeroDivision) else Ok(SumReals(ReciprocalRanks(qs)) / |qs| as real)
  }

  /** The sum of a concatenation is the sum of the sums. */
  lemma {:induction false} SumRealsAppend(xs: seq<real>, ys: seq<real>)
    ensures SumReals(xs + ys) == SumReals(xs) + SumReals(ys)
    decreases |ys|
  {
    if |ys| == 0 {
      assert xs + ys == xs;
    } else {
      var init := ys[..|ys| - 1];
      assert (xs + ys)[..|xs + ys| - 1] == xs + init;
      SumRealsAppend(xs, init);
    }
  }

  /** The score of one query: the sum of its reciprocal ranks. */
  function QueryScore(ranks: seq<int>): real
  {
    SumReals(Hits(ranks))
  }

  /** The scores of all queries. */
  function Scores(qs: seq<seq<int>>): (ss: seq<real>)
    ensures |ss| == |qs| && forall q :: 0 <= q < |qs| ==> ss[q] == QueryScore(qs[q])
  {
    seq(|qs|, q requires 0 <= q < |qs| => QueryScore(qs[q]))
  }

  /** The flat sum of `calculate_mrr` is the sum of the per-query scores, so
      the result is the mean score per query. */
  lemma {:induction false} ReciprocalRanksSum(qs: seq<seq<int>>)
    ensures SumReals(ReciprocalRanks(qs)) == SumReals(Scores(qs))
  {
    if |qs| > 0 {
      var init := qs[..|qs| - 1];
      ReciprocalRanksSum(init);
      SumRealsAppend(ReciprocalRanks(init), Hits(qs[|qs| - 1]));
      assert Scores(qs)[..|qs| - 1] == Scores(init);
    }
  }

  /** A query with no 1 scores nothing. */
  lemma {:induction false} NoHitsScoreZero(ranks: seq<int>)
    requires forall i :: 0 <= i < |ranks| ==> ranks[i] != 1
    ensures Hits(ranks) == []
  {
    if |ranks| > 0 {
      NoHitsScoreZero(ranks[..|ranks| - 1]);
    }
  }

  /** The reciprocal rank of a 1-based position lies in `(0, 1]`. */
  lemma Reciprocal(n: nat)
    requires n >= 1
    ensures 0.0 < 1.0 / n as real <= 1.0
  {
  }

  /** How `Hits` grows by one position. */
  lemma HitsSnoc(ranks: seq<int>)
    requires |ranks| > 0
    ensures var n := |ranks|;
      SumReals(Hits(ranks))
        == SumReals(Hits(ranks[..n - 1])) + (if ranks[n - 1] == 1 then 1.0 / n as real else 0.0)
  {
    var n := |ranks|;
    var last := if ranks[n - 1] == 1 then [1.0 / n as real] else [];
    SumRealsAppend(Hits(ranks[..n - 1]), last);
  }

  /** A query never scores below 0. */
  lemma {:induction false} QueryScoreNonNegative(ranks: seq<int>)
    ensures QueryScore(ranks) >= 0.0
  {
    if |ranks| > 0 {
      QueryScoreNonNegative(ranks[..|ranks| - 1]);
      HitsSnoc(ranks);
      Reciprocal(|ranks|);
    }
  }

  /** A query with at most one 1 scores at most 1. */
  lemma {:induction false} QueryScoreAtMostOne(ranks: seq<int>)
    requires AtMostOneHit(ranks)
    ensures QueryScore(ranks) <= 1.0
  {
    if |ranks| > 0 {
      var n := |ranks|;
      var init := ranks[..n - 1];
      assert AtMostOneHit(init);
      HitsSnoc(ranks);
      if ranks[n - 1] == 1 {
        NoHitsScoreZero(init);
        Reciprocal(n);
      } else {
        QueryScoreAtMostOne(init);
      }
    }
  }

  /** A sum of numbers each in `[0, 1]` lies in `[0, |xs|]`. */
  lemma {:induction false} SumRealsUnit(xs: seq<real>)
    requires forall i :: 0 <= i < |xs| ==> 0.0 <= xs[i] <= 1.0
    ensures 0.0 <= SumReals(xs) <= |xs| as real
  {
    if |xs| > 0 {
      SumRealsUnit(xs[..|xs| - 1]);
    }
  }

  /** A total of `n` numbers each in `[0, 1]`, divided by `n`, lies in
      `[0, 1]`. */
  lemma MeanInUnit(total: real, n: nat)
    requires n > 0 && 0.0 <= total <= n as real
    ensures 0.0 <= total / n as real <= 1.0
  {
    var d := n as real;
    var q := total / d;
    assert q * d == total;
  }

  /** When no query has more than one 1, the mean reciprocal rank lies in
      `[0, 1]`. */
  lemma MrrInUnitInterval(qs: seq<seq<int>>)
    requires |qs| > 0
    requires forall q :: 0 <= q < |qs| ==> AtMostOneHit(qs[q])
    ensures 0.0 <= CalculateMrr(qs).value <= 1.0
  {
    ReciprocalRanksSum(qs);
    var ss := Scores(qs);
    forall q | 0 <= q < |qs| ensures 0.0 <= ss[q] <= 1.0 {
      QueryScoreNonNegative(qs[q]);
      QueryScoreAtMostOne(qs[q]);
    }
    SumRealsUnit(ss);
    MeanInUnit(SumReals(ss), |qs|);
  }

  /** The relevance vector `[1, 1]` has reciprocal ranks `1` and `1/2`. */
  lemma TwoHits()
    ensures Hits([1, 1]) == [1.0, 0.5]
  {
    assert [1, 1][..1] == [1] && [1][..0] == [];
    assert Hits([1]) == [1.0];
  }

  /** The relevance vector `[1, 1]` has mean reciprocal rank `1 + 1/2`. */
  lemma TwoHitsMrr()
    ensures CalculateMrr([[1, 1]]) == Ok(1.5)
  {
    TwoHits();
    assert [[1, 1]][..0] == [];
    assert ReciprocalRanks([[1, 1]]) == [1.0, 0.5];
    assert [1.0, 0.5][..1] == [1.0] && [1.0][..0] == [];
    assert SumReals([1.0]) == 1.0;
  }

  /** Two answers with the same text as the correct answer give a relevance
      vector with two 1s, and `calculate_mrr` then exceeds 1: equal scores
      rank as `[0, 1]`, the vector is `[1, 1]`, and the mean reciprocal rank
      is `1 + 1/2`. */
  lemma DuplicateCorrectAnswerExceedsOne()
    ensures var o := ScoreQuery([0.5, 0.5], ["Paris", "Paris"], "Paris");
      o.queryRanks == [1, 1] && CalculateMrr([o.queryRanks]) == Ok(1.5)
  {
    TiedPairRank();
    TwoHitsMrr();
  }

  /** The reciprocal rank of the first correct position of a query, or 0 when
      there is none: the score the mean reciprocal rank is defined over. */
  function FirstHitScore(ranks: seq<int>): (r: real)
    ensures Hits(ranks) == [] ==> r == 0.0
    ensures Hits(ranks) != [] ==> r == Hits(ranks)[0]
  {
    var hs := Hits(ranks);
    if hs == [] then 0.0 else hs[0]
  }

  /** The scores of all queries, counting only each query's first hit. */
  function FirstHitScores(qs: seq<seq<int>>): (ss: seq<real>)
    ensures |ss| == |qs| && forall q :: 0 <= q < |qs| ==> ss[q] == FirstHitScore(qs[q])
  {
    seq(|qs|, q requires 0 <= q < |qs| => FirstHitScore(qs[q]))
  }

  /** The mean reciprocal rank over each query's first correct position. */
  function CalculateMrrFirstHit(qs: seq<seq<int>>): (r: Result<real, MrrError>)
    ensures r.Err? <==> |qs| == 0
    ensures r.Ok? ==> r.value * |qs| as real == SumReals(FirstHitScores(qs))
  {
    if |qs| == 0 then Err(ZeroDivision) else Ok(SumReals(FirstHitScores(qs)) / |qs| as real)
  }

  /** Every reciprocal rank lies in `(0, 1]`. */
  lemma {:induction false} HitsInUnit(ranks: seq<int>)
    ensures forall i :: 0 <= i < |Hits(ranks)| ==> 0.0 < Hits(ranks)[i] <= 1.0
  {
    if |ranks| > 0 {
      HitsInUnit(ranks[..|ranks| - 1]);
      Reciprocal(|ranks|);
    }
  }

  /** A query with at most one 1 has at most one reciprocal rank. */
  lemma {:induction false} HitsAtMostOne(ranks: seq<int>)
    requires AtMostOneHit(ranks)
    ensures |Hits(ranks)| <= 1
  {
    if |ranks| > 0 {
      var init := ranks[..|ranks| - 1];
      assert AtMostOneHit(init);
      HitsAtMostOne(init);
      if ranks[|ranks| - 1] == 1 {
        NoHitsScoreZero(init);
      }
    }
  }

  /** Counting only the first hit changes nothing when a query has at most
      one 1, so the corrected score agrees with `calculate_mrr` on the inputs
      it was meant for. */
  lemma FirstHitAgrees(qs: seq<seq<int>>)
    requires forall q :: 0 <= q < |qs| ==> AtMostOneHit(qs[q])
    ensures CalculateMrrFirstHit(qs) == CalculateMrr(qs)
  {
    ReciprocalRanksSum(qs);
    forall q | 0 <= q < |qs| ensures FirstHitScore(qs[q]) == QueryScore(qs[q]) {
      var hs := Hits(qs[q]);
      HitsAtMostOne(qs[q]);
      if |hs| == 1 {
        assert SumReals(hs) == SumReals(hs[..0]) + hs[0];
      }
    }
    assert FirstHitScores(qs) == Scores(qs);
  }

  /** The corrected mean reciprocal rank lies in `[0, 1]` for every non-empty
      list of relevance vectors, duplicates included. */
  lemma FirstHitMrrInUnitInterval(qs: seq<seq<int>>)
    requires |qs| > 0
    ensures 0.0 <= CalculateMrrFirstHit(qs).value <= 1.0
  {
    var ss := FirstHitScores(qs);
    forall q | 0 <= q < |qs| ensures 0.0 <= ss[q] <= 1.0 {
      HitsInUnit(qs[q]);
    }
    SumRealsUnit(ss);
    MeanInUnit(SumReals(ss), |qs|);
  }
}
