/** `get_top100_similar_answers`: `sorted(range(n), key=lambda i: -s[i])`.
    Python's sort is stable and the input is in index order, so the result
    lists the indices by descending score and equal scores by ascending
    index. Nothing is cut off: all `n` indices come back. */
module Ranking {

  /** Index `i` is listed before index `j`. */
  predicate Before(s: seq<real>, i: int, j: int)
    requires 0 <= i < |s| && 0 <= j < |s|
  {
    s[i] > s[j] || (s[i] == s[j] && i < j)
  }

  /** `Before` is transitive. */
  lemma BeforeTransitive(s: seq<real>, i: int, j: int, k: int)
    requires 0 <= i < |s| && 0 <= j < |s| && 0 <= k < |s|
    requires Before(s, i, j) && Before(s, j, k)
    ensures Before(s, i, k)
  {
  }

  /** Every index of `r` is an index of `s`. */
  predicate Indices(s: seq<real>, r: seq<int>)
  {
    forall k :: 0 <= k < |r| ==> 0 <= r[k] < |s|
  }

  /** Each index of `r` goes before the next one. */
  predicate Ordered(s: seq<real>, r: seq<int>)
    requires Indices(s, r)
  {
    forall k :: 0 <= k < |r| - 1 ==> Before(s, r[k], r[k + 1])
  }

  /** In an ordered list every index goes before every later one. */
  lemma {:induction false} OrderedPairwise(s: seq<real>, r: seq<int>, j: int, k: int)
    requires Indices(s, r) && Ordered(s, r) && 0 <= j < k < |r|
    ensures Before(s, r[j], r[k])
    decreases k - j
  {
    if j + 1 < k {
      OrderedPairwise(s, r, j + 1, k);
      BeforeTransitive(s, r[j], r[j + 1], r[k]);
    }
  }

  /** The indices `0..n-1` in increasing order. */
  function Range(n: nat): (r: seq<int>)
    ensures |r| == n && forall k :: 0 <= k < n ==> r[k] == k
  {
    seq(n, k => k)
  }

  /** Inserts index `x` into the ordered list `r`, in front of the first
      index it goes before. */
  function Insert(s: seq<real>, x: int, r: seq<int>): (out: seq<int>)
    requires 0 <= x < |s| && Indices(s, r)
    ensures |out| == |r| + 1 && Indices(s, out)
    ensures multiset(out) == multiset(r) + multiset{x}
    ensures forall k :: 0 <= k < |out| ==> out[k] == x || out[k] in r
    ensures |r| > 0 ==> out[0] == x || out[0] == r[0]
  {
    if |r| == 0 then [x]
    else if Before(s, x, r[0]) then [x] + r
    else
      var rest := Insert(s, x, r[1..]);
      assert r == [r[0]] + r[1..];
      [r[0]] + rest
  }

  /** Inserting an index not yet listed keeps an ordered list ordered. */
  lemma {:induction false} InsertOrdered(s: seq<real>, x: int, r: seq<int>)
    requires 0 <= x < |s| && Indices(s, r) && Ordered(s, r)
    requires x !in r
    ensures Ordered(s, Insert(s, x, r))
  {
    if |r| > 0 && !Before(s, x, r[0]) {
      var tail := r[1..];
      assert Ordered(s, tail) by {
        forall k | 0 <= k < |tail| - 1 ensures Before(s, tail[k], tail[k + 1]) {
          assert tail[k] == r[k + 1] && tail[k + 1] == r[k + 2];
        }
      }
      InsertOrdered(s, x, tail);
      var rest := Insert(s, x, tail);
      if |tail| > 0 {
        assert rest[0] == x || rest[0] == r[1];
      }
    }
  }

  /** The first `n` indices of `s`, ranked. */
  function RankUpTo(s: seq<real>, n: nat): (r: seq<int>)
    requires n <= |s|
    ensures |r| == n && Indices(s, r)
    ensures forall k :: 0 <= k < n ==> r[k] < n
    ensures Ordered(s, r)
  {
    if n == 0 then []
    else
      var prev := RankUpTo(s, n - 1);
      InsertOrdered(s, n - 1, prev);
      Insert(s, n - 1, prev)
  }

  /** The first `n` indices ranked are the indices `0..n-1`, each once. */
  lemma {:induction false} RankUpToPermutation(s: seq<real>, n: nat)
    requires n <= |s|
    ensures multiset(RankUpTo(s, n)) == multiset(Range(n))
  {
    if n > 0 {
      var prev := RankUpTo(s, n - 1);
      RankUpToPermutation(s, n - 1);
      assert RankUpTo(s, n) == Insert(s, n - 1, prev);
      RangeSnoc(n);
    }
  }

  /** `Range(n)` is `Range(n - 1)` with `n - 1` added. */
  lemma RangeSnoc(n: nat)
    requires n > 0
    ensures multiset(Range(n)) == multiset(Range(n - 1)) + multiset{n - 1}
  {
    assert Range(n) == Range(n - 1) + [n - 1];
  }

  /** `get_top100_similar_answers(similarities)`. */
  function Rank(s: seq<real>): (r: seq<int>)
    ensures |r| == |s| && Indices(s, r) && Ordered(s, r)
    ensures multiset(r) == multiset(Range(|s|))
  {
    RankUpToPermutation(s, |s|);
    RankUpTo(s, |s|)
  }

  /** The order pins the ranking down: two ordered lists of the same indices
      are equal, so `Rank` is the only answer a stable descending sort can
      give. */
  lemma {:induction false} OrderedUnique(s: seq<real>, a: seq<int>, b: seq<int>)
    requires Indices(s, a) && Indices(s, b) && Ordered(s, a) && Ordered(s, b)
    requires multiset(a) == multiset(b)
    ensures a == b
  {
    assert |a| == |multiset(a)| == |multiset(b)| == |b|;
    if |a| > 0 {
      OrderedHeads(s, a, b);
      assert a == [a[0]] + a[1..] && b == [b[0]] + b[1..];
      assert multiset(a[1..]) == multiset(a) - multiset{a[0]};
      assert multiset(b[1..]) == multiset(b) - multiset{b[0]};
      OrderedTail(s, a);
      OrderedTail(s, b);
      OrderedUnique(s, a[1..], b[1..]);
    }
  }

  /** Two ordered lists of the same indices start with the same index. */
  lemma OrderedHeads(s: seq<real>, a: seq<int>, b: seq<int>)
    requires Indices(s, a) && Indices(s, b) && Ordered(s, a) && Ordered(s, b)
    requires multiset(a) == multiset(b) && |a| > 0 && |b| > 0
    ensures a[0] == b[0]
  {
    assert a[0] in multiset(b) && b[0] in multiset(a);
    var k :| 0 <= k < |b| && b[k] == a[0];
    var m :| 0 <= m < |a| && a[m] == b[0];
    if k > 0 && m > 0 {
      OrderedPairwise(s, b, 0, k);
      OrderedPairwise(s, a, 0, m);
    }
  }

  /** Dropping the first index keeps a list ordered. */
  lemma OrderedTail(s: seq<real>, a: seq<int>)
    requires Indices(s, a) && Ordered(s, a) && |a| > 0
    ensures Indices(s, a[1..]) && Ordered(s, a[1..])
  {
    forall k | 0 <= k < |a| - 2 ensures Before(s, a[1..][k], a[1..][k + 1]) {
      assert a[1..][k] == a[k + 1] && a[1..][k + 1] == a[k + 2];
    }
  }

  /** `get_top100_similar_answers` returns every index exactly once, every
      index before every later one by descending score with ties in
      increasing index order; and it is the only list that does. */
  lemma RankIsStableSort(s: seq<real>, other: seq<int>)
    requires Indices(s, other) && Ordered(s, other) && multiset(other) == multiset(Range(|s|))
    ensures forall j, k :: 0 <= j < k < |s| ==> Before(s, Rank(s)[j], Rank(s)[k])
    ensures other == Rank(s)
  {
    var r := Rank(s);
    forall j, k | 0 <= j < k < |s| ensures Before(s, r[j], r[k]) {
      OrderedPairwise(s, r, j, k);
    }
    OrderedUnique(s, other, r);
  }

  /** Every index of the scores is listed. */
  lemma RankListsIndex(s: seq<real>, i: int)
    requires 0 <= i < |s|
    ensures i in Rank(s)
  {
    var range := Range(|s|);
    assert range[i] == i;
    assert i in multiset(range);
  }

  /** Seen from the scores: an index that goes before another (a higher
      score, or an equal score and a smaller index) is listed earlier. In
      particular equal scores keep their index order. */
  lemma RankListsBeforeFirst(s: seq<real>, i: int, j: int)
    requires 0 <= i < |s| && 0 <= j < |s| && Before(s, i, j)
    ensures exists p, q :: 0 <= p < q < |Rank(s)| && Rank(s)[p] == i && Rank(s)[q] == j
  {
    var r := Rank(s);
    RankListsIndex(s, i);
    RankListsIndex(s, j);
    var p :| 0 <= p < |r| && r[p] == i;
    var q :| 0 <= q < |r| && r[q] == j;
    if q < p {
      OrderedPairwise(s, r, q, p);
      assert false;
    }
  }

  /** Example: equal scores keep their original order. */
  lemma TiedPairRank()
    ensures Rank([0.5, 0.5]) == [0, 1]
  {
    var sims := [0.5, 0.5];
    assert RankUpTo(sims, 1) == Insert(sims, 0, []) == [0];
    assert !Before(sims, 1, 0) && [0][1..] == [];
    assert Insert(sims, 1, [0]) == [0] + Insert(sims, 1, []);
  }
}
