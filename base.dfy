/** Small value types shared by the whole model: an optional value, a result
    that carries either a value or an error, and the two Python list slices the
    translation service relies on (`xs[-k:]` and `xs[:k]`). */
module Base {

  datatype Option<+T> = None | Some(value: T)

  datatype Result<+T, +E> = Ok(value: T) | Err(error: E)

  /** Python's `xs[-k:]`. For a positive `k` it keeps the last `k` elements
      (all of them when `xs` is shorter); `-0` is `0`, so `k == 0` keeps the
      whole sequence; a negative `k` drops the first `-k` elements. */
  function PyTail<T>(xs: seq<T>, k: int): (r: seq<T>)
    ensures k > 0 ==> |r| == (if k < |xs| then k else |xs|)
    ensures k == 0 ==> r == xs
    ensures k < 0 ==> |r| == (if -k < |xs| then |xs| + k else 0)
    ensures r == xs[|xs| - |r|..]
  {
    if k > 0 then (if k < |xs| then xs[|xs| - k..] else xs)
    else if k == 0 then xs
    else (if -k < |xs| then xs[-k..] else [])
  }

  /** Python's `xs[:k]`: the first `k` elements for `k >= 0` (all of them when
      `xs` is shorter), and all but the last `-k` elements for a negative `k`. */
  function PyPrefix<T>(xs: seq<T>, k: int): (r: seq<T>)
    ensures k >= 0 ==> |r| == (if k < |xs| then k else |xs|)
    ensures k < 0 ==> |r| == (if -k < |xs| then |xs| + k else 0)
    ensures r == xs[..|r|]
  {
    if k >= 0 then (if k < |xs| then xs[..k] else xs)
    else (if -k < |xs| then xs[..|xs| + k] else [])
  }

  /** Python's `sum` over a list of counts. */
  function Sum(ns: seq<nat>): nat
  {
    if |ns| == 0 then 0 else Sum(ns[..|ns| - 1]) + ns[|ns| - 1]
  }

  /** The sum of the counts `ns[lo..hi]`. */
  function SumRange(ns: seq<nat>, lo: nat, hi: nat): nat
    requires lo <= hi <= |ns|
  {
    if lo == hi then 0 else SumRange(ns, lo, hi - 1) + ns[hi - 1]
  }

  /** The sum of a whole list is its range sum from the first count to the
      last. */
  lemma {:induction false} SumIsSumRange(ns: seq<nat>)
    ensures Sum(ns) == SumRange(ns, 0, |ns|)
  {
    if |ns| > 0 {
      SumIsSumRange(ns[..|ns| - 1]);
      SumRangeExtend(ns, 0);
    }
  }

  /** A range sum looks only at the counts inside the range. */
  lemma {:induction false} SumRangePrefix(ns: seq<nat>, n: nat, lo: nat, hi: nat)
    requires lo <= hi <= n <= |ns|
    ensures SumRange(ns[..n], lo, hi) == SumRange(ns, lo, hi)
  {
    if lo < hi {
      SumRangePrefix(ns, n, lo, hi - 1);
    }
  }

  /** A range that runs to the end of the list is the same range over the
      list without its last count, plus that count. */
  lemma SumRangeExtend(ns: seq<nat>, lo: nat)
    requires lo < |ns|
    ensures SumRange(ns, lo, |ns|) == SumRange(ns[..|ns| - 1], lo, |ns| - 1) + ns[|ns| - 1]
  {
    SumRangePrefix(ns, |ns| - 1, lo, |ns| - 1);
  }

  /** No count in a range exceeds the range's sum. */
  lemma {:induction false} SumRangeAtLeast(ns: seq<nat>, lo: nat, hi: nat, k: nat)
    requires lo <= k < hi <= |ns|
    ensures ns[k] <= SumRange(ns, lo, hi)
  {
    if k < hi - 1 {
      SumRangeAtLeast(ns, lo, hi - 1, k);
    }
  }

  function Flatten<T>(xss: seq<seq<T>>): seq<T>
  {
    if |xss| == 0 then [] else Flatten(xss[..|xss| - 1]) + xss[|xss| - 1]
  }

  /** A sum grows by the count appended to the list. */
  lemma SumSnoc(ns: seq<nat>, n: nat)
    ensures Sum(ns + [n]) == Sum(ns) + n
  {
    assert (ns + [n])[..|ns|] == ns;
  }

  /** The sum of a prefix is at most the sum of the whole list. */
  lemma {:induction false} SumPrefix(ns: seq<nat>, k: nat)
    requires k <= |ns|
    ensures Sum(ns[..k]) <= Sum(ns)
  {
    if k < |ns| {
      assert ns[..|ns| - 1][..k] == ns[..k];
      SumPrefix(ns[..|ns| - 1], k);
    } else {
      assert ns[..k] == ns;
    }
  }
}
