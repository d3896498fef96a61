/** `create_overlapping_chunks`: units are packed greedily into batches under
    a soft token limit; a batch closed because the next unit does not fit is
    prefixed with the text of the last `overlap_len` tokens of the batch
    emitted before it.

    The specification comes in two layers. `PlanOf` decides where batches
    start; it depends on the token counts and the limit only. `Stitch` turns
    that plan into text, adding the overlap prefixes. */
module OverlapStitcher {
  import opened Base
  import opened Text
  import opened Tokens

  /** Where the batches start, and the token total of the batch still open.
      `starts[k]` is the index of the first unit of batch `k`; the last entry
      is the start of the open batch. */
  datatype Plan = Plan(starts: seq<nat>, curTokens: nat)

  /** Start indices of batches over `n` units: the first batch starts at 0
      and may be empty; every later batch ends after it starts. */
  predicate StartsOk(starts: seq<nat>, n: nat)
  {
    && |starts| >= 1 && starts[0] == 0
    && (forall j, k :: 1 <= j < k < |starts| ==> starts[j] < starts[k])
    && (forall k :: 0 <= k < |starts| ==> starts[k] <= n)
  }

  /** A new batch may open at unit `i` once the open batch holds a unit (or
      is the first). */
  lemma StartsSnoc(starts: seq<nat>, m: nat, n: nat, i: nat)
    requires StartsOk(starts, m) && m <= n && i <= n
    requires starts[|starts| - 1] <= i && (|starts| > 1 ==> starts[|starts| - 1] < i)
    ensures StartsOk(starts + [i], n)
  {
    var s := starts + [i];
    forall j, k | 1 <= j < k < |s| ensures s[j] < s[k] {
      if k == |starts| {
        assert s[j] == starts[j] <= starts[|starts| - 1];
      }
    }
  }

  /** One past the last unit of batch `k`. */
  function End(starts: seq<nat>, n: nat, k: nat): nat
    requires k < |starts|
  {
    if k + 1 < |starts| then starts[k + 1] else n
  }

  /** The greedy plan over the first `|ntokens|` units. */
  function PlanOf(ntokens: seq<nat>, maxLen: int): (p: Plan)
    ensures StartsOk(p.starts, |ntokens|)
    ensures |p.starts| > 1 ==> p.starts[|p.starts| - 1] < |ntokens|
    ensures p.curTokens == SumRange(ntokens, p.starts[|p.starts| - 1], |ntokens|)
  {
    if |ntokens| == 0 then Plan([0], 0)
    else
      var i := |ntokens| - 1;
      var prev := PlanOf(ntokens[..i], maxLen);
      SumRangePrefix(ntokens, i, prev.starts[|prev.starts| - 1], i);
      if prev.curTokens + ntokens[i] <= maxLen then Plan(prev.starts, prev.curTokens + ntokens[i])
      else
        StartsSnoc(prev.starts, i, i + 1, i);
        Plan(prev.starts + [i], ntokens[i])
  }

  /** Each `"\n\n"` followed by a unit, in order: `s += "\n\n" + chunk`
      applied to every unit. */
  function Paragraphs(us: seq<string>): string
  {
    if |us| == 0 then "" else Paragraphs(us[..|us| - 1]) + ParagraphBreak + us[|us| - 1]
  }

  /** The body of a batch over units `lo..hi`. The first batch grows from the
      empty string, so each of its units is preceded by a paragraph break; a
      later batch starts with its first unit. */
  function Body(chunks: seq<string>, first: bool, lo: nat, hi: nat): string
    requires lo <= hi <= |chunks|
    requires !first ==> lo < hi
  {
    if first then Paragraphs(chunks[lo..hi]) else chunks[lo] + Paragraphs(chunks[lo + 1..hi])
  }

  /** The body of batch `k` of a plan. */
  function BatchBody(chunks: seq<string>, starts: seq<nat>, k: nat): string
    requires StartsOk(starts, |chunks|) && k < |starts|
    requires k > 0 ==> starts[k] < End(starts, |chunks|, k)
  {
    Body(chunks, k == 0, starts[k], End(starts, |chunks|, k))
  }

  /** The bodies of the batches closed before the open (last) one. */
  function ClosedBodies(chunks: seq<string>, starts: seq<nat>): (bodies: seq<string>)
    requires StartsOk(starts, |chunks|)
    ensures |bodies| == |starts| - 1
  {
    seq(|starts| - 1, k requires 0 <= k < |starts| - 1 => Body(chunks, k == 0, starts[k], starts[k + 1]))
  }

  /** Emitted batches: the first body as it is, each later one behind the
      overlap text of the batch emitted just before it. */
  function Overlapped(tok: Tokenizer, bodies: seq<string>, overlapLen: int): (out: seq<string>)
    ensures |out| == |bodies|
  {
    if |bodies| == 0 then []
    else
      var prev := Overlapped(tok, bodies[..|bodies| - 1], overlapLen);
      var prefix := if |prev| > 0 then OverlapText(tok, prev[|prev| - 1], overlapLen) else "";
      prev + [prefix + bodies[|bodies| - 1]]
  }

  /** The batches closed before the open one, as emitted. */
  function Emitted(tok: Tokenizer, chunks: seq<string>, starts: seq<nat>, overlapLen: int): (out: seq<string>)
    requires StartsOk(starts, |chunks|)
    ensures |out| == |starts| - 1
  {
    Overlapped(tok, ClosedBodies(chunks, starts), overlapLen)
  }

  /** All batches: the closed ones, then the open one when its text is not
      empty (`if cur_chunk:`), without an overlap prefix. */
  function Stitch(tok: Tokenizer, chunks: seq<string>, ntokens: seq<nat>, maxLen: int, overlapLen: int): seq<string>
    requires |chunks| == |ntokens|
  {
    var p := PlanOf(ntokens, maxLen);
    var m := |p.starts| - 1;
    var last := Body(chunks, m == 0, p.starts[m], |chunks|);
    var closed := Emitted(tok, chunks, p.starts, overlapLen);
    if last != "" then closed + [last] else closed
  }

  /** The batches closed after the first `i` units. */
  function ClosedAfter(tok: Tokenizer, chunks: seq<string>, ntokens: seq<nat>, maxLen: int, overlapLen: int, i: nat): seq<string>
    requires |chunks| == |ntokens| && i <= |chunks|
  {
    Emitted(tok, chunks, PlanOf(ntokens[..i], maxLen).starts, overlapLen)
  }

  /** The text of the batch still open after the first `i` units. */
  function OpenAfter(chunks: seq<string>, ntokens: seq<nat>, maxLen: int, i: nat): string
    requires |chunks| == |ntokens| && i <= |chunks|
  {
    var starts := PlanOf(ntokens[..i], maxLen).starts;
    Body(chunks, |starts| == 1, starts[|starts| - 1], i)
  }

  /** The loop state of `create_overlapping_chunks`: the batches emitted so
      far, the open batch's text and its token total. */
  datatype Scan = Scan(batches: seq<string>, cur: string, curTokens: nat)

  /** One pass of the loop body over the unit `chunk` of `ntoken` tokens. */
  function Step(tok: Tokenizer, s: Scan, chunk: string, ntoken: nat, maxLen: int, overlapLen: int): Scan
  {
    if s.curTokens + ntoken <= maxLen then Scan(s.batches, s.cur + ParagraphBreak + chunk, s.curTokens + ntoken)
    else
      var closing := if |s.batches| > 0 then OverlapText(tok, s.batches[|s.batches| - 1], overlapLen) + s.cur else s.cur;
      Scan(s.batches + [closing], chunk, ntoken)
  }

  /** The loop state after the first `i` units. */
  function ScanAfter(tok: Tokenizer, chunks: seq<string>, ntokens: seq<nat>, maxLen: int, overlapLen: int, i: nat): Scan
    requires |chunks| == |ntokens| && i <= |chunks|
  {
    if i == 0 then Scan([], "", 0)
    else Step(tok, ScanAfter(tok, chunks, ntokens, maxLen, overlapLen, i - 1), chunks[i - 1], ntokens[i - 1], maxLen, overlapLen)
  }

  /** The step-by-step loop state agrees with the plan: its batches are the
      closed batches of `PlanOf`, its open text that plan's open batch. */
  lemma {:induction false} ScanAfterIsPlanned(tok: Tokenizer, chunks: seq<string>, ntokens: seq<nat>, maxLen: int, overlapLen: int, i: nat)
    requires |chunks| == |ntokens| && i <= |chunks|
    ensures ScanAfter(tok, chunks, ntokens, maxLen, overlapLen, i) == Planned(tok, chunks, ntokens, maxLen, overlapLen, i)
    decreases i
  {
    if i == 0 {
      assert ntokens[..0] == [];
    } else {
      ScanAfterIsPlanned(tok, chunks, ntokens, maxLen, overlapLen, i - 1);
      ScanStep(tok, chunks, ntokens, maxLen, overlapLen, i);
    }
  }

  /** The inductive step of `ScanAfterIsPlanned`. */
  lemma ScanStep(tok: Tokenizer, chunks: seq<string>, ntokens: seq<nat>, maxLen: int, overlapLen: int, i: nat)
    requires |chunks| == |ntokens| && 0 < i <= |chunks|
    requires ScanAfter(tok, chunks, ntokens, maxLen, overlapLen, i - 1) == Planned(tok, chunks, ntokens, maxLen, overlapLen, i - 1)
    ensures ScanAfter(tok, chunks, ntokens, maxLen, overlapLen, i) == Planned(tok, chunks, ntokens, maxLen, overlapLen, i)
  {
    StepPlanned(tok, chunks, ntokens, maxLen, overlapLen, i - 1);
  }

  /** The loop state the plan predicts after the first `i` units. */
  function Planned(tok: Tokenizer, chunks: seq<string>, ntokens: seq<nat>, maxLen: int, overlapLen: int, i: nat): Scan
    requires |chunks| == |ntokens| && i <= |chunks|
  {
    Scan(ClosedAfter(tok, chunks, ntokens, maxLen, overlapLen, i),
         OpenAfter(chunks, ntokens, maxLen, i),
         PlanOf(ntokens[..i], maxLen).curTokens)
  }

  /** One pass of the loop body takes the planned state after `j` units to
      the planned state after `j + 1`. */
  lemma StepPlanned(tok: Tokenizer, chunks: seq<string>, ntokens: seq<nat>, maxLen: int, overlapLen: int, j: nat)
    requires |chunks| == |ntokens| && j < |chunks|
    ensures Step(tok, Planned(tok, chunks, ntokens, maxLen, overlapLen, j), chunks[j], ntokens[j], maxLen, overlapLen)
      == Planned(tok, chunks, ntokens, maxLen, overlapLen, j + 1)
  {
    if PlanOf(ntokens[..j], maxLen).curTokens + ntokens[j] <= maxLen {
      StitchFits(tok, chunks, ntokens, maxLen, overlapLen, j);
    } else {
      StitchOverflows(tok, chunks, ntokens, maxLen, overlapLen, j);
      var open := OpenAfter(chunks, ntokens, maxLen, j);
      assert "" + open == open;
    }
  }

  /** `create_overlapping_chunks(chunks, ntokens, max_len, overlap_len)`. The
      `zip` stops at the shorter of the two lists. */
  method CreateOverlappingChunks(tok: Tokenizer, chunks: seq<string>, ntokens: seq<nat>, maxLen: int, overlapLen: int)
    returns (batches: seq<string>)
    ensures var n := if |chunks| < |ntokens| then |chunks| else |ntokens|;
      batches == Stitch(tok, chunks[..n], ntokens[..n], maxLen, overlapLen)
  {
    var n := if |chunks| < |ntokens| then |chunks| else |ntokens|;
    ghost var cs, ns := chunks[..n], ntokens[..n];
    batches := [];
    var cur: string := "";
    var curTokens: nat := 0;
    var i := 0;
    while i < n
      invariant 0 <= i <= n
      invariant Scan(batches, cur, curTokens) == ScanAfter(tok, cs, ns, maxLen, overlapLen, i)
    {
      var chunk, ntoken := chunks[i], ntokens[i];
      if curTokens + ntoken <= maxLen {
        cur := cur + ParagraphBreak + chunk;
        curTokens := curTokens + ntoken;
      } else {
        if |batches| > 0 {
          var overlapPart := OverlapText(tok, batches[|batches| - 1], overlapLen);
          cur := overlapPart + cur;
        }
        batches := batches + [cur];
        cur := chunk;
        curTokens := ntoken;
      }
      i := i + 1;
    }
    if cur != "" {
      batches := batches + [cur];
    }
    StitchIsScan(tok, cs, ns, maxLen, overlapLen);
  }

  /** After the last unit, the open batch is appended when it is not empty. */
  lemma StitchIsScan(tok: Tokenizer, chunks: seq<string>, ntokens: seq<nat>, maxLen: int, overlapLen: int)
    requires |chunks| == |ntokens|
    ensures var s := ScanAfter(tok, chunks, ntokens, maxLen, overlapLen, |chunks|);
      Stitch(tok, chunks, ntokens, maxLen, overlapLen) == if s.cur != "" then s.batches + [s.cur] else s.batches
  {
    ScanAfterIsPlanned(tok, chunks, ntokens, maxLen, overlapLen, |chunks|);
    assert ntokens[..|chunks|] == ntokens;
  }

  /** A unit that fits joins the open batch, after a paragraph break. */
  lemma StitchFits(tok: Tokenizer, chunks: seq<string>, ntokens: seq<nat>, maxLen: int, overlapLen: int, i: nat)
    requires |chunks| == |ntokens| && i < |chunks|
    requires PlanOf(ntokens[..i], maxLen).curTokens + ntokens[i] <= maxLen
    ensures PlanOf(ntokens[..i + 1], maxLen).curTokens == PlanOf(ntokens[..i], maxLen).curTokens + ntokens[i]
    ensures ClosedAfter(tok, chunks, ntokens, maxLen, overlapLen, i + 1) == ClosedAfter(tok, chunks, ntokens, maxLen, overlapLen, i)
    ensures OpenAfter(chunks, ntokens, maxLen, i + 1) == OpenAfter(chunks, ntokens, maxLen, i) + ParagraphBreak + chunks[i]
  {
    var p := PlanOf(ntokens[..i], maxLen);
    PlanOfSnoc(ntokens, i, maxLen);
    BodySnoc(chunks, |p.starts| == 1, p.starts[|p.starts| - 1], i);
  }

  /** A unit that does not fit closes the open batch, behind the overlap
      text of the batch emitted before it, and opens a batch of its own. */
  lemma StitchOverflows(tok: Tokenizer, chunks: seq<string>, ntokens: seq<nat>, maxLen: int, overlapLen: int, i: nat)
    requires |chunks| == |ntokens| && i < |chunks|
    requires PlanOf(ntokens[..i], maxLen).curTokens + ntokens[i] > maxLen
    ensures PlanOf(ntokens[..i + 1], maxLen).curTokens == ntokens[i]
    ensures var closed := ClosedAfter(tok, chunks, ntokens, maxLen, overlapLen, i);
      ClosedAfter(tok, chunks, ntokens, maxLen, overlapLen, i + 1)
      == closed + [(if |closed| > 0 then OverlapText(tok, closed[|closed| - 1], overlapLen) else "")
                   + OpenAfter(chunks, ntokens, maxLen, i)]
    ensures OpenAfter(chunks, ntokens, maxLen, i + 1) == chunks[i]
  {
    var p := PlanOf(ntokens[..i], maxLen);
    PlanOfSnoc(ntokens, i, maxLen);
    EmittedSnoc(tok, chunks, p.starts, i, overlapLen);
    assert Body(chunks, false, i, i + 1) == chunks[i];
  }

  /** One more unit either joins the open batch or opens a new one. */
  lemma PlanOfSnoc(ns: seq<nat>, i: nat, maxLen: int)
    requires i < |ns|
    ensures var prev := PlanOf(ns[..i], maxLen);
      PlanOf(ns[..i + 1], maxLen) ==
        if prev.curTokens + ns[i] <= maxLen then Plan(prev.starts, prev.curTokens + ns[i])
        else Plan(prev.starts + [i], ns[i])
  {
    assert ns[..i + 1][..i] == ns[..i];
  }

  /** Appending a unit to the open batch appends a break and the unit to its
      body. */
  lemma BodySnoc(chunks: seq<string>, first: bool, lo: nat, i: nat)
    requires lo <= i < |chunks|
    requires !first ==> lo < i
    ensures Body(chunks, first, lo, i + 1) == Body(chunks, first, lo, i) + ParagraphBreak + chunks[i]
  {
    if first {
      var us := chunks[lo..i + 1];
      assert us[..|us| - 1] == chunks[lo..i] && us[|us| - 1] == chunks[i];
    } else {
      var us := chunks[lo + 1..i + 1];
      assert us[..|us| - 1] == chunks[lo + 1..i] && us[|us| - 1] == chunks[i];
      var p := Paragraphs(chunks[lo + 1..i]);
      assert chunks[lo] + (p + ParagraphBreak + chunks[i]) == chunks[lo] + p + ParagraphBreak + chunks[i];
    }
  }

  /** Closing the open batch at unit `i` emits its body behind the overlap
      prefix. */
  lemma EmittedSnoc(tok: Tokenizer, chunks: seq<string>, starts: seq<nat>, i: nat, overlapLen: int)
    requires StartsOk(starts, |chunks|) && i < |chunks|
    requires starts[|starts| - 1] <= i
    requires |starts| > 1 ==> starts[|starts| - 1] < i
    ensures StartsOk(starts + [i], |chunks|)
    ensures var prev := Emitted(tok, chunks, starts, overlapLen);
      Emitted(tok, chunks, starts + [i], overlapLen) ==
        prev + [(if |prev| > 0 then OverlapText(tok, prev[|prev| - 1], overlapLen) else "")
                + Body(chunks, |starts| == 1, starts[|starts| - 1], i)]
  {
    var s := starts + [i];
    StartsSnoc(starts, |chunks|, |chunks|, i);
    var bodies := ClosedBodies(chunks, s);
    assert bodies[..|bodies| - 1] == ClosedBodies(chunks, starts);
  }

  // Properties of the plan

  /** The token total of batch `k`. */
  function GroupTokens(ntokens: seq<nat>, starts: seq<nat>, k: nat): nat
    requires StartsOk(starts, |ntokens|) && k < |starts|
  {
    SumRange(ntokens, starts[k], End(starts, |ntokens|, k))
  }

  /** Every batch keeps to the limit, except that a later batch of a single
      unit may exceed it; the first batch either keeps to it or is empty. */
  predicate WithinLimit(ntokens: seq<nat>, starts: seq<nat>, maxLen: int)
    requires StartsOk(starts, |ntokens|)
  {
    forall k :: 0 <= k < |starts| ==>
      GroupTokens(ntokens, starts, k) <= maxLen || End(starts, |ntokens|, k) - starts[k] == (if k == 0 then 0 else 1)
  }

  /** Every closed batch was closed because the next unit did not fit. */
  predicate Maximal(ntokens: seq<nat>, starts: seq<nat>, maxLen: int)
    requires StartsOk(starts, |ntokens|)
    requires |starts| > 1 ==> starts[|starts| - 1] < |ntokens|
  {
    forall k :: 0 <= k < |starts| - 1 ==> GroupTokens(ntokens, starts, k) + ntokens[starts[k + 1]] > maxLen
  }

  /** `starts` is a well-formed plan over `ntokens` that keeps to the limit
      and closes a batch only when the next unit does not fit. */
  predicate Greedy(ntokens: seq<nat>, starts: seq<nat>, maxLen: int)
  {
    && StartsOk(starts, |ntokens|)
    && (|starts| > 1 ==> starts[|starts| - 1] < |ntokens|)
    && WithinLimit(ntokens, starts, maxLen)
    && Maximal(ntokens, starts, maxLen)
  }

  /** The greedy plan keeps to the limit and closes a batch only when the
      next unit does not fit. */
  lemma {:induction false} PlanOfGreedy(ntokens: seq<nat>, maxLen: int)
    ensures Greedy(ntokens, PlanOf(ntokens, maxLen).starts, maxLen)
  {
    if |ntokens| > 0 {
      PlanOfGreedy(ntokens[..|ntokens| - 1], maxLen);
      GreedyStep(ntokens, maxLen);
    }
  }

  /** The inductive step of `PlanOfGreedy`. */
  lemma GreedyStep(ntokens: seq<nat>, maxLen: int)
    requires |ntokens| > 0
    requires Greedy(ntokens[..|ntokens| - 1], PlanOf(ntokens[..|ntokens| - 1], maxLen).starts, maxLen)
    ensures Greedy(ntokens, PlanOf(ntokens, maxLen).starts, maxLen)
  {
    var i := |ntokens| - 1;
    var prev := PlanOf(ntokens[..i], maxLen);
    assert prev.curTokens == SumRange(ntokens[..i], prev.starts[|prev.starts| - 1], i);
    if prev.curTokens + ntokens[i] <= maxLen {
      GreedyFits(ntokens, prev.starts, prev.curTokens, maxLen);
      assert PlanOf(ntokens, maxLen).starts == prev.starts;
    } else {
      GreedyOverflows(ntokens, prev.starts, prev.curTokens, maxLen);
      assert PlanOf(ntokens, maxLen).starts == prev.starts + [i];
    }
  }

  /** Batches closed before the last unit are the same batches over the
      longer list. */
  lemma GroupKept(ntokens: seq<nat>, ps: seq<nat>, starts: seq<nat>, k: nat)
    requires |ntokens| > 0 && StartsOk(ps, |ntokens| - 1) && StartsOk(starts, |ntokens|)
    requires k + 1 < |ps| <= |starts| && ps == starts[..|ps|]
    ensures GroupTokens(ntokens, starts, k) == GroupTokens(ntokens[..|ntokens| - 1], ps, k)
  {
    SumRangePrefix(ntokens, |ntokens| - 1, ps[k], ps[k + 1]);
  }

  /** The last unit joins the open batch, which holds `cur` tokens. */
  lemma GreedyFits(ntokens: seq<nat>, ps: seq<nat>, cur: nat, maxLen: int)
    requires |ntokens| > 0 && Greedy(ntokens[..|ntokens| - 1], ps, maxLen)
    requires cur == SumRange(ntokens[..|ntokens| - 1], ps[|ps| - 1], |ntokens| - 1)
    requires cur + ntokens[|ntokens| - 1] <= maxLen
    ensures Greedy(ntokens, ps, maxLen)
  {
    SumRangeExtend(ntokens, ps[|ps| - 1]);
    FitsWithinLimit(ntokens, ps, maxLen);
    FitsMaximal(ntokens, ps, maxLen);
    GreedyIntro(ntokens, ps, maxLen);
  }

  lemma GreedyIntro(ntokens: seq<nat>, starts: seq<nat>, maxLen: int)
    requires StartsOk(starts, |ntokens|)
    requires |starts| > 1 ==> starts[|starts| - 1] < |ntokens|
    requires WithinLimit(ntokens, starts, maxLen)
    requires Maximal(ntokens, starts, maxLen)
    ensures Greedy(ntokens, starts, maxLen)
  {
  }

  /** When the last unit joins the open batch, every batch still keeps to
      the limit. */
  lemma FitsWithinLimit(ntokens: seq<nat>, ps: seq<nat>, maxLen: int)
    requires |ntokens| > 0 && StartsOk(ps, |ntokens| - 1)
    requires |ps| > 1 ==> ps[|ps| - 1] < |ntokens| - 1
    requires WithinLimit(ntokens[..|ntokens| - 1], ps, maxLen)
    requires SumRange(ntokens, ps[|ps| - 1], |ntokens|) <= maxLen
    ensures StartsOk(ps, |ntokens|) && WithinLimit(ntokens, ps, maxLen)
  {
    var m, n := |ps| - 1, |ntokens|;
    forall k | 0 <= k < |ps|
      ensures GroupTokens(ntokens, ps, k) <= maxLen || End(ps, n, k) - ps[k] == (if k == 0 then 0 else 1)
    {
      if k < m {
        GroupKept(ntokens, ps, ps, k);
        assert End(ps, n, k) == End(ps, n - 1, k) == ps[k + 1];
      } else {
        assert GroupTokens(ntokens, ps, k) == SumRange(ntokens, ps[m], n);
      }
    }
  }

  /** When the last unit joins the open batch, every closed batch is still
      one the next unit did not fit. */
  lemma FitsMaximal(ntokens: seq<nat>, ps: seq<nat>, maxLen: int)
    requires |ntokens| > 0 && StartsOk(ps, |ntokens| - 1)
    requires |ps| > 1 ==> ps[|ps| - 1] < |ntokens| - 1
    requires Maximal(ntokens[..|ntokens| - 1], ps, maxLen)
    ensures StartsOk(ps, |ntokens|) && Maximal(ntokens, ps, maxLen)
  {
    forall k | 0 <= k < |ps| - 1 ensures GroupTokens(ntokens, ps, k) + ntokens[ps[k + 1]] > maxLen {
      GroupKept(ntokens, ps, ps, k);
    }
  }

  /** The last unit does not fit: the open batch closes and the unit opens a
      batch of its own. */
  lemma GreedyOverflows(ntokens: seq<nat>, ps: seq<nat>, cur: nat, maxLen: int)
    requires |ntokens| > 0 && Greedy(ntokens[..|ntokens| - 1], ps, maxLen)
    requires cur == SumRange(ntokens[..|ntokens| - 1], ps[|ps| - 1], |ntokens| - 1)
    requires cur + ntokens[|ntokens| - 1] > maxLen
    ensures Greedy(ntokens, ps + [|ntokens| - 1], maxLen)
  {
    OverflowsWithinLimit(ntokens, ps, maxLen);
    OverflowsMaximal(ntokens, ps, cur, maxLen);
    GreedyIntro(ntokens, ps + [|ntokens| - 1], maxLen);
  }

  /** When the last unit opens a batch of its own, every batch keeps to the
      limit or is that single unit. */
  lemma OverflowsWithinLimit(ntokens: seq<nat>, ps: seq<nat>, maxLen: int)
    requires |ntokens| > 0 && StartsOk(ps, |ntokens| - 1)
    requires |ps| > 1 ==> ps[|ps| - 1] < |ntokens| - 1
    requires WithinLimit(ntokens[..|ntokens| - 1], ps, maxLen)
    ensures StartsOk(ps + [|ntokens| - 1], |ntokens|)
    ensures WithinLimit(ntokens, ps + [|ntokens| - 1], maxLen)
  {
    var i, m, n := |ntokens| - 1, |ps| - 1, |ntokens|;
    var starts := ps + [i];
    StartsSnoc(ps, i, n, i);
    assert starts[..|ps|] == ps;
    forall k | 0 <= k < |starts|
      ensures GroupTokens(ntokens, starts, k) <= maxLen || End(starts, n, k) - starts[k] == (if k == 0 then 0 else 1)
    {
      if k < m {
        GroupKept(ntokens, ps, starts, k);
        assert End(starts, n, k) == End(ps, n - 1, k) == ps[k + 1];
      } else if k == m {
        SumRangePrefix(ntokens, i, ps[m], i);
        assert End(starts, n, k) == End(ps, n - 1, k) == i;
      }
    }
  }

  /** When the last unit opens a batch of its own, the batch it leaves was
      closed because the unit did not fit, and earlier batches stay so. */
  lemma OverflowsMaximal(ntokens: seq<nat>, ps: seq<nat>, cur: nat, maxLen: int)
    requires |ntokens| > 0 && StartsOk(ps, |ntokens| - 1)
    requires |ps| > 1 ==> ps[|ps| - 1] < |ntokens| - 1
    requires Maximal(ntokens[..|ntokens| - 1], ps, maxLen)
    requires cur == SumRange(ntokens[..|ntokens| - 1], ps[|ps| - 1], |ntokens| - 1)
    requires cur + ntokens[|ntokens| - 1] > maxLen
    ensures StartsOk(ps + [|ntokens| - 1], |ntokens|)
    ensures Maximal(ntokens, ps + [|ntokens| - 1], maxLen)
  {
    var i, m, n := |ntokens| - 1, |ps| - 1, |ntokens|;
    var starts := ps + [i];
    StartsSnoc(ps, i, n, i);
    assert starts[..|ps|] == ps;
    forall k | 0 <= k < |starts| - 1 ensures GroupTokens(ntokens, starts, k) + ntokens[starts[k + 1]] > maxLen {
      if k < m {
        GroupKept(ntokens, ps, starts, k);
      } else {
        SumRangePrefix(ntokens, i, ps[m], i);
        assert GroupTokens(ntokens, starts, k) == SumRange(ntokens, ps[m], i);
      }
    }
  }

  /** The first batch is empty exactly when the first unit alone exceeds the
      limit. */
  lemma FirstBatchEmpty(ntokens: seq<nat>, maxLen: int)
    requires |ntokens| > 0
    ensures var starts := PlanOf(ntokens, maxLen).starts;
      End(starts, |ntokens|, 0) == 0 <==> ntokens[0] > maxLen
  {
    var starts := PlanOf(ntokens, maxLen).starts;
    PlanOfGreedy(ntokens, maxLen);
    var e := End(starts, |ntokens|, 0);
    if e == 0 {
      assert GroupTokens(ntokens, starts, 0) + ntokens[starts[1]] > maxLen;
    } else {
      SumRangeAtLeast(ntokens, 0, e, 0);
    }
  }

  // The text of the batches

  /** Each emitted batch is its body behind the overlap text of the batch
      emitted before it; the first has no prefix. */
  lemma {:induction false} OverlappedAt(tok: Tokenizer, bodies: seq<string>, overlapLen: int, k: nat)
    requires k < |bodies|
    ensures var out := Overlapped(tok, bodies, overlapLen);
      out[k] == (if k > 0 then OverlapText(tok, out[k - 1], overlapLen) else "") + bodies[k]
  {
    if k < |bodies| - 1 {
      OverlappedAt(tok, bodies[..|bodies| - 1], overlapLen, k);
    }
  }

  /** The batches `create_overlapping_chunks` returns: every batch closed
      while scanning is its body behind the overlap text of the batch before
      it (the first has none), and the batch still open at the end follows,
      without a prefix, unless its text is empty. */
  lemma StitchBatches(tok: Tokenizer, chunks: seq<string>, ntokens: seq<nat>, maxLen: int, overlapLen: int, k: nat)
    requires |chunks| == |ntokens|
    ensures var starts := PlanOf(ntokens, maxLen).starts;
      var out := Stitch(tok, chunks, ntokens, maxLen, overlapLen);
      var m := |starts| - 1;
      && |out| == (if BatchBody(chunks, starts, m) != "" then m + 1 else m)
      && (k < m ==> out[k] == (if k > 0 then OverlapText(tok, out[k - 1], overlapLen) else "") + BatchBody(chunks, starts, k))
      && (k == m < |out| ==> out[k] == BatchBody(chunks, starts, k))
  {
    var starts := PlanOf(ntokens, maxLen).starts;
    if k < |starts| - 1 {
      OverlappedAt(tok, ClosedBodies(chunks, starts), overlapLen, k);
    }
  }

  /** The units of batch `k`. */
  function Group<T>(xs: seq<T>, starts: seq<nat>, k: nat): seq<T>
    requires StartsOk(starts, |xs|) && k < |starts|
  {
    xs[starts[k]..End(starts, |xs|, k)]
  }

  /** The units of every batch, batch by batch. */
  function Groups<T>(xs: seq<T>, starts: seq<nat>): (gs: seq<seq<T>>)
    requires StartsOk(starts, |xs|)
    ensures |gs| == |starts|
  {
    seq(|starts|, k requires 0 <= k < |starts| => Group(xs, starts, k))
  }

  /** The batches cut the units into consecutive runs: taken in order they
      give back every unit exactly once. */
  lemma {:induction false} GroupsCover<T>(xs: seq<T>, starts: seq<nat>)
    requires StartsOk(starts, |xs|)
    ensures Flatten(Groups(xs, starts)) == xs
    decreases |starts|
  {
    var m := |starts| - 1;
    var gs := Groups(xs, starts);
    if m == 0 {
      assert gs[0] == xs[0..|xs|] == xs;
      assert gs[..0] == [];
    } else {
      var cut := starts[m];
      var pre := xs[..cut];
      GroupsPrefix(xs, starts);
      GroupsCover(pre, starts[..m]);
      assert gs[..m] == Groups(pre, starts[..m]);
      assert gs[m] == xs[cut..];
      assert xs == pre + xs[cut..];
    }
  }

  /** On strings, flattening is the concatenation `Text.Concat`. */
  lemma {:induction false} FlattenIsConcat(xs: seq<string>)
    ensures Flatten(xs) == Concat(xs)
  {
    if |xs| > 0 {
      var n := |xs| - 1;
      FlattenIsConcat(xs[..n]);
      ConcatAppend(xs[..n], [xs[n]]);
      assert xs == xs[..n] + [xs[n]];
      assert [xs[n]][1..] == [];
    }
  }

  /** Every batch but the last is a batch of the units before the last one
      opens. */
  lemma GroupsPrefix<T>(xs: seq<T>, starts: seq<nat>)
    requires StartsOk(starts, |xs|) && |starts| > 1
    ensures StartsOk(starts[..|starts| - 1], starts[|starts| - 1])
    ensures Groups(xs, starts)[..|starts| - 1] == Groups(xs[..starts[|starts| - 1]], starts[..|starts| - 1])
  {
    var m := |starts| - 1;
    var cut, ps := starts[m], starts[..m];
    var pre := xs[..cut];
    var gs, pgs := Groups(xs, starts), Groups(pre, ps);
    forall k | 0 <= k < m ensures gs[k] == pgs[k] {
      assert End(starts, |xs|, k) == End(ps, cut, k);
    }
  }

  /** The paragraphs of a non-empty list are the list joined by paragraph
      breaks, behind one more break. */
  lemma {:induction false} ParagraphsJoin(us: seq<string>)
    requires |us| > 0
    ensures Paragraphs(us) == ParagraphBreak + Join(us, ParagraphBreak)
  {
    var init := us[..|us| - 1];
    if |init| > 0 {
      ParagraphsJoin(init);
      JoinSnoc(init, us[|us| - 1], ParagraphBreak);
      assert init + [us[|us| - 1]] == us;
    }
  }

  /** A batch's text is its units joined by paragraph breaks; the first batch,
      grown from the empty string, also starts with a paragraph break when it
      holds any unit. */
  lemma BatchBodyJoin(chunks: seq<string>, starts: seq<nat>, k: nat)
    requires StartsOk(starts, |chunks|) && k < |starts|
    requires k > 0 ==> starts[k] < End(starts, |chunks|, k)
    ensures var g := Group(chunks, starts, k);
      BatchBody(chunks, starts, k) == (if k == 0 && |g| > 0 then ParagraphBreak else "") + Join(g, ParagraphBreak)
  {
    var g := Group(chunks, starts, k);
    var lo, hi := starts[k], End(starts, |chunks|, k);
    if k == 0 {
      if |g| > 0 {
        ParagraphsJoin(g);
      }
    } else {
      var rest := chunks[lo + 1..hi];
      assert g[0] == chunks[lo] && g[1..] == rest;
      if |rest| > 0 {
        ParagraphsJoin(rest);
      }
    }
  }
}
