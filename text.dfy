/** The Python string operations the translation pipeline is built from:
    `sep.join`, `str.split(sep)`, `str.strip()` and `str.replace('"""', '')`,
    plus the concatenation of a list of strings. */
module Text {

  /** The paragraph delimiter the document is split on and joined with. */
  const ParagraphBreak: string := "\n\n"

  /** Concatenation of all the lists in order (`''.join(xs)` for strings). */
  function Concat(xs: seq<string>): string
  {
    if |xs| == 0 then [] else xs[0] + Concat(xs[1..])
  }

  lemma {:induction false} ConcatAppend(xs: seq<string>, ys: seq<string>)
    ensures Concat(xs + ys) == Concat(xs) + Concat(ys)
  {
    if |xs| == 0 {
      assert xs + ys == ys;
    } else {
      assert (xs + ys)[1..] == xs[1..] + ys;
      ConcatAppend(xs[1..], ys);
    }
  }

  /** Python's `sep.join(xs)`. */
  function Join(xs: seq<string>, sep: string): string
  {
    if |xs| == 0 then ""
    else if |xs| == 1 then xs[0]
    else xs[0] + sep + Join(xs[1..], sep)
  }

  /** Joining one more string at the end adds the separator and that string. */
  lemma {:induction false} JoinSnoc(xs: seq<string>, y: string, sep: string)
    requires |xs| > 0
    ensures Join(xs + [y], sep) == Join(xs, sep) + sep + y
  {
    if |xs| == 1 {
      assert (xs + [y])[1..] == [y];
    } else {
      assert (xs + [y])[1..] == xs[1..] + [y];
      JoinSnoc(xs[1..], y, sep);
    }
  }

  /** Python's `s.split(sep)` for a non-empty separator: cut at every
      occurrence of `sep`, scanning from the left. */
  function Split(s: string, sep: string): (parts: seq<string>)
    requires |sep| > 0
    ensures |parts| > 0
    decreases |s|
  {
    if |s| == 0 then [""]
    else if |sep| <= |s| && s[..|sep|] == sep then [""] + Split(s[|sep|..], sep)
    else
      var rest := Split(s[1..], sep);
      [[s[0]] + rest[0]] + rest[1..]
  }

  /** Joining the parts of a split with the same separator gives back the
      original text. */
  lemma {:induction false} JoinSplit(s: string, sep: string)
    requires |sep| > 0
    ensures Join(Split(s, sep), sep) == s
    decreases |s|
  {
    if |s| == 0 {
    } else if |sep| <= |s| && s[..|sep|] == sep {
      var rest := Split(s[|sep|..], sep);
      JoinSplit(s[|sep|..], sep);
      JoinSplitSep(s, sep, rest);
    } else {
      var rest := Split(s[1..], sep);
      JoinSplit(s[1..], sep);
      JoinSplitStep(s[0], rest, sep);
      assert s == [s[0]] + s[1..];
    }
  }

  /** A separator at the front becomes an empty first part. */
  lemma JoinSplitSep(s: string, sep: string, rest: seq<string>)
    requires 0 < |sep| <= |s| && s[..|sep|] == sep
    requires |rest| > 0 && Join(rest, sep) == s[|sep|..]
    ensures Join([""] + rest, sep) == s
  {
    var parts := [""] + rest;
    assert parts[0] == "" && parts[1..] == rest;
    calc {
      Join(parts, sep);
      parts[0] + sep + Join(parts[1..], sep);
      sep + s[|sep|..];
      s[..|sep|] + s[|sep|..];
      s;
    }
  }

  /** Putting one character in front of the first part puts it in front of
      the joined text. */
  lemma JoinSplitStep(c: char, rest: seq<string>, sep: string)
    requires |rest| > 0
    ensures Join([[c] + rest[0]] + rest[1..], sep) == [c] + Join(rest, sep)
  {
    var parts := [[c] + rest[0]] + rest[1..];
    assert parts[1..] == rest[1..];
  }

  /** `sep` occurs in `s` starting at index `i`. */
  predicate OccursAt(s: string, sep: string, i: int)
  {
    0 <= i && i + |sep| <= |s| && s[i..i + |sep|] == sep
  }

  /** No part produced by `Split` contains the separator. */
  lemma {:induction false} SplitPartsFree(s: string, sep: string)
    requires |sep| > 0
    ensures forall k, i :: 0 <= k < |Split(s, sep)| ==> !OccursAt(Split(s, sep)[k], sep, i)
    decreases |s|
  {
    if |s| == 0 {
    } else if |sep| <= |s| && s[..|sep|] == sep {
      SplitPartsFree(s[|sep|..], sep);
      var parts := Split(s, sep);
      assert parts[1..] == Split(s[|sep|..], sep);
      forall k, i | 0 <= k < |parts| ensures !OccursAt(parts[k], sep, i) {
        if k > 0 { assert parts[k] == parts[1..][k - 1]; }
      }
    } else {
      var rest := Split(s[1..], sep);
      SplitPartsFree(s[1..], sep);
      SplitHeadPrefix(s, sep);
      var head := [s[0]] + rest[0];
      forall i ensures !OccursAt(head, sep, i) {
        HeadFree(s, sep, rest[0], i);
      }
      var parts := [head] + rest[1..];
      forall k, i | 0 <= k < |parts| ensures !OccursAt(parts[k], sep, i) {
        if k > 0 { assert parts[k] == rest[k]; }
      }
    }
  }

  /** The first part of a split is a prefix of the text. */
  lemma {:induction false} SplitHeadPrefix(s: string, sep: string)
    requires |sep| > 0
    ensures |Split(s, sep)[0]| <= |s| && s[..|Split(s, sep)[0]|] == Split(s, sep)[0]
    decreases |s|
  {
    if |s| > 0 && !(|sep| <= |s| && s[..|sep|] == sep) {
      SplitHeadPrefix(s[1..], sep);
    }
  }

  /** `Split` cuts at the leftmost occurrence of `sep`: none starts inside the
      first part, and when there is a second part the separator stands right
      after the first one and the remaining parts are the split of the text
      behind it. This pins the cuts down, as Python's scan does. */
  lemma {:induction false} SplitLeftmost(s: string, sep: string)
    requires |sep| > 0
    ensures FirstCutLeftmost(s, sep) && RestSplitAfterCut(s, sep)
    decreases |s|
  {
    if |s| == 0 {
    } else if |sep| <= |s| && s[..|sep|] == sep {
      var parts := Split(s, sep);
      assert parts[0] == "" && parts[1..] == Split(s[|sep|..], sep);
      assert OccursAt(s, sep, 0);
    } else {
      SplitLeftmost(s[1..], sep);
      FirstCutStep(s, sep);
      RestSplitStep(s, sep);
    }
  }

  /** No occurrence of `sep` starts inside the first part of the split. */
  predicate FirstCutLeftmost(s: string, sep: string)
    requires |sep| > 0
  {
    forall i :: 0 <= i < |Split(s, sep)[0]| ==> !OccursAt(s, sep, i)
  }

  /** When there is a second part, `sep` stands right after the first part
      and the other parts are the split of the text behind it. */
  predicate RestSplitAfterCut(s: string, sep: string)
    requires |sep| > 0
  {
    var parts := Split(s, sep);
    |parts| > 1 ==> OccursAt(s, sep, |parts[0]|) && Split(s[|parts[0]| + |sep|..], sep) == parts[1..]
  }

  /** The first cut stays leftmost when a character that does not start a
      separator is put in front. */
  lemma FirstCutStep(s: string, sep: string)
    requires 0 < |sep| && 0 < |s| && !(|sep| <= |s| && s[..|sep|] == sep)
    requires FirstCutLeftmost(s[1..], sep)
    ensures FirstCutLeftmost(s, sep)
  {
    var rest := Split(s[1..], sep);
    assert |Split(s, sep)[0]| == 1 + |rest[0]|;
    forall i | 0 <= i < 1 + |rest[0]| ensures !OccursAt(s, sep, i) {
      if i > 0 {
        OccursShift(s, sep, i);
      }
    }
  }

  /** The later cuts carry over when a character that does not start a
      separator is put in front. */
  lemma RestSplitStep(s: string, sep: string)
    requires 0 < |sep| && 0 < |s| && !(|sep| <= |s| && s[..|sep|] == sep)
    requires RestSplitAfterCut(s[1..], sep)
    ensures RestSplitAfterCut(s, sep)
  {
    var rest := Split(s[1..], sep);
    var parts := Split(s, sep);
    assert |parts[0]| == 1 + |rest[0]| && parts[1..] == rest[1..];
    if |rest| > 1 {
      OccursShift(s, sep, 1 + |rest[0]|);
      DropAfterFirst(s, 1 + |rest[0]| + |sep|);
    }
  }

  /** Dropping `j` characters is dropping the first and then `j - 1`. */
  lemma DropAfterFirst(s: string, j: int)
    requires 1 <= j <= |s|
    ensures s[j..] == s[1..][j - 1..]
  {
  }

  /** An occurrence past the first character is an occurrence in the rest. */
  lemma OccursShift(s: string, sep: string, i: int)
    requires 0 < i && 0 < |s|
    ensures OccursAt(s, sep, i) <==> OccursAt(s[1..], sep, i - 1)
  {
    if i + |sep| <= |s| {
      var a, b := s[i..i + |sep|], s[1..][i - 1..i - 1 + |sep|];
      assert forall k :: 0 <= k < |a| ==> a[k] == b[k];
    }
  }

  /** A prefix of `s` that does not start with `sep`, and whose tail after
      the first character holds no `sep`, holds no `sep` at all. */
  lemma HeadFree(s: string, sep: string, tail: string, i: int)
    requires 0 < |sep| && 0 < |s| && !(|sep| <= |s| && s[..|sep|] == sep)
    requires 1 + |tail| <= |s| && s[..1 + |tail|] == [s[0]] + tail
    requires forall j :: !OccursAt(tail, sep, j)
    ensures !OccursAt([s[0]] + tail, sep, i)
  {
    var head := [s[0]] + tail;
    if OccursAt(head, sep, i) && i > 0 {
      assert head[i..i + |sep|] == tail[i - 1..i - 1 + |sep|];
      assert OccursAt(tail, sep, i - 1);
    }
  }

  /** Python's `str.isspace` for one character: ASCII whitespace, the
      information separators, NEL, NBSP and the Unicode space separators. */
  predicate IsSpace(c: char)
  {
    c == ' ' || c == '\t' || c == '\n' || c == '\r' || c == '\U{000B}' || c == '\U{000C}'
    || ('\U{001C}' <= c <= '\U{001F}')
    || c == '\U{0085}' || c == '\U{00A0}' || c == '\U{1680}'
    || ('\U{2000}' <= c <= '\U{200A}')
    || c == '\U{2028}' || c == '\U{2029}' || c == '\U{202F}' || c == '\U{205F}' || c == '\U{3000}'
  }

  /** The number of whitespace characters `s` starts with. */
  function LeadingSpaces(s: string): (n: nat)
    ensures n <= |s|
    ensures forall k :: 0 <= k < n ==> IsSpace(s[k])
    ensures n == |s| || !IsSpace(s[n])
  {
    if |s| > 0 && IsSpace(s[0]) then 1 + LeadingSpaces(s[1..]) else 0
  }

  /** The number of whitespace characters `s` ends with. */
  function TrailingSpaces(s: string): (n: nat)
    ensures n <= |s|
    ensures forall k :: |s| - n <= k < |s| ==> IsSpace(s[k])
    ensures n == |s| || !IsSpace(s[|s| - 1 - n])
  {
    if |s| > 0 && IsSpace(s[|s| - 1]) then 1 + TrailingSpaces(s[..|s| - 1]) else 0
  }

  /** `r` is the slice of `s` starting at `i`, and every character of `s`
      outside that slice is whitespace. */
  predicate CutsOnlySpace(s: string, r: string, i: nat)
  {
    && i + |r| <= |s| && r == s[i..i + |r|]
    && (forall k :: 0 <= k < i ==> IsSpace(s[k]))
    && (forall k :: i + |r| <= k < |s| ==> IsSpace(s[k]))
  }

  /** Python's `s.strip()`: the slice of `s` between its leading and its
      trailing whitespace. Everything cut off is whitespace and the result
      neither starts nor ends with whitespace. */
  function Strip(s: string): (r: string)
    ensures CutsOnlySpace(s, r, LeadingSpaces(s))
    ensures r == [] || (!IsSpace(r[0]) && !IsSpace(r[|r| - 1]))
  {
    var i := LeadingSpaces(s);
    var t := s[i..];
    var j := TrailingSpaces(t);
    StripSlice(s, i, t, j);
    t[..|t| - j]
  }

  /** Cutting the leading whitespace and then the trailing whitespace of
      what is left cuts only whitespace, down to non-space ends. */
  lemma StripSlice(s: string, i: nat, t: string, j: nat)
    requires i == LeadingSpaces(s) && t == s[i..] && j == TrailingSpaces(t)
    ensures CutsOnlySpace(s, t[..|t| - j], i)
    ensures var r := t[..|t| - j]; r == [] || (!IsSpace(r[0]) && !IsSpace(r[|r| - 1]))
  {
    assert forall k :: i + (|t| - j) <= k < |s| ==> s[k] == t[k - i];
  }

  /** Stripping twice is the same as stripping once. */
  lemma StripIdempotent(s: string)
    ensures Strip(Strip(s)) == Strip(s)
  {
    var r := Strip(s);
    assert LeadingSpaces(r) == 0;
    assert TrailingSpaces(r[LeadingSpaces(r)..]) == 0;
  }

  /** Three double quotes start at index `i` of `s`. */
  predicate TripleAt(s: string, i: int)
  {
    0 <= i && i + 3 <= |s| && s[i] == '"' && s[i + 1] == '"' && s[i + 2] == '"'
  }

  predicate HasTriple(s: string)
  {
    exists i :: 0 <= i < |s| && TripleAt(s, i)
  }

  /** Python's `s.replace('"""', '')`: a left-to-right scan that drops every
      non-overlapping occurrence of three double quotes. */
  function RemoveTripleQuotes(s: string): string
  {
    if |s| == 0 then ""
    else if TripleAt(s, 0) then RemoveTripleQuotes(s[3..])
    else [s[0]] + RemoveTripleQuotes(s[1..])
  }

  /** The number of double quotes `s` starts with. */
  function LeadingQuotes(s: string): (n: nat)
    ensures n <= |s|
  {
    if |s| > 0 && s[0] == '"' then 1 + LeadingQuotes(s[1..]) else 0
  }

  /** A leading run of `n` quotes becomes a run of `n % 3` quotes. */
  lemma {:induction false} RemoveTripleLeading(s: string)
    ensures LeadingQuotes(RemoveTripleQuotes(s)) == LeadingQuotes(s) % 3
    decreases |s|
  {
    if |s| == 0 {
    } else if TripleAt(s, 0) {
      RemoveTripleLeading(s[3..]);
      assert LeadingQuotes(s) == 3 + LeadingQuotes(s[3..]) by {
        assert s[1..][1..][1..] == s[3..];
        assert LeadingQuotes(s[1..][1..]) == 1 + LeadingQuotes(s[1..][1..][1..]);
        assert LeadingQuotes(s[1..]) == 1 + LeadingQuotes(s[1..][1..]);
      }
    } else if s[0] != '"' {
    } else {
      RemoveTripleLeading(s[1..]);
      // one or two quotes lead s, so the rest leads with zero or one
      if |s| > 1 && s[1] == '"' {
        assert !(|s| > 2 && s[2] == '"');
        assert LeadingQuotes(s[1..][1..]) == 0;
      }
    }
  }

  /** A run of `n` double quotes. */
  function Quotes(n: nat): (q: string)
    ensures |q| == n && forall k :: 0 <= k < n ==> q[k] == '"'
  {
    seq(n, k => '"')
  }

  /** Three quotes start the text exactly when they start its part in
      front of a character that is not a quote. */
  lemma TripleAtFront(u: string, w: string)
    requires |w| == 0 || w[0] != '"'
    ensures TripleAt(u + w, 0) <==> TripleAt(u, 0)
  {
    if |w| > 0 && |u| < 3 {
      assert (u + w)[|u|] == w[0];
    }
  }

  /** The scan never carries a match across a character that is not a
      quote: text in front of such a character is replaced on its own. */
  lemma {:induction false} RemoveTripleSplit(u: string, w: string)
    requires |w| == 0 || w[0] != '"'
    ensures RemoveTripleQuotes(u + w) == RemoveTripleQuotes(u) + RemoveTripleQuotes(w)
    decreases |u|
  {
    if |u| == 0 {
      assert u + w == w;
    } else if TripleAt(u, 0) {
      RemoveTripleSplit(u[3..], w);
      SplitAfterTriple(u, w);
    } else {
      RemoveTripleSplit(u[1..], w);
      SplitAfterChar(u, w);
    }
  }

  /** The step of `RemoveTripleSplit` where `u` starts with three quotes. */
  lemma {:induction false} SplitAfterTriple(u: string, w: string)
    requires TripleAt(u, 0) && (|w| == 0 || w[0] != '"')
    requires RemoveTripleQuotes(u[3..] + w) == RemoveTripleQuotes(u[3..]) + RemoveTripleQuotes(w)
    ensures RemoveTripleQuotes(u + w) == RemoveTripleQuotes(u) + RemoveTripleQuotes(w)
  {
    TripleAtFront(u, w);
    assert (u + w)[3..] == u[3..] + w;
  }

  /** The step of `RemoveTripleSplit` where `u` does not start with three
      quotes. */
  lemma {:induction false} SplitAfterChar(u: string, w: string)
    requires |u| > 0 && !TripleAt(u, 0) && (|w| == 0 || w[0] != '"')
    requires RemoveTripleQuotes(u[1..] + w) == RemoveTripleQuotes(u[1..]) + RemoveTripleQuotes(w)
    ensures RemoveTripleQuotes(u + w) == RemoveTripleQuotes(u) + RemoveTripleQuotes(w)
  {
    TripleAtFront(u, w);
    assert (u + w)[1..] == u[1..] + w;
  }

  /** A character other than a quote in front is kept and the scan goes on
      behind it. */
  lemma RemoveTripleCons(c: char, w: string)
    requires c != '"'
    ensures RemoveTripleQuotes([c] + w) == [c] + RemoveTripleQuotes(w)
  {
    assert ([c] + w)[1..] == w;
  }

  /** A character other than a quote survives in place, and the text on each
      side of it is replaced independently. */
  lemma RemoveTripleAround(u: string, c: char, v: string)
    requires c != '"'
    ensures RemoveTripleQuotes(u + [c] + v) == RemoveTripleQuotes(u) + [c] + RemoveTripleQuotes(v)
  {
    RemoveTripleSplit(u, [c] + v);
    RemoveTripleCons(c, v);
    assert u + [c] + v == u + ([c] + v);
  }

  /** Text behind a character that is not a quote is replaced on its own. */
  lemma RemoveTripleAfter(u: string, w: string)
    requires |u| == 0 || u[|u| - 1] != '"'
    ensures RemoveTripleQuotes(u + w) == RemoveTripleQuotes(u) + RemoveTripleQuotes(w)
  {
    if |u| == 0 {
      assert u + w == w;
    } else {
      var u0 := u[..|u| - 1];
      var c := u[|u| - 1];
      assert u == u0 + [c] + "";
      assert u + w == u0 + [c] + w;
      RemoveTripleAround(u0, c, w);
      RemoveTripleAround(u0, c, "");
    }
  }

  /** A run of `n` quotes on its own becomes a run of `n % 3` quotes. */
  lemma {:induction false} RemoveTripleQuotesRun(n: nat)
    ensures RemoveTripleQuotes(Quotes(n)) == Quotes(n % 3)
    decreases n
  {
    var q := Quotes(n);
    if n >= 3 {
      assert TripleAt(q, 0);
      assert q[3..] == Quotes(n - 3);
      RemoveTripleQuotesRun(n - 3);
    } else if n > 0 {
      assert !TripleAt(q, 0);
      assert q[1..] == Quotes(n - 1);
      RemoveTripleQuotesRun(n - 1);
      if n == 2 {
        assert q[1..][1..] == Quotes(0);
      }
    }
  }

  /** Every maximal run of `n` quotes, wherever it stands, shrinks to `n % 3`
      quotes, and the text around it is replaced independently. */
  lemma RemoveTripleRun(u: string, n: nat, v: string)
    requires |u| == 0 || u[|u| - 1] != '"'
    requires |v| == 0 || v[0] != '"'
    ensures RemoveTripleQuotes(u + Quotes(n) + v) == RemoveTripleQuotes(u) + Quotes(n % 3) + RemoveTripleQuotes(v)
  {
    RemoveTripleSplit(u + Quotes(n), v);
    RemoveTripleAfter(u, Quotes(n));
    RemoveTripleQuotesRun(n);
  }

  /** After the replacement no three double quotes remain. */
  lemma {:induction false} RemoveTripleNoTriple(s: string)
    ensures !HasTriple(RemoveTripleQuotes(s))
    decreases |s|
  {
    if |s| == 0 {
    } else if TripleAt(s, 0) {
      RemoveTripleNoTriple(s[3..]);
    } else {
      var rest := RemoveTripleQuotes(s[1..]);
      var r := [s[0]] + rest;
      RemoveTripleNoTriple(s[1..]);
      forall i | 0 <= i < |r| ensures !TripleAt(r, i) {
        if i == 0 {
          RemoveTripleLeading(s);
        } else {
          assert TripleAt(r, i) == TripleAt(rest, i - 1);
        }
      }
    }
  }

  /** The characters other than double quotes, in order. */
  function NonQuotes(s: string): string
  {
    if |s| == 0 then "" else (if s[0] == '"' then "" else [s[0]]) + NonQuotes(s[1..])
  }

  /** The replacement removes double quotes only: every other character
      survives, in order. */
  lemma {:induction false} RemoveTripleKeepsText(s: string)
    ensures NonQuotes(RemoveTripleQuotes(s)) == NonQuotes(s)
    decreases |s|
  {
    if |s| == 0 {
    } else if TripleAt(s, 0) {
      RemoveTripleKeepsText(s[3..]);
      assert s[1..][1..][1..] == s[3..];
      assert NonQuotes(s[1..][1..]) == NonQuotes(s[3..]);
      assert NonQuotes(s[1..]) == NonQuotes(s[3..]);
    } else {
      RemoveTripleKeepsText(s[1..]);
      assert ([s[0]] + RemoveTripleQuotes(s[1..]))[1..] == RemoveTripleQuotes(s[1..]);
    }
  }

  /** Text without three consecutive quotes is left as it is; so replacing a
      second time changes nothing. */
  lemma {:induction false} RemoveTripleIdentity(s: string)
    requires !HasTriple(s)
    ensures RemoveTripleQuotes(s) == s
    decreases |s|
  {
    if |s| > 0 {
      assert !TripleAt(s, 0);
      assert !HasTriple(s[1..]) by {
        forall i | TripleAt(s[1..], i) ensures TripleAt(s, i + 1) { }
      }
      RemoveTripleIdentity(s[1..]);
    }
  }

  lemma RemoveTripleIdempotent(s: string)
    ensures RemoveTripleQuotes(RemoveTripleQuotes(s)) == RemoveTripleQuotes(s)
  {
    RemoveTripleNoTriple(s);
    RemoveTripleIdentity(RemoveTripleQuotes(s));
  }
}
