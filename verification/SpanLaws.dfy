/** The character-by-character span machine against the regular expression. */
module SpanLaws {
  import opened Text
  import opened Regex
  import opened RegexLaws
  import opened Replace
  import opened Scrubber

  /** The first `close` at or after `i`, or the end of the text. */
  function CloseAt(close: char, s: string, i: nat): (j: nat)
    requires i <= |s|
    ensures i <= j <= |s| && (j < |s| ==> s[j] == close)
    ensures forall k :: i <= k < j ==> s[k] != close
    decreases |s| - i
  {
    if i == |s| || s[i] == close then i else CloseAt(close, s, i + 1)
  }

  /** Where the span that opens at `i` ends, if one does. */
  function SpanEnd(open: char, close: char, s: string, i: nat): (e: Option<nat>)
    requires i <= |s|
    ensures e.Some? ==> i + 1 < e.value <= |s|
  {
    if i < |s| && s[i] == open && CloseAt(close, s, i + 1) < |s| then Some(CloseAt(close, s, i + 1) + 1) else None
  }

  /** Leftmost, non-overlapping replacement of `open ... close`, said without a regular
      expression. */
  function ReplaceSpans(open: char, close: char, rep: Replacement, s: string): string
    decreases |s|
  {
    if s == "" then ""
    else
      match SpanEnd(open, close, s, 0)
      case Some(e) => Expand(rep, s[..e]) + ReplaceSpans(open, close, rep, s[e..])
      case None => [s[0]] + ReplaceSpans(open, close, rep, s[1..])
  }

  /** `[^close]* close` from `m` ends only after the next `close`. */
  lemma RunThenClose(tail: Regex, close: char, s: string, m: nat, e: nat)
    requires tail.Cat? && tail.head.Rep? && tail.head.sub.Class? && ClassIsNot(tail.head.sub.ranges, close)
    requires tail.tail == Literal([close]) && m <= |s| && e in Ends(tail, s, m)
    ensures CloseAt(close, s, m) < |s| && e == CloseAt(close, s, m) + 1
  {
    var run := tail.head;
    var k := BindFrom(tail.tail, s, m, Ends(run, s, m), e);
    RunEnds(run, s, m);
    SingleEnds(tail.tail, s, k);
    assert AllAccepted(run.sub, s, m, k);
    assert forall q :: m <= q < k ==> Accepts(run.sub, s[q]) && s[q] != close;
  }

  lemma SpanEndsOnly(r: Regex, s: string, i: nat, e: nat)
    requires IsSpan(r) && i <= |s| && e in Ends(r, s, i)
    ensures SpanEnd(r.head.text[0], r.tail.tail.text[0], s, i) == Some(e)
  {
    var m := BindFrom(r.tail, s, i, Ends(r.head, s, i), e);
    SingleEnds(r.head, s, i);
    assert r.tail.tail.text == [r.tail.tail.text[0]];
    RunThenClose(r.tail, r.tail.tail.text[0], s, m, e);
  }

  lemma SpanEndsHas(r: Regex, s: string, i: nat)
    requires IsSpan(r) && i <= |s| && SpanEnd(r.head.text[0], r.tail.tail.text[0], s, i).Some?
    ensures Ends(r, s, i) != []
  {
    var run := r.tail.head;
    var j := CloseAt(r.tail.tail.text[0], s, i + 1);
    SingleEnds(r.head, s, i);
    RunEnds(run, s, i + 1);
    SingleEnds(r.tail.tail, s, j);
    assert AllAccepted(run.sub, s, i + 1, j);
    BindHas(r.tail.tail, s, i + 1, Ends(run, s, i + 1), j, j + 1);
    BindHas(r.tail, s, i, Ends(r.head, s, i), i + 1, j + 1);
  }

  /** A span pattern matches exactly from an `open` through the next `close`. */
  lemma SpanEnds(r: Regex, s: string, i: nat)
    requires IsSpan(r) && i <= |s|
    ensures match SpanEnd(r.head.text[0], r.tail.tail.text[0], s, i) {
              case Some(e) => Ends(r, s, i) != [] && Ends(r, s, i)[0] == e
              case None => Ends(r, s, i) == []
            }
  {
    if Ends(r, s, i) != [] {
      SpanEndsOnly(r, s, i, Ends(r, s, i)[0]);
    } else if SpanEnd(r.head.text[0], r.tail.tail.text[0], s, i).Some? {
      SpanEndsHas(r, s, i);
    }
  }

  lemma {:induction false} CloseAtInSuffix(close: char, s: string, i: nat, k: nat)
    requires i <= k <= |s|
    ensures CloseAt(close, s, k) == i + CloseAt(close, s[i..], k - i)
    decreases |s| - k
  {
    if k < |s| && s[k] != close { CloseAtInSuffix(close, s, i, k + 1); }
  }

  lemma SpanEndInSuffix(open: char, close: char, s: string, i: nat)
    requires i < |s|
    ensures SpanEnd(open, close, s[i..], 0) ==
            if SpanEnd(open, close, s, i).Some? then Some(SpanEnd(open, close, s, i).value - i) else None
  {
    CloseAtInSuffix(close, s, i, i + 1);
  }

  /** `ReplaceSpans` read off at a position of a longer text. */
  lemma SpansAt(open: char, close: char, rep: Replacement, s: string, i: nat)
    requires i < |s|
    ensures ReplaceSpans(open, close, rep, s[i..]) ==
            match SpanEnd(open, close, s, i) {
              case Some(e) => Expand(rep, s[i..e]) + ReplaceSpans(open, close, rep, s[e..])
              case None => [s[i]] + ReplaceSpans(open, close, rep, s[i + 1..])
            }
  {
    SpanEndInSuffix(open, close, s, i);
    var e := SpanEnd(open, close, s, i);
    CutSuffix(s, i, if e.Some? then e.value else i + 1);
  }

  lemma {:induction false} ReplaceFromIsSpans(r: Regex, rep: Replacement, s: string, i: nat, matched: bool)
    requires IsSpan(r) && i <= |s|
    ensures ReplaceFrom(r, rep, s, i, matched)
            == ReplaceSpans(r.head.text[0], r.tail.tail.text[0], rep, s[i..])
    decreases |s| - i
  {
    var end := SpanEnd(r.head.text[0], r.tail.tail.text[0], s, i);
    SpanEnds(r, s, i);
    if i < |s| {
      SpansAt(r.head.text[0], r.tail.tail.text[0], rep, s, i);
      if end.Some? {
        ReplaceFromIsSpans(r, rep, s, end.value, true);
      } else {
        ReplaceFromIsSpans(r, rep, s, i + 1, false);
      }
    }
  }

  /** `replace_all` of a span rule is the replacement of its spans. */
  lemma ReplaceAllIsSpans(r: Regex, rep: Replacement, s: string)
    requires IsSpan(r)
    ensures ReplaceAll(r, rep, s) == ReplaceSpans(r.head.text[0], r.tail.tail.text[0], rep, s)
  {
    ReplaceFromIsSpans(r, rep, s, 0, false);
    assert s[0..] == s;
  }

  /** An open span: an `open` and then no `close`. */
  predicate IsOpenSpan(open: char, close: char, held: string) {
    |held| > 0 && held[0] == open && open != close && forall k :: 0 <= k < |held| ==> held[k] != close
  }

  lemma {:induction false} UnclosedStays(open: char, close: char, rep: Replacement, s: string)
    requires forall k :: 0 <= k < |s| ==> s[k] != close
    ensures ReplaceSpans(open, close, rep, s) == s
    decreases |s|
  {
    if s != "" {
      UnclosedStays(open, close, rep, s[1..]);
      assert [s[0]] + s[1..] == s;
    }
  }

  lemma CloseAtIs(close: char, s: string, i: nat, j: nat)
    requires i <= j < |s| && s[j] == close && forall k :: i <= k < j ==> s[k] != close
    ensures CloseAt(close, s, i) == j
  {
  }

  /** The moment a span closes, it is replaced and the rest starts afresh. */
  lemma SpanCloses(open: char, close: char, rep: Replacement, held: string, t: string)
    requires IsOpenSpan(open, close, held)
    ensures ReplaceSpans(open, close, rep, held + [close] + t)
            == Expand(rep, held + [close]) + ReplaceSpans(open, close, rep, t)
  {
    var s := held + [close] + t;
    CloseAtIs(close, s, 1, |held|);
    assert SpanEnd(open, close, s, 0) == Some(|held| + 1);
    assert s[..|held| + 1] == held + [close] && s[|held| + 1..] == t;
  }

  lemma FindsSpan(r: Regex, held: string)
    requires IsSpan(r) && IsOpenSpan(r.head.text[0], r.tail.tail.text[0], held)
    ensures var full := held + [r.tail.tail.text[0]];
            Ends(r, full, 0) != [] && Ends(r, full, 0)[0] == |full|
  {
    var full := held + [r.tail.tail.text[0]];
    CloseAtIs(r.tail.tail.text[0], full, 1, |held|);
    assert SpanEnd(r.head.text[0], r.tail.tail.text[0], full, 0) == Some(|full|);
    SpanEnds(r, full, 0);
  }

  /** On a completed span, the rule applied once is its template expanded. */
  lemma ReplaceFirstOfSpan(r: Regex, rep: Replacement, held: string)
    requires IsSpan(r) && IsOpenSpan(r.head.text[0], r.tail.tail.text[0], held)
    ensures ReplaceFirst(r, rep, held + [r.tail.tail.text[0]]) == Expand(rep, held + [r.tail.tail.text[0]])
  {
    var full := held + [r.tail.tail.text[0]];
    FindsSpan(r, held);
    FirstIsAll(r, rep, full);
  }

  lemma FirstIsAll(r: Regex, rep: Replacement, s: string)
    requires Ends(r, s, 0) != [] && Ends(r, s, 0)[0] == |s|
    ensures ReplaceFirst(r, rep, s) == Expand(rep, s)
  {
    assert FindFrom(r, s, 0) == Some((0, |s|));
    assert s[0..|s|] == s;
    assert s[..0] + Expand(rep, s) + s[|s|..] == Expand(rep, s);
  }
}
