/** When text is released: a transform holds back no more than its shape demands. */
module Promptness {
  import opened Text
  import opened Regex
  import opened Replace
  import opened Scrubber
  import opened SpanLaws
  import opened ScrubberLaws
  import opened HeadStreams

  // ------------------------------------------------------------------- span rules

  /** What one character completes, `done`, is replaced and leaves at once; the rest is held. */
  lemma SpanStepReleases(st: State, ch: char) returns (done: string)
    requires st.SpanState? && Proper(st)
    ensures var (after, out) := SpanStep(st, ch);
            && after.SpanState? && Proper(after) && after == st.(held := after.held, inSpan := after.inSpan)
            && st.held + [ch] == done + after.held
            && forall t :: ReplaceSpans(st.open, st.close, st.replacement, done + t)
                           == out + ReplaceSpans(st.open, st.close, st.replacement, t)
  {
    var open, close, rep := st.open, st.close, st.replacement;
    if st.inSpan && ch == close {
      done := st.held + [ch];
      ReplaceFirstOfSpan(st.regex, rep, st.held);
      forall t ensures ReplaceSpans(open, close, rep, done + t) == Expand(rep, done) + ReplaceSpans(open, close, rep, t) {
        SpanCloses(open, close, rep, st.held, t);
      }
    } else if st.inSpan || ch == open {
      done := "";
      forall t ensures ReplaceSpans(open, close, rep, "" + t) == "" + ReplaceSpans(open, close, rep, t) {
        assert "" + t == t;
      }
    } else {
      done := [ch];
      forall t ensures ReplaceSpans(open, close, rep, [ch] + t) == [ch] + ReplaceSpans(open, close, rep, t) {
        assert ([ch] + t)[1..] == t;
      }
    }
  }

  /** Of a span transform's input, everything is out but the open span at its end. */
  lemma {:induction false} SpanReleases(st: State, x: string) returns (done: string)
    requires st.SpanState? && Proper(st)
    ensures var (after, out) := SpanFeed(st, x);
            && Proper(after) && after == st.(held := after.held, inSpan := after.inSpan)
            && st.held + x == done + after.held
            && out == ReplaceSpans(st.open, st.close, st.replacement, done)
    decreases |x|
  {
    if x == "" {
      done := "";
      assert st.held + x == "" + st.held;
    } else {
      var st1 := SpanStep(st, x[0]).0;
      var first := SpanStepReleases(st, x[0]);
      var later := SpanReleases(st1, x[1..]);
      done := first + later;
      HeldFurther(st.held, x, first, st1.held, later, SpanFeed(st1, x[1..]).0.held);
    }
  }

  lemma HeldFurther(held: string, x: string, first: string, held1: string, later: string, held2: string)
    requires |x| > 0 && held + [x[0]] == first + held1 && held1 + x[1..] == later + held2
    ensures held + x == (first + later) + held2
  {
    assert held + x == (held + [x[0]]) + x[1..];
    Associates(first, held1, x[1..]);
    Associates(first, later, held2);
  }

  lemma {:induction false} SpanFeedJoins(st: State, a: string, b: string)
    requires st.SpanState?
    ensures var (st1, out1) := SpanFeed(st, a); var (st2, out2) := SpanFeed(st1, b);
            SpanFeed(st, a + b) == (st2, out1 + out2)
    decreases |a|
  {
    if a == "" {
      assert a + b == b;
      assert "" + SpanFeed(st, b).1 == SpanFeed(st, b).1;
    } else {
      var (s1, o1) := SpanStep(st, a[0]);
      assert (a + b)[0] == a[0] && (a + b)[1..] == a[1..] + b;
      SpanFeedJoins(s1, a[1..], b);
      var (s2, o2) := SpanFeed(s1, a[1..]);
      Associates(o1, o2, SpanFeed(s2, b).1);
    }
  }

  lemma PushAllStep(st: State, chunks: seq<string>)
    requires chunks != []
    ensures var (st1, out1) := Push(st, chunks[0]); var (after, out) := PushAll([st1], chunks[1..]);
            PushAll([st], chunks) == (after, out1 + out)
  {
    var (st1, out1) := Push(st, chunks[0]);
    assert [st][1..] == [] && [st1] + [] == [st1];
    assert PushChain([st], chunks[0]) == ([st1], out1);
  }

  /** However the text is cut, a span transform does what it does on the whole at once. */
  lemma {:induction false} SpanTakesAll(st: State, chunks: seq<string>)
    requires st.SpanState?
    ensures PushAll([st], chunks) == ([SpanFeed(st, Join(chunks)).0], SpanFeed(st, Join(chunks)).1)
    decreases |chunks|
  {
    if chunks != [] {
      PushAllStep(st, chunks);
      SpanTakesAll(Push(st, chunks[0]).0, chunks[1..]);
      SpanFeedJoins(st, chunks[0], Join(chunks[1..]));
    }
  }

  /** At every moment a span rule has sent the replacement of all of its input but an open span
      at the end, if there is one. */
  lemma SpanRuleReleases(rule: Rule, chunks: seq<string>) returns (done: string, held: string)
    requires IsSpan(rule.regex)
    ensures var (open, close) := (rule.regex.head.text[0], rule.regex.tail.tail.text[0]);
            && Join(chunks) == done + held && (held == "" || IsOpenSpan(open, close, held))
            && PushAll([InitialState(rule)], chunks).1 == ReplaceSpans(open, close, rule.replacement, done)
  {
    var st := InitialState(rule);
    SpanIsSpan(rule.regex);
    SpanTakesAll(st, chunks);
    done := SpanReleases(st, Join(chunks));
    assert st.held + Join(chunks) == Join(chunks);
    held := SpanFeed(st, Join(chunks)).0.held;
  }

  /** A span pattern is classified as one: it holds no `^`. */
  lemma SpanIsSpan(r: Regex)
    requires IsSpan(r)
    ensures Classify(r) == SpanShape(r.head.text[0], r.tail.tail.text[0])
  {
    assert !HasStart(r.tail.head.sub) && !HasStart(r.tail.head);
    assert !HasStart(r.tail) && !HasStart(r.head);
  }

  /** Text without an opening delimiter passes as it comes. */
  lemma PlainTextPasses(rule: Rule, chunks: seq<string>)
    requires IsSpan(rule.regex) && rule.regex.head.text[0] !in Join(chunks)
    ensures PushAll([InitialState(rule)], chunks).1 == Join(chunks)
  {
    var open, close := rule.regex.head.text[0], rule.regex.tail.tail.text[0];
    var done, held := SpanRuleReleases(rule, chunks);
    NotInPart(open, Join(chunks), done, held);
    assert held == "";
    assert done + "" == done;
    NothingOpens(open, close, rule.replacement, done);
  }

  lemma NotInPart(c: char, s: string, a: string, b: string)
    requires s == a + b && c !in s
    ensures c !in a && c !in b
  {
  }

  lemma {:induction false} NothingOpens(open: char, close: char, rep: Replacement, s: string)
    requires open !in s
    ensures ReplaceSpans(open, close, rep, s) == s
    decreases |s|
  {
    if s != "" {
      NothingOpens(open, close, rep, s[1..]);
      assert [s[0]] + s[1..] == s;
    }
  }

  // ------------------------------------------------------------------- head rules

  /** At every moment a head rule has sent nothing while undecided, and once a decision has
      fallen, everything held and everything since. */
  lemma {:induction false} HeadReleases(st: State, chunks: seq<string>)
    requires st.HeadState? && Proper(st) && !st.done
    ensures var d := DecidedAt(st.regex, st.head, chunks);
            var w := st.head + Join(chunks);
            && (d.Some? ==> d.value <= w)
            && PushAll([st], chunks).1 ==
               if d.None? then "" else DecidedText(st.regex, st.replacement, d.value) + w[|d.value|..]
    decreases |chunks|
  {
    if chunks != [] {
      var r, rep := st.regex, st.replacement;
      var d, rest := st.head + chunks[0], Join(chunks[1..]);
      PushAllStep(st, chunks);
      PushDecides(st, chunks[0]);
      Associates(st.head, chunks[0], rest);
      if DecidesOn(r, d) {
        DonePushes(st.(head := "", done := true), chunks[1..]);
        assert (d + rest)[|d|..] == rest;
      } else {
        var next := st.(head := d);
        HeadReleases(next, chunks[1..]);
        assert "" + PushAll([next], chunks[1..]).1 == PushAll([next], chunks[1..]).1;
      }
    }
  }

  lemma {:induction false} DonePushes(st: State, chunks: seq<string>)
    requires st.HeadState? && st.done
    ensures PushAll([st], chunks).1 == Join(chunks)
    decreases |chunks|
  {
    if chunks != [] {
      PushAllStep(st, chunks);
      DonePushes(st, chunks[1..]);
    }
  }

  lemma HeadRuleReleases(rule: Rule, chunks: seq<string>)
    requires Classify(rule.regex) == HeadShape
    ensures var d := DecidedAt(rule.regex, "", chunks);
            && (d.Some? ==> d.value <= Join(chunks))
            && PushAll([InitialState(rule)], chunks).1 ==
               if d.None? then "" else DecidedText(rule.regex, rule.replacement, d.value) + Join(chunks)[|d.value|..]
  {
    assert "" + Join(chunks) == Join(chunks);
    HeadReleases(InitialState(rule), chunks);
  }

  // ------------------------------------------------------------------- the chain

  /** What a transform makes of each chunk in turn. */
  function Outputs(st: State, chunks: seq<string>): seq<string>
    decreases |chunks|
  {
    if chunks == [] then [] else [Push(st, chunks[0]).1] + Outputs(Push(st, chunks[0]).0, chunks[1..])
  }

  lemma {:induction false} OutputsJoin(st: State, chunks: seq<string>)
    ensures Join(Outputs(st, chunks)) == PushAll([st], chunks).1
    decreases |chunks|
  {
    if chunks != [] {
      PushAllStep(st, chunks);
      var rest := Outputs(Push(st, chunks[0]).0, chunks[1..]);
      OutputsJoin(Push(st, chunks[0]).0, chunks[1..]);
      assert ([Push(st, chunks[0]).1] + rest)[1..] == rest;
    }
  }

  /** Each transform works on what the one before it has sent, chunk by chunk. */
  lemma {:induction false} ChainReleases(st: State, rest: seq<State>, chunks: seq<string>)
    ensures PushAll([st] + rest, chunks).1 == PushAll(rest, Outputs(st, chunks)).1
    decreases |chunks|
  {
    if chunks != [] {
      var (st1, out1) := Push(st, chunks[0]);
      var (rest1, sent) := PushChain(rest, out1);
      assert ([st] + rest)[0] == st && ([st] + rest)[1..] == rest;
      assert PushChain([st] + rest, chunks[0]) == ([st1] + rest1, sent);
      var outs := Outputs(st, chunks);
      assert outs[0] == out1 && outs[1..] == Outputs(st1, chunks[1..]);
      ChainReleases(st1, rest1, chunks[1..]);
    }
  }
}
