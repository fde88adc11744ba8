/** The streaming scrubber against whole-text replacement: for every chunking the client
    receives the same text, what it has received is never taken back, and rules that
    do not grow their text never let the stream get ahead of its input. */
module ScrubberLaws {
  import opened Text
  import opened Regex
  import opened RegexLaws
  import opened Replace
  import opened Templates
  import opened Scrubber
  import opened HeadLaws
  import opened SpanLaws

  // --------------------------------------------- one transform, any chunking

  /** What a transform's fields always satisfy. */
  predicate Proper(st: State) {
    match st
    case HeadState(regex, _, bound, head, done) =>
      Classify(regex) == HeadShape && bound == DecisionBound(regex) && (done ==> head == "")
    case SpanState(regex, open, close, _, held, inSpan) =>
      Classify(regex) == SpanShape(open, close) && (if inSpan then IsOpenSpan(open, close, held) else held == "")
    case OpaqueState(_, _, _) => true
  }

  /** A rule's early decisions are final: nothing to ask of a rule that is not a head. */
  ghost predicate Decides(r: Regex, rep: Replacement) {
    Classify(r) == HeadShape ==> forall s, w :: IsCommitFinalAt(r, rep, s, w) && IsGiveUpFinalAt(r, rep, s, w)
  }

  ghost predicate AllDecide(rules: seq<Rule>, model: string) {
    forall k :: 0 <= k < |rules| && Targets(rules[k], model) ==> Decides(rules[k].regex, rules[k].replacement)
  }

  ghost predicate Streamable(st: State) {
    Proper(st) && Decides(st.regex, st.replacement)
  }

  /** What a transform still owes the client when exactly `t` is yet to come. */
  function Owed(st: State, t: string): string {
    match st
    case HeadState(regex, rep, _, head, done) => if done then t else ReplaceAll(regex, rep, head + t)
    case SpanState(_, open, close, rep, held, _) => ReplaceSpans(open, close, rep, held + t)
    case OpaqueState(regex, rep, buf) => ReplaceAll(regex, rep, buf + t)
  }

  /** What one chunk does to an undecided head, in terms of the match at position 0. */
  lemma HeadPushIs(st: State, x: string)
    requires st.HeadState? && Proper(st) && !st.done
    ensures var head := st.head + x;
            var e := HeadEnd(st.regex, head);
            Push(st, x) ==
            if e.Some? && e.value < |head| then
              (st.(head := "", done := true), Expand(st.replacement, head[..e.value]) + head[e.value..])
            else if e.None? && st.bound.Some? && ByteLen(head) > st.bound.value then
              (st.(head := "", done := true), head)
            else (st.(head := head), "")
  {
    AnchoredReplace(st.regex, st.replacement, st.head + x);
  }

  lemma CommitIsFinal(r: Regex, rep: Replacement, head: string, t: string)
    requires BeginsWithStart(r) && HeadEnd(r, head).Some? && HeadEnd(r, head).value < |head|
    requires IsCommitFinalAt(r, rep, head, head + t)
    ensures var e := HeadEnd(r, head).value;
            ReplaceAll(r, rep, head + t) == Expand(rep, head[..e]) + head[e..] + t
  {
    var e, w := HeadEnd(r, head).value, head + t;
    AnchoredReplace(r, rep, w);
    if HeadEnd(r, w) != HeadEnd(r, head) { ReplacedAlikeExactlyWhen(rep, w, e, HeadEnd(r, w).value); }
    assert ReplaceAll(r, rep, w) == ReplacedUpTo(rep, w, e);
    assert w[..e] == head[..e];
    assert w[e..] == head[e..] + t;
    Associates(Expand(rep, head[..e]), head[e..], t);
  }

  lemma GivingUpIsFinal(r: Regex, rep: Replacement, head: string, t: string)
    requires BeginsWithStart(r) && HeadEnd(r, head).None?
    requires DecisionBound(r).Some? && ByteLen(head) > DecisionBound(r).value
    requires IsGiveUpFinalAt(r, rep, head, head + t)
    ensures ReplaceAll(r, rep, head + t) == head + t
  {
    var w := head + t;
    AnchoredReplace(r, rep, w);
    if HeadEnd(r, w).Some? { assert w[..HeadEnd(r, w).value] + w[HeadEnd(r, w).value..] == w; }
  }

  lemma HeadPushOwes(st: State, x: string, t: string)
    requires st.HeadState? && Streamable(st)
    ensures Streamable(Push(st, x).0) && Owed(st, x + t) == Push(st, x).1 + Owed(Push(st, x).0, t)
  {
    if !st.done {
      var head := st.head + x;
      var e := HeadEnd(st.regex, head);
      Associates(st.head, x, t);
      HeadPushIs(st, x);
      if e.Some? && e.value < |head| {
        assert IsCommitFinalAt(st.regex, st.replacement, head, head + t);
        CommitIsFinal(st.regex, st.replacement, head, t);
      } else if e.None? && st.bound.Some? && ByteLen(head) > st.bound.value {
        assert IsGiveUpFinalAt(st.regex, st.replacement, head, head + t);
        GivingUpIsFinal(st.regex, st.replacement, head, t);
      }
    }
  }

  lemma SpanStepOwes(st: State, ch: char, t: string)
    requires st.SpanState? && Proper(st)
    ensures var (after, out) := SpanStep(st, ch);
            after.SpanState? && Proper(after) && Owed(st, [ch] + t) == out + Owed(after, t)
  {
    if st.inSpan && ch == st.close {
      SpanCloses(st.open, st.close, st.replacement, st.held, t);
      ReplaceFirstOfSpan(st.regex, st.replacement, st.held);
      Associates(st.held, [ch], t);
      assert "" + t == t;
    } else {
      Associates(st.held, [ch], t);
      if !st.inSpan && ch != st.open { assert ([ch] + t)[1..] == t && "" + t == t; }
    }
  }

  lemma {:induction false} SpanFeedProper(st: State, x: string)
    requires st.SpanState? && Proper(st)
    ensures Proper(SpanFeed(st, x).0) && SpanFeed(st, x).0.regex == st.regex
    decreases |x|
  {
    if x != "" {
      SpanStepOwes(st, x[0], "");
      SpanFeedProper(SpanStep(st, x[0]).0, x[1..]);
    }
  }

  lemma {:induction false} SpanFeedOwes(st: State, x: string, t: string)
    requires st.SpanState? && Proper(st)
    ensures Owed(st, x + t) == SpanFeed(st, x).1 + Owed(SpanFeed(st, x).0, t)
    decreases |x|
  {
    if x == "" {
      assert x + t == t;
    } else {
      var (st1, out1) := SpanStep(st, x[0]);
      SpanStepOwes(st, x[0], x[1..] + t);
      SpanFeedOwes(st1, x[1..], t);
      OwedInSteps(st, out1, st1, SpanFeed(st1, x[1..]).1, SpanFeed(st1, x[1..]).0, x, t);
    }
  }

  lemma OwedInSteps(st: State, out1: string, st1: State, out2: string, st2: State, x: string, t: string)
    requires |x| > 0
    requires Owed(st, [x[0]] + (x[1..] + t)) == out1 + Owed(st1, x[1..] + t)
    requires Owed(st1, x[1..] + t) == out2 + Owed(st2, t)
    ensures Owed(st, x + t) == (out1 + out2) + Owed(st2, t)
  {
    FirstThenRest(x, t);
    Associates(out1, out2, Owed(st2, t));
  }

  /** Pushing a chunk pays out some text and owes the rest. */
  lemma PushOwes(st: State, x: string, t: string)
    requires Streamable(st)
    ensures var (after, out) := Push(st, x); Streamable(after) && Owed(st, x + t) == out + Owed(after, t)
  {
    match st
    case HeadState(_, _, _, _, _) => HeadPushOwes(st, x, t);
    case SpanState(_, _, _, _, _, _) => SpanFeedProper(st, x); SpanFeedOwes(st, x, t);
    case OpaqueState(_, _, _) => Associates(st.buf, x, t);
  }

  /** Finishing pays what is owed when nothing more comes. */
  lemma FinishPays(st: State)
    requires Proper(st)
    ensures Finish(st).1 == Owed(st, "")
  {
    match st
    case HeadState(_, _, _, head, _) => assert head + "" == head;
    case SpanState(_, open, close, rep, held, _) =>
      assert held + "" == held;
      UnclosedStays(open, close, rep, held);
    case OpaqueState(_, _, buf) => assert buf + "" == buf;
  }

  lemma FreshIsProper(rule: Rule)
    ensures Proper(InitialState(rule)) && InitialState(rule).regex == rule.regex
    ensures InitialState(rule).replacement == rule.replacement
  {
  }

  lemma FreshOwesReplacement(rule: Rule, t: string)
    ensures Owed(InitialState(rule), t) == ReplaceAll(rule.regex, rule.replacement, t)
  {
    assert "" + t == t;
    if Classify(rule.regex).SpanShape? { ReplaceAllIsSpans(rule.regex, rule.replacement, t); }
  }

  // ---------------------------------------------------------------- the chain

  ghost predicate AllStreamable(sts: seq<State>) {
    forall k :: 0 <= k < |sts| ==> Streamable(sts[k])
  }

  function OwedChain(sts: seq<State>, t: string): string {
    if sts == [] then t else OwedChain(sts[1..], Owed(sts[0], t))
  }

  lemma {:induction false} PushChainOwes(sts: seq<State>, x: string, t: string)
    requires AllStreamable(sts)
    ensures var (after, out) := PushChain(sts, x); AllStreamable(after) && OwedChain(sts, x + t) == out + OwedChain(after, t)
    decreases |sts|
  {
    if sts != [] {
      var (st, out) := Push(sts[0], x);
      PushOwes(sts[0], x, t);
      PushChainOwes(sts[1..], out, Owed(st, t));
      var (rest, final) := PushChain(sts[1..], out);
      assert ([st] + rest)[1..] == rest;
    }
  }

  lemma {:induction false} FinishChainPays(sts: seq<State>, cur: string)
    requires AllStreamable(sts)
    ensures FinishChain(sts, cur) == OwedChain(sts, cur)
    decreases |sts|
  {
    if sts != [] {
      var (st, pushed) := Push(sts[0], cur);
      PushOwes(sts[0], cur, "");
      FinishPays(st);
      assert cur + "" == cur;
      FinishChainPays(sts[1..], pushed + Finish(st).1);
    }
  }

  lemma {:induction false} PushAllOwes(sts: seq<State>, chunks: seq<string>, t: string)
    requires AllStreamable(sts)
    ensures var (after, out) := PushAll(sts, chunks);
            AllStreamable(after) && OwedChain(sts, Join(chunks) + t) == out + OwedChain(after, t)
    decreases |chunks|
  {
    if chunks == [] {
      assert "" + t == t;
    } else {
      var (sts1, out1) := PushChain(sts, chunks[0]);
      var (sts2, out2) := PushAll(sts1, chunks[1..]);
      PushChainOwes(sts, chunks[0], Join(chunks[1..]) + t);
      PushAllOwes(sts1, chunks[1..], t);
      Associates(chunks[0], Join(chunks[1..]), t);
      Associates(out1, out2, OwedChain(sts2, t));
    }
  }

  lemma {:induction false} FreshChainOwes(rules: seq<Rule>, model: string, t: string)
    requires AllDecide(rules, model)
    ensures AllStreamable(NewStates(rules, model))
    ensures OwedChain(NewStates(rules, model), t) == ReplaceRules(rules, model, t)
    decreases |rules|
  {
    if rules != [] {
      var rest := NewStates(rules[1..], model);
      if Targets(rules[0], model) {
        var st := InitialState(rules[0]);
        FreshIsProper(rules[0]);
        FreshOwesReplacement(rules[0], t);
        FreshChainOwes(rules[1..], model, Owed(st, t));
        assert ([st] + rest)[1..] == rest;
      } else {
        FreshChainOwes(rules[1..], model, t);
        assert [] + rest == rest;
      }
    }
  }

  /** The load-bearing guarantee: however a text is cut into chunks, everything pushed out
      followed by the flush is the rules applied one after another to the whole text. */
  lemma StreamIsReplacement(rules: seq<Rule>, model: string, chunks: seq<string>)
    requires AllDecide(rules, model)
    ensures Stream(NewStates(rules, model), chunks) == ReplaceRules(rules, model, Join(chunks))
  {
    var sts := NewStates(rules, model);
    FreshChainOwes(rules, model, Join(chunks));
    PushAllOwes(sts, chunks, "");
    assert Join(chunks) + "" == Join(chunks);
    FinishChainPays(PushAll(sts, chunks).0, "");
  }

  /** The stream is the text a stored reply is cleaned to, unless the rules changed the text
      into white space only: that the stream has already sent, and cleaning empties. */
  lemma StreamIsCleanedExactlyWhen(rules: seq<Rule>, model: string, chunks: seq<string>)
    requires AllDecide(rules, model)
    ensures var (text, full) := (Join(chunks), ReplaceRules(rules, model, Join(chunks)));
            Stream(NewStates(rules, model), chunks) == Cleaned(rules, model, text) <==>
            !(SomeRuleChanges(rules, model, text) && IsBlank(full) && full != "")
  {
    StreamIsReplacement(rules, model, chunks);
  }

  /** Nothing is ever taken back: what the client has so far begins the result of every
      text that continues the chunks. */
  lemma EmittedIsFinal(rules: seq<Rule>, model: string, chunks: seq<string>, rest: string)
    requires AllDecide(rules, model)
    ensures PushAll(NewStates(rules, model), chunks).1 <= ReplaceRules(rules, model, Join(chunks) + rest)
  {
    FreshChainOwes(rules, model, Join(chunks) + rest);
    PushAllOwes(NewStates(rules, model), chunks, rest);
  }

  // ------------------------------------------------------- rules that decide

  /** Stable matches and a final bound are enough for any replacement. */
  lemma StableDecides(r: Regex, rep: Replacement)
    requires Classify(r) == HeadShape ==> Stable(r) && BoundFinal(r)
    ensures Decides(r, rep)
  {
    if Classify(r) == HeadShape {
      forall s, w ensures IsCommitFinalAt(r, rep, s, w) && IsGiveUpFinalAt(r, rep, s, w) {
        assert IsStableAt(r, s, w) && IsBoundFinalAt(r, s, w);
      }
    }
  }

  // ------------------------------------------------------- never ahead of input

  predicate Frugal(st: State) {
    Proper(st) && IsNonGrowing(st.regex, st.replacement)
  }

  predicate AllFrugal(sts: seq<State>) {
    forall k :: 0 <= k < |sts| ==> Frugal(sts[k])
  }

  /** Bytes a transform is holding back. */
  function Held(st: State): nat {
    match st
    case HeadState(_, _, _, head, _) => ByteLen(head)
    case SpanState(_, _, _, _, held, _) => ByteLen(held)
    case OpaqueState(_, _, buf) => ByteLen(buf)
  }

  function HeldAll(sts: seq<State>): nat {
    if sts == [] then 0 else Held(sts[0]) + HeldAll(sts[1..])
  }

  lemma SpanStepFrugal(st: State, ch: char)
    requires st.SpanState? && Frugal(st)
    ensures var (after, out) := SpanStep(st, ch);
            after.SpanState? && Frugal(after) && ByteLen(out) + Held(after) <= Held(st) + Utf8Len(ch)
  {
    ByteLenAppend(st.held, [ch]);
    if st.inSpan && ch == st.close {
      var full := st.held + [ch];
      ReplaceFirstOfSpan(st.regex, st.replacement, st.held);
      CloseAtIs(st.close, full, 1, |st.held|);
      SpanEnds(st.regex, full, 0);
      MinLenBounds(st.regex, full, 0, |full|);
      assert full[0..|full|] == full;
      NoDollarExpands(st.replacement, full);
    }
  }

  lemma {:induction false} SpanFeedFrugal(st: State, x: string)
    requires st.SpanState? && Frugal(st)
    ensures var (after, out) := SpanFeed(st, x); Frugal(after) && ByteLen(out) + Held(after) <= Held(st) + ByteLen(x)
    decreases |x|
  {
    if x != "" {
      var (st1, out1) := SpanStep(st, x[0]);
      var (st2, out2) := SpanFeed(st1, x[1..]);
      SpanStepFrugal(st, x[0]);
      SpanFeedFrugal(st1, x[1..]);
      ByteLenAppend(out1, out2);
    }
  }

  lemma HeadPushFrugal(st: State, x: string)
    requires st.HeadState? && Frugal(st)
    ensures var (after, out) := HeadPush(st, x); Frugal(after) && ByteLen(out) + Held(after) <= Held(st) + ByteLen(x)
  {
    if !st.done {
      HeadPushIs(st, x);
      AnchoredReplace(st.regex, st.replacement, st.head + x);
      ByteLenAppend(st.head, x);
      NonGrowing(st.regex, st.replacement, st.head + x);
    }
  }

  lemma PushFrugal(st: State, x: string)
    requires Frugal(st)
    ensures var (after, out) := Push(st, x); Frugal(after) && ByteLen(out) + Held(after) <= Held(st) + ByteLen(x)
  {
    match st
    case HeadState(_, _, _, _, _) => HeadPushFrugal(st, x);
    case SpanState(_, _, _, _, _, _) => SpanFeedFrugal(st, x);
    case OpaqueState(_, _, buf) => ByteLenAppend(buf, x);
  }

  lemma {:induction false} PushChainFrugal(sts: seq<State>, x: string)
    requires AllFrugal(sts)
    ensures var (after, out) := PushChain(sts, x);
            AllFrugal(after) && ByteLen(out) + HeldAll(after) <= HeldAll(sts) + ByteLen(x)
    decreases |sts|
  {
    if sts != [] {
      var (st, out) := Push(sts[0], x);
      var (rest, final) := PushChain(sts[1..], out);
      PushFrugal(sts[0], x);
      PushChainFrugal(sts[1..], out);
      assert ([st] + rest)[1..] == rest;
    }
  }

  lemma {:induction false} PushAllFrugal(sts: seq<State>, chunks: seq<string>)
    requires AllFrugal(sts)
    ensures var (after, out) := PushAll(sts, chunks);
            AllFrugal(after) && ByteLen(out) + HeldAll(after) <= HeldAll(sts) + ByteLen(Join(chunks))
    decreases |chunks|
  {
    if chunks != [] {
      var (sts1, out1) := PushChain(sts, chunks[0]);
      var (sts2, out2) := PushAll(sts1, chunks[1..]);
      PushChainFrugal(sts, chunks[0]);
      PushAllFrugal(sts1, chunks[1..]);
      ByteLenAppend(out1, out2);
      ByteLenAppend(chunks[0], Join(chunks[1..]));
    }
  }

  predicate AllNonGrowing(rules: seq<Rule>, model: string) {
    forall k :: 0 <= k < |rules| && Targets(rules[k], model) ==> IsNonGrowing(rules[k].regex, rules[k].replacement)
  }

  lemma {:induction false} FreshFrugal(rules: seq<Rule>, model: string)
    requires AllNonGrowing(rules, model)
    ensures AllFrugal(NewStates(rules, model)) && HeldAll(NewStates(rules, model)) == 0
    decreases |rules|
  {
    if rules != [] {
      var rest := NewStates(rules[1..], model);
      FreshFrugal(rules[1..], model);
      FreshIsProper(rules[0]);
      if Targets(rules[0], model) {
        FrugalFurther(InitialState(rules[0]), rest);
      } else {
        assert [] + rest == rest;
      }
    }
  }

  lemma FrugalFurther(st: State, rest: seq<State>)
    requires Frugal(st) && AllFrugal(rest)
    ensures AllFrugal([st] + rest) && HeldAll([st] + rest) == Held(st) + HeldAll(rest)
  {
    assert ([st] + rest)[1..] == rest;
  }

  lemma FinishFrugal(st: State)
    requires Frugal(st)
    ensures ByteLen(Finish(st).1) <= Held(st)
  {
    match st
    case HeadState(r, rep, _, head, _) => NonGrowing(r, rep, head);
    case SpanState(_, _, _, _, _, _) =>
    case OpaqueState(r, rep, buf) => NonGrowing(r, rep, buf);
  }

  lemma {:induction false} FinishChainFrugal(sts: seq<State>, cur: string)
    requires AllFrugal(sts)
    ensures ByteLen(FinishChain(sts, cur)) <= HeldAll(sts) + ByteLen(cur)
    decreases |sts|
  {
    if sts != [] {
      var (st, pushed) := Push(sts[0], cur);
      PushFrugal(sts[0], cur);
      FinishFrugal(st);
      ByteLenAppend(pushed, Finish(st).1);
      FinishChainFrugal(sts[1..], pushed + Finish(st).1);
    }
  }

  /** At every moment of a stream, whether its rules decide finally or not, the client has
      received no more bytes than were pushed, and what is held back makes up at most the
      difference; nor has it received more once everything is flushed. */
  lemma StreamNeverAhead(rules: seq<Rule>, model: string, chunks: seq<string>)
    requires AllNonGrowing(rules, model)
    ensures var (after, out) := PushAll(NewStates(rules, model), chunks);
            ByteLen(out) + HeldAll(after) <= ByteLen(Join(chunks))
    ensures ByteLen(Stream(NewStates(rules, model), chunks)) <= ByteLen(Join(chunks))
  {
    var (after, out) := PushAll(NewStates(rules, model), chunks);
    FreshFrugal(rules, model);
    PushAllFrugal(NewStates(rules, model), chunks);
    FinishChainFrugal(after, "");
    ByteLenAppend(out, FinishChain(after, ""));
  }

  /** Rules in sequence do not compound into growth. */
  lemma {:induction false} RulesNeverGrow(rules: seq<Rule>, model: string, text: string)
    requires AllNonGrowing(rules, model)
    ensures ByteLen(ReplaceRules(rules, model, text)) <= ByteLen(text)
    decreases |rules|
  {
    if rules != [] {
      if Targets(rules[0], model) {
        NonGrowing(rules[0].regex, rules[0].replacement, text);
        RulesNeverGrow(rules[1..], model, ReplaceAll(rules[0].regex, rules[0].replacement, text));
      } else {
        RulesNeverGrow(rules[1..], model, text);
      }
    }
  }
}
