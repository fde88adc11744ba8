/** A single rule's stream against its whole-text replacement: for a head rule, exactly on
    which texts and in which chunkings the two agree, and for which rules they always do. */
module HeadStreams {
  import opened Text
  import opened Regex
  import opened Replace
  import opened Templates
  import opened Scrubber
  import opened HeadLaws
  import opened ScrubberLaws

  /** One rule streamed on its own gives the whole-text result on every chunking. */
  ghost predicate AlwaysAgrees(rule: Rule) {
    forall chunks :: Agrees(rule, chunks)
  }

  predicate Agrees(rule: Rule, chunks: seq<string>) {
    Stream([InitialState(rule)], chunks) == ReplaceAll(rule.regex, rule.replacement, Join(chunks))
  }

  // ------------------------------------------------------ one stream of a head rule

  /** A head transform decides on `d`: a match ends inside it, or there is none and `d` is
      past the bound. */
  predicate DecidesOn(r: Regex, d: string) {
    if HeadEnd(r, d).Some? then HeadEnd(r, d).value < |d|
    else DecisionBound(r).Some? && ByteLen(d) > DecisionBound(r).value
  }

  /** The text held when the first decision falls, if one falls before the end. */
  function DecidedAt(r: Regex, head: string, chunks: seq<string>): Option<string>
    decreases |chunks|
  {
    if chunks == [] then None
    else if DecidesOn(r, head + chunks[0]) then Some(head + chunks[0])
    else DecidedAt(r, head + chunks[0], chunks[1..])
  }

  /** What is emitted at the decision. */
  function DecidedText(r: Regex, rep: Replacement, d: string): string {
    if HeadEnd(r, d).Some? then ReplacedUpTo(rep, d, HeadEnd(r, d).value) else d
  }

  /** The decision on `d` is right for the whole text `w`. */
  predicate IsRightFor(r: Regex, rep: Replacement, d: string, w: string) {
    IsCommitFinalAt(r, rep, d, w) && IsGiveUpFinalAt(r, rep, d, w)
  }

  lemma StreamStep(st: State, chunks: seq<string>)
    requires chunks != []
    ensures Stream([st], chunks) == Push(st, chunks[0]).1 + Stream([Push(st, chunks[0]).0], chunks[1..])
  {
    var (st1, o1) := Push(st, chunks[0]);
    assert [st][1..] == [] && [st1] + [] == [st1];
    assert PushChain([st], chunks[0]) == ([st1], o1);
    var (sts2, o2) := PushAll([st1], chunks[1..]);
    Associates(o1, o2, FinishChain(sts2, ""));
  }

  lemma StreamEnd(st: State)
    ensures Stream([st], []) == Push(st, "").1 + Finish(Push(st, "").0).1
  {
    var (st1, o1) := Push(st, "");
    assert [st][1..] == [] && "" + FinishChain([st], "") == FinishChain([st], "");
    assert FinishChain([st], "") == FinishChain([], o1 + Finish(st1).1);
  }

  /** Once a head transform is done, everything passes through. */
  lemma {:induction false} DonePasses(st: State, chunks: seq<string>)
    requires st.HeadState? && Proper(st) && st.done
    ensures Stream([st], chunks) == Join(chunks)
    decreases |chunks|
  {
    if chunks == [] {
      StreamEnd(st);
    } else {
      StreamStep(st, chunks);
      DonePasses(st, chunks[1..]);
    }
  }

  lemma PushDecides(st: State, x: string)
    requires st.HeadState? && Proper(st) && !st.done
    ensures Push(st, x) == if DecidesOn(st.regex, st.head + x)
                           then (st.(head := "", done := true), DecidedText(st.regex, st.replacement, st.head + x))
                           else (st.(head := st.head + x), "")
  {
    HeadPushIs(st, x);
  }

  /** A decision is right exactly when what it emits, and the rest of the text after it, are
      the replacement of the whole text. */
  lemma RightExactlyWhen(r: Regex, rep: Replacement, d: string, t: string)
    requires Classify(r) == HeadShape && DecidesOn(r, d)
    ensures DecidedText(r, rep, d) + t == ReplaceAll(r, rep, d + t) <==> IsRightFor(r, rep, d, d + t)
  {
    var w := d + t;
    AnchoredReplace(r, rep, w);
    if HeadEnd(r, d).Some? {
      ExtensionOf(r, d, w);
      if IsCommitFinalAt(r, rep, d, w) {
        CommitIsFinal(r, rep, d, t);
      } else {
        CommitTellsApart(rep, d, t, HeadEnd(r, d).value, HeadEnd(r, w).value);
      }
    } else if IsGiveUpFinalAt(r, rep, d, w) {
      GivingUpIsFinal(r, rep, d, t);
    } else {
      GiveUpTellsApart(rep, w, HeadEnd(r, w).value);
    }
  }

  lemma CommitTellsApart(rep: Replacement, s: string, t: string, e: nat, f: nat)
    requires e <= |s| && e < f <= |s + t| && !IsHiddenBy(rep, s + t, e, Some(f))
    ensures ReplacedUpTo(rep, s, e) + t != ReplacedUpTo(rep, s + t, f)
  {
    ReplacedAlikeExactlyWhen(rep, s + t, e, f);
    ReplacedInPrefix(rep, s, t, e);
  }

  lemma GiveUpTellsApart(rep: Replacement, w: string, f: nat)
    requires f <= |w| && Expand(rep, w[..f]) != w[..f]
    ensures ReplacedUpTo(rep, w, f) != w
  {
    SameBeginning(Expand(rep, w[..f]), w[..f], w[f..]);
    assert w[..f] + w[f..] == w;
  }

  lemma ReplacedInPrefix(rep: Replacement, s: string, t: string, e: nat)
    requires e <= |s|
    ensures ReplacedUpTo(rep, s, e) + t == ReplacedUpTo(rep, s + t, e)
  {
    assert (s + t)[..e] == s[..e] && (s + t)[e..] == s[e..] + t;
  }

  lemma SameBeginning(a: string, b: string, c: string)
    ensures a + c == b + c <==> a == b
  {
    if a + c == b + c {
      assert |a + c| == |a| + |c| && |b + c| == |b| + |c|;
      assert a == (a + c)[..|a|] && b == (b + c)[..|a|];
    }
  }

  lemma {:induction false} HeldStreamExactlyWhen(st: State, chunks: seq<string>)
    requires st.HeadState? && Proper(st) && !st.done && !DecidesOn(st.regex, st.head)
    ensures var (d, w) := (DecidedAt(st.regex, st.head, chunks), st.head + Join(chunks));
            Stream([st], chunks) == ReplaceAll(st.regex, st.replacement, w) <==>
            d.None? || IsRightFor(st.regex, st.replacement, d.value, w)
    decreases |chunks|
  {
    var r, rep := st.regex, st.replacement;
    if chunks == [] {
      assert st.head + "" == st.head;
      StreamEnd(st);
      PushDecides(st, "");
      assert "" + ReplaceAll(r, rep, st.head) == ReplaceAll(r, rep, st.head);
    } else {
      var d, rest := st.head + chunks[0], Join(chunks[1..]);
      StreamStep(st, chunks);
      PushDecides(st, chunks[0]);
      Associates(st.head, chunks[0], rest);
      if DecidesOn(r, d) {
        DonePasses(st.(head := "", done := true), chunks[1..]);
        RightExactlyWhen(r, rep, d, rest);
      } else {
        var next := st.(head := d);
        HeldStreamExactlyWhen(next, chunks[1..]);
        assert "" + Stream([next], chunks[1..]) == Stream([next], chunks[1..]);
      }
    }
  }

  /** One text in one chunking: the stream is the whole-text replacement exactly when no
      decision falls before the end, or the first is right for the text. */
  lemma AgreesExactlyWhen(rule: Rule, chunks: seq<string>)
    requires Classify(rule.regex) == HeadShape
    ensures Agrees(rule, chunks) <==>
            var d := DecidedAt(rule.regex, "", chunks);
            d.None? || IsRightFor(rule.regex, rule.replacement, d.value, Join(chunks))
  {
    assert "" + Join(chunks) == Join(chunks);
    HeldStreamExactlyWhen(InitialState(rule), chunks);
  }

  // -------------------------------------------------- every stream of a head rule

  lemma JoinTwo(s: string, t: string)
    ensures Join([s, t]) == s + t
  {
    assert [s, t][1..] == [t] && [t][1..] == [];
    assert Join([t]) == t + Join([]) && Join([s, t]) == s + Join([t]);
    assert s + (t + "") == s + t;
  }

  /** From any text whose early decision is not right for a continuation, two chunks on which
      the rule goes wrong. */
  lemma AgreementNeedsFinality(rule: Rule, s: string, w: string)
    requires Classify(rule.regex) == HeadShape && !IsRightFor(rule.regex, rule.replacement, s, w)
    ensures s <= w && !Agrees(rule, [s, w[|s|..]])
  {
    var t := w[|s|..];
    assert s + t == w && "" + s == s;
    JoinTwo(s, t);
    assert DecidedAt(rule.regex, "", [s, t]) == Some(s);
    AgreesExactlyWhen(rule, [s, t]);
  }

  /** Which head rules stream correctly, with any replacement: exactly those whose early
      decisions are final. */
  lemma HeadAgreesExactlyWhen(rule: Rule)
    requires Classify(rule.regex) == HeadShape
    ensures AlwaysAgrees(rule) <==> Decides(rule.regex, rule.replacement)
  {
    var r, rep := rule.regex, rule.replacement;
    if Decides(r, rep) {
      forall chunks ensures Agrees(rule, chunks) { AgreesExactlyWhen(rule, chunks); }
    }
    if AlwaysAgrees(rule) {
      forall s, w ensures IsCommitFinalAt(r, rep, s, w) && IsGiveUpFinalAt(r, rep, s, w) {
        if !IsRightFor(r, rep, s, w) { AgreementNeedsFinality(rule, s, w); }
      }
    }
  }

  /** Unless the template inserts the match exactly once, nothing hides an unstable match. */
  lemma UnhiddenAgreesExactlyWhen(rule: Rule)
    requires Classify(rule.regex) == HeadShape && Wholes(rule.replacement) != 1
    ensures AlwaysAgrees(rule) <==>
            Stable(rule.regex) && forall s, w :: IsGiveUpFinalAt(rule.regex, rule.replacement, s, w)
  {
    var r, rep := rule.regex, rule.replacement;
    HeadAgreesExactlyWhen(rule);
    assert forall s, w :: IsCommitFinalAt(r, rep, s, w) <==> IsStableAt(r, s, w);
  }

  /** A rule without a dollar sign, which is what the growth check admits. */
  lemma PlainAgreesExactlyWhen(rule: Rule)
    requires Classify(rule.regex) == HeadShape && '$' !in Source(rule.replacement)
    ensures AlwaysAgrees(rule) <==>
            Stable(rule.regex) && forall s, w :: IsGiveUpFinalAt(rule.regex, rule.replacement, s, w)
  {
    NoDollarNoWhole(rule.replacement);
    UnhiddenAgreesExactlyWhen(rule);
  }

  /** Nothing hides anything from a rule that deletes. */
  lemma DeletingAgreesExactlyWhen(rule: Rule)
    requires Classify(rule.regex) == HeadShape && rule.replacement == []
    ensures AlwaysAgrees(rule) <==> Stable(rule.regex) && BoundFinal(rule.regex)
  {
    var r := rule.regex;
    UnhiddenAgreesExactlyWhen(rule);
    forall s, w ensures IsGiveUpFinalAt(r, [], s, w) <==> IsBoundFinalAt(r, s, w) { DeletingGivesUp(r, s, w); }
  }

  lemma DeletingGivesUp(r: Regex, s: string, w: string)
    requires !HasEnd(r)
    ensures IsGiveUpFinalAt(r, [], s, w) <==> IsBoundFinalAt(r, s, w)
  {
    if s <= w && HeadEnd(r, s).None? && HeadEnd(r, w).Some? {
      var f := HeadEnd(r, w).value;
      if f == 0 { LocalEnd(r, s, w, 0); }
      assert |Expand([], w[..f])| != |w[..f]|;
    }
  }

  lemma StreamOfOne(rule: Rule, chunks: seq<string>)
    requires Decides(rule.regex, rule.replacement)
    ensures Agrees(rule, chunks)
  {
    var one := Rule(["m"], rule.regex, rule.replacement);
    assert Targets(one, "m") && AllDecide([one], "m");
    assert NewStates([one], "m") == [InitialState(one)] + NewStates([], "m");
    assert [InitialState(one)] + NewStates([], "m") == [InitialState(rule)];
    StreamIsReplacement([one], "m", chunks);
    assert ReplaceRules([one], "m", Join(chunks)) ==
           ReplaceRules([], "m", ReplaceAll(rule.regex, rule.replacement, Join(chunks)));
  }

  /** Span and opaque rules stream correctly whatever they are. */
  lemma OtherShapesAgree(rule: Rule)
    requires Classify(rule.regex) != HeadShape
    ensures AlwaysAgrees(rule)
  {
    forall chunks ensures Agrees(rule, chunks) { StreamOfOne(rule, chunks); }
  }
}
