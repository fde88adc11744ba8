/** The rules the product ships stream exactly, and two head rules that do not. */
module Production {
  import opened Text
  import opened Regex
  import opened RegexLaws
  import opened Replace
  import opened Lengths
  import opened Templates
  import opened Scrubber
  import opened HeadLaws
  import opened SpanLaws
  import opened ScrubberLaws
  import opened HeadStreams
  import opened Stability

  const MAX_CHAR: char := '\U{10FFFF}'
  const ELLIPSIS: char := '\U{2026}'

  /** `\s` */
  const SPACES: seq<CharRange> := [
    CharRange('\t', '\r'), CharRange(' ', ' '), CharRange('\U{85}', '\U{85}'), CharRange('\U{A0}', '\U{A0}'),
    CharRange('\U{1680}', '\U{1680}'), CharRange('\U{2000}', '\U{200A}'), CharRange('\U{2028}', '\U{2029}'),
    CharRange('\U{202F}', '\U{202F}'), CharRange('\U{205F}', '\U{205F}'), CharRange('\U{3000}', '\U{3000}')
  ]

  const OPEN_PARENS: seq<CharRange> := [CharRange('(', '('), CharRange('\U{FF08}', '\U{FF08}')]
  const CLOSE_PARENS: seq<CharRange> := [CharRange(')', ')'), CharRange('\U{FF09}', '\U{FF09}')]
  const NOT_CLOSE_PARENS: seq<CharRange> := [
    CharRange('\0', '('), CharRange('*', '\U{FF08}'), CharRange('\U{FF0A}', MAX_CHAR)
  ]
  const NOT_CLOSE_BRACKET: seq<CharRange> := [CharRange('\0', '\\'), CharRange('^', MAX_CHAR)]

  /** What `\s` stands for is a parameter of the patterns below; all that matters is that no
      dot and no ellipsis is white space. */
  predicate NoMark(spaces: seq<CharRange>) {
    Disjoint([CharRange('.', '.'), CharRange(ELLIPSIS, ELLIPSIS)], spaces)
  }

  lemma SpacesHoldNoMark()
    ensures NoMark(SPACES)
  {
  }

  function Spaces(spaces: seq<CharRange>): Regex { Rep(Class(spaces), 0, None, true) }
  function Dots(): Regex { Rep(Literal("."), 3, Some(3), true) }
  function Ellipses(): Regex { Rep(Literal([ELLIPSIS]), 1, Some(1), true) }

  /** The bracket strip: `[`, anything but `]`, `]`. */
  function Bracket(): Regex {
    Cat(Literal("["), Cat(Rep(Class(NOT_CLOSE_BRACKET), 0, None, true), Literal("]")))
  }

  /** A leading hum, then dots or ellipses, then white space. */
  function Hum(spaces: seq<CharRange>): Regex {
    Cat(Start, Cat(Literal(['\U{55EF}']), Cat(Alt(Dots(), Ellipses()), Spaces(spaces))))
  }

  function Aside(): Regex {
    Cat(Class(OPEN_PARENS), Cat(Rep(Class(NOT_CLOSE_PARENS), 0, None, true), Class(CLOSE_PARENS)))
  }

  /** Dots or ellipses, each with its trailing white space. */
  function MarksThenSpaces(spaces: seq<CharRange>): Regex {
    Alt(Cat(Dots(), Spaces(spaces)), Cat(Ellipses(), Spaces(spaces)))
  }

  /** A leading aside in parentheses, or dots, or ellipses. */
  function Opening(spaces: seq<CharRange>): Regex {
    Cat(Start, Alt(Aside(), MarksThenSpaces(spaces)))
  }

  lemma BracketIsSpan()
    ensures Classify(Bracket()) == SpanShape('[', ']')
  {
    assert !HasStart(Bracket());
    forall c: char ensures Has(NOT_CLOSE_BRACKET, c) <==> c != ']' {
      if c <= '\\' {
        assert NOT_CLOSE_BRACKET[0].lo <= c <= NOT_CLOSE_BRACKET[0].hi;
      } else if c >= '^' {
        assert NOT_CLOSE_BRACKET[1].lo <= c <= NOT_CLOSE_BRACKET[1].hi;
      }
    }
  }

  lemma MarksAre()
    ensures IsSteady(Dots()) && MinLen(Dots()) == Some(3) && Chars(Dots()) == Firsts(Dots()) == [CharRange('.', '.')]
    ensures IsSteady(Ellipses()) && MinLen(Ellipses()) == Some(3)
    ensures Chars(Ellipses()) == Firsts(Ellipses()) == [CharRange(ELLIPSIS, ELLIPSIS)]
    ensures LookFree(Dots()) && LookFree(Ellipses())
  {
    assert ByteLen([ELLIPSIS]) == 3 by { assert [ELLIPSIS][1..] == []; }
    assert MinLen(Literal(".")) == Some(1);
    assert Chars(Literal(".")) == Single(".") == [CharRange('.', '.')] + [];
    assert Chars(Literal([ELLIPSIS])) == [CharRange(ELLIPSIS, ELLIPSIS)] + Single([ELLIPSIS][1..]);
  }

  lemma SteadyChoice(a: Regex, b: Regex)
    requires IsSteady(a) && IsSteady(b) && Distinguished(a, b) && MinLen(a).Some? && MinLen(b).Some?
    requires MinLen(a).value <= MinLen(b).value && LookFree(a) && LookFree(b)
    ensures IsSteady(Alt(a, b)) && MinLen(Alt(a, b)) == MinLen(a) && LookFree(Alt(a, b))
    ensures Firsts(Alt(a, b)) == Firsts(a) + Firsts(b) && Chars(Alt(a, b)) == Chars(a) + Chars(b)
  {
  }

  lemma SteadyWithSpaces(a: Regex, spaces: seq<CharRange>)
    requires IsSteady(a) && MinLen(a).Some? && MinLen(a).value > 0 && Disjoint(Chars(a), spaces) && LookFree(a)
    ensures IsSteady(Cat(a, Spaces(spaces))) && MinLen(Cat(a, Spaces(spaces))) == MinLen(a)
    ensures Firsts(Cat(a, Spaces(spaces))) == Firsts(a) && LookFree(Cat(a, Spaces(spaces)))
  {
    var tail := Spaces(spaces);
    assert Firsts(Class(spaces)) == spaces && LookFree(Class(spaces));
    assert Firsts(tail) == spaces && IsSteady(tail) && IsOptionalTail(tail);
  }

  lemma MarksMeetNoSpace(spaces: seq<CharRange>)
    requires NoMark(spaces)
    ensures Disjoint([CharRange('.', '.')], spaces) && Disjoint([CharRange(ELLIPSIS, ELLIPSIS)], spaces)
  {
    var marks := [CharRange('.', '.'), CharRange(ELLIPSIS, ELLIPSIS)];
    forall k | 0 <= k < |spaces| ensures Apart(marks[0], spaces[k]) && Apart(marks[1], spaces[k]) { }
  }

  /** Everything of the hum pattern after its first character. */
  lemma HumIsSteady(spaces: seq<CharRange>)
    requires NoMark(spaces)
    ensures var tail := Hum(spaces).tail.tail;
            IsSteady(tail) && LookFree(tail) && MinLen(Alt(Dots(), Ellipses())) == Some(3)
  {
    MarksAre();
    SteadyChoice(Dots(), Ellipses());
    assert [CharRange('.', '.')] + [CharRange(ELLIPSIS, ELLIPSIS)]
        == [CharRange('.', '.'), CharRange(ELLIPSIS, ELLIPSIS)];
    SteadyWithSpaces(Alt(Dots(), Ellipses()), spaces);
  }

  lemma HumTail(spaces: seq<CharRange>)
    requires MinLen(Alt(Dots(), Ellipses())) == Some(3)
    ensures TailMatchesEmpty(Hum(spaces))
  {
    var marks := Alt(Dots(), Ellipses());
    assert Parts(Cat(marks, Spaces(spaces))) == [marks, Spaces(spaces)];
    assert Parts(Hum(spaces)) == [Start, Hum(spaces).tail.head, marks, Spaces(spaces)];
    var front := Parts(Hum(spaces))[..3];
    assert front[2] == marks && MatchesEmpty(Spaces(spaces));
    assert Core(Parts(Hum(spaces))) == Core(front) == front;
  }

  /** The hum is decided after nine bytes: what may follow the marks does not count. An aside
      has no bound. */
  lemma ShippedBounds(spaces: seq<CharRange>)
    requires NoMark(spaces)
    ensures DecisionBound(Hum(spaces)) == Some(9) && DecisionBound(Opening(spaces)) == None
  {
    HumCore(spaces);
    OpeningCore(spaces);
  }

  lemma HumLengths(spaces: seq<CharRange>)
    ensures MaxLen(Hum(spaces).tail.head) == Some(3) && MaxLen(Alt(Dots(), Ellipses())) == Some(6)
  {
    var hum := Hum(spaces).tail.head;
    assert ByteLen(hum.text) == 3 by { assert hum.text[1..] == []; }
    assert ByteLen([ELLIPSIS]) == 3 by { assert [ELLIPSIS][1..] == []; }
    assert ByteLen(".") == 1 by { assert "."[1..] == ""; }
  }

  lemma HumCore(spaces: seq<CharRange>)
    requires NoMark(spaces)
    ensures DecisionBound(Hum(spaces)) == Some(9)
  {
    var marks, hum := Alt(Dots(), Ellipses()), Hum(spaces).tail.head;
    var front := [Start, hum, marks];
    HumIsSteady(spaces);
    HumLengths(spaces);
    assert Parts(Cat(marks, Spaces(spaces))) == [marks, Spaces(spaces)];
    assert Parts(Hum(spaces)) == front + [Spaces(spaces)];
    assert Parts(Hum(spaces))[..3] == front;
    assert Core(Parts(Hum(spaces))) == Core(front) == front;
    ThreeParts(Start, hum, marks);
  }

  lemma ThreeParts(a: Regex, b: Regex, c: Regex)
    ensures Concat([a, b, c]) == Cat(a, Cat(b, c))
  {
    assert [a, b, c][1..] == [b, c] && [b, c][1..] == [c];
    assert Concat([c]) == c && Concat([b, c]) == Cat(b, c);
  }

  lemma OpeningCore(spaces: seq<CharRange>)
    requires NoMark(spaces)
    ensures DecisionBound(Opening(spaces)) == None
  {
    var r, tail := Opening(spaces), Opening(spaces).tail;
    OpeningIsSteady(spaces);
    assert Parts(r) == [Start, tail] && Core(Parts(r)) == Parts(r);
    assert [Start, tail][1..] == [tail] && Concat([Start, tail]) == Cat(Start, tail);
    assert MaxLen(Aside().tail) == None && MaxLen(Aside()) == None && MaxLen(tail) == None;
  }

  lemma HumPasses(spaces: seq<CharRange>)
    requires NoMark(spaces)
    ensures Classify(Hum(spaces)) == HeadShape && Passes(Hum(spaces))
  {
    HumIsSteady(spaces);
    HumTail(spaces);
    LiteralThenSteady(Hum(spaces).tail.head.text, Hum(spaces).tail.tail);
  }

  lemma LiteralThenSteady(t: string, tail: Regex)
    requires IsSteady(tail) && LookFree(tail)
    ensures var r := Cat(Start, Cat(Literal(t), tail)); Classify(r) == HeadShape && IsSteady(r)
  {
    var rest := Cat(Literal(t), tail);
    assert BeginsWithStart(Start) && HasStart(Start) && IsExact(Start) && IsExact(Literal(t));
    assert LookFree(Literal(t)) && LookFree(rest) && IsSteady(rest) && !HasEnd(Start);
  }

  lemma AsideIsExact()
    ensures IsExact(Aside()) && MinLen(Aside()) == Some(2) && Firsts(Aside()) == OPEN_PARENS && LookFree(Aside())
  {
    var run := Rep(Class(NOT_CLOSE_PARENS), 0, None, true);
    assert ClassMin(CLOSE_PARENS[1..]) == Some(3) by { assert CLOSE_PARENS[1..][1..] == []; }
    assert ClassMin(OPEN_PARENS[1..]) == Some(3) by { assert OPEN_PARENS[1..][1..] == []; }
    assert MinLen(Class(CLOSE_PARENS)) == Some(1) && MinLen(Class(OPEN_PARENS)) == Some(1);
    var close := Class(CLOSE_PARENS);
    assert Chars(Class(NOT_CLOSE_PARENS)) == NOT_CLOSE_PARENS && Chars(run) == NOT_CLOSE_PARENS;
    assert Firsts(close) == CLOSE_PARENS && Disjoint(NOT_CLOSE_PARENS, CLOSE_PARENS);
    assert IsExact(close) && IsExact(Cat(run, close));
    NoLooks(Class(NOT_CLOSE_PARENS), close);
    NoLooks(Class(NOT_CLOSE_PARENS), Class(OPEN_PARENS));
  }

  lemma NoLooks(x: Regex, y: Regex)
    requires x.Class? && y.Class?
    ensures LookFree(Cat(Rep(x, 0, None, true), y)) && LookFree(y)
  {
    assert LookFree(x) && LookFree(Rep(x, 0, None, true));
  }

  lemma MarksAreSteady(spaces: seq<CharRange>)
    requires NoMark(spaces)
    ensures var marks := MarksThenSpaces(spaces);
            && IsSteady(marks) && MinLen(marks) == Some(3) && LookFree(marks)
            && Firsts(marks) == [CharRange('.', '.')] + [CharRange(ELLIPSIS, ELLIPSIS)]
  {
    MarksAre();
    MarksMeetNoSpace(spaces);
    SteadyWithSpaces(Dots(), spaces);
    SteadyWithSpaces(Ellipses(), spaces);
    SteadyChoice(Cat(Dots(), Spaces(spaces)), Cat(Ellipses(), Spaces(spaces)));
  }

  lemma OpeningIsSteady(spaces: seq<CharRange>)
    requires NoMark(spaces)
    ensures var tail := Opening(spaces).tail;
            && IsSteady(tail) && MinLen(tail) == Some(2) && LookFree(tail)
            && Firsts(tail) == OPEN_PARENS + ([CharRange('.', '.')] + [CharRange(ELLIPSIS, ELLIPSIS)])
  {
    MarksAreSteady(spaces);
    AsideIsExact();
    SteadyChoice(Aside(), MarksThenSpaces(spaces));
  }

  /** `^` and then a steady pattern that is not itself a concatenation and not nullable. */
  lemma AnchoredSteady(tail: Regex)
    requires IsSteady(tail) && CannotBeEmpty(tail) && !tail.Cat? && LookFree(tail)
    ensures Classify(Cat(Start, tail)) == HeadShape && Passes(Cat(Start, tail))
  {
    var r := Cat(Start, tail);
    assert HasStart(Start) && BeginsWithStart(Start) && IsExact(Start);
    assert Parts(r) == [Start, tail];
    assert Core(Parts(r)) == Parts(r);
  }

  lemma OpeningPasses(spaces: seq<CharRange>)
    requires NoMark(spaces)
    ensures Classify(Opening(spaces)) == HeadShape && Passes(Opening(spaces))
  {
    OpeningIsSteady(spaces);
    AnchoredSteady(Opening(spaces).tail);
  }

  /** The shipped rules, all deleting, in order. */
  function ShippedRules(model: string, spaces: seq<CharRange>): seq<Rule> {
    [Rule([model], Bracket(), []), Rule([model], Hum(spaces), []), Rule([model], Opening(spaces), [])]
  }

  lemma ShippedRulePasses(model: string, spaces: seq<CharRange>, k: nat)
    requires NoMark(spaces) && k < 3
    ensures Passes(ShippedRules(model, spaces)[k].regex)
  {
    BracketIsSpan();
    HumPasses(spaces);
    OpeningPasses(spaces);
  }

  lemma ShippedRulesDecide(model: string, spaces: seq<CharRange>)
    requires NoMark(spaces)
    ensures AllDecide(ShippedRules(model, spaces), model)
  {
    forall k | 0 <= k < 3 ensures Decides(ShippedRules(model, spaces)[k].regex, []) {
      ShippedRulePasses(model, spaces, k);
      PassingDecides(ShippedRules(model, spaces)[k].regex);
    }
  }

  /** The shipped rules stream exactly, on every text in every chunking. */
  lemma ShippedRulesStream(model: string, chunks: seq<string>)
    ensures Stream(NewStates(ShippedRules(model, SPACES), model), chunks)
            == ReplaceRules(ShippedRules(model, SPACES), model, Join(chunks))
  {
    SpacesHoldNoMark();
    ShippedRulesDecide(model, SPACES);
    StreamIsReplacement(ShippedRules(model, SPACES), model, chunks);
  }

  // --------------------------------------- a reply that is an artifact and blanks

  lemma NoFirstNoMatch(tail: Regex, s: string)
    requires CannotBeEmpty(tail) && |s| > 0 && !Has(Firsts(tail), s[0])
    ensures HeadEnd(Cat(Start, tail), s) == None
  {
    AfterStart(tail, s);
    if Ends(tail, s, 0) != [] {
      NonEmptyEnds(tail, s, 0, Ends(tail, s, 0)[0]);
      BeginsWithFirst(tail, s, 0, Ends(tail, s, 0)[0]);
      assert false;
    }
  }

  lemma HumFirsts(spaces: seq<CharRange>)
    requires NoMark(spaces)
    ensures CannotBeEmpty(Hum(spaces).tail) && Firsts(Hum(spaces).tail) == [CharRange('\U{55EF}', '\U{55EF}')]
  {
    var hum := Hum(spaces).tail.head;
    assert ByteLen(hum.text) == 3 by { assert hum.text[1..] == []; }
    assert MinLen(hum) == Some(3) && CannotBeEmpty(hum);
  }

  /** The two head rules leave white space alone. */
  lemma HeadsKeepBlanks(spaces: seq<CharRange>, blank: string)
    requires NoMark(spaces) && blank != "" && IsBlank(blank)
    ensures ReplaceAll(Hum(spaces), [], blank) == blank && ReplaceAll(Opening(spaces), [], blank) == blank
  {
    HumPasses(spaces);
    OpeningPasses(spaces);
    HumFirsts(spaces);
    OpeningIsSteady(spaces);
    assert IsSpace(blank[0]);
    NoFirstNoMatch(Hum(spaces).tail, blank);
    NoFirstNoMatch(Opening(spaces).tail, blank);
    AnchoredReplace(Hum(spaces), [], blank);
    AnchoredReplace(Opening(spaces), [], blank);
  }

  lemma BracketLeavesRest(body: string, blank: string)
    requires ']' !in body && IsBlank(blank)
    ensures ReplaceAll(Bracket(), [], "[" + body + "]" + blank) == blank
  {
    BracketIsSpan();
    ReplaceAllIsSpans(Bracket(), [], "[" + body + "]" + blank);
    SpanCloses('[', ']', [], "[" + body, blank);
    UnclosedStays('[', ']', [], blank);
    assert "" + blank == blank;
  }

  lemma ShippedOnArtifact(model: string, spaces: seq<CharRange>, body: string, blank: string)
    requires NoMark(spaces) && ']' !in body && blank != "" && IsBlank(blank)
    ensures var (rules, text) := (ShippedRules(model, spaces), "[" + body + "]" + blank);
            ReplaceRules(rules, model, text) == blank && SomeRuleChanges(rules, model, text)
  {
    var rules, text := ShippedRules(model, spaces), "[" + body + "]" + blank;
    BracketLeavesRest(body, blank);
    HeadsKeepBlanks(spaces, blank);
    assert rules[1..] == [rules[1], rules[2]] && rules[1..][1..] == [rules[2]] && rules[1..][1..][1..] == [];
    assert ReplaceRules([rules[2]], model, blank) == blank;
    assert ReplaceRules(rules[1..], model, blank) == blank;
    ReplaceRulesSnoc(rules, model, text, 0);
    assert Before(rules, model, text, 0) == text && |text| > |blank|;
    assert Changes(rules, model, text, 0);
  }

  /** A reply that is an artifact in brackets and then white space: the shipped rules stream
      the white space, while the stored reply is empty. */
  lemma BlankReachesTheClient(model: string, body: string, blank: string, chunks: seq<string>)
    requires ']' !in body && blank != "" && IsBlank(blank) && Join(chunks) == "[" + body + "]" + blank
    ensures Stream(NewStates(ShippedRules(model, SPACES), model), chunks) == blank
    ensures Cleaned(ShippedRules(model, SPACES), model, Join(chunks)) == ""
  {
    SpacesHoldNoMark();
    ShippedRulesStream(model, chunks);
    ShippedOnArtifact(model, SPACES, body, blank);
  }

  // -------------------------------------------------- two head rules that fail

  /** `^(?:abcd|a)`: the preferred alternative is the longer one. */
  function ShortSecond(): Regex { Cat(Start, Alt(Literal("abcd"), Literal("a"))) }

  /** `^a(?:^|bcd)`: the last part has minimum length 0 but does not match empty there. */
  function AnchorInTail(): Regex { Cat(Start, Cat(Literal("a"), Alt(Start, Literal("bcd")))) }

  lemma LiteralAt(t: string, s: string, i: nat)
    requires i <= |s|
    ensures Ends(Literal(t), s, i) == if i + |t| <= |s| && s[i..i + |t|] == t then [i + |t|] else []
  {
    if i + |t| <= |s| {
      assert s[i..][..|t|] == s[i..i + |t|];
    }
  }

  lemma AfterStart(b: Regex, s: string)
    ensures Ends(Cat(Start, b), s, 0) == Ends(b, s, 0)
  {
    var es := Ends(b, s, 0);
    assert Ends(Start, s, 0) == [0] && [0][1..] == [];
    assert Bind(b, s, 0, [0]) == es + Bind(b, s, 0, []);
    assert es + [] == es;
  }

  lemma ShortSecondUnstable()
    ensures !IsStableAt(ShortSecond(), "ab", "abcd") && Classify(ShortSecond()) == HeadShape
  {
    var both := Alt(Literal("abcd"), Literal("a"));
    AfterStart(both, "ab");
    AfterStart(both, "abcd");
    LiteralAt("abcd", "ab", 0);
    LiteralAt("a", "ab", 0);
    LiteralAt("abcd", "abcd", 0);
    assert "ab"[0..1] == "a" && "abcd"[0..4] == "abcd";
    assert HeadEnd(ShortSecond(), "ab") == Some(1);
    assert HeadEnd(ShortSecond(), "abcd") == Some(4);
  }

  /** Fed as `ab` then `cd`, the rule commits on `a`; on the whole text it takes all. */
  lemma ShortSecondFails()
    ensures Classify(ShortSecond()) == HeadShape
    ensures !Agrees(Rule(["m"], ShortSecond(), []), ["ab", "cd"])
  {
    ShortSecondUnstable();
    assert !IsCommitFinalAt(ShortSecond(), [], "ab", "abcd");
    AgreementNeedsFinality(Rule(["m"], ShortSecond(), []), "ab", "abcd");
    assert "abcd"[2..] == "cd";
  }

  lemma AnchorInTailBound()
    ensures Classify(AnchorInTail()) == HeadShape && DecisionBound(AnchorInTail()) == Some(1)
  {
    var r := AnchorInTail();
    var last := Alt(Start, Literal("bcd"));
    var front := [Start, Literal("a")];
    assert MinLen(last) == Some(0);
    assert ByteLen("a") == 1 by { assert "a"[1..] == ""; }
    assert Parts(r.tail) == [Literal("a"), last] && Parts(r) == [Start, Literal("a"), last];
    assert Parts(r)[..2] == front;
    assert Core(Parts(r)) == Core(front) == front;
    assert front[1..] == [Literal("a")];
    assert Concat(front) == Cat(Start, Literal("a"));
  }

  /** `AnchorInTail` on a text that begins with `a`. */
  lemma AnchorInTailAt(s: string)
    requires |s| > 1 && s[0] == 'a'
    ensures HeadEnd(AnchorInTail(), s) == if |s| >= 4 && s[1..4] == "bcd" then Some(4) else None
  {
    var r := AnchorInTail();
    var last := r.tail.tail;
    AfterStart(r.tail, s);
    LiteralAt("a", s, 0);
    LiteralAt("bcd", s, 1);
    assert s[0..1] == "a" && [1] == [1] + [];
    BindCons(last, s, 0, 1, []);
  }

  /** Cut anywhere between its second and its last character, a text that begins `abcd` is
      given up on past the bound of one byte; whole, it matches. */
  lemma AnchorInTailFails(s: string, t: string)
    requires 2 <= |s| < 4 && "abcd" <= s + t
    ensures !Agrees(Rule(["m"], AnchorInTail(), []), [s, t])
  {
    var w := s + t;
    assert w[..4] == "abcd" && w[1..4] == w[..4][1..] == "bcd" && s[0] == w[..4][0];
    AnchorInTailBound();
    AnchorInTailAt(s);
    AnchorInTailAt(w);
    ByteLenAppend([s[0]], s[1..]);
    ByteLenZero(s[1..]);
    assert s == [s[0]] + s[1..] && w[|s|..] == t;
    GivesUpTooSoon(Rule(["m"], AnchorInTail(), []), s, w, t);
  }

  lemma GivesUpTooSoon(rule: Rule, s: string, w: string, t: string)
    requires Classify(rule.regex) == HeadShape && rule.replacement == []
    requires s <= w && t == w[|s|..] && HeadEnd(rule.regex, s) == None && HeadEnd(rule.regex, w).Some?
    requires DecisionBound(rule.regex).Some? && ByteLen(s) > DecisionBound(rule.regex).value
    ensures !Agrees(rule, [s, t])
  {
    DeletingGivesUp(rule.regex, s, w);
    assert !IsBoundFinalAt(rule.regex, s, w);
    AgreementNeedsFinality(rule, s, w);
  }

  // ------------------------------------------------------ what the check admits

  /** `^a+?`, lazy. */
  lemma LazyRunPasses()
    ensures var lazy := Cat(Start, Rep(Literal("a"), 1, None, false)); Classify(lazy) == HeadShape && Passes(lazy)
  {
    var run := Rep(Literal("a"), 1, None, false);
    assert ByteLen("a") == 1 by { assert "a"[1..] == ""; }
    assert !HasEnd(Literal("a")) && IsExact(Literal("a")) && IsFirm(run) && !HasEnd(run);
    assert Parts(Cat(Start, run)) == [Start, run] && MinLen(run) == Some(1);
    assert Core([Start, run]) == [Start, run];
  }

  /** `^a(?:^)?`: the tail holds a `^` and yet matches empty everywhere. */
  lemma OptionalAnchorPasses()
    ensures var tailed := Cat(Start, Cat(Literal("a"), Rep(Start, 0, Some(1), true)));
            Classify(tailed) == HeadShape && Passes(tailed)
  {
    var opt := Rep(Start, 0, Some(1), true);
    var rest := Cat(Literal("a"), opt);
    assert ByteLen("a") == 1 by { assert "a"[1..] == ""; }
    assert IsExact(opt) && IsExact(rest) && !HasEnd(Start) && !HasEnd(opt) && !HasEnd(rest);
    assert Parts(rest) == [Literal("a"), opt] && Parts(Cat(Start, rest)) == [Start, Literal("a"), opt];
    var front := [Start, Literal("a")];
    assert [Start, Literal("a"), opt][..2] == front && Core(front) == front;
    assert Core([Start, Literal("a"), opt]) == front && MatchesEmpty(opt);
  }

  /** `^(?:abcd|a)` replaced by `X$0` is right on every chunking: the insertion puts back
      whatever the early decision left out. */
  lemma InsertionHides(models: seq<string>)
    ensures AlwaysAgrees(Rule(models, ShortSecond(), [Lit("X"), Whole])) && !Stable(ShortSecond())
  {
    var r, rep := ShortSecond(), [Lit("X"), Whole];
    ShortSecondUnstable();
    InFrontOnly("X");
    ShortSecondBound();
    forall s, w ensures IsCommitFinalAt(r, rep, s, w) && IsGiveUpFinalAt(r, rep, s, w) {
      BoundDecides(r, s, w);
      if s <= w && HeadEnd(r, s).Some? && HeadEnd(r, w) != HeadEnd(r, s) {
        ExtensionOf(r, s, w);
        var u := w[HeadEnd(r, s).value..HeadEnd(r, w).value];
        assert "" + u == u + "";
      }
    }
    HeadAgreesExactlyWhen(Rule(models, r, rep));
  }

  lemma InFrontOnly(t: string)
    ensures Wholes([Lit(t), Whole]) == 1 && Trail([Lit(t), Whole]) == ""
  {
    var rest := [Lit(t), Whole][1..];
    assert rest == [Whole] && rest[1..] == [];
    assert Wholes([]) == 0 && Wholes(rest) == 1;
    assert Expand([], "") == "" && Trail(rest) == "";
  }

  lemma ShortSecondBound()
    ensures Classify(ShortSecond()) == HeadShape && TailMatchesEmpty(ShortSecond())
  {
    var both := Alt(Literal("abcd"), Literal("a"));
    assert ByteLen("a") == 1 by { assert "a"[1..] == ""; }
    ByteLenZero("abcd");
    assert Parts(ShortSecond()) == [Start, both] && MinLen(both) != Some(0);
    assert Core([Start, both]) == [Start, both];
  }
}
