/** The streaming scrubber as functions on values: how a rule is classified, what each
    transform does with a chunk, and the whole-text form it has to agree with. */
module Scrubber {
  import opened Text
  import opened Regex
  import opened Replace

  datatype Rule = Rule(models: seq<string>, regex: Regex, replacement: Replacement)

  datatype Shape = HeadShape | SpanShape(open: char, close: char) | OpaqueShape

  /** `class_is_not_char`: the class is everything but `close`. */
  predicate ClassIsNot(cs: seq<CharRange>, close: char) {
    forall c: char :: Has(cs, c) <==> c != close
  }

  /** Exactly `open [^close]* close`, with two different delimiters. */
  predicate IsSpan(r: Regex) {
    && r.Cat? && r.head.Literal? && |r.head.text| == 1
    && r.tail.Cat? && r.tail.head.Rep?
    && r.tail.tail.Literal? && |r.tail.tail.text| == 1
    && r.head.text[0] != r.tail.tail.text[0]
    && r.tail.head.lo == 0 && r.tail.head.extra == None
    && r.tail.head.sub.Class? && ClassIsNot(r.tail.head.sub.ranges, r.tail.tail.text[0])
  }

  /** `classify`. The look-set test reads: `^` occurs, `$` does not, and every match begins
      with `^`. */
  function Classify(r: Regex): Shape {
    if HasStart(r) && !HasEnd(r) && BeginsWithStart(r) then HeadShape
    else if IsSpan(r) then SpanShape(r.head.text[0], r.tail.tail.text[0])
    else OpaqueShape
  }

  /** A concatenation without its trailing elements of minimum length 0: all of them, and no
      more. */
  function Core(ps: seq<Regex>): (c: seq<Regex>)
    ensures c <= ps && forall k :: |c| <= k < |ps| ==> MinLen(ps[k]) == Some(0)
    ensures c != [] ==> MinLen(c[|c| - 1]) != Some(0)
  {
    if ps != [] && MinLen(ps[|ps| - 1]) == Some(0) then Core(ps[..|ps| - 1]) else ps
  }

  function DecisionBound(r: Regex): Option<nat> {
    if r.Cat? then MaxLen(Concat(Core(Parts(r)))) else MaxLen(r)
  }

  /** `head_decision_bound`. */
  method HeadDecisionBound(r: Regex) returns (bound: Option<nat>)
    ensures bound == DecisionBound(r)
  {
    if r.Cat? {
      var parts := Parts(r);
      var end := |parts|;
      assert parts[..end] == parts;
      while end > 0 && MinLen(parts[end - 1]) == Some(0)
        invariant 0 <= end <= |parts|
        invariant Core(parts[..end]) == Core(parts)
      {
        assert parts[..end][..end - 1] == parts[..end - 1];
        end := end - 1;
      }
      bound := MaxLen(Concat(parts[..end]));
    } else {
      bound := MaxLen(r);
    }
  }

  // -------------------------------------------------------------- transforms

  datatype State =
    | HeadState(regex: Regex, replacement: Replacement, bound: Option<nat>, head: string, done: bool)
    | SpanState(regex: Regex, open: char, close: char, replacement: Replacement, held: string, inSpan: bool)
    | OpaqueState(regex: Regex, replacement: Replacement, buf: string)

  function InitialState(rule: Rule): State {
    match Classify(rule.regex)
    case HeadShape => HeadState(rule.regex, rule.replacement, DecisionBound(rule.regex), "", false)
    case SpanShape(open, close) => SpanState(rule.regex, open, close, rule.replacement, "", false)
    case OpaqueShape => OpaqueState(rule.regex, rule.replacement, "")
  }

  /** One character through an `open [^close]* close` rule. */
  function SpanStep(st: State, ch: char): (State, string)
    requires st.SpanState?
  {
    if st.inSpan then
      if ch == st.close then
        (st.(held := "", inSpan := false), ReplaceFirst(st.regex, st.replacement, st.held + [ch]))
      else
        (st.(held := st.held + [ch]), "")
    else if ch == st.open then
      (st.(held := st.held + [ch], inSpan := true), "")
    else
      (st, [ch])
  }

  function SpanFeed(st: State, input: string): (r: (State, string))
    requires st.SpanState?
    ensures r.0.SpanState?
    decreases |input|
  {
    if input == "" then (st, "")
    else
      var (st1, out1) := SpanStep(st, input[0]);
      var (st2, out2) := SpanFeed(st1, input[1..]);
      (st2, out1 + out2)
  }

  function HeadPush(st: State, input: string): (State, string)
    requires st.HeadState?
  {
    if st.done then (st, input)
    else
      var head := st.head + input;
      match FindFrom(st.regex, head, 0)
      case Some(m) =>
        if m.1 < |head| then (st.(head := "", done := true), ReplaceAll(st.regex, st.replacement, head))
        else (st.(head := head), "")
      case None =>
        if st.bound.Some? && ByteLen(head) > st.bound.value then (st.(head := "", done := true), head)
        else (st.(head := head), "")
  }

  /** `Transform::push`. */
  function Push(st: State, input: string): (State, string) {
    match st
    case HeadState(_, _, _, _, _) => HeadPush(st, input)
    case SpanState(_, _, _, _, _, _) => SpanFeed(st, input)
    case OpaqueState(_, _, _) => (st.(buf := st.buf + input), "")
  }

  /** `Transform::finish`. */
  function Finish(st: State): (State, string) {
    match st
    case HeadState(regex, replacement, _, head, done) =>
      if done then (st, "") else (st.(head := "", done := true), ReplaceAll(regex, replacement, head))
    case SpanState(_, _, _, _, held, _) => (st.(held := ""), held)
    case OpaqueState(regex, replacement, buf) => (st.(buf := ""), ReplaceAll(regex, replacement, buf))
  }

  // -------------------------------------------------------------- the chain

  predicate Targets(rule: Rule, model: string) {
    model in rule.models
  }

  function NewStates(rules: seq<Rule>, model: string): seq<State> {
    if rules == [] then []
    else (if Targets(rules[0], model) then [InitialState(rules[0])] else []) + NewStates(rules[1..], model)
  }

  function PushChain(sts: seq<State>, delta: string): (r: (seq<State>, string))
    ensures |r.0| == |sts|
  {
    if sts == [] then ([], delta)
    else
      var (st, out) := Push(sts[0], delta);
      var (rest, final) := PushChain(sts[1..], out);
      ([st] + rest, final)
  }

  function FinishChain(sts: seq<State>, cur: string): string {
    if sts == [] then cur
    else
      var (st, pushed) := Push(sts[0], cur);
      FinishChain(sts[1..], pushed + Finish(st).1)
  }

  /** What a client has received, and the transforms' state, after some chunks. */
  function PushAll(sts: seq<State>, chunks: seq<string>): (seq<State>, string)
    decreases |chunks|
  {
    if chunks == [] then (sts, "")
    else
      var (sts1, out1) := PushChain(sts, chunks[0]);
      var (sts2, out2) := PushAll(sts1, chunks[1..]);
      (sts2, out1 + out2)
  }

  /** A whole stream: every chunk pushed, then the flush. */
  function Stream(sts: seq<State>, chunks: seq<string>): string {
    var (after, out) := PushAll(sts, chunks);
    out + FinishChain(after, "")
  }

  /** The rules that target `model`, each replaced over the whole text, in order. */
  function ReplaceRules(rules: seq<Rule>, model: string, text: string): string {
    if rules == [] then text
    else ReplaceRules(rules[1..], model,
                      if Targets(rules[0], model) then ReplaceAll(rules[0].regex, rules[0].replacement, text)
                      else text)
  }

  predicate IsSpace(c: char) {
    '\t' <= c <= '\r' || c == ' ' || c as int in {0x85, 0xA0, 0x1680, 0x2028, 0x2029, 0x202F, 0x205F, 0x3000}
    || 0x2000 <= c as int <= 0x200A
  }

  predicate IsBlank(s: string) {
    forall k :: 0 <= k < |s| ==> IsSpace(s[k])
  }

  /** The text a rule list has produced before rule `k`. */
  function Before(rules: seq<Rule>, model: string, text: string, k: nat): string
    requires k <= |rules|
  {
    ReplaceRules(rules[..k], model, text)
  }

  lemma {:induction false} ReplaceRulesSnoc(rules: seq<Rule>, model: string, text: string, k: nat)
    requires k < |rules|
    ensures Before(rules, model, text, k + 1) ==
            (if Targets(rules[k], model)
             then ReplaceAll(rules[k].regex, rules[k].replacement, Before(rules, model, text, k))
             else Before(rules, model, text, k))
  {
    var next := if Targets(rules[0], model) then ReplaceAll(rules[0].regex, rules[0].replacement, text) else text;
    if k == 0 {
      assert rules[..1] == [rules[0]] && rules[..0] == [];
      assert rules[..1][1..] == [];
      assert ReplaceRules([], model, next) == next;
    } else {
      assert rules[..k + 1][1..] == rules[1..][..k] && rules[..k][1..] == rules[1..][..k - 1];
      ReplaceRulesSnoc(rules[1..], model, next, k - 1);
    }
  }

  /** Rule `k` changes the text it is given. */
  predicate Changes(rules: seq<Rule>, model: string, text: string, k: nat)
    requires k < |rules|
  {
    Before(rules, model, text, k + 1) != Before(rules, model, text, k)
  }

  predicate SomeRuleChanges(rules: seq<Rule>, model: string, text: string) {
    exists k :: 0 <= k < |rules| && Changes(rules, model, text, k)
  }

  /** A reply as it is stored: the rules replaced over the whole text, and nothing if they
      leave white space only. */
  function Cleaned(rules: seq<Rule>, model: string, text: string): string {
    var full := ReplaceRules(rules, model, text);
    if SomeRuleChanges(rules, model, text) && IsBlank(full) then "" else full
  }

  /** `apply_output_regex`. The rules that changed the text are reported, and a text they
      left blank is emptied. */
  method ApplyOutputRegex(rules: seq<Rule>, model: string, text: string)
    returns (cleaned: string, matchedRules: seq<nat>)
    ensures forall i: nat :: i in matchedRules <==> i < |rules| && Changes(rules, model, text, i)
    ensures forall a, b :: 0 <= a < b < |matchedRules| ==> matchedRules[a] < matchedRules[b]
    ensures matchedRules != [] <==> SomeRuleChanges(rules, model, text)
    ensures cleaned == Cleaned(rules, model, text)
  {
    cleaned, matchedRules := text, [];
    for i := 0 to |rules|
      invariant cleaned == Before(rules, model, text, i)
      invariant forall k: nat :: k in matchedRules <==> k < i && Changes(rules, model, text, k)
      invariant forall a :: 0 <= a < |matchedRules| ==> matchedRules[a] < i
      invariant forall a, b :: 0 <= a < b < |matchedRules| ==> matchedRules[a] < matchedRules[b]
    {
      ReplaceRulesSnoc(rules, model, text, i);
      if Targets(rules[i], model) {
        var next := ReplaceAll(rules[i].regex, rules[i].replacement, cleaned);
        if next != cleaned {
          matchedRules := matchedRules + [i];
          cleaned := next;
        }
      }
    }
    assert rules[..|rules|] == rules;
    assert matchedRules != [] ==> matchedRules[0] in matchedRules;
    if matchedRules != [] && IsBlank(cleaned) {
      cleaned := "";
    }
  }
}
