/** The scrubber as the program runs it: transforms are objects that change their fields
    on each chunk, and a scrubber drives a list of them. Every method is tied to the
    functions of `Scrubber`, about which the guarantees are proved. */
module StreamScrubber {
  import opened Text
  import opened Regex
  import opened Replace
  import opened Scrubber
  import opened ScrubberLaws

  class HeadTransform {
    const regex: Regex
    const replacement: Replacement
    const bound: Option<nat>
    var head: string
    var done: bool

    constructor (regex: Regex, replacement: Replacement, bound: Option<nat>)
      ensures Value() == HeadState(regex, replacement, bound, "", false)
    {
      this.regex, this.replacement, this.bound := regex, replacement, bound;
      head, done := "", false;
    }

    function Value(): State
      reads this
    {
      HeadState(regex, replacement, bound, head, done)
    }

    method Push(input: string) returns (out: string)
      modifies this
      ensures (Value(), out) == Scrubber.Push(old(Value()), input)
    {
      if done { return input; }
      head := head + input;
      var found := FindFrom(regex, head, 0);
      match found
      case Some(m) =>
        if m.1 < |head| {
          done := true;
          out := ReplaceAll(regex, replacement, head);
          head := "";
        } else {
          out := "";
        }
      case None =>
        if bound.Some? && ByteLen(head) > bound.value {
          done := true;
          out, head := head, "";
        } else {
          out := "";
        }
    }

    method Finish() returns (out: string)
      modifies this
      ensures (Value(), out) == Scrubber.Finish(old(Value()))
    {
      if done { return ""; }
      done := true;
      out := ReplaceAll(regex, replacement, head);
      head := "";
    }
  }

  class SpanTransform {
    const regex: Regex
    const open: char
    const close: char
    const replacement: Replacement
    var held: string
    var inSpan: bool

    constructor (regex: Regex, open: char, close: char, replacement: Replacement)
      ensures Value() == SpanState(regex, open, close, replacement, "", false)
    {
      this.regex, this.open, this.close, this.replacement := regex, open, close, replacement;
      held, inSpan := "", false;
    }

    function Value(): (st: State)
      reads this
      ensures st.SpanState?
    {
      SpanState(regex, open, close, replacement, held, inSpan)
    }

    method Push(input: string) returns (out: string)
      modifies this
      ensures (Value(), out) == Scrubber.Push(old(Value()), input)
    {
      out := "";
      ghost var start := Value();
      assert input[0..] == input && "" + SpanFeed(start, input).1 == SpanFeed(start, input).1;
      for k := 0 to |input|
        invariant var (st, rest) := SpanFeed(Value(), input[k..]);
                  SpanFeed(start, input) == (st, out + rest)
      {
        var ch := input[k];
        ghost var before, outBefore := Value(), out;
        assert input[k..][1..] == input[k + 1..];
        if inSpan {
          if ch == close {
            var full := held + [ch];
            held := "";
            out := out + ReplaceFirst(regex, replacement, full);
            inSpan := false;
          } else {
            held := held + [ch];
          }
        } else if ch == open {
          inSpan := true;
          held := held + [ch];
        } else {
          out := out + [ch];
        }
        ghost var step := SpanStep(before, ch);
        assert Value() == step.0 && out == outBefore + step.1;
        Associates(outBefore, step.1, SpanFeed(Value(), input[k + 1..]).1);
      }
      assert input[|input|..] == "" && out + "" == out;
    }

    method Finish() returns (out: string)
      modifies this
      ensures (Value(), out) == Scrubber.Finish(old(Value()))
    {
      out := held;
      held := "";
    }
  }

  class OpaqueTransform {
    const regex: Regex
    const replacement: Replacement
    var buf: string

    constructor (regex: Regex, replacement: Replacement)
      ensures Value() == OpaqueState(regex, replacement, "")
    {
      this.regex, this.replacement, buf := regex, replacement, "";
    }

    function Value(): State
      reads this
    {
      OpaqueState(regex, replacement, buf)
    }

    method Push(input: string) returns (out: string)
      modifies this
      ensures (Value(), out) == Scrubber.Push(old(Value()), input)
    {
      buf := buf + input;
      out := "";
    }

    method Finish() returns (out: string)
      modifies this
      ensures (Value(), out) == Scrubber.Finish(old(Value()))
    {
      out := ReplaceAll(regex, replacement, buf);
      buf := "";
    }
  }

  /** `Box<dyn Transform>` */
  datatype Transform =
    | Head(head: HeadTransform)
    | Span(span: SpanTransform)
    | Opaque(opaqueOne: OpaqueTransform)
  {
    function Obj(): object {
      match this
      case Head(t) => t
      case Span(t) => t
      case Opaque(t) => t
    }

    function Value(): State
      reads Obj()
    {
      match this
      case Head(t) => t.Value()
      case Span(t) => t.Value()
      case Opaque(t) => t.Value()
    }

    method Push(input: string) returns (out: string)
      modifies Obj()
      ensures (Value(), out) == Scrubber.Push(old(Value()), input)
    {
      match this
      case Head(t) => out := t.Push(input);
      case Span(t) => out := t.Push(input);
      case Opaque(t) => out := t.Push(input);
    }

    method Finish() returns (out: string)
      modifies Obj()
      ensures (Value(), out) == Scrubber.Finish(old(Value()))
    {
      match this
      case Head(t) => out := t.Finish();
      case Span(t) => out := t.Finish();
      case Opaque(t) => out := t.Finish();
    }
  }

  method NewTransform(rule: Rule) returns (t: Transform)
    ensures fresh(t.Obj()) && t.Value() == InitialState(rule)
  {
    match Classify(rule.regex)
    case HeadShape =>
      var bound := HeadDecisionBound(rule.regex);
      var head := new HeadTransform(rule.regex, rule.replacement, bound);
      t := Head(head);
    case SpanShape(open, close) =>
      var span := new SpanTransform(rule.regex, open, close, rule.replacement);
      t := Span(span);
    case OpaqueShape =>
      var all := new OpaqueTransform(rule.regex, rule.replacement);
      t := Opaque(all);
  }

  lemma {:induction false} NewStatesSnoc(rules: seq<Rule>, model: string, k: nat)
    requires k < |rules|
    ensures NewStates(rules[..k + 1], model)
            == NewStates(rules[..k], model) + (if Targets(rules[k], model) then [InitialState(rules[k])] else [])
  {
    if k == 0 {
      assert rules[..1] == [rules[0]] && [rules[0]][1..] == [] && rules[..0] == [];
      assert NewStates([], model) == [];
    } else {
      NewStatesSnoc(rules[1..], model, k - 1);
      assert rules[..k + 1][1..] == rules[1..][..k] && rules[..k][1..] == rules[1..][..k - 1];
    }
  }

  /** Chunks already through the first `k` transforms: what `PushChain` still has to do. */
  ghost predicate PushedSoFar(start: seq<State>, delta: string, now: seq<State>, k: nat, cur: string) {
    && |now| == |start| && k <= |start|
    && (forall j :: k <= j < |start| ==> now[j] == start[j])
    && PushChain(start, delta) == (now[..k] + PushChain(start[k..], cur).0, PushChain(start[k..], cur).1)
  }

  lemma PushedOneMore(start: seq<State>, delta: string, now: seq<State>, k: nat, cur: string, next: seq<State>)
    requires PushedSoFar(start, delta, now, k, cur) && k < |start|
    requires next == now[k := Push(start[k], cur).0]
    ensures PushedSoFar(start, delta, next, k + 1, Push(start[k], cur).1)
  {
    var rest := PushChain(start[k + 1..], Push(start[k], cur).1);
    assert start[k..][0] == start[k] && start[k..][1..] == start[k + 1..];
    assert PushChain(start[k..], cur) == ([next[k]] + rest.0, rest.1);
    assert now[..k] + ([next[k]] + rest.0) == next[..k + 1] + rest.0;
  }

  ghost predicate FinishedSoFar(start: seq<State>, now: seq<State>, k: nat, cur: string) {
    && |now| == |start| && k <= |start|
    && (forall j :: k <= j < |start| ==> now[j] == start[j])
    && FinishChain(start[k..], cur) == FinishChain(start, "")
  }

  lemma FinishedOneMore(start: seq<State>, now: seq<State>, k: nat, cur: string, next: seq<State>)
    requires FinishedSoFar(start, now, k, cur) && k < |start| && |next| == |start|
    requires forall j :: k < j < |start| ==> next[j] == now[j]
    ensures var (st, pushed) := Push(start[k], cur); FinishedSoFar(start, next, k + 1, pushed + Finish(st).1)
  {
    assert start[k..][0] == start[k] && start[k..][1..] == start[k + 1..];
  }

  /** The objects behind a list of transforms. */
  ghost function ObjectsOf(ts: seq<Transform>): set<object> {
    set t | t in ts :: t.Obj()
  }

  /** No two transforms share an object. */
  ghost predicate Separate(ts: seq<Transform>) {
    forall j, k :: 0 <= j < k < |ts| ==> ts[j].Obj() != ts[k].Obj()
  }

  ghost function ValuesOf(ts: seq<Transform>): seq<State>
    reads ObjectsOf(ts)
  {
    seq(|ts|, k requires 0 <= k < |ts| reads ObjectsOf(ts) => ts[k].Value())
  }

  /** One transform's push touches that transform alone. */
  method PushAt(ts: seq<Transform>, k: nat, input: string) returns (out: string)
    requires Separate(ts) && k < |ts|
    modifies ts[k].Obj()
    ensures out == Scrubber.Push(old(ValuesOf(ts))[k], input).1
    ensures ValuesOf(ts) == old(ValuesOf(ts))[k := Scrubber.Push(old(ValuesOf(ts))[k], input).0]
  {
    out := ts[k].Push(input);
  }

  method FinishAt(ts: seq<Transform>, k: nat) returns (out: string)
    requires Separate(ts) && k < |ts|
    modifies ts[k].Obj()
    ensures out == Scrubber.Finish(old(ValuesOf(ts))[k]).1
    ensures ValuesOf(ts) == old(ValuesOf(ts))[k := Scrubber.Finish(old(ValuesOf(ts))[k]).0]
  {
    out := ts[k].Finish();
  }

  method AppendTransform(ts: seq<Transform>, rule: Rule) returns (more: seq<Transform>)
    requires Separate(ts)
    ensures Separate(more) && fresh(ObjectsOf(more) - ObjectsOf(ts))
    ensures ValuesOf(more) == old(ValuesOf(ts)) + [InitialState(rule)]
  {
    var t := NewTransform(rule);
    more := ts + [t];
    assert forall u :: u in more <==> u in ts || u == t;
  }

  method BuildTransforms(rules: seq<Rule>, model: string) returns (ts: seq<Transform>)
    ensures Separate(ts) && fresh(ObjectsOf(ts))
    ensures ValuesOf(ts) == NewStates(rules, model)
  {
    ts := [];
    for k := 0 to |rules|
      invariant Separate(ts) && fresh(ObjectsOf(ts))
      invariant ValuesOf(ts) == NewStates(rules[..k], model)
    {
      NewStatesSnoc(rules, model, k);
      if Targets(rules[k], model) {
        ts := AppendTransform(ts, rules[k]);
      }
    }
    assert rules[..|rules|] == rules;
  }

  class StreamScrubber {
    var transforms: seq<Transform>

    ghost predicate Valid()
      reads this
    {
      this !in ObjectsOf(transforms) && Separate(transforms)
    }

    ghost function Objects(): set<object>
      reads this
    {
      ObjectsOf(transforms)
    }

    ghost function Values(): seq<State>
      reads this, Objects()
    {
      ValuesOf(transforms)
    }

    constructor (rules: seq<Rule>, model: string)
      ensures Valid() && fresh(Objects())
      ensures Values() == NewStates(rules, model)
    {
      var ts := BuildTransforms(rules, model);
      transforms := ts;
    }

    method Push(delta: string) returns (out: string)
      requires Valid()
      modifies Objects()
      ensures transforms == old(transforms) && Valid()
      ensures (Values(), out) == PushChain(old(Values()), delta)
    {
      out := delta;
      ghost var start := Values();
      assert start[0..] == start && [] + PushChain(start, delta).0 == PushChain(start, delta).0;
      for k := 0 to |transforms|
        invariant PushedSoFar(start, delta, Values(), k, out)
      {
        ghost var now, cur := Values(), out;
        out := PushAt(transforms, k, out);
        PushedOneMore(start, delta, now, k, cur, Values());
      }
      assert start[|start|..] == [] && Values()[..|start|] + [] == Values();
    }

    method Finish() returns (out: string)
      requires Valid()
      modifies Objects()
      ensures transforms == old(transforms) && Valid()
      ensures out == FinishChain(old(Values()), "")
    {
      out := "";
      ghost var start := Values();
      assert start[0..] == start;
      for k := 0 to |transforms|
        invariant FinishedSoFar(start, Values(), k, out)
      {
        ghost var now, cur := Values(), out;
        var pushed := PushAt(transforms, k, out);
        var finished := FinishAt(transforms, k);
        out := pushed + finished;
        FinishedOneMore(start, now, k, cur, Values());
      }
      assert start[|start|..] == [];
    }
  }

  /** A caller's whole use of a scrubber: build it, push every chunk, finish. */
  method ScrubStream(rules: seq<Rule>, model: string, chunks: seq<string>) returns (out: string)
    ensures out == Stream(NewStates(rules, model), chunks)
    ensures AllDecide(rules, model) ==> out == ReplaceRules(rules, model, Join(chunks))
  {
    var s := new StreamScrubber(rules, model);
    out := "";
    ghost var start := s.Values();
    assert chunks[0..] == chunks && "" + PushAll(start, chunks).1 == PushAll(start, chunks).1;
    for k := 0 to |chunks|
      invariant s.Valid() && fresh(s) && fresh(s.Objects())
      invariant PushAll(start, chunks)
                == (PushAll(s.Values(), chunks[k..]).0, out + PushAll(s.Values(), chunks[k..]).1)
    {
      assert chunks[k..][0] == chunks[k] && chunks[k..][1..] == chunks[k + 1..];
      var now := s.Push(chunks[k]);
      Associates(out, now, PushAll(s.Values(), chunks[k + 1..]).1);
      out := out + now;
    }
    assert chunks[|chunks|..] == [] && PushAll(s.Values(), []) == (s.Values(), "");
    assert out + "" == out;
    var flushed := s.Finish();
    out := out + flushed;
    if AllDecide(rules, model) {
      StreamIsReplacement(rules, model, chunks);
    }
  }
}
