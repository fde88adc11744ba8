/** What holds of every pattern's matches. */
module RegexLaws {
  import opened Text
  import opened Regex

  /** The positions of `es` no later than `n`, in order. */
  function UpTo(es: seq<nat>, n: nat): (r: seq<nat>)
    ensures Within(r, 0, n)
  {
    if es == [] then []
    else (if es[0] <= n then [es[0]] else []) + UpTo(es[1..], n)
  }

  lemma {:induction false} UpToWithin(es: seq<nat>, lo: nat, hi: nat, n: nat)
    requires Within(es, lo, hi)
    ensures Within(UpTo(es, n), lo, n)
  {
    if es != [] { UpToWithin(es[1..], lo, hi, n); }
  }

  lemma {:induction false} UpToAppend(a: seq<nat>, b: seq<nat>, n: nat)
    ensures UpTo(a + b, n) == UpTo(a, n) + UpTo(b, n)
  {
    if a == [] {
      assert a + b == b;
    } else {
      assert (a + b)[1..] == a[1..] + b;
      UpToAppend(a[1..], b, n);
    }
  }

  lemma {:induction false} UpToNone(es: seq<nat>, n: nat)
    requires forall k :: 0 <= k < |es| ==> n < es[k]
    ensures UpTo(es, n) == []
  {
    if es != [] { UpToNone(es[1..], n); }
  }

  // ------------------------------------------------- membership in Bind/Loop

  lemma {:induction false} BindHas(b: Regex, s: string, i: nat, starts: seq<nat>, m: nat, e: nat)
    requires i <= |s| && Within(starts, i, |s|)
    requires m in starts && e in Ends(b, s, m)
    ensures e in Bind(b, s, i, starts)
  {
    if starts[0] != m { BindHas(b, s, i, starts[1..], m, e); }
  }

  lemma {:induction false} BindFrom(b: Regex, s: string, i: nat, starts: seq<nat>, e: nat) returns (m: nat)
    requires i <= |s| && Within(starts, i, |s|)
    requires e in Bind(b, s, i, starts)
    ensures m in starts && e in Ends(b, s, m)
  {
    if e in Ends(b, s, starts[0]) {
      m := starts[0];
    } else {
      m := BindFrom(b, s, i, starts[1..], e);
    }
  }

  lemma {:induction false} LoopFrom(r: Regex, s: string, i: nat, starts: seq<nat>, e: nat) returns (m: nat)
    requires i <= |s| && r.Rep? && r.lo == 0 && r.extra == None
    requires Within(starts, i, |s|)
    requires e in Loop(r, s, i, starts)
    ensures m in starts && if m == i then e == i else e in Ends(r, s, m)
  {
    if starts[0] == i && e == i {
      m := i;
    } else if starts[0] != i && e in Ends(r, s, starts[0]) {
      m := starts[0];
    } else {
      m := LoopFrom(r, s, i, starts[1..], e);
    }
  }

  /** How an end of a repetition came about: either no further copy, or one copy up to
      `m` and the rest of the repetition from there. */
  lemma {:induction false} RepStep(r: Regex, s: string, i: nat, e: nat) returns (stop: bool, m: nat, rest: Regex)
    requires r.Rep? && i <= |s| && e in Ends(r, s, i)
    ensures stop ==> e == i && (r.lo == 0 || m == i) && i <= m <= |s|
    ensures stop && r.lo > 0 ==> false
    ensures !stop ==> m in Ends(r.sub, s, i) && e in Ends(rest, s, m)
    ensures !stop ==> rest.Rep? && rest.sub == r.sub && rest.greedy == r.greedy
    ensures !stop ==> rest.lo == (if r.lo > 0 then r.lo - 1 else 0)
    ensures !stop && r.lo > 0 ==> rest.extra == r.extra
    ensures !stop && r.lo == 0 && r.extra.Some? ==> r.extra.value > 0 && rest.extra == Some(r.extra.value - 1)
    ensures !stop && r.lo == 0 && r.extra.None? ==> rest == r && m > i
  {
    var ms := Ends(r.sub, s, i);
    m, stop, rest := i, false, r;
    if r.lo > 0 {
      rest := Rep(r.sub, r.lo - 1, r.extra, r.greedy);
      m := BindFrom(rest, s, i, ms, e);
    } else if r.extra == Some(0) || e == i {
      stop := true;
    } else if r.extra.Some? {
      rest := Rep(r.sub, 0, Some(r.extra.value - 1), r.greedy);
      m := BindFrom(rest, s, i, ms, e);
    } else {
      m := LoopFrom(r, s, i, ms, e);
    }
  }

  // ----------------------------------------------------------------- lengths

  lemma {:induction false} ClassLens(cs: seq<CharRange>, c: char)
    requires Has(cs, c)
    ensures ClassMin(cs).Some? && ClassMin(cs).value <= Utf8Len(c)
    ensures ClassMax(cs).Some? && Utf8Len(c) <= ClassMax(cs).value
  {
    if !(cs[0].lo <= c <= cs[0].hi) {
      assert Has(cs[1..], c) by {
        var k :| 0 <= k < |cs| && cs[k].lo <= c <= cs[k].hi;
        assert cs[1..][k - 1] == cs[k];
      }
      ClassLens(cs[1..], c);
    }
  }

  lemma MulStep(k: nat, n: nat)
    requires k > 0
    ensures k * n == n + (k - 1) * n
  {
  }

  /** Every match is at least `MinLen` bytes, and a pattern without one never matches. */
  lemma {:induction false} MinLenBounds(r: Regex, s: string, i: nat, e: nat)
    requires i <= |s| && e in Ends(r, s, i)
    ensures MinLen(r).Some? && MinLen(r).value <= ByteLen(s[i..e])
    decreases Size(r), Copies(r), |s| - i, 1
  {
    match r
    case Empty =>
    case Start =>
    case End =>
    case Literal(t) => assert s[i..e] == t;
    case Class(cs) => assert s[i..e] == [s[i]]; ClassLens(cs, s[i]);
    case Cat(a, b) =>
      var m := BindFrom(b, s, i, Ends(a, s, i), e);
      MinLenBounds(a, s, i, m);
      MinLenBounds(b, s, m, e);
      ByteLenSpan(s, i, m, e);
    case Alt(a, b) =>
      if e in Ends(a, s, i) { MinLenBounds(a, s, i, e); } else { MinLenBounds(b, s, i, e); }
    case Rep(x, lo, extra, g) =>
      if lo > 0 { MinLenOfRep(r, s, i, e); }
  }

  lemma {:induction false} MinLenOfRep(r: Regex, s: string, i: nat, e: nat)
    requires i <= |s| && r.Rep? && r.lo > 0 && e in Ends(r, s, i)
    ensures MinLen(r).Some? && MinLen(r).value <= ByteLen(s[i..e])
    decreases Size(r), Copies(r), |s| - i, 0
  {
    var stop, m, rest := RepStep(r, s, i, e);
    MinLenBounds(r.sub, s, i, m);
    MinLenBounds(rest, s, m, e);
    ByteLenSpan(s, i, m, e);
    MulStep(r.lo, MinLen(r.sub).value);
  }

  /** Every match is at most `MaxLen` bytes, when there is one. */
  lemma {:induction false} MaxLenBounds(r: Regex, s: string, i: nat, e: nat)
    requires i <= |s| && e in Ends(r, s, i) && MaxLen(r).Some?
    ensures ByteLen(s[i..e]) <= MaxLen(r).value
    decreases Size(r), Copies(r), |s| - i, 1
  {
    match r
    case Empty =>
    case Start =>
    case End =>
    case Literal(t) => assert s[i..e] == t;
    case Class(cs) => assert s[i..e] == [s[i]]; ClassLens(cs, s[i]);
    case Cat(a, b) =>
      var m := BindFrom(b, s, i, Ends(a, s, i), e);
      MaxLenBounds(a, s, i, m);
      MaxLenBounds(b, s, m, e);
      ByteLenSpan(s, i, m, e);
    case Alt(a, b) =>
      if e in Ends(a, s, i) { MaxLenBounds(a, s, i, e); } else { MaxLenBounds(b, s, i, e); }
    case Rep(x, lo, extra, g) => MaxLenOfRep(r, s, i, e);
  }

  lemma {:induction false} MaxLenOfRep(r: Regex, s: string, i: nat, e: nat)
    requires i <= |s| && r.Rep? && e in Ends(r, s, i) && MaxLen(r).Some?
    ensures ByteLen(s[i..e]) <= MaxLen(r).value
    decreases Size(r), Copies(r), |s| - i, 0
  {
    var stop, m, rest := RepStep(r, s, i, e);
    if !stop {
      var n, k := MaxLen(r.sub).value, r.lo + r.extra.value;
      MaxLenBounds(r.sub, s, i, m);
      MaxLenBounds(rest, s, m, e);
      ByteLenSpan(s, i, m, e);
      assert rest.lo + rest.extra.value == k - 1;
      MulStep(k, n);
    }
  }

  // --------------------------------------------------------------- locality

  /** A pattern without `$` sees only the text it consumes: on a prefix it has exactly the
      ends that fit in the prefix, in the same order of preference. */
  lemma {:induction false} Locality(r: Regex, s: string, w: string, i: nat)
    requires i <= |s| && s <= w && !HasEnd(r)
    ensures Ends(r, s, i) == UpTo(Ends(r, w, i), |s|)
    decreases Size(r), Copies(r), |s| - i, 2, 0
  {
    match r
    case Empty =>
    case Start =>
    case Literal(x) =>
      if |x| <= |s| - i {
        assert s[i..][..|x|] == w[i..][..|x|];
        assert x <= s[i..] <==> x <= w[i..];
      }
    case Class(cs) =>
    case Cat(a, b) =>
      Locality(a, s, w, i);
      BindLocality(b, s, w, i, Ends(a, w, i));
    case Alt(a, b) =>
      Locality(a, s, w, i);
      Locality(b, s, w, i);
      UpToAppend(Ends(a, w, i), Ends(b, w, i), |s|);
    case Rep(_, _, _, _) => RepLocality(r, s, w, i);
  }

  lemma OrStopUpTo(greedy: bool, more: seq<nat>, i: nat, n: nat)
    requires i <= n
    ensures UpTo(OrStop(greedy, more, i), n) == OrStop(greedy, UpTo(more, n), i)
  {
    assert UpTo([i], n) == [i];
    UpToAppend(more, [i], n);
    UpToAppend([i], more, n);
  }

  lemma {:induction false} RepLocality(r: Regex, s: string, w: string, i: nat)
    requires i <= |s| && s <= w && r.Rep? && !HasEnd(r)
    ensures RepEnds(r, s, i) == UpTo(RepEnds(r, w, i), |s|)
    decreases Size(r), Copies(r), |s| - i, 1, 0
  {
    var starts := Ends(r.sub, w, i);
    Locality(r.sub, s, w, i);
    if r.lo > 0 {
      BindLocality(r.(lo := r.lo - 1), s, w, i, starts);
    } else if r.extra == None {
      LoopLocality(r, s, w, i, starts);
      OrStopUpTo(r.greedy, Loop(r, w, i, starts), i, |s|);
    } else if r.extra.value > 0 {
      var rest := r.(extra := Some(r.extra.value - 1));
      BindLocality(rest, s, w, i, starts);
      OrStopUpTo(r.greedy, Bind(rest, w, i, starts), i, |s|);
    }
  }

  lemma {:induction false} BindLocality(b: Regex, s: string, w: string, i: nat, starts: seq<nat>)
    requires i <= |s| && s <= w && !HasEnd(b) && Within(starts, i, |w|)
    ensures Within(UpTo(starts, |s|), i, |s|)
    ensures Bind(b, s, i, UpTo(starts, |s|)) == UpTo(Bind(b, w, i, starts), |s|)
    decreases Size(b), Copies(b), |s| - i, 3, |starts|
  {
    UpToWithin(starts, i, |w|, |s|);
    if starts != [] {
      var m, rest := starts[0], starts[1..];
      var first, others := Ends(b, w, m), Bind(b, w, i, rest);
      BindLocality(b, s, w, i, rest);
      UpToAppend(first, others, |s|);
      if m <= |s| {
        Locality(b, s, w, m);
        assert UpTo(starts, |s|) == [m] + UpTo(rest, |s|);
        BindCons(b, s, i, m, UpTo(rest, |s|));
      } else {
        UpToNone(first, |s|);
        assert UpTo(starts, |s|) == UpTo(rest, |s|);
      }
    }
  }

  lemma BindCons(b: Regex, s: string, i: nat, m: nat, rest: seq<nat>)
    requires i <= m <= |s| && Within(rest, i, |s|)
    ensures Within([m] + rest, i, |s|)
    ensures Bind(b, s, i, [m] + rest) == Ends(b, s, m) + Bind(b, s, i, rest)
  {
    assert ([m] + rest)[1..] == rest;
  }

  lemma {:induction false} LoopLocality(r: Regex, s: string, w: string, i: nat, starts: seq<nat>)
    requires i <= |s| && s <= w && !HasEnd(r) && r.Rep? && r.lo == 0 && r.extra == None && Within(starts, i, |w|)
    ensures Within(UpTo(starts, |s|), i, |s|)
    ensures Loop(r, s, i, UpTo(starts, |s|)) == UpTo(Loop(r, w, i, starts), |s|)
    decreases Size(r), Copies(r), |s| - i, 0, |starts|
  {
    UpToWithin(starts, i, |w|, |s|);
    if starts != [] {
      var m := starts[0];
      var first := if m == i then [i] else Ends(r, w, m);
      LoopLocality(r, s, w, i, starts[1..]);
      UpToAppend(first, Loop(r, w, i, starts[1..]), |s|);
      if m <= |s| {
        if m > i { Locality(r, s, w, m); } else { assert UpTo([i], |s|) == [i]; }
        assert UpTo(starts, |s|)[1..] == UpTo(starts[1..], |s|);
      } else {
        UpToNone(first, |s|);
        assert UpTo(starts, |s|) == UpTo(starts[1..], |s|);
      }
    }
  }

  // ----------------------------------------------------- anchors and emptiness

  /** A pattern whose every match begins with `^` matches nowhere but at the start. */
  lemma {:induction false} AnchoredOnlyAtStart(r: Regex, s: string, i: nat)
    requires 0 < i <= |s| && BeginsWithStart(r)
    ensures Ends(r, s, i) == []
    decreases Size(r)
  {
    match r
    case Start =>
    case Cat(a, b) =>
      if Ends(r, s, i) != [] {
        var m := BindFrom(b, s, i, Ends(a, s, i), Ends(r, s, i)[0]);
        if BeginsWithStart(a) {
          AnchoredOnlyAtStart(a, s, i);
        } else {
          MaxLenBounds(a, s, i, m);
          ByteLenZero(s[i..m]);
          AnchoredOnlyAtStart(b, s, i);
        }
        assert false;
      }
    case Alt(a, b) =>
      AnchoredOnlyAtStart(a, s, i);
      AnchoredOnlyAtStart(b, s, i);
    case Rep(x, lo, _, _) =>
      AnchoredOnlyAtStart(x, s, i);
      assert Ends(r, s, i) == RepEnds(r, s, i) == Bind(r.(lo := lo - 1), s, i, []);
  }

  /** A pattern of minimum length 0 with no look-around in the way matches empty. */
  lemma {:induction false} NullableMatchesEmpty(r: Regex, s: string, i: nat)
    requires i <= |s| && !HasEnd(r) && MinLen(r) == Some(0)
    requires i == 0 || !HasStart(r)
    ensures i in Ends(r, s, i)
    decreases Size(r), Copies(r)
  {
    match r
    case Empty =>
    case Start =>
    case Literal(t) => ByteLenZero(t);
    case Class(cs) => ClassMinPositive(cs);
    case Cat(a, b) =>
      NullableMatchesEmpty(a, s, i);
      NullableMatchesEmpty(b, s, i);
      BindHas(b, s, i, Ends(a, s, i), i, i);
    case Alt(a, b) =>
      if MinLen(a) == Some(0) { NullableMatchesEmpty(a, s, i); } else { NullableMatchesEmpty(b, s, i); }
    case Rep(x, lo, extra, greedy) =>
      if lo > 0 {
        MulStep(lo, MinLen(x).value);
        var rest := Rep(x, lo - 1, extra, greedy);
        NullableMatchesEmpty(x, s, i);
        NullableMatchesEmpty(rest, s, i);
        BindHas(rest, s, i, Ends(x, s, i), i, i);
      }
  }

  /** Matches empty wherever it is tried after the start of the text. */
  predicate MatchesEmpty(r: Regex) {
    match r
    case Empty => true
    case Literal(t) => t == ""
    case Cat(a, b) => MatchesEmpty(a) && MatchesEmpty(b)
    case Alt(a, b) => MatchesEmpty(a) || MatchesEmpty(b)
    case Rep(x, lo, _, _) => lo == 0 || MatchesEmpty(x)
    case _ => false
  }

  lemma {:induction false} MatchesEmptyExactly(r: Regex, s: string, i: nat)
    requires 0 < i <= |s| && !HasEnd(r)
    ensures i in Ends(r, s, i) <==> MatchesEmpty(r)
    decreases Size(r), Copies(r)
  {
    match r
    case Empty =>
    case Start =>
    case Literal(t) =>
    case Class(cs) =>
    case Cat(a, b) => EmptyBoth(a, b, s, i); MatchesEmptyExactly(a, s, i); MatchesEmptyExactly(b, s, i);
    case Alt(a, b) => MatchesEmptyExactly(a, s, i); MatchesEmptyExactly(b, s, i);
    case Rep(x, lo, extra, greedy) =>
      if lo > 0 {
        var rest := Rep(x, lo - 1, extra, greedy);
        EmptyBoth(x, rest, s, i);
        MatchesEmptyExactly(x, s, i);
        MatchesEmptyExactly(rest, s, i);
      }
  }

  lemma InBounds(es: seq<nat>, lo: nat, hi: nat, e: nat)
    requires Within(es, lo, hi) && e in es
    ensures lo <= e <= hi
  {
  }

  lemma EmptyBoth(a: Regex, b: Regex, s: string, i: nat)
    requires i <= |s|
    ensures i in Bind(b, s, i, Ends(a, s, i)) <==> i in Ends(a, s, i) && i in Ends(b, s, i)
  {
    if i in Bind(b, s, i, Ends(a, s, i)) {
      var m := BindFrom(b, s, i, Ends(a, s, i), i);
      InBounds(Ends(a, s, i), i, |s|, m);
      InBounds(Ends(b, s, m), m, |s|, i);
    } else if i in Ends(a, s, i) && i in Ends(b, s, i) {
      BindHas(b, s, i, Ends(a, s, i), i, i);
    }
  }

  lemma {:induction false} ClassMinPositive(cs: seq<CharRange>)
    ensures ClassMin(cs).Some? ==> ClassMin(cs).value > 0
  {
    if cs != [] { ClassMinPositive(cs[1..]); }
  }

  // ------------------------------------------------------------------- runs

  /** A pattern that matches exactly one character. */
  predicate IsSingle(x: Regex) {
    x.Class? || (x.Literal? && |x.text| == 1)
  }

  predicate Accepts(x: Regex, c: char)
    requires IsSingle(x)
  {
    if x.Class? then Has(x.ranges, c) else x.text[0] == c
  }

  lemma SingleEnds(x: Regex, s: string, i: nat)
    requires i <= |s| && IsSingle(x)
    ensures Ends(x, s, i) == if i < |s| && Accepts(x, s[i]) then [i + 1] else []
  {
    if x.Literal? { assert x.text <= s[i..] <==> i < |s| && x.text[0] == s[i]; }
  }

  predicate AllAccepted(x: Regex, s: string, i: nat, e: nat)
    requires IsSingle(x) && e <= |s|
  {
    forall j :: i <= j < e ==> Accepts(x, s[j])
  }

  /** The same repetition with one copy used up. */
  function OneUsed(r: Regex): Regex
    requires r.Rep?
  {
    if r.lo > 0 then r.(lo := r.lo - 1)
    else if r.extra.Some? && r.extra.value > 0 then r.(extra := Some(r.extra.value - 1))
    else r
  }

  lemma RunUnfolds(r: Regex, s: string, i: nat)
    requires i <= |s| && r.Rep? && IsSingle(r.sub)
    ensures var more := if i < |s| && Accepts(r.sub, s[i]) then Ends(OneUsed(r), s, i + 1) else [];
            Ends(r, s, i) == if r.lo > 0 then more
                             else if r.extra == Some(0) then [i]
                             else OrStop(r.greedy, more, i)
  {
    SingleEnds(r.sub, s, i);
    assert Ends(r, s, i) == RepEnds(r, s, i);
    if i < |s| && Accepts(r.sub, s[i]) {
      var more := Ends(OneUsed(r), s, i + 1);
      assert Ends(r.sub, s, i) == [i + 1] + [];
      assert more + [] == more;
      if r.lo > 0 || r.extra.Some? {
        BindCons(OneUsed(r), s, i, i + 1, []);
      } else {
        assert ([i + 1] + [])[1..] == [];
        assert Loop(r, s, i, [i + 1] + []) == more + Loop(r, s, i, []);
      }
    }
  }

  lemma AcceptedInTurn(x: Regex, s: string, i: nat, e: nat)
    requires IsSingle(x) && i < e <= |s|
    ensures AllAccepted(x, s, i, e) <==> Accepts(x, s[i]) && AllAccepted(x, s, i + 1, e)
  {
  }

  /** A repeated single character ends exactly after each allowed number of accepted
      characters; when greedy, the longest run comes first. */
  lemma {:induction false} RunEnds(r: Regex, s: string, i: nat)
    requires i <= |s| && r.Rep? && IsSingle(r.sub)
    ensures forall e :: e in Ends(r, s, i) <==>
                        i + r.lo <= e <= |s| && (r.extra.Some? ==> e <= i + r.lo + r.extra.value) &&
                        AllAccepted(r.sub, s, i, e)
    ensures r.greedy && Ends(r, s, i) != [] ==> Within(Ends(r, s, i), i, Ends(r, s, i)[0])
    decreases Copies(r), |s| - i
  {
    RunUnfolds(r, s, i);
    if i < |s| && Accepts(r.sub, s[i]) {
      if r.lo > 0 || r.extra != Some(0) {
        RunEnds(OneUsed(r), s, i + 1);
      }
    }
    forall e | i < e <= |s|
      ensures AllAccepted(r.sub, s, i, e) <==> Accepts(r.sub, s[i]) && AllAccepted(r.sub, s, i + 1, e)
    {
      AcceptedInTurn(r.sub, s, i, e);
    }
  }
}
