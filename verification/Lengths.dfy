/** The length properties of a pattern are not just bounds: they are attained. So the growth
    check refuses no rule that cannot lengthen a text. */
module Lengths {
  import opened Text
  import opened Regex
  import opened RegexLaws
  import opened Replace

  predicate LookFree(r: Regex) {
    !HasStart(r) && !HasEnd(r)
  }

  /** No range runs backwards. */
  predicate IsWellFormed(r: Regex) {
    match r
    case Class(cs) => forall k :: 0 <= k < |cs| ==> cs[k].lo <= cs[k].hi
    case Cat(a, b) => IsWellFormed(a) && IsWellFormed(b)
    case Alt(a, b) => IsWellFormed(a) && IsWellFormed(b)
    case Rep(x, _, _, _) => IsWellFormed(x)
    case _ => true
  }

  /** `w` is matched in full wherever it stands. */
  ghost predicate Fits(r: Regex, w: string) {
    forall p, q :: FitsBetween(r, p, w, q)
  }

  predicate FitsBetween(r: Regex, p: string, w: string, q: string) {
    |p| + |w| in Ends(r, p + w + q, |p|)
  }

  lemma LiteralFits(t: string)
    ensures Fits(Literal(t), t)
  {
    forall p, q ensures FitsBetween(Literal(t), p, t, q) {
      assert (p + t + q)[|p|..][..|t|] == t;
    }
  }

  lemma ClassFits(cs: seq<CharRange>, c: char)
    requires Has(cs, c)
    ensures Fits(Class(cs), [c])
  {
    forall p, q ensures FitsBetween(Class(cs), p, [c], q) {
      assert (p + [c] + q)[|p|] == c;
    }
  }

  lemma CatFits(a: Regex, b: Regex, v: string, w: string)
    requires Fits(a, v) && Fits(b, w)
    ensures Fits(Cat(a, b), v + w)
  {
    forall p, q ensures FitsBetween(Cat(a, b), p, v + w, q) { BindFits(a, b, p, v, w, q); }
  }

  lemma BindFits(a: Regex, b: Regex, p: string, v: string, w: string, q: string)
    requires Fits(a, v) && Fits(b, w)
    ensures var s := p + (v + w) + q; |p| + |v + w| in Bind(b, s, |p|, Ends(a, s, |p|))
  {
    var s := p + (v + w) + q;
    Regrouped(p, v, w, q);
    InTurn(a, b, p, v, w, q, s);
  }

  lemma InTurn(a: Regex, b: Regex, p: string, v: string, w: string, q: string, s: string)
    requires Fits(a, v) && Fits(b, w) && s == p + v + (w + q) && s == (p + v) + w + q
    ensures |p| + |v| + |w| in Bind(b, s, |p|, Ends(a, s, |p|))
  {
    FitsAt(a, p, v, w + q, s);
    FitsAt(b, p + v, w, q, s);
    assert |p + v| == |p| + |v|;
    BindHas(b, s, |p|, Ends(a, s, |p|), |p| + |v|, |p| + |v| + |w|);
  }

  lemma Regrouped(p: string, v: string, w: string, q: string)
    ensures p + (v + w) + q == p + v + (w + q) == (p + v) + w + q && |v + w| == |v| + |w|
  {
  }

  lemma FitsAt(r: Regex, p: string, w: string, q: string, s: string)
    requires Fits(r, w) && s == p + w + q
    ensures |p| + |w| in Ends(r, s, |p|)
  {
    assert FitsBetween(r, p, w, q);
  }

  lemma AltFits(a: Regex, b: Regex, w: string)
    ensures Fits(a, w) || Fits(b, w) ==> Fits(Alt(a, b), w)
  {
    if Fits(a, w) {
      forall p, q ensures FitsBetween(Alt(a, b), p, w, q) { assert FitsBetween(a, p, w, q); }
    } else if Fits(b, w) {
      forall p, q ensures FitsBetween(Alt(a, b), p, w, q) { assert FitsBetween(b, p, w, q); }
    }
  }

  lemma NoneFits(r: Regex)
    requires r.Rep? && r.lo == 0
    ensures Fits(r, "")
  {
    forall p, q ensures FitsBetween(r, p, "", q) { }
  }

  /** One copy, then the rest. */
  lemma OneMoreFits(r: Regex, rest: Regex, v: string, w: string)
    requires r.Rep? && Fits(r.sub, v) && Fits(rest, w)
    requires if r.lo > 0 then rest == r.(lo := r.lo - 1)
             else r.extra.Some? && r.extra.value > 0 && rest == r.(extra := Some(r.extra.value - 1))
    ensures Fits(r, v + w)
  {
    forall p, q ensures FitsBetween(r, p, v + w, q) {
      BindFits(r.sub, rest, p, v, w, q);
      assert Ends(r, p + (v + w) + q, |p|) == RepEnds(r, p + (v + w) + q, |p|);
    }
  }

  lemma {:induction false} ClassMinAttained(cs: seq<CharRange>) returns (c: char)
    requires ClassMin(cs).Some? && forall k :: 0 <= k < |cs| ==> cs[k].lo <= cs[k].hi
    ensures Has(cs, c) && Utf8Len(c) == ClassMin(cs).value
  {
    if ClassMin(cs[1..]).Some? && ClassMin(cs[1..]).value < Utf8Len(cs[0].lo) {
      c := ClassMinAttained(cs[1..]);
      HasLater(cs, c);
    } else {
      c := cs[0].lo;
    }
  }

  lemma {:induction false} ClassMaxAttained(cs: seq<CharRange>) returns (c: char)
    requires ClassMax(cs).Some? && forall k :: 0 <= k < |cs| ==> cs[k].lo <= cs[k].hi
    ensures Has(cs, c) && Utf8Len(c) == ClassMax(cs).value
  {
    if ClassMax(cs[1..]).Some? && ClassMax(cs[1..]).value > Utf8Len(cs[0].hi) {
      c := ClassMaxAttained(cs[1..]);
      HasLater(cs, c);
    } else {
      c := cs[0].hi;
    }
  }

  lemma HasLater(cs: seq<CharRange>, c: char)
    requires cs != [] && Has(cs[1..], c)
    ensures Has(cs, c)
  {
    var k :| 0 <= k < |cs[1..]| && cs[1..][k].lo <= c <= cs[1..][k].hi;
    assert cs[k + 1] == cs[1..][k];
  }

  lemma OneCharLen(c: char)
    ensures ByteLen([c]) == Utf8Len(c)
  {
    assert [c][1..] == "";
  }

  /** The minimum length is that of some text the pattern matches, anywhere. */
  lemma {:induction false} Shortest(r: Regex) returns (w: string)
    requires LookFree(r) && IsWellFormed(r) && MinLen(r).Some?
    ensures Fits(r, w) && ByteLen(w) == MinLen(r).value
    decreases Size(r), Copies(r)
  {
    match r
    case Empty =>
      w := "";
      forall p, q ensures FitsBetween(r, p, "", q) { }
    case Literal(t) =>
      w := t;
      LiteralFits(t);
    case Class(cs) =>
      var c := ClassMinAttained(cs);
      w := [c];
      ClassFits(cs, c);
      OneCharLen(c);
    case Cat(a, b) =>
      var u := Shortest(a);
      var v := Shortest(b);
      w := u + v;
      CatFits(a, b, u, v);
      ByteLenAppend(u, v);
    case Alt(a, b) =>
      if MinLen(b).None? || (MinLen(a).Some? && MinLen(a).value <= MinLen(b).value) { w := Shortest(a); } else { w := Shortest(b); }
      AltFits(a, b, w);
    case Rep(x, lo, extra, greedy) =>
      if lo == 0 {
        w := "";
        NoneFits(r);
      } else {
        var rest := Rep(x, lo - 1, extra, greedy);
        var u := Shortest(x);
        var v := Shortest(rest);
        w := u + v;
        OneMoreFits(r, rest, u, v);
        ByteLenAppend(u, v);
        MulStep(lo, MinLen(x).value);
      }
  }

  /** So is the maximum length, where there is one. */
  lemma {:induction false} Longest(r: Regex) returns (w: string)
    requires LookFree(r) && IsWellFormed(r) && MaxLen(r).Some?
    ensures Fits(r, w) && ByteLen(w) == MaxLen(r).value
    decreases Size(r), Copies(r)
  {
    match r
    case Empty =>
      w := "";
      forall p, q ensures FitsBetween(r, p, "", q) { }
    case Literal(t) =>
      w := t;
      LiteralFits(t);
    case Class(cs) =>
      var c := ClassMaxAttained(cs);
      w := [c];
      ClassFits(cs, c);
      OneCharLen(c);
    case Cat(a, b) =>
      var u := Longest(a);
      var v := Longest(b);
      w := u + v;
      CatFits(a, b, u, v);
      ByteLenAppend(u, v);
    case Alt(a, b) =>
      if MaxLen(a).value >= MaxLen(b).value { w := Longest(a); } else { w := Longest(b); }
      AltFits(a, b, w);
    case Rep(x, lo, extra, greedy) =>
      if lo == 0 && extra.value == 0 {
        w := "";
        NoneFits(r);
      } else {
        var rest := if lo > 0 then r.(lo := lo - 1) else r.(extra := Some(extra.value - 1));
        var u := Longest(x);
        var v := Longest(rest);
        w := u + v;
        OneMoreFits(r, rest, u, v);
        ByteLenAppend(u, v);
        MulStep(lo + extra.value, MaxLen(x).value);
      }
  }

  // --------------------------------------------------------------- the growth check

  /** Replacing a text that is itself a shortest match leaves just the replacement. */
  lemma ReplacedWhole(r: Regex, rep: Replacement, w: string)
    requires |w| in Ends(r, w, 0) && MinLen(r) == Some(ByteLen(w)) && '$' !in Source(rep)
    ensures ReplaceAll(r, rep, w) == Source(rep)
  {
    var e := Ends(r, w, 0)[0];
    MinLenBounds(r, w, 0, e);
    NothingLeft(w, e);
    NoDollarExpands(rep, w[0..e]);
    assert ReplaceFrom(r, rep, w, |w|, true) == "";
    assert Source(rep) + "" == Source(rep);
  }

  lemma NothingLeft(w: string, e: nat)
    requires e <= |w| && ByteLen(w) <= ByteLen(w[0..e])
    ensures e == |w|
  {
    assert w[0..e] + w[e..] == w;
    ByteLenAppend(w[0..e], w[e..]);
    ByteLenZero(w[e..]);
  }

  /** Look-free, or look-free after a leading `^`. */
  predicate IsPlain(r: Regex) {
    LookFree(r) || (r.Cat? && r.head.Start? && LookFree(r.tail))
  }

  lemma ShortestText(r: Regex) returns (w: string)
    requires IsPlain(r) && IsWellFormed(r) && MinLen(r).Some?
    ensures |w| in Ends(r, w, 0) && ByteLen(w) == MinLen(r).value
  {
    if LookFree(r) {
      w := Shortest(r);
      assert FitsBetween(r, "", w, "") && "" + w + "" == w;
    } else {
      w := Shortest(r.tail);
      assert FitsBetween(r.tail, "", w, "") && "" + w + "" == w;
      BindHas(r.tail, w, 0, Ends(r.head, w, 0), 0, |w|);
    }
  }

  /** The check admits exactly the replacements without a dollar sign that lengthen no text. */
  lemma NonGrowingExactlyWhen(r: Regex, rep: Replacement)
    requires IsPlain(r) && IsWellFormed(r) && '$' !in Source(rep)
    ensures IsNonGrowing(r, rep) <==> forall s :: ByteLen(ReplaceAll(r, rep, s)) <= ByteLen(s)
  {
    if IsNonGrowing(r, rep) {
      forall s ensures ByteLen(ReplaceAll(r, rep, s)) <= ByteLen(s) { NonGrowing(r, rep, s); }
    } else {
      var w := ShortestText(r);
      ReplacedWhole(r, rep, w);
      assert ByteLen(ReplaceAll(r, rep, w)) > ByteLen(w);
    }
  }
}
