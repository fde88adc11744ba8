/** When the early decisions of a `^`-anchored rule are final. */
module HeadLaws {
  import opened Text
  import opened Regex
  import opened RegexLaws
  import opened Replace
  import opened Templates
  import opened Scrubber

  /** A match that ends strictly inside a text is still the match when the text goes on. */
  ghost predicate Stable(r: Regex) {
    forall s, w :: IsStableAt(r, s, w)
  }

  predicate IsStableAt(r: Regex, s: string, w: string) {
    s <= w && HeadEnd(r, s).Some? && HeadEnd(r, s).value < |s| ==> HeadEnd(r, w) == HeadEnd(r, s)
  }

  /** A text longer than the decision bound that does not match never will. */
  ghost predicate BoundFinal(r: Regex) {
    forall s, w :: IsBoundFinalAt(r, s, w)
  }

  predicate IsBoundFinalAt(r: Regex, s: string, w: string) {
    s <= w && HeadEnd(r, s).None? && DecisionBound(r).Some? && ByteLen(s) > DecisionBound(r).value
    ==> HeadEnd(r, w).None?
  }

  /** Replacing the match found in `s` is right for `w` too: `w` has the same match, or a
      longer one which the template, inserting the match once, turns into the same text. */
  predicate IsCommitFinalAt(r: Regex, rep: Replacement, s: string, w: string) {
    s <= w && HeadEnd(r, s).Some? && HeadEnd(r, s).value < |s| ==>
      HeadEnd(r, w) == HeadEnd(r, s) || IsHiddenBy(rep, w, HeadEnd(r, s).value, HeadEnd(r, w))
  }

  predicate IsHiddenBy(rep: Replacement, w: string, e: nat, f: Option<nat>) {
    f.Some? && e < f.value <= |w| && Wholes(rep) == 1 && Trail(rep) + w[e..f.value] == w[e..f.value] + Trail(rep)
  }

  /** Giving up on `s` is right for `w` too: `w` has no match, or one that the template
      replaces by itself. */
  predicate IsGiveUpFinalAt(r: Regex, rep: Replacement, s: string, w: string) {
    s <= w && HeadEnd(r, s).None? && DecisionBound(r).Some? && ByteLen(s) > DecisionBound(r).value ==>
      HeadEnd(r, w).None? || Expand(rep, w[..HeadEnd(r, w).value]) == w[..HeadEnd(r, w).value]
  }

  /** Each trailing element that the bound leaves out matches empty after the start of the
      text too (or nothing is left in). */
  predicate TailMatchesEmpty(r: Regex) {
    r.Cat? ==>
      var ps := Parts(r);
      var n := |Core(ps)|;
      n == 0 || forall k :: n <= k < |ps| ==> MatchesEmpty(ps[k])
  }

  // --------------------------------------------- lists of concatenated parts

  lemma {:induction false} ConcatParts(r: Regex)
    requires r.Cat?
    ensures Concat(Parts(r)) == r && (HasEnd(r) <==> exists k :: 0 <= k < |Parts(r)| && HasEnd(Parts(r)[k]))
    decreases Size(r)
  {
    var ps, qs := Parts(r), Parts(r.tail);
    assert ps == [r.head] + qs && ps[1..] == qs;
    if r.tail.Cat? { ConcatParts(r.tail); }
    assert forall k :: 0 <= k < |qs| ==> ps[k + 1] == qs[k];
    if exists k :: 0 <= k < |ps| && HasEnd(ps[k]) {
      var k :| 0 <= k < |ps| && HasEnd(ps[k]);
      if k > 0 { assert HasEnd(qs[k - 1]); }
    }
    if HasEnd(r.head) { assert HasEnd(ps[0]); }
    if r.tail.Cat? && HasEnd(r.tail) {
      var k :| 0 <= k < |qs| && HasEnd(qs[k]);
      assert HasEnd(ps[k + 1]);
    }
    if !r.tail.Cat? && HasEnd(r.tail) { assert HasEnd(ps[1]); }
  }

  predicate EndFree(ps: seq<Regex>) {
    forall k :: 0 <= k < |ps| ==> !HasEnd(ps[k])
  }

  lemma {:induction false} ConcatEndFree(ps: seq<Regex>)
    requires EndFree(ps)
    ensures !HasEnd(Concat(ps))
  {
    if |ps| > 1 { ConcatEndFree(ps[1..]); }
  }

  /** Matching a concatenation is matching all but the last element, then the last. */
  lemma {:induction false} SnocSplits(ps: seq<Regex>, s: string, i: nat, e: nat) returns (m: nat)
    requires |ps| > 0 && i <= |s| && e in Ends(Concat(ps), s, i)
    ensures i <= m <= |s| && m in Ends(Concat(ps[..|ps| - 1]), s, i) && e in Ends(ps[|ps| - 1], s, m)
    decreases |ps|
  {
    var front, last := ps[..|ps| - 1], ps[|ps| - 1];
    if |ps| == 1 {
      m := i;
    } else {
      var k := BindFrom(Concat(ps[1..]), s, i, Ends(ps[0], s, i), e);
      m := SnocSplits(ps[1..], s, k, e);
      assert ps[1..][..|ps| - 2] == front[1..];
      if |ps| == 2 {
        assert front == [ps[0]];
      } else {
        BindHas(Concat(front[1..]), s, i, Ends(ps[0], s, i), k, m);
      }
    }
  }

  lemma {:induction false} SnocJoins(ps: seq<Regex>, s: string, i: nat, m: nat, e: nat)
    requires |ps| > 0 && i <= m <= |s|
    requires m in Ends(Concat(ps[..|ps| - 1]), s, i) && e in Ends(ps[|ps| - 1], s, m)
    ensures e in Ends(Concat(ps), s, i)
    decreases |ps|
  {
    var front := ps[..|ps| - 1];
    if |ps| == 2 {
      assert front == [ps[0]] && Concat(ps) == Cat(ps[0], ps[1]);
      BindHas(ps[1], s, i, Ends(ps[0], s, i), m, e);
    } else if |ps| > 2 {
      assert ps[1..][..|ps| - 2] == front[1..];
      var k := BindFrom(Concat(front[1..]), s, i, Ends(ps[0], s, i), m);
      SnocJoins(ps[1..], s, k, m, e);
      BindHas(Concat(ps[1..]), s, i, Ends(ps[0], s, i), k, e);
    }
  }

  /** A match of the whole passes a match of the core. */
  lemma {:induction false} CoreMatches(ps: seq<Regex>, s: string, e: nat) returns (m: nat)
    requires e in Ends(Concat(ps), s, 0)
    ensures m in Ends(Concat(Core(ps)), s, 0)
    decreases |ps|
  {
    m := e;
    if Core(ps) != ps {
      var k := SnocSplits(ps, s, 0, e);
      m := CoreMatches(ps[..|ps| - 1], s, k);
    }
  }

  /** A match of the core is a match of the whole, the rest matching empty. */
  lemma {:induction false} CoreSuffices(ps: seq<Regex>, s: string, m: nat)
    requires m in Ends(Concat(Core(ps)), s, 0) && EndFree(ps)
    requires |Core(ps)| == 0 || forall k :: |Core(ps)| <= k < |ps| ==> MatchesEmpty(ps[k])
    ensures m in Ends(Concat(ps), s, 0)
    decreases |ps|
  {
    if Core(ps) != ps {
      var front := ps[..|ps| - 1];
      assert Core(ps) == Core(front);
      CoreSuffices(front, s, m);
      if m == 0 { NullableMatchesEmpty(ps[|ps| - 1], s, m); } else { MatchesEmptyExactly(ps[|ps| - 1], s, m); }
      SnocJoins(ps, s, 0, m, m);
    }
  }

  lemma LongerInBytes(s: string, w: string, e: nat)
    requires s <= w && e <= |w| && ByteLen(w[..e]) < ByteLen(s)
    ensures e <= |s|
  {
    if e > |s| {
      assert w[..e] == s + w[|s|..e];
      ByteLenAppend(s, w[|s|..e]);
    }
  }

  /** An end within a prefix is found in the prefix. */
  lemma LocalEnd(r: Regex, s: string, w: string, e: nat)
    requires s <= w && !HasEnd(r) && e in Ends(r, w, 0) && e <= |s|
    ensures e in Ends(r, s, 0)
  {
    Locality(r, s, w, 0);
    UpToHas(Ends(r, w, 0), e, |s|);
  }

  lemma {:induction false} UpToHas(es: seq<nat>, e: nat, n: nat)
    requires e in es && e <= n
    ensures e in UpTo(es, n)
  {
    if es[0] != e { UpToHas(es[1..], e, n); }
  }

  lemma {:induction false} UpToOnly(es: seq<nat>, e: nat, n: nat)
    requires e in UpTo(es, n)
    ensures e in es && e <= n
  {
    if es[0] != e { UpToOnly(es[1..], e, n); }
  }

  /** The decision bound decides, for every anchored pattern whose part left out matches
      empty. */
  lemma BoundDecides(r: Regex, s: string, w: string)
    requires !HasEnd(r) && TailMatchesEmpty(r)
    ensures IsBoundFinalAt(r, s, w)
  {
    var b := DecisionBound(r);
    if s <= w && HeadEnd(r, s).None? && b.Some? && ByteLen(s) > b.value && HeadEnd(r, w).Some? {
      var e := HeadEnd(r, w).value;
      if r.Cat? {
        ConcatParts(r);
        assert EndFree(Parts(r)) && EndFree(Core(Parts(r)));
        ConcatEndFree(Core(Parts(r)));
        var m := CoreMatchesEarly(Parts(r), s, w, e, b.value);
        CoreSuffices(Parts(r), s, m);
      } else {
        MaxLenBounds(r, w, 0, e);
        LongerInBytes(s, w, e);
        LocalEnd(r, s, w, e);
      }
      assert false;
    }
  }

  /** Where the whole matches, its core matches within the bound, so within `s`. */
  lemma CoreMatchesEarly(ps: seq<Regex>, s: string, w: string, e: nat, bound: nat) returns (m: nat)
    requires s <= w && e in Ends(Concat(ps), w, 0) && !HasEnd(Concat(Core(ps)))
    requires MaxLen(Concat(Core(ps))) == Some(bound) && ByteLen(s) > bound
    ensures m in Ends(Concat(Core(ps)), s, 0)
  {
    m := CoreMatches(ps, w, e);
    MaxLenBounds(Concat(Core(ps)), w, 0, m);
    LongerInBytes(s, w, m);
    LocalEnd(Concat(Core(ps)), s, w, m);
  }

  lemma BoundDecidesAll(r: Regex)
    requires !HasEnd(r) && TailMatchesEmpty(r)
    ensures BoundFinal(r)
  {
    forall s, w ensures IsBoundFinalAt(r, s, w) { BoundDecides(r, s, w); }
  }

  /** What an extension can change: a match stays a match, and the new preferred match is
      the old one or reaches beyond the old text. */
  lemma ExtensionAt(r: Regex, s: string, w: string, i: nat)
    requires i <= |s| && s <= w && !HasEnd(r) && Ends(r, s, i) != []
    ensures Ends(r, s, i)[0] in Ends(r, w, i)
    ensures Ends(r, w, i)[0] == Ends(r, s, i)[0] || Ends(r, w, i)[0] > |s|
  {
    Locality(r, s, w, i);
    UpToOnly(Ends(r, w, i), Ends(r, s, i)[0], |s|);
  }

  lemma ExtensionOf(r: Regex, s: string, w: string)
    requires s <= w && !HasEnd(r) && HeadEnd(r, s).Some?
    ensures HeadEnd(r, w).Some?
    ensures HeadEnd(r, w) == HeadEnd(r, s) || HeadEnd(r, w).value > |s|
  {
    ExtensionAt(r, s, w, 0);
  }
}
