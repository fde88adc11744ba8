/** Whole-text replacement by its list of matches: which matches are replaced, and that the text
    between them stays. */
module Matches {
  import opened Text
  import opened Regex
  import opened Replace

  type Span = (nat, nat)

  /** No match counts at `j` when the search goes on from `from`: there is none, or an empty one
      right where the match before ended. */
  predicate IsPassedOver(r: Regex, s: string, from: nat, matched: bool, j: nat)
    requires j <= |s|
  {
    Ends(r, s, j) == [] || (matched && j == from && Ends(r, s, j)[0] == j)
  }

  /** The preferred match at the first place where one counts. */
  predicate IsNext(r: Regex, s: string, from: nat, matched: bool, m: Span) {
    && from <= m.0 <= m.1 <= |s|
    && Ends(r, s, m.0) != [] && Ends(r, s, m.0)[0] == m.1 && !IsPassedOver(r, s, from, matched, m.0)
    && forall j :: from <= j < m.0 ==> IsPassedOver(r, s, from, matched, j)
  }

  /** All matches from `from` on: each the first after the end of the one before. */
  predicate AreAllMatches(r: Regex, s: string, from: nat, matched: bool, ms: seq<Span>)
    requires from <= |s|
    decreases |ms|
  {
    if ms == [] then forall j :: from <= j <= |s| ==> IsPassedOver(r, s, from, matched, j)
    else IsNext(r, s, from, matched, ms[0]) && AreAllMatches(r, s, ms[0].1, true, ms[1..])
  }

  predicate AreInside(s: string, from: nat, ms: seq<Span>)
    decreases |ms|
  {
    ms == [] || (from <= ms[0].0 <= ms[0].1 <= |s| && AreInside(s, ms[0].1, ms[1..]))
  }

  /** The text with each match replaced and everything between kept. */
  function Stitched(rep: Replacement, s: string, from: nat, ms: seq<Span>): string
    requires from <= |s| && AreInside(s, from, ms)
    decreases |ms|
  {
    if ms == [] then s[from..]
    else s[from..ms[0].0] + Expand(rep, s[ms[0].0..ms[0].1]) + Stitched(rep, s, ms[0].1, ms[1..])
  }

  /** From the place one further on, nothing was passed over but this one. */
  lemma OneFurther(r: Regex, s: string, i: nat, matched: bool, ms: seq<Span>)
    requires i < |s| && IsPassedOver(r, s, i, matched, i) && AreAllMatches(r, s, i + 1, false, ms)
    ensures AreAllMatches(r, s, i, matched, ms)
  {
    assert forall j :: i < j <= |s| ==> (IsPassedOver(r, s, i, matched, j) <==> IsPassedOver(r, s, i + 1, false, j));
  }

  lemma {:induction false} MatchesInside(r: Regex, s: string, from: nat, matched: bool, ms: seq<Span>)
    requires from <= |s| && AreAllMatches(r, s, from, matched, ms)
    ensures AreInside(s, from, ms)
    decreases |ms|
  {
    if ms != [] { MatchesInside(r, s, ms[0].1, true, ms[1..]); }
  }

  lemma MatchHere(r: Regex, rep: Replacement, s: string, i: nat, matched: bool, e: nat, rest: seq<Span>)
    requires i <= e <= |s| && !IsPassedOver(r, s, i, matched, i) && Ends(r, s, i)[0] == e
    requires AreAllMatches(r, s, e, true, rest) && AreInside(s, e, rest)
    ensures var ms := [(i, e)] + rest;
            && AreAllMatches(r, s, i, matched, ms) && AreInside(s, i, ms)
            && Stitched(rep, s, i, ms) == Expand(rep, s[i..e]) + Stitched(rep, s, e, rest)
  {
    var ms := [(i, e)] + rest;
    assert ms[1..] == rest && ms[0] == (i, e);
    assert s[i..i] + Expand(rep, s[i..e]) == Expand(rep, s[i..e]);
  }

  lemma {:induction false} ReplaceFromStitches(r: Regex, rep: Replacement, s: string, i: nat, matched: bool)
    returns (ms: seq<Span>)
    requires i <= |s|
    ensures AreAllMatches(r, s, i, matched, ms) && AreInside(s, i, ms)
    ensures ReplaceFrom(r, rep, s, i, matched) == Stitched(rep, s, i, ms)
    decreases |s| - i, !matched
  {
    if !IsPassedOver(r, s, i, matched, i) {
      var e := Ends(r, s, i)[0];
      var rest := ReplaceFromStitches(r, rep, s, e, true);
      ms := [(i, e)] + rest;
      MatchHere(r, rep, s, i, matched, e, rest);
    } else if i == |s| {
      ms := [];
    } else {
      ms := ReplaceFromStitches(r, rep, s, i + 1, false);
      OneFurther(r, s, i, matched, ms);
      MatchesInside(r, s, i, matched, ms);
      StitchedFurther(rep, s, i, ms);
    }
  }

  lemma StitchedFurther(rep: Replacement, s: string, i: nat, ms: seq<Span>)
    requires i < |s| && AreInside(s, i + 1, ms) && AreInside(s, i, ms)
    ensures [s[i]] + Stitched(rep, s, i + 1, ms) == Stitched(rep, s, i, ms)
  {
    if ms == [] {
      assert [s[i]] + s[i + 1..] == s[i..];
    } else {
      var m, rest := ms[0], Stitched(rep, s, ms[0].1, ms[1..]);
      assert [s[i]] + s[i + 1..m.0] == s[i..m.0];
      Associates([s[i]], s[i + 1..m.0] + Expand(rep, s[m.0..m.1]), rest);
      Associates([s[i]], s[i + 1..m.0], Expand(rep, s[m.0..m.1]));
    }
  }

  lemma NextIsOne(r: Regex, s: string, from: nat, matched: bool, m: Span, n: Span)
    requires IsNext(r, s, from, matched, m) && IsNext(r, s, from, matched, n)
    ensures m == n
  {
  }

  lemma {:induction false} MatchesAreOne(r: Regex, s: string, from: nat, matched: bool, ms: seq<Span>, ns: seq<Span>)
    requires from <= |s| && AreAllMatches(r, s, from, matched, ms) && AreAllMatches(r, s, from, matched, ns)
    ensures ms == ns
    decreases |ms|
  {
    if ms != [] && ns != [] {
      NextIsOne(r, s, from, matched, ms[0], ns[0]);
      MatchesAreOne(r, s, ms[0].1, true, ms[1..], ns[1..]);
    }
  }

  /** `replace_all`: the text between the matches, and each match replaced. The matches are the
      only list in which each is the preferred match at the first place, from the end of the one
      before, where one counts; an empty match right at that end does not count. */
  lemma ReplaceAllStitches(r: Regex, rep: Replacement, s: string) returns (ms: seq<Span>)
    ensures AreAllMatches(r, s, 0, false, ms) && forall ns :: AreAllMatches(r, s, 0, false, ns) ==> ns == ms
    ensures AreInside(s, 0, ms) && ReplaceAll(r, rep, s) == Stitched(rep, s, 0, ms)
  {
    ms := ReplaceFromStitches(r, rep, s, 0, false);
    forall ns | AreAllMatches(r, s, 0, false, ns) ensures ns == ms { MatchesAreOne(r, s, 0, false, ns, ms); }
  }
}
