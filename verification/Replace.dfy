/** Searching and whole-text replacement, and the rule that keeps replacement from
    lengthening a text. */
module Replace {
  import opened Text
  import opened Regex
  import opened RegexLaws

  /** A replacement template: literal text and references to the whole match (`$0`). */
  datatype Piece = Lit(text: string) | Whole
  type Replacement = seq<Piece>

  function Expand(rep: Replacement, matched: string): string {
    if rep == [] then ""
    else (if rep[0].Whole? then matched else rep[0].text) + Expand(rep[1..], matched)
  }

  /** The template as it is written: `$0` for the match, `$$` for a dollar sign. */
  function Source(rep: Replacement): string {
    if rep == [] then ""
    else (if rep[0].Whole? then "$0" else DoubleDollars(rep[0].text)) + Source(rep[1..])
  }

  function DoubleDollars(t: string): string {
    if t == "" then "" else (if t[0] == '$' then "$$" else [t[0]]) + DoubleDollars(t[1..])
  }

  /** `Regex::find`: the leftmost match, from position `i` on. */
  function FindFrom(r: Regex, s: string, i: nat): (m: Option<(nat, nat)>)
    requires i <= |s|
    ensures m.Some? ==> i <= m.value.0 <= m.value.1 <= |s|
    decreases |s| - i
  {
    if Ends(r, s, i) != [] then Some((i, Ends(r, s, i)[0]))
    else if i == |s| then None
    else FindFrom(r, s, i + 1)
  }

  /** `Regex::replace`: the first match only. */
  function ReplaceFirst(r: Regex, rep: Replacement, s: string): string {
    match FindFrom(r, s, 0)
    case None => s
    case Some(m) => s[..m.0] + Expand(rep, s[m.0..m.1]) + s[m.1..]
  }

  /** `Regex::replace_all` from position `i`: leftmost, non-overlapping matches. After a
      match, `matched`, an empty match at the same place does not count. */
  function ReplaceFrom(r: Regex, rep: Replacement, s: string, i: nat, matched: bool): string
    requires i <= |s|
    decreases |s| - i, !matched
  {
    var es := Ends(r, s, i);
    if es != [] && !(matched && es[0] == i) then
      Expand(rep, s[i..es[0]]) + ReplaceFrom(r, rep, s, es[0], true)
    else if i == |s| then ""
    else [s[i]] + ReplaceFrom(r, rep, s, i + 1, false)
  }

  function ReplaceAll(r: Regex, rep: Replacement, s: string): string {
    ReplaceFrom(r, rep, s, 0, false)
  }

  // --------------------------------------------------------- anchored rules

  /** The end of the match a `^`-anchored pattern finds in `s`. */
  function HeadEnd(r: Regex, s: string): (e: Option<nat>)
    ensures e.Some? ==> e.value <= |s|
  {
    var es := Ends(r, s, 0);
    if es == [] then None else Some(es[0])
  }

  lemma {:induction false} NoMatchKeeps(r: Regex, rep: Replacement, s: string, i: nat, matched: bool)
    requires i <= |s|
    requires forall j :: i <= j <= |s| && (j == i ==> !matched) ==> Ends(r, s, j) == []
    requires matched ==> Ends(r, s, i) == [] || Ends(r, s, i)[0] == i
    ensures ReplaceFrom(r, rep, s, i, matched) == s[i..]
    decreases |s| - i
  {
    if i < |s| { NoMatchKeeps(r, rep, s, i + 1, false); }
  }

  lemma {:induction false} FindsAnchored(r: Regex, s: string, i: nat)
    requires BeginsWithStart(r) && 0 < i <= |s|
    ensures FindFrom(r, s, i) == None
    decreases |s| - i
  {
    AnchoredOnlyAtStart(r, s, i);
    if i < |s| { FindsAnchored(r, s, i + 1); }
  }

  /** For an anchored rule, search and replacement are decided at position 0. */
  lemma AnchoredReplace(r: Regex, rep: Replacement, s: string)
    requires BeginsWithStart(r)
    ensures FindFrom(r, s, 0) == (if HeadEnd(r, s).None? then None else Some((0, HeadEnd(r, s).value)))
    ensures ReplaceAll(r, rep, s) == match HeadEnd(r, s) {
                                       case None => s
                                       case Some(e) => Expand(rep, s[..e]) + s[e..]
                                     }
  {
    forall j | 0 < j <= |s| ensures Ends(r, s, j) == [] { AnchoredOnlyAtStart(r, s, j); }
    if Ends(r, s, 0) == [] {
      if |s| > 0 { FindsAnchored(r, s, 1); }
      NoMatchKeeps(r, rep, s, 0, false);
    } else {
      NoMatchKeeps(r, rep, s, Ends(r, s, 0)[0], true);
    }
  }

  // ------------------------------------------------------------ non-growing

  /** `replacement_is_non_growing`, on a pattern that parses. */
  predicate IsNonGrowing(r: Regex, rep: Replacement) {
    '$' !in Source(rep) &&
    (MinLen(r).None? || ByteLen(Source(rep)) <= MinLen(r).value)
  }

  lemma NoDollarSplit(a: string, b: string)
    requires '$' !in a + b
    ensures '$' !in a && '$' !in b
  {
  }

  lemma {:induction false} NoDollarDoubles(t: string)
    requires '$' !in DoubleDollars(t)
    ensures DoubleDollars(t) == t
  {
    if t != "" {
      assert '$' in "$$";
      NoDollarSplit(if t[0] == '$' then "$$" else [t[0]], DoubleDollars(t[1..]));
      NoDollarDoubles(t[1..]);
    }
  }

  /** Without a dollar sign a template is the text it inserts, whatever it matched. */
  lemma {:induction false} NoDollarExpands(rep: Replacement, matched: string)
    requires '$' !in Source(rep)
    ensures Expand(rep, matched) == Source(rep)
  {
    if rep != [] {
      assert "$0"[0] == '$';
      NoDollarSplit(if rep[0].Whole? then "$0" else DoubleDollars(rep[0].text), Source(rep[1..]));
      NoDollarDoubles(rep[0].text);
      NoDollarExpands(rep[1..], matched);
    }
  }

  lemma MatchShrinks(r: Regex, rep: Replacement, s: string, i: nat, e: nat)
    requires i <= |s| && e in Ends(r, s, i) && IsNonGrowing(r, rep)
    ensures ByteLen(Expand(rep, s[i..e])) <= ByteLen(s[i..e])
  {
    MinLenBounds(r, s, i, e);
    NoDollarExpands(rep, s[i..e]);
  }

  lemma {:induction false} NonGrowingFrom(r: Regex, rep: Replacement, s: string, i: nat, matched: bool)
    requires i <= |s| && IsNonGrowing(r, rep)
    ensures ByteLen(ReplaceFrom(r, rep, s, i, matched)) <= ByteLen(s[i..])
    decreases |s| - i, !matched
  {
    var es := Ends(r, s, i);
    if es != [] && !(matched && es[0] == i) {
      var e := es[0];
      MatchShrinks(r, rep, s, i, e);
      NonGrowingFrom(r, rep, s, e, true);
      NoLonger(s, i, e, Expand(rep, s[i..e]), ReplaceFrom(r, rep, s, e, true));
    } else if i < |s| {
      NonGrowingFrom(r, rep, s, i + 1, false);
      assert s[i..i + 1] == [s[i]];
      NoLonger(s, i, i + 1, [s[i]], ReplaceFrom(r, rep, s, i + 1, false));
    }
  }

  lemma NoLonger(s: string, i: nat, e: nat, a: string, b: string)
    requires i <= e <= |s| && ByteLen(a) <= ByteLen(s[i..e]) && ByteLen(b) <= ByteLen(s[e..])
    ensures ByteLen(a + b) <= ByteLen(s[i..])
  {
    ByteLenAppend(a, b);
    ByteLenAppend(s[i..e], s[e..]);
    assert s[i..] == s[i..e] + s[e..];
  }

  /** A rule that passes the check never lengthens a text. */
  lemma NonGrowing(r: Regex, rep: Replacement, s: string)
    requires IsNonGrowing(r, rep)
    ensures ByteLen(ReplaceAll(r, rep, s)) <= ByteLen(s)
  {
    NonGrowingFrom(r, rep, s, 0, false);
    assert s[0..] == s;
  }
}
