/** How a replacement depends on the match it replaces: whether a longer match would have
    come to the same text. */
module Templates {
  import opened Text
  import opened Replace

  /** How often a template inserts the match. */
  function Wholes(rep: Replacement): nat {
    if rep == [] then 0 else (if rep[0].Whole? then 1 else 0) + Wholes(rep[1..])
  }

  /** What a template puts before the first insertion of the match, and after it. */
  function Lead(rep: Replacement): string {
    if rep == [] || rep[0].Whole? then "" else rep[0].text + Lead(rep[1..])
  }

  function Trail(rep: Replacement): string {
    if rep == [] then "" else if rep[0].Whole? then Expand(rep[1..], "") else Trail(rep[1..])
  }

  // ------------------------------------------ two matches of one text, replaced

  lemma {:induction false} NoDollarNoWhole(rep: Replacement)
    requires '$' !in Source(rep)
    ensures Wholes(rep) == 0
  {
    if rep != [] {
      assert "$0"[0] == '$';
      NoDollarSplit(if rep[0].Whole? then "$0" else DoubleDollars(rep[0].text), Source(rep[1..]));
      NoDollarNoWhole(rep[1..]);
    }
  }

  /** Without insertions a template is a fixed text. */
  lemma {:induction false} FixedExpands(rep: Replacement, m: string)
    requires Wholes(rep) == 0
    ensures Expand(rep, m) == Expand(rep, "")
  {
    if rep != [] { FixedExpands(rep[1..], m); }
  }

  lemma {:induction false} OneWholeExpands(rep: Replacement, m: string)
    requires Wholes(rep) == 1
    ensures Expand(rep, m) == Lead(rep) + m + Trail(rep)
  {
    if rep[0].Whole? {
      FixedExpands(rep[1..], m);
      assert "" + m == m;
    } else {
      OneWholeExpands(rep[1..], m);
      Associates(rep[0].text, Lead(rep[1..]) + m, Trail(rep));
      Associates(rep[0].text, Lead(rep[1..]), m);
    }
  }

  /** A longer match lengthens the expansion as often as it is inserted. */
  lemma {:induction false} ExpansionGrows(rep: Replacement, m: string, longer: string)
    requires |m| <= |longer|
    ensures var (d, g) := (|longer| - |m|, |Expand(rep, longer)| - |Expand(rep, m)|);
            && (Wholes(rep) == 0 ==> g == 0)
            && (Wholes(rep) == 1 ==> g == d)
            && (Wholes(rep) >= 2 ==> g >= 2 * d)
  {
    if rep != [] { ExpansionGrows(rep[1..], m, longer); }
  }

  /** A text with its first `e` characters replaced. */
  function ReplacedUpTo(rep: Replacement, w: string, e: nat): string
    requires e <= |w|
  {
    Expand(rep, w[..e]) + w[e..]
  }

  /** Replacing a shorter or a longer beginning of a text comes to the same exactly when the
      template inserts the match once and what it puts after it commutes with the rest of
      the longer one. */
  lemma ReplacedAlikeExactlyWhen(rep: Replacement, w: string, e: nat, f: nat)
    requires e < f <= |w|
    ensures ReplacedUpTo(rep, w, e) == ReplacedUpTo(rep, w, f) <==>
            Wholes(rep) == 1 && Trail(rep) + w[e..f] == w[e..f] + Trail(rep)
  {
    if Wholes(rep) == 1 {
      InsertedOnce(rep, w, w[..e], w[e..f], w[f..]);
    } else {
      ExpansionGrows(rep, w[..e], w[..f]);
      assert |ReplacedUpTo(rep, w, e)| != |ReplacedUpTo(rep, w, f)|;
    }
  }

  lemma InsertedOnce(rep: Replacement, w: string, x: string, u: string, y: string)
    requires w == x + u + y && Wholes(rep) == 1
    ensures ReplacedUpTo(rep, w, |x|) == ReplacedUpTo(rep, w, |x| + |u|) <==> Trail(rep) + u == u + Trail(rep)
  {
    var p, q := Lead(rep), Trail(rep);
    assert w[..|x|] == x && w[..|x| + |u|] == x + u && w[|x|..] == u + y && w[|x| + |u|..] == y;
    OneWholeExpands(rep, x);
    OneWholeExpands(rep, x + u);
    assert p + x + q + (u + y) == (p + x) + (q + u) + y;
    assert p + (x + u) + q + y == (p + x) + (u + q) + y;
    MiddleDecides(p + x, q + u, u + q, y);
  }

  lemma MiddleDecides(a: string, b: string, c: string, d: string)
    requires |b| == |c|
    ensures a + b + d == a + c + d <==> b == c
  {
    if a + b + d == a + c + d {
      assert b == (a + b + d)[|a|..|a| + |b|];
      assert c == (a + c + d)[|a|..|a| + |c|];
    }
  }
}
