/** A decidable check on patterns that makes every early match final. */
module Stability {
  import opened Text
  import opened Regex
  import opened RegexLaws
  import opened Replace
  import opened Scrubber
  import opened HeadLaws
  import opened ScrubberLaws

  // ------------------------------------------------------------- what to check

  predicate Apart(a: CharRange, b: CharRange) {
    a.hi < b.lo || b.hi < a.lo
  }

  predicate Disjoint(a: seq<CharRange>, b: seq<CharRange>) {
    forall j, k :: 0 <= j < |a| && 0 <= k < |b| ==> Apart(a[j], b[k])
  }

  function Single(t: string): (cs: seq<CharRange>)
  {
    if t == "" then [] else [CharRange(t[0], t[0])] + Single(t[1..])
  }

  /** Every character a match may consume. */
  function Chars(r: Regex): seq<CharRange> {
    match r
    case Literal(t) => Single(t)
    case Class(cs) => cs
    case Cat(a, b) => Chars(a) + Chars(b)
    case Alt(a, b) => Chars(a) + Chars(b)
    case Rep(x, _, _, _) => Chars(x)
    case _ => []
  }

  predicate CannotBeEmpty(r: Regex) {
    MinLen(r).None? || MinLen(r).value > 0
  }

  /** Every character a non-empty match may begin with. */
  function Firsts(r: Regex): seq<CharRange> {
    match r
    case Literal(t) => if t == "" then [] else [CharRange(t[0], t[0])]
    case Class(cs) => cs
    case Cat(a, b) => if CannotBeEmpty(a) then Firsts(a) else Firsts(a) + Firsts(b)
    case Alt(a, b) => Firsts(a) + Firsts(b)
    case Rep(x, _, _, _) => Firsts(x)
    case _ => []
  }

  /** The next character tells the two alternatives apart. */
  predicate Distinguished(a: Regex, b: Regex) {
    CannotBeEmpty(a) && CannotBeEmpty(b) && Disjoint(Firsts(a), Firsts(b))
  }

  predicate IsOptionalTail(r: Regex) {
    MinLen(r) == Some(0) && !HasStart(r) && !HasEnd(r)
  }

  /** At most one place to end. */
  predicate IsExact(r: Regex) {
    match r
    case Cat(a, b) =>
      IsExact(b) && (IsExact(a) || (CannotBeEmpty(b) && Disjoint(Chars(a), Firsts(b))))
    case Alt(a, b) => IsExact(a) && IsExact(b) && Distinguished(a, b)
    case Rep(x, _, extra, _) => MaxLen(x) == Some(0) || (IsExact(x) && extra == Some(0))
    case _ => true
  }

  /** The places to end are consecutive, the furthest preferred: exact patterns, greedy
      runs of one character, an exact prefix, a run that an optional tail of other
      characters follows, and alternatives told apart by the next character. */
  predicate IsSteady(r: Regex) {
    IsExact(r) ||
    match r
    case Cat(a, b) =>
      IsSteady(b) && (IsExact(a) || (IsSteady(a) && IsOptionalTail(b) && Disjoint(Chars(a), Firsts(b))))
    case Alt(a, b) => IsSteady(a) && IsSteady(b) && Distinguished(a, b)
    case Rep(x, _, _, greedy) => greedy && IsSingle(x)
    case _ => true
  }

  /** The preferred place to end is there as soon as any is, and stays: exact patterns, lazy
      repetitions of exact ones, and what is made of them. */
  predicate IsFirm(r: Regex) {
    IsExact(r) ||
    match r
    case Cat(a, b) => IsFirm(b) && (IsExact(a) || (IsFirm(a) && IsOptionalTail(b)))
    case Alt(a, b) => IsFirm(a) && IsFirm(b) && Distinguished(a, b)
    case Rep(x, _, _, greedy) => !greedy && IsExact(x)
    case _ => true
  }

  /** Once the preferred place to end lies inside the text, it stays. */
  predicate IsSettled(r: Regex) {
    IsSteady(r) || IsFirm(r) ||
    match r
    case Cat(a, b) => IsSettled(b) && (IsExact(a) || (IsFirm(a) && IsOptionalTail(b)))
    case Alt(a, b) => IsSettled(a) && IsSettled(b) && Distinguished(a, b)
    case _ => false
  }

  // --------------------------------------------------------- what it guarantees

  lemma {:induction false} InSingle(t: string, k: nat)
    requires k < |t|
    ensures Has(Single(t), t[k])
  {
    var cs := Single(t);
    assert cs[0] == CharRange(t[0], t[0]);
    if k > 0 {
      InSingle(t[1..], k - 1);
      var j :| 0 <= j < |Single(t[1..])| && Single(t[1..])[j].lo <= t[k] <= Single(t[1..])[j].hi;
      assert cs[j + 1] == Single(t[1..])[j];
    }
  }

  lemma HasEither(a: seq<CharRange>, b: seq<CharRange>, c: char)
    ensures Has(a + b, c) <==> Has(a, c) || Has(b, c)
  {
    if Has(a, c) {
      var k :| 0 <= k < |a| && a[k].lo <= c <= a[k].hi;
      assert (a + b)[k] == a[k];
    }
    if Has(b, c) {
      var k :| 0 <= k < |b| && b[k].lo <= c <= b[k].hi;
      assert (a + b)[|a| + k] == b[k];
    }
  }

  lemma NotBoth(a: seq<CharRange>, b: seq<CharRange>, c: char)
    requires Disjoint(a, b)
    ensures !(Has(a, c) && Has(b, c))
  {
    if Has(a, c) {
      var j :| 0 <= j < |a| && a[j].lo <= c <= a[j].hi;
      assert forall k :: 0 <= k < |b| ==> Apart(a[j], b[k]);
    }
  }

  lemma {:induction false} ConsumesChars(r: Regex, s: string, i: nat, e: nat, j: nat)
    requires i <= j < e <= |s| && e in Ends(r, s, i)
    ensures Has(Chars(r), s[j])
    decreases Size(r), Copies(r), |s| - i
  {
    match r
    case Literal(t) => assert s[i..][..|t|][j - i] == s[j]; InSingle(t, j - i);
    case Class(cs) =>
    case Cat(a, b) =>
      var m := BindFrom(b, s, i, Ends(a, s, i), e);
      HasEither(Chars(a), Chars(b), s[j]);
      if j < m { ConsumesChars(a, s, i, m, j); } else { ConsumesChars(b, s, m, e, j); }
    case Alt(a, b) =>
      HasEither(Chars(a), Chars(b), s[j]);
      if e in Ends(a, s, i) { ConsumesChars(a, s, i, e, j); } else { ConsumesChars(b, s, i, e, j); }
    case Rep(x, _, _, _) =>
      var stop, m, rest := RepStep(r, s, i, e);
      if !stop {
        if j < m { ConsumesChars(x, s, i, m, j); } else { ConsumesChars(rest, s, m, e, j); }
      }
  }

  lemma NonEmptyEnds(r: Regex, s: string, i: nat, e: nat)
    requires i <= |s| && e in Ends(r, s, i) && CannotBeEmpty(r)
    ensures i < e
  {
    MinLenBounds(r, s, i, e);
    ByteLenZero(s[i..e]);
  }

  lemma {:induction false} BeginsWithFirst(r: Regex, s: string, i: nat, e: nat)
    requires i < e <= |s| && e in Ends(r, s, i)
    ensures Has(Firsts(r), s[i])
    decreases Size(r), Copies(r), |s| - i
  {
    match r
    case Literal(t) => assert s[i..][..|t|][0] == s[i]; assert Firsts(r)[0].lo == s[i];
    case Class(cs) =>
    case Cat(a, b) =>
      var m := BindFrom(b, s, i, Ends(a, s, i), e);
      HasEither(Firsts(a), Firsts(b), s[i]);
      if CannotBeEmpty(a) { NonEmptyEnds(a, s, i, m); }
      if i < m { BeginsWithFirst(a, s, i, m); } else { BeginsWithFirst(b, s, m, e); }
    case Alt(a, b) =>
      HasEither(Firsts(a), Firsts(b), s[i]);
      if e in Ends(a, s, i) { BeginsWithFirst(a, s, i, e); } else { BeginsWithFirst(b, s, i, e); }
    case Rep(x, _, _, _) =>
      var stop, m, rest := RepStep(r, s, i, e);
      if i < m { BeginsWithFirst(x, s, i, m); } else { BeginsWithFirst(rest, s, m, e); }
  }

  /** At most one of two distinguished alternatives matches at a position. */
  lemma OnlyOne(a: Regex, b: Regex, s: string, i: nat)
    requires i <= |s| && Distinguished(a, b)
    ensures Ends(a, s, i) == [] || Ends(b, s, i) == []
  {
    if Ends(a, s, i) != [] && Ends(b, s, i) != [] {
      var e, f := Ends(a, s, i)[0], Ends(b, s, i)[0];
      NonEmptyEnds(a, s, i, e);
      NonEmptyEnds(b, s, i, f);
      BeginsWithFirst(a, s, i, e);
      BeginsWithFirst(b, s, i, f);
      NotBoth(Firsts(a), Firsts(b), s[i]);
      assert false;
    }
  }

  /** An end of `a` that falls short of another is followed by one of `a`'s own characters. */
  lemma BlockedShort(a: Regex, b: Regex, s: string, i: nat, m: nat, k: nat, e: nat)
    requires i <= |s| && m in Ends(a, s, i) && k in Ends(a, s, i) && m < k
    requires Disjoint(Chars(a), Firsts(b)) && e in Ends(b, s, m)
    ensures e == m
  {
    ConsumesChars(a, s, i, k, m);
    if m < e {
      BeginsWithFirst(b, s, m, e);
      NotBoth(Chars(a), Firsts(b), s[m]);
      assert false;
    }
  }

  /** However often it is repeated, what matches nothing but the empty text stays in place. */
  lemma {:induction false} WidthlessEnds(r: Regex, s: string, i: nat, e: nat)
    requires i <= |s| && r.Rep? && MaxLen(r.sub) == Some(0) && e in Ends(r, s, i)
    ensures e == i
    decreases Copies(r)
  {
    var stop, m, rest := RepStep(r, s, i, e);
    if !stop {
      MaxLenBounds(r.sub, s, i, m);
      ByteLenZero(s[i..m]);
      WidthlessEnds(rest, s, i, e);
    }
  }

  lemma {:induction false} ExactEnds(r: Regex, s: string, i: nat, e: nat, f: nat)
    requires i <= |s| && IsExact(r) && e in Ends(r, s, i) && f in Ends(r, s, i)
    ensures e == f
    decreases Size(r), Copies(r), |s| - i
  {
    match r
    case Empty =>
    case Start =>
    case End =>
    case Literal(_) =>
    case Class(_) =>
    case Cat(a, b) =>
      var m := BindFrom(b, s, i, Ends(a, s, i), e);
      var k := BindFrom(b, s, i, Ends(a, s, i), f);
      if IsExact(a) {
        ExactEnds(a, s, i, m, k);
      } else {
        NonEmptyEnds(b, s, m, e);
        NonEmptyEnds(b, s, k, f);
        if m < k { BlockedShort(a, b, s, i, m, k, e); }
        if k < m { BlockedShort(a, b, s, i, k, m, f); }
      }
      ExactEnds(b, s, m, e, f);
    case Alt(a, b) =>
      OnlyOne(a, b, s, i);
      if Ends(b, s, i) == [] { ExactEnds(a, s, i, e, f); } else { ExactEnds(b, s, i, e, f); }
    case Rep(x, lo, _, _) =>
      if MaxLen(x) == Some(0) {
        WidthlessEnds(r, s, i, e);
        WidthlessEnds(r, s, i, f);
      } else {
        var stop, m, rest := RepStep(r, s, i, e);
        var stop', m', rest' := RepStep(r, s, i, f);
        if lo > 0 {
          ExactEnds(x, s, i, m, m');
          ExactEnds(rest, s, m, e, f);
        }
      }
  }

  /** The ends are an interval whose last position is the preferred one. */
  ghost predicate IsInterval(es: seq<nat>) {
    es != [] ==>
      && (forall e :: e in es ==> e <= es[0])
      && (forall e, m :: e in es && e <= m <= es[0] ==> m in es)
  }

  lemma ExactInterval(r: Regex, s: string, i: nat)
    requires i <= |s| && IsExact(r)
    ensures IsInterval(Ends(r, s, i))
  {
    var es := Ends(r, s, i);
    forall e | e in es ensures e == es[0] { ExactEnds(r, s, i, e, es[0]); }
  }

  lemma {:induction false} BindOf(b: Regex, s: string, i: nat, starts: seq<nat>)
    requires i <= |s| && Within(starts, i, |s|) && starts != []
    ensures Ends(b, s, starts[0]) != [] ==>
              Bind(b, s, i, starts) != [] && Bind(b, s, i, starts)[0] == Ends(b, s, starts[0])[0]
  {
  }

  /** An exact prefix passes on the ends of what follows it. */
  lemma ExactThenSteady(a: Regex, b: Regex, s: string, i: nat)
    requires i <= |s| && IsExact(a)
    requires Ends(a, s, i) != [] ==> IsInterval(Ends(b, s, Ends(a, s, i)[0]))
    ensures IsInterval(Ends(Cat(a, b), s, i))
  {
    var ms, es := Ends(a, s, i), Ends(Cat(a, b), s, i);
    if es != [] {
      assert es == Bind(b, s, i, ms);
      var m := ms[0];
      forall e | e in es ensures e in Ends(b, s, m) {
        var k := BindFrom(b, s, i, ms, e);
        ExactEnds(a, s, i, k, m);
      }
      assert es[0] in es;
      BindOf(b, s, i, ms);
      forall e | e in Ends(b, s, m) ensures e in es { BindHas(b, s, i, ms, m, e); }
    }
  }

  /** Two intervals, the second starting where the first tops out, make one. */
  lemma IntervalsMeet(ms: seq<nat>, tail: seq<nat>, es: seq<nat>)
    requires ms != [] && tail != [] && es != [] && es[0] == tail[0]
    requires IsInterval(ms) && IsInterval(tail) && ms[0] in tail
    requires forall e :: e in tail ==> ms[0] <= e
    requires forall e :: e in es <==> e in ms || e in tail
    ensures IsInterval(es)
  {
    forall e, m | e in es && e <= m <= es[0] ensures m in es {
      if e in ms && m > ms[0] { assert ms[0] <= m <= tail[0]; }
    }
  }

  /** A run followed by an optional tail of other characters: backing off the run leaves
      nothing for the tail. */
  lemma OptionalEnds(a: Regex, b: Regex, s: string, i: nat, e: nat)
    requires i <= |s| && Ends(a, s, i) != []
    requires IsOptionalTail(b) && Disjoint(Chars(a), Firsts(b))
    requires forall m :: m in Ends(a, s, i) ==> m <= Ends(a, s, i)[0]
    ensures e in Bind(b, s, i, Ends(a, s, i)) <==> e in Ends(a, s, i) || e in Ends(b, s, Ends(a, s, i)[0])
  {
    var ms := Ends(a, s, i);
    if e in Bind(b, s, i, ms) {
      var m := BindFrom(b, s, i, ms, e);
      if m < ms[0] { BlockedShort(a, b, s, i, m, ms[0], e); }
    } else if e in ms {
      NullableMatchesEmpty(b, s, e);
      BindHas(b, s, i, ms, e, e);
    }
  }

  lemma SteadyThenOptional(a: Regex, b: Regex, s: string, i: nat)
    requires i <= |s| && Ends(a, s, i) != [] && IsInterval(Ends(a, s, i))
    requires IsOptionalTail(b) && Disjoint(Chars(a), Firsts(b))
    requires IsInterval(Ends(b, s, Ends(a, s, i)[0]))
    ensures IsInterval(Bind(b, s, i, Ends(a, s, i)))
  {
    var ms := Ends(a, s, i);
    var es := Bind(b, s, i, ms);
    var tail := Ends(b, s, ms[0]);
    NullableMatchesEmpty(b, s, ms[0]);
    BindOf(b, s, i, ms);
    forall e ensures e in es <==> e in ms || e in tail { OptionalEnds(a, b, s, i, e); }
    IntervalsMeet(ms, tail, es);
  }

  lemma {:induction false} SteadyInterval(r: Regex, s: string, i: nat)
    requires i <= |s| && IsSteady(r)
    ensures IsInterval(Ends(r, s, i))
    decreases Size(r)
  {
    if IsExact(r) {
      ExactInterval(r, s, i);
    } else {
      match r
      case Cat(a, b) =>
        if Ends(a, s, i) != [] { SteadyInterval(b, s, Ends(a, s, i)[0]); }
        if IsExact(a) {
          ExactThenSteady(a, b, s, i);
        } else {
          SteadyInterval(a, s, i);
          if Ends(a, s, i) != [] { SteadyThenOptional(a, b, s, i); }
        }
      case Alt(a, b) =>
        OnlyOne(a, b, s, i);
        SteadyInterval(a, s, i);
        SteadyInterval(b, s, i);
        assert Ends(r, s, i) == Ends(a, s, i) || Ends(r, s, i) == Ends(b, s, i);
      case Rep(x, _, _, _) => RunInterval(r, s, i);
    }
  }

  lemma RunInterval(r: Regex, s: string, i: nat)
    requires i <= |s| && r.Rep? && r.greedy && IsSingle(r.sub)
    ensures IsInterval(Ends(r, s, i))
  {
    RunEnds(r, s, i);
    var es := Ends(r, s, i);
    if es != [] {
      assert es[0] in es && AllAccepted(r.sub, s, i, es[0]);
      assert forall m :: i <= m <= es[0] ==> AllAccepted(r.sub, s, i, m);
    }
  }

  // --------------------------------------------------- what an extension keeps

  ghost predicate FirstKept(r: Regex, s: string, w: string, i: nat)
    requires i <= |s| <= |w|
  {
    Ends(r, s, i) != [] ==> Ends(r, w, i) != [] && Ends(r, w, i)[0] == Ends(r, s, i)[0]
  }

  /** While a steady pattern's match can still grow, it ends exactly where the text does. */
  lemma SteadyKeeps(r: Regex, s: string, w: string, i: nat)
    requires i <= |s| && s <= w && IsSteady(r) && !HasEnd(r)
    requires Ends(r, s, i) != [] ==> Ends(r, s, i)[0] < |s|
    ensures FirstKept(r, s, w, i)
  {
    if Ends(r, s, i) != [] {
      ExtensionAt(r, s, w, i);
      if Ends(r, w, i)[0] != Ends(r, s, i)[0] {
        SteadyInterval(r, w, i);
        SteadyInterval(r, s, i);
        Locality(r, s, w, i);
        UpToHas(Ends(r, w, i), |s|, |s|);
        assert false;
      }
    }
  }

  /** A concatenation prefers what its second part prefers after its first part's choice. */
  lemma PrefersInTurn(a: Regex, b: Regex, s: string, i: nat)
    requires i <= |s| && Bind(b, s, i, Ends(a, s, i)) != []
    requires IsExact(a) || IsOptionalTail(b)
    ensures Ends(a, s, i) != [] && Ends(b, s, Ends(a, s, i)[0]) != []
    ensures Bind(b, s, i, Ends(a, s, i))[0] == Ends(b, s, Ends(a, s, i)[0])[0]
  {
    var ms := Ends(a, s, i);
    if IsExact(a) {
      var k := BindFrom(b, s, i, ms, Bind(b, s, i, ms)[0]);
      ExactEnds(a, s, i, k, ms[0]);
    } else {
      NullableMatchesEmpty(b, s, ms[0]);
    }
    BindOf(b, s, i, ms);
  }

  lemma KeptInTurn(a: Regex, b: Regex, s: string, w: string, i: nat)
    requires i <= |s| && s <= w && (IsExact(a) || IsOptionalTail(b))
    requires Bind(b, s, i, Ends(a, s, i)) != [] && Bind(b, w, i, Ends(a, w, i)) != []
    requires FirstKept(a, s, w, i) && (Ends(a, s, i) != [] ==> FirstKept(b, s, w, Ends(a, s, i)[0]))
    ensures Bind(b, w, i, Ends(a, w, i))[0] == Bind(b, s, i, Ends(a, s, i))[0]
  {
    PrefersInTurn(a, b, s, i);
    PrefersInTurn(a, b, w, i);
  }

  lemma ExactKeeps(r: Regex, s: string, w: string, i: nat)
    requires i <= |s| && s <= w && IsExact(r) && !HasEnd(r)
    ensures FirstKept(r, s, w, i)
  {
    if Ends(r, s, i) != [] {
      ExtensionAt(r, s, w, i);
      ExactEnds(r, w, i, Ends(r, s, i)[0], Ends(r, w, i)[0]);
    }
  }

  /** Told apart by the next character, the alternative chosen stays the one. */
  lemma ChoiceKept(a: Regex, b: Regex, s: string, w: string, i: nat)
    requires i <= |s| && s <= w && Distinguished(a, b) && !HasEnd(b)
    requires FirstKept(a, s, w, i) && FirstKept(b, s, w, i)
    ensures FirstKept(Alt(a, b), s, w, i)
  {
    FirstOfChoice(a, b, s, i);
    FirstOfChoice(a, b, w, i);
    if Ends(a, s, i) == [] && Ends(b, s, i) != [] { OnlyOne(a, b, w, i); }
  }

  lemma FirstOfChoice(a: Regex, b: Regex, s: string, i: nat)
    requires i <= |s|
    ensures Ends(a, s, i) == [] ==> Ends(Alt(a, b), s, i) == Ends(b, s, i)
    ensures Ends(a, s, i) != [] ==> Ends(Alt(a, b), s, i) != [] && Ends(Alt(a, b), s, i)[0] == Ends(a, s, i)[0]
  {
    assert [] + Ends(b, s, i) == Ends(b, s, i);
  }

  lemma {:induction false} FirmKeeps(r: Regex, s: string, w: string, i: nat)
    requires i <= |s| && s <= w && IsFirm(r) && !HasEnd(r)
    ensures FirstKept(r, s, w, i)
    decreases Size(r), Copies(r)
  {
    if IsExact(r) {
      ExactKeeps(r, s, w, i);
    } else if Ends(r, s, i) != [] {
      ExtensionAt(r, s, w, i);
      match r
      case Cat(a, b) =>
        FirmKeeps(a, s, w, i);
        if Ends(a, s, i) != [] { FirmKeeps(b, s, w, Ends(a, s, i)[0]); }
        KeptInTurn(a, b, s, w, i);
      case Alt(a, b) =>
        FirmKeeps(a, s, w, i);
        FirmKeeps(b, s, w, i);
        ChoiceKept(a, b, s, w, i);
      case Rep(x, lo, extra, greedy) =>
        if lo > 0 {
          var rest := Rep(x, lo - 1, extra, greedy);
          ExactKeeps(x, s, w, i);
          if Ends(x, s, i) != [] { FirmKeeps(rest, s, w, Ends(x, s, i)[0]); }
          KeptInTurn(x, rest, s, w, i);
        }
    }
  }

  lemma {:induction false} SettledKeeps(r: Regex, s: string, w: string, i: nat)
    requires i <= |s| && s <= w && IsSettled(r) && !HasEnd(r)
    requires Ends(r, s, i) != [] ==> Ends(r, s, i)[0] < |s|
    ensures FirstKept(r, s, w, i)
    decreases Size(r)
  {
    if IsSteady(r) {
      SteadyKeeps(r, s, w, i);
    } else if IsFirm(r) {
      FirmKeeps(r, s, w, i);
    } else if Ends(r, s, i) != [] {
      ExtensionAt(r, s, w, i);
      match r
      case Cat(a, b) =>
        if IsExact(a) { ExactKeeps(a, s, w, i); } else { FirmKeeps(a, s, w, i); }
        PrefersInTurn(a, b, s, i);
        SettledKeeps(b, s, w, Ends(a, s, i)[0]);
        KeptInTurn(a, b, s, w, i);
      case Alt(a, b) =>
        OnlyOne(a, b, s, i);
        SettledKeeps(a, s, w, i);
        SettledKeeps(b, s, w, i);
        ChoiceKept(a, b, s, w, i);
    }
  }

  /** The check suffices. */
  lemma SettledIsStable(r: Regex)
    requires IsSettled(r) && !HasEnd(r)
    ensures Stable(r)
  {
    forall s, w ensures IsStableAt(r, s, w) {
      if s <= w && HeadEnd(r, s).Some? && HeadEnd(r, s).value < |s| { SettledKeeps(r, s, w, 0); }
    }
  }

  /** A decidable check for the whole guarantee: nothing is asked of a rule that does not
      stream as a head. */
  predicate Passes(r: Regex) {
    Classify(r) == HeadShape ==> IsSettled(r) && TailMatchesEmpty(r)
  }

  lemma PassingDecides(r: Regex)
    requires Passes(r)
    ensures forall rep :: Decides(r, rep)
  {
    if Classify(r) == HeadShape {
      SettledIsStable(r);
      BoundDecidesAll(r);
    }
    forall rep ensures Decides(r, rep) { StableDecides(r, rep); }
  }

  /** Rules that pass the check stream exactly, on every text in every chunking. */
  lemma PassingRulesStream(rules: seq<Rule>, model: string, chunks: seq<string>)
    requires forall k :: 0 <= k < |rules| && Targets(rules[k], model) ==> Passes(rules[k].regex)
    ensures Stream(NewStates(rules, model), chunks) == ReplaceRules(rules, model, Join(chunks))
  {
    forall k | 0 <= k < |rules| && Targets(rules[k], model) ensures Decides(rules[k].regex, rules[k].replacement) {
      PassingDecides(rules[k].regex);
    }
    StreamIsReplacement(rules, model, chunks);
  }
}
