/** The follow-on factor as the code computes it: list the live priors, sort them by name,
    drop adjacent repeats, and raise the factor to what is left. */
module FollowOns {
  import opened Text
  import opened Needs
  import opened LifeEvents
  import opened Draw

  /** The kinds of the live priors, one entry for each event. */
  function LiveList(k: EventKind, history: seq<PastEvent>, now: int): seq<EventKind> {
    if history == [] then []
    else (if IsLivePrior(history[0], k, now) then [history[0].kind] else []) + LiveList(k, history[1..], now)
  }

  predicate SortedBy<T>(xs: seq<T>, name: T -> int) {
    forall i, j :: 0 <= i < j < |xs| ==> name(xs[i]) <= name(xs[j])
  }

  ghost predicate TellsApart<T(!new)>(name: T -> int) {
    forall x, y :: name(x) == name(y) ==> x == y
  }

  /** `dedup`: of equal neighbours, one stays. */
  function Deduped<T(==)>(xs: seq<T>): seq<T> {
    if |xs| <= 1 then xs
    else if xs[0] == xs[1] then Deduped(xs[1..])
    else [xs[0]] + Deduped(xs[1..])
  }

  function Elements<T>(xs: seq<T>): set<T> { set x | x in xs }

  /** On a sorted list, dropping neighbours leaves one of each. */
  lemma {:induction false} DedupCounts<T(!new)>(xs: seq<T>, name: T -> int)
    requires SortedBy(xs, name) && TellsApart(name)
    ensures |Deduped(xs)| == |Elements(xs)|
  {
    if |xs| > 1 {
      var rest := xs[1..];
      DedupCounts(rest, name);
      assert Elements(xs) == {xs[0]} + Elements(rest);
      if xs[0] == xs[1] {
        assert xs[1] == rest[0];
        assert Elements(xs) == Elements(rest);
      } else {
        forall j | 0 <= j < |rest| ensures rest[j] != xs[0] {
          assert name(xs[1]) <= name(xs[j + 1]);
        }
        assert xs[0] !in Elements(rest);
      }
    } else if |xs| == 1 {
      assert Elements(xs) == {xs[0]};
    } else {
      assert Elements(xs) == {};
    }
  }

  lemma {:induction false} LiveListHas(k: EventKind, history: seq<PastEvent>, now: int, j: nat)
    requires j < |history| && IsLivePrior(history[j], k, now)
    ensures history[j].kind in LiveList(k, history, now)
  {
    if j > 0 { LiveListHas(k, history[1..], now, j - 1); }
  }

  lemma {:induction false} LiveListOnly(k: EventKind, history: seq<PastEvent>, now: int, e: EventKind) returns (j: nat)
    requires e in LiveList(k, history, now)
    ensures j < |history| && IsLivePrior(history[j], k, now) && history[j].kind == e
  {
    if IsLivePrior(history[0], k, now) && history[0].kind == e {
      j := 0;
    } else {
      var i := LiveListOnly(k, history[1..], now, e);
      j := i + 1;
    }
  }

  lemma LiveListHolds(k: EventKind, history: seq<PastEvent>, now: int)
    ensures Elements(LiveList(k, history, now)) == LivePriors(k, history, now)
  {
    var live := LiveList(k, history, now);
    forall e | e in live ensures e in LivePriors(k, history, now) {
      var j := LiveListOnly(k, history, now, e);
    }
    forall e | e in LivePriors(k, history, now) ensures e in live {
      var j :| 0 <= j < |history| && IsLivePrior(history[j], k, now) && history[j].kind == e;
      LiveListHas(k, history, now, j);
    }
  }

  lemma PowerStep(m: nat, n: nat)
    requires m == n + 1
    ensures Power(FOLLOW_FACTOR, m) == 3.0 * Power(FOLLOW_FACTOR, n)
  {
  }

  lemma {:induction false} LiveListSnoc(k: EventKind, history: seq<PastEvent>, e: PastEvent, now: int)
    requires IsLivePrior(e, k, now)
    ensures LiveList(k, history + [e], now) == LiveList(k, history, now) + [e.kind]
  {
    if history != [] {
      LiveListSnoc(k, history[1..], e, now);
      assert (history + [e])[1..] == history[1..] + [e];
    }
  }

  lemma LivePriorsGrow(k: EventKind, history: seq<PastEvent>, e: PastEvent, now: int)
    requires IsLivePrior(e, k, now)
    ensures LivePriors(k, history + [e], now) == LivePriors(k, history, now) + {e.kind}
  {
    LiveListHolds(k, history, now);
    LiveListHolds(k, history + [e], now);
    LiveListSnoc(k, history, e, now);
    assert Elements(LiveList(k, history, now) + [e.kind]) == Elements(LiveList(k, history, now)) + {e.kind};
  }

  /** Scaling one of the factors scales the product. */
  lemma {:induction false} ProductScaled(xs: seq<real>, ys: seq<real>, j: nat, c: real)
    requires j < |xs| == |ys| && ys[j] == c * xs[j]
    requires forall i :: 0 <= i < |xs| && i != j ==> ys[i] == xs[i]
    ensures Product(ys) == c * Product(xs)
  {
    var p := Product(xs[1..]);
    if j == 0 {
      assert ys[1..] == xs[1..];
      Regroup(c, xs[0], p);
    } else {
      ProductScaled(xs[1..], ys[1..], j - 1, c);
      Exchange(xs[0], c, p);
    }
  }

  lemma Regroup(c: real, x: real, p: real)
    ensures (c * x) * p == c * (x * p)
  {
  }

  lemma Exchange(x: real, c: real, p: real)
    ensures x * (c * p) == c * (x * p)
  {
  }

  /** The lists of factors differ in the follow-on factor only. */
  lemma OneFactorApart(k: EventKind, needs: Option<Needs>, p: Persona, ever: bool, f: real, g: real)
    ensures var (xs, ys) := (FactorsWith(k, needs, p, ever, f), FactorsWith(k, needs, p, ever, g));
            |xs| == |ys| == 8 && xs[4] == f && ys[4] == g && forall i :: 0 <= i < 8 && i != 4 ==> ys[i] == xs[i]
  {
  }

  lemma ProductTripled(xs: seq<real>, ys: seq<real>)
    requires |xs| == |ys| == 8 && ys[4] == 3.0 * xs[4]
    requires forall i :: 0 <= i < 8 && i != 4 ==> ys[i] == xs[i]
    ensures Product(ys) == 3.0 * Product(xs)
  {
    ProductScaled(xs, ys, 4, 3.0);
  }

  lemma FactorTripled(k: EventKind, needs: Option<Needs>, p: Persona, ever: bool, f: real, g: real)
    requires g == 3.0 * f
    ensures Product(FactorsWith(k, needs, p, ever, g)) == 3.0 * Product(FactorsWith(k, needs, p, ever, f))
  {
    OneFactorApart(k, needs, p, ever, f, g);
    ProductTripled(FactorsWith(k, needs, p, ever, f), FactorsWith(k, needs, p, ever, g));
  }

  lemma OneMore(s: set<EventKind>, t: set<EventKind>, x: EventKind)
    requires t == s + {x} && x !in s
    ensures Power(FOLLOW_FACTOR, |t|) == 3.0 * Power(FOLLOW_FACTOR, |s|)
  {
    assert |t| == |s| + 1;
    PowerStep(|t|, |s|);
  }

  /** One more live prior of a kind not yet among them triples what follows on it, whatever
      else weighs on that. */
  lemma FollowOnTriples(k: EventKind, input: DrawInput, e: PastEvent)
    requires IsLivePrior(e, k, input.now) && e.kind !in LivePriors(k, input.history, input.now)
    ensures KindWeight(k, input.(history := input.history + [e])) == 3.0 * KindWeight(k, input)
  {
    var more := input.history + [e];
    LivePriorsGrow(k, input.history, e, input.now);
    OneMore(LivePriors(k, input.history, input.now), LivePriors(k, more, input.now), e.kind);
    FactorTripled(k, input.needs, input.persona, input.everHadSex,
                  FollowFactor(k, input.history, input.now), FollowFactor(k, more, input.now));
  }

  /** Sorted by any name that tells kinds apart and deduplicated, the list counts every
      live prior kind once. */
  lemma FollowFactorCounts(k: EventKind, history: seq<PastEvent>, now: int, sorted: seq<EventKind>, name: EventKind -> int)
    requires multiset(sorted) == multiset(LiveList(k, history, now))
    requires SortedBy(sorted, name) && TellsApart(name)
    ensures Power(FOLLOW_FACTOR, |Deduped(sorted)|) == FollowFactor(k, history, now)
  {
    DedupCounts(sorted, name);
    LiveListHolds(k, history, now);
    var live := LiveList(k, history, now);
    assert forall x :: x in sorted <==> x in multiset(sorted);
    assert forall x :: x in live <==> x in multiset(live);
    assert Elements(sorted) == Elements(live);
  }

  /** An event of kind `kind` under way, or ended within the last two days. */
  predicate IsFresh(history: seq<PastEvent>, kind: EventKind, now: int) {
    exists j :: 0 <= j < |history| && history[j].kind == kind && history[j].endsAt > now - 60 * 48
  }

  /** One more event triples what follows on it when it is under way or ended within two days
      and none of its kind is fresh already; otherwise it changes no weight. */
  lemma PriorCountsExactlyWhen(k: EventKind, input: DrawInput, e: PastEvent)
    ensures var counts := Follows(e.kind, k) && e.endsAt > input.now - 60 * 48 && !IsFresh(input.history, e.kind, input.now);
            KindWeight(k, input.(history := input.history + [e])) == (if counts then 3.0 else 1.0) * KindWeight(k, input)
  {
    FreshIsLive(k, input.history, e.kind, input.now);
    if IsLivePrior(e, k, input.now) && e.kind !in LivePriors(k, input.history, input.now) {
      FollowOnTriples(k, input, e);
    } else {
      NothingNew(k, input.history, e, input.now);
      FactorsFollow(k, input, input.(history := input.history + [e]));
    }
  }

  lemma FreshIsLive(k: EventKind, history: seq<PastEvent>, kind: EventKind, now: int)
    ensures Follows(kind, k) ==> (IsFresh(history, kind, now) <==> kind in LivePriors(k, history, now))
  {
    if Follows(kind, k) && IsFresh(history, kind, now) {
      var j :| 0 <= j < |history| && history[j].kind == kind && history[j].endsAt > now - 60 * 48;
      assert IsLivePrior(history[j], k, now);
    }
  }

  lemma NothingNew(k: EventKind, history: seq<PastEvent>, e: PastEvent, now: int)
    requires !IsLivePrior(e, k, now) || e.kind in LivePriors(k, history, now)
    ensures FollowFactor(k, history + [e], now) == FollowFactor(k, history, now)
  {
    if IsLivePrior(e, k, now) {
      LivePriorsGrow(k, history, e, now);
      assert LivePriors(k, history, now) + {e.kind} == LivePriors(k, history, now);
    } else {
      LiveListHolds(k, history, now);
      LiveListHolds(k, history + [e], now);
      LiveListSkips(k, history, e, now);
    }
  }

  lemma {:induction false} LiveListSkips(k: EventKind, history: seq<PastEvent>, e: PastEvent, now: int)
    requires !IsLivePrior(e, k, now)
    ensures LiveList(k, history + [e], now) == LiveList(k, history, now)
  {
    if history != [] {
      LiveListSkips(k, history[1..], e, now);
      assert (history + [e])[1..] == history[1..] + [e];
    }
  }

  lemma FactorsFollow(k: EventKind, a: DrawInput, b: DrawInput)
    requires b == a.(history := b.history) && FollowFactor(k, a.history, a.now) == FollowFactor(k, b.history, b.now)
    ensures KindWeight(k, a) == KindWeight(k, b)
  {
  }
}
