/** What a graded turn comes to in numbers: grades, nudges, the penalty's ramp, the days
    between turns, the endpoints, and where in its tier a dropped line lands. */
module Grading {
  import opened Text
  import opened Affinity
  import opened AffinityLaws

  // ------------------------------------------------------------------ the grade

  /** What a grade earns or costs: each step of a positive grade what the position nets, each
      step of a negative one the negative factor and the same penalty. Grades past four count
      as four. */
  lemma GradeFactors(g: int, unit: real, boost: real, tier: int, counterpart: real, t: Tuning)
    requires WellTuned(t) && 1 <= tier <= 5 && unit >= 0.0 && boost >= 0.0
    ensures var (d, n) := (RealDelta(g, 0.0, unit, boost, tier, counterpart, t), if g > 4 then 4 else if g < -4 then -4 else g);
            var penalty := t.penaltyRatio * Ramp(counterpart, t.penaltyStart) / 4.0;
            && (n > 0 ==> d == (n as real * unit) * (t.tierDecay[tier - 1] * boost - penalty))
            && (n < 0 ==> d == (n as real * unit) * (t.negFactor + penalty))
            && (n == 0 ==> d == 0.0)
  {
    var n := ClampGrade(g);
    GradeClamped(g, unit, boost, tier, counterpart, t);
    if n > 0 {
      PositiveFactors(n, unit, boost, tier, counterpart, t);
    } else if n == 0 {
      NoGrade(unit, boost, tier, counterpart, t);
    } else {
      NegativeFactors(n, unit, boost, tier, counterpart, t);
    }
  }

  lemma GradeClamped(g: int, unit: real, boost: real, tier: int, counterpart: real, t: Tuning)
    requires WellTuned(t) && 1 <= tier <= 5
    ensures RealDelta(g, 0.0, unit, boost, tier, counterpart, t)
            == RealDelta(ClampGrade(g), 0.0, unit, boost, tier, counterpart, t)
  {
    assert ClampGrade(ClampGrade(g)) == ClampGrade(g) && Magnitude(ClampGrade(g)) == Magnitude(g);
  }

  lemma NegativeFactors(g: int, unit: real, boost: real, tier: int, counterpart: real, t: Tuning)
    requires WellTuned(t) && 1 <= tier <= 5 && -4 <= g < 0 && unit >= 0.0
    ensures RealDelta(g, 0.0, unit, boost, tier, counterpart, t)
            == (g as real * unit) * (t.negFactor + t.penaltyRatio * Ramp(counterpart, t.penaltyStart) / 4.0)
  {
    var (m, phi) := (Magnitude(g), Ramp(counterpart, t.penaltyStart));
    var (mu, q) := (m * unit, t.penaltyRatio * phi / 4.0);
    assert g as real == -m && m >= 1.0 && mu >= 0.0;
    LossIs(m, unit, t.negFactor);
    assert RawDelta(g, 0.0, unit, boost, t) == -(mu * t.negFactor);
    LossNotPositive(mu, t.negFactor);
    PenaltyIs(g, unit, counterpart, t);
    assert t.tierDecay[tier - 1] * 0.0 == 0.0;
    assert RealDelta(g, 0.0, unit, boost, tier, counterpart, t) == -(mu * t.negFactor) - mu * q;
    Collect(m, unit, t.negFactor, q);
  }

  lemma LossIs(m: real, unit: real, f: real)
    ensures (-m) * unit * f == -((m * unit) * f)
  {
  }

  lemma LossNotPositive(mu: real, f: real)
    requires mu >= 0.0 && f >= 0.0
    ensures -(mu * f) <= 0.0
  {
  }

  lemma Collect(m: real, unit: real, f: real, q: real)
    ensures -((m * unit) * f) - (m * unit) * q == ((-m) * unit) * (f + q)
  {
  }

  /** The penalty's ramp: nothing up to its start, then the square of how far the counterpart
      has gone from there to full. */
  lemma RampIsQuadratic(counterpart: real, start: real, part: real)
    requires 0.0 <= start < 1.0 && 0.0 <= part <= 1.0
    ensures counterpart <= start ==> Ramp(counterpart, start) == 0.0
    ensures counterpart == start + part * (1.0 - start) ==> Ramp(counterpart, start) == part * part
  {
    var d := 1.0 - start;
    if counterpart <= start {
      RampFlat(counterpart, start);
    } else if counterpart == start + part * d {
      assert Pos(counterpart - start) == part * d;
      DivideOut(part, d);
    }
  }

  lemma DivideOut(part: real, d: real)
    requires d > 0.0
    ensures (part * d) / d == part
  {
  }

  // ------------------------------------------------------------------ the nudge

  /** Each axis is assessed on its own grade and nudge, its own line's unit and tier, and the
      other line's score. */
  lemma AssessedOn(a: Axes, g: Grades, rule: Balance, p: Balance, boost: real, t: Tuning, axis: Axis)
    requires WellTuned(t)
    ensures var line := LineOf(axis);
            Of(GradeTurn(a, g, rule, p, boost, t).realDeltas, axis)
            == RealDelta(GradeOf(g, axis), Of(rule, axis), UnitOf(t, line), boost, TierIndex(LineScore(a, line)),
                         LineScore(a, Other(line)), t)
  {
  }

  /** On an axis without a grade a nudge up is damped by the line's tier, and a nudge down
      counts in full. */
  lemma NudgeAlone(a: Axes, g: Grades, rule: Balance, p: Balance, boost: real, t: Tuning, axis: Axis)
    requires WellTuned(t) && boost >= 0.0 && GradeOf(g, axis) == 0
    ensures var (d, v) := (Of(GradeTurn(a, g, rule, p, boost, t).realDeltas, axis), Of(rule, axis));
            d == if v >= 0.0 then Damping(a, t, axis, v) else v
  {
    var line := LineOf(axis);
    AssessedOn(a, g, rule, p, boost, t, axis);
    BareNudge(Of(rule, axis), UnitOf(t, line), boost, TierIndex(LineScore(a, line)), LineScore(a, Other(line)), t);
  }

  /** A gain scaled by the decay of the tier its line is in. */
  function Damping(a: Axes, t: Tuning, axis: Axis, v: real): real
    requires WellTuned(t)
  {
    t.tierDecay[TierIndex(LineScore(a, LineOf(axis))) - 1] * v
  }

  lemma BareNudge(v: real, unit: real, boost: real, tier: int, counterpart: real, t: Tuning)
    requires WellTuned(t) && 1 <= tier <= 5 && unit >= 0.0 && boost >= 0.0
    ensures RealDelta(0, v, unit, boost, tier, counterpart, t) == if v >= 0.0 then t.tierDecay[tier - 1] * v else v
  {
    NudgeAdds(0, v, unit, boost, tier, counterpart, t);
    NoGrade(unit, boost, tier, counterpart, t);
  }

  /** Beside a grade of the same direction a nudge adds just what it would alone. */
  lemma NudgeAdds(g: int, v: real, unit: real, boost: real, tier: int, counterpart: real, t: Tuning)
    requires WellTuned(t) && 1 <= tier <= 5 && unit >= 0.0 && boost >= 0.0
    ensures var (d, plain) := (RealDelta(g, v, unit, boost, tier, counterpart, t), RealDelta(g, 0.0, unit, boost, tier, counterpart, t));
            && (g >= 0 && v >= 0.0 ==> d == plain + t.tierDecay[tier - 1] * v)
            && (g <= 0 && v <= 0.0 ==> d == plain + v)
  {
    var r, decay := RawDelta(g, 0.0, unit, boost, t), t.tierDecay[tier - 1];
    assert RawDelta(g, v, unit, boost, t) == r + v;
    RawSign(g, unit, boost, t);
    if g >= 0 && v >= 0.0 { Spread(decay, r, v); }
    if g <= 0 && v <= 0.0 { assert decay * 0.0 == 0.0; }
  }

  lemma RawSign(g: int, unit: real, boost: real, t: Tuning)
    requires WellTuned(t) && unit >= 0.0 && boost >= 0.0
    ensures var r := RawDelta(g, 0.0, unit, boost, t); (g >= 0 ==> r >= 0.0) && (g <= 0 ==> r <= 0.0)
  {
    var n := ClampGrade(g) as real;
    SignedProduct(n, unit, boost);
    SignedProduct(n, unit, t.negFactor);
  }

  lemma SignedProduct(n: real, unit: real, f: real)
    requires unit >= 0.0 && f >= 0.0
    ensures n >= 0.0 ==> n * unit * f >= 0.0
    ensures n <= 0.0 ==> n * unit * f <= 0.0
  {
    if n >= 0.0 { assert n * unit >= 0.0; }
    if n <= 0.0 { assert n * unit <= 0.0; }
  }

  lemma Spread(k: real, x: real, y: real)
    ensures k * (x + y) == k * x + k * y
  {
  }

  /** A better nudge is never worse, whatever the grade. */
  lemma NudgeMonotone(g: int, v: real, better: real, unit: real, boost: real, tier: int, counterpart: real, t: Tuning)
    requires WellTuned(t) && 1 <= tier <= 5 && v <= better
    ensures RealDelta(g, v, unit, boost, tier, counterpart, t) <= RealDelta(g, better, unit, boost, tier, counterpart, t)
  {
    var r, s := RawDelta(g, v, unit, boost, t), RawDelta(g, better, unit, boost, t);
    assert r <= s;
    ScaleOrder(t.tierDecay[tier - 1], Pos(r), Pos(s));
  }

  // ----------------------------------------------------------- where axes land

  /** Where a turn that refuses nothing leaves an axis: what the threshold releases, growth
      scaled, added to where time left it and kept within [0, 1]. */
  lemma AxisLandsAt(w: World, turn: Turn, t: Tuning, axis: Axis, acc: real)
    requires WellTuned(t) && turn.refused == None
    requires acc == Of(w.pending, axis) + Of(OutcomeOf(w, turn, t).realDeltas, axis)
    ensures var released := if acc >= t.threshold || acc <= -t.threshold then acc else 0.0;
            var (from, to) := (AxisOf(Aged(w, turn.days, t), axis), AxisOf(Step(w, turn, t).axes, axis));
            && Of(Step(w, turn, t).pending, axis) == acc - released
            && to == Unit(from + (if released > 0.0 then Grown(released, turn.growth) else released))
  {
    AxisLands(w, turn, t, axis);
    PendingIs(w, turn, t, axis);
    ReleasedIs(acc, t.threshold, turn.growth, AxisOf(Aged(w, turn.days, t), axis));
  }

  lemma ReleasedIs(acc: real, threshold: real, growth: real, from: real)
    requires threshold >= 0.0
    ensures var released := if acc >= threshold || acc <= -threshold then acc else 0.0;
            && (if Abs(acc) >= threshold then 0.0 else acc) == acc - released
            && Damped(if Abs(acc) >= threshold then acc else 0.0, growth) == if released > 0.0 then Grown(released, growth) else released
  {
  }

  function Grown(v: real, growth: real): real { v * growth }

  lemma PendingIs(w: World, turn: Turn, t: Tuning, axis: Axis)
    requires WellTuned(t) && turn.refused == None
    ensures var acc := Of(w.pending, axis) + Of(OutcomeOf(w, turn, t).realDeltas, axis);
            Of(Step(w, turn, t).pending, axis) == if Abs(acc) >= t.threshold then 0.0 else acc
  {
  }

  function Values(a: Axes): seq<real> { [a.warmth, a.trust, a.intrigue, a.intimacy, a.patience, a.tension] }

  /** Applying deltas moves each of the six values by its own delta as far as [0, 1] reaches. */
  lemma DeltasMove(a: Axes, d: Axes, k: nat)
    requires AxesInUnit(a) && k < 6
    ensures var (from, move, to) := (Values(a)[k], Values(d)[k], Values(Applied(a, d))[k]);
            && InUnit(to) && (InUnit(from + move) ==> to - from == move)
            && (from + move > 1.0 ==> to == 1.0) && (from + move < 0.0 ==> to == 0.0)
  {
  }

  /** Days without a turn add up, leave trust and intimacy alone, and take a hundredth a day
      from intrigue and half of that from tension. */
  lemma DaysAddUp(a: Axes, days: real, more: real)
    requires AxesInUnit(a) && days >= 0.0 && more >= 0.0
    ensures TimeDecayed(TimeDecayed(a, days), more) == TimeDecayed(a, days + more)
    ensures var b := TimeDecayed(a, days);
            && b.trust == a.trust && b.intimacy == a.intimacy && b.warmth == a.warmth && b.patience == a.patience
            && (a.intrigue >= b.intrigue) && (a.tension >= b.tension)
            && (b.intrigue > 0.0 ==> 100.0 * (a.intrigue - b.intrigue) == days)
            && (b.tension > 0.0 ==> 200.0 * (a.tension - b.tension) == days)
            && (b.intrigue == 0.0 ==> 100.0 * a.intrigue <= days)
            && (b.tension == 0.0 ==> 200.0 * a.tension <= days)
  {
  }

  // ------------------------------------------------------------------ endpoints

  /** After a turn each endpoint is read off the other kind of line: warmth off chemistry,
      patience off bond, at the level stored now and as if no time had passed. */
  lemma EndpointsFollowLines(w: World, turn: Turn, t: Tuning)
    requires WellTuned(t)
    ensures var v := Step(w, turn, t);
            && v.axes.warmth == EndpointValue(v.levels.warmth, LineScore(v.axes, Chemistry), 1.0, t.floorRatio)
            && v.axes.patience == EndpointValue(v.levels.patience, LineScore(v.axes, Bond), 1.0, t.floorRatio)
    ensures var (v, r) := (Step(w, turn, t), turn.levels);
            && (r.warmth == None ==> v.levels.warmth == w.levels.warmth)
            && (r.patience == None ==> v.levels.patience == w.levels.patience)
            && (r.warmth.Some? ==> v.levels.warmth == if r.warmth.value <= 1 then 1 else if r.warmth.value >= 3 then 3 else 2)
            && (r.patience.Some? ==> v.levels.patience == if r.patience.value <= 1 then 1 else if r.patience.value >= 3 then 3 else 2)
  {
    assert EndpointTimeDecay(0.0, t.timeDecayRate, t.timeDecayFloor) == 1.0 by { assert t.timeDecayRate * 0.0 == 0.0; }
  }

  /** What an endpoint reads: a cold verdict the floor alone, the higher levels a third and two
      thirds boosted by half at a full counterpart and by nothing at the pivot; cooling scales
      it. */
  lemma EndpointShape(level: int, counterpart: real, decay: real, floorRatio: real)
    requires InUnit(counterpart) && 0.0 <= floorRatio <= 0.5
    ensures var v := EndpointValue(level, counterpart, decay, floorRatio);
            && (level <= 1 ==> v == Unit(Scaled(Scaled(counterpart, floorRatio), decay)))
            && (level == 2 ==> v == Unit(Scaled(EndpointBoost(counterpart) / 3.0, decay)))
            && (level >= 3 ==> v == Unit(Scaled(2.0 * EndpointBoost(counterpart) / 3.0, decay)))
  {
    var m := MaxReal(EndpointBase(level) * EndpointBoost(counterpart), floorRatio * counterpart);
    assert EndpointValue(level, counterpart, decay, floorRatio) == Unit(Scaled(m, decay));
    FloorOrVerdict(level, counterpart, floorRatio);
  }

  /** The floor counts for a cold verdict only. */
  lemma FloorOrVerdict(level: int, counterpart: real, floorRatio: real)
    requires InUnit(counterpart) && 0.0 <= floorRatio <= 0.5
    ensures var boost := EndpointBoost(counterpart);
            MaxReal(EndpointBase(level) * boost, floorRatio * counterpart) ==
            if level <= 1 then Scaled(counterpart, floorRatio) else if level == 2 then boost / 3.0 else 2.0 * boost / 3.0
  {
    var boost, floor := EndpointBoost(counterpart), Scaled(counterpart, floorRatio);
    assert floorRatio * counterpart == floor;
    BoostIs(counterpart);
    FloorIdleAt(floorRatio, counterpart);
    ScaleOrder(counterpart, 0.0, floorRatio);
    BaseIs(level);
    BaseTimes(level, boost);
    BaseTimes(2, boost);
    BaseIs(2);
  }

  lemma BaseIs(level: int)
    ensures 3.0 * EndpointBase(level) == if level <= 1 then 0.0 else if level == 2 then 1.0 else 2.0
  {
  }

  lemma BaseTimes(level: int, boost: real)
    ensures 3.0 * (EndpointBase(level) * boost) == (3.0 * EndpointBase(level)) * boost
  {
  }

  /** The boost: half at a full counterpart, none at the pivot, on a straight line. */
  lemma BoostIs(x: real)
    ensures 39.0 * EndpointBoost(x) == 28.5 + 30.0 * x
    ensures EndpointBoost(0.35) == 1.0 && EndpointBoost(1.0) == 1.5
  {
    assert 0.5 / 0.65 == 10.0 / 13.0;
  }

  /** Absence cools by the rate a day, down to the floor and no further; none before. */
  lemma CoolingIs(days: real, t: Tuning)
    requires WellTuned(t)
    ensures var c := EndpointTimeDecay(days, t.timeDecayRate, t.timeDecayFloor);
            && t.timeDecayFloor <= c <= 1.0
            && (days <= 0.0 ==> c == 1.0)
            && (days >= 0.0 && c > t.timeDecayFloor ==> c == 1.0 - t.timeDecayRate * days)
            && (days >= 0.0 ==> c >= 1.0 - t.timeDecayRate * days)
  {
    ScaleOrder(t.timeDecayRate, 0.0, Pos(days));
    assert t.timeDecayRate * 0.0 == 0.0;
  }

  /** Read after some days away, both endpoints are what they were, cooled. */
  lemma RefreshCools(a: Axes, l: Levels, days: real, t: Tuning)
    requires WellTuned(t)
    ensures var (now, later, c) := (Refreshed(a, l, 0.0, t), Refreshed(a, l, days, t), EndpointTimeDecay(days, t.timeDecayRate, t.timeDecayFloor));
            && later.warmth == Scaled(now.warmth, c) && later.patience == Scaled(now.patience, c)
            && later == a.(warmth := later.warmth, patience := later.patience)
  {
    var c := EndpointTimeDecay(days, t.timeDecayRate, t.timeDecayFloor);
    CoolingIs(0.0, t);
    CoolingIs(days, t);
    ValueCools(l.warmth, LineScore(a, Chemistry), c, t.floorRatio);
    ValueCools(l.patience, LineScore(a, Bond), c, t.floorRatio);
  }

  lemma ValueCools(level: int, counterpart: real, c: real, floorRatio: real)
    requires InUnit(counterpart) && InUnit(c) && 0.0 <= floorRatio <= 0.24
    ensures EndpointValue(level, counterpart, c, floorRatio) == Scaled(EndpointValue(level, counterpart, 1.0, floorRatio), c)
  {
    var m := if level <= 1 then Scaled(counterpart, floorRatio)
             else if level == 2 then EndpointBoost(counterpart) / 3.0 else 2.0 * EndpointBoost(counterpart) / 3.0;
    EndpointShape(level, counterpart, c, floorRatio);
    EndpointShape(level, counterpart, 1.0, floorRatio);
    BoostIs(counterpart);
    ScaleDown(counterpart, floorRatio);
    assert InUnit(m) && Scaled(m, 1.0) == m;
    ScaleDown(m, c);
  }

  // ------------------------------------------------------------- a tier down

  /** The same relative place in the tier below. */
  function SamePlace(score: real, k: int): real
    requires 2 <= k <= 5
  {
    var width := TierHi(k) - TierLo(k);
    TierLo(k - 1) + (score - TierLo(k)) / width * (TierHi(k - 1) - TierLo(k - 1))
  }

  /** A dropped line keeps its relative place within the tier, up to the margin that keeps it
      off the edges. */
  lemma TargetKeepsPlace(score: real)
    requires 0.15 <= score <= 1.0
    ensures var (k, x) := (TierIndex(score), TierDropTarget(score));
            var place := SamePlace(score, k);
            && TierLo(k - 1) <= place <= TierHi(k - 1)
            && -TIER_DROP_EPS <= x - place <= TIER_DROP_EPS
            && (TierLo(k - 1) + TIER_DROP_EPS <= place <= TierHi(k - 1) - TIER_DROP_EPS ==> x == place)
  {
  }
}
