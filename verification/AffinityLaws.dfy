/** What the affinity pipeline promises: signs, conservation and bounds over any run of
    turns, and where refusals lead. */
module AffinityLaws {
  import opened Text
  import opened Affinity

  // ------------------------------------------------------------ sign of a turn

  /** What one unit of positive grade nets at a position: the damped gain less the ramped
      penalty. Neither the grade nor the unit occurs. */
  function Net(boost: real, tier: int, counterpart: real, t: Tuning): real
    requires WellTuned(t) && 1 <= tier <= 5
  {
    t.tierDecay[tier - 1] * boost - t.penaltyRatio * Ramp(counterpart, t.penaltyStart) / 4.0
  }

  lemma RampNonNegative(counterpart: real, start: real)
    requires start < 1.0
    ensures Ramp(counterpart, start) >= 0.0
  {
    var x := Pos(counterpart - start) / (1.0 - start);
    assert x * x >= 0.0;
  }

  lemma QuotientOrder(a: real, b: real, d: real)
    requires d > 0.0 && 0.0 <= a <= b
    ensures 0.0 <= a / d <= b / d
  {
    var p, q := a / d, b / d;
    assert p * d == a && q * d == b;
    Cancel(p, q, d);
    Cancel(0.0, p, d);
  }

  lemma Cancel(p: real, q: real, d: real)
    requires d > 0.0 && p * d <= q * d
    ensures p <= q
  {
  }

  lemma SquareOrder(x: real, y: real)
    requires 0.0 <= x <= y
    ensures x * x <= y * y
  {
    assert x * x <= x * y;
    assert x * y <= y * y;
  }

  lemma RampGrows(y: real, z: real, start: real)
    requires start < 1.0 && y <= z
    ensures Ramp(y, start) <= Ramp(z, start)
  {
    QuotientOrder(Pos(y - start), Pos(z - start), 1.0 - start);
    SquareOrder(Pos(y - start) / (1.0 - start), Pos(z - start) / (1.0 - start));
  }

  /** Without rule nudges a positive grade's real delta is grade times unit times `Net`. */
  lemma PositiveFactors(g: int, unit: real, boost: real, tier: int, counterpart: real, t: Tuning)
    requires WellTuned(t) && 1 <= tier <= 5 && 1 <= g <= 4 && unit >= 0.0 && boost >= 0.0
    ensures RealDelta(g, 0.0, unit, boost, tier, counterpart, t) == (g as real * unit) * Net(boost, tier, counterpart, t)
  {
    var (n, d, phi) := (g as real, t.tierDecay[tier - 1], Ramp(counterpart, t.penaltyStart));
    var nu := n * unit;
    assert nu >= 0.0;
    assert nu * boost >= 0.0;
    assert RawDelta(g, 0.0, unit, boost, t) == nu * boost;
    PenaltyIs(g, unit, counterpart, t);
    Distribute(d, nu, boost, t.penaltyRatio * phi / 4.0);
  }

  lemma PenaltyIs(g: int, unit: real, counterpart: real, t: Tuning)
    requires t.penaltyStart < 1.0
    ensures Penalty(counterpart, unit, g, t)
            == (Magnitude(g) * unit) * (t.penaltyRatio * Ramp(counterpart, t.penaltyStart) / 4.0)
  {
    var (k, phi, m) := (t.penaltyRatio, Ramp(counterpart, t.penaltyStart), Magnitude(g));
    Regroup(k, unit, phi, m);
  }

  lemma Regroup(k: real, u: real, phi: real, m: real)
    ensures (k * u) * phi * m / 4.0 == (m * u) * (k * phi / 4.0)
  {
    var kp := k * phi;
    assert (k * u) * phi == u * kp;
    assert (u * kp) * m == (m * u) * kp;
    assert (m * u) * (kp / 4.0) == ((m * u) * kp) / 4.0;
  }

  lemma Distribute(d: real, nu: real, boost: real, q: real)
    ensures d * (nu * boost) - nu * q == nu * (d * boost - q)
  {
    assert d * (nu * boost) == nu * (d * boost);
    assert nu * (d * boost - q) == nu * (d * boost) - nu * q;
  }

  lemma SignOfProduct(a: real, b: real)
    requires a > 0.0
    ensures a * b > 0.0 <==> b > 0.0
    ensures a * b < 0.0 <==> b < 0.0
  {
    if b > 0.0 { assert a * b > 0.0; }
    if b < 0.0 { assert a * b < 0.0; }
    if b == 0.0 { assert a * b == 0.0; }
  }

  /** Whether a positive verdict gains or loses does not depend on the grade or on the
      line's unit, only on the position. */
  lemma SignIsPositional(g: int, unit: real, boost: real, tier: int, counterpart: real, t: Tuning)
    requires WellTuned(t) && 1 <= tier <= 5 && 1 <= g <= 4 && unit > 0.0 && boost >= 0.0
    ensures RealDelta(g, 0.0, unit, boost, tier, counterpart, t) > 0.0 <==> Net(boost, tier, counterpart, t) > 0.0
    ensures RealDelta(g, 0.0, unit, boost, tier, counterpart, t) < 0.0 <==> Net(boost, tier, counterpart, t) < 0.0
  {
    PositiveFactors(g, unit, boost, tier, counterpart, t);
    assert g as real * unit > 0.0;
    SignOfProduct(g as real * unit, Net(boost, tier, counterpart, t));
  }

  lemma NetFalls(boost: real, tier: int, y: real, z: real, t: Tuning)
    requires WellTuned(t) && 1 <= tier <= 5 && y <= z
    ensures Net(boost, tier, z, t) <= Net(boost, tier, y, t)
  {
    RampGrows(y, z, t.penaltyStart);
    ScaleOrder(t.penaltyRatio, Ramp(y, t.penaltyStart), Ramp(z, t.penaltyStart));
  }

  /** Past the break-even position every grade loses, and goes on losing further up. */
  lemma LossPersists(g: int, h: int, unit: real, unit': real, boost: real, tier: int, y: real, z: real, t: Tuning)
    requires WellTuned(t) && 1 <= tier <= 5 && 1 <= g <= 4 && 1 <= h <= 4
    requires unit > 0.0 && unit' > 0.0 && boost >= 0.0 && y <= z
    requires RealDelta(g, 0.0, unit, boost, tier, y, t) < 0.0
    ensures RealDelta(h, 0.0, unit', boost, tier, z, t) < 0.0
  {
    SignIsPositional(g, unit, boost, tier, y, t);
    NetFalls(boost, tier, y, z, t);
    SignIsPositional(h, unit', boost, tier, z, t);
  }

  lemma ScaleOrder(k: real, x: real, y: real)
    requires k >= 0.0 && x <= y
    ensures k * x <= k * y
  {
  }

  /** Exactly when a negative verdict lowers its axis: the line has a unit, and either
      losses are priced or the penalty applies. */
  lemma NegativeLowersExactlyWhen(g: int, unit: real, boost: real, tier: int, counterpart: real, t: Tuning)
    requires WellTuned(t) && 1 <= tier <= 5 && g < 0 && unit >= 0.0
    ensures RealDelta(g, 0.0, unit, boost, tier, counterpart, t) < 0.0
            <==> unit > 0.0 && (t.negFactor > 0.0 || (t.penaltyRatio > 0.0 && counterpart > t.penaltyStart))
    ensures RealDelta(g, 0.0, unit, boost, tier, counterpart, t) <= 0.0
  {
    var (m, phi) := (Magnitude(g), Ramp(counterpart, t.penaltyStart));
    var (mu, q) := (m * unit, t.penaltyRatio * phi / 4.0);
    RampNonNegative(counterpart, t.penaltyStart);
    RampPositive(counterpart, t.penaltyStart);
    ScaleOrder(t.penaltyRatio, 0.0, phi);
    assert ClampGrade(g) as real == -m && m >= 1.0;
    assert (-m) * unit * t.negFactor == -(mu * t.negFactor);
    ScaleOrder(mu, 0.0, t.negFactor);
    assert mu >= 0.0 && (mu > 0.0 <==> unit > 0.0);
    assert RawDelta(g, 0.0, unit, boost, t) == -(mu * t.negFactor);
    PenaltyIs(g, unit, counterpart, t);
    assert RealDelta(g, 0.0, unit, boost, tier, counterpart, t) == -(mu * t.negFactor) - mu * q
      by { assert t.tierDecay[tier - 1] * 0.0 == 0.0; }
    assert mu * t.negFactor + mu * q == mu * (t.negFactor + q);
    if unit > 0.0 { SignOfProduct(mu, t.negFactor + q); }
    if t.penaltyRatio > 0.0 { SignOfProduct(t.penaltyRatio, phi); }
  }

  /** Without a price on losses, a negative verdict below the penalty's start is free. */
  lemma FreeNegative(g: int, unit: real, boost: real, tier: int, counterpart: real, t: Tuning)
    requires WellTuned(t) && 1 <= tier <= 5 && g < 0 && unit >= 0.0
    requires t.negFactor == 0.0 && counterpart <= t.penaltyStart
    ensures RealDelta(g, 0.0, unit, boost, tier, counterpart, t) == 0.0
  {
    var r := RawDelta(g, 0.0, unit, boost, t);
    RampFlat(counterpart, t.penaltyStart);
    assert r == (ClampGrade(g) as real * unit) * 0.0 + 0.0;
    assert Penalty(counterpart, unit, g, t) == (t.penaltyRatio * unit) * 0.0 * Magnitude(g) / 4.0;
    assert t.tierDecay[tier - 1] * Pos(r) == t.tierDecay[tier - 1] * 0.0;
  }

  lemma RampFlat(counterpart: real, start: real)
    requires start < 1.0 && counterpart <= start
    ensures Ramp(counterpart, start) == 0.0
  {
    RampNonNegative(counterpart, start);
    RampPositive(counterpart, start);
  }

  lemma RampPositive(counterpart: real, start: real)
    requires start < 1.0
    ensures Ramp(counterpart, start) > 0.0 <==> counterpart > start
  {
    var x := Pos(counterpart - start) / (1.0 - start);
    assert x * (1.0 - start) == Pos(counterpart - start);
    if counterpart > start {
      assert x != 0.0;
      assert x * x > 0.0;
    } else {
      assert x == 0.0;
    }
  }

  // ---------------------------------------------------------- over many turns

  datatype Axis = Trust | Intrigue | Intimacy | Tension

  function Of(b: Balance, axis: Axis): real {
    match axis case Trust => b.trust case Intrigue => b.intrigue case Intimacy => b.intimacy case Tension => b.tension
  }

  function LineOf(axis: Axis): Line { if axis == Trust || axis == Intrigue then Bond else Chemistry }

  function GradeOf(g: Grades, axis: Axis): int {
    match axis case Trust => g.trust case Intrigue => g.intrigue case Intimacy => g.intimacy case Tension => g.tension
  }

  function UnitOf(t: Tuning, line: Line): real { if line == Bond then t.unitBond else t.unitChem }

  const NO_NUDGE: Balance := Balance(0.0, 0.0, 0.0, 0.0)

  /** Which way a turn without nudges moves an axis, read off that axis's own grade and the
      two line scores: up and down as the position nets, never up on a negative grade, and
      not at all without a grade. */
  lemma TurnDirection(a: Axes, g: Grades, p: Balance, boost: real, t: Tuning, axis: Axis)
    requires WellTuned(t) && boost >= 0.0 && UnitOf(t, LineOf(axis)) > 0.0
    ensures var (d, n) := (Of(GradeTurn(a, g, NO_NUDGE, p, boost, t).realDeltas, axis), GradeOf(g, axis));
            var (own, other) := (LineScore(a, LineOf(axis)), LineScore(a, Other(LineOf(axis))));
            && (n > 0 ==> (d > 0.0 <==> Net(boost, TierIndex(own), other, t) > 0.0) &&
                          (d < 0.0 <==> Net(boost, TierIndex(own), other, t) < 0.0))
            && (n == 0 ==> d == 0.0)
            && (n < 0 ==> d <= 0.0 &&
                          (d < 0.0 <==> t.negFactor > 0.0 || (t.penaltyRatio > 0.0 && other > t.penaltyStart)))
  {
    var line, n := LineOf(axis), GradeOf(g, axis);
    var tier, other, unit := TierIndex(LineScore(a, line)), LineScore(a, Other(line)), UnitOf(t, line);
    DeltaOf(a, g, p, boost, t, axis);
    if n > 0 {
      GradesStopAtFour(n, unit, boost, tier, other, t);
      SignIsPositional(if n > 4 then 4 else n, unit, boost, tier, other, t);
    } else if n == 0 {
      NoGrade(unit, boost, tier, other, t);
    } else {
      NegativeLowersExactlyWhen(n, unit, boost, tier, other, t);
    }
  }

  /** Each axis is graded on its own line's unit and tier, against the other line's score. */
  lemma DeltaOf(a: Axes, g: Grades, p: Balance, boost: real, t: Tuning, axis: Axis)
    requires WellTuned(t)
    ensures var line := LineOf(axis);
            Of(GradeTurn(a, g, NO_NUDGE, p, boost, t).realDeltas, axis)
            == RealDelta(GradeOf(g, axis), 0.0, UnitOf(t, line), boost, TierIndex(LineScore(a, line)),
                         LineScore(a, Other(line)), t)
  {
  }

  lemma GradesStopAtFour(g: int, unit: real, boost: real, tier: int, counterpart: real, t: Tuning)
    requires WellTuned(t) && 1 <= tier <= 5 && g > 0
    ensures RealDelta(g, 0.0, unit, boost, tier, counterpart, t)
            == RealDelta(if g > 4 then 4 else g, 0.0, unit, boost, tier, counterpart, t)
  {
  }

  lemma NoGrade(unit: real, boost: real, tier: int, counterpart: real, t: Tuning)
    requires WellTuned(t) && 1 <= tier <= 5
    ensures RealDelta(0, 0.0, unit, boost, tier, counterpart, t) == 0.0
  {
    assert Magnitude(0) == 0.0;
    assert Penalty(counterpart, unit, 0, t) == 0.0;
    assert 0.0 * unit * boost == 0.0;
    assert t.tierDecay[tier - 1] * 0.0 == 0.0;
  }

  datatype World = World(axes: Axes, levels: Levels, pending: Balance)

  /** The judge's reads of the two endpoints; a level not read is kept. */
  datatype Reads = Reads(warmth: Option<int>, patience: Option<int>)

  /** One write: time decay, the judge's verdict, the growth damper on positive commits, the
      line a refused action drops, and the endpoints read anew. */
  datatype Turn = Turn(days: real, grades: Grades, rule: Balance, boost: real, growth: real, refused: Option<Line>,
                       levels: Reads)

  function LevelRead(stored: int, read: Option<int>): int {
    if read.None? then stored else if read.value < 1 then 1 else if read.value > 3 then 3 else read.value
  }

  function LevelsRead(l: Levels, r: Reads): Levels {
    Levels(LevelRead(l.warmth, r.warmth), LevelRead(l.patience, r.patience))
  }

  function Damped(v: real, growth: real): real { if v > 0.0 then v * growth else v }

  function DampedAll(b: Balance, growth: real): Balance {
    Balance(Damped(b.trust, growth), Damped(b.intrigue, growth), Damped(b.intimacy, growth), Damped(b.tension, growth))
  }

  /** The row as a turn finds it: drifted and cooled for the days gone by. */
  function Aged(w: World, days: real, t: Tuning): Axes {
    Refreshed(TimeDecayed(w.axes, days), w.levels, days, t)
  }

  function OutcomeOf(w: World, turn: Turn, t: Tuning): Outcome
    requires WellTuned(t)
  {
    GradeTurn(Aged(w, turn.days, t), turn.grades, turn.rule, w.pending, turn.boost, t)
  }

  function Step(w: World, turn: Turn, t: Tuning): World
    requires WellTuned(t)
  {
    var before := Aged(w, turn.days, t);
    var o := OutcomeOf(w, turn, t);
    var graded := Applied(before, AsDeltas(DampedAll(o.committed, turn.growth)));
    var (after, pending) := match turn.refused
      case None => (graded, o.pending)
      case Some(line) => (Dropped(graded, before, line), Cleared(o.pending, line));
    var levels := LevelsRead(w.levels, turn.levels);
    World(Refreshed(after, levels, 0.0, t), levels, pending)
  }

  function Play(w: World, turns: seq<Turn>, t: Tuning): World
    requires WellTuned(t)
    decreases |turns|
  {
    if turns == [] then w else Play(Step(w, turns[0], t), turns[1..], t)
  }

  function WorldOf(row: AffinityRow, pending: PendingDeltas): World
    reads row, pending
  {
    World(row.Value(), row.StoredLevels(), pending.Value())
  }

  /** The same write on stored objects. */
  method PersistTurn(row: AffinityRow, pending: PendingDeltas, turn: Turn, t: Tuning)
    requires WellTuned(t)
    modifies row, pending
    ensures WorldOf(row, pending) == Step(old(WorldOf(row, pending)), turn, t)
  {
    row.ApplyTimeDecay(turn.days);
    row.RefreshEndpoints(turn.days, t);
    var before := row.Value();
    var outcome := GradeTurn(before, turn.grades, turn.rule, pending.Value(), turn.boost, t);
    row.ApplyDeltas(AsDeltas(DampedAll(outcome.committed, turn.growth)));
    pending.trust, pending.intrigue := outcome.pending.trust, outcome.pending.intrigue;
    pending.intimacy, pending.tension := outcome.pending.intimacy, outcome.pending.tension;
    if turn.refused.Some? {
      row.DropLineTier(before, turn.refused.value);
      pending.ClearLine(turn.refused.value);
    }
    row.warmthGrade := LevelRead(row.warmthGrade, turn.levels.warmth);
    row.patienceGrade := LevelRead(row.patienceGrade, turn.levels.patience);
    row.RefreshEndpoints(0.0, t);
  }

  /** Sums over a run, per axis: real deltas assessed, deltas committed, and balances a
      refusal forfeits. */
  function RealSum(w: World, turns: seq<Turn>, t: Tuning, axis: Axis): real
    requires WellTuned(t)
    decreases |turns|
  {
    if turns == [] then 0.0
    else Of(OutcomeOf(w, turns[0], t).realDeltas, axis) + RealSum(Step(w, turns[0], t), turns[1..], t, axis)
  }

  function CommittedSum(w: World, turns: seq<Turn>, t: Tuning, axis: Axis): real
    requires WellTuned(t)
    decreases |turns|
  {
    if turns == [] then 0.0
    else Of(OutcomeOf(w, turns[0], t).committed, axis) + CommittedSum(Step(w, turns[0], t), turns[1..], t, axis)
  }

  function Forfeited(w: World, turn: Turn, t: Tuning, axis: Axis): real
    requires WellTuned(t)
  {
    if turn.refused == Some(LineOf(axis)) then Of(OutcomeOf(w, turn, t).pending, axis) else 0.0
  }

  function ForfeitedSum(w: World, turns: seq<Turn>, t: Tuning, axis: Axis): real
    requires WellTuned(t)
    decreases |turns|
  {
    if turns == [] then 0.0
    else Forfeited(w, turns[0], t, axis) + ForfeitedSum(Step(w, turns[0], t), turns[1..], t, axis)
  }

  lemma GateConserves(w: World, turn: Turn, t: Tuning, axis: Axis)
    requires WellTuned(t)
    ensures var o := OutcomeOf(w, turn, t);
            Of(o.committed, axis) + Of(o.pending, axis) == Of(w.pending, axis) + Of(o.realDeltas, axis)
    ensures Of(Step(w, turn, t).pending, axis) + Forfeited(w, turn, t, axis) == Of(OutcomeOf(w, turn, t).pending, axis)
  {
  }

  /** The threshold only re-times: everything assessed is committed, still pending, or was
      given up with a refused line. */
  lemma {:induction false} NothingLost(w: World, turns: seq<Turn>, t: Tuning, axis: Axis)
    requires WellTuned(t)
    ensures CommittedSum(w, turns, t, axis) + Of(Play(w, turns, t).pending, axis) + ForfeitedSum(w, turns, t, axis)
            == Of(w.pending, axis) + RealSum(w, turns, t, axis)
    decreases |turns|
  {
    if turns != [] {
      GateConserves(w, turns[0], t, axis);
      NothingLost(Step(w, turns[0], t), turns[1..], t, axis);
    }
  }

  predicate InUnit(v: real) { 0.0 <= v <= 1.0 }

  predicate AxesInUnit(a: Axes) {
    InUnit(a.warmth) && InUnit(a.trust) && InUnit(a.intrigue) && InUnit(a.intimacy) && InUnit(a.patience) && InUnit(a.tension)
  }

  /** Held back: nothing, or less than the threshold. */
  predicate IsHeldBack(v: real, threshold: real) { v == 0.0 || Abs(v) < threshold }

  predicate PendingHeld(b: Balance, threshold: real) {
    forall axis :: IsHeldBack(Of(b, axis), threshold)
  }

  /** After any run of at least one turn, from anywhere: every axis lies in [0, 1] and every
      balance is held back. */
  lemma {:induction false} BoundsHold(w: World, turns: seq<Turn>, t: Tuning)
    requires WellTuned(t) && turns != []
    ensures AxesInUnit(Play(w, turns, t).axes) && PendingHeld(Play(w, turns, t).pending, t.threshold)
    decreases |turns|
  {
    var next := Step(w, turns[0], t);
    if |turns| > 1 {
      BoundsHold(next, turns[1..], t);
    } else {
      assert turns[1..] == [] && Play(next, [], t) == next;
      StepBounds(w, turns[0], t);
    }
  }

  lemma StepBounds(w: World, turn: Turn, t: Tuning)
    requires WellTuned(t)
    ensures AxesInUnit(Step(w, turn, t).axes) && PendingHeld(Step(w, turn, t).pending, t.threshold)
  {
    var o := OutcomeOf(w, turn, t);
    var graded := Applied(Aged(w, turn.days, t), AsDeltas(DampedAll(o.committed, turn.growth)));
    AppliedInUnit(Aged(w, turn.days, t), AsDeltas(DampedAll(o.committed, turn.growth)));
    if turn.refused.Some? { DroppedInUnit(graded, Aged(w, turn.days, t), turn.refused.value); }
    GateHolds(Aged(w, turn.days, t), turn.grades, turn.rule, w.pending, turn.boost, t);
    forall axis ensures IsHeldBack(Of(Step(w, turn, t).pending, axis), t.threshold) { }
  }

  lemma AppliedInUnit(a: Axes, d: Axes)
    ensures AxesInUnit(Applied(a, d))
  {
  }

  lemma DroppedInUnit(a: Axes, before: Axes, line: Line)
    requires AxesInUnit(a)
    ensures AxesInUnit(Dropped(a, before, line))
  {
  }

  lemma GateHolds(a: Axes, g: Grades, rule: Balance, p: Balance, boost: real, t: Tuning)
    requires WellTuned(t)
    ensures PendingHeld(GradeTurn(a, g, rule, p, boost, t).pending, t.threshold)
  {
    var o := GradeTurn(a, g, rule, p, boost, t);
    forall axis ensures IsHeldBack(Of(o.pending, axis), t.threshold) { }
  }

  function AxisOf(a: Axes, axis: Axis): real {
    match axis case Trust => a.trust case Intrigue => a.intrigue case Intimacy => a.intimacy case Tension => a.tension
  }

  /** When a turn that refuses nothing moves an axis from where time left it: the balance it
      makes with what was pending reaches the threshold, and there is room to move. */
  lemma AxisMovesExactlyWhen(w: World, turn: Turn, t: Tuning, axis: Axis)
    requires WellTuned(t) && AxesInUnit(w.axes) && turn.refused == None && turn.growth >= 0.0
    ensures var (before, after) := (AxisOf(Aged(w, turn.days, t), axis), AxisOf(Step(w, turn, t).axes, axis));
            var acc := Of(w.pending, axis) + Of(OutcomeOf(w, turn, t).realDeltas, axis);
            && (after < before <==> acc < 0.0 && acc <= -t.threshold && before > 0.0)
            && (after > before <==> acc > 0.0 && acc >= t.threshold && before < 1.0 && turn.growth > 0.0)
  {
    var acc := Of(w.pending, axis) + Of(OutcomeOf(w, turn, t).realDeltas, axis);
    AgedIsLower(w, turn.days, t, LineOf(axis));
    DampedSign(acc, turn.growth);
    AxisLands(w, turn, t, axis);
  }

  lemma DampedSign(v: real, growth: real)
    requires growth >= 0.0
    ensures v > 0.0 ==> (Damped(v, growth) > 0.0 <==> growth > 0.0) && Damped(v, growth) >= 0.0
  {
  }

  lemma AxisLands(w: World, turn: Turn, t: Tuning, axis: Axis)
    requires WellTuned(t) && turn.refused == None
    ensures var acc := Of(w.pending, axis) + Of(OutcomeOf(w, turn, t).realDeltas, axis);
            AxisOf(Step(w, turn, t).axes, axis) ==
            Unit(AxisOf(Aged(w, turn.days, t), axis) + Damped(if Abs(acc) >= t.threshold then acc else 0.0, turn.growth))
  {
  }

  // ------------------------------------------------------------------ refusals

  /** The target lies strictly inside the tier below, and below the score. */
  lemma TargetOneTierDown(score: real)
    requires 0.15 <= score <= 1.0
    ensures var (k, x) := (TierIndex(score), TierDropTarget(score));
            && TierIndex(x) == k - 1 && 0.0 < x < score
            && TierLo(k - 1) + TIER_DROP_EPS <= x <= TierHi(k - 1) - TIER_DROP_EPS
  {
  }

  /** A better line stays better after both are dropped. */
  lemma TargetMonotone(x: real, y: real)
    requires 0.0 <= x <= y <= 1.0
    ensures TierDropTarget(x) <= TierDropTarget(y)
  {
    if TierIndex(x) < TierIndex(y) {
      if TierIndex(x) > 1 { TargetOneTierDown(x); }
      TargetOneTierDown(y);
    }
  }

  lemma ScaledScore(x: real, y: real, score: real, target: real)
    requires InUnit(x) && InUnit(y) && score == (x + y) / 2.0 && score > 0.0 && 0.0 <= target <= score
    ensures var f := target / score;
            0.0 <= Scaled(x, f) <= x && 0.0 <= Scaled(y, f) <= y && (Scaled(x, f) + Scaled(y, f)) / 2.0 == target
  {
    var f := target / score;
    assert f * score == target;
    Cancel(f, 1.0, score);
    Cancel(0.0, f, score);
    ScaleDown(x, f);
    ScaleDown(y, f);
    SumScaled(x, y, f);
  }

  lemma ScaleDown(v: real, f: real)
    requires InUnit(v) && 0.0 <= f <= 1.0
    ensures 0.0 <= Scaled(v, f) <= v
  {
    ScaleOrder(v, f, 1.0);
    ScaleOrder(v, 0.0, f);
  }

  lemma SumScaled(x: real, y: real, f: real)
    ensures (Scaled(x, f) + Scaled(y, f)) / 2.0 == f * ((x + y) / 2.0)
  {
  }

  /** The factor scales a line to its target and needs no clamp. */
  lemma FactorScales(x: real, y: real, score: real)
    requires InUnit(x) && InUnit(y) && score == (x + y) / 2.0
    ensures var f := DropFactor(score);
            InUnit(Scaled(x, f)) && InUnit(Scaled(y, f)) && (Scaled(x, f) + Scaled(y, f)) / 2.0 == TierDropTarget(score)
  {
    if score >= 0.15 { TargetOneTierDown(score); }
    if score > 0.0 {
      ScaledScore(x, y, score, TierDropTarget(score));
    } else {
      assert x == 0.0 && y == 0.0;
    }
  }

  /** A refusal, on axes within [0, 1]: the line's score becomes the target, both axes are
      scaled by one factor without any clamping, and the other line is as it was. */
  lemma RefusalLands(a: Axes, before: Axes, line: Line)
    requires AxesInUnit(before)
    ensures var (after, f) := (Dropped(a, before, line), DropFactor(LineScore(before, line)));
            && LineScore(after, line) == TierDropTarget(LineScore(before, line))
            && LineAxes(after, line) == (Scaled(LineAxes(before, line).0, f), Scaled(LineAxes(before, line).1, f))
            && InUnit(LineAxes(after, line).0) && InUnit(LineAxes(after, line).1)
            && LineAxes(after, Other(line)) == LineAxes(a, Other(line))
            && after.warmth == a.warmth && after.patience == a.patience
  {
    var score := LineScore(before, line);
    FactorScales(LineAxes(before, line).0, LineAxes(before, line).1, score);
    TargetInUnit(score);
  }

  lemma TargetInUnit(score: real)
    requires InUnit(score)
    ensures InUnit(TierDropTarget(score))
  {
    if score >= 0.15 { TargetOneTierDown(score); }
  }

  /** The ratio of the two axes survives the drop. */
  lemma RefusalKeepsRatio(a: Axes, before: Axes, line: Line)
    requires AxesInUnit(before)
    ensures var (b, c) := (LineAxes(before, line), LineAxes(Dropped(a, before, line), line));
            Scaled(c.0, b.1) == Scaled(c.1, b.0)
  {
    RefusalLands(a, before, line);
    Swap(LineAxes(before, line).0, LineAxes(before, line).1, DropFactor(LineScore(before, line)));
  }

  lemma Swap(x: real, y: real, f: real)
    ensures Scaled(Scaled(x, f), y) == Scaled(Scaled(y, f), x)
  {
    assert (x * f) * y == (x * y) * f;
  }

  // ------------------------------------------------------ refusals, turn by turn

  /** Time only takes from a line. */
  lemma AgedIsLower(w: World, days: real, t: Tuning, line: Line)
    requires AxesInUnit(w.axes)
    ensures AxesInUnit(Aged(w, days, t)) && LineScore(Aged(w, days, t), line) <= LineScore(w.axes, line)
    ensures LineScore(Aged(w, days, t), line) == LineScore(TimeDecayed(w.axes, days), line)
    ensures days <= 0.0 ==> LineScore(Aged(w, days, t), line) == LineScore(w.axes, line)
  {
  }

  /** A turn that refuses `line`, whatever else it brings: the line lands on the target of
      its aged score, and the other line and its balances fare as without the refusal. */
  lemma StepRefuses(w: World, turn: Turn, t: Tuning, line: Line)
    requires WellTuned(t) && AxesInUnit(w.axes) && turn.refused == Some(line)
    ensures LineScore(Step(w, turn, t).axes, line) == TierDropTarget(LineScore(Aged(w, turn.days, t), line))
    ensures var (refusing, plain) := (Step(w, turn, t), Step(w, turn.(refused := None), t));
            LineAxes(refusing.axes, Other(line)) == LineAxes(plain.axes, Other(line)) &&
            forall axis :: Of(refusing.pending, axis) == if LineOf(axis) == line then 0.0 else Of(plain.pending, axis)
  {
    var before := Aged(w, turn.days, t);
    var graded := Applied(before, AsDeltas(DampedAll(OutcomeOf(w, turn, t).committed, turn.growth)));
    AgedIsLower(w, turn.days, t, line);
    RefusalLands(graded, before, line);
  }

  /** A refusal costs a line above the lowest tier exactly one tier, and leaves it above
      zero, exactly when the days before it did not cost it one already. */
  lemma RefusalCostsOneTierExactlyWhen(w: World, turn: Turn, t: Tuning, line: Line)
    requires WellTuned(t) && AxesInUnit(w.axes) && turn.refused == Some(line)
    requires TierIndex(LineScore(w.axes, line)) >= 2
    ensures var (k, after) := (TierIndex(LineScore(w.axes, line)), LineScore(Step(w, turn, t).axes, line));
            TierIndex(after) == k - 1 && after > 0.0 <==> TierIndex(LineScore(TimeDecayed(w.axes, turn.days), line)) == k
  {
    var aged := LineScore(Aged(w, turn.days, t), line);
    StepRefuses(w, turn, t, line);
    AgedIsLower(w, turn.days, t, line);
    if aged >= 0.15 { TargetOneTierDown(aged); }
  }

  predicate AllRefuse(turns: seq<Turn>, line: Line) {
    forall k :: 0 <= k < |turns| ==> turns[k].refused == Some(line)
  }

  predicate NoTimePasses(turns: seq<Turn>) {
    forall k :: 0 <= k < |turns| ==> turns[k].days <= 0.0
  }

  /** Refusals walk a line down at least one tier each, whatever grades, nudges, balances and
      days come with them; as many as its tier bring it to zero. Where no time passes, fewer
      leave it above zero and exactly that many tiers down. */
  lemma {:induction false} RefusalsWalkDown(w: World, turns: seq<Turn>, t: Tuning, line: Line)
    requires WellTuned(t) && AxesInUnit(w.axes) && AllRefuse(turns, line)
    ensures var (score, after) := (LineScore(w.axes, line), LineScore(Play(w, turns, t).axes, line));
            var (k, n) := (TierIndex(score), |turns|);
            && (n < k ==> TierIndex(after) <= k - n)
            && (n >= k ==> after == 0.0)
            && (n < k && score > 0.0 && NoTimePasses(turns) ==> TierIndex(after) == k - n && after > 0.0)
    decreases |turns|
  {
    if turns != [] {
      var next := Step(w, turns[0], t);
      var aged := LineScore(Aged(w, turns[0].days, t), line);
      StepRefuses(w, turns[0], t, line);
      AgedIsLower(w, turns[0].days, t, line);
      StepBounds(w, turns[0], t);
      if aged >= 0.15 { TargetOneTierDown(aged); }
      RefusalsWalkDown(next, turns[1..], t, line);
    }
  }

  /** Thirty days and one refusal take a line from its second tier all the way to zero: the
      days alone have cost it the tier. */
  lemma DaysCostATier(w: World, turn: Turn, t: Tuning)
    requires WellTuned(t) && AxesInUnit(w.axes) && w.axes.intimacy == w.axes.tension == 0.2
    requires turn.days == 30.0 && turn.refused == Some(Chemistry)
    ensures TierIndex(LineScore(w.axes, Chemistry)) == 2 && LineScore(Step(w, turn, t).axes, Chemistry) == 0.0
  {
    StepRefuses(w, turn, t, Chemistry);
    AgedIsLower(w, turn.days, t, Chemistry);
    assert TimeDecayed(w.axes, 30.0).tension == 0.05;
  }

  // ----------------------------------------------------------------- endpoints

  /** A baseline verdict before time decay. */
  function Baseline(counterpart: real): real { EndpointBase(2) * EndpointBoost(counterpart) }

  /** The floor stays below a baseline verdict at one counterpart. */
  predicate FloorIdle(floorRatio: real, counterpart: real) {
    Scaled(counterpart, floorRatio) <= Baseline(counterpart)
  }

  lemma BaselineIs(x: real)
    ensures 39.0 * Baseline(x) == 9.5 + 10.0 * x
  {
    assert EndpointBase(2) == 1.0 / 3.0;
    assert 0.5 / 0.65 == 10.0 / 13.0;
    Third(EndpointBoost(x));
  }

  lemma Third(b: real)
    ensures 3.0 * ((1.0 / 3.0) * b) == b
  {
  }

  lemma FloorIdleAt(floorRatio: real, x: real)
    requires InUnit(x) && 0.0 <= floorRatio <= 0.5
    ensures FloorIdle(floorRatio, x)
  {
    BaselineIs(x);
    ScaleOrder(x, floorRatio, 0.5);
    assert Scaled(x, floorRatio) <= x * 0.5;
    HalfIsBelow(x, Baseline(x));
  }

  lemma HalfIsBelow(x: real, b: real)
    requires InUnit(x) && 39.0 * b == 9.5 + 10.0 * x
    ensures x * 0.5 <= b
  {
  }

  /** The floor of an endpoint never overrides a baseline verdict, at any counterpart,
      exactly when its ratio is at most one half. */
  lemma FloorIdleExactlyWhen(floorRatio: real)
    requires floorRatio >= 0.0
    ensures (forall x :: InUnit(x) ==> FloorIdle(floorRatio, x)) <==> floorRatio <= 0.5
  {
    if floorRatio <= 0.5 {
      forall x | InUnit(x) ensures FloorIdle(floorRatio, x) { FloorIdleAt(floorRatio, x); }
    } else {
      BaselineIs(1.0);
      assert InUnit(1.0) && !FloorIdle(floorRatio, 1.0);
    }
  }
}
