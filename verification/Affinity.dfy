/** The affinity write pipeline: judge grades become raw deltas, are damped by tier, pay a
    cross-line penalty, wait behind a threshold, and land on axes kept within [0, 1]; a
    refused action drops a line one tier. */
module Affinity {
  function Clamp(v: real, lo: real, hi: real): real {
    if v < lo then lo else if v > hi then hi else v
  }

  function Unit(v: real): real { Clamp(v, 0.0, 1.0) }

  function Pos(v: real): real { if v > 0.0 then v else 0.0 }
  function Neg(v: real): real { if v < 0.0 then v else 0.0 }
  function Abs(v: real): real { if v < 0.0 then -v else v }

  datatype Line = Bond | Chemistry

  /** The six stored values. */
  datatype Axes = Axes(warmth: real, trust: real, intrigue: real, intimacy: real, patience: real, tension: real)

  datatype Grades = Grades(trust: int, intrigue: int, intimacy: int, tension: int)

  datatype Balance = Balance(trust: real, intrigue: real, intimacy: real, tension: real)

  datatype Tuning = Tuning(unitBond: real, unitChem: real, negFactor: real, tierDecay: seq<real>,
                           penaltyRatio: real, penaltyStart: real, threshold: real, floorRatio: real,
                           timeDecayRate: real, timeDecayFloor: real)

  /** The domains the settings are checked against when they are read. */
  predicate WellTuned(t: Tuning) {
    && t.unitBond >= 0.0 && t.unitChem >= 0.0 && t.negFactor >= 0.0
    && |t.tierDecay| == 5 && (forall k :: 0 <= k < 5 ==> t.tierDecay[k] >= 0.0)
    && t.penaltyRatio >= 0.0 && 0.0 <= t.penaltyStart < 1.0
    && t.threshold >= 0.0 && 0.0 <= t.floorRatio <= 0.24
    && t.timeDecayRate >= 0.0 && 0.0 <= t.timeDecayFloor <= 1.0
  }

  // ------------------------------------------------------------------- tiers

  function TierIndex(score: real): (k: int)
    ensures 1 <= k <= 5
  {
    if score < 0.15 then 1 else if score < 0.35 then 2 else if score < 0.62 then 3 else if score < 0.9 then 4 else 5
  }

  function TierLo(k: int): real {
    if k <= 1 then 0.0 else if k == 2 then 0.15 else if k == 3 then 0.35 else if k == 4 then 0.62 else 0.9
  }

  function TierHi(k: int): real {
    if k <= 1 then 0.15 else if k == 2 then 0.35 else if k == 3 then 0.62 else if k == 4 then 0.9 else 1.0
  }

  const TIER_DROP_EPS: real := 0.000001

  /** `tier_drop_target`: one tier down, at the same place within the tier. */
  function TierDropTarget(score: real): real {
    var k := TierIndex(score);
    if k == 1 then 0.0
    else
      var (lo, hi) := (TierLo(k), TierHi(k));
      var (lowerLo, lowerHi) := (TierLo(k - 1), TierHi(k - 1));
      var at := Unit((score - lo) / (hi - lo));
      Clamp(lowerLo + at * (lowerHi - lowerLo), lowerLo + TIER_DROP_EPS, lowerHi - TIER_DROP_EPS)
  }

  function LineAxes(a: Axes, line: Line): (real, real) {
    if line == Bond then (a.trust, a.intrigue) else (a.intimacy, a.tension)
  }

  function WithLine(a: Axes, line: Line, x: real, y: real): Axes {
    if line == Bond then a.(trust := x, intrigue := y) else a.(intimacy := x, tension := y)
  }

  function LineScore(a: Axes, line: Line): real {
    var (x, y) := LineAxes(a, line);
    Unit((x + y) / 2.0)
  }

  function Other(line: Line): Line { if line == Bond then Chemistry else Bond }

  // ---------------------------------------------------------- one graded axis

  function ClampGrade(g: int): int { if g < -4 then -4 else if g > 4 then 4 else g }

  /** Raw delta: units per grade, times `boost` upwards or the negative factor downwards,
      plus what a rule adds. */
  function RawDelta(g: int, rule: real, unit: real, boost: real, t: Tuning): real {
    var n := ClampGrade(g) as real;
    (if n >= 0.0 then n * unit * boost else n * unit * t.negFactor) + rule
  }

  /** The quadratic ramp of the penalty over the counterpart line's score. */
  function Ramp(counterpart: real, start: real): real
    requires start < 1.0
  {
    var x := Pos(counterpart - start) / (1.0 - start);
    x * x
  }

  function Magnitude(g: int): real {
    var m := if g < 0 then -g else g;
    if m > 4 then 4.0 else m as real
  }

  /** The penalty assessed: in proportion to the grade applied. */
  function Penalty(counterpart: real, unit: real, g: int, t: Tuning): real
    requires t.penaltyStart < 1.0
  {
    (t.penaltyRatio * unit) * Ramp(counterpart, t.penaltyStart) * Magnitude(g) / 4.0
  }

  /** The real delta: the positive part damped by tier, the negative part at full price,
      less the penalty. */
  function RealDelta(g: int, rule: real, unit: real, boost: real, tier: int, counterpart: real, t: Tuning): real
    requires WellTuned(t) && 1 <= tier <= 5
  {
    var r := RawDelta(g, rule, unit, boost, t);
    t.tierDecay[tier - 1] * Pos(r) + Neg(r) - Penalty(counterpart, unit, g, t)
  }

  /** The threshold gate: what commits now and what stays pending. */
  function Gate(real_: real, pending: real, threshold: real): (real, real) {
    var acc := pending + real_;
    if Abs(acc) >= threshold then (acc, 0.0) else (0.0, acc)
  }

  // -------------------------------------------------------------- whole turns

  datatype Outcome = Outcome(realDeltas: Balance, committed: Balance, pending: Balance)

  /** `grade_turn`: all four axes from one snapshot. */
  function GradeTurn(a: Axes, g: Grades, rule: Balance, p: Balance, boost: real, t: Tuning): Outcome
    requires WellTuned(t)
  {
    var (bond, chem) := (LineScore(a, Bond), LineScore(a, Chemistry));
    var (bondTier, chemTier) := (TierIndex(bond), TierIndex(chem));
    var d := Balance(RealDelta(g.trust, rule.trust, t.unitBond, boost, bondTier, chem, t),
                     RealDelta(g.intrigue, rule.intrigue, t.unitBond, boost, bondTier, chem, t),
                     RealDelta(g.intimacy, rule.intimacy, t.unitChem, boost, chemTier, bond, t),
                     RealDelta(g.tension, rule.tension, t.unitChem, boost, chemTier, bond, t));
    Outcome(d,
            Balance(Gate(d.trust, p.trust, t.threshold).0, Gate(d.intrigue, p.intrigue, t.threshold).0,
                    Gate(d.intimacy, p.intimacy, t.threshold).0, Gate(d.tension, p.tension, t.threshold).0),
            Balance(Gate(d.trust, p.trust, t.threshold).1, Gate(d.intrigue, p.intrigue, t.threshold).1,
                    Gate(d.intimacy, p.intimacy, t.threshold).1, Gate(d.tension, p.tension, t.threshold).1))
  }

  /** `apply_deltas`, on all six axes. */
  function Applied(a: Axes, d: Axes): Axes {
    Axes(Unit(a.warmth + d.warmth), Unit(a.trust + d.trust), Unit(a.intrigue + d.intrigue),
         Unit(a.intimacy + d.intimacy), Unit(a.patience + d.patience), Unit(a.tension + d.tension))
  }

  function AsDeltas(b: Balance): Axes { Axes(0.0, b.trust, b.intrigue, b.intimacy, 0.0, b.tension) }

  function Scaled(v: real, factor: real): real { v * factor }

  function DropFactor(score: real): real {
    if score > 0.0 then TierDropTarget(score) / score else 0.0
  }

  /** `drop_line_tier`: both axes of `before`'s line scaled by one factor. */
  function Dropped(a: Axes, before: Axes, line: Line): Axes {
    var f := DropFactor(LineScore(before, line));
    var (x, y) := LineAxes(before, line);
    WithLine(a, line, Unit(Scaled(x, f)), Unit(Scaled(y, f)))
  }

  /** `clear_line` */
  function Cleared(p: Balance, line: Line): Balance {
    if line == Bond then p.(trust := 0.0, intrigue := 0.0) else p.(intimacy := 0.0, tension := 0.0)
  }

  /** `apply_time_decay` over `days` days. */
  function TimeDecayed(a: Axes, days: real): Axes {
    if days <= 0.0 then a
    else a.(intrigue := Unit(a.intrigue - 0.01 * days), tension := Unit(a.tension - 0.005 * days))
  }

  // -------------------------------------------------- endpoints from the lines

  function EndpointBase(level: int): real {
    (if level < 1 then 0 else if level > 3 then 2 else level - 1) as real / 3.0
  }

  /** 1 + slope * (counterpart - 0.35), reaching 1.5 at a full counterpart. */
  function EndpointBoost(counterpart: real): real {
    1.0 + (0.5 / 0.65) * (counterpart - 0.35)
  }

  function MaxReal(a: real, b: real): real { if a >= b then a else b }

  /** `endpoint_value` */
  function EndpointValue(level: int, counterpart: real, decay: real, floorRatio: real): real {
    Unit(Scaled(MaxReal(EndpointBase(level) * EndpointBoost(counterpart), floorRatio * counterpart), decay))
  }

  /** `endpoint_time_decay` */
  function EndpointTimeDecay(days: real, rate: real, floor: real): real {
    MaxReal(1.0 - rate * Pos(days), floor)
  }

  /** The judge's stored levels of the two endpoints. */
  datatype Levels = Levels(warmth: int, patience: int)

  /** `refresh_endpoints`, `days` days after the last update. */
  function Refreshed(a: Axes, l: Levels, days: real, t: Tuning): Axes {
    var decay := EndpointTimeDecay(days, t.timeDecayRate, t.timeDecayFloor);
    a.(warmth := EndpointValue(l.warmth, LineScore(a, Chemistry), decay, t.floorRatio),
       patience := EndpointValue(l.patience, LineScore(a, Bond), decay, t.floorRatio))
  }

  // ----------------------------------------------------------- stored objects

  class AffinityRow {
    var warmth: real
    var trust: real
    var intrigue: real
    var intimacy: real
    var patience: real
    var tension: real
    var warmthGrade: int
    var patienceGrade: int

    constructor (a: Axes, l: Levels)
      ensures Value() == a && StoredLevels() == l
    {
      warmth, trust, intrigue := a.warmth, a.trust, a.intrigue;
      intimacy, patience, tension := a.intimacy, a.patience, a.tension;
      warmthGrade, patienceGrade := l.warmth, l.patience;
    }

    function StoredLevels(): Levels
      reads this
    {
      Levels(warmthGrade, patienceGrade)
    }

    function Value(): Axes
      reads this
    {
      Axes(warmth, trust, intrigue, intimacy, patience, tension)
    }

    method ApplyDeltas(d: Axes)
      modifies this
      ensures Value() == Applied(old(Value()), d)
      ensures StoredLevels() == old(StoredLevels())
    {
      warmth := Unit(warmth + d.warmth);
      trust := Unit(trust + d.trust);
      intrigue := Unit(intrigue + d.intrigue);
      intimacy := Unit(intimacy + d.intimacy);
      patience := Unit(patience + d.patience);
      tension := Unit(tension + d.tension);
    }

    method ApplyTimeDecay(days: real)
      modifies this
      ensures Value() == TimeDecayed(old(Value()), days)
      ensures StoredLevels() == old(StoredLevels())
    {
      if days <= 0.0 { return; }
      intrigue := Unit(intrigue - 0.01 * days);
      tension := Unit(tension - 0.005 * days);
    }

    method DropLineTier(before: Axes, line: Line)
      modifies this
      ensures Value() == Dropped(old(Value()), before, line)
      ensures StoredLevels() == old(StoredLevels())
    {
      var score := LineScore(before, line);
      var factor := DropFactor(score);
      match line
      case Bond =>
        trust := Unit(Scaled(before.trust, factor));
        intrigue := Unit(Scaled(before.intrigue, factor));
      case Chemistry =>
        intimacy := Unit(Scaled(before.intimacy, factor));
        tension := Unit(Scaled(before.tension, factor));
    }

    method RefreshEndpoints(days: real, t: Tuning)
      modifies this
      ensures Value() == Refreshed(old(Value()), StoredLevels(), days, t)
      ensures StoredLevels() == old(StoredLevels())
    {
      var decay := EndpointTimeDecay(days, t.timeDecayRate, t.timeDecayFloor);
      warmth := EndpointValue(warmthGrade, Unit((intimacy + tension) / 2.0), decay, t.floorRatio);
      patience := EndpointValue(patienceGrade, Unit((trust + intrigue) / 2.0), decay, t.floorRatio);
    }
  }

  class PendingDeltas {
    var trust: real
    var intrigue: real
    var intimacy: real
    var tension: real

    constructor (b: Balance)
      ensures Value() == b
    {
      trust, intrigue, intimacy, tension := b.trust, b.intrigue, b.intimacy, b.tension;
    }

    function Value(): Balance
      reads this
    {
      Balance(trust, intrigue, intimacy, tension)
    }

    method ClearLine(line: Line)
      modifies this
      ensures Value() == Cleared(old(Value()), line)
    {
      match line
      case Bond => trust := 0.0; intrigue := 0.0;
      case Chemistry => intimacy := 0.0; tension := 0.0;
    }
  }
}
