/** The persona's needs: levels that drift toward rest as hours pass, and the oracle that
    says when they next change. */
module Needs {
  import opened Text

  datatype NeedLevel = Low | Mid | High

  datatype Needs = Needs(hunger: NeedLevel, social: NeedLevel, stamina: NeedLevel,
                         emotional: NeedLevel, outing: NeedLevel, indulgence: NeedLevel)

  datatype Habits = Habits(smoking: Option<bool>, alcoholic: Option<bool>, drug: Option<bool>, coffee: Option<bool>)

  /** Where a need settles, and the hours one step takes. */
  datatype Pace = Pace(rest: NeedLevel, period: real)

  const HUNGER := Pace(High, 4.0)
  const SOCIAL := Pace(High, 12.0)
  const STAMINA := Pace(Mid, 8.0)
  const EMOTIONAL := Pace(Mid, 12.0)
  const OUTING := Pace(Mid, 8.0)

  /** `count_true`: every habit held counts once. */
  function CountTrue(h: Habits): nat {
    (if h.smoking == Some(true) then 1 else 0) + (if h.alcoholic == Some(true) then 1 else 0) +
    (if h.drug == Some(true) then 1 else 0) + (if h.coffee == Some(true) then 1 else 0)
  }

  function IndulgencePace(h: Habits): Pace {
    PaceFor(CountTrue(h))
  }

  function PaceFor(habits: nat): Pace {
    match habits
    case 0 => Pace(Mid, 8.0)
    case 1 => Pace(High, 12.0)
    case 2 => Pace(High, 8.0)
    case _ => Pace(High, 4.0)
  }

  function Rank(l: NeedLevel): int {
    match l case Low => 0 case Mid => 1 case High => 2
  }

  function FromRank(r: int): NeedLevel {
    if r <= 0 then Low else if r == 1 then Mid else High
  }

  function Min(a: int, b: int): int { if a <= b then a else b }

  /** Whole periods in a span, held in one signed byte (a larger count saturates). */
  function Steps(hours: real, period: real): int
    requires period > 0.0
  {
    Min((hours / period).Floor, 127)
  }

  /** `drift`: one level toward rest for every full period, stopping there. */
  function Drift(level: NeedLevel, pace: Pace, hours: real): NeedLevel
    requires pace.period > 0.0
  {
    if hours <= 0.0 then level
    else
      var (from, to) := (Rank(level), Rank(pace.rest));
      FromRank(if from < to then from + Min(Steps(hours, pace.period), to - from)
               else from - Min(Steps(hours, pace.period), from - to))
  }

  function Carried(rated: Needs, hours: real, habits: Habits): Needs {
    Needs(Drift(rated.hunger, HUNGER, hours),
          Drift(rated.social, SOCIAL, hours),
          Drift(rated.stamina, STAMINA, hours),
          Drift(rated.emotional, EMOTIONAL, hours),
          Drift(rated.outing, OUTING, hours),
          Drift(rated.indulgence, IndulgencePace(habits), hours))
  }

  /** `next_step`: when one need takes its next step; `None` at rest. */
  function NextStep(level: NeedLevel, pace: Pace, hours: real): Option<real>
    requires pace.period > 0.0
  {
    if Drift(level, pace, hours) == pace.rest then None
    else
      var done := ((if hours > 0.0 then hours else 0.0) / pace.period).Floor;
      Some((done as real + 1.0) * pace.period)
  }

  function Earlier(a: Option<real>, b: Option<real>): Option<real> {
    if a.None? then b else if b.None? || a.value <= b.value then a else b
  }

  /** `next_change`: the earliest next step of any need. */
  function NextChange(rated: Needs, hours: real, habits: Habits): Option<real> {
    Earlier(NextStep(rated.hunger, HUNGER, hours),
    Earlier(NextStep(rated.social, SOCIAL, hours),
    Earlier(NextStep(rated.stamina, STAMINA, hours),
    Earlier(NextStep(rated.emotional, EMOTIONAL, hours),
    Earlier(NextStep(rated.outing, OUTING, hours),
            NextStep(rated.indulgence, IndulgencePace(habits), hours))))))
  }

  // ------------------------------------------------------------------ one need

  function Distance(level: NeedLevel, pace: Pace): nat {
    if Rank(level) < Rank(pace.rest) then Rank(pace.rest) - Rank(level) else Rank(level) - Rank(pace.rest)
  }

  /** `n` levels toward rest, stopping there. */
  function Moved(level: NeedLevel, pace: Pace, n: nat): NeedLevel {
    var d := Min(n, Distance(level, pace));
    FromRank(if Rank(level) < Rank(pace.rest) then Rank(level) + d else Rank(level) - d)
  }

  /** The time at which the `n`th period ends. */
  function Mark(n: int, period: real): real {
    n as real * period
  }

  lemma MarkOrder(m: int, n: int, period: real)
    requires period > 0.0
    ensures m < n ==> Mark(m, period) < Mark(n, period)
  {
  }

  lemma MarkSum(m: int, n: int, period: real)
    ensures Mark(m + n, period) == Mark(m, period) + Mark(n, period)
  {
    assert (m + n) as real == m as real + n as real;
  }

  /** Full periods elapsed; none before the rating. */
  function Elapsed(hours: real, period: real): (n: nat)
    requires period > 0.0
    ensures hours > 0.0 ==> Mark(n, period) <= hours < Mark(n + 1, period)
    ensures hours <= 0.0 ==> n == 0
  {
    if hours <= 0.0 then 0
    else
      var n := (hours / period).Floor;
      FloorBounds(hours, hours / period, period);
      n
  }

  lemma FloorBounds(hours: real, q: real, period: real)
    requires hours > 0.0 && period > 0.0 && hours == q * period
    ensures q.Floor >= 0 && Mark(q.Floor, period) <= hours < Mark(q.Floor + 1, period)
  {
    Scale(q, 0.0, period);
    AtOrBelow(q.Floor, q, period, hours);
    Under(q, q.Floor + 1, period, hours);
  }

  lemma AtOrBelow(n: int, q: real, period: real, hours: real)
    requires period > 0.0 && n as real <= q && hours == q * period
    ensures Mark(n, period) <= hours
  {
    Scale(n as real, q, period);
  }

  lemma Under(q: real, n: int, period: real, hours: real)
    requires period > 0.0 && q < n as real && hours == q * period
    ensures hours < Mark(n, period)
  {
    Scale(q, n as real, period);
  }

  lemma Scale(a: real, b: real, p: real)
    requires p > 0.0
    ensures a <= b ==> a * p <= b * p
    ensures a < b ==> a * p < b * p
  {
  }

  lemma ElapsedIs(hours: real, period: real, n: nat)
    requires period > 0.0 && hours >= 0.0 && Mark(n, period) <= hours < Mark(n + 1, period)
    ensures Elapsed(hours, period) == n
  {
    var m := Elapsed(hours, period);
    MarkOrder(m + 1, n, period);
    MarkOrder(n + 1, m, period);
    MarkOrder(0, n, period);
    assert Mark(0, period) == 0.0 && (m < n ==> m + 1 == n || m + 1 < n) && (n < m ==> n + 1 == m || n + 1 < m);
  }

  lemma DriftIsMoved(level: NeedLevel, pace: Pace, hours: real)
    requires pace.period > 0.0
    ensures Drift(level, pace, hours) == Moved(level, pace, Elapsed(hours, pace.period))
    ensures Drift(level, pace, hours) == pace.rest <==> Elapsed(hours, pace.period) >= Distance(level, pace)
  {
  }

  /** How drift goes: one level nearer to rest for every full period, never past it, and
      never on the other side. */
  lemma DriftNears(level: NeedLevel, pace: Pace, hours: real, n: nat)
    requires pace.period > 0.0 && 0.0 <= hours && n as real * pace.period <= hours < (n + 1) as real * pace.period
    ensures var to := Drift(level, pace, hours);
            && Distance(to, pace) == (if n >= Distance(level, pace) then 0 else Distance(level, pace) - n)
            && (Rank(level) <= Rank(pace.rest) ==> Rank(level) <= Rank(to) <= Rank(pace.rest))
            && (Rank(level) >= Rank(pace.rest) ==> Rank(level) >= Rank(to) >= Rank(pace.rest))
  {
    ElapsedIs(hours, pace.period, n);
    DriftIsMoved(level, pace, hours);
  }

  /** The more habits, the sooner the urge rests high; without any it rests in the middle. */
  lemma HabitsHasten(m: nat, n: nat)
    requires m < n
    ensures PaceFor(0).rest == Mid && PaceFor(n).rest == High
    ensures 4.0 <= PaceFor(n).period && (m > 0 ==> PaceFor(n).period <= PaceFor(m).period)
    ensures 0 < m < 3 ==> PaceFor(n).period < PaceFor(m).period
  {
  }

  /** Every habit held counts once, and nothing else does. */
  lemma EveryHabitCounts(h: Habits)
    ensures CountTrue(h) == multiset([h.smoking, h.alcoholic, h.drug, h.coffee])[Some(true)]
    ensures IndulgencePace(h) == PaceFor(CountTrue(h))
  {
  }

  /** More elapsed periods at a later time; exactly `n` until the next multiple. */
  lemma ElapsedUntil(hours: real, later: real, period: real)
    requires period > 0.0 && hours <= later
    ensures var n := Elapsed(hours, period);
            && (later < Mark(n + 1, period) ==> Elapsed(later, period) == n)
            && (later == Mark(n + 1, period) ==> Elapsed(later, period) == n + 1)
            && n <= Elapsed(later, period)
  {
    var n, m := Elapsed(hours, period), Elapsed(later, period);
    assert Mark(0, period) == 0.0;
    MarkOrder(0, n + 1, period);
    MarkOrder(n + 1, n + 2, period);
    MarkOrder(m + 1, n, period);
    if later > 0.0 && later < Mark(n + 1, period) { ElapsedIs(later, period, n); }
    if later == Mark(n + 1, period) { ElapsedIs(later, period, n + 1); }
  }

  lemma NextStepIs(level: NeedLevel, pace: Pace, hours: real)
    requires pace.period > 0.0
    ensures NextStep(level, pace, hours) ==
            if Elapsed(hours, pace.period) >= Distance(level, pace) then None
            else Some(Mark(Elapsed(hours, pace.period) + 1, pace.period))
  {
    DriftIsMoved(level, pace, hours);
    if hours <= 0.0 { assert 0.0 / pace.period == 0.0; }
  }

  /** A prophecy made at `hours` holds at `u`: nothing has changed before the time named, and
      something has at it; `None` says nothing ever changes. */
  predicate Foretells(step: Option<real>, hours: real, u: real, same: bool) {
    match step
    case None => same
    case Some(t) => hours < t && (u < t ==> same) && (u == t ==> !same)
  }

  lemma EarlierForetells(a: Option<real>, b: Option<real>, hours: real, u: real, p: bool, q: bool)
    requires Foretells(a, hours, u, p) && Foretells(b, hours, u, q)
    ensures Foretells(Earlier(a, b), hours, u, p && q)
  {
  }

  /** One need's oracle is exact. */
  lemma NextStepExact(level: NeedLevel, pace: Pace, hours: real, u: real)
    requires pace.period > 0.0 && hours <= u
    ensures Foretells(NextStep(level, pace, hours), hours, u, Drift(level, pace, u) == Drift(level, pace, hours))
  {
    var p := pace.period;
    var n := Elapsed(hours, p);
    DriftIsMoved(level, pace, hours);
    DriftIsMoved(level, pace, u);
    ElapsedUntil(hours, u, p);
    NextStepIs(level, pace, hours);
    MarkOrder(0, n + 1, p);
  }

  // ----------------------------------------------------------------- all needs

  /** The oracle is exact: `None` only if nothing ever changes again, otherwise the first
      later time at which the carried levels differ. */
  lemma NextChangeExact(rated: Needs, hours: real, habits: Habits, u: real)
    requires hours <= u
    ensures Foretells(NextChange(rated, hours, habits), hours, u,
                      Carried(rated, u, habits) == Carried(rated, hours, habits))
  {
    NextStepExact(rated.hunger, HUNGER, hours, u);
    NextStepExact(rated.social, SOCIAL, hours, u);
    NextStepExact(rated.stamina, STAMINA, hours, u);
    NextStepExact(rated.emotional, EMOTIONAL, hours, u);
    NextStepExact(rated.outing, OUTING, hours, u);
    NextStepExact(rated.indulgence, IndulgencePace(habits), hours, u);
    var now, later := Carried(rated, hours, habits), Carried(rated, u, habits);
    var f := NextStep(rated.indulgence, IndulgencePace(habits), hours);
    var e := Earlier(NextStep(rated.outing, OUTING, hours), f);
    var d := Earlier(NextStep(rated.emotional, EMOTIONAL, hours), e);
    var c := Earlier(NextStep(rated.stamina, STAMINA, hours), d);
    var b := Earlier(NextStep(rated.social, SOCIAL, hours), c);
    var e1 := later.outing == now.outing && later.indulgence == now.indulgence;
    var d1 := later.emotional == now.emotional && e1;
    var c1 := later.stamina == now.stamina && d1;
    var b1 := later.social == now.social && c1;
    EarlierForetells(NextStep(rated.outing, OUTING, hours), f, hours, u,
                     later.outing == now.outing, later.indulgence == now.indulgence);
    EarlierForetells(NextStep(rated.emotional, EMOTIONAL, hours), e, hours, u, later.emotional == now.emotional, e1);
    EarlierForetells(NextStep(rated.stamina, STAMINA, hours), d, hours, u, later.stamina == now.stamina, d1);
    EarlierForetells(NextStep(rated.social, SOCIAL, hours), c, hours, u, later.social == now.social, c1);
    EarlierForetells(NextStep(rated.hunger, HUNGER, hours), b, hours, u, later.hunger == now.hunger, b1);
  }

  /** The hours at which anything can change. */
  predicate IsMark(t: real) {
    t == 4.0 || t == 8.0 || t == 12.0 || t == 16.0 || t == 24.0
  }

  lemma StepAtMark(level: NeedLevel, pace: Pace, hours: real)
    requires pace.period == 4.0 || pace.period == 8.0 || (pace.period == 12.0)
    ensures NextStep(level, pace, hours).Some? ==> IsMark(NextStep(level, pace, hours).value)
  {
    NextStepIs(level, pace, hours);
    assert Distance(level, pace) <= 2;
  }

  lemma ChangeAtMark(rated: Needs, hours: real, habits: Habits)
    ensures NextChange(rated, hours, habits).Some? ==> IsMark(NextChange(rated, hours, habits).value)
  {
    StepAtMark(rated.hunger, HUNGER, hours);
    StepAtMark(rated.social, SOCIAL, hours);
    StepAtMark(rated.stamina, STAMINA, hours);
    StepAtMark(rated.emotional, EMOTIONAL, hours);
    StepAtMark(rated.outing, OUTING, hours);
    StepAtMark(rated.indulgence, IndulgencePace(habits), hours);
  }

  /** The times `NextChange` names when asked again from each answer. */
  predicate IsChain(rated: Needs, hours: real, habits: Habits, ts: seq<real>)
    decreases |ts|
  {
    ts == [] ||
    (NextChange(rated, hours, habits) == Some(ts[0]) && IsChain(rated, ts[0], habits, ts[1..]))
  }

  function MarksAfter(hours: real): nat {
    (if hours < 4.0 then 1 else 0) + (if hours < 8.0 then 1 else 0) + (if hours < 12.0 then 1 else 0) +
    (if hours < 16.0 then 1 else 0) + (if hours < 24.0 then 1 else 0)
  }

  /** Following the oracle ends within five steps, whatever the levels and habits. */
  lemma {:induction false} ChainIsShort(rated: Needs, hours: real, habits: Habits, ts: seq<real>)
    requires IsChain(rated, hours, habits, ts)
    ensures |ts| <= MarksAfter(hours) <= 5
    decreases |ts|
  {
    if ts != [] {
      NextChangeExact(rated, hours, habits, hours);
      ChangeAtMark(rated, hours, habits);
      ChainIsShort(rated, ts[0], habits, ts[1..]);
    }
  }

  const ALL_LOW: Needs := Needs(Low, Low, Low, Low, Low, Low)
  const TWO_HABITS: Habits := Habits(Some(true), Some(true), None, None)

  lemma EarlyChanges()
    ensures NextChange(ALL_LOW, 0.0, TWO_HABITS) == Some(4.0)
    ensures NextChange(ALL_LOW, 4.0, TWO_HABITS) == Some(8.0)
  {
  }

  lemma MiddleChange()
    ensures NextChange(ALL_LOW, 8.0, TWO_HABITS) == Some(12.0)
  {
  }

  lemma LateChanges()
    ensures NextChange(ALL_LOW, 12.0, TWO_HABITS) == Some(16.0)
    ensures NextChange(ALL_LOW, 16.0, TWO_HABITS) == Some(24.0)
  {
  }

  lemma ChainGrows(rated: Needs, hours: real, habits: Habits, t: real, ts: seq<real>)
    requires NextChange(rated, hours, habits) == Some(t) && IsChain(rated, t, habits, ts)
    ensures IsChain(rated, hours, habits, [t] + ts)
  {
    assert ([t] + ts)[1..] == ts;
  }

  /** Five is reached: everything low, two habits. */
  lemma ChainOfFive()
    ensures IsChain(ALL_LOW, 0.0, TWO_HABITS, [4.0, 8.0, 12.0, 16.0, 24.0])
  {
    EarlyChanges();
    MiddleChange();
    LateChanges();
    ChainGrows(ALL_LOW, 16.0, TWO_HABITS, 24.0, []);
    ChainGrows(ALL_LOW, 12.0, TWO_HABITS, 16.0, [24.0]);
    ChainGrows(ALL_LOW, 8.0, TWO_HABITS, 12.0, [16.0, 24.0]);
    ChainGrows(ALL_LOW, 4.0, TWO_HABITS, 8.0, [12.0, 16.0, 24.0]);
    ChainGrows(ALL_LOW, 0.0, TWO_HABITS, 4.0, [8.0, 12.0, 16.0, 24.0]);
    assert [4.0] + [8.0, 12.0, 16.0, 24.0] == [4.0, 8.0, 12.0, 16.0, 24.0];
  }

  // ------------------------------------------------------- carrying in two spans

  lemma ElapsedSum(period: real, k: nat, hours: real)
    requires period > 0.0 && hours >= 0.0
    ensures Elapsed(Mark(k, period) + hours, period) == k + Elapsed(hours, period)
  {
    var n := Elapsed(hours, period);
    assert Mark(0, period) == 0.0;
    MarkOrder(0, 1, period);
    MarkOrder(0, k, period);
    MarkSum(k, n, period);
    MarkSum(k, n + 1, period);
    ElapsedIs(Mark(k, period) + hours, period, k + n);
  }

  lemma MovedTwice(level: NeedLevel, pace: Pace, k: nat, n: nat)
    ensures Moved(Moved(level, pace, k), pace, n) == Moved(level, pace, k + n)
  {
  }

  lemma DriftTwice(level: NeedLevel, pace: Pace, k: nat, hours: real, whole: real)
    requires pace.period > 0.0 && hours >= 0.0 && whole == Mark(k, pace.period)
    ensures Drift(Drift(level, pace, whole), pace, hours) == Drift(level, pace, whole + hours)
  {
    ElapsedSum(pace.period, k, hours);
    ElapsedSum(pace.period, k, 0.0);
    DriftIsMoved(level, pace, whole);
    DriftIsMoved(level, pace, whole + hours);
    DriftIsMoved(Drift(level, pace, whole), pace, hours);
    MovedTwice(level, pace, k, Elapsed(hours, pace.period));
  }

  lemma DaysAreMarks(k: nat, days: nat, period: real)
    requires k as real * period == 24.0
    ensures 24.0 * days as real == Mark(k * days, period)
  {
    assert (k * days) as real == k as real * days as real;
    assert (k as real * days as real) * period == (k as real * period) * days as real;
  }

  lemma DriftOverDays(level: NeedLevel, pace: Pace, k: nat, days: nat, hours: real)
    requires pace.period > 0.0 && k as real * pace.period == 24.0 && hours >= 0.0
    ensures Drift(Drift(level, pace, 24.0 * days as real), pace, hours) == Drift(level, pace, 24.0 * days as real + hours)
  {
    DaysAreMarks(k, days, pace.period);
    DriftTwice(level, pace, k * days, hours, 24.0 * days as real);
  }

  /** A day is a whole number of every need's periods. */
  lemma DriftDays(level: NeedLevel, pace: Pace, days: nat, hours: real)
    requires pace.period == 4.0 || pace.period == 8.0 || pace.period == 12.0
    requires hours >= 0.0
    ensures Drift(Drift(level, pace, 24.0 * days as real), pace, hours) == Drift(level, pace, 24.0 * days as real + hours)
  {
    DriftOverDays(level, pace, if pace.period == 4.0 then 6 else if pace.period == 8.0 then 3 else 2, days, hours);
  }

  /** Carrying whole days and then some hours is carrying both at once. */
  lemma CarriedTwice(rated: Needs, days: nat, hours: real, habits: Habits)
    requires hours >= 0.0
    ensures Carried(Carried(rated, 24.0 * days as real, habits), hours, habits)
            == Carried(rated, 24.0 * days as real + hours, habits)
  {
    DriftDays(rated.hunger, HUNGER, days, hours);
    DriftDays(rated.social, SOCIAL, days, hours);
    DriftDays(rated.stamina, STAMINA, days, hours);
    DriftDays(rated.emotional, EMOTIONAL, days, hours);
    DriftDays(rated.outing, OUTING, days, hours);
    DriftDays(rated.indulgence, IndulgencePace(habits), days, hours);
  }
}
