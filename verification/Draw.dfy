/** The draw: which life event happens now, if any. Times are minutes. */
module Draw {
  import opened Text
  import opened Needs
  import opened Weighted
  import opened LifeEvents

  datatype PastEvent = PastEvent(kind: EventKind, startedAt: int, endsAt: int)

  datatype DrawInput = DrawInput(now: int, needs: Option<Needs>, rung: int, persona: Persona,
                                 history: seq<PastEvent>, allowed: seq<EventKind>, everHadSex: bool)

  datatype Rolls = Rolls(category: real, kind: real, duration: real)

  /** The kind drawn and how many minutes it lasts. */
  datatype Drawn = Drawn(kind: EventKind, lasts: int)

  predicate UnderWay(e: PastEvent, now: int) { e.endsAt > now }

  predicate ForegroundUnderWay(history: seq<PastEvent>, now: int) {
    exists j :: 0 <= j < |history| && UnderWay(history[j], now) && !IsBackground(history[j].kind)
  }

  /** The first background under way. */
  function Background(history: seq<PastEvent>, now: int): Option<EventKind> {
    if history == [] then None
    else if UnderWay(history[0], now) && IsBackground(history[0].kind) then Some(history[0].kind)
    else Background(history[1..], now)
  }

  predicate Cooling(startedAt: int, hours: int, now: int) {
    startedAt + 60 * hours > now
  }

  /** Some event of kind `k` started in the last `hours`. */
  predicate KindWithin(k: EventKind, hours: int, history: seq<PastEvent>, now: int) {
    exists j :: 0 <= j < |history| && history[j].kind == k && Cooling(history[j].startedAt, hours, now)
  }

  predicate KindCooling(k: EventKind, history: seq<PastEvent>, now: int) {
    KindWithin(k, RuleOf(k).cooldownHours, history, now)
  }

  predicate CategoryCooling(c: EventCategory, history: seq<PastEvent>, now: int) {
    exists j :: 0 <= j < |history| && Category(history[j].kind) == c &&
                Cooling(history[j].startedAt, CategoryCooldown(c), now)
  }

  predicate OfflineCooling(p: Persona, history: seq<PastEvent>, now: int) {
    exists j :: 0 <= j < |history| && IsOffline(history[j].kind, p) &&
                Cooling(history[j].startedAt, OFFLINE_COOLDOWN_HOURS, now)
  }

  predicate IsEligible(k: EventKind, input: DrawInput) {
    && k in input.allowed
    && PassesGate(k, input.rung, input.persona)
    && !KindCooling(k, input.history, input.now)
    && !CategoryCooling(Category(k), input.history, input.now)
    && (IsOffline(k, input.persona) ==> !OfflineCooling(input.persona, input.history, input.now))
    && match Background(input.history, input.now) {
         case Some(b) => !IsBackground(k) && !RulesOut(b, k)
         case None => true
       }
  }

  /** The eligible kinds, in draw order. */
  function Eligible(ks: seq<EventKind>, input: DrawInput): (es: seq<EventKind>)
    ensures forall k :: k in es <==> k in ks && IsEligible(k, input)
  {
    if ks == [] then []
    else (if IsEligible(ks[0], input) then [ks[0]] else []) + Eligible(ks[1..], input)
  }

  /** What makes a kind likelier: ended at most two days ago, or not yet. */
  predicate IsLivePrior(e: PastEvent, k: EventKind, now: int) {
    e.endsAt > now - 60 * FOLLOW_WINDOW_HOURS && Follows(e.kind, k)
  }

  /** The kinds of `k`'s live priors. Sorting the list and dropping adjacent repeats leaves
      one of each. */
  function LivePriors(k: EventKind, history: seq<PastEvent>, now: int): set<EventKind> {
    set j | 0 <= j < |history| && IsLivePrior(history[j], k, now) :: history[j].kind
  }

  function Power(x: real, n: nat): real {
    if n == 0 then 1.0 else x * Power(x, n - 1)
  }

  function FollowFactor(k: EventKind, history: seq<PastEvent>, now: int): real {
    Power(FOLLOW_FACTOR, |LivePriors(k, history, now)|)
  }

  function Product(xs: seq<real>): real {
    if xs == [] then 1.0 else xs[0] * Product(xs[1..])
  }

  /** A kind's weight within its category. */
  function KindWeight(k: EventKind, input: DrawInput): real {
    Product(Factors(k, input))
  }

  function Factors(k: EventKind, input: DrawInput): seq<real> {
    FactorsWith(k, input.needs, input.persona, input.everHadSex, FollowFactor(k, input.history, input.now))
  }

  function FactorsWith(k: EventKind, needs: Option<Needs>, p: Persona, everHadSex: bool, follow: real): seq<real> {
    [
      RuleOf(k).weight,
      NeedsFactor(k, needs),
      IndulgenceFactor(k, needs),
      PreferenceFactor(k, p),
      follow,
      PriorFactor(k, p, everHadSex),
      HomesickFactor(k, p),
      SexAddictFactor(k, p)
    ]
  }

  function CategoryShare(c: EventCategory, p: Persona): real {
    CategoryWeight(c) * CategoryFactor(c, p)
  }

  predicate HasKind(c: EventCategory, eligible: seq<EventKind>) {
    exists j :: 0 <= j < |eligible| && Category(eligible[j]) == c
  }

  /** The categories with an eligible kind. */
  function Present(cs: seq<EventCategory>, eligible: seq<EventKind>): (ps: seq<EventCategory>)
    ensures forall c :: c in ps <==> c in cs && HasKind(c, eligible)
  {
    if cs == [] then []
    else (if HasKind(cs[0], eligible) then [cs[0]] else []) + Present(cs[1..], eligible)
  }

  /** The eligible kinds of one category. */
  function OfCategory(eligible: seq<EventKind>, c: EventCategory): (ks: seq<EventKind>)
    ensures forall k :: k in ks <==> k in eligible && Category(k) == c
  {
    if eligible == [] then []
    else (if Category(eligible[0]) == c then [eligible[0]] else []) + OfCategory(eligible[1..], c)
  }

  function CategoryShares(p: Persona): EventCategory -> real { c => CategoryShare(c, p) }

  function KindShares(input: DrawInput): EventKind -> real { k => KindWeight(k, input) }

  function CategoryWeights(eligible: seq<EventKind>, p: Persona): Weights<EventCategory> {
    Weigh(Present(CATEGORIES, eligible), CategoryShares(p))
  }

  function KindWeights(eligible: seq<EventKind>, c: EventCategory, input: DrawInput): Weights<EventKind> {
    Weigh(OfCategory(eligible, c), KindShares(input))
  }

  function LengthOf(k: EventKind, roll: real): int {
    LengthIn(RuleOf(k).lasts, roll)
  }

  function StepIn(lo: int, hi: int, roll: real): int {
    (Clamp01(roll) * (hi - lo + 1) as real).Floor
  }

  function LengthIn(lasts: Lasts, roll: real): int {
    match lasts
    case Minutes(m) => m
    case Hours(lo, hi) =>
      var step := StepIn(lo, hi, roll);
      60 * (lo + if step <= hi - lo then step else hi - lo)
  }

  /** `draw` */
  function DrawEvent(input: DrawInput, rolls: Rolls): Option<Drawn> {
    if ForegroundUnderWay(input.history, input.now) then None
    else
      var eligible := Eligible(ALL, input);
      match Pick(CategoryWeights(eligible, input.persona), rolls.category)
      case None => None
      case Some(c) =>
        match Pick(KindWeights(eligible, c, input), rolls.kind)
        case None => None
        case Some(k) => Some(Drawn(k, LengthOf(k, rolls.duration)))
  }

  // ------------------------------------------------- when, which, how long

  lemma {:induction false} PowerPositive(x: real, n: nat)
    requires x > 0.0
    ensures Power(x, n) > 0.0
  {
    if n > 0 {
      PowerPositive(x, n - 1);
      ProductPositive(x, Power(x, n - 1));
    }
  }

  lemma ProductPositive(a: real, b: real)
    requires a > 0.0 && b > 0.0
    ensures a * b > 0.0
  {
  }

  lemma RuleWeightPositive(k: EventKind)
    requires !IsSpecial(k)
    ensures RuleOf(k).weight > 0.0
  {
  }

  lemma NeedsFactorPositive(k: EventKind, needs: Option<Needs>)
    ensures NeedsFactor(k, needs) > 0.0
  {
  }

  lemma FactorsPositive(k: EventKind, input: DrawInput)
    requires !IsSpecial(k)
    ensures RuleOf(k).weight > 0.0 && NeedsFactor(k, input.needs) > 0.0 && IndulgenceFactor(k, input.needs) > 0.0
    ensures PreferenceFactor(k, input.persona) > 0.0 && FollowFactor(k, input.history, input.now) > 0.0
    ensures PriorFactor(k, input.persona, input.everHadSex) > 0.0
    ensures HomesickFactor(k, input.persona) > 0.0 && SexAddictFactor(k, input.persona) > 0.0
  {
    RuleWeightPositive(k);
    NeedsFactorPositive(k, input.needs);
    PowerPositive(FOLLOW_FACTOR, |LivePriors(k, input.history, input.now)|);
  }

  lemma {:induction false} PositiveProduct(xs: seq<real>)
    requires forall j :: 0 <= j < |xs| ==> xs[j] > 0.0
    ensures Product(xs) > 0.0
  {
    if xs != [] {
      PositiveProduct(xs[1..]);
      ProductPositive(xs[0], Product(xs[1..]));
    }
  }

  lemma KindWeightPositive(k: EventKind, input: DrawInput)
    requires !IsSpecial(k)
    ensures KindWeight(k, input) > 0.0
  {
    FactorsPositive(k, input);
    PositiveProduct(Factors(k, input));
  }

  lemma EligibleOrdinary(input: DrawInput)
    ensures forall k :: k in Eligible(ALL, input) ==> !IsSpecial(k)
  {
    forall k | k in Eligible(ALL, input) ensures !IsSpecial(k) { DrawableExactlyWhen(k); }
  }

  lemma CategoryListed(c: EventCategory)
    ensures c in CATEGORIES
  {
    assert CATEGORIES[0] == Short && CATEGORIES[1] == MidLength && CATEGORIES[2] == Body && CATEGORIES[3] == Trip;
  }

  lemma CategoryWeightsPositive(eligible: seq<EventKind>, p: Persona)
    ensures AllPositive(Weigh(Present(CATEGORIES, eligible), CategoryShares(p)))
  {
    var ws := Weigh(Present(CATEGORIES, eligible), CategoryShares(p));
    forall j | 0 <= j < |ws| ensures ws[j].1 > 0.0 {
      ProductPositive(CategoryWeight(ws[j].0), CategoryFactor(ws[j].0, p));
    }
  }

  lemma KindWeightsPositive(eligible: seq<EventKind>, c: EventCategory, input: DrawInput)
    requires forall k :: k in eligible ==> !IsSpecial(k)
    ensures AllPositive(Weigh(OfCategory(eligible, c), KindShares(input)))
  {
    var ws := Weigh(OfCategory(eligible, c), KindShares(input));
    forall j | 0 <= j < |ws| ensures ws[j].1 > 0.0 {
      assert ws[j].0 in OfCategory(eligible, c);
      KindWeightPositive(ws[j].0, input);
    }
  }

  lemma PickFrom<T>(xs: seq<T>, w: T -> real, roll: real)
    requires AllPositive(Weigh(xs, w)) && Pick(Weigh(xs, w), roll).Some?
    ensures Pick(Weigh(xs, w), roll).value in xs
  {
    PicksWhenWeighty(Weigh(xs, w), roll);
  }

  lemma PickSome<T>(xs: seq<T>, w: T -> real, roll: real)
    requires AllPositive(Weigh(xs, w))
    ensures Pick(Weigh(xs, w), roll).Some? <==> xs != []
  {
    PicksWhenWeighty(Weigh(xs, w), roll);
    if xs != [] { assert Weigh(xs, w)[0].1 > 0.0; }
  }

  lemma {:induction false} NonePresent(cs: seq<EventCategory>)
    ensures Present(cs, []) == []
  {
    if cs != [] { NonePresent(cs[1..]); }
  }

  lemma CategoryPicked(eligible: seq<EventKind>, p: Persona, roll: real)
    ensures var c := Pick(CategoryWeights(eligible, p), roll);
            (c.Some? <==> eligible != []) && (c.Some? ==> HasKind(c.value, eligible))
  {
    var present := Present(CATEGORIES, eligible);
    CategoryWeightsPositive(eligible, p);
    PickSome(present, CategoryShares(p), roll);
    if eligible != [] {
      assert HasKind(Category(eligible[0]), eligible);
      CategoryListed(Category(eligible[0]));
      assert Category(eligible[0]) in present;
      PickFrom(present, CategoryShares(p), roll);
    } else {
      NonePresent(CATEGORIES);
    }
  }

  lemma KindPicked(eligible: seq<EventKind>, c: EventCategory, input: DrawInput, roll: real)
    requires HasKind(c, eligible) && forall k :: k in eligible ==> !IsSpecial(k)
    ensures var k := Pick(KindWeights(eligible, c, input), roll); k.Some? && k.value in eligible
  {
    var j :| 0 <= j < |eligible| && Category(eligible[j]) == c;
    assert eligible[j] in OfCategory(eligible, c);
    KindWeightsPositive(eligible, c, input);
    PickSome(OfCategory(eligible, c), KindShares(input), roll);
    PickFrom(OfCategory(eligible, c), KindShares(input), roll);
  }

  /** Whatever is drawn was eligible, no foreground was under way, and its length is one
      its kind allows. */
  lemma DrawnIsEligible(input: DrawInput, rolls: Rolls)
    requires DrawEvent(input, rolls).Some?
    ensures var d := DrawEvent(input, rolls).value;
            && !ForegroundUnderWay(input.history, input.now)
            && d.kind in ALL && IsEligible(d.kind, input)
            && d.lasts == LengthOf(d.kind, rolls.duration)
  {
    var eligible := Eligible(ALL, input);
    EligibleOrdinary(input);
    CategoryPicked(eligible, input.persona, rolls.category);
    KindPicked(eligible, Pick(CategoryWeights(eligible, input.persona), rolls.category).value, input, rolls.kind);
  }

  /** The draw comes up empty exactly when a foreground is under way or no kind is
      eligible, whatever is rolled. */
  lemma EmptyExactlyWhen(input: DrawInput, rolls: Rolls)
    ensures DrawEvent(input, rolls).None? <==>
            ForegroundUnderWay(input.history, input.now) || forall k :: k in ALL ==> !IsEligible(k, input)
  {
    var eligible := Eligible(ALL, input);
    assert eligible == [] <==> forall k :: k in ALL ==> !IsEligible(k, input) by { NoneEligible(input); }
    if eligible == [] { NothingToDraw(input, rolls); } else { SomethingDrawn(input, rolls); }
  }

  lemma NoneEligible(input: DrawInput)
    ensures Eligible(ALL, input) == [] <==> forall k :: k in ALL ==> !IsEligible(k, input)
  {
    var eligible := Eligible(ALL, input);
    if eligible != [] { assert eligible[0] in eligible; }
    forall k | k in ALL && IsEligible(k, input) ensures eligible != [] { assert k in eligible; }
  }

  lemma NothingToDraw(input: DrawInput, rolls: Rolls)
    requires Eligible(ALL, input) == []
    ensures DrawEvent(input, rolls).None?
  {
    CategoryPicked([], input.persona, rolls.category);
  }

  lemma SomethingDrawn(input: DrawInput, rolls: Rolls)
    requires Eligible(ALL, input) != []
    ensures DrawEvent(input, rolls).Some? <==> !ForegroundUnderWay(input.history, input.now)
  {
    var eligible := Eligible(ALL, input);
    EligibleOrdinary(input);
    CategoryPicked(eligible, input.persona, rolls.category);
    KindPicked(eligible, Pick(CategoryWeights(eligible, input.persona), rolls.category).value, input, rolls.kind);
  }

  lemma RollForItem<T>(xs: seq<T>, w: T -> real, x: T) returns (roll: real)
    requires x in xs && AllPositive(Weigh(xs, w))
    ensures 0.0 <= roll < 1.0 && Pick(Weigh(xs, w), roll) == Some(x)
  {
    var i :| 0 <= i < |xs| && xs[i] == x;
    roll := RollFor(Weigh(xs, w), i);
  }

  lemma RollForCategory(eligible: seq<EventKind>, c: EventCategory, p: Persona) returns (roll: real)
    requires HasKind(c, eligible)
    ensures 0.0 <= roll < 1.0 && Pick(CategoryWeights(eligible, p), roll) == Some(c)
  {
    CategoryListed(c);
    CategoryWeightsPositive(eligible, p);
    roll := RollForItem(Present(CATEGORIES, eligible), CategoryShares(p), c);
  }

  lemma RollForKind(eligible: seq<EventKind>, k: EventKind, input: DrawInput) returns (roll: real)
    requires k in eligible && forall k :: k in eligible ==> !IsSpecial(k)
    ensures 0.0 <= roll < 1.0 && Pick(KindWeights(eligible, Category(k), input), roll) == Some(k)
  {
    KindWeightsPositive(eligible, Category(k), input);
    roll := RollForItem(OfCategory(eligible, Category(k)), KindShares(input), k);
  }

  /** No eligible kind is out of reach: some rolls in [0, 1) draw it. */
  lemma EveryEligibleKindDrawn(input: DrawInput, k: EventKind, duration: real) returns (rolls: Rolls)
    requires k in ALL && IsEligible(k, input) && !ForegroundUnderWay(input.history, input.now)
    ensures 0.0 <= rolls.category < 1.0 && 0.0 <= rolls.kind < 1.0 && rolls.duration == duration
    ensures DrawEvent(input, rolls) == Some(Drawn(k, LengthOf(k, duration)))
  {
    var eligible := Eligible(ALL, input);
    EligibleOrdinary(input);
    assert k in eligible;
    assert HasKind(Category(k), eligible) by {
      var j :| 0 <= j < |eligible| && eligible[j] == k;
    }
    var category := RollForCategory(eligible, Category(k), input.persona);
    var kind := RollForKind(eligible, k, input);
    rolls := Rolls(category, kind, duration);
  }

  predicate IsLength(lasts: Lasts) {
    match lasts
    case Minutes(m) => 0 < m
    case Hours(lo, hi) => 1 <= lo <= hi
  }

  lemma LengthBounds(k: EventKind)
    ensures IsLength(RuleOf(k).lasts)
  {
  }

  /** A length lies between its kind's bounds and never exceeds the kind's longest. */
  lemma LengthInRange(k: EventKind, roll: real)
    ensures 0 < LengthOf(k, roll) <= MaxMinutes(k)
    ensures RuleOf(k).lasts.Hours? ==> 60 * RuleOf(k).lasts.lo <= LengthOf(k, roll) <= 60 * RuleOf(k).lasts.hi
  {
    LengthBounds(k);
    LengthInBounds(RuleOf(k).lasts, roll);
  }

  lemma LengthInBounds(lasts: Lasts, roll: real)
    requires IsLength(lasts)
    ensures 0 < LengthIn(lasts, roll) <= LongestOf(lasts)
    ensures lasts.Hours? ==> 60 * lasts.lo <= LengthIn(lasts, roll) <= 60 * lasts.hi
    ensures lasts.Minutes? ==> LengthIn(lasts, roll) == lasts.m
  {
    if lasts.Hours? { StepInSpan(Clamp01(roll), (lasts.hi - lasts.lo + 1) as real); }
  }

  lemma StepInSpan(x: real, span: real)
    requires 0.0 <= x && span > 0.0
    ensures 0 <= (x * span).Floor
  {
    assert 0.0 <= x * span;
  }

  /** Every whole hour between the bounds is reached by some roll in [0, 1). */
  lemma EveryLengthReached(k: EventKind, hours: int) returns (roll: real)
    requires RuleOf(k).lasts.Hours? && RuleOf(k).lasts.lo <= hours <= RuleOf(k).lasts.hi
    ensures 0.0 <= roll < 1.0 && LengthOf(k, roll) == 60 * hours
  {
    var lasts := RuleOf(k).lasts;
    roll := RollForStep(lasts.lo, lasts.hi, hours - lasts.lo);
    StepIsLength(lasts, roll, hours);
  }

  lemma StepIsLength(lasts: Lasts, roll: real, hours: int)
    requires lasts.Hours? && hours <= lasts.hi && StepIn(lasts.lo, lasts.hi, roll) == hours - lasts.lo
    ensures LengthIn(lasts, roll) == 60 * hours
  {
  }

  lemma RollForStep(lo: int, hi: int, step: int) returns (roll: real)
    requires 0 <= step <= hi - lo
    ensures 0.0 <= roll < 1.0 && StepIn(lo, hi, roll) == step
  {
    var a, span := step as real, (hi - lo + 1) as real;
    roll := a / span;
    ShareBack(a, span);
  }
}
