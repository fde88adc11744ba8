/** The catalogue of life events: kinds, categories, and the tables a draw reads. */
module LifeEvents {
  import opened Text
  import opened Needs

  const DAY: int := 24

  datatype EventCategory = Short | MidLength | Body | Trip

  datatype EventKind =
    | PoliceEncounter | AnimalEncounter | HitSomeone | SuddenDesire | GroceryShopping | Showering | Bathing
    | InClass | OnTheWay | PeriodScare | PregnancyScare | GotBumped | BumpedSomeone | Quarrel
    | ScoldedBySuperior | ScoldedSuperior | SawBag | SawClothes | AdmiringScenery | AdmiringArt | TakingSelfie
    | TempWork | ExMessage | WeatherChange | GotHit | Breakup | WorkingOut | Reading | Gaming | AwayFromPhone
    | Unwell | Irritable | Busy | InBattle | Asleep | OutShopping | BrosGathering | SisGathering | OnTheRoad
    | WatchingMatch | WatchingShow | HavingSex | WantToGoOut | WantToGoHome | Sick | Period | Hospitalized
    | PostSurgery | BusinessTrip | ShortTrip | LongTrip | HometownVisit | TakingSpace | FellOut

  const CATEGORIES: seq<EventCategory> := [Short, MidLength, Body, Trip]

  /** Every drawable kind, in draw order: category by category. */
  const SHORT_KINDS: seq<EventKind> := [
    PoliceEncounter, AnimalEncounter, HitSomeone, SuddenDesire, GroceryShopping, Showering, Bathing, InClass,
    OnTheWay, PeriodScare, PregnancyScare, GotBumped, BumpedSomeone, Quarrel, ScoldedBySuperior,
    ScoldedSuperior, SawBag, SawClothes, AdmiringScenery, AdmiringArt, TakingSelfie
  ]
  const MID_KINDS: seq<EventKind> := [
    TempWork, ExMessage, WeatherChange, GotHit, Breakup, WorkingOut, Reading, Gaming, AwayFromPhone, Unwell,
    Irritable, Busy, InBattle, Asleep, OutShopping, BrosGathering, SisGathering, OnTheRoad, WatchingMatch,
    WatchingShow, HavingSex, WantToGoOut, WantToGoHome
  ]
  const BODY_KINDS: seq<EventKind> := [
    Sick, Period, Hospitalized, PostSurgery
  ]
  const TRIP_KINDS: seq<EventKind> := [
    BusinessTrip, ShortTrip, LongTrip, HometownVisit
  ]
  const ALL: seq<EventKind> := SHORT_KINDS + MID_KINDS + BODY_KINDS + TRIP_KINDS

  function Category(k: EventKind): EventCategory {
    match k
    case PoliceEncounter | AnimalEncounter | HitSomeone | SuddenDesire | GroceryShopping | Showering
       | Bathing | InClass | OnTheWay | PeriodScare | PregnancyScare | GotBumped | BumpedSomeone | Quarrel
       | ScoldedBySuperior | ScoldedSuperior | SawBag | SawClothes | AdmiringScenery | AdmiringArt
       | TakingSelfie => Short
    case Sick | Period | Hospitalized | PostSurgery => Body
    case BusinessTrip | ShortTrip | LongTrip | HometownVisit => Trip
    case _ => MidLength
  }

  predicate IsBackgroundCategory(c: EventCategory) { c == Body || c == Trip }

  predicate IsBackground(k: EventKind) { IsBackgroundCategory(Category(k)) }

  /** How long a kind lasts: minutes, or whole hours drawn between two bounds. */
  datatype Lasts = Minutes(m: int) | Hours(lo: int, hi: int)

  datatype Rule = Rule(weight: real, cooldownHours: int, lasts: Lasts)

  function RuleOf(k: EventKind): Rule {
    match k
    case PoliceEncounter => Rule(1.0, 48, Minutes(30))
    case AnimalEncounter => Rule(3.0, 12, Hours(1, 1))
    case HitSomeone => Rule(0.5, 14 * DAY, Hours(1, 1))
    case SuddenDesire => Rule(2.0, 24, Hours(1, 1))
    case GroceryShopping => Rule(2.0, 24, Hours(1, 1))
    case Showering => Rule(2.0, 12, Minutes(30))
    case Bathing => Rule(1.0, 48, Hours(1, 1))
    case InClass => Rule(1.0, 24, Hours(1, 1))
    case OnTheWay => Rule(2.0, 12, Minutes(30))
    case PeriodScare => Rule(0.5, 28 * DAY, Hours(1, 1))
    case PregnancyScare => Rule(0.5, 60 * DAY, Hours(1, 1))
    case GotBumped => Rule(1.0, 72, Minutes(30))
    case BumpedSomeone => Rule(0.5, 7 * DAY, Minutes(30))
    case Quarrel => Rule(1.0, 48, Hours(1, 1))
    case ScoldedBySuperior => Rule(1.0, 72, Hours(1, 1))
    case ScoldedSuperior => Rule(0.5, 14 * DAY, Hours(1, 1))
    case SawBag => Rule(2.0, 48, Hours(1, 1))
    case SawClothes => Rule(2.0, 48, Hours(1, 1))
    case AdmiringScenery => Rule(2.0, 24, Hours(1, 1))
    case AdmiringArt => Rule(1.0, 48, Hours(1, 1))
    case TakingSelfie => Rule(2.0, 24, Minutes(30))
    case TempWork => Rule(3.0, 24, Hours(4, 4))
    case ExMessage => Rule(1.0, 72, Hours(3, 3))
    case WeatherChange => Rule(4.0, 8, Hours(4, 4))
    case GotHit => Rule(0.5, 14 * DAY, Hours(4, 4))
    case Breakup => Rule(0.5, 30 * DAY, Hours(4, 4))
    case WorkingOut => Rule(2.0, 24, Hours(1, 2))
    case Reading => Rule(2.0, 12, Hours(1, 3))
    case Gaming => Rule(2.0, 12, Hours(2, 4))
    case AwayFromPhone => Rule(1.0, 48, Hours(1, 3))
    case Unwell => Rule(1.0, 24, Hours(1, 4))
    case Irritable => Rule(1.0, 24, Hours(2, 4))
    case Busy => Rule(2.0, 12, Hours(1, 3))
    case InBattle => Rule(1.0, 48, Hours(2, 4))
    case Asleep => Rule(2.0, 24, Hours(1, 4))
    case OutShopping => Rule(2.0, 24, Hours(2, 4))
    case BrosGathering => Rule(1.0, 72, Hours(2, 4))
    case SisGathering => Rule(1.0, 72, Hours(2, 4))
    case OnTheRoad => Rule(2.0, 24, Hours(2, 4))
    case WatchingMatch => Rule(2.0, 24, Hours(2, 3))
    case WatchingShow => Rule(1.0, 72, Hours(2, 3))
    case HavingSex => Rule(1.0, 48, Hours(1, 2))
    case WantToGoOut => Rule(1.0, 24, Hours(1, 3))
    case WantToGoHome => Rule(1.0, 24, Hours(1, 3))
    case Sick => Rule(3.0, 14 * DAY, Hours(DAY, 3 * DAY))
    case Period => Rule(3.0, 28 * DAY, Hours(3 * DAY, 7 * DAY))
    case Hospitalized => Rule(0.5, 60 * DAY, Hours(2 * DAY, 5 * DAY))
    case PostSurgery => Rule(0.5, 90 * DAY, Hours(3 * DAY, 7 * DAY))
    case BusinessTrip => Rule(3.0, 0, Hours(DAY, DAY))
    case ShortTrip => Rule(2.0, 0, Hours(2 * DAY, 2 * DAY))
    case LongTrip => Rule(1.0, 0, Hours(3 * DAY, 7 * DAY))
    case HometownVisit => Rule(1.0, 0, Hours(3 * DAY, 3 * DAY))
    case TakingSpace => Rule(0.0, 0, Hours(12, 24))
    case FellOut => Rule(0.0, 0, Hours(1, 1))
  }

  function CategoryWeight(c: EventCategory): real {
    match c case Short => 5.0 case MidLength => 4.0 case Body => 0.5 case Trip => 0.5
  }

  function CategoryCooldown(c: EventCategory): int {
    match c case Short => 0 case MidLength => 0 case Body => 14 * DAY case Trip => 7 * DAY
  }

  const CONFIDE_MIN_RUNG: int := 2
  const DESIRE_MIN_RUNG: int := 3
  const PREFERENCE_FACTOR: real := 3.0
  const FOLLOW_FACTOR: real := 3.0
  const FOLLOW_WINDOW_HOURS: int := 48
  const UNLIKELY_FACTOR: real := 0.2
  const OFFLINE_COOLDOWN_HOURS: int := 12

  datatype Health = Weak | Normal | Strong

  datatype Persona = Persona(female: bool, health: Health, preferTrip: bool, preferEvents: seq<EventKind>,
                             isVirgin: bool, homesick: Option<bool>, sexAddict: Option<bool>)

  predicate MayBeOffline(k: EventKind) {
    k in {AwayFromPhone, Busy, InBattle, Asleep, OutShopping, BrosGathering, SisGathering, HavingSex, TakingSpace}
  }

  /** Shopping takes only a female persona offline. */
  predicate IsOffline(k: EventKind, p: Persona) {
    if k == OutShopping then p.female else MayBeOffline(k)
  }

  predicate IsFalseAlarm(k: EventKind) { k == PeriodScare || k == PregnancyScare }

  predicate PassesGate(k: EventKind, rung: int, p: Persona) {
    match k
    case ExMessage | Breakup => rung >= CONFIDE_MIN_RUNG
    case SuddenDesire => rung >= DESIRE_MIN_RUNG
    case Period | SawBag | SawClothes => p.female
    case PeriodScare => p.female && rung >= CONFIDE_MIN_RUNG
    case PregnancyScare => p.female && rung >= DESIRE_MIN_RUNG
    case _ => true
  }

  /** Whether a background rules a foreground kind out. */
  predicate RulesOut(background: EventKind, k: EventKind) {
    match background
    case Hospitalized | PostSurgery =>
      k in {TempWork, PoliceEncounter, AnimalEncounter, HitSomeone, GotHit, WorkingOut, GroceryShopping, InClass,
            OnTheWay, InBattle, GotBumped, BumpedSomeone, SawBag, SawClothes, OutShopping, BrosGathering,
            SisGathering, AdmiringScenery, AdmiringArt, WatchingShow, OnTheRoad, HavingSex}
    case Period => IsFalseAlarm(k)
    case _ => false
  }

  /** Whether `prior` makes `k` likelier while it is live. */
  predicate Follows(prior: EventKind, k: EventKind) {
    match prior
    case ExMessage | SuddenDesire => k == HavingSex
    case Sick => k == PeriodScare
    case HavingSex => k == PregnancyScare
    case BusinessTrip => k in {OnTheRoad, OnTheWay, Busy, TempWork}
    case ShortTrip | LongTrip => k in {OnTheRoad, AdmiringScenery, TakingSelfie}
    case HometownVisit => k in {OnTheRoad, AdmiringScenery, TakingSelfie, BrosGathering, SisGathering}
    case Hospitalized | PostSurgery => k in {Reading, Gaming}
    case Period => k in {Irritable, Unwell}
    case Breakup | Quarrel | ScoldedBySuperior | InBattle => k == Irritable
    case GotHit | GotBumped | WeatherChange => k == Unwell
    case WorkingOut => k in {Showering, Bathing}
    case _ => false
  }

  function NeedsFactor(k: EventKind, needs: Option<Needs>): real {
    if needs.None? then 1.0
    else
      var n := needs.value;
      match k
      case TempWork | WorkingOut => if n.stamina == Low then 0.5 else 1.0
      case Unwell | Sick | Bathing | Asleep => if n.stamina == Low then 2.0 else 1.0
      case GroceryShopping => if n.hunger == High then 2.0 else 1.0
      case ExMessage => if n.emotional == High then 3.0 else 1.0
      case AnimalEncounter | Irritable | Quarrel => if n.emotional == High then 2.0 else 1.0
      case WantToGoOut => if n.outing == High then 3.0 else 1.0
      case WantToGoHome => if n.outing == Low then 3.0 else 1.0
      case _ => 1.0
  }

  function IndulgenceFactor(k: EventKind, needs: Option<Needs>): real {
    if (k == WantToGoOut || k == Irritable) && needs.Some? && needs.value.indulgence == High then 2.0 else 1.0
  }

  function CategoryFactor(c: EventCategory, p: Persona): real {
    if c == Body then
      match p.health case Weak => 2.0 case Normal => 1.0 case Strong => 0.5
    else if c == Trip && p.preferTrip then PREFERENCE_FACTOR
    else 1.0
  }

  function PreferenceFactor(k: EventKind, p: Persona): real {
    if Category(k) == MidLength && k in p.preferEvents then PREFERENCE_FACTOR else 1.0
  }

  function PriorFactor(k: EventKind, p: Persona, everHadSex: bool): real {
    if k == HavingSex && p.isVirgin && !everHadSex then UNLIKELY_FACTOR
    else if k == PregnancyScare && !everHadSex then UNLIKELY_FACTOR
    else 1.0
  }

  function HomesickFactor(k: EventKind, p: Persona): real {
    if k == HometownVisit && p.homesick == Some(true) then PREFERENCE_FACTOR
    else if (k == HometownVisit && p.homesick == Some(false)) ||
            ((k == ShortTrip || k == LongTrip) && p.homesick == Some(true)) then 1.0 / PREFERENCE_FACTOR
    else 1.0
  }

  function SexAddictFactor(k: EventKind, p: Persona): real {
    if k == SuddenDesire && p.sexAddict == Some(true) then PREFERENCE_FACTOR
    else if k == SuddenDesire && p.sexAddict == Some(false) then 1.0 / PREFERENCE_FACTOR
    else 1.0
  }

  // ------------------------------------------------------------------- lengths

  function MaxHours(l: Lasts): int {
    match l case Minutes(m) => (m + 59) / 60 case Hours(_, hi) => hi
  }

  /** The longest a kind can last, in minutes. */
  function MaxMinutes(k: EventKind): int {
    LongestOf(RuleOf(k).lasts)
  }

  function LongestOf(lasts: Lasts): int {
    match lasts case Minutes(m) => m case Hours(_, hi) => 60 * hi
  }

  function Max(a: int, b: int): int { if a >= b then a else b }

  function KindsReach(ks: seq<EventKind>): int {
    if ks == [] then 0
    else Max(Max(RuleOf(ks[0]).cooldownHours, MaxHours(RuleOf(ks[0]).lasts)), KindsReach(ks[1..]))
  }

  function CategoriesReach(cs: seq<EventCategory>): int {
    if cs == [] then 0 else Max(CategoryCooldown(cs[0]), CategoriesReach(cs[1..]))
  }

  /** `lookback`, in hours: the longest of all cooldowns and all lengths. */
  function Lookback(): int {
    Max(KindsReach(ALL), CategoriesReach(CATEGORIES))
  }

  lemma {:induction false} KindReaches(ks: seq<EventKind>, k: EventKind)
    requires k in ks
    ensures RuleOf(k).cooldownHours <= KindsReach(ks) && MaxHours(RuleOf(k).lasts) <= KindsReach(ks)
  {
    if ks[0] != k { KindReaches(ks[1..], k); }
  }

  lemma {:induction false} KindsReachAtMost(ks: seq<EventKind>)
    ensures KindsReach(ks) <= 90 * DAY
  {
    if ks != [] { KindsReachAtMost(ks[1..]); }
  }

  lemma {:induction false} CategoriesReachAtMost(cs: seq<EventCategory>)
    ensures CategoriesReach(cs) <= 14 * DAY
  {
    if cs != [] { CategoriesReachAtMost(cs[1..]); }
  }

  lemma SurgeryDrawable()
    ensures PostSurgery in ALL
  {
    assert BODY_KINDS[3] == PostSurgery;
    assert PostSurgery in BODY_KINDS;
  }

  /** Ninety days: the cooldown after surgery. */
  lemma LookbackIs()
    ensures Lookback() == 90 * DAY
  {
    SurgeryDrawable();
    ReachOf(ALL, CATEGORIES);
  }

  lemma ReachOf(ks: seq<EventKind>, cs: seq<EventCategory>)
    requires PostSurgery in ks
    ensures Max(KindsReach(ks), CategoriesReach(cs)) == 90 * DAY
  {
    KindReaches(ks, PostSurgery);
    KindsReachAtMost(ks);
    CategoriesReachAtMost(cs);
  }

  /** No kind cools longer than the look back. */
  lemma CooldownWithin(k: EventKind)
    ensures RuleOf(k).cooldownHours <= 90 * DAY
  {
  }

  /** No kind, drawn or not, lasts more than a week. */
  lemma LongestIsAWeek(k: EventKind)
    ensures 0 < MaxMinutes(k) <= 60 * 7 * DAY
  {
  }

  /** The two kinds that are written directly. */
  predicate IsSpecial(k: EventKind) { k == TakingSpace || k == FellOut }

  lemma NoSpecial()
    ensures TakingSpace !in ALL && FellOut !in ALL
  {
    assert TakingSpace !in SHORT_KINDS && FellOut !in SHORT_KINDS;
    assert TakingSpace !in MID_KINDS && FellOut !in MID_KINDS;
  }

  lemma ShortListed(k: EventKind)
    requires Category(k) == Short && !IsSpecial(k)
    ensures k in SHORT_KINDS
  {
  }

  lemma MidListed(k: EventKind)
    requires Category(k) == MidLength && !IsSpecial(k)
    ensures k in MID_KINDS
  {
  }

  lemma BodyListed(k: EventKind)
    requires Category(k) == Body
    ensures k in BODY_KINDS
  {
  }

  lemma TripListed(k: EventKind)
    requires Category(k) == Trip
    ensures k in TRIP_KINDS
  {
  }

  /** The kinds written directly, and only they, are outside the draw. */
  lemma DrawableExactlyWhen(k: EventKind)
    ensures k in ALL <==> !IsSpecial(k)
  {
    if IsSpecial(k) {
      NoSpecial();
    } else {
      match Category(k)
      case Short => ShortListed(k);
      case MidLength => MidListed(k);
      case Body => BodyListed(k);
      case Trip => TripListed(k);
    }
  }
}
