/** What the draw promises, said without its own filters: which kinds can happen now, on which
    rolls, for how long, and what makes a kind likelier. */
module DrawLaws {
  import opened Text
  import opened Needs
  import opened Weighted
  import opened LifeEvents
  import opened Draw
  import opened EventRuns
  import opened FollowOns

  // --------------------------------------------------------- what can happen now

  /** Whom a kind can befall, and how close they must be for it to be told. */
  predicate Befits(k: EventKind, rung: int, female: bool) {
    && (k in {Period, SawBag, SawClothes, PeriodScare, PregnancyScare} ==> female)
    && (k in {ExMessage, Breakup, PeriodScare} ==> rung >= 2)
    && (k in {SuddenDesire, PregnancyScare} ==> rung >= 3)
  }

  /** Every cooldown has run out: its own kind's, its category's, and the one offline kinds
      share. The end of a cooldown is free again. */
  predicate IsRested(k: EventKind, p: Persona, history: seq<PastEvent>, now: int) {
    forall i :: 0 <= i < |history| ==> RestedAfter(k, p, history[i], now)
  }

  predicate RestedAfter(k: EventKind, p: Persona, e: PastEvent, now: int) {
    && (e.kind == k ==> e.startedAt + 60 * RuleOf(k).cooldownHours <= now)
    && (Category(e.kind) == Category(k) ==> e.startedAt + 60 * CategoryCooldown(Category(k)) <= now)
    && (IsOffline(e.kind, p) && IsOffline(k, p) ==> e.startedAt + 60 * 12 <= now)
  }

  predicate IsFirstBackground(history: seq<PastEvent>, now: int, j: nat) {
    && j < |history| && history[j].endsAt > now && IsBackground(history[j].kind)
    && forall i :: 0 <= i < j ==> !(history[i].endsAt > now && IsBackground(history[i].kind))
  }

  /** No foreground goes on, and the background that does, if any, lets the kind in. */
  predicate IsUndisturbed(k: EventKind, history: seq<PastEvent>, now: int) {
    && (forall i :: 0 <= i < |history| && history[i].endsAt > now ==> IsBackground(history[i].kind))
    && (forall j :: 0 <= j < |history| && IsFirstBackground(history, now, j) ==>
                      !IsBackground(k) && !RulesOut(history[j].kind, k))
  }

  lemma BefitsIsGate(k: EventKind, rung: int, p: Persona)
    ensures PassesGate(k, rung, p) <==> Befits(k, rung, p.female)
  {
  }

  lemma RestedIsNotCooling(k: EventKind, p: Persona, history: seq<PastEvent>, now: int)
    ensures IsRested(k, p, history, now) <==>
            !KindCooling(k, history, now) && !CategoryCooling(Category(k), history, now) &&
            (IsOffline(k, p) ==> !OfflineCooling(p, history, now))
  {
    if !IsRested(k, p, history, now) {
      var i :| 0 <= i < |history| && !RestedAfter(k, p, history[i], now);
      var e := history[i];
      assert e.kind == k && !(e.startedAt + 60 * RuleOf(k).cooldownHours <= now) ==>
        Cooling(e.startedAt, RuleOf(k).cooldownHours, now);
    }
    if IsRested(k, p, history, now) {
      assert forall i :: 0 <= i < |history| ==> RestedAfter(k, p, history[i], now);
    }
  }

  lemma BackgroundFirst(history: seq<PastEvent>, now: int, j: nat)
    requires IsFirstBackground(history, now, j)
    ensures Background(history, now) == Some(history[j].kind)
  {
    BackgroundIs(history, now, j);
  }

  lemma {:induction false} FirstBackground(history: seq<PastEvent>, now: int) returns (j: nat)
    requires Background(history, now).Some?
    ensures IsFirstBackground(history, now, j)
  {
    if UnderWay(history[0], now) && IsBackground(history[0].kind) {
      j := 0;
    } else {
      var i := FirstBackground(history[1..], now);
      j := i + 1;
      forall m | 0 <= m < j ensures !(history[m].endsAt > now && IsBackground(history[m].kind)) {
        if m > 0 { assert history[1..][m - 1] == history[m]; }
      }
    }
  }

  lemma UndisturbedIs(k: EventKind, history: seq<PastEvent>, now: int)
    ensures IsUndisturbed(k, history, now) <==>
            !ForegroundUnderWay(history, now) &&
            match Background(history, now) { case Some(b) => !IsBackground(k) && !RulesOut(b, k) case None => true }
  {
    if Background(history, now).Some? {
      var j := FirstBackground(history, now);
      BackgroundFirst(history, now, j);
    }
    forall j | 0 <= j < |history| && IsFirstBackground(history, now, j) ensures Background(history, now) == Some(history[j].kind) {
      BackgroundFirst(history, now, j);
    }
  }

  /** The kind can be drawn on some rolls in [0, 1). */
  ghost predicate CanBeDrawn(k: EventKind, input: DrawInput) {
    exists rolls :: DrawsOn(k, input, rolls)
  }

  predicate DrawsOn(k: EventKind, input: DrawInput, rolls: Rolls) {
    && 0.0 <= rolls.category < 1.0 && 0.0 <= rolls.kind < 1.0
    && DrawEvent(input, rolls).Some? && DrawEvent(input, rolls).value.kind == k
  }

  lemma EligibleIs(k: EventKind, input: DrawInput)
    ensures IsEligible(k, input) && !ForegroundUnderWay(input.history, input.now) <==>
            k in input.allowed && Befits(k, input.rung, input.persona.female) &&
            IsRested(k, input.persona, input.history, input.now) && IsUndisturbed(k, input.history, input.now)
  {
    BefitsIsGate(k, input.rung, input.persona);
    RestedIsNotCooling(k, input.persona, input.history, input.now);
    UndisturbedIs(k, input.history, input.now);
  }

  /** A kind can be drawn exactly when it is one that draws make, the caller allows it, it
      befits the persona, its cooldowns have run out, and nothing under way keeps it out. */
  lemma CanBeDrawnExactlyWhen(k: EventKind, input: DrawInput)
    ensures CanBeDrawn(k, input) <==>
            !IsSpecial(k) && k in input.allowed && Befits(k, input.rung, input.persona.female) &&
            IsRested(k, input.persona, input.history, input.now) && IsUndisturbed(k, input.history, input.now)
  {
    EligibleIs(k, input);
    DrawableExactlyWhen(k);
    if rolls :| DrawsOn(k, input, rolls) {
      DrawnIsEligible(input, rolls);
    } else if k in ALL && IsEligible(k, input) && !ForegroundUnderWay(input.history, input.now) {
      var rolls := EveryEligibleKindDrawn(input, k, 0.0);
      assert DrawsOn(k, input, rolls);
    }
  }

  /** Whatever the rolls, what is drawn is allowed, befits her, is rested and undisturbed. */
  lemma DrawnBefits(input: DrawInput, rolls: Rolls)
    requires DrawEvent(input, rolls).Some?
    ensures var k := DrawEvent(input, rolls).value.kind;
            && !IsSpecial(k) && k in input.allowed && Befits(k, input.rung, input.persona.female)
            && IsRested(k, input.persona, input.history, input.now) && IsUndisturbed(k, input.history, input.now)
  {
    var k := DrawEvent(input, rolls).value.kind;
    DrawnIsEligible(input, rolls);
    EligibleIs(k, input);
    DrawableExactlyWhen(k);
  }

  /** In every run, nothing she would have to be up and about for begins while she is in
      hospital or recovering from surgery, and no scare while she has her period. */
  lemma HospitalKeepsHerIn(p: Persona, moments: seq<Moment>, i: nat, j: nat)
    requires InOrder(moments) && i < j < |Run(p, moments)|
    requires During(Run(p, moments)[i], Run(p, moments)[j].startedAt)
    ensures var (a, b) := (Run(p, moments)[i].kind, Run(p, moments)[j].kind);
            (a in {Hospitalized, PostSurgery} ==> !IsOutAndAbout(b)) && (a == Period ==> b !in {PeriodScare, PregnancyScare})
  {
    RunConsistent(p, moments);
    var a, b := Run(p, moments)[i], Run(p, moments)[j];
    assert Compatible(p, a, b) && b.startedAt < a.endsAt;
    RuledOut(a.kind, b.kind);
  }

  /** What takes place outside, with strength, or in company. */
  predicate IsOutAndAbout(k: EventKind) {
    k in {TempWork, PoliceEncounter, AnimalEncounter, HitSomeone, GotHit, WorkingOut, GroceryShopping, InClass, OnTheWay,
          InBattle, GotBumped, BumpedSomeone, SawBag, SawClothes, OutShopping, BrosGathering, SisGathering,
          AdmiringScenery, AdmiringArt, WatchingShow, OnTheRoad, HavingSex}
  }

  lemma RuledOut(a: EventKind, b: EventKind)
    ensures a in {Hospitalized, PostSurgery} ==> (RulesOut(a, b) <==> IsOutAndAbout(b))
    ensures a == Period ==> (RulesOut(a, b) <==> b in {PeriodScare, PregnancyScare})
    ensures a !in {Hospitalized, PostSurgery, Period} ==> !RulesOut(a, b)
    ensures a in {Hospitalized, PostSurgery, Period} ==> IsBackground(a)
  {
  }

  // --------------------------------------------------------------- on which rolls

  /** The first roll picks among the categories that have an eligible kind, the second among
      the eligible kinds of that category, the third the length. */
  lemma DrawnOncePicked(input: DrawInput, rolls: Rolls, c: EventCategory, k: EventKind)
    requires !ForegroundUnderWay(input.history, input.now)
    requires Pick(CategoryWeights(Eligible(ALL, input), input.persona), rolls.category) == Some(c)
    requires Pick(KindWeights(Eligible(ALL, input), c, input), rolls.kind) == Some(k)
    ensures DrawEvent(input, rolls) == Some(Drawn(k, LengthOf(k, rolls.duration)))
  {
  }

  lemma PickInBand<T>(ws: Weights<T>, roll: real, j: nat)
    requires AllPositive(ws) && 0.0 <= roll < 1.0 && InBand(ws, roll * Total(ws), j)
    ensures Pick(ws, roll) == Some(ws[j].0)
  {
    PrefixGrows(ws, 1, |ws|);
    assert Prefix(ws, 1) == Prefix(ws, 0) + ws[0].1;
    LoopsAgree(ws, roll, Share(roll, Total(ws)));
  }

  /** The filters keep the draw order. */
  lemma {:induction false} EligibleInOrder(a: seq<EventKind>, b: seq<EventKind>, input: DrawInput)
    ensures Eligible(a + b, input) == Eligible(a, input) + Eligible(b, input)
  {
    if a == [] {
      assert a + b == b;
    } else {
      assert (a + b)[1..] == a[1..] + b;
      EligibleInOrder(a[1..], b, input);
      EligibleUnfolds(a, input);
      EligibleUnfolds(a + b, input);
    }
  }

  lemma EligibleUnfolds(ks: seq<EventKind>, input: DrawInput)
    requires ks != []
    ensures Eligible(ks, input) == Eligible([ks[0]], input) + Eligible(ks[1..], input)
  {
    assert [ks[0]][1..] == [];
  }

  lemma {:induction false} OfCategoryInOrder(a: seq<EventKind>, b: seq<EventKind>, c: EventCategory)
    ensures OfCategory(a + b, c) == OfCategory(a, c) + OfCategory(b, c)
  {
    if a == [] {
      assert a + b == b;
    } else {
      assert (a + b)[1..] == a[1..] + b;
      OfCategoryInOrder(a[1..], b, c);
    }
  }

  lemma {:induction false} PresentInOrder(a: seq<EventCategory>, b: seq<EventCategory>, eligible: seq<EventKind>)
    ensures Present(a + b, eligible) == Present(a, eligible) + Present(b, eligible)
  {
    if a == [] {
      assert a + b == b;
    } else {
      assert (a + b)[1..] == a[1..] + b;
      PresentInOrder(a[1..], b, eligible);
    }
  }

  /** Each whole hour of a range is the length on its own stretch of the rolls, in order, all
      stretches alike. */
  lemma LengthExactlyWhen(lasts: Lasts, roll: real, j: int)
    requires lasts.Hours? && lasts.lo <= lasts.hi && 0.0 <= roll < 1.0
    ensures LengthIn(lasts, roll) == 60 * (lasts.lo + j) <==>
            j as real <= roll * (lasts.hi - lasts.lo + 1) as real < (j + 1) as real
  {
    var span := (lasts.hi - lasts.lo + 1) as real;
    ShareOf(roll, span);
    assert Clamp01(roll) == roll;
    FloorIs(roll * span, j);
    assert StepIn(lasts.lo, lasts.hi, roll) == (roll * span).Floor <= lasts.hi - lasts.lo;
  }

  /** A kind's length is the one its rule's range gives, and the range is not empty. */
  lemma LengthOfIs(k: EventKind, roll: real)
    ensures LengthOf(k, roll) == LengthIn(RuleOf(k).lasts, roll) && IsLength(RuleOf(k).lasts)
  {
    LengthBounds(k);
  }

  lemma FloorIs(x: real, j: int)
    ensures x.Floor == j <==> j as real <= x < (j + 1) as real
  {
  }

  // ---------------------------------------------------------- what makes it likelier

  lemma EightScaled(xs: seq<real>, ys: seq<real>, j: nat)
    requires |xs| == |ys| == 8 && j < 8
    requires forall i :: 0 <= i < 8 && i != j ==> ys[i] == xs[i]
    ensures ys[j] == 3.0 * xs[j] ==> Product(ys) == 3.0 * Product(xs)
    ensures ys[j] == 2.0 * xs[j] ==> Product(ys) == 2.0 * Product(xs)
    ensures ys[j] == 0.5 * xs[j] ==> Product(ys) == 0.5 * Product(xs)
    ensures ys[j] == 0.2 * xs[j] ==> Product(ys) == 0.2 * Product(xs)
    ensures 3.0 * ys[j] == xs[j] ==> 3.0 * Product(ys) == Product(xs)
  {
    if ys[j] == 3.0 * xs[j] { ProductScaled(xs, ys, j, 3.0); }
    if ys[j] == 2.0 * xs[j] { ProductScaled(xs, ys, j, 2.0); }
    if ys[j] == 0.5 * xs[j] { ProductScaled(xs, ys, j, 0.5); }
    if ys[j] == 0.2 * xs[j] { ProductScaled(xs, ys, j, 0.2); }
    if 3.0 * ys[j] == xs[j] { ProductScaled(ys, xs, j, 3.0); }
  }

  /** The lists of factors differ in one place. */
  predicate DifferAt(k: EventKind, a: DrawInput, b: DrawInput, j: nat) {
    && |Factors(k, a)| == |Factors(k, b)| == 8 && j < 8
    && forall i :: 0 <= i < 8 && i != j ==> Factors(k, b)[i] == Factors(k, a)[i]
  }

  /** A weight goes with each of its factors. */
  lemma OneFactorScales(k: EventKind, a: DrawInput, b: DrawInput, j: nat)
    requires DifferAt(k, a, b, j)
    ensures Factors(k, b)[j] == 3.0 * Factors(k, a)[j] ==> KindWeight(k, b) == 3.0 * KindWeight(k, a)
    ensures Factors(k, b)[j] == 2.0 * Factors(k, a)[j] ==> KindWeight(k, b) == 2.0 * KindWeight(k, a)
    ensures Factors(k, b)[j] == 0.5 * Factors(k, a)[j] ==> KindWeight(k, b) == 0.5 * KindWeight(k, a)
    ensures Factors(k, b)[j] == 0.2 * Factors(k, a)[j] ==> KindWeight(k, b) == 0.2 * KindWeight(k, a)
    ensures 3.0 * Factors(k, b)[j] == Factors(k, a)[j] ==> 3.0 * KindWeight(k, b) == KindWeight(k, a)
  {
    EightScaled(Factors(k, a), Factors(k, b), j);
  }

  /** What her wishes and her past make of a kind's weight: a mid kind she prefers weighs three
      times as much; what has never happened to her weighs a fifth. */
  lemma PreferredTriples(k: EventKind, input: DrawInput)
    requires Category(k) == MidLength && k !in input.persona.preferEvents
    ensures KindWeight(k, input.(persona := input.persona.(preferEvents := [k]))) == 3.0 * KindWeight(k, input)
  {
    var b := input.(persona := input.persona.(preferEvents := [k]));
    PreferenceDiffers(k, input, b);
    OneFactorScales(k, input, b, 3);
  }

  lemma PreferenceDiffers(k: EventKind, a: DrawInput, b: DrawInput)
    requires Category(k) == MidLength && k !in a.persona.preferEvents
    requires b == a.(persona := a.persona.(preferEvents := [k]))
    ensures DifferAt(k, a, b, 3) && Factors(k, b)[3] == 3.0 * Factors(k, a)[3]
  {
    assert b.history == a.history && b.needs == a.needs;
    PreferenceAlone(k, a.persona, b.persona, a.everHadSex);
    Apart(k, a, b, FollowFactor(k, a.history, a.now));
  }

  lemma PreferenceAlone(k: EventKind, p: Persona, q: Persona, ever: bool)
    requires Category(k) == MidLength && k !in p.preferEvents && q == p.(preferEvents := [k])
    ensures PreferenceFactor(k, q) == 3.0 * PreferenceFactor(k, p)
    ensures PriorFactor(k, p, ever) == PriorFactor(k, q, ever)
    ensures HomesickFactor(k, p) == HomesickFactor(k, q) && SexAddictFactor(k, p) == SexAddictFactor(k, q)
  {
    assert k in q.preferEvents;
  }

  lemma FirstTimesAreRare(k: EventKind, input: DrawInput)
    requires input.everHadSex && (k == PregnancyScare || (k == HavingSex && input.persona.isVirgin))
    ensures KindWeight(k, input.(everHadSex := false)) == 0.2 * KindWeight(k, input)
  {
    var b := input.(everHadSex := false);
    assert DifferAt(k, input, b, 5);
    OneFactorScales(k, input, b, 5);
  }

  /** A home-loving persona visits home three times as readily and travels for leisure a third
      as readily; a roaming one visits home a third as readily. */
  lemma HomeSteersTrips(input: DrawInput, homesick: bool)
    requires input.persona.homesick == None
    ensures var b := input.(persona := input.persona.(homesick := Some(homesick)));
            && (homesick ==> KindWeight(HometownVisit, b) == 3.0 * KindWeight(HometownVisit, input))
            && (homesick ==> 3.0 * KindWeight(ShortTrip, b) == KindWeight(ShortTrip, input))
            && (homesick ==> 3.0 * KindWeight(LongTrip, b) == KindWeight(LongTrip, input))
            && (!homesick ==> 3.0 * KindWeight(HometownVisit, b) == KindWeight(HometownVisit, input))
  {
    var b := input.(persona := input.persona.(homesick := Some(homesick)));
    HomeScales(HometownVisit, input, b);
    HomeScales(ShortTrip, input, b);
    HomeScales(LongTrip, input, b);
  }

  lemma HomeScales(k: EventKind, a: DrawInput, b: DrawInput)
    requires a.persona.homesick == None && b == a.(persona := a.persona.(homesick := b.persona.homesick)) && b.persona.homesick.Some?
    requires k in {HometownVisit, ShortTrip, LongTrip}
    ensures k == HometownVisit && b.persona.homesick.value ==> KindWeight(k, b) == 3.0 * KindWeight(k, a)
    ensures (k == HometownVisit) != b.persona.homesick.value ==> 3.0 * KindWeight(k, b) == KindWeight(k, a)
  {
    assert DifferAt(k, a, b, 6);
    OneFactorScales(k, a, b, 6);
  }

  lemma DesireIsSteered(input: DrawInput, addict: bool)
    requires input.persona.sexAddict == None
    ensures var b := input.(persona := input.persona.(sexAddict := Some(addict)));
            if addict then KindWeight(SuddenDesire, b) == 3.0 * KindWeight(SuddenDesire, input)
            else 3.0 * KindWeight(SuddenDesire, b) == KindWeight(SuddenDesire, input)
  {
    var b := input.(persona := input.persona.(sexAddict := Some(addict)));
    assert DifferAt(SuddenDesire, input, b, 7);
    OneFactorScales(SuddenDesire, input, b, 7);
  }

  /** What her needs make likelier: worn out, she sleeps and falls ill twice as readily and
      works out half; hungry, she shops for food; in want of care, she quarrels; with the urge
      to go out or home, she goes; and the urge to let loose sends her out and frays her temper. */
  lemma NeedsSteer(k: EventKind, input: DrawInput, n: Needs)
    requires input.needs == None && n.indulgence != High
    ensures var b := input.(needs := Some(n));
            && (k in {Unwell, Sick, Bathing, Asleep} && n.stamina == Low ==> KindWeight(k, b) == 2.0 * KindWeight(k, input))
            && (k in {TempWork, WorkingOut} && n.stamina == Low ==> KindWeight(k, b) == 0.5 * KindWeight(k, input))
            && (k == GroceryShopping && n.hunger == High ==> KindWeight(k, b) == 2.0 * KindWeight(k, input))
            && (k in {AnimalEncounter, Irritable, Quarrel} && n.emotional == High ==> KindWeight(k, b) == 2.0 * KindWeight(k, input))
            && (k == ExMessage && n.emotional == High ==> KindWeight(k, b) == 3.0 * KindWeight(k, input))
            && (k == WantToGoOut && n.outing == High ==> KindWeight(k, b) == 3.0 * KindWeight(k, input))
            && (k == WantToGoHome && n.outing == Low ==> KindWeight(k, b) == 3.0 * KindWeight(k, input))
  {
    var b := input.(needs := Some(n));
    NeedsDiffer(k, input, b, n);
    OneFactorScales(k, input, b, 1);
    NeedsFactorIs(k, n);
  }

  lemma NeedsDiffer(k: EventKind, a: DrawInput, b: DrawInput, n: Needs)
    requires a.needs == None && b == a.(needs := Some(n)) && n.indulgence != High
    ensures DifferAt(k, a, b, 1) && Factors(k, b)[1] == NeedsFactor(k, Some(n)) && Factors(k, a)[1] == 1.0
  {
    NoUrge(k, n);
    Apart(k, a, b, FollowFactor(k, a.history, a.now));
  }

  lemma NoUrge(k: EventKind, n: Needs)
    requires n.indulgence != High
    ensures IndulgenceFactor(k, Some(n)) == IndulgenceFactor(k, None) && NeedsFactor(k, None) == 1.0
  {
  }

  /** Where two inputs agree on a factor, their lists do. */
  lemma Apart(k: EventKind, a: DrawInput, b: DrawInput, follow: real)
    requires follow == FollowFactor(k, a.history, a.now) == FollowFactor(k, b.history, b.now)
    ensures |Factors(k, a)| == |Factors(k, b)| == 8
    ensures Factors(k, a)[1] == NeedsFactor(k, a.needs) && Factors(k, b)[1] == NeedsFactor(k, b.needs)
    ensures Factors(k, a)[2] == IndulgenceFactor(k, a.needs) && Factors(k, b)[2] == IndulgenceFactor(k, b.needs)
    ensures Factors(k, a)[3] == PreferenceFactor(k, a.persona) && Factors(k, b)[3] == PreferenceFactor(k, b.persona)
    ensures Factors(k, a)[0] == Factors(k, b)[0] && Factors(k, a)[4] == Factors(k, b)[4]
    ensures PriorFactor(k, a.persona, a.everHadSex) == PriorFactor(k, b.persona, b.everHadSex) ==> Factors(k, a)[5] == Factors(k, b)[5]
    ensures HomesickFactor(k, a.persona) == HomesickFactor(k, b.persona) ==> Factors(k, a)[6] == Factors(k, b)[6]
    ensures SexAddictFactor(k, a.persona) == SexAddictFactor(k, b.persona) ==> Factors(k, a)[7] == Factors(k, b)[7]
  {
  }

  lemma NeedsFactorIs(k: EventKind, n: Needs)
    ensures k in {Unwell, Sick, Bathing, Asleep} && n.stamina == Low ==> NeedsFactor(k, Some(n)) == 2.0
    ensures k in {TempWork, WorkingOut} && n.stamina == Low ==> NeedsFactor(k, Some(n)) == 0.5
    ensures k == GroceryShopping && n.hunger == High ==> NeedsFactor(k, Some(n)) == 2.0
    ensures k in {AnimalEncounter, Irritable, Quarrel} && n.emotional == High ==> NeedsFactor(k, Some(n)) == 2.0
    ensures k == ExMessage && n.emotional == High ==> NeedsFactor(k, Some(n)) == 3.0
    ensures k == WantToGoOut && n.outing == High ==> NeedsFactor(k, Some(n)) == 3.0
    ensures k == WantToGoHome && n.outing == Low ==> NeedsFactor(k, Some(n)) == 3.0
  {
  }

  lemma UrgeDoubles(k: EventKind, input: DrawInput, n: Needs)
    requires k in {WantToGoOut, Irritable} && input.needs == Some(n) && n.indulgence != High
    ensures KindWeight(k, input.(needs := Some(n.(indulgence := High)))) == 2.0 * KindWeight(k, input)
  {
    var b := input.(needs := Some(n.(indulgence := High)));
    Apart(k, input, b, FollowFactor(k, input.history, input.now));
    UrgeAlone(k, n);
    OneFactorScales(k, input, b, 2);
  }

  lemma UrgeAlone(k: EventKind, n: Needs)
    requires k in {WantToGoOut, Irritable} && n.indulgence != High
    ensures var m := n.(indulgence := High);
            NeedsFactor(k, Some(m)) == NeedsFactor(k, Some(n)) && IndulgenceFactor(k, Some(m)) == 2.0 * IndulgenceFactor(k, Some(n))
  {
  }

  /** Without any of these causes a kind weighs what its rule says. */
  lemma PlainWeight(k: EventKind, input: DrawInput)
    requires input.needs == None && input.history == [] && input.everHadSex
    requires input.persona.preferEvents == [] && input.persona.homesick == None && input.persona.sexAddict == None
    ensures KindWeight(k, input) == RuleOf(k).weight
  {
    PlainFactors(k, input);
    OnesAside(Factors(k, input), RuleOf(k).weight);
  }

  lemma PlainFactors(k: EventKind, input: DrawInput)
    requires input.needs == None && input.history == [] && input.everHadSex
    requires input.persona.preferEvents == [] && input.persona.homesick == None && input.persona.sexAddict == None
    ensures Factors(k, input) == [RuleOf(k).weight, 1.0, 1.0, 1.0, 1.0, 1.0, 1.0, 1.0]
  {
    assert LivePriors(k, [], input.now) == {};
    assert FollowFactor(k, [], input.now) == 1.0;
    PlainPersona(k, input.persona);
    assert NeedsFactor(k, None) == 1.0 && IndulgenceFactor(k, None) == 1.0;
  }

  lemma PlainPersona(k: EventKind, p: Persona)
    requires p.preferEvents == [] && p.homesick == None && p.sexAddict == None
    ensures PreferenceFactor(k, p) == 1.0 && PriorFactor(k, p, true) == 1.0
    ensures HomesickFactor(k, p) == 1.0 && SexAddictFactor(k, p) == 1.0
  {
  }

  lemma OnesAside(xs: seq<real>, w: real)
    requires xs == [w, 1.0, 1.0, 1.0, 1.0, 1.0, 1.0, 1.0]
    ensures Product(xs) == w
  {
    Ones(xs[1..]);
  }

  lemma {:induction false} Ones(xs: seq<real>)
    requires forall i :: 0 <= i < |xs| ==> xs[i] == 1.0
    ensures Product(xs) == 1.0
  {
    if xs != [] { Ones(xs[1..]); }
  }

  /** In the first stage a weak persona falls ill twice as readily and a strong one half as
      readily, and one who likes to travel leaves three times as readily. */
  lemma PersonaSteersCategories(c: EventCategory, p: Persona)
    ensures CategoryShare(c, p.(health := Weak)) == (if c == Body then 2.0 else 1.0) * CategoryShare(c, p.(health := Normal))
    ensures CategoryShare(c, p.(health := Strong)) == (if c == Body then 0.5 else 1.0) * CategoryShare(c, p.(health := Normal))
    ensures CategoryShare(c, p.(preferTrip := true)) == (if c == Trip then 3.0 else 1.0) * CategoryShare(c, p.(preferTrip := false))
    ensures CategoryShare(c, p.(health := Normal, preferTrip := false)) == CategoryWeight(c)
  {
  }
}
