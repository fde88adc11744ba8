/** Life over time: what every history grown by draws keeps, and why a bounded look back
    at that history is enough. */
module EventRuns {
  import opened Text
  import opened Needs
  import opened LifeEvents
  import opened Draw

  /** One moment at which a draw is tried. Everything but the persona may differ from
      moment to moment. */
  datatype Moment = Moment(now: int, needs: Option<Needs>, rung: int, allowed: seq<EventKind>, everHadSex: bool, rolls: Rolls)

  function InputAt(p: Persona, m: Moment, history: seq<PastEvent>): DrawInput {
    DrawInput(m.now, m.needs, m.rung, p, history, m.allowed, m.everHadSex)
  }

  function EventOf(d: Drawn, now: int): PastEvent {
    PastEvent(d.kind, now, now + d.lasts)
  }

  function Appended(history: seq<PastEvent>, now: int, d: Option<Drawn>): seq<PastEvent> {
    if d.None? then history else history + [EventOf(d.value, now)]
  }

  /** The events of a persona after a run of draws from an empty history. */
  function Run(p: Persona, moments: seq<Moment>): seq<PastEvent> {
    if moments == [] then []
    else
      var m, before := moments[|moments| - 1], Run(p, moments[..|moments| - 1]);
      Appended(before, m.now, DrawEvent(InputAt(p, m, before), m.rolls))
  }

  /** A moment adds what is drawn on the run so far, from then on for its length, or nothing. */
  lemma RunGrows(p: Persona, moments: seq<Moment>, m: Moment, d: Option<Drawn>)
    requires d == DrawEvent(InputAt(p, m, Run(p, moments)), m.rolls)
    ensures Run(p, moments + [m]) ==
            Run(p, moments) + if d.None? then [] else [PastEvent(d.value.kind, m.now, m.now + d.value.lasts)]
  {
    RunUnfolds(p, moments, m);
    AppendedIs(Run(p, moments), m.now, d);
  }

  lemma RunUnfolds(p: Persona, moments: seq<Moment>, m: Moment)
    ensures Run(p, moments + [m]) == Appended(Run(p, moments), m.now, DrawEvent(InputAt(p, m, Run(p, moments)), m.rolls))
  {
    var more := moments + [m];
    assert more[..|more| - 1] == moments && more[|more| - 1] == m;
  }

  lemma AppendedIs(history: seq<PastEvent>, now: int, d: Option<Drawn>)
    ensures Appended(history, now, d) == history + if d.None? then [] else [PastEvent(d.value.kind, now, now + d.value.lasts)]
  {
    assert history + [] == history;
  }

  predicate InOrder(moments: seq<Moment>) {
    forall i, j :: 0 <= i < j < |moments| ==> moments[i].now <= moments[j].now
  }

  // -------------------------------------------------- what every run keeps

  /** How an earlier and a later event of one persona stand to each other. */
  predicate Compatible(p: Persona, a: PastEvent, b: PastEvent) {
    && a.startedAt <= b.startedAt
    && (!IsBackground(a.kind) || IsBackground(b.kind) ==> a.endsAt <= b.startedAt)
    && (IsBackground(a.kind) && !IsBackground(b.kind) && a.endsAt > b.startedAt ==> !RulesOut(a.kind, b.kind))
    && (a.kind == b.kind ==> a.startedAt + 60 * RuleOf(b.kind).cooldownHours <= b.startedAt)
    && (Category(a.kind) == Category(b.kind) ==> a.startedAt + 60 * CategoryCooldown(Category(b.kind)) <= b.startedAt)
    && (IsOffline(a.kind, p) && IsOffline(b.kind, p) ==> a.startedAt + 60 * OFFLINE_COOLDOWN_HOURS <= b.startedAt)
  }

  predicate Consistent(p: Persona, history: seq<PastEvent>) {
    forall i, j :: 0 <= i < j < |history| ==> Compatible(p, history[i], history[j])
  }

  /** Every event is one the draw can make, and lasts no longer than its kind can. */
  predicate WellTimed(e: PastEvent) {
    e.startedAt < e.endsAt <= e.startedAt + MaxMinutes(e.kind)
  }

  predicate AllWellTimed(history: seq<PastEvent>) {
    forall i :: 0 <= i < |history| ==> WellTimed(history[i])
  }

  lemma {:induction false} BackgroundIs(history: seq<PastEvent>, now: int, j: nat)
    requires j < |history| && UnderWay(history[j], now) && IsBackground(history[j].kind)
    requires forall i :: 0 <= i < j && IsBackground(history[i].kind) ==> !UnderWay(history[i], now)
    ensures Background(history, now) == Some(history[j].kind)
  {
    if j > 0 { BackgroundIs(history[1..], now, j - 1); }
  }

  /** At most one background is under way, so the one the draw finds is the one there is. */
  lemma OnlyBackground(p: Persona, history: seq<PastEvent>, now: int, j: nat)
    requires Consistent(p, history) && j < |history|
    requires forall i :: 0 <= i < |history| ==> history[i].startedAt <= now
    requires UnderWay(history[j], now) && IsBackground(history[j].kind)
    ensures Background(history, now) == Some(history[j].kind)
  {
    forall i | 0 <= i < j && IsBackground(history[i].kind) ensures !UnderWay(history[i], now) {
      assert Compatible(p, history[i], history[j]);
    }
    BackgroundIs(history, now, j);
  }

  /** A drawn event fits every event before it. */
  lemma DrawFits(input: DrawInput, rolls: Rolls, j: nat)
    requires DrawEvent(input, rolls).Some? && Consistent(input.persona, input.history) && j < |input.history|
    requires forall i :: 0 <= i < |input.history| ==> input.history[i].startedAt <= input.now
    ensures var d := DrawEvent(input, rolls).value;
            Compatible(input.persona, input.history[j], EventOf(d, input.now))
  {
    DrawnIsEligible(input, rolls);
    var (a, k) := (input.history[j], DrawEvent(input, rolls).value.kind);
    assert !KindWithin(k, RuleOf(k).cooldownHours, input.history, input.now);
    if IsBackground(a.kind) && a.endsAt > input.now {
      OnlyBackground(input.persona, input.history, input.now, j);
    }
  }

  lemma {:induction false} RunStartsBefore(p: Persona, moments: seq<Moment>, now: int)
    requires forall i :: 0 <= i < |moments| ==> moments[i].now <= now
    ensures forall i :: 0 <= i < |Run(p, moments)| ==> Run(p, moments)[i].startedAt <= now
  {
    if moments != [] { RunStartsBefore(p, moments[..|moments| - 1], now); }
  }

  lemma ConsistentGrows(p: Persona, history: seq<PastEvent>, e: PastEvent)
    requires Consistent(p, history) && AllWellTimed(history) && WellTimed(e)
    requires forall j :: 0 <= j < |history| ==> Compatible(p, history[j], e)
    ensures Consistent(p, history + [e]) && AllWellTimed(history + [e])
  {
  }

  lemma DrawnWellTimed(input: DrawInput, rolls: Rolls)
    requires DrawEvent(input, rolls).Some?
    ensures WellTimed(EventOf(DrawEvent(input, rolls).value, input.now))
  {
    DrawnIsEligible(input, rolls);
    LengthInRange(DrawEvent(input, rolls).value.kind, rolls.duration);
  }

  /** A drawn event that fits keeps a consistent history consistent. */
  lemma StepConsistent(p: Persona, history: seq<PastEvent>, now: int, d: Option<Drawn>)
    requires Consistent(p, history) && AllWellTimed(history)
    requires d.Some? ==> WellTimed(EventOf(d.value, now))
    requires d.Some? ==> forall j :: 0 <= j < |history| ==> Compatible(p, history[j], EventOf(d.value, now))
    ensures Consistent(p, Appended(history, now, d)) && AllWellTimed(Appended(history, now, d))
  {
    if d.Some? { ConsistentGrows(p, history, EventOf(d.value, now)); }
  }

  lemma DrawKeeps(p: Persona, m: Moment, history: seq<PastEvent>)
    requires Consistent(p, history) && AllWellTimed(history)
    requires forall i :: 0 <= i < |history| ==> history[i].startedAt <= m.now
    ensures var after := Appended(history, m.now, DrawEvent(InputAt(p, m, history), m.rolls));
            Consistent(p, after) && AllWellTimed(after)
  {
    var input := InputAt(p, m, history);
    var d := DrawEvent(input, m.rolls);
    if d.Some? {
      DrawnWellTimed(input, m.rolls);
      forall j | 0 <= j < |history| ensures Compatible(p, history[j], EventOf(d.value, m.now)) {
        DrawFits(input, m.rolls, j);
      }
    }
    StepConsistent(p, history, m.now, d);
  }

  /** The invariant of every run: events are pairwise compatible and well timed. */
  lemma {:induction false} RunConsistent(p: Persona, moments: seq<Moment>)
    requires InOrder(moments)
    ensures Consistent(p, Run(p, moments)) && AllWellTimed(Run(p, moments))
  {
    if moments != [] {
      var m, front := moments[|moments| - 1], moments[..|moments| - 1];
      RunConsistent(p, front);
      RunStartsBefore(p, front, m.now);
      DrawKeeps(p, m, Run(p, front));
    }
  }

  predicate During(e: PastEvent, t: int) { e.startedAt <= t < e.endsAt }

  /** At every instant of every run: at most one foreground, at most one background, and
      where a foreground lies inside a background it is one the background allows. */
  lemma OneOfEach(p: Persona, moments: seq<Moment>, t: int, i: nat, j: nat)
    requires InOrder(moments) && i < j < |Run(p, moments)|
    requires During(Run(p, moments)[i], t) && During(Run(p, moments)[j], t)
    ensures var (a, b) := (Run(p, moments)[i], Run(p, moments)[j]);
            IsBackground(a.kind) && !IsBackground(b.kind) && !RulesOut(a.kind, b.kind)
  {
    RunConsistent(p, moments);
    assert Compatible(p, Run(p, moments)[i], Run(p, moments)[j]);
  }

  /** No background starts while an earlier event is under way. */
  lemma BackgroundStartsAlone(p: Persona, moments: seq<Moment>, i: nat, j: nat)
    requires InOrder(moments) && i < j < |Run(p, moments)| && IsBackground(Run(p, moments)[j].kind)
    ensures !During(Run(p, moments)[i], Run(p, moments)[j].startedAt)
  {
    RunConsistent(p, moments);
    assert Compatible(p, Run(p, moments)[i], Run(p, moments)[j]);
  }

  /** Starts of the same kind, of the same category, and of any two offline kinds are at
      least their cooldowns apart. */
  lemma CooldownsHold(p: Persona, moments: seq<Moment>, i: nat, j: nat)
    requires InOrder(moments) && i < j < |Run(p, moments)|
    ensures var (a, b) := (Run(p, moments)[i], Run(p, moments)[j]);
            var gap := b.startedAt - a.startedAt;
            && (a.kind == b.kind ==> gap >= 60 * RuleOf(a.kind).cooldownHours)
            && (Category(a.kind) == Category(b.kind) ==> gap >= 60 * CategoryCooldown(Category(a.kind)))
            && (IsOffline(a.kind, p) && IsOffline(b.kind, p) ==> gap >= 60 * 12)
  {
    RunConsistent(p, moments);
    assert Compatible(p, Run(p, moments)[i], Run(p, moments)[j]);
  }

  // ------------------------------------------------------- the bounded look back

  predicate IsRecent(e: PastEvent, now: int) {
    e.startedAt > now - 60 * Lookback()
  }

  /** What a reader of the last `Lookback()` hours sees. */
  function Recent(history: seq<PastEvent>, now: int): (r: seq<PastEvent>)
    ensures forall e :: e in r <==> e in history && IsRecent(e, now)
  {
    if history == [] then []
    else (if IsRecent(history[0], now) then [history[0]] else []) + Recent(history[1..], now)
  }

  /** An event too old to be read is over, and has been for more than the follow window. */
  lemma OldIsSpent(e: PastEvent, now: int)
    requires WellTimed(e) && !IsRecent(e, now)
    ensures !UnderWay(e, now) && e.endsAt <= now - 60 * FOLLOW_WINDOW_HOURS
  {
    LookbackIs();
    LongestIsAWeek(e.kind);
  }

  /** What is recent in `a` is in `b`, wherever it stands there. */
  predicate Covers(a: seq<PastEvent>, b: seq<PastEvent>, now: int) {
    forall j :: 0 <= j < |a| && IsRecent(a[j], now) ==> a[j] in b
  }

  lemma PartWellTimed(part: seq<PastEvent>, history: seq<PastEvent>)
    requires AllWellTimed(history) && forall j :: 0 <= j < |part| ==> part[j] in history
    ensures AllWellTimed(part)
  {
    forall j | 0 <= j < |part| ensures WellTimed(part[j]) {
      var i :| 0 <= i < |history| && history[i] == part[j];
    }
  }

  lemma InCovering(a: seq<PastEvent>, b: seq<PastEvent>, now: int, j: nat) returns (i: nat)
    requires Covers(a, b, now) && j < |a| && IsRecent(a[j], now)
    ensures i < |b| && b[i] == a[j]
  {
    i :| 0 <= i < |b| && b[i] == a[j];
  }

  lemma ForegroundCarries(a: seq<PastEvent>, b: seq<PastEvent>, now: int)
    requires AllWellTimed(a) && Covers(a, b, now) && ForegroundUnderWay(a, now)
    ensures ForegroundUnderWay(b, now)
  {
    var j :| 0 <= j < |a| && UnderWay(a[j], now) && !IsBackground(a[j].kind);
    if !IsRecent(a[j], now) { OldIsSpent(a[j], now); }
    var i := InCovering(a, b, now, j);
  }

  lemma KindWithinCarries(k: EventKind, hours: int, a: seq<PastEvent>, b: seq<PastEvent>, now: int)
    requires hours <= Lookback() && Covers(a, b, now) && KindWithin(k, hours, a, now)
    ensures KindWithin(k, hours, b, now)
  {
    var j :| 0 <= j < |a| && a[j].kind == k && Cooling(a[j].startedAt, hours, now);
    var i := InCovering(a, b, now, j);
  }

  lemma CategoryCarries(c: EventCategory, a: seq<PastEvent>, b: seq<PastEvent>, now: int)
    requires Covers(a, b, now) && CategoryCooling(c, a, now)
    ensures CategoryCooling(c, b, now)
  {
    LookbackIs();
    var j :| 0 <= j < |a| && Category(a[j].kind) == c && Cooling(a[j].startedAt, CategoryCooldown(c), now);
    var i := InCovering(a, b, now, j);
  }

  lemma OfflineCarries(p: Persona, a: seq<PastEvent>, b: seq<PastEvent>, now: int)
    requires Covers(a, b, now) && OfflineCooling(p, a, now)
    ensures OfflineCooling(p, b, now)
  {
    LookbackIs();
    var j :| 0 <= j < |a| && IsOffline(a[j].kind, p) && Cooling(a[j].startedAt, OFFLINE_COOLDOWN_HOURS, now);
    var i := InCovering(a, b, now, j);
  }

  lemma PriorsCarry(k: EventKind, a: seq<PastEvent>, b: seq<PastEvent>, now: int)
    requires AllWellTimed(a) && Covers(a, b, now)
    ensures LivePriors(k, a, now) <= LivePriors(k, b, now)
  {
    forall kind | kind in LivePriors(k, a, now) ensures kind in LivePriors(k, b, now) {
      var j :| 0 <= j < |a| && IsLivePrior(a[j], k, now) && a[j].kind == kind;
      if !IsRecent(a[j], now) { OldIsSpent(a[j], now); }
      var i := InCovering(a, b, now, j);
    }
  }

  /** Two inputs that differ in their histories only, and there only in order, in repeats,
      and in events that are not recent. */
  predicate Alike(a: DrawInput, b: DrawInput) {
    && b == a.(history := b.history)
    && AllWellTimed(a.history) && AllWellTimed(b.history)
    && Covers(a.history, b.history, a.now) && Covers(b.history, a.history, a.now)
    && Background(a.history, a.now) == Background(b.history, a.now)
  }

  lemma EligibleCarries(k: EventKind, a: DrawInput, b: DrawInput)
    requires Alike(a, b) && IsEligible(k, a)
    ensures IsEligible(k, b)
  {
    LookbackIs();
    CooldownWithin(k);
    if KindCooling(k, b.history, b.now) {
      KindWithinCarries(k, RuleOf(k).cooldownHours, b.history, a.history, a.now);
    }
    if CategoryCooling(Category(k), b.history, b.now) { CategoryCarries(Category(k), b.history, a.history, a.now); }
    if OfflineCooling(b.persona, b.history, b.now) { OfflineCarries(a.persona, b.history, a.history, a.now); }
  }

  lemma {:induction false} SameEligible(ks: seq<EventKind>, a: DrawInput, b: DrawInput)
    requires Alike(a, b) && Alike(b, a)
    ensures Eligible(ks, a) == Eligible(ks, b)
  {
    if ks != [] {
      SameEligible(ks[1..], a, b);
      if IsEligible(ks[0], a) { EligibleCarries(ks[0], a, b); }
      if IsEligible(ks[0], b) { EligibleCarries(ks[0], b, a); }
    }
  }

  lemma SameKindWeight(k: EventKind, a: DrawInput, b: DrawInput)
    requires Alike(a, b)
    ensures KindWeight(k, a) == KindWeight(k, b)
  {
    PriorsCarry(k, a.history, b.history, a.now);
    PriorsCarry(k, b.history, a.history, a.now);
    assert LivePriors(k, a.history, a.now) == LivePriors(k, b.history, a.now);
  }

  lemma SameWeights(eligible: seq<EventKind>, c: EventCategory, a: DrawInput, b: DrawInput)
    requires Alike(a, b)
    ensures KindWeights(eligible, c, a) == KindWeights(eligible, c, b)
  {
    var ks := OfCategory(eligible, c);
    forall j | 0 <= j < |ks| ensures KindShares(a)(ks[j]) == KindShares(b)(ks[j]) { SameKindWeight(ks[j], a, b); }
  }

  /** Alike inputs draw alike. */
  lemma DrawsAlike(a: DrawInput, b: DrawInput, rolls: Rolls)
    requires Alike(a, b)
    ensures DrawEvent(a, rolls) == DrawEvent(b, rolls)
  {
    if ForegroundUnderWay(a.history, a.now) { ForegroundCarries(a.history, b.history, a.now); }
    if ForegroundUnderWay(b.history, b.now) { ForegroundCarries(b.history, a.history, a.now); }
    SameEligible(ALL, a, b);
    forall c ensures KindWeights(Eligible(ALL, a), c, a) == KindWeights(Eligible(ALL, a), c, b) {
      SameWeights(Eligible(ALL, a), c, a, b);
    }
  }

  lemma {:induction false} BackgroundKept(history: seq<PastEvent>, now: int)
    requires AllWellTimed(history)
    ensures Background(Recent(history, now), now) == Background(history, now)
  {
    if history != [] {
      BackgroundKept(history[1..], now);
      if IsRecent(history[0], now) {
        assert Recent(history, now)[1..] == Recent(history[1..], now);
      } else {
        OldIsSpent(history[0], now);
        assert Recent(history, now) == Recent(history[1..], now);
      }
    }
  }

  /** The look back is enough: a draw that reads only the last `Lookback()` hours is the
      draw that reads everything, provided no event outlasts its kind. */
  lemma LookbackSuffices(input: DrawInput, rolls: Rolls)
    requires AllWellTimed(input.history)
    ensures DrawEvent(input.(history := Recent(input.history, input.now)), rolls) == DrawEvent(input, rolls)
  {
    BackgroundKept(input.history, input.now);
    PartWellTimed(Recent(input.history, input.now), input.history);
    DrawsAlike(input.(history := Recent(input.history, input.now)), input, rolls);
  }

  // ------------------------------------------------------ the store's own reading

  predicate InWindow(e: PastEvent, now: int) {
    e.startedAt >= now - 60 * Lookback()
  }

  /** What the store may return: the events that started at or after the look back, in any
      order. (It sorts by start and, where starts are equal, by an identifier that means
      nothing here.) */
  predicate IsReading(read: seq<PastEvent>, history: seq<PastEvent>, now: int) {
    && (forall j :: 0 <= j < |read| ==> read[j] in history && InWindow(read[j], now))
    && (forall i :: 0 <= i < |history| && InWindow(history[i], now) ==> history[i] in read)
  }

  type Reader = (seq<PastEvent>, int) -> seq<PastEvent>

  ghost predicate ReadsTheWindow(reader: Reader) {
    forall history, now :: IsReading(reader(history, now), history, now)
  }

  /** Newest first. */
  function ReadBack(history: seq<PastEvent>, now: int): (r: seq<PastEvent>)
    ensures forall e :: e in r <==> e in history && InWindow(e, now)
  {
    if history == [] then []
    else ReadBack(history[1..], now) + if InWindow(history[0], now) then [history[0]] else []
  }

  /** There are such readers: the one that returns the window newest first. */
  lemma ReadBackReads()
    ensures ReadsTheWindow(ReadBack)
  {
    forall history, now ensures IsReading(ReadBack(history, now), history, now) {
      var read := ReadBack(history, now);
      assert forall j :: 0 <= j < |read| ==> read[j] in read;
    }
  }

  lemma {:induction false} BackgroundFound(history: seq<PastEvent>, now: int) returns (j: nat)
    requires Background(history, now).Some?
    ensures j < |history| && UnderWay(history[j], now) && IsBackground(history[j].kind)
    ensures Background(history, now) == Some(history[j].kind)
  {
    if UnderWay(history[0], now) && IsBackground(history[0].kind) {
      j := 0;
    } else {
      var i := BackgroundFound(history[1..], now);
      j := i + 1;
    }
  }

  lemma {:induction false} SomeBackground(history: seq<PastEvent>, now: int, j: nat)
    requires j < |history| && UnderWay(history[j], now) && IsBackground(history[j].kind)
    ensures Background(history, now).Some?
  {
    if j > 0 { SomeBackground(history[1..], now, j - 1); }
  }

  /** Read in any order, the background under way is the same. */
  lemma BackgroundRead(p: Persona, read: seq<PastEvent>, history: seq<PastEvent>, now: int)
    requires Consistent(p, history) && AllWellTimed(history) && IsReading(read, history, now)
    requires forall i :: 0 <= i < |history| ==> history[i].startedAt <= now
    ensures Background(read, now) == Background(history, now)
  {
    if Background(read, now).Some? {
      var j := BackgroundFound(read, now);
      var i :| 0 <= i < |history| && history[i] == read[j];
      OnlyBackground(p, history, now, i);
    } else if Background(history, now).Some? {
      var j := BackgroundFound(history, now);
      if !IsRecent(history[j], now) { OldIsSpent(history[j], now); }
      var i :| 0 <= i < |read| && read[i] == history[j];
      SomeBackground(read, now, i);
    }
  }

  lemma ReadingCovers(read: seq<PastEvent>, history: seq<PastEvent>, now: int)
    requires AllWellTimed(history) && IsReading(read, history, now)
    ensures Covers(read, history, now) && Covers(history, read, now) && AllWellTimed(read)
  {
    PartWellTimed(read, history);
  }

  lemma ReadingAlike(p: Persona, m: Moment, read: seq<PastEvent>, history: seq<PastEvent>)
    requires Consistent(p, history) && AllWellTimed(history) && IsReading(read, history, m.now)
    requires forall i :: 0 <= i < |history| ==> history[i].startedAt <= m.now
    ensures Alike(InputAt(p, m, read), InputAt(p, m, history))
  {
    BackgroundRead(p, read, history, m.now);
    ReadingCovers(read, history, m.now);
  }

  /** A draw on what the store returns is the draw on the whole history. */
  lemma ReadBackSuffices(p: Persona, m: Moment, read: seq<PastEvent>, history: seq<PastEvent>)
    requires Consistent(p, history) && AllWellTimed(history) && IsReading(read, history, m.now)
    requires forall i :: 0 <= i < |history| ==> history[i].startedAt <= m.now
    ensures DrawEvent(InputAt(p, m, read), m.rolls) == DrawEvent(InputAt(p, m, history), m.rolls)
  {
    ReadingAlike(p, m, read, history);
    DrawsAlike(InputAt(p, m, read), InputAt(p, m, history), m.rolls);
  }

  /** The run of a server that reads its store back at every draw. */
  function ServedRun(p: Persona, moments: seq<Moment>, reader: Reader): seq<PastEvent> {
    if moments == [] then []
    else
      var m, before := moments[|moments| - 1], ServedRun(p, moments[..|moments| - 1], reader);
      Appended(before, m.now, DrawEvent(InputAt(p, m, reader(before, m.now)), m.rolls))
  }

  /** Reading only the window, in whatever order, over a whole life, changes nothing:
      everything a run keeps, the served run keeps. */
  lemma {:induction false} ServedRunIsRun(p: Persona, moments: seq<Moment>, reader: Reader)
    requires InOrder(moments) && ReadsTheWindow(reader)
    ensures ServedRun(p, moments, reader) == Run(p, moments)
  {
    if moments != [] {
      var m, front := moments[|moments| - 1], moments[..|moments| - 1];
      ServedRunIsRun(p, front, reader);
      RunConsistent(p, front);
      RunStartsBefore(p, front, m.now);
      assert IsReading(reader(Run(p, front), m.now), Run(p, front), m.now);
      ReadBackSuffices(p, m, reader(Run(p, front), m.now), Run(p, front));
    }
  }
}
