/** The store of life events under both of its writers: events that wait until she is free,
    and events that displace what she is doing. */
module EventStore {
  import opened LifeEvents
  import opened Draw
  import opened EventRuns

  /** `insert`'s guard: nothing in the way is still under way when the event starts. A
      foreground is in any event's way, a background in a background's. */
  predicate IsFree(store: seq<PastEvent>, e: PastEvent) {
    forall i :: 0 <= i < |store| ==>
                  !(store[i].startedAt > e.startedAt - 60 * Lookback() && store[i].endsAt > e.startedAt &&
                    (IsBackground(e.kind) || !IsBackground(store[i].kind)))
  }

  function Inserted(store: seq<PastEvent>, e: PastEvent): seq<PastEvent> {
    if IsFree(store, e) then store + [e] else store
  }

  /** A foreground under way at `t` ends there; one that starts at `t` itself cannot. */
  function Cap(e: PastEvent, t: int): PastEvent {
    if e.startedAt < t < e.endsAt && !IsBackground(e.kind) then e.(endsAt := t) else e
  }

  function Capped(store: seq<PastEvent>, t: int): (r: seq<PastEvent>)
    ensures |r| == |store| && forall i :: 0 <= i < |r| ==> r[i] == Cap(store[i], t)
  {
    seq(|store|, i requires 0 <= i < |store| => Cap(store[i], t))
  }

  /** `insert_preempting` */
  function Displaced(store: seq<PastEvent>, e: PastEvent): seq<PastEvent> {
    Capped(store, e.startedAt) + [e]
  }

  /** What displacing leaves of the past: at every instant the same events are under way as
      before, but for foregrounds that began before the new one, which are over from its start
      on. Kinds and starts stay, and the new event comes last. */
  lemma DisplacedCutsExactly(store: seq<PastEvent>, e: PastEvent, i: nat, t: int)
    requires i < |store|
    ensures var after := Displaced(store, e);
            && |after| == |store| + 1 && after[|store|] == e
            && after[i].kind == store[i].kind && after[i].startedAt == store[i].startedAt
            && (During(after[i], t) <==>
                During(store[i], t) && !(!IsBackground(store[i].kind) && store[i].startedAt < e.startedAt <= t))
  {
  }

  /** The guard, said without its window: she is free exactly when every event in the way is
      over by the start. What waits is written whole, or not at all. */
  lemma FreeExactlyWhen(store: seq<PastEvent>, e: PastEvent)
    requires AllWellTimed(store)
    ensures var free := forall i :: 0 <= i < |store| && (IsBackground(e.kind) || !IsBackground(store[i].kind)) ==>
                                      store[i].endsAt <= e.startedAt;
            Inserted(store, e) == (if free then store + [e] else store)
  {
    if IsFree(store, e) {
      forall i | 0 <= i < |store| && (IsBackground(e.kind) || !IsBackground(store[i].kind))
        ensures store[i].endsAt <= e.startedAt
      {
        FreeIsOver(store, e, i);
      }
    }
  }

  /** What happens to the store: a draw on what it holds, written if she is free; an event
      drawn on an older reading, written if she is free now; an event that displaces. */
  datatype Act = Try(moment: Moment) | Late(event: PastEvent) | Displace(event: PastEvent)

  function Done(p: Persona, store: seq<PastEvent>, act: Act): seq<PastEvent> {
    match act
    case Try(m) =>
      (match DrawEvent(InputAt(p, m, store), m.rolls)
       case None => store
       case Some(d) => Inserted(store, EventOf(d, m.now)))
    case Late(e) => Inserted(store, e)
    case Displace(e) => Displaced(store, e)
  }

  function After(p: Persona, acts: seq<Act>): seq<PastEvent> {
    if acts == [] then [] else Done(p, After(p, acts[..|acts| - 1]), acts[|acts| - 1])
  }

  predicate AllTimed(acts: seq<Act>) {
    forall k :: 0 <= k < |acts| && !acts[k].Try? ==> WellTimed(acts[k].event)
  }

  // --------------------------------------------------- one foreground at a time

  /** Two events share an instant. */
  predicate Meet(a: PastEvent, b: PastEvent) {
    a.startedAt < b.endsAt && b.startedAt < a.endsAt
  }

  lemma MeetExactlyWhen(a: PastEvent, b: PastEvent)
    requires a.startedAt < a.endsAt && b.startedAt < b.endsAt
    ensures Meet(a, b) <==> exists t :: During(a, t) && During(b, t)
  {
    var t := if a.startedAt >= b.startedAt then a.startedAt else b.startedAt;
    if Meet(a, b) { assert During(a, t) && During(b, t); }
  }

  /** At every instant, at most one of the events of one sort is under way. */
  predicate OneAtATime(store: seq<PastEvent>, background: bool) {
    forall i, j :: 0 <= i < j < |store| && IsBackground(store[i].kind) == IsBackground(store[j].kind) == background ==>
                     !Meet(store[i], store[j])
  }

  /** No foreground in the store starts at or after `e` does and before `e` ends. */
  predicate IsClearAhead(store: seq<PastEvent>, e: PastEvent) {
    forall i :: 0 <= i < |store| && !IsBackground(store[i].kind) ==> !(e.startedAt <= store[i].startedAt < e.endsAt)
  }

  /** An event over by the time the other starts, however far back it lies. */
  lemma FreeIsOver(store: seq<PastEvent>, e: PastEvent, i: nat)
    requires IsFree(store, e) && i < |store| && WellTimed(store[i])
    requires IsBackground(e.kind) || !IsBackground(store[i].kind)
    ensures store[i].endsAt <= e.startedAt
  {
    if !(store[i].startedAt > e.startedAt - 60 * Lookback()) { OldIsSpent(store[i], e.startedAt); }
  }

  /** Waiting keeps it one at a time, of either sort, in whatever order events are written. */
  lemma InsertedKeeps(store: seq<PastEvent>, e: PastEvent, background: bool)
    requires AllWellTimed(store) && WellTimed(e) && OneAtATime(store, background)
    ensures AllWellTimed(Inserted(store, e)) && OneAtATime(Inserted(store, e), background)
  {
    if IsFree(store, e) && IsBackground(e.kind) == background {
      forall i | 0 <= i < |store| && IsBackground(store[i].kind) == background ensures !Meet(store[i], e) {
        FreeIsOver(store, e, i);
      }
    }
  }

  lemma CappedKeeps(store: seq<PastEvent>, t: int, background: bool)
    requires AllWellTimed(store) && OneAtATime(store, background)
    ensures AllWellTimed(Capped(store, t)) && OneAtATime(Capped(store, t), background)
  {
    var capped := Capped(store, t);
    forall i, j | 0 <= i < j < |capped| && IsBackground(capped[i].kind) == IsBackground(capped[j].kind) == background
      ensures !Meet(capped[i], capped[j])
    {
      assert !Meet(store[i], store[j]);
    }
  }

  /** What displacing keeps: a foreground that comes in at `t` shares no instant with any
      other exactly when none starts between `t` and its end. */
  lemma DisplacedKeepsExactlyWhen(store: seq<PastEvent>, e: PastEvent)
    requires AllWellTimed(store) && WellTimed(e) && OneAtATime(store, false)
    ensures AllWellTimed(Displaced(store, e))
    ensures OneAtATime(Displaced(store, e), false) <==> IsBackground(e.kind) || IsClearAhead(store, e)
  {
    var capped, after := Capped(store, e.startedAt), Displaced(store, e);
    CappedKeeps(store, e.startedAt, false);
    forall i | 0 <= i < |store| && !IsBackground(store[i].kind)
      ensures Meet(capped[i], e) <==> e.startedAt <= store[i].startedAt < e.endsAt
    {
      assert WellTimed(store[i]) && capped[i] == Cap(store[i], e.startedAt);
    }
    assert forall i :: 0 <= i < |store| ==> after[i] == capped[i];
    assert after[|store|] == e;
    if !IsBackground(e.kind) && !IsClearAhead(store, e) {
      var i :| 0 <= i < |store| && !IsBackground(store[i].kind) && e.startedAt <= store[i].startedAt < e.endsAt;
      assert Meet(after[i], after[|store|]);
    }
  }

  /** The act does not displace with a foreground that another would cut into. */
  predicate IsUnobstructed(store: seq<PastEvent>, act: Act) {
    act.Displace? && !IsBackground(act.event.kind) ==> IsClearAhead(store, act.event)
  }

  lemma DoneKeepsExactlyWhen(p: Persona, store: seq<PastEvent>, act: Act)
    requires AllWellTimed(store) && OneAtATime(store, false) && (act.Try? || WellTimed(act.event))
    ensures AllWellTimed(Done(p, store, act))
    ensures OneAtATime(Done(p, store, act), false) <==> IsUnobstructed(store, act)
  {
    match act
    case Try(m) =>
      var d := DrawEvent(InputAt(p, m, store), m.rolls);
      if d.Some? {
        DrawnWellTimed(InputAt(p, m, store), m.rolls);
        InsertedKeeps(store, EventOf(d.value, m.now), false);
      }
    case Late(e) => InsertedKeeps(store, e, false);
    case Displace(e) => DisplacedKeepsExactlyWhen(store, e);
  }

  /** The store after the first `k` acts. */
  function Until(p: Persona, acts: seq<Act>, k: nat): seq<PastEvent>
    requires k <= |acts|
  {
    After(p, acts[..k])
  }

  lemma UntilStep(p: Persona, acts: seq<Act>, k: nat)
    requires k < |acts|
    ensures Until(p, acts, k + 1) == Done(p, Until(p, acts, k), acts[k])
  {
    assert acts[..k + 1][..k] == acts[..k];
  }

  predicate UnobstructedUntil(p: Persona, acts: seq<Act>, n: nat)
    requires n <= |acts|
  {
    forall k :: 0 <= k < n ==> IsUnobstructed(Until(p, acts, k), acts[k])
  }

  predicate OneForegroundUntil(p: Persona, acts: seq<Act>, n: nat)
    requires n <= |acts|
  {
    forall k :: 0 <= k <= n ==> OneAtATime(Until(p, acts, k), false)
  }

  /** Draws and displacing events mixed in any order: at every point of the run, at most one
      foreground is under way at every instant, exactly when every displacing foreground
      finds none that starts between its own start and end. */
  lemma {:induction false} OneForegroundExactlyWhen(p: Persona, acts: seq<Act>, n: nat)
    requires AllTimed(acts) && n <= |acts|
    ensures OneForegroundUntil(p, acts, n) <==> UnobstructedUntil(p, acts, n)
    ensures UnobstructedUntil(p, acts, n) ==> AllWellTimed(Until(p, acts, n))
  {
    if n > 0 {
      OneForegroundExactlyWhen(p, acts, n - 1);
      UntilStep(p, acts, n - 1);
      if OneForegroundUntil(p, acts, n - 1) {
        DoneKeepsExactlyWhen(p, Until(p, acts, n - 1), acts[n - 1]);
      }
      OneMoreAct(p, acts, n);
    } else {
      assert Until(p, acts, 0) == [];
    }
  }

  lemma OneMoreAct(p: Persona, acts: seq<Act>, n: nat)
    requires 0 < n <= |acts|
    ensures OneForegroundUntil(p, acts, n) <==>
            OneForegroundUntil(p, acts, n - 1) && OneAtATime(Until(p, acts, n), false)
    ensures UnobstructedUntil(p, acts, n) <==>
            UnobstructedUntil(p, acts, n - 1) && IsUnobstructed(Until(p, acts, n - 1), acts[n - 1])
  {
  }

  /** Two events that displace at one instant both stand: neither cuts the other short. */
  lemma TwoAtOnceBothStand(p: Persona, a: PastEvent, b: PastEvent)
    requires WellTimed(a) && WellTimed(b) && a.startedAt == b.startedAt && !IsBackground(a.kind) && !IsBackground(b.kind)
    ensures After(p, [Displace(a), Displace(b)]) == [a, b] && Meet(a, b)
  {
    var acts := [Displace(a), Displace(b)];
    assert acts[..1] == [Displace(a)] && [Displace(a)][..0] == [];
    assert After(p, [Displace(a)]) == [a];
    assert Capped([a], b.startedAt) == [a];
  }

  // ------------------------------------------------------- what holds regardless

  /** Only the kinds written directly displace. */
  predicate OnlySpecialDisplace(acts: seq<Act>) {
    forall k :: 0 <= k < |acts| && acts[k].Displace? ==> IsSpecial(acts[k].event.kind)
  }

  /** Backgrounds stay one at a time whatever is displaced. */
  lemma {:induction false} OneBackgroundAlways(p: Persona, acts: seq<Act>)
    requires AllTimed(acts) && OnlySpecialDisplace(acts)
    ensures AllWellTimed(After(p, acts)) && OneAtATime(After(p, acts), true)
  {
    if acts != [] {
      var front, last := acts[..|acts| - 1], acts[|acts| - 1];
      OneBackgroundAlways(p, front);
      var store := After(p, front);
      match last
      case Try(m) =>
        var d := DrawEvent(InputAt(p, m, store), m.rolls);
        if d.Some? {
          DrawnWellTimed(InputAt(p, m, store), m.rolls);
          InsertedKeeps(store, EventOf(d.value, m.now), true);
        }
      case Late(e) => InsertedKeeps(store, e, true);
      case Displace(e) => CappedKeeps(store, e.startedAt, true);
    }
  }

  /** What is drawn on the store as it is finds her free: the guard refuses stale draws
      only. */
  lemma DrawnIsFree(input: DrawInput, rolls: Rolls)
    requires DrawEvent(input, rolls).Some?
    ensures IsFree(input.history, EventOf(DrawEvent(input, rolls).value, input.now))
  {
    DrawnIsEligible(input, rolls);
    var e := EventOf(DrawEvent(input, rolls).value, input.now);
    forall i | 0 <= i < |input.history| && UnderWay(input.history[i], input.now)
      ensures !IsBackground(e.kind) && IsBackground(input.history[i].kind)
    {
      assert IsBackground(input.history[i].kind);
      SomeBackground(input.history, input.now, i);
    }
  }

  /** The three cooldowns, from one start to a later one. */
  predicate IsSpaced(p: Persona, a: PastEvent, b: PastEvent) {
    var gap := b.startedAt - a.startedAt;
    && (a.kind == b.kind ==> gap >= 60 * RuleOf(b.kind).cooldownHours)
    && (Category(a.kind) == Category(b.kind) ==> gap >= 60 * CategoryCooldown(Category(b.kind)))
    && (IsOffline(a.kind, p) && IsOffline(b.kind, p) ==> gap >= 60 * OFFLINE_COOLDOWN_HOURS)
  }

  /** Every event that was drawn keeps its cooldowns from all written before it. */
  predicate DrawnSpaced(p: Persona, store: seq<PastEvent>) {
    forall i, j :: 0 <= i < j < |store| && !IsSpecial(store[j].kind) ==> IsSpaced(p, store[i], store[j])
  }

  lemma DrawnIsSpaced(input: DrawInput, rolls: Rolls, i: nat)
    requires DrawEvent(input, rolls).Some? && i < |input.history|
    ensures IsSpaced(input.persona, input.history[i], EventOf(DrawEvent(input, rolls).value, input.now))
  {
    DrawnIsEligible(input, rolls);
    var k := DrawEvent(input, rolls).value.kind;
    assert !KindWithin(k, RuleOf(k).cooldownHours, input.history, input.now);
  }

  lemma SpacedGrows(p: Persona, store: seq<PastEvent>, e: PastEvent)
    requires DrawnSpaced(p, store)
    requires !IsSpecial(e.kind) ==> forall i :: 0 <= i < |store| ==> IsSpaced(p, store[i], e)
    ensures DrawnSpaced(p, store + [e])
  {
  }

  lemma TrySpaced(p: Persona, m: Moment, store: seq<PastEvent>)
    requires DrawnSpaced(p, store)
    ensures DrawnSpaced(p, Done(p, store, Try(m)))
  {
    var d := DrawEvent(InputAt(p, m, store), m.rolls);
    if d.Some? {
      forall i | 0 <= i < |store| ensures IsSpaced(p, store[i], EventOf(d.value, m.now)) {
        DrawnIsSpaced(InputAt(p, m, store), m.rolls, i);
      }
      SpacedGrows(p, store, EventOf(d.value, m.now));
    }
  }

  /** Displacing events do not cost the draws their cooldowns, before or after. */
  lemma {:induction false} CooldownsSurvive(p: Persona, acts: seq<Act>)
    requires OnlySpecialDisplace(acts) && forall k :: 0 <= k < |acts| ==> !acts[k].Late?
    ensures DrawnSpaced(p, After(p, acts))
  {
    if acts != [] {
      var front, last := acts[..|acts| - 1], acts[|acts| - 1];
      CooldownsSurvive(p, front);
      var store := After(p, front);
      match last
      case Try(m) => TrySpaced(p, m, store);
      case Displace(e) =>
        CappedSpaced(p, store, e.startedAt);
        SpacedGrows(p, Capped(store, e.startedAt), e);
    }
  }

  lemma CappedSpaced(p: Persona, store: seq<PastEvent>, t: int)
    requires DrawnSpaced(p, store)
    ensures DrawnSpaced(p, Capped(store, t))
  {
    forall i, j | 0 <= i < j < |store| && !IsSpecial(store[j].kind) ensures IsSpaced(p, Cap(store[i], t), Cap(store[j], t)) {
      assert IsSpaced(p, store[i], store[j]);
    }
  }
}
