/** What an accepted gift keeps doing over the turns after it: a curve of levels by step,
    read off the history turn by turn. */
module Effects {
  import opened Text

  datatype Item =
    | Cigarette | Food | SoftDrink | Tea | Alcohol | Medicine | Coffee | Herb
    | Watch | Gem | Gold | Camera | Cash | Antique | Artwork | Handmade | CreditCard | Flower

  /** What a turn carried: a gift, or one of the other actions, which all count alike here. */
  datatype UserAction = Give(item: Item, name: Option<string>, quantity: nat) | Other(text: string)

  datatype Shape = Front | Back | Middle

  datatype Phase = Rising | Peak | Fading

  datatype Effect = Effect(item: Item, name: Option<string>, quantity: nat, level: nat, phase: Phase, step: nat, steps: nat)

  type Row = seq<nat>

  /** The quantities above which every gift runs the heavy row, and the longest row. */
  const MAX_STEPS: nat := 5

  function ShapeOf(item: Item): Option<Shape> {
    match item
    case Cigarette | Food | SoftDrink | Tea => Some(Front)
    case Alcohol => Some(Back)
    case Medicine | Coffee | Herb => Some(Middle)
    case _ => None
  }

  function Light(shape: Shape): seq<Row> {
    match shape
    case Front => [[3], [3, 1], [3, 2, 1], [3, 2, 2, 1], [3, 3, 2, 2, 1]]
    case Back => [[1], [1, 3], [1, 2, 3], [1, 2, 2, 3], [1, 2, 2, 3, 3]]
    case Middle => [[3], [3, 3], [1, 3, 1], [1, 3, 3, 1], [1, 2, 3, 2, 1]]
  }

  function Heavy(shape: Shape): Row {
    match shape
    case Front => [4, 3, 3, 2, 1]
    case Back => [1, 2, 3, 4, 4]
    case Middle => [1, 3, 4, 2, 1]
  }

  /** The row of an item and a quantity; none for a valuable and for quantity 0. */
  function Curve(item: Item, quantity: nat): (row: Row)
    ensures |row| == if ShapeOf(item).None? then 0 else if quantity <= MAX_STEPS then quantity else MAX_STEPS
    ensures forall k :: 0 <= k < |row| ==> 1 <= row[k] <= 4 && (row[k] == 4 ==> quantity > MAX_STEPS)
  {
    match ShapeOf(item)
    case None => []
    case Some(shape) =>
      if quantity == 0 then []
      else if quantity <= MAX_STEPS then Light(shape)[quantity - 1]
      else Heavy(shape)
  }

  /** The row's highest level. */
  function Top(row: Row): (top: nat)
    ensures forall k :: 0 <= k < |row| ==> row[k] <= top
    ensures row != [] ==> top in row
  {
    if row == [] then 0
    else
      var rest := Top(row[..|row| - 1]);
      var last := row[|row| - 1];
      if last >= rest then last else rest
  }

  /** Where a level first stands; 0 where it does not. */
  function FirstAt(row: Row, level: nat): (k: nat)
    ensures level in row ==> k < |row| && row[k] == level && forall j :: 0 <= j < k ==> row[j] != level
    ensures level !in row ==> k == 0
  {
    if level !in row then 0
    else if row[0] == level then 0
    else 1 + FirstAt(row[1..], level)
  }

  function PhaseAt(row: Row, i: nat): Phase
    requires i < |row|
  {
    if row[i] == Top(row) then Peak
    else if i < FirstAt(row, Top(row)) then Rising
    else Fading
  }

  /** The effect of what a turn `i` turns back carried, if it still lasts. */
  function EffectAt(action: Option<UserAction>, i: nat): Option<Effect> {
    if action.None? || !action.value.Give? then None
    else
      var g := action.value;
      var row := Curve(g.item, g.quantity);
      if i < |row| then Some(Effect(g.item, g.name, g.quantity, row[i], PhaseAt(row, i), i + 1, |row|))
      else None
  }

  function Kept(e: Option<Effect>): seq<Effect> { if e.Some? then [e.value] else [] }

  /** The effects of the turns before, newest first; the newest is `age` turns back. */
  function EffectsFrom(prior: seq<Option<UserAction>>, age: nat): seq<Effect> {
    if prior == [] then [] else Kept(EffectAt(prior[0], age)) + EffectsFrom(prior[1..], age + 1)
  }

  function ActiveEffects(prior: seq<Option<UserAction>>): seq<Effect> { EffectsFrom(prior, 0) }

  // ----------------------------------------------------------- one turn at a time

  /** One turn later, an effect is on its next step, or over if it was on its last. */
  function Advance(e: Effect): Option<Effect> {
    var row := Curve(e.item, e.quantity);
    if e.step < |row| then Some(e.(level := row[e.step], phase := PhaseAt(row, e.step), step := e.step + 1))
    else None
  }

  function AdvanceAll(es: seq<Effect>): seq<Effect> {
    if es == [] then [] else Kept(Advance(es[0])) + AdvanceAll(es[1..])
  }

  lemma AdvanceIsNextAge(action: Option<UserAction>, i: nat)
    ensures EffectAt(action, i).Some? ==> Advance(EffectAt(action, i).value) == EffectAt(action, i + 1)
    ensures EffectAt(action, i).None? ==> EffectAt(action, i + 1).None?
  {
  }

  lemma {:induction false} EffectsAge(prior: seq<Option<UserAction>>, age: nat)
    ensures EffectsFrom(prior, age + 1) == AdvanceAll(EffectsFrom(prior, age))
  {
    if prior != [] {
      AdvanceIsNextAge(prior[0], age);
      EffectsAge(prior[1..], age + 1);
      var head, rest := EffectAt(prior[0], age), EffectsFrom(prior[1..], age + 1);
      if head.Some? {
        assert ([head.value] + rest)[1..] == rest;
      } else {
        assert [] + rest == rest;
        assert Kept(EffectAt(prior[0], age + 1)) + EffectsFrom(prior[1..], age + 2) == EffectsFrom(prior[1..], age + 2);
      }
    }
  }

  /** A turn more steps the world once: its gift at step one, if it lingers at all, then
      every earlier effect one step on, without those that were on their last. */
  lemma TurnStepsTheWorld(action: Option<UserAction>, prior: seq<Option<UserAction>>)
    ensures ActiveEffects([action] + prior) == Kept(EffectAt(action, 0)) + AdvanceAll(ActiveEffects(prior))
  {
    assert ([action] + prior)[1..] == prior;
    EffectsAge(prior, 0);
  }

  /** The world kept from turn to turn instead of read off the history. */
  function Stepped(prior: seq<Option<UserAction>>): seq<Effect> {
    if prior == [] then [] else Kept(EffectAt(prior[0], 0)) + AdvanceAll(Stepped(prior[1..]))
  }

  lemma {:induction false} SteppedIsActive(prior: seq<Option<UserAction>>)
    ensures Stepped(prior) == ActiveEffects(prior)
  {
    if prior != [] {
      SteppedIsActive(prior[1..]);
      TurnStepsTheWorld(prior[0], prior[1..]);
      assert [prior[0]] + prior[1..] == prior;
    }
  }

  /** Only the last five turns matter. */
  lemma {:induction false} OlderTurnsDoNotMatter(prior: seq<Option<UserAction>>, older: seq<Option<UserAction>>, age: nat)
    requires |prior| + age >= MAX_STEPS
    ensures EffectsFrom(prior + older, age) == EffectsFrom(prior, age)
    decreases |prior| + |older|
  {
    if prior != [] {
      assert (prior + older)[1..] == prior[1..] + older;
      OlderTurnsDoNotMatter(prior[1..], older, age + 1);
    } else if older != [] {
      assert prior + older == older;
      assert [] + older[1..] == older[1..];
      OlderTurnsDoNotMatter([], older[1..], age + 1);
    } else {
      assert prior + older == prior;
    }
  }

  // ----------------------------------------------------------------- a row's life

  /** Levels that climb to the top, stay there from `p` to `q`, and come down. */
  predicate Hill(row: Row, p: nat, q: nat) {
    && p <= q < |row|
    && (forall k :: p <= k <= q ==> row[k] == row[p])
    && (forall k :: 0 <= k < |row| && !(p <= k <= q) ==> row[k] < row[p])
    && (forall j, k :: 0 <= j <= k < p ==> row[j] <= row[k])
    && (forall j, k :: q < j <= k < |row| ==> row[k] <= row[j])
  }

  /** First rising, then at the peak from `p` to `q`, then fading. */
  predicate RunsThrough(row: Row, p: nat, q: nat) {
    forall k :: 0 <= k < |row| ==> PhaseAt(row, k) == if k < p then Rising else if k <= q then Peak else Fading
  }

  lemma HillPhases(row: Row, p: nat, q: nat)
    requires Hill(row, p, q)
    ensures RunsThrough(row, p, q)
  {
    assert row[p] <= Top(row);
    var k :| 0 <= k < |row| && row[k] == Top(row);
    assert Top(row) == row[p];
    assert FirstAt(row, Top(row)) == p;
  }

  /** Every row is one hill: along an effect's life it rises, is at its peak, and fades, the
      levels moving with the phase. */
  lemma EffectsRiseAndFade(item: Item, quantity: nat)
    requires Curve(item, quantity) != []
    ensures exists p, q :: Hill(Curve(item, quantity), p, q) && RunsThrough(Curve(item, quantity), p, q)
  {
    var row := Curve(item, quantity);
    var p, q := PeakOf(ShapeOf(item).value, quantity);
    HillPhases(row, p, q);
  }

  /** The strongest level is for quantities above five, and each of those reaches it. */
  lemma StrongestExactlyWhen(item: Item, quantity: nat)
    ensures (exists k :: 0 <= k < |Curve(item, quantity)| && Curve(item, quantity)[k] == 4) <==>
            ShapeOf(item).Some? && quantity > MAX_STEPS
  {
    if ShapeOf(item).Some? && quantity > MAX_STEPS {
      var row := Curve(item, quantity);
      var at := match ShapeOf(item).value case Front => 0 case Back => 3 case Middle => 2;
      assert row[at] == 4;
    }
  }

  /** A front curve is at its peak from the first step, a back curve at its last, and a middle
      curve of three steps or more at neither. */
  lemma ShapesPeakWhere(item: Item, quantity: nat)
    requires Curve(item, quantity) != []
    ensures var row := Curve(item, quantity);
            match ShapeOf(item).value
            case Front => PhaseAt(row, 0).Peak?
            case Back => PhaseAt(row, |row| - 1).Peak?
            case Middle => |row| >= 3 ==> PhaseAt(row, 0).Rising? && PhaseAt(row, |row| - 1).Fading?
  {
    var p, q := PeakOf(ShapeOf(item).value, quantity);
    HillPhases(Curve(item, quantity), p, q);
  }

  /** The effect of a gift the turn before: its own item, name and quantity, the first of
      `min(quantity, 5)` steps, at the row's first level. A valuable has none. */
  lemma GiftBegins(item: Item, name: Option<string>, quantity: nat)
    ensures var es := ActiveEffects([Some(Give(item, name, quantity))]);
            if ShapeOf(item).None? || quantity == 0 then es == []
            else |es| == 1 && es[0].item == item && es[0].name == name && es[0].quantity == quantity && es[0].step == 1 &&
                 es[0].steps == (if quantity <= 5 then quantity else 5) && es[0].level == Curve(item, quantity)[0] &&
                 es[0].phase == PhaseAt(Curve(item, quantity), 0)
  {
    var prior := [Some(Give(item, name, quantity))];
    assert prior[1..] == [] && EffectsFrom([], 1) == [];
    assert ActiveEffects(prior) == Kept(EffectAt(prior[0], 0)) + [];
  }

  lemma PeakOf(shape: Shape, quantity: nat) returns (p: nat, q: nat)
    requires quantity > 0
    ensures var row := if quantity <= MAX_STEPS then Light(shape)[quantity - 1] else Heavy(shape);
            && Hill(row, p, q)
            && (shape.Front? ==> p == 0) && (shape.Back? ==> q == |row| - 1)
            && (shape.Middle? && quantity >= 3 ==> 0 < p && q < |row| - 1)
  {
    match shape
    case Front => p, q := FrontPeak(quantity);
    case Back => p, q := BackPeak(quantity);
    case Middle => p, q := MiddlePeak(quantity);
  }

  lemma FrontPeak(quantity: nat) returns (p: nat, q: nat)
    requires quantity > 0
    ensures Hill(if quantity <= MAX_STEPS then Light(Front)[quantity - 1] else Heavy(Front), p, q) && p == 0
  {
    p, q := 0, if quantity == 5 then 1 else 0;
  }

  lemma MiddlePeak(quantity: nat) returns (p: nat, q: nat)
    requires quantity > 0
    ensures var row := if quantity <= MAX_STEPS then Light(Middle)[quantity - 1] else Heavy(Middle);
            Hill(row, p, q) && (quantity >= 3 ==> 0 < p && q < |row| - 1)
  {
    p := if quantity > MAX_STEPS || quantity == 5 then 2 else if quantity >= 3 then 1 else 0;
    q := if quantity == 2 then 1 else if quantity == 4 then 2 else p;
  }

  lemma BackPeak(quantity: nat) returns (p: nat, q: nat)
    requires quantity > 0
    ensures var row := if quantity <= MAX_STEPS then Light(Back)[quantity - 1] else Heavy(Back);
            Hill(row, p, q) && q == |row| - 1
  {
    p := if quantity >= 5 then 3 else quantity - 1;
    q := if quantity >= 5 then 4 else p;
  }
}
