/** A model spec's choice of one model, and the round-robin cursor that every caller
    shares: a ticket is taken in one atomic step, served later, in any order. */
module RoundRobin {
  import opened Text
  import opened Weighted

  /** A `usize` counter takes this many values. */
  const USIZE: nat := 0x1_0000_0000_0000_0000

  /** The `i`th ticket handed out by a counter of `width` values that stands at `start`. */
  function Ticket(start: nat, i: nat, width: nat): nat
    requires width > 0
  {
    (start + i) % width
  }

  /** How many of `count` consecutive tickets from `start` on choose model `m` of `n`. */
  function Hits(start: nat, count: nat, width: nat, n: nat, m: nat): nat
    requires width > 0 && n > 0
  {
    if count == 0 then 0
    else Hits(start, count - 1, width, n, m) + (if Chosen(start, count - 1, width, n) == m then 1 else 0)
  }

  /** The model the `i`th ticket chooses. */
  function Chosen(start: nat, i: nat, width: nat, n: nat): (m: nat)
    requires width > 0 && n > 0
    ensures m < n
  {
    Ticket(start, i, width) % n
  }

  // -------------------------------------------------------------------- fairness

  lemma RemainderSteps(x: nat, n: nat)
    requires n > 0
    ensures (x + 1) % n == if x % n == n - 1 then 0 else x % n + 1
    ensures (x + 1) / n == if x % n == n - 1 then x / n + 1 else x / n
  {
    var q, r := x / n, x % n;
    assert x == n * q + r;
    if r == n - 1 {
      assert x + 1 == n * (q + 1);
      DivMod(x + 1, n, q + 1, 0);
    } else {
      DivMod(x + 1, n, q, r + 1);
    }
  }

  lemma DivMod(x: nat, n: nat, q: nat, r: nat)
    requires r < n && x == n * q + r
    ensures x / n == q && x % n == r
  {
    var d := x / n - q;
    assert n * d == r - x % n;
    Multiple(n, d);
  }

  lemma Multiple(n: nat, d: int)
    ensures d >= 1 ==> n * d >= n
    ensures d <= -1 ==> n * d <= 0 - n
  {
  }

  /** A ticket before the wrap is the number itself. */
  lemma ChosenBefore(start: nat, i: nat, width: nat, n: nat)
    requires n > 0 && start + i < width
    ensures Chosen(start, i, width, n) == (start + i) % n
  {
    DivMod(start + i, width, 0, start + i);
  }

  /** How many numbers below `x` leave remainder `m`. */
  function Below(x: nat, n: nat, m: nat): nat
    requires n > 0 && m < n
  {
    x / n + if m < x % n then 1 else 0
  }

  lemma BelowStep(x: nat, n: nat, m: nat)
    requires n > 0 && m < n
    ensures Below(x + 1, n, m) == Below(x, n, m) + if x % n == m then 1 else 0
  {
    RemainderSteps(x, n);
  }

  /** Before the wrap, hits are a difference of counts below two numbers. */
  lemma {:induction false} HitsAreBelow(start: nat, count: nat, width: nat, n: nat, m: nat)
    requires n > 0 && m < n && width > 0 && start + count <= width
    ensures Hits(start, count, width, n, m) == Below(start + count, n, m) - Below(start, n, m)
  {
    if count > 0 {
      HitsAreBelow(start, count - 1, width, n, m);
      BelowStep(start + count - 1, n, m);
      ChosenBefore(start, count - 1, width, n);
    }
  }

  /** Before the wrap, any `n` consecutive tickets choose each of `n` models once. */
  lemma EveryWindowFair(start: nat, width: nat, n: nat, m: nat)
    requires n > 0 && m < n && start + n <= width
    ensures Hits(start, n, width, n, m) == 1
  {
    HitsAreBelow(start, n, width, n, m);
    NextLap(start, n);
  }

  lemma NextLap(x: nat, n: nat)
    requires n > 0
    ensures (x + n) / n == x / n + 1 && (x + n) % n == x % n
  {
    var q, r := x / n, x % n;
    assert n * (q + 1) == n * q + n;
    DivMod(x + n, n, q + 1, r);
  }

  /** Before the wrap, a model's hits among the first `count` tickets of a fresh cursor are
      `count / n`, rounded down or up: the leading models are the ones a round further. */
  lemma Even(count: nat, width: nat, n: nat, m: nat)
    requires n > 0 && m < n && width > 0 && count <= width
    ensures Hits(0, count, width, n, m) == count / n + if m < count % n then 1 else 0
  {
    HitsAreBelow(0, count, width, n, m);
    DivMod(0, n, 0, 0);
  }

  ghost predicate WrapsFairly(width: nat, n: nat)
    requires width > 0 && n > 0
  {
    forall start: nat, m: nat :: start < width && m < n ==> Hits(start, n, width, n, m) == 1
  }

  /** Windows that cross the wrap are fair as well exactly when `n` divides the counter's
      range; otherwise the window that starts on the last ticket chooses a model twice. */
  lemma WrapsFairlyExactlyWhen(width: nat, n: nat)
    requires 0 < n <= width
    ensures WrapsFairly(width, n) <==> width % n == 0
  {
    if width % n == 0 {
      forall start: nat, m: nat | start < width && m < n ensures Hits(start, n, width, n, m) == 1 {
        DividingWrap(start, n, width, n, m);
        EveryWindowFair(start, start + n, n, m);
      }
    } else {
      LastWindowRepeats(width, n);
    }
  }

  /** With `n` dividing the range, the wrap does not show. */
  lemma {:induction false} DividingWrap(start: nat, count: nat, width: nat, n: nat, m: nat)
    requires 0 < n <= width && width % n == 0 && m < n && start < width && count <= n
    ensures Hits(start, count, width, n, m) == Hits(start, count, start + n, n, m)
  {
    if count > 0 {
      DividingWrap(start, count - 1, width, n, m);
      ChosenBefore(start, count - 1, start + n, n);
      if start + count - 1 < width {
        ChosenBefore(start, count - 1, width, n);
      } else {
        ChosenAfter(start, count - 1, width, n);
        LapUnseen(start + count - 1, width, n);
      }
    }
  }

  /** A ticket after the wrap has started over. */
  lemma ChosenAfter(start: nat, i: nat, width: nat, n: nat)
    requires n > 0 && width <= start + i < 2 * width
    ensures Chosen(start, i, width, n) == (start + i - width) % n
  {
    DivMod(start + i, width, 1, start + i - width);
  }

  lemma LapUnseen(x: nat, width: nat, n: nat)
    requires n > 0 && width % n == 0 && width <= x
    ensures (x - width) % n == x % n
  {
    var k, y := width / n, x - width;
    var q, r := y / n, y % n;
    assert y == n * q + r && width == n * k;
    assert n * (k + q) == n * k + n * q;
    DivMod(x, n, k + q, r);
  }

  lemma LastWindowRepeats(width: nat, n: nat)
    requires 0 < n <= width && width % n != 0
    ensures Hits(width - 1, n, width, n, width % n - 1) == 2
  {
    var r := width % n;
    RemainderSteps(width - 1, n);
    AfterWrap(width, n - 1, n, r - 1);
  }

  lemma {:induction false} AfterWrap(width: nat, count: nat, n: nat, m: nat)
    requires 0 < n <= width && count < n && m < n && (width - 1) % n == m
    ensures Hits(width - 1, count + 1, width, n, m) == if m < count then 2 else 1
  {
    if count == 0 {
      ChosenBefore(width - 1, 0, width, n);
      assert Hits(width - 1, 0, width, n, m) == 0;
    } else {
      AfterWrap(width, count - 1, n, m);
      ChosenAfter(width - 1, count, width, n);
      DivMod(count - 1, n, 0, count - 1);
    }
  }

  // ---------------------------------------------------------- callers interleaved

  type Caller = nat

  /** The shared cursor, the ticket each caller in the middle of a call holds, and the
      models handed out so far, in order. `issued` counts the tickets taken. */
  datatype World = World(cursor: nat, held: map<Caller, nat>, served: seq<nat>, issued: nat)

  /** A caller's two steps: `fetch_add`, which is atomic, and handing out the model. */
  datatype Step = Take(caller: Caller) | Serve(caller: Caller)

  const FRESH: World := World(0, map[], [], 0)

  function Taken(w: World, c: Caller, width: nat): World
    requires width > 0
  {
    World((w.cursor + 1) % width, w.held[c := w.cursor], w.served, w.issued + 1)
  }

  function Served(w: World, c: Caller, n: nat): World
    requires n > 0 && c in w.held
  {
    World(w.cursor, w.held - {c}, w.served + [w.held[c] % n], w.issued)
  }

  /** A step its caller is not at does nothing. */
  function Next(w: World, step: Step, width: nat, n: nat): World
    requires width > 0 && n > 0
  {
    match step
    case Take(c) => if c in w.held then w else Taken(w, c, width)
    case Serve(c) => if c in w.held then Served(w, c, n) else w
  }

  /** The world after a schedule of steps. */
  function After(steps: seq<Step>, width: nat, n: nat): World
    requires width > 0 && n > 0
  {
    if steps == [] then FRESH
    else Next(After(steps[..|steps| - 1], width, n), steps[|steps| - 1], width, n)
  }

  /** The callers that hold a ticket for model `m`. */
  function Holding(held: map<Caller, nat>, n: nat, m: nat): set<Caller>
    requires n > 0
  {
    set c | c in held && held[c] % n == m
  }

  function Count(served: seq<nat>, m: nat): nat { multiset(served)[m] }

  /** No ticket is lost and none is served twice: for every model, what was served and what
      is still held add up to the hits of the tickets issued. */
  ghost predicate Accounted(w: World, width: nat, n: nat)
    requires width > 0 && n > 0
  {
    && w.cursor == w.issued % width
    && |w.served| + |w.held| == w.issued
    && forall m: nat :: m < n ==> Count(w.served, m) + |Holding(w.held, n, m)| == Hits(0, w.issued, width, n, m)
  }

  lemma Onward(issued: nat, width: nat)
    requires width > 0
    ensures (issued % width + 1) % width == (issued + 1) % width
    ensures Ticket(0, issued, width) == issued % width
  {
    RemainderSteps(issued, width);
    DivMod(issued % width, width, 0, issued % width);
    RemainderSteps(issued % width, width);
  }

  lemma HitsMore(issued: nat, width: nat, n: nat, m: nat)
    requires width > 0 && n > 0
    ensures Hits(0, issued + 1, width, n, m)
            == Hits(0, issued, width, n, m) + if issued % width % n == m then 1 else 0
  {
  }

  lemma HoldingMore(held: map<Caller, nat>, c: Caller, ticket: nat, n: nat, m: nat)
    requires n > 0 && c !in held
    ensures |Holding(held[c := ticket], n, m)| == |Holding(held, n, m)| + if ticket % n == m then 1 else 0
  {
    assert Holding(held[c := ticket], n, m) == Holding(held, n, m) + if ticket % n == m then {c} else {};
  }

  lemma TakeAccounted(w: World, c: Caller, width: nat, n: nat)
    requires width > 0 && n > 0 && Accounted(w, width, n) && c !in w.held
    ensures Accounted(Taken(w, c, width), width, n)
  {
    var v := Taken(w, c, width);
    Onward(w.issued, width);
    assert v.held.Keys == w.held.Keys + {c};
    assert |v.held| == |v.held.Keys| && |w.held| == |w.held.Keys|;
    forall m: nat | m < n ensures Count(v.served, m) + |Holding(v.held, n, m)| == Hits(0, v.issued, width, n, m) {
      HoldingMore(w.held, c, w.cursor, n, m);
      HitsMore(w.issued, width, n, m);
    }
  }

  lemma ServeAccounted(w: World, c: Caller, width: nat, n: nat)
    requires width > 0 && n > 0 && Accounted(w, width, n) && c in w.held
    ensures Accounted(Served(w, c, n), width, n)
  {
    var v := Served(w, c, n);
    assert v.held.Keys == w.held.Keys - {c};
    assert |v.held| == |v.held.Keys| && |w.held| == |w.held.Keys|;
    forall m: nat | m < n ensures Count(v.served, m) + |Holding(v.held, n, m)| == Hits(0, v.issued, width, n, m) {
      assert Holding(v.held, n, m) == Holding(w.held, n, m) - if w.held[c] % n == m then {c} else {};
    }
  }

  /** Under every schedule every ticket is accounted for. */
  lemma {:induction false} TicketsConserved(steps: seq<Step>, width: nat, n: nat)
    requires width > 0 && n > 0
    ensures Accounted(After(steps, width, n), width, n)
  {
    if steps == [] {
      forall m: nat | m < n ensures Count(FRESH.served, m) + |Holding(FRESH.held, n, m)| == Hits(0, 0, width, n, m) {
        assert Holding(FRESH.held, n, m) == {};
      }
    } else {
      var before, last := steps[..|steps| - 1], steps[|steps| - 1];
      TicketsConserved(before, width, n);
      var w := After(before, width, n);
      if last.Take? && last.caller !in w.held { TakeAccounted(w, last.caller, width, n); }
      if last.Serve? && last.caller in w.held { ServeAccounted(w, last.caller, width, n); }
    }
  }

  /** Round robin is fair under any interleaving: before the counter wraps, each model's
      served and pending calls make up its even share, and once no call is pending the
      counts of two models differ by at most one. */
  lemma FairUnderInterleaving(steps: seq<Step>, width: nat, n: nat, m: nat, k: nat)
    requires width > 0 && n > 0 && m < n && k < n
    requires After(steps, width, n).issued <= width
    ensures var w := After(steps, width, n);
            && Count(w.served, m) + |Holding(w.held, n, m)|
               == w.issued / n + (if m < w.issued % n then 1 else 0)
            && (w.held == map[] ==> |w.served| == w.issued && -1 <= Count(w.served, m) - Count(w.served, k) <= 1)
  {
    var w := After(steps, width, n);
    TicketsConserved(steps, width, n);
    Even(w.issued, width, n, m);
    Even(w.issued, width, n, k);
    if w.held == map[] {
      assert Holding(w.held, n, m) == {} && Holding(w.held, n, k) == {};
    }
  }

  // ------------------------------------------------------------------- the spec

  datatype Choice = Fixed(id: string) | Rotating(models: seq<string>) | Drawn(entries: Weights<string>)

  /** A task's `model`, with the cursor of the round-robin form. */
  class ModelSpec {
    const choice: Choice
    var cursor: nat

    /** A counter in range; every weight positive, so that every entry can be drawn. */
    ghost predicate Valid()
      reads this
    {
      cursor < USIZE && (choice.Drawn? ==> AllPositive(choice.entries))
    }

    /** What reading the configuration leaves: no empty id in a rotation, no weight that is
        not positive. */
    constructor (raw: Choice)
      ensures Valid() && cursor == 0
      ensures raw.Fixed? ==> choice == raw
      ensures raw.Rotating? ==> choice == Rotating(NonEmptyIds(raw.models))
      ensures raw.Drawn? ==> choice == Drawn(Weighty(raw.entries))
    {
      choice := match raw
        case Fixed(_) => raw
        case Rotating(models) => Rotating(NonEmptyIds(models))
        case Drawn(entries) => Drawn(Weighty(entries));
      cursor := 0;
    }

    /** Pick one model id. A rotation serves the ticket it takes; a weighted spec the entry
        whose band holds `roll` of the total. */
    method Select(roll: real) returns (id: Option<string>)
      requires Valid() && 0.0 <= roll < 1.0
      modifies this`cursor
      ensures Valid()
      ensures cursor == if choice.Rotating? && choice.models != [] then (old(cursor) + 1) % USIZE else old(cursor)
      ensures choice.Fixed? ==> id == if choice.id == "" then None else Some(choice.id)
      ensures choice.Rotating? ==>
                id == if choice.models == [] then None else Some(choice.models[old(cursor) % |choice.models|])
      ensures choice.Drawn? ==> id == Pick(choice.entries, roll)
    {
      match choice
      case Fixed(s) => id := if s == "" then None else Some(s);
      case Rotating(models) =>
        if models == [] { return None; }
        var ticket := cursor;
        cursor := (cursor + 1) % USIZE;
        id := Some(models[ticket % |models|]);
      case Drawn(entries) =>
        if entries == [] { return None; }
        var picked := PickByAdding(entries, Share(roll, Total(entries)));
        id := Some(picked);
        PrefixGrows(entries, 1, |entries|);
    }
  }

  /** The ids that are not empty, in order. */
  function NonEmptyIds(models: seq<string>): (kept: seq<string>)
    ensures forall k :: 0 <= k < |kept| ==> kept[k] != "" && kept[k] in models
    ensures forall m :: m in models && m != "" ==> m in kept
  {
    if models == [] then []
    else if models[0] == "" then NonEmptyIds(models[1..])
    else [models[0]] + NonEmptyIds(models[1..])
  }

  lemma OneId(id: string)
    ensures NonEmptyIds([id]) == if id == "" then [] else [id]
  {
    assert [id][1..] == [];
  }

  /** One list's ids and then another's: with `OneId` this fixes the whole reading. */
  lemma {:induction false} IdsInOrder(a: seq<string>, b: seq<string>)
    ensures NonEmptyIds(a + b) == NonEmptyIds(a) + NonEmptyIds(b)
  {
    if a == [] {
      assert a + b == b;
    } else {
      assert (a + b)[1..] == a[1..] + b;
      IdsInOrder(a[1..], b);
    }
  }

  lemma OneEntry(id: string, w: real)
    ensures Weighty([(id, w)]) == if w > 0.0 then [(id, w)] else []
  {
    assert [(id, w)][1..] == [];
  }

  lemma {:induction false} EntriesInOrder(a: Weights<string>, b: Weights<string>)
    ensures Weighty(a + b) == Weighty(a) + Weighty(b)
  {
    if a == [] {
      assert a + b == b;
    } else {
      assert (a + b)[1..] == a[1..] + b;
      EntriesInOrder(a[1..], b);
    }
  }

  /** The entries with a positive weight, in order. */
  function Weighty(entries: Weights<string>): (kept: Weights<string>)
    ensures AllPositive(kept)
    ensures forall k :: 0 <= k < |kept| ==> kept[k] in entries
    ensures forall e :: e in entries && e.1 > 0.0 ==> e in kept
  {
    if entries == [] then []
    else if entries[0].1 > 0.0 then [entries[0]] + Weighty(entries[1..])
    else Weighty(entries[1..])
  }
}
