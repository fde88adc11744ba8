/** Weighted choice, as two loops that must agree: one subtracts weights from a target,
    the other accumulates them towards a position. */
module Weighted {
  import opened Text

  type Weights<T> = seq<(T, real)>

  function Weigh<T>(xs: seq<T>, w: T -> real): (ws: Weights<T>)
    ensures |ws| == |xs| && forall j :: 0 <= j < |xs| ==> ws[j] == (xs[j], w(xs[j]))
  {
    seq(|xs|, j requires 0 <= j < |xs| => (xs[j], w(xs[j])))
  }

  predicate NonNegative<T>(ws: Weights<T>) {
    forall k :: 0 <= k < |ws| ==> ws[k].1 >= 0.0
  }

  predicate AllPositive<T>(ws: Weights<T>) {
    forall k :: 0 <= k < |ws| ==> ws[k].1 > 0.0
  }

  /** The weights before entry `k`, added up. */
  function Prefix<T>(ws: Weights<T>, k: nat): real
    requires k <= |ws|
  {
    if k == 0 then 0.0 else Prefix(ws, k - 1) + ws[k - 1].1
  }

  function Total<T>(ws: Weights<T>): real { Prefix(ws, |ws|) }

  /** Entry `k`'s cumulative band holds `position`. */
  predicate InBand<T>(ws: Weights<T>, position: real, k: nat) {
    k < |ws| && Prefix(ws, k) <= position < Prefix(ws, k + 1)
  }

  lemma {:induction false} PrefixGrows<T>(ws: Weights<T>, j: nat, k: nat)
    requires NonNegative(ws) && j <= k <= |ws|
    ensures Prefix(ws, j) <= Prefix(ws, k)
    decreases k - j
  {
    if j < k { PrefixGrows(ws, j, k - 1); }
  }

  /** Bands do not overlap, and a position in a band is not past the end. */
  lemma BandUnique<T>(ws: Weights<T>, position: real, j: nat, k: nat)
    requires NonNegative(ws) && InBand(ws, position, j) && InBand(ws, position, k)
    ensures j == k
  {
    if j < k { PrefixGrows(ws, j + 1, k); }
    if k < j { PrefixGrows(ws, k + 1, j); }
  }

  /** The entry a position falls on; past every band, the last. */
  function Band<T>(ws: Weights<T>, position: real, from: nat): (k: nat)
    requires from < |ws|
    ensures from <= k < |ws|
    ensures k < |ws| - 1 ==> position < Prefix(ws, k + 1)
    ensures forall j :: from < j <= k ==> Prefix(ws, j) <= position
    decreases |ws| - from
  {
    if position < Prefix(ws, from + 1) || from == |ws| - 1 then from else Band(ws, position, from + 1)
  }

  /** A position inside the total falls in the band that holds it. */
  lemma BandHolds<T>(ws: Weights<T>, position: real)
    requires NonNegative(ws) && ws != [] && 0.0 <= position < Total(ws)
    ensures InBand(ws, position, Band(ws, position, 0))
  {
    var k := Band(ws, position, 0);
    assert k > 0 ==> Prefix(ws, k) <= position;
  }

  function Clamp01(x: real): real { if x < 0.0 then 0.0 else if x > 1.0 then 1.0 else x }

  /** The position a roll, kept within [0, 1], stands for. */
  function Share(roll: real, total: real): real { Clamp01(roll) * total }

  /** `pick`: nothing without weight, otherwise the entry at the roll's share of the total. */
  function Pick<T>(ws: Weights<T>, roll: real): Option<T> {
    if Total(ws) <= 0.0 || ws == [] then None
    else Some(ws[Band(ws, Share(roll, Total(ws)), 0)].0)
  }

  /** The subtracting loop. */
  method PickBySubtracting<T>(ws: Weights<T>, roll: real) returns (r: Option<T>)
    ensures r == Pick(ws, roll)
  {
    var total := 0.0;
    for k := 0 to |ws|
      invariant total == Prefix(ws, k)
    {
      total := total + ws[k].1;
    }
    if total <= 0.0 { return None; }
    r := Subtract(ws, Share(roll, total));
  }

  method Subtract<T>(ws: Weights<T>, position: real) returns (r: Option<T>)
    ensures r == if ws == [] then None else Some(ws[Band(ws, position, 0)].0)
  {
    var target := position;
    for k := 0 to |ws|
      invariant target == position - Prefix(ws, k)
      invariant k < |ws| ==> Band(ws, position, 0) == Band(ws, position, k)
      invariant k == |ws| && ws != [] ==> Band(ws, position, 0) == |ws| - 1
    {
      if target < ws[k].1 {
        return Some(ws[k].0);
      }
      target := target - ws[k].1;
    }
    r := if ws == [] then None else Some(ws[|ws| - 1].0);
  }

  /** `pick_weighted`, the adding loop. */
  method PickByAdding<T>(entries: Weights<T>, position: real) returns (id: T)
    requires entries != []
    ensures id == entries[Band(entries, position, 0)].0
  {
    var acc := 0.0;
    for k := 0 to |entries|
      invariant acc == Prefix(entries, k)
      invariant k < |entries| ==> Band(entries, position, 0) == Band(entries, position, k)
      invariant k == |entries| ==> Band(entries, position, 0) == |entries| - 1
    {
      acc := acc + entries[k].1;
      if position < acc {
        return entries[k].0;
      }
    }
    id := entries[|entries| - 1].0;
  }

  lemma ShareOf(roll: real, total: real)
    requires total > 0.0 && 0.0 <= roll < 1.0
    ensures Share(roll, total) == roll * total && 0.0 <= Share(roll, total) < total
  {
  }

  /** Both loops choose the one entry whose band holds `roll * total`; its weight is not
      zero. The subtracting loop is `Pick`, the adding loop the right-hand side. */
  lemma LoopsAgree<T>(ws: Weights<T>, roll: real, position: real)
    requires NonNegative(ws) && ws != [] && Total(ws) > 0.0 && 0.0 <= roll < 1.0
    requires position == Share(roll, Total(ws))
    ensures position == roll * Total(ws)
    ensures Pick(ws, roll) == Some(ws[Band(ws, position, 0)].0)
    ensures forall j: nat :: InBand(ws, position, j) <==> j == Band(ws, position, 0)
    ensures ws[Band(ws, position, 0)].1 > 0.0
  {
    ShareOf(roll, Total(ws));
    BandHolds(ws, position);
    forall j: nat | InBand(ws, position, j) ensures j == Band(ws, position, 0) {
      BandUnique(ws, position, j, Band(ws, position, 0));
    }
  }

  ghost predicate AllDistinct<T>(ws: Weights<T>) {
    forall i, j :: 0 <= i < j < |ws| ==> ws[i].0 != ws[j].0
  }

  /** An entry is picked on exactly the rolls whose share falls on its own stretch of the
      total: as often as its weight is part of it. */
  lemma PickedExactlyWhen<T>(ws: Weights<T>, roll: real, j: nat)
    requires NonNegative(ws) && AllDistinct(ws) && j < |ws| && Total(ws) > 0.0 && 0.0 <= roll < 1.0
    ensures Pick(ws, roll) == Some(ws[j].0) <==> Prefix(ws, j) <= roll * Total(ws) < Prefix(ws, j) + ws[j].1
  {
    var position := Share(roll, Total(ws));
    LoopsAgree(ws, roll, position);
    var k := Band(ws, position, 0);
    assert InBand(ws, position, j) <==> j == k;
    assert k != j ==> ws[k].0 != ws[j].0;
  }

  /** Something is picked exactly when there is weight. */
  lemma PicksWhenWeighty<T>(ws: Weights<T>, roll: real)
    requires NonNegative(ws)
    ensures Pick(ws, roll).None? <==> forall k :: 0 <= k < |ws| ==> ws[k].1 == 0.0
    ensures Pick(ws, roll).Some? ==> exists k :: 0 <= k < |ws| && ws[k].0 == Pick(ws, roll).value
  {
    if k :| 0 <= k < |ws| && ws[k].1 > 0.0 {
      PrefixGrows(ws, 0, k);
      PrefixGrows(ws, k + 1, |ws|);
    } else {
      ZeroTotal(ws, |ws|);
    }
  }

  lemma {:induction false} ZeroTotal<T>(ws: Weights<T>, k: nat)
    requires k <= |ws| && forall j :: 0 <= j < k ==> ws[j].1 == 0.0
    ensures Prefix(ws, k) == 0.0
  {
    if k > 0 { ZeroTotal(ws, k - 1); }
  }

  /** Every entry with weight is picked by some roll in [0, 1). */
  lemma RollFor<T>(ws: Weights<T>, k: nat) returns (roll: real)
    requires NonNegative(ws) && k < |ws| && ws[k].1 > 0.0
    ensures 0.0 <= roll < 1.0 && Pick(ws, roll) == Some(ws[k].0)
  {
    PrefixGrows(ws, 0, k);
    PrefixGrows(ws, k + 1, |ws|);
    var a, total := Prefix(ws, k), Total(ws);
    roll := a / total;
    ShareBack(a, total);
    LoopsAgree(ws, roll, a);
    assert InBand(ws, a, k);
  }

  lemma ShareBack(a: real, total: real)
    requires 0.0 <= a < total
    ensures 0.0 <= a / total < 1.0 && a == Share(a / total, total)
  {
    var q := a / total;
    assert q * total == a;
    ShareOrder(q, 1.0, total);
    ShareOrder(0.0, q, total);
  }

  lemma ShareOrder(p: real, q: real, total: real)
    requires total > 0.0
    ensures p * total < q * total ==> p < q
    ensures p * total <= q * total ==> p <= q
  {
  }
}
