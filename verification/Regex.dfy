/** Regular expressions as syntax trees, with backtracking ("leftmost-first") semantics.

    A pattern denotes, at a position, the list of positions where a match may end, in
    order of preference. The match a search reports is the head of that list. */
module Regex {
  import opened Text

  datatype CharRange = CharRange(lo: char, hi: char)

  /** `Concat`/`Alternation` nodes are right-nested pairs: `Parts` gives the list form.
      `Rep(x, lo, extra, greedy)` repeats `x` at least `lo` times and at most
      `lo + extra` times, without limit when `extra` is `None`. */
  datatype Regex =
    | Empty
    | Start
    | End
    | Literal(text: string)
    | Class(ranges: seq<CharRange>)
    | Cat(head: Regex, tail: Regex)
    | Alt(left: Regex, right: Regex)
    | Rep(sub: Regex, lo: nat, extra: Option<nat>, greedy: bool)

  predicate Has(ranges: seq<CharRange>, c: char) {
    exists k :: 0 <= k < |ranges| && ranges[k].lo <= c <= ranges[k].hi
  }

  // ---------------------------------------------------------------- matching

  function Size(r: Regex): nat {
    match r
    case Cat(a, b) => 1 + Size(a) + Size(b)
    case Alt(a, b) => 1 + Size(a) + Size(b)
    case Rep(x, _, _, _) => 1 + Size(x)
    case _ => 1
  }

  /** Mandatory and optional copies still to try. */
  function Copies(r: Regex): nat {
    if r.Rep? then r.lo + (if r.extra.Some? then r.extra.value else 0) else 0
  }

  predicate Within(es: seq<nat>, lo: nat, hi: nat) {
    forall k :: 0 <= k < |es| ==> lo <= es[k] <= hi
  }

  /** Where a match of `r` starting at `i` may end, most preferred first. */
  function Ends(r: Regex, s: string, i: nat): (es: seq<nat>)
    requires i <= |s|
    ensures Within(es, i, |s|)
    decreases Size(r), Copies(r), |s| - i, 2, 0
  {
    match r
    case Empty => [i]
    case Start => if i == 0 then [i] else []
    case End => if i == |s| then [i] else []
    case Literal(t) => if t <= s[i..] then [i + |t|] else []
    case Class(cs) => if i < |s| && Has(cs, s[i]) then [i + 1] else []
    case Cat(a, b) => Bind(b, s, i, Ends(a, s, i))
    case Alt(a, b) => Ends(a, s, i) + Ends(b, s, i)
    case Rep(_, _, _, _) => RepEnds(r, s, i)
  }

  function RepEnds(r: Regex, s: string, i: nat): (es: seq<nat>)
    requires i <= |s| && r.Rep?
    ensures Within(es, i, |s|)
    decreases Size(r), Copies(r), |s| - i, 1, 0
  {
    var starts := Ends(r.sub, s, i);
    if r.lo > 0 then Bind(r.(lo := r.lo - 1), s, i, starts)
    else if r.extra.None? then OrStop(r.greedy, Loop(r, s, i, starts), i)
    else if r.extra.value > 0 then OrStop(r.greedy, Bind(r.(extra := Some(r.extra.value - 1)), s, i, starts), i)
    else [i]
  }

  /** Another copy or none, in the order greediness asks for. */
  function OrStop(greedy: bool, more: seq<nat>, i: nat): seq<nat> {
    if greedy then more + [i] else [i] + more
  }

  /** Continue with `b` from each position, in order. */
  function Bind(b: Regex, s: string, i: nat, starts: seq<nat>): (es: seq<nat>)
    requires i <= |s|
    requires Within(starts, i, |s|)
    ensures Within(es, i, |s|)
    decreases Size(b), Copies(b), |s| - i, 3, |starts|
  {
    if starts == [] then [] else Ends(b, s, starts[0]) + Bind(b, s, i, starts[1..])
  }

  /** Go round an unbounded repetition again from each position; an iteration that
      consumed nothing leaves the loop. */
  function Loop(r: Regex, s: string, i: nat, starts: seq<nat>): (es: seq<nat>)
    requires i <= |s| && r.Rep? && r.lo == 0 && r.extra == None
    requires Within(starts, i, |s|)
    ensures Within(es, i, |s|)
    decreases Size(r), Copies(r), |s| - i, 0, |starts|
  {
    if starts == [] then []
    else (if starts[0] == i then [i] else Ends(r, s, starts[0])) + Loop(r, s, i, starts[1..])
  }

  // -------------------------------------------------- structural properties

  function PlusLen(a: Option<nat>, b: Option<nat>): Option<nat> {
    if a.Some? && b.Some? then Some(a.value + b.value) else None
  }

  function ClassMin(cs: seq<CharRange>): Option<nat> {
    if cs == [] then None
    else
      var rest := ClassMin(cs[1..]);
      var n := Utf8Len(cs[0].lo);
      if rest.Some? && rest.value < n then rest else Some(n)
  }

  function ClassMax(cs: seq<CharRange>): Option<nat> {
    if cs == [] then None
    else
      var rest := ClassMax(cs[1..]);
      var n := Utf8Len(cs[0].hi);
      if rest.Some? && rest.value > n then rest else Some(n)
  }

  /** `minimum_len`: bytes of the shortest text the pattern can match; `None` when it
      can match nothing. */
  function MinLen(r: Regex): Option<nat> {
    match r
    case Empty => Some(0)
    case Start => Some(0)
    case End => Some(0)
    case Literal(t) => Some(ByteLen(t))
    case Class(cs) => ClassMin(cs)
    case Cat(a, b) => PlusLen(MinLen(a), MinLen(b))
    case Alt(a, b) =>
      var (m, n) := (MinLen(a), MinLen(b));
      if m.None? then n else if n.None? then m
      else if m.value <= n.value then m else n
    case Rep(x, lo, _, _) =>
      if lo == 0 then Some(0)
      else if MinLen(x).None? then None
      else Some(lo * MinLen(x).value)
  }

  /** `maximum_len`: bytes of the longest text the pattern can match; `None` when
      there is no limit (or nothing matches). */
  function MaxLen(r: Regex): Option<nat> {
    match r
    case Empty => Some(0)
    case Start => Some(0)
    case End => Some(0)
    case Literal(t) => Some(ByteLen(t))
    case Class(cs) => ClassMax(cs)
    case Cat(a, b) => PlusLen(MaxLen(a), MaxLen(b))
    case Alt(a, b) =>
      var (m, n) := (MaxLen(a), MaxLen(b));
      if m.None? || n.None? then None
      else if m.value >= n.value then m else n
    case Rep(x, lo, extra, _) =>
      if extra.None? || MaxLen(x).None? then None
      else Some((lo + extra.value) * MaxLen(x).value)
  }

  /** `look_set` holds `Start` / `End`. */
  predicate HasStart(r: Regex) {
    match r
    case Start => true
    case Cat(a, b) => HasStart(a) || HasStart(b)
    case Alt(a, b) => HasStart(a) || HasStart(b)
    case Rep(x, _, _, _) => HasStart(x)
    case _ => false
  }

  predicate HasEnd(r: Regex) {
    match r
    case End => true
    case Cat(a, b) => HasEnd(a) || HasEnd(b)
    case Alt(a, b) => HasEnd(a) || HasEnd(b)
    case Rep(x, _, _, _) => HasEnd(x)
    case _ => false
  }

  /** `look_set_prefix` holds `Start`: every match begins by passing a `^`. */
  predicate BeginsWithStart(r: Regex) {
    match r
    case Start => true
    case Cat(a, b) => BeginsWithStart(a) || (MaxLen(a) == Some(0) && BeginsWithStart(b))
    case Alt(a, b) => BeginsWithStart(a) && BeginsWithStart(b)
    case Rep(x, lo, _, _) => lo > 0 && BeginsWithStart(x)
    case _ => false
  }

  /** The elements of a top-level concatenation. */
  function Parts(r: Regex): (ps: seq<Regex>)
    ensures |ps| > 0
  {
    if r.Cat? then [r.head] + Parts(r.tail) else [r]
  }

  /** `Hir::concat`. */
  function Concat(ps: seq<Regex>): Regex {
    if ps == [] then Empty
    else if |ps| == 1 then ps[0]
    else Cat(ps[0], Concat(ps[1..]))
  }
}
