/**
 * Searching and rounding against a ratio that increases with the tick. The ratio is a
 * parameter here: nothing below depends on how it is computed.
 */
module TickSearch {
  import opened Numeric

  const MIN_TICK: int := -887272
  const MAX_TICK: int := 887272

  /** How many refinement steps the guard allows. */
  const MAX_REFINE: nat := 256

  datatype TickError = TickOutOfRange | PriceOutOfRange | RefineDivergedDown | RefineDivergedUp

  type Ratio = int -> nat

  ghost predicate Increasing(ratio: Ratio) {
    && ratio(MIN_TICK) > 0
    && forall t, u :: MIN_TICK <= t < u <= MAX_TICK ==> ratio(t) < ratio(u)
  }

  /** t is the greatest tick whose ratio is at most s. */
  ghost predicate IsTickOf(ratio: Ratio, s: int, t: int) {
    MIN_TICK <= t < MAX_TICK && ratio(t) <= s < ratio(t + 1)
  }

  function Clamp(tick: int): int {
    if tick < MIN_TICK then MIN_TICK else if tick > MAX_TICK then MAX_TICK else tick
  }

  /** The tick of a price splits the range: exactly the ticks up to it have ratio at most s. */
  lemma TickSplitsRange(ratio: Ratio, s: int, t: int, u: int)
    requires Increasing(ratio) && IsTickOf(ratio, s, t)
    requires MIN_TICK <= u <= MAX_TICK
    ensures ratio(u) <= s <==> u <= t
  {
  }

  lemma TickUnique(ratio: Ratio, s: int, t: int, u: int)
    requires Increasing(ratio) && IsTickOf(ratio, s, t) && IsTickOf(ratio, s, u)
    ensures t == u
  {
  }

  lemma {:induction false} TickFrom(ratio: Ratio, s: int, u: int) returns (t: int)
    requires MIN_TICK <= u < MAX_TICK
    requires ratio(u) <= s < ratio(MAX_TICK)
    ensures IsTickOf(ratio, s, t)
    decreases MAX_TICK - u
  {
    if s < ratio(u + 1) { t := u; } else { t := TickFrom(ratio, s, u + 1); }
  }

  /** A price has a tick exactly when it lies between the end ratios. */
  lemma TickExists(ratio: Ratio, s: int)
    requires Increasing(ratio)
    ensures ratio(MIN_TICK) <= s < ratio(MAX_TICK) <==> exists t :: IsTickOf(ratio, s, t)
  {
    if ratio(MIN_TICK) <= s < ratio(MAX_TICK) { var t := TickFrom(ratio, s, MIN_TICK); }
  }

  /** What the search answers for a price whose exact tick is t. */
  function SearchResult(t: int, estimate: int): Result<int, TickError> {
    if Clamp(estimate) > t + MAX_REFINE then Err(RefineDivergedDown)
    else if Clamp(estimate) < t - MAX_REFINE then Err(RefineDivergedUp)
    else Ok(t)
  }

  /** Exact refinement of an estimate: it answers exactly when the clamped estimate is
      within MAX_REFINE ticks, and then with the exact tick. */
  method Refine(ratio: Ratio, s: int, estimate: int, ghost exact: int) returns (r: Result<int, TickError>)
    requires Increasing(ratio) && IsTickOf(ratio, s, exact)
    ensures r == SearchResult(exact, estimate)
  {
    var tick := estimate;
    if tick < MIN_TICK { tick := MIN_TICK; }
    if tick > MAX_TICK { tick := MAX_TICK; }
    var guard := 0;
    ghost var start := tick;
    while tick > MIN_TICK && ratio(tick) > s
      invariant MIN_TICK <= tick <= start <= MAX_TICK && guard == start - tick <= MAX_REFINE
      invariant tick < start ==> tick >= exact
      decreases tick - MIN_TICK
    {
      TickSplitsRange(ratio, s, exact, tick);
      tick := tick - 1;
      guard := guard + 1;
      if guard > MAX_REFINE { return Err(RefineDivergedDown); }
    }
    TickSplitsRange(ratio, s, exact, tick);
    while tick < MAX_TICK && ratio(tick + 1) <= s
      invariant MIN_TICK <= tick <= MAX_TICK && tick <= exact
      invariant guard == Abs(start - tick) <= MAX_REFINE
      invariant start > exact ==> tick == exact
      decreases MAX_TICK - tick
    {
      TickSplitsRange(ratio, s, exact, tick + 1);
      tick := tick + 1;
      guard := guard + 1;
      if guard > MAX_REFINE { return Err(RefineDivergedUp); }
    }
    TickSplitsRange(ratio, s, exact, tick + 1);
    return Ok(tick);
  }

  // ---- usable ticks -----------------------------------------------------------------------

  function MinUsableTick(spacing: nat): int
    requires spacing > 0
  {
    -(MAX_TICK / spacing) * spacing
  }

  function MaxUsableTick(spacing: nat): int
    requires spacing > 0
  {
    MAX_TICK / spacing * spacing
  }

  /** Rounding a raw tick to a multiple of the spacing, by the geometric midpoint test. */
  function NearestUsable(ratio: Ratio, s: nat, raw: int, spacing: nat): int
    requires spacing > 0
  {
    var lo := raw / spacing * spacing;
    var hi := lo + spacing;
    if lo < MinUsableTick(spacing) then MinUsableTick(spacing)
    else if hi > MaxUsableTick(spacing) then MaxUsableTick(spacing)
    else if s * s > ratio(lo) * ratio(hi) then hi else lo
  }

  predicate Usable(u: int, spacing: nat)
    requires spacing > 0
  {
    MIN_TICK <= u <= MAX_TICK && u % spacing == 0
  }

  lemma Multiples(spacing: nat, k: int, q: int)
    ensures q <= k ==> q * spacing <= k * spacing
    ensures q > k ==> q * spacing >= k * spacing + spacing
  {
    if q <= k { MulMono(spacing, q, k); } else { MulMono(spacing, k + 1, q); }
  }

  lemma MultipleIsUsable(q: int, spacing: nat)
    requires spacing > 0
    ensures q * spacing % spacing == 0
  {
    FloorIs(q * spacing, spacing, q);
  }

  /** A multiple of the spacing never lies strictly inside the cell that holds raw. */
  lemma MultipleOutsideCell(raw: int, u: int, spacing: nat)
    requires spacing > 0 && u % spacing == 0
    ensures var lo := raw / spacing * spacing;
      lo <= raw < lo + spacing && (u <= raw ==> u <= lo) && (u > raw ==> u >= lo + spacing)
  {
    FloorBounds(raw, spacing);
    FloorBounds(u, spacing);
    Multiples(spacing, raw / spacing, u / spacing);
  }

  /** The usable ticks are exactly the multiples between the two extreme ones. */
  lemma UsableBounds(u: int, spacing: nat)
    requires spacing > 0 && u % spacing == 0
    ensures Usable(u, spacing) <==> MinUsableTick(spacing) <= u <= MaxUsableTick(spacing)
  {
    MultipleOutsideCell(MAX_TICK, u, spacing);
    FloorBounds(u, spacing);
    MultipleIsUsable(-(u / spacing), spacing);
    assert -u == -(u / spacing) * spacing;
    MultipleOutsideCell(MAX_TICK, -u, spacing);
    assert MinUsableTick(spacing) == -MaxUsableTick(spacing);
  }

  /** a is geometrically no farther from s than b: max(s,a)/min(s,a) <= max(s,b)/min(s,b). */
  predicate NoFarther(s: nat, a: nat, b: nat) {
    Max(s, a) * Min(s, b) <= Max(s, b) * Min(s, a)
  }

  lemma CrossTransitive(A: nat, a: nat, B: nat, b: nat, C: nat, c: nat)
    requires b > 0
    requires A * b <= B * a && B * c <= C * b
    ensures A * c <= C * a
  {
    MulMono(c, A * b, B * a);
    MulMono(a, B * c, C * b);
    assert b * (A * c) == (A * b) * c;
    assert (B * a) * c == (B * c) * a;
    assert (C * b) * a == b * (C * a);
    MulCancel(b, A * c, C * a);
  }

  lemma NoFartherTransitive(s: nat, a: nat, b: nat, c: nat)
    requires s > 0 && a > 0 && b > 0 && c > 0
    requires NoFarther(s, a, b) && NoFarther(s, b, c)
    ensures NoFarther(s, a, c)
  {
    CrossTransitive(Max(s, a), Min(s, a), Max(s, b), Min(s, b), Max(s, c), Min(s, c));
  }

  lemma BelowNoFarther(s: nat, a: nat, b: nat)
    requires b <= a <= s
    ensures NoFarther(s, a, b)
  {
    MulMono(s, b, a);
  }

  lemma AboveNoFarther(s: nat, a: nat, b: nat)
    requires s <= a <= b
    ensures NoFarther(s, a, b)
  {
    MulMono(s, a, b);
  }

  lemma MidpointTest(s: nat, a: nat, b: nat)
    requires a <= s < b
    ensures s * s > a * b ==> NoFarther(s, b, a)
    ensures s * s <= a * b ==> NoFarther(s, a, b)
  {
  }

  /** On one side of the price, the tick closer to it has the closer ratio. */
  lemma SameSide(ratio: Ratio, s: nat, raw: int, t: int, u: int)
    requires Increasing(ratio) && IsTickOf(ratio, s, raw)
    requires MIN_TICK <= t <= MAX_TICK && MIN_TICK <= u <= MAX_TICK
    requires u <= t <= raw || raw < t <= u
    ensures NoFarther(s, ratio(t), ratio(u))
  {
    TickSplitsRange(ratio, s, raw, t);
    TickSplitsRange(ratio, s, raw, u);
    if u <= t <= raw { BelowNoFarther(s, ratio(t), ratio(u)); } else { AboveNoFarther(s, ratio(t), ratio(u)); }
  }

  lemma ExtremesUsable(spacing: nat)
    requires spacing > 0
    ensures Usable(MinUsableTick(spacing), spacing) && Usable(MaxUsableTick(spacing), spacing)
    ensures MinUsableTick(spacing) <= 0 <= MaxUsableTick(spacing)
  {
    FloorBounds(MAX_TICK, spacing);
    MulMono(spacing, 0, MAX_TICK / spacing);
    MultipleIsUsable(MAX_TICK / spacing, spacing);
    MultipleIsUsable(-(MAX_TICK / spacing), spacing);
  }

  /** The rounded tick is one of the two neighbours of raw, or the extreme usable tick beside it. */
  lemma RoundedTick(ratio: Ratio, s: nat, raw: int, spacing: nat)
    requires spacing > 0 && MIN_TICK <= raw < MAX_TICK
    ensures var lo, hi, t := raw / spacing * spacing, raw / spacing * spacing + spacing, NearestUsable(ratio, s, raw, spacing);
      && lo <= raw < hi && lo % spacing == 0 && hi % spacing == 0
      && Usable(t, spacing)
      && (Usable(lo, spacing) || Usable(hi, spacing))
      && (!Usable(lo, spacing) ==> t == hi)
      && (!Usable(hi, spacing) ==> t == lo)
      && (Usable(lo, spacing) && Usable(hi, spacing) ==> t == if s * s > ratio(lo) * ratio(hi) then hi else lo)
  {
    var k := raw / spacing;
    MultipleIsUsable(k, spacing);
    MultipleIsUsable(k + 1, spacing);
    assert (k + 1) * spacing == k * spacing + spacing;
    UsableBounds(k * spacing, spacing);
    UsableBounds(k * spacing + spacing, spacing);
    MultipleIsUsable(0, spacing);
    MultipleOutsideCell(raw, 0, spacing);
    ExtremesUsable(spacing);
    MultipleOutsideCell(raw, MinUsableTick(spacing), spacing);
    MultipleOutsideCell(raw, MaxUsableTick(spacing), spacing);
  }

  lemma NearerThan(ratio: Ratio, s: nat, raw: int, lo: int, hi: int, t: int, u: int)
    requires Increasing(ratio) && IsTickOf(ratio, s, raw)
    requires lo <= raw < hi && (t == lo || t == hi)
    requires MIN_TICK <= t <= MAX_TICK && MIN_TICK <= u <= MAX_TICK && (u <= lo || hi <= u)
    requires MIN_TICK <= lo && hi <= MAX_TICK ==> t == if s * s > ratio(lo) * ratio(hi) then hi else lo
    ensures NoFarther(s, ratio(t), ratio(u))
  {
    if (u <= lo) == (t == lo) {
      SameSide(ratio, s, raw, t, u);
    } else {
      var other := if t == lo then hi else lo;
      SameSide(ratio, s, raw, other, u);
      TickSplitsRange(ratio, s, raw, lo);
      TickSplitsRange(ratio, s, raw, hi);
      MidpointTest(s, ratio(lo), ratio(hi));
      assert forall v :: MIN_TICK < v <= MAX_TICK ==> ratio(v) > ratio(MIN_TICK);
      NoFartherTransitive(s, ratio(t), ratio(other), ratio(u));
    }
  }

  /** The rounded tick is usable, within one spacing of the raw tick, and no usable tick
      of the whole range is geometrically nearer to the price. */
  lemma NearestUsableIsNearest(ratio: Ratio, s: nat, raw: int, spacing: nat)
    requires spacing > 0 && Increasing(ratio) && IsTickOf(ratio, s, raw)
    ensures var t := NearestUsable(ratio, s, raw, spacing);
      && Usable(t, spacing) && Abs(t - raw) <= spacing
      && forall u :: Usable(u, spacing) ==> NoFarther(s, ratio(t), ratio(u))
  {
    var t := NearestUsable(ratio, s, raw, spacing);
    RoundedTick(ratio, s, raw, spacing);
    forall u | Usable(u, spacing) ensures NoFarther(s, ratio(t), ratio(u)) {
      MultipleOutsideCell(raw, u, spacing);
      NearerThan(ratio, s, raw, raw / spacing * spacing, raw / spacing * spacing + spacing, t, u);
    }
  }
}
