/**
 * Fixed-point products selected by the bits of an input: for each set bit i of a, the running
 * value is multiplied by row i and truncated. Adjacent inputs a and a + 1 agree on every bit
 * above the carry, so a relative gap created at the carry survives the remaining truncations.
 */
module BitTable {
  import opened Numeric

  /** Row i is meant to be unit * x^(2^i) for one x below 1. */
  datatype Table = Table(unit: nat, muls: seq<nat>)

  /** a with its i low bits shifted out. */
  function Shifted(a: nat, i: nat): nat {
    if i == 0 then a else Shifted(a, i - 1) / 2
  }

  /** Bit i of a. */
  predicate HasBit(a: nat, i: nat) {
    Shifted(a, i) % 2 == 1
  }

  lemma HalveQuotient(a: nat, p: nat)
    requires p > 0
    ensures a / (2 * p) == a / p / 2
  {
    var q := a / p / 2;
    FloorBounds(a, p);
    FloorBounds(a / p, 2);
    MulMono(p, 2 * q, a / p);
    MulMono(p, a / p + 1, 2 * q + 2);
    FloorIs(a, 2 * p, q);
  }

  /** HasBit is the mask test with 2^i. */
  lemma {:induction false} HasBitIsMask(a: nat, i: nat)
    ensures Shifted(a, i) == a / Pow2(i)
    ensures HasBit(a, i) <==> a / Pow2(i) % 2 == 1
  {
    if i == 0 {
    } else {
      HasBitIsMask(a, i - 1);
      HalveQuotient(a, Pow2(i - 1));
    }
  }

  lemma {:induction false} ShiftedBelow(a: nat, e: nat, i: nat)
    requires a < Pow2(e) && i <= e
    ensures Shifted(a, i) < Pow2(e - i)
  {
    if i == 0 {
    } else {
      ShiftedBelow(a, e, i - 1);
    }
  }

  function MulShift(r: nat, c: nat, unit: nat): nat
    requires unit > 0
  {
    r * c / unit
  }

  /** One row: multiply and truncate when the bit is set. */
  function Row(r: nat, bit: bool, c: nat, unit: nat): nat
    requires unit > 0
  {
    if bit then MulShift(r, c, unit) else r
  }

  /** The running value after the first n rows. */
  function Fold(t: Table, a: nat, n: nat): nat
    requires t.unit > 0 && n <= |t.muls|
    decreases n
  {
    if n == 0 then t.unit
    else Row(Fold(t, a, n - 1), HasBit(a, n - 1), t.muls[n - 1], t.unit)
  }

  // ---- tables of powers -------------------------------------------------------------------

  /** ones[i] is the fold of i set bits; it continues, and stays a relative 1/gap above row i. */
  predicate PowerRow(t: Table, ones: seq<nat>, gap: nat, i: nat)
    requires t.unit > 0 && |ones| == |t.muls| + 1 && i < |t.muls|
  {
    && ones[i + 1] == MulShift(ones[i], t.muls[i], t.unit)
    && ones[i] * gap >= t.muls[i] * (gap + 1)
    && t.muls[i] <= t.unit
  }

  ghost predicate PowerTable(t: Table, ones: seq<nat>, gap: nat) {
    && t.unit > 0 && |ones| == |t.muls| + 1 && ones[0] == t.unit
    && forall i :: 0 <= i < |t.muls| ==> PowerRow(t, ones, gap, i)
  }

  lemma MulShiftUnit(c: nat, unit: nat)
    requires unit > 0
    ensures MulShift(unit, c, unit) == c
  {
    FloorIs(unit * c, unit, c);
  }

  lemma MulShiftMono(r: nat, s: nat, c: nat, unit: nat)
    requires unit > 0 && r <= s && c <= unit
    ensures MulShift(r, c, unit) <= MulShift(s, c, unit) <= s
  {
    MulMono(c, r, s);
    FloorMono(r * c, s * c, unit);
    MulMono(s, c, unit);
    FloorBounds(s * c, unit);
    MulCancel(unit, s * c / unit, s);
  }

  /** Every fold lies between the all-ones fold and the unit. */
  lemma {:induction false} FoldBounds(t: Table, ones: seq<nat>, gap: nat, a: nat, n: nat)
    requires PowerTable(t, ones, gap) && n <= |t.muls|
    ensures ones[n] <= Fold(t, a, n) <= t.unit
  {
    if n == 0 {
    } else {
      FoldBounds(t, ones, gap, a, n - 1);
      assert PowerRow(t, ones, gap, n - 1);
      MulShiftMono(ones[n - 1], Fold(t, a, n - 1), t.muls[n - 1], t.unit);
    }
  }

  // ---- adjacent inputs --------------------------------------------------------------------

  lemma GapLow(a: nat, b: nat, c: nat, m: nat, N: nat, s: nat, q: nat)
    requires m * q <= b * c
    requires a * N + s >= b * (N + 1)
    ensures m * (q * (N + 1)) <= (a * c) * N + c * s
  {
    MulMono(N + 1, m * q, b * c);
    MulMono(c, b * (N + 1), a * N + s);
    assert m * (q * (N + 1)) == (m * q) * (N + 1);
    assert (b * c) * (N + 1) == c * (b * (N + 1));
    assert c * (a * N + s) == (a * c) * N + c * s;
  }

  lemma GapHigh(x: nat, c: nat, m: nat, N: nat, s: nat, p: nat)
    requires c <= m
    requires x <= m * p + m
    ensures x * N + c * s <= m * (p * N + (s + N))
  {
    MulMono(N, x, m * p + m);
    MulMono(s, c, m);
    assert (m * p + m) * N + m * s == m * (p * N + (s + N));
  }

  lemma GapBetween(a: nat, b: nat, c: nat, m: nat, N: nat, s: nat, p: nat, q: nat) returns (between: int)
    requires c <= m && a * N + s >= b * (N + 1)
    requires m * q <= b * c && a * c <= m * p + m
    ensures m * (q * (N + 1)) <= between <= m * (p * N + (s + N))
  {
    between := (a * c) * N + c * s;
    GapLow(a, b, c, m, N, s, q);
    GapHigh(a * c, c, m, N, s, p);
  }

  lemma GapFrom(a: nat, b: nat, c: nat, m: nat, N: nat, s: nat, p: nat, q: nat)
    requires m > 0 && c <= m && a * N + s >= b * (N + 1)
    requires m * q <= b * c && a * c <= m * p + m
    ensures q * (N + 1) <= p * N + (s + N)
  {
    var between := GapBetween(a, b, c, m, N, s, p, q);
    MulCancel(m, q * (N + 1), p * N + (s + N));
  }

  /** One multiply-and-truncate keeps a relative gap up to N absolute. */
  lemma GapStep(a: nat, b: nat, c: nat, m: nat, N: nat, s: nat)
    requires m > 0 && c <= m
    requires a * N + s >= b * (N + 1)
    ensures MulShift(a, c, m) * N + (s + N) >= MulShift(b, c, m) * (N + 1)
  {
    FloorBounds(a * c, m);
    FloorBounds(b * c, m);
    GapFrom(a, b, c, m, N, s, MulShift(a, c, m), MulShift(b, c, m));
  }

  /** Whether adding one to a carries into bit n. */
  predicate Carries(a: nat, n: nat) {
    n == 0 || (Carries(a, n - 1) && HasBit(a, n - 1))
  }

  /** Adding one moves the shifted value by the carry. */
  lemma {:induction false} CarryShift(a: nat, n: nat)
    ensures Shifted(a + 1, n) == Shifted(a, n) + if Carries(a, n) then 1 else 0
  {
    if n == 0 {
    } else {
      CarryShift(a, n - 1);
    }
  }

  /** r exceeds s by a relative 1/gap, up to one unit a row. */
  predicate Apart(r: nat, s: nat, gap: nat, n: nat) {
    r * gap + n * gap >= s * (gap + 1)
  }

  /** A row applied to both sides keeps them apart. */
  lemma ApartStep(r: nat, s: nat, bit: bool, c: nat, unit: nat, gap: nat, n: nat)
    requires unit > 0 && c <= unit
    requires Apart(r, s, gap, n)
    ensures Apart(Row(r, bit, c, unit), Row(s, bit, c, unit), gap, n + 1)
  {
    assert (n + 1) * gap == n * gap + gap;
    if bit { GapStep(r, s, c, unit, gap, n * gap); }
  }

  /** The row that absorbs the carry opens the gap. */
  lemma ApartStart(r: nat, c: nat, unit: nat, gap: nat, n: nat)
    requires unit > 0
    requires r * gap >= c * (gap + 1)
    ensures Apart(Row(r, false, c, unit), Row(unit, true, c, unit), gap, n)
  {
    MulShiftUnit(c, unit);
    MulMono(gap, 0, n);
  }

  /** The state of a and a + 1 after n rows: in step with the carry, or apart. */
  predicate CarryOrApart(t: Table, ones: seq<nat>, gap: nat, a: nat, n: nat)
    requires t.unit > 0 && n <= |t.muls| && n < |ones|
  {
    if Carries(a, n) then Fold(t, a, n) == ones[n] && Fold(t, a + 1, n) == t.unit
    else Apart(Fold(t, a, n), Fold(t, a + 1, n), gap, n)
  }

  lemma CarryRow(t: Table, ones: seq<nat>, gap: nat, a: nat, n: nat)
    requires PowerTable(t, ones, gap) && n < |t.muls|
    requires CarryOrApart(t, ones, gap, a, n) && Carries(a, n)
    ensures CarryOrApart(t, ones, gap, a, n + 1)
  {
    assert PowerRow(t, ones, gap, n);
    CarryShift(a, n);
    if !HasBit(a, n) { ApartStart(ones[n], t.muls[n], t.unit, gap, n + 1); }
  }

  lemma ApartRow(t: Table, ones: seq<nat>, gap: nat, a: nat, n: nat)
    requires PowerTable(t, ones, gap) && n < |t.muls|
    requires CarryOrApart(t, ones, gap, a, n) && !Carries(a, n)
    ensures CarryOrApart(t, ones, gap, a, n + 1)
  {
    assert PowerRow(t, ones, gap, n);
    CarryShift(a, n);
    ApartStep(Fold(t, a, n), Fold(t, a + 1, n), HasBit(a, n), t.muls[n], t.unit, gap, n);
  }

  lemma {:induction false} FoldsApart(t: Table, ones: seq<nat>, gap: nat, a: nat, n: nat)
    requires PowerTable(t, ones, gap) && n <= |t.muls|
    ensures CarryOrApart(t, ones, gap, a, n)
  {
    if n == 0 {
    } else {
      FoldsApart(t, ones, gap, a, n - 1);
      if Carries(a, n - 1) { CarryRow(t, ones, gap, a, n - 1); } else { ApartRow(t, ones, gap, a, n - 1); }
    }
  }

  /** Over a whole table, adding one lowers the fold by a relative 1/gap up to one unit a row. */
  lemma FoldFalls(t: Table, ones: seq<nat>, gap: nat, a: nat)
    requires PowerTable(t, ones, gap)
    requires a + 1 < Pow2(|t.muls|)
    ensures var n := |t.muls|; Apart(Fold(t, a, n), Fold(t, a + 1, n), gap, n)
  {
    var n := |t.muls|;
    ShiftedBelow(a + 1, n, n);
    CarryShift(a, n);
    FoldsApart(t, ones, gap, a, n);
  }
}
