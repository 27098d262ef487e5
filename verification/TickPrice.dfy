/**
 * What the tick table is for: the ratio of a tick is sqrt(1.0001^tick). Each row is the rounded square of the
 * one before, so row i is 1.0001^(-2^i / 2) up to a small relative error, and the product over the bits of a
 * tick is 1.0001^(-tick / 2) up to that error and one unit for each truncation.
 */
module TickPrice {
  import opened Numeric
  import opened BitTable
  import opened TickSearch
  import opened TickMath

  // ---- powers -----------------------------------------------------------------------------

  function Power(x: real, n: nat): (p: real)
    ensures x > 0.0 ==> p > 0.0
  {
    if n == 0 then 1.0 else x * Power(x, n - 1)
  }

  lemma Regroup(x: real, p: real, q: real)
    ensures x * p * q == x * (p * q)
  {
  }

  function Times(a: real, b: real): real { a * b }

  lemma {:induction false} PowerAdd(x: real, m: nat, n: nat)
    ensures Power(x, m + n) == Times(Power(x, m), Power(x, n))
  {
    if m == 0 {
    } else {
      PowerAdd(x, m - 1, n);
      Regroup(x, Power(x, m - 1), Power(x, n));
    }
  }

  /** The inverse of 1.0001. */
  const STEP: real := 10000.0 / 10001.0

  // ---- products of near numbers -----------------------------------------------------------

  /** A unit of relative error is 2^-86. */
  function Under(k: real): real { 1.0 - k / 77371252455336267181195264.0 }

  function Over(k: real): real { 1.0 + k / 77371252455336267181195264.0 }

  function Square(x: real): real { x * x }

  /** x is y up to k units of relative error. */
  predicate Near(x: real, y: real, k: real) { y > 0.0 && Times(y, Under(k)) <= x <= Times(y, Over(k)) }

  lemma Grow(m: real, a: real, b: real)
    requires m >= 0.0 && a <= b
    ensures m * a <= m * b
  {
  }

  lemma MulLe(a: real, b: real, c: real, d: real)
    requires 0.0 <= a <= b && 0.0 <= c <= d
    ensures 0.0 <= a * c <= b * d
  {
    Grow(a, 0.0, c);
    Grow(a, c, d);
    Grow(d, a, b);
  }

  lemma Factors(k: real, j: real, e: real)
    requires 0.0 <= k && 0.0 <= j && 0.0 <= e && k * j * e <= 1.0
    ensures (1.0 + k * e) * (1.0 + j * e) <= 1.0 + (k + j + 1.0) * e
    ensures (1.0 - k * e) * (1.0 - j * e) >= 1.0 - (k + j + 1.0) * e
  {
    assert (1.0 + k * e) * (1.0 + j * e) == 1.0 + (k + j) * e + k * j * e * e;
    assert (1.0 - k * e) * (1.0 - j * e) == 1.0 - (k + j) * e + k * j * e * e;
    Grow(e, k * j * e, 1.0);
    assert k * j * e * e == e * (k * j * e);
    Grow(k, 0.0, j);
    Grow(e, 0.0, k * j);
    Grow(e, 0.0, k * j * e);
  }

  /** Few enough units: 2^24. */
  predicate Small(k: real) { 0.0 <= k <= 16777216.0 }

  lemma SmallFactors(k: real, j: real)
    requires Small(k) && Small(j)
    ensures Under(k) >= 0.0 && Times(Over(k), Over(j)) <= Over(k + j + 1.0)
    ensures Times(Under(k), Under(j)) >= Under(k + j + 1.0)
  {
    MulLe(k, 16777216.0, j, 16777216.0);
    Factors(k, j, 1.0 / 77371252455336267181195264.0);
  }

  lemma Shuffle(y: real, a: real, z: real, b: real)
    ensures Times(Times(y, a), Times(z, b)) == Times(Times(y, z), Times(a, b))
  {
  }

  lemma TimesGrows(a: real, b: real, c: real, d: real)
    requires 0.0 <= a <= b && 0.0 <= c <= d
    ensures 0.0 <= Times(a, c) <= Times(b, d)
  {
    MulLe(a, b, c, d);
  }

  lemma TimesLe(m: real, a: real, b: real)
    requires m >= 0.0 && a <= b
    ensures Times(m, a) <= Times(m, b)
  {
    Grow(m, a, b);
  }

  lemma ProductUp(x: real, y: real, a: real, w: real, z: real, b: real, c: real)
    requires 0.0 <= x <= Times(y, a) && 0.0 <= w <= Times(z, b) && y >= 0.0 && z >= 0.0 && Times(a, b) <= c
    ensures Times(x, w) <= Times(Times(y, z), c)
  {
    TimesGrows(x, Times(y, a), w, Times(z, b));
    Shuffle(y, a, z, b);
    TimesGrows(0.0, y, 0.0, z);
    TimesLe(Times(y, z), Times(a, b), c);
  }

  lemma ProductDown(x: real, y: real, a: real, w: real, z: real, b: real, c: real)
    requires Times(y, a) <= x && Times(z, b) <= w && y >= 0.0 && z >= 0.0 && a >= 0.0 && b >= 0.0 && c <= Times(a, b)
    ensures Times(Times(y, z), c) <= Times(x, w)
  {
    TimesGrows(0.0, y, 0.0, a);
    TimesGrows(0.0, z, 0.0, b);
    TimesGrows(Times(y, a), x, Times(z, b), w);
    Shuffle(y, a, z, b);
    TimesGrows(0.0, y, 0.0, z);
    TimesLe(Times(y, z), c, Times(a, b));
  }

  lemma ProductPositive(y: real, z: real)
    requires y > 0.0 && z > 0.0
    ensures Times(y, z) > 0.0
  {
  }

  lemma NearProduct(x: real, y: real, k: real, w: real, z: real, j: real)
    requires x >= 0.0 && w >= 0.0 && Small(k) && Small(j)
    requires Near(x, y, k) && Near(w, z, j)
    ensures Near(Times(x, w), Times(y, z), k + j + 1.0)
  {
    SmallFactors(k, j);
    SmallFactors(j, k);
    ProductPositive(y, z);
    ProductUp(x, y, Over(k), w, z, Over(j), Over(k + j + 1.0));
    ProductDown(x, y, Under(k), w, z, Under(j), Under(k + j + 1.0));
  }

  // ---- the rows ---------------------------------------------------------------------------

  /** A Q128 value as a real number. */
  function Share(r: nat): real { r as real / 340282366920938463463374607431768211456.0 }

  /** One last place, 2^-128. */
  const LAST: real := 1.0 / 340282366920938463463374607431768211456.0

  /** Row i as a real factor. */
  function Factor(i: nat): real
    requires i < 20
  {
    Share(TICK_TABLE.muls[i])
  }

  predicate SquareRow(i: nat)
    requires i < 19
  {
    var row, next := TICK_TABLE.muls[i], TICK_TABLE.muls[i + 1];
    (next - 2) * Q128 <= row * row <= (next + 2) * Q128
  }

  lemma RowIsSquare(i: nat)
    requires i < 19
    ensures SquareRow(i)
  {
    assert i == 0 ==> SquareRow(0);
    assert i == 1 ==> SquareRow(1);
    assert i == 2 ==> SquareRow(2);
    assert i == 3 ==> SquareRow(3);
    assert i == 4 ==> SquareRow(4);
    assert i == 5 ==> SquareRow(5);
    assert i == 6 ==> SquareRow(6);
    assert i == 7 ==> SquareRow(7);
    assert i == 8 ==> SquareRow(8);
    assert i == 9 ==> SquareRow(9);
    assert i == 10 ==> SquareRow(10);
    assert i == 11 ==> SquareRow(11);
    assert i == 12 ==> SquareRow(12);
    assert i == 13 ==> SquareRow(13);
    assert i == 14 ==> SquareRow(14);
    assert i == 15 ==> SquareRow(15);
    assert i == 16 ==> SquareRow(16);
    assert i == 17 ==> SquareRow(17);
    assert i == 18 ==> SquareRow(18);
  }

  /** The first row is the square root of 10000/10001 rounded down, and each next row is the square of the row
      before it up to two units. */
  lemma RowsAreSquares()
    ensures TICK_TABLE.muls[0] * TICK_TABLE.muls[0] * 10001 <= Q128 * Q128 * 10000
    ensures Q128 * Q128 * 10000 < (TICK_TABLE.muls[0] + 1) * (TICK_TABLE.muls[0] + 1) * 10001
    ensures forall i :: 0 <= i < 19 ==> SquareRow(i)
  {
    forall i | 0 <= i < 19 ensures SquareRow(i) { RowIsSquare(i); }
  }

  lemma {:induction false} Pow2Grows(i: nat, j: nat)
    requires i <= j
    ensures Pow2(i) <= Pow2(j)
  {
    if i == j {
    } else {
      Pow2Grows(i, j - 1);
    }
  }

  /** The relative error of row i, in units. */
  function Units(i: nat): real { 4.0 * (Pow2(i) as real) - 3.0 }

  lemma UnitsSmall(i: nat)
    requires i <= 20
    ensures Pow2(i) <= 0x100000 && Small(Units(i)) && Units(i) >= 1.0 && Small(4.0 * (Pow2(i) as real))
  {
    Pow2Grows(i, 20);
    TwentyBits();
  }

  lemma CastProduct(a: int, b: int)
    ensures (a * b) as real == (a as real) * (b as real)
  {
  }

  lemma LargeRow(i: nat)
    requires i < 20
    ensures 0x40_0000_0000_0000_0000_0000 <= TICK_TABLE.muls[i] <= Q128
  {
  }

  lemma ShareSquare(row: nat)
    ensures Share(row) * Share(row) ==
      (row * row) as real / 115792089237316195423570985008687907853269984665640564039457584007913129639936.0
  {
    CastProduct(row, row);
  }

  lemma Scaled(row: nat, next: nat)
    requires (next - 2) * Q128 <= row * row <= (next + 2) * Q128
    ensures Share(next) - 2.0 * LAST <= Share(row) * Share(row) <= Share(next) + 2.0 * LAST
  {
    ShareSquare(row);
  }

  /** SquareRow over the real factors. */
  lemma FactorSquare(i: nat)
    requires i < 19
    ensures Factor(i + 1) - 2.0 * LAST <= Square(Factor(i)) <= Factor(i + 1) + 2.0 * LAST
  {
    RowIsSquare(i);
    var row, next := TICK_TABLE.muls[i], TICK_TABLE.muls[i + 1];
    Scaled(row, next);
  }

  lemma FactorRange(i: nat)
    requires i < 20
    ensures 1.0 / 549755813888.0 <= Factor(i) <= 1.0
  {
    LargeRow(i);
  }

  lemma FirstRow()
    ensures Near(Square(Factor(0)), Power(STEP, 1), 1.0)
  {
  }

  lemma OneMoreUnit(y: real, k: real)
    ensures Times(y, Over(k + 1.0)) == Times(y, Over(k)) + y / 77371252455336267181195264.0
    ensures Times(y, Under(k + 1.0)) == Times(y, Under(k)) - y / 77371252455336267181195264.0
  {
    assert y * (k + 1.0) == y * k + y;
  }

  /** A number near y moved by two last places stays near it. */
  lemma NearMoved(t: real, w: real, y: real, k: real)
    requires Near(t, y, k) && Small(k) && w >= 1.0 / 549755813888.0
    requires w - 2.0 * LAST <= t <= w + 2.0 * LAST
    ensures Near(w, y, k + 1.0)
  {
    TimesLe(y, Over(k), 1.5);
    assert Times(y, 1.5) == 1.5 * y;
    OneMoreUnit(y, k);
  }

  lemma UnitsNext(i: nat)
    requires i < 20
    ensures Units(i + 1) == 2.0 * Units(i) + 3.0 && Small(Units(i)) && Small(Units(i) + 1.0)
  {
    UnitsSmall(i);
  }

  lemma PowerDoubles(i: nat)
    ensures Power(STEP, Pow2(i + 1)) == Square(Power(STEP, Pow2(i)))
  {
    PowerAdd(STEP, Pow2(i), Pow2(i));
  }

  lemma SquareIsTimes(x: real)
    ensures Square(x) == Times(x, x)
  {
  }

  /** The next row is near STEP^(2^i) itself, as row i is in its square. */
  lemma RowMoved(i: nat)
    requires i < 19 && Near(Square(Factor(i)), Power(STEP, Pow2(i)), Units(i))
    ensures Near(Factor(i + 1), Power(STEP, Pow2(i)), Units(i) + 1.0)
  {
    FactorSquare(i);
    FactorRange(i + 1);
    UnitsNext(i);
    NearMoved(Square(Factor(i)), Factor(i + 1), Power(STEP, Pow2(i)), Units(i));
  }

  lemma RowSquared(i: nat)
    requires i < 19 && Near(Factor(i + 1), Power(STEP, Pow2(i)), Units(i) + 1.0)
    ensures Near(Square(Factor(i + 1)), Power(STEP, Pow2(i + 1)), Units(i + 1))
  {
    FactorRange(i + 1);
    UnitsNext(i);
    PowerDoubles(i);
    var w, y, k := Factor(i + 1), Power(STEP, Pow2(i)), Units(i) + 1.0;
    NearProduct(w, y, k, w, y, k);
    SquareIsTimes(w);
    SquareIsTimes(y);
    assert k + k + 1.0 == Units(i + 1);
  }

  /** Row i is the square root of STEP^(2^i) up to Units(i) of relative error in its square. */
  lemma {:induction false} RowNear(i: nat)
    requires i < 20
    ensures Near(Square(Factor(i)), Power(STEP, Pow2(i)), Units(i))
  {
    if i == 0 {
      FirstRow();
    } else {
      RowNear(i - 1);
      RowMoved(i - 1);
      RowSquared(i - 1);
    }
  }

  // ---- the product over the bits ----------------------------------------------------------

  /** The n low bits of a. */
  function LowPart(a: nat, n: nat): nat {
    if n == 0 then 0 else LowPart(a, n - 1) + if HasBit(a, n - 1) then Pow2(n - 1) else 0
  }

  lemma SplitHalf(p: nat, half: nat, rest: nat)
    ensures rest + p * half == rest + (if half % 2 == 1 then p else 0) + 2 * p * (half / 2)
  {
    assert half == 2 * (half / 2) + half % 2;
    assert p * half == p * (2 * (half / 2)) + p * (half % 2);
    assert p * (2 * (half / 2)) == 2 * p * (half / 2);
  }

  lemma {:induction false} SplitBits(a: nat, n: nat)
    ensures a == LowPart(a, n) + Pow2(n) * Shifted(a, n)
  {
    if n == 0 {
    } else {
      SplitBits(a, n - 1);
      SplitHalf(Pow2(n - 1), Shifted(a, n - 1), LowPart(a, n - 1));
    }
  }

  /** One truncated product: the quotient is at most one last place below it. */
  lemma ShareProduct(r: nat, c: nat)
    ensures Share(MulShift(r, c, Q128)) <= Times(Share(r), Share(c)) <= Share(MulShift(r, c, Q128)) + LAST
  {
    var q := MulShift(r, c, Q128);
    FloorBounds(r * c, Q128);
    CastProduct(r, c);
    assert Share(r) * Share(c) ==
      (r * c) as real / 115792089237316195423570985008687907853269984665640564039457584007913129639936.0;
  }

  lemma Squares(a: real, b: real)
    ensures Square(Times(a, b)) == Times(Square(a), Square(b))
  {
  }

  lemma OverGrows(k: real, j: real)
    requires k <= j
    ensures Over(k) <= Over(j) && Under(j) <= Under(k)
  {
  }

  lemma SquareGrows(a: real, b: real)
    requires 0.0 <= a <= b
    ensures 0.0 <= Square(a) <= Square(b)
  {
    MulLe(a, b, a, b);
  }

  lemma SquareUp(f: real, f': real, g: real, Y: real, Z: real, k: real, j: real)
    requires 0.0 <= f' <= Times(f, g) && 0.0 <= f && 0.0 <= g && Y > 0.0 && Z > 0.0 && Small(k) && Small(j)
    requires Square(f) <= Times(Y, Over(k)) && Square(g) <= Times(Z, Over(j))
    ensures Square(f') <= Times(Times(Y, Z), Over(k + j + 1.0))
  {
    SquareGrows(f', Times(f, g));
    Squares(f, g);
    SmallFactors(k, j);
    SquareGrows(0.0, f);
    SquareGrows(0.0, g);
    ProductUp(Square(f), Y, Over(k), Square(g), Z, Over(j), Over(k + j + 1.0));
  }

  lemma SquareDown(h: real, h': real, g: real, Y: real, Z: real, k: real, j: real)
    requires 0.0 <= Times(h, g) <= h' && 0.0 <= h && 0.0 <= g && Y > 0.0 && Z > 0.0 && Small(k) && Small(j)
    requires Times(Y, Under(k)) <= Square(h) && Times(Z, Under(j)) <= Square(g)
    ensures Times(Times(Y, Z), Under(k + j + 1.0)) <= Square(h')
  {
    SquareGrows(Times(h, g), h');
    Squares(h, g);
    SmallFactors(k, j);
    SmallFactors(j, k);
    ProductDown(Square(h), Y, Under(k), Square(g), Z, Under(j), Under(k + j + 1.0));
  }

  /** f is the square root of Y up to k units of relative error in its square, and slack below. */
  predicate Band(f: real, slack: real, Y: real, k: real) {
    Square(f) <= Times(Y, Over(k)) && Times(Y, Under(k)) <= Square(f + slack)
  }

  lemma BandWidens(f: real, slack: real, slack': real, Y: real, k: real, j: real)
    requires f >= 0.0 && 0.0 <= slack <= slack' && Y > 0.0 && k <= j && Band(f, slack, Y, k)
    ensures Band(f, slack', Y, j)
  {
    OverGrows(k, j);
    TimesLe(Y, Over(k), Over(j));
    TimesLe(Y, Under(j), Under(k));
    SquareGrows(f + slack, f + slack');
  }

  lemma SlackProduct(f: real, f': real, g: real, slack: real, last: real)
    requires Times(f, g) <= f' + last && 0.0 <= f && 0.0 <= g <= 1.0 && slack >= 0.0
    ensures 0.0 <= Times(f + slack, g) <= f' + (slack + last)
  {
    Grow(slack, g, 1.0);
    Grow(f + slack, 0.0, g);
    assert (f + slack) * g == f * g + slack * g;
  }

  lemma BandProduct(f: real, f': real, g: real, slack: real, last: real, Y: real, Z: real, P: real, k: real, j: real)
    requires 0.0 <= f && 0.0 <= f' <= Times(f, g) <= f' + last && 0.0 <= g <= 1.0 && slack >= 0.0 && P == Times(Y, Z)
    requires Y > 0.0 && Small(k) && Small(j) && Near(Square(g), Z, j) && Band(f, slack, Y, k)
    ensures Band(f', slack + last, P, k + j + 1.0)
  {
    SquareUp(f, f', g, Y, Z, k, j);
    SlackProduct(f, f', g, slack, last);
    SquareDown(f + slack, f' + (slack + last), g, Y, Z, k, j);
  }

  function Slack(n: nat): real { n as real * LAST }

  /** The relative error allowed after n rows, in units. */
  function Allowed(n: nat): real { 4.0 * (Pow2(n) as real) }

  lemma AllowedNext(n: nat)
    requires n < 20
    ensures Allowed(n) <= Allowed(n + 1) && Allowed(n) + Units(n) + 1.0 <= Allowed(n + 1)
    ensures Small(Allowed(n)) && Small(Units(n)) && 0.0 <= Slack(n) <= Slack(n) + LAST <= Slack(n + 1)
  {
    UnitsSmall(n);
  }

  /** After n rows the value is the square root of STEP^p, p the low bits, up to a relative error and n last places. */
  predicate FoldBand(a: nat, n: nat)
    requires n <= 20
  {
    Band(Share(Fold(TICK_TABLE, a, n)), Slack(n), Power(STEP, LowPart(a, n)), Allowed(n))
  }

  lemma SkippedRow(a: nat, n: nat)
    requires n < 20 && FoldBand(a, n) && !HasBit(a, n)
    ensures FoldBand(a, n + 1)
  {
    AllowedNext(n);
    BandWidens(Share(Fold(TICK_TABLE, a, n)), Slack(n), Slack(n + 1), Power(STEP, LowPart(a, n)), Allowed(n), Allowed(n + 1));
  }

  lemma MultipliedRow(a: nat, n: nat)
    requires n < 20 && FoldBand(a, n) && HasBit(a, n)
    ensures FoldBand(a, n + 1)
  {
    var r, Y, Z, P := Fold(TICK_TABLE, a, n), Power(STEP, LowPart(a, n)), Power(STEP, Pow2(n)), Power(STEP, LowPart(a, n + 1));
    var f' := Share(Fold(TICK_TABLE, a, n + 1));
    RowNear(n);
    FactorRange(n);
    AllowedNext(n);
    ShareProduct(r, TICK_TABLE.muls[n]);
    PowerAdd(STEP, LowPart(a, n), Pow2(n));
    BandProduct(Share(r), f', Factor(n), Slack(n), LAST, Y, Z, P, Allowed(n), Units(n));
    BandWidens(f', Slack(n) + LAST, Slack(n + 1), P, Allowed(n) + Units(n) + 1.0, Allowed(n + 1));
  }

  lemma {:induction false} FoldNear(a: nat, n: nat)
    requires n <= 20
    ensures FoldBand(a, n)
  {
    if n == 0 {
    } else {
      FoldNear(a, n - 1);
      if HasBit(a, n - 1) { MultipliedRow(a, n - 1); } else { SkippedRow(a, n - 1); }
    }
  }

  lemma LowPartIsAll(a: nat)
    requires a < 0x100000
    ensures LowPart(a, 20) == a
  {
    TwentyBits();
    ShiftedBelow(a, 20, 20);
    SplitBits(a, 20);
  }

  /** The Q128 value of every absolute tick is STEP^(a/2) up to 2^-64 of relative error in its square, and twenty last
      places below. */
  lemma RawBand(a: nat)
    requires a < 0x100000
    ensures Band(Share(RawRatio(a)), Slack(20), Power(STEP, a), 4194304.0)
  {
    FoldNear(a, 20);
    LowPartIsAll(a);
    TwentyBits();
  }

  // ---- the ratio of a tick ----------------------------------------------------------------

  lemma {:induction false} RawAtLeast(a: nat)
    requires a <= MAX_TICK
    ensures RawRatio(a) >= 0x1_0000_0000_0000_0000
    decreases MAX_TICK - a
  {
    if a == MAX_TICK {
      FoldMax();
    } else {
      RawRatioFalls(a);
      RawAtLeast(a + 1);
    }
  }

  /** 2^-57 and 2^-56 of relative error. */
  const FINE: real := 536870912.0
  const COARSE: real := 1073741824.0

  lemma CancelFactor(m: real, a: real, b: real)
    requires m > 0.0 && Times(a, m) <= Times(b, m)
    ensures a <= b
  {
    if b < a { ProductPositive(a - b, m); }
  }

  lemma Reassociate(y: real, a: real, b: real)
    ensures Times(Times(y, a), b) == Times(y, Times(a, b))
  {
  }

  lemma SlackSquare(f: real, slack: real, c: real)
    requires f > 0.0 && 0.0 <= slack && 0.0 <= c <= 1.0 && 3.0 * slack <= f * c
    ensures Square(f + slack) <= Times(Square(f), 1.0 + c)
  {
    Grow(f, c, 1.0);
    Grow(slack, slack, f);
    Grow(f, 3.0 * slack, f * c);
    assert (f + slack) * (f + slack) == f * f + 2.0 * (slack * f) + slack * slack;
    assert f * (3.0 * slack) == 3.0 * (slack * f);
    assert f * f * (1.0 + c) == f * f + f * (f * c);
  }

  /** A slack that is small beside f widens its square by a factor only. */
  lemma SlackFactor(f: real, slack: real, k: real)
    requires f > 0.0 && 0.0 <= slack && 0.0 <= k <= 536870912.0
    requires 3.0 * slack <= f * (k / 77371252455336267181195264.0)
    ensures Square(f + slack) <= Times(Square(f), Over(k))
  {
    SlackSquare(f, slack, k / 77371252455336267181195264.0);
  }

  lemma NearOfBand(f: real, slack: real, q: real)
    requires f >= 1.0 / 18446744073709551616.0 && slack == Slack(20) && q > 0.0 && Band(f, slack, q, 4194304.0)
    ensures Near(Square(f), q, FINE)
  {
    SlackFactor(f, slack, 268435456.0);
    OverGrows(4194304.0, FINE);
    TimesLe(q, Over(4194304.0), Over(FINE));
    // q * Under(FINE) * Over(2^28) <= q * Under(2^22) <= f^2 * Over(2^28)
    assert Times(Under(FINE), Over(268435456.0)) <= Under(4194304.0);
    TimesLe(q, Times(Under(FINE), Over(268435456.0)), Under(4194304.0));
    Reassociate(q, Under(FINE), Over(268435456.0));
    CancelFactor(Over(268435456.0), Times(q, Under(FINE)), Square(f));
  }

  /** So the square of the Q128 value is the price up to 2^-57 of relative error. */
  lemma RawNear(a: nat)
    requires a <= MAX_TICK
    ensures Near(Square(Share(RawRatio(a))), Power(STEP, a), FINE)
  {
    RawBand(a);
    RawAtLeast(a);
    NearOfBand(Share(RawRatio(a)), Slack(20), Power(STEP, a));
  }

  /** 1.0001^tick. */
  function Price(tick: int): (p: real)
    ensures p > 0.0
  {
    if tick >= 0 then Power(1.0001, tick) else Power(STEP, -tick)
  }

  lemma {:induction false} PowersInvert(n: nat)
    ensures Times(Power(1.0001, n), Power(STEP, n)) == 1.0
  {
    if n == 0 {
    } else {
      PowersInvert(n - 1);
      Shuffle(1.0001, Power(1.0001, n - 1), STEP, Power(STEP, n - 1));
    }
  }

  lemma ShareTimes(s: nat, r: nat)
    ensures Times(Share(s), Share(r)) ==
      (s * r) as real / 115792089237316195423570985008687907853269984665640564039457584007913129639936.0
  {
    CastProduct(s, r);
  }

  /** The inverted value: the greatest one whose product with the other stays below one. */
  lemma ShareInverse(r: nat)
    requires 0 < r <= Q128
    ensures var g := Share(MAX_UINT256 / r);
      && Times(g, Share(r)) <= 1.0 <= Times(g + LAST, Share(r)) && Share(r) <= 1.0
  {
    var s := MAX_UINT256 / r;
    FloorBounds(MAX_UINT256, r);
    assert s * r <= Q128 * Q128 <= (s + 1) * r;
    CastProduct(s, r);
    CastProduct(s + 1, r);
    assert Share(s) + LAST == Share(s + 1);
    ShareTimes(s, r);
    ShareTimes(s + 1, r);
  }

  lemma InverseUp(f: real, g: real, q: real, p: real)
    requires 0.0 < f && 0.0 <= g && Times(g, f) <= 1.0 && p > 0.0 && q > 0.0 && Times(p, q) == 1.0
    requires Times(q, Under(FINE)) <= Square(f)
    ensures Square(g) <= Times(p, Over(COARSE))
  {
    Squares(g, f);
    TimesGrows(0.0, g, 0.0, f);
    SquareGrows(Times(g, f), 1.0);
    SquareGrows(0.0, g);
    TimesLe(Square(g), Times(q, Under(FINE)), Square(f));
    // g^2 * q * Under <= 1 == p * q, so g^2 * Under <= p
    assert Times(Square(g), Times(q, Under(FINE))) == Times(Times(Square(g), Under(FINE)), q);
    CancelFactor(q, Times(Square(g), Under(FINE)), p);
    assert Times(Under(FINE), Over(COARSE)) >= 1.0;
    TimesLe(Square(g), 1.0, Times(Under(FINE), Over(COARSE)));
    Reassociate(Square(g), Under(FINE), Over(COARSE));
    TimesGrows(Times(Square(g), Under(FINE)), p, Over(COARSE), Over(COARSE));
  }

  lemma InverseFloor(f: real, h: real, q: real, p: real)
    requires 0.0 < f && 0.0 <= h && 1.0 <= Times(h, f) && p > 0.0 && q > 0.0 && Times(p, q) == 1.0
    requires Square(f) <= Times(q, Over(FINE))
    ensures p <= Times(Square(h), Over(FINE))
  {
    Squares(h, f);
    SquareGrows(1.0, Times(h, f));
    SquareGrows(0.0, h);
    TimesLe(Square(h), Square(f), Times(q, Over(FINE)));
    assert Times(Square(h), Times(q, Over(FINE))) == Times(Times(Square(h), Over(FINE)), q);
    CancelFactor(q, p, Times(Square(h), Over(FINE)));
  }

  /** One last place more than g is at least one. */
  lemma LastPlace(g: real)
    requires g + LAST >= 1.0
    ensures Square(g + LAST) <= Times(Square(g), Over(1.0))
  {
    SlackFactor(g, LAST, 1.0);
  }

  lemma TwoFactors(p: real, G: real)
    requires 0.0 <= G && 0.0 <= p <= Times(Times(G, Over(1.0)), Over(FINE))
    ensures Times(p, Under(COARSE)) <= G
  {
    var both := Times(Over(1.0), Over(FINE));
    Reassociate(G, Over(1.0), Over(FINE));
    assert Times(both, Under(COARSE)) <= 1.0;
    TimesGrows(p, Times(G, both), Under(COARSE), Under(COARSE));
    Reassociate(G, both, Under(COARSE));
    TimesLe(G, Times(both, Under(COARSE)), 1.0);
  }

  lemma InverseDown(g: real, p: real, f: real)
    requires 0.0 <= g && 0.0 < f <= 1.0 && 1.0 <= Times(g + LAST, f) && 0.0 <= p <= Times(Square(g + LAST), Over(FINE))
    ensures Times(p, Under(COARSE)) <= Square(g)
  {
    TimesLe(g + LAST, f, 1.0);
    LastPlace(g);
    SquareGrows(0.0, g);
    SquareGrows(0.0, g + LAST);
    TimesGrows(Square(g + LAST), Times(Square(g), Over(1.0)), Over(FINE), Over(FINE));
    TwoFactors(p, Square(g));
  }

  /** The square of the signed Q128 ratio is the price up to 2^-56 of relative error. */
  lemma SignedNear(tick: int)
    requires MIN_TICK <= tick <= MAX_TICK
    ensures RawRatio(Abs(tick)) > 0 && Near(Square(Share(Signed(tick, RawRatio(Abs(tick))))), Price(tick), COARSE)
  {
    var a := Abs(tick);
    var r := RawRatio(a);
    RawAtLeast(a);
    RawNear(a);
    if tick > 0 {
      RawRatioBounds(a);
      ShareInverse(r);
      PowersInvert(a);
      var f, g := Share(r), Share(MAX_UINT256 / r);
      InverseUp(f, g, Power(STEP, a), Power(1.0001, a));
      InverseFloor(f, g + LAST, Power(STEP, a), Power(1.0001, a));
      InverseDown(g, Power(1.0001, a), f);
    } else {
      OverGrows(FINE, COARSE);
      TimesLe(Power(STEP, a), Over(FINE), Over(COARSE));
      TimesLe(Power(STEP, a), Under(COARSE), Under(FINE));
    }
  }

  /** A Q96 value as a real number. */
  function Share96(s: int): real { s as real / 79228162514264337593543950336.0 }

  lemma RoundedUp(s: nat)
    ensures Share96(ToX96(s) - 1) <= Share(s) <= Share96(ToX96(s))
  {
  }

  lemma RatioPositive(tick: int)
    requires MIN_TICK <= tick <= MAX_TICK
    ensures SqrtRatio(tick) > 0
  {
    var r := RawRatio(Abs(tick));
    RawAtLeast(Abs(tick));
    RawRatioBounds(Abs(tick));
    FloorAtLeast(MAX_UINT256, r, 1);
  }

  /** For every tick the ratio is the square root of 1.0001^tick, up to 2^-56 of relative error in its square and
      one unit of rounding up. */
  lemma RatioIsRootOfPrice(tick: int)
    requires MIN_TICK <= tick <= MAX_TICK
    ensures SqrtRatio(tick) > 0
    ensures Square(Share96(SqrtRatio(tick) - 1)) <= Times(Price(tick), Over(COARSE))
    ensures Times(Price(tick), Under(COARSE)) <= Square(Share96(SqrtRatio(tick)))
  {
    SignedNear(tick);
    RatioPositive(tick);
    var s := Signed(tick, RawRatio(Abs(tick)));
    RoundedUp(s);
    SquareGrows(Share96(ToX96(s) - 1), Share(s));
    SquareGrows(Share(s), Share96(ToX96(s)));
  }

  lemma StepBack(w: real, y: real)
    requires y > 0.0 && Near(w, STEP * y, FINE)
    ensures Near(1.0001 * w, y, FINE)
  {
    assert Times(STEP * y, Over(FINE)) == STEP * Times(y, Over(FINE));
    assert Times(STEP * y, Under(FINE)) == STEP * Times(y, Under(FINE));
  }

  lemma NearToNear(x: real, w: real, y: real)
    requires Near(x, y, FINE) && Near(w, y, FINE)
    ensures Near(w, x, 2147483648.0)
  {
    var K := 2147483648.0;
    assert Over(FINE) <= Times(Under(FINE), Over(K)) && Times(Over(FINE), Under(K)) <= Under(FINE);
    TimesLe(y, Over(FINE), Times(Under(FINE), Over(K)));
    Reassociate(y, Under(FINE), Over(K));
    ProductPositive(y, Under(FINE));
    TimesGrows(Times(y, Under(FINE)), x, Over(K), Over(K));
    Reassociate(y, Over(FINE), Under(K));
    TimesGrows(x, Times(y, Over(FINE)), Under(K), Under(K));
    TimesLe(y, Times(Over(FINE), Under(K)), Under(FINE));
  }

  /** One tick is a factor of 1.0001: the squares of adjacent Q128 values agree up to 2^-55 of relative error. */
  lemma OneTickIsOneStep(a: nat)
    requires a < MAX_TICK
    ensures Near(1.0001 * Square(Share(RawRatio(a + 1))), Square(Share(RawRatio(a))), 2147483648.0)
  {
    var x, w, y := Square(Share(RawRatio(a))), Square(Share(RawRatio(a + 1))), Power(STEP, a);
    RawNear(a);
    RawNear(a + 1);
    StepBack(w, y);
    NearToNear(x, 1.0001 * w, y);
  }
}
