/** Liquidity and amount rounding of a Uniswap V3 mint, and the full-range mint. */
module Liquidity {
  import opened Numeric
  import opened TickSearch
  import opened TickMath

  const Q96: nat := 0x1_0000_0000_0000_0000_0000_0000

  datatype MintError = MintTickOutOfRange | PriceOutsideRange

  datatype Mint = Mint(liquidity: nat, consumed0: nat, consumed1: nat, dust0: int, dust1: int)

  // The helpers order their two ratios first.

  function LiquidityForAmount0(sqrtA: nat, sqrtB: nat, amount0: nat): nat
    requires sqrtA != sqrtB
  {
    var (a, b) := if sqrtA > sqrtB then (sqrtB, sqrtA) else (sqrtA, sqrtB);
    amount0 * (a * b / Q96) / (b - a)
  }

  function LiquidityForAmount1(sqrtA: nat, sqrtB: nat, amount1: nat): nat
    requires sqrtA != sqrtB
  {
    var (a, b) := if sqrtA > sqrtB then (sqrtB, sqrtA) else (sqrtA, sqrtB);
    amount1 * Q96 / (b - a)
  }

  function Amount0ForLiquidity(sqrtA: nat, sqrtB: nat, liquidity: nat): nat
    requires sqrtA > 0 && sqrtB > 0
  {
    var (a, b) := if sqrtA > sqrtB then (sqrtB, sqrtA) else (sqrtA, sqrtB);
    CeilDiv(CeilDiv(liquidity * (b - a) * Q96, b), a)
  }

  function Amount1ForLiquidity(sqrtA: nat, sqrtB: nat, liquidity: nat): nat {
    var (a, b) := if sqrtA > sqrtB then (sqrtB, sqrtA) else (sqrtA, sqrtB);
    CeilDiv(liquidity * (b - a), Q96)
  }

  lemma Amount0Chain(amount0: nat, cap: nat, w: nat, l: nat, ab: nat)
    requires l * w <= amount0 * cap
    requires cap * Q96 <= ab
    ensures l * w * Q96 <= amount0 * ab
  {
    MulMono(amount0, cap * Q96, ab);
    assert amount0 * cap * Q96 == amount0 * (cap * Q96);
  }

  lemma FloorAtMost(v: nat, w: nat, l: nat)
    requires w > 0 && l <= v / w
    ensures l * w <= v
  {
    FloorBounds(v, w);
    MulMono(w, l, v / w);
  }

  lemma Regroup(x: nat, a: nat, b: nat)
    ensures x * (a * b) == b * (a * x)
  {
  }

  /** Any liquidity up to L0 consumes at most amount0. */
  lemma Amount0Fits(a: nat, b: nat, amount0: nat, l: nat)
    requires 0 < a < b
    requires l <= LiquidityForAmount0(a, b, amount0)
    ensures Amount0ForLiquidity(a, b, l) <= amount0
  {
    var w, cap := b - a, a * b / Q96;
    FloorAtMost(amount0 * cap, w, l);
    FloorBounds(a * b, Q96);
    Amount0Chain(amount0, cap, w, l, a * b);
    Regroup(amount0, a, b);
    CeilAtMost(l * w * Q96, b, a * amount0);
    CeilAtMost(CeilDiv(l * w * Q96, b), a, amount0);
  }

  /** Any liquidity up to L1 consumes at most amount1. */
  lemma Amount1Fits(a: nat, b: nat, amount1: nat, l: nat)
    requires a < b
    requires l <= LiquidityForAmount1(a, b, amount1)
    ensures Amount1ForLiquidity(a, b, l) <= amount1
  {
    var w := b - a;
    FloorBounds(amount1 * Q96, w);
    MulMono(w, l, amount1 * Q96 / w);
    CeilAtMost(l * w, Q96, amount1);
  }

  /** L1 is the greatest liquidity whose amount1 fits. */
  lemma Amount1FitsExactly(a: nat, b: nat, amount1: nat, l: nat)
    requires a < b
    ensures Amount1ForLiquidity(a, b, l) <= amount1 <==> l <= LiquidityForAmount1(a, b, amount1)
  {
    if l <= LiquidityForAmount1(a, b, amount1) {
      Amount1Fits(a, b, amount1, l);
    } else {
      var w := b - a;
      FloorBounds(amount1 * Q96, w);
      MulMono(w, amount1 * Q96 / w + 1, l);
      CeilAtLeast(l * w, Q96, amount1 + 1);
    }
  }

  /** The token1 dust of L1 is below the span in Q96 units, rounded up. */
  lemma Dust1Bound(a: nat, b: nat, amount1: nat)
    requires a < b
    ensures var l := LiquidityForAmount1(a, b, amount1);
      0 <= (amount1 - Amount1ForLiquidity(a, b, l)) * Q96 < b - a
  {
    var w := b - a;
    var l := LiquidityForAmount1(a, b, amount1);
    FloorBounds(amount1 * Q96, w);
    assert l * w == w * l;
    CeilBounds(l * w, Q96);
    Amount1Fits(a, b, amount1, l);
  }

  lemma CeilTwice(x: nat, a: nat, b: nat)
    requires a > 0 && b > 0
    ensures x <= CeilDiv(CeilDiv(x, b), a) * (a * b)
  {
    var inner := CeilDiv(x, b);
    var c := CeilDiv(inner, a);
    CeilBounds(x, b);
    CeilBounds(inner, a);
    MulMono(b, inner, a * c);
    Regroup(c, a, b);
  }

  /** What L0 consumes covers the liquidity it mints. */
  lemma Amount0Covers(a: nat, b: nat, l: nat)
    requires 0 < a < b
    ensures l * (b - a) * Q96 <= Amount0ForLiquidity(a, b, l) * (a * b)
  {
    CeilTwice(l * (b - a) * Q96, a, b);
  }

  lemma Dust0Chain(amount0: nat, cap: nat, w: nat, l: nat, ab: nat, c: nat)
    requires w > 0
    requires amount0 * cap <= l * w + (w - 1)
    requires ab <= Q96 * cap + (Q96 - 1)
    requires l * w * Q96 <= c * ab
    ensures (amount0 - c) * ab <= amount0 * (Q96 - 1) + (w - 1) * Q96
  {
    MulMono(amount0, ab, Q96 * cap + (Q96 - 1));
    assert amount0 * (Q96 * cap + (Q96 - 1)) == amount0 * cap * Q96 + amount0 * (Q96 - 1);
    assert (amount0 - c) * ab == amount0 * ab - c * ab;
  }

  /** The token0 dust of L0, priced at both ends, is below one rounding of each division. */
  lemma Dust0Bound(a: nat, b: nat, amount0: nat)
    requires 0 < a < b
    ensures var l := LiquidityForAmount0(a, b, amount0);
      var dust := amount0 - Amount0ForLiquidity(a, b, l);
      0 <= dust && dust * (a * b) <= amount0 * (Q96 - 1) + (b - a - 1) * Q96
  {
    var w, cap := b - a, a * b / Q96;
    var l := LiquidityForAmount0(a, b, amount0);
    Amount0Fits(a, b, amount0, l);
    Amount0Covers(a, b, l);
    FloorBounds(amount0 * cap, w);
    FloorBounds(a * b, Q96);
    Commute(l, w);
    Dust0Chain(amount0, cap, w, l, a * b, Amount0ForLiquidity(a, b, l));
  }

  /** The mint consumes within both amounts, at the smaller of the two liquidities. */
  predicate IsMint(lo: nat, p: nat, hi: nat, amount0: nat, amount1: nat, m: Mint)
    requires 0 < lo < p < hi
  {
    && m.liquidity == Min(LiquidityForAmount0(p, hi, amount0), LiquidityForAmount1(lo, p, amount1))
    && m.consumed0 == Amount0ForLiquidity(p, hi, m.liquidity)
    && m.consumed1 == Amount1ForLiquidity(lo, p, m.liquidity)
    && m.consumed0 + m.dust0 == amount0 && m.consumed1 + m.dust1 == amount1
    && m.dust0 >= 0 && m.dust1 >= 0
  }

  predicate Overshoots(lo: nat, p: nat, hi: nat, amount0: nat, amount1: nat, l: nat)
    requires 0 < lo < p < hi
  {
    Amount0ForLiquidity(p, hi, l) > amount0 || Amount1ForLiquidity(lo, p, l) > amount1
  }

  lemma NoOvershoot(lo: nat, p: nat, hi: nat, amount0: nat, amount1: nat)
    requires 0 < lo < p < hi
    ensures !Overshoots(lo, p, hi, amount0, amount1,
              Min(LiquidityForAmount0(p, hi, amount0), LiquidityForAmount1(lo, p, amount1)))
  {
    var l := Min(LiquidityForAmount0(p, hi, amount0), LiquidityForAmount1(lo, p, amount1));
    Amount0Fits(p, hi, amount0, l);
    Amount1Fits(lo, p, amount1, l);
  }

  /** The mint once both range ratios are known. The correction loop runs zero times. */
  method MintBetween(sqrtLo: nat, sqrtP: nat, sqrtHi: nat, amount0: nat, amount1: nat) returns (m: Mint)
    requires 0 < sqrtLo < sqrtP < sqrtHi
    ensures IsMint(sqrtLo, sqrtP, sqrtHi, amount0, amount1, m)
  {
    var l0 := LiquidityForAmount0(sqrtP, sqrtHi, amount0);
    var l1 := LiquidityForAmount1(sqrtLo, sqrtP, amount1);
    var liquidity: nat := if l0 < l1 then l0 else l1;
    var consumed0 := Amount0ForLiquidity(sqrtP, sqrtHi, liquidity);
    var consumed1 := Amount1ForLiquidity(sqrtLo, sqrtP, liquidity);
    while (consumed0 > amount0 || consumed1 > amount1) && liquidity > 0
      invariant liquidity <= Min(l0, l1)
      invariant liquidity < Min(l0, l1) ==> Overshoots(sqrtLo, sqrtP, sqrtHi, amount0, amount1, Min(l0, l1))
      invariant consumed0 == Amount0ForLiquidity(sqrtP, sqrtHi, liquidity)
      invariant consumed1 == Amount1ForLiquidity(sqrtLo, sqrtP, liquidity)
    {
      liquidity := liquidity - 1;
      consumed0 := Amount0ForLiquidity(sqrtP, sqrtHi, liquidity);
      consumed1 := Amount1ForLiquidity(sqrtLo, sqrtP, liquidity);
    }
    NoOvershoot(sqrtLo, sqrtP, sqrtHi, amount0, amount1);
    return Mint(liquidity, consumed0, consumed1, amount0 - consumed0, amount1 - consumed1);
  }

  /** The mint at price sqrtP over a tick range. */
  method FullRangeMint(sqrtP: nat, tickLower: int, tickUpper: int, amount0: nat, amount1: nat)
    returns (r: Result<Mint, MintError>)
    ensures r == Err(MintTickOutOfRange) <==>
      !(MIN_TICK <= tickLower <= MAX_TICK && MIN_TICK <= tickUpper <= MAX_TICK)
    ensures r != Err(MintTickOutOfRange) ==>
      (r.Ok? <==> SqrtRatio(tickLower) < sqrtP < SqrtRatio(tickUpper))
    ensures r.Ok? ==> 0 < SqrtRatio(tickLower)
    ensures r.Ok? ==> IsMint(SqrtRatio(tickLower), sqrtP, SqrtRatio(tickUpper), amount0, amount1, r.value)
  {
    var lo := GetSqrtRatioAtTick(tickLower);
    var hi := GetSqrtRatioAtTick(tickUpper);
    if lo.Err? || hi.Err? { return Err(MintTickOutOfRange); }
    if sqrtP <= lo.value || sqrtP >= hi.value { return Err(PriceOutsideRange); }
    RangeEnds();
    if MIN_TICK < tickLower { RatioStrictlyIncreasing(MIN_TICK, tickLower); }
    var m := MintBetween(lo.value, sqrtP, hi.value, amount0, amount1);
    return Ok(m);
  }

  /** The dust a mint leaves on the side that limited it. */
  lemma MintDust(lo: nat, p: nat, hi: nat, amount0: nat, amount1: nat, m: Mint)
    requires 0 < lo < p < hi && IsMint(lo, p, hi, amount0, amount1, m)
    ensures m.liquidity == LiquidityForAmount1(lo, p, amount1) ==> m.dust1 * Q96 < p - lo
    ensures m.liquidity == LiquidityForAmount0(p, hi, amount0) ==>
      m.dust0 * (p * hi) <= amount0 * (Q96 - 1) + (hi - p - 1) * Q96
    ensures LiquidityForAmount1(lo, p, amount1) <= LiquidityForAmount0(p, hi, amount0) ==>
      forall l: nat :: l > m.liquidity ==> Overshoots(lo, p, hi, amount0, amount1, l)
  {
    Dust1Bound(lo, p, amount1);
    Dust0Bound(p, hi, amount0);
    if LiquidityForAmount1(lo, p, amount1) <= LiquidityForAmount0(p, hi, amount0) {
      forall l: nat | l > m.liquidity ensures Overshoots(lo, p, hi, amount0, amount1, l) {
        Amount1FitsExactly(lo, p, amount1, l);
      }
    }
  }
}
