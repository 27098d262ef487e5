/** The solver for the virtual reserves and graduation threshold of the curve. */
module CurveSolver {
  import opened Numeric

  datatype Targets = Targets(priceNum: int, priceDen: int, totalSupply: int, curveSupply: int, lpTranche: int,
    graduationFee: int, callerReward: int)

  datatype Constants = Constants(virtualEth: int, virtualToken: int, k: int, graduationEth: int,
    graduationFee: int, callerReward: int, ethToLp: int, feeTokens: int)

  datatype SolveError =
    | SupplyMismatch | NegativeFee | DivisionByZero | InfeasibleDenominator
    | NegativeVirtualEth | NonPositiveThreshold | FeesExceedRaise

  function Solve(t: Targets): Result<Constants, SolveError> {
    var num, den, T, S, L := t.priceNum, t.priceDen, t.totalSupply, t.curveSupply, t.lpTranche;
    var F, R := t.graduationFee, t.callerReward;
    if S + L != T then Err(SupplyMismatch)
    else if F < 0 then Err(NegativeFee)
    else if den == 0 || num == 0 then Err(DivisionByZero)
    else
      var f := TruncDiv((F + R) * den, num);
      var denom := 2 * S - T - f;
      if denom <= 0 then Err(InfeasibleDenominator)
      else
        var vT0 := TruncDiv(S * S, denom);
        var vE0 := TruncDiv(num * (vT0 - T - f), den);
        if vE0 <= 0 then Err(NegativeVirtualEth)
        else if vT0 == S then Err(DivisionByZero)
        else
          var k := vE0 * vT0;
          var G := TruncDiv(k, vT0 - S) - vE0;
          if G <= 0 then Err(NonPositiveThreshold)
          else if G - F - R <= 0 then Err(FeesExceedRaise)
          else Ok(Constants(vE0, vT0, k, G, F, R, G - F - R, f))
  }

  /** A positive price. */
  predicate WellPosed(t: Targets) {
    t.priceNum > 0 && t.priceDen > 0
  }

  /** The fees in tokens at the price. */
  function FeeTokens(t: Targets): int
    requires WellPosed(t)
  {
    TruncDiv((t.graduationFee + t.callerReward) * t.priceDen, t.priceNum)
  }

  /** L + f: the tranche and the fees, in tokens at the price. */
  function Root(t: Targets): int
    requires WellPosed(t)
  {
    t.lpTranche + FeeTokens(t)
  }

  /** Tokens left on the curve side once the whole curve supply is sold. */
  function TerminalTokens(t: Targets, c: Constants): int { c.virtualToken - t.curveSupply }

  /** How far the terminal price falls below num/den, cross-multiplied. */
  function PriceDeficit(t: Targets, c: Constants): int {
    t.priceNum * TerminalTokens(t, c) - (c.virtualEth + c.graduationEth) * t.priceDen
  }

  // ---- the closed forms -------------------------------------------------------------------

  lemma Distribute(d: int, v: int, w: int)
    ensures d * (v - w) == d * v - d * w
  {
  }

  lemma Associate(a: int, b: int, c: int)
    ensures a * (b * c) == a * b * c
  {
  }

  lemma Difference(S: int, u: int)
    ensures (S - u) * (S + u) == S * S - u * u
  {
  }

  lemma Expand(S: int, u: int, d: int, v: int)
    requires d == S - u
    ensures (v - S - u) * v == (v - S) * (v - S) - (S * S - d * v)
  {
    assert (v - S - u) * v == v * v - S * v - u * v;
    assert (v - S) * (v - S) == v * v - 2 * (S * v) + S * S;
    assert d * v == S * v - u * v;
  }

  /** With d = S - u and v = floor(S^2/d): (v - S - u)*v = (v - S)^2 - S^2 mod d, and v - S - u = floor(u^2/d). */
  lemma KeyIdentity(S: int, u: int, d: int, v: int)
    requires d > 0 && d == S - u && v == S * S / d
    ensures (v - S - u) * v == (v - S) * (v - S) - S * S % d
    ensures v - S - u == u * u / d
  {
    FloorBounds(S * S, d);
    var m := S * S % d;
    assert S * S == d * v + m;
    Expand(S, u, d, v);
    // u^2 = S^2 - d*(S + u) = d*(v - S - u) + m
    Difference(S, u);
    assert u * u == d * (v - S - u) + m by { Distribute(d, v, S + u); }
    FloorIs(u * u, d, v - S - u);
  }

  /** With u = L + f at least 1 the virtual token reserve exceeds the curve supply. */
  lemma ReserveExceedsSupply(S: int, u: int, d: int, v: int)
    requires d > 0 && u >= 1 && d == S - u && v == S * S / d
    ensures v > S
  {
    Difference(S, u);
    MulMono(u, 1, u);
    Distribute(S + 1, S, u);
    assert d * (S + 1) <= S * S by {
      assert d * (S + 1) == S * S + S - u * S - u;
      MulMono(S, 1, u);
    }
    FloorAtLeast(S * S, d, S + 1);
  }

  /** The closed forms behind every accepted input. */
  ghost predicate Solved(t: Targets, c: Constants)
    requires WellPosed(t)
  {
    var S, u := t.curveSupply, t.lpTranche + c.feeTokens;
    var d, X := S - u, TerminalTokens(t, c);
    && S + t.lpTranche == t.totalSupply
    && c.feeTokens == FeeTokens(t)
    && u > 0 && d > 0
    && c.virtualToken == S * S / d
    && c.virtualEth == t.priceNum * (u * u / d) / t.priceDen
    && c.virtualEth > 0 && c.graduationEth > 0 && c.ethToLp > 0 && X > 0
    && c.virtualEth + c.graduationEth == c.k / X
    && c.k == c.virtualEth * c.virtualToken
    && c.ethToLp == c.graduationEth - t.graduationFee - t.callerReward
    && c.graduationFee == t.graduationFee && c.callerReward == t.callerReward
  }

  lemma TruncIsFloor(a: int, b: int)
    requires a >= 0 && b > 0
    ensures TruncDiv(a, b) == a / b && a / b >= 0
  {
    FloorAtLeast(a, b, 0);
  }

  /** With a negative root and a supply that is not zero, no threshold above zero is left. */
  lemma NoThreshold(S: int, u: int, d: int, v: int, e: int)
    requires d > 0 && u < 0 && d == S - u && v == S * S / d && e > 0 && S != 0
    ensures v >= 0 && v != S && TruncDiv(e * v, v - S) <= e
  {
    SquareNonNegative(S);
    FloorAtLeast(S * S, d, 0);
    MulMono(e, 0, v);
    if S > 0 {
      MulMonoStrict(S, S, d);
      FloorBelow(S * S, d, S);
      FloorAtLeast(e * v, S - v, 0);
    } else {
      MulMono(e, v, v - S);
      Commute(e, v - S);
      FloorBelow(e * v, v - S, e + 1);
    }
  }

  /** With e the virtual ETH reserve: the token reserve meets the supply only when nothing is sold, and a
      threshold above zero needs a positive root. */
  lemma RootSign(S: int, u: int, d: int, v: int, e: int)
    requires d > 0 && d == S - u && v == S * S / d && e > 0 && u != 0
    ensures v == S <==> S == 0
    ensures u > 0 ==> v > S && e * v >= 0
    ensures u < 0 && S != 0 ==> TruncDiv(e * v, v - S) <= e
  {
    if u < 0 && S != 0 {
      NoThreshold(S, u, d, v, e);
    } else if u > 0 {
      ReserveExceedsSupply(S, u, d, v);
      MulMono(e, 0, v);
    }
  }

  /** The virtual ETH reserve is p * u^2/d, rounded down twice; with nothing to sell it is p * -u. */
  lemma VirtualEth(num: int, den: int, S: int, u: int, d: int, v: int)
    requires num > 0 && den > 0 && d > 0 && d == S - u && v == S * S / d
    ensures TruncDiv(S * S, d) == v
    ensures v - S - u == u * u / d
    ensures TruncDiv(num * (v - S - u), den) == num * (u * u / d) / den
    ensures num * (u * u / d) / den > 0 ==> u != 0
    ensures S == 0 ==> (num * (u * u / d) / den > 0 <==> num * -u >= den)
  {
    var w := u * u / d;
    SquareNonNegative(S);
    SquareNonNegative(u);
    TruncIsFloor(S * S, d);
    KeyIdentity(S, u, d, v);
    FloorAtLeast(u * u, d, 0);
    MulMono(num, 0, w);
    TruncIsFloor(num * w, den);
    if S == 0 {
      FloorIs(u * u, -u, -u);
      if num * -u >= den { FloorAtLeast(num * w, den, 1); } else { FloorBelow(num * w, den, 1); }
    }
  }

  /** Past the feasibility check: what the rest of the solver makes of the root. */
  lemma SolveFrom(t: Targets, u: int, d: int, v: int)
    requires WellPosed(t) && t.curveSupply + t.lpTranche == t.totalSupply && t.graduationFee >= 0
    requires u == Root(t) && d == t.curveSupply - u && d > 0 && v == t.curveSupply * t.curveSupply / d
    ensures Solve(t) == Err(DivisionByZero) <==> t.curveSupply == 0 && t.priceNum * -u >= t.priceDen
    ensures Solve(t).Ok? ==> Solved(t, Solve(t).value)
  {
    var num, den, S := t.priceNum, t.priceDen, t.curveSupply;
    VirtualEth(num, den, S, u, d, v);
    var e := num * (u * u / d) / den;
    if e > 0 {
      RootSign(S, u, d, v, e);
      if u > 0 { TruncIsFloor(e * v, v - S); }
    }
  }

  /** Every accepted input has the closed forms. The solver divides by zero exactly when there is nothing to
      sell and a negative tranche outweighs the fees; with a tranche and total fees that are not negative it
      never does. */
  lemma SolveMeaning(t: Targets)
    requires WellPosed(t)
    ensures Solve(t).Ok? ==> Solved(t, Solve(t).value)
    ensures Solve(t) == Err(DivisionByZero) <==>
      t.curveSupply == 0 && t.lpTranche == t.totalSupply && t.graduationFee >= 0 && t.priceNum * -Root(t) >= t.priceDen
    ensures t.lpTranche >= 0 && t.graduationFee + t.callerReward >= 0 ==> Solve(t) != Err(DivisionByZero)
  {
    var num, S := t.priceNum, t.curveSupply;
    var u := Root(t);
    var d := S - u;
    if u >= 0 { MulMono(num, -u, 0); } else { MulMono(num, 1, -u); }
    if t.graduationFee + t.callerReward >= 0 {
      MulMono(t.priceDen, 0, t.graduationFee + t.callerReward);
      TruncIsFloor((t.graduationFee + t.callerReward) * t.priceDen, num);
    }
    if S + t.lpTranche == t.totalSupply && t.graduationFee >= 0 && d > 0 {
      SolveFrom(t, u, d, S * S / d);
    }
  }

  lemma TruncQuotient(a: int, b: int, q: int)
    requires a >= 0 && b > 0 && b * q <= a < b * q + b
    ensures TruncDiv(a, b) == q
  {
    FloorIs(a, b, q);
  }

  /** The solver's four quotients, checked by multiplication. */
  lemma SolveByQuotients(t: Targets, f: int, v: int, e: int, q: int)
    requires WellPosed(t) && t.curveSupply + t.lpTranche == t.totalSupply
    requires t.graduationFee >= 0 && t.graduationFee + t.callerReward >= 0 && t.curveSupply >= 0
    requires t.priceNum * f <= (t.graduationFee + t.callerReward) * t.priceDen < t.priceNum * f + t.priceNum
    requires var d := 2 * t.curveSupply - t.totalSupply - f;
      d > 0 && d * v <= t.curveSupply * t.curveSupply < d * v + d
    requires t.priceDen * e <= t.priceNum * (v - t.totalSupply - f) < t.priceDen * e + t.priceDen
    requires v > t.curveSupply && e > 0
    requires (v - t.curveSupply) * q <= e * v < (v - t.curveSupply) * q + (v - t.curveSupply)
    requires q - e > 0 && q - e - t.graduationFee - t.callerReward > 0
    ensures Solve(t) == Ok(Constants(e, v, e * v, q - e, t.graduationFee, t.callerReward,
      q - e - t.graduationFee - t.callerReward, f))
  {
    var F, R, S, T := t.graduationFee, t.callerReward, t.curveSupply, t.totalSupply;
    MulMono(t.priceDen, 0, F + R);
    TruncQuotient((F + R) * t.priceDen, t.priceNum, f);
    SquareNonNegative(S);
    TruncQuotient(S * S, 2 * S - T - f, v);
    MulMono(t.priceDen, 1, e);
    TruncQuotient(t.priceNum * (v - T - f), t.priceDen, e);
    MulMono(e, 0, v);
    TruncQuotient(e * v, v - S, q);
  }

  // ---- the terminal price -----------------------------------------------------------------

  lemma Scale(den: nat, a: nat, ev: nat, v: nat, e: nat, num: nat, w: nat, wv: nat)
    requires ev == e * v && wv == w * v
    requires den * e <= num * w && a <= ev
    ensures den * a <= num * wv
  {
    MulMono(den, a, ev);
    MulMono(v, den * e, num * w);
    assert den * (e * v) == den * e * v;
    assert num * w * v == num * (w * v);
  }

  lemma SandwichUp(num: nat, den: nat, w: nat, v: nat, X: nat, m: nat, e: nat, q: nat)
    requires X > 0
    requires w * v == X * X - m
    requires den * e <= num * w && X * q <= e * v
    ensures q * den <= num * X
  {
    Scale(den, X * q, e * v, v, e, num, w, X * X - m);
    MulMono(num, X * X - m, X * X);
    assert den * (X * q) == X * (q * den);
    assert num * (X * X) == X * (num * X);
    MulCancel(X, q * den, num * X);
  }

  lemma ScaleDown(num: nat, den: nat, w: nat, v: nat, e: nat)
    requires num * w <= den * e + (den - 1)
    ensures num * (w * v) <= den * (e * v) + (den - 1) * v
  {
    MulMono(v, num * w, den * e + (den - 1));
    assert num * (w * v) == num * w * v;
    assert (den * e + (den - 1)) * v == den * e * v + (den - 1) * v;
    assert den * e * v == den * (e * v);
  }

  lemma ScaleUp(den: nat, ev: nat, X: nat, q: nat)
    requires ev <= X * q + (X - 1)
    ensures den * ev <= q * den * X + (X - 1) * den
  {
    MulMono(den, ev, X * q + (X - 1));
    assert den * (X * q + (X - 1)) == den * (X * q) + (X - 1) * den;
    assert den * (X * q) == q * den * X;
  }

  lemma SandwichDown(num: nat, den: nat, w: nat, v: nat, X: nat, m: nat, e: nat, q: nat)
    requires w * v == X * X - m
    requires num * w <= den * e + (den - 1) && e * v <= X * q + (X - 1)
    ensures (num * X - q * den) * X <= num * m + (den - 1) * v + (X - 1) * den
  {
    ScaleDown(num, den, w, v, e);
    ScaleUp(den, e * v, X, q);
    assert num * (w * v) == num * X * X - num * m by {
      Distribute(num, X * X, m);
      Associate(num, X, X);
    }
    assert (num * X - q * den) * X == num * X * X - q * den * X by { Distribute(X, num * X, q * den); }
  }

  /** e = floor(num*w/den) and q = floor(e*v/X) with w*v = X^2 - m price the end below num/den,
      short by at most num*m + (den-1)*v + (X-1)*den over X. */
  lemma TerminalSandwich(num: nat, den: nat, w: nat, v: nat, X: nat, m: nat, e: nat, q: nat)
    requires den > 0 && X > 0
    requires w * v == X * X - m
    requires e == num * w / den && q == e * v / X
    ensures q * den <= num * X
    ensures (num * X - q * den) * X <= num * m + (den - 1) * v + (X - 1) * den
  {
    FloorBounds(num * w, den);
    FloorBounds(e * v, X);
    SandwichUp(num, den, w, v, X, m, e, q);
    SandwichDown(num, den, w, v, X, m, e, q);
  }

  /** The terminal spot price never exceeds the graduation price, and misses it only by rounding. */
  lemma TerminalPrice(t: Targets, c: Constants)
    requires WellPosed(t) && Solved(t, c)
    ensures var X := TerminalTokens(t, c);
      && PriceDeficit(t, c) >= 0
      && PriceDeficit(t, c) * X <=
        t.priceNum * (t.curveSupply * t.curveSupply % (t.curveSupply - t.lpTranche - c.feeTokens))
        + (t.priceDen - 1) * c.virtualToken + (X - 1) * t.priceDen
  {
    var S, u := t.curveSupply, t.lpTranche + c.feeTokens;
    var d := S - u;
    KeyIdentity(S, u, d, c.virtualToken);
    SquareNonNegative(u);
    FloorAtLeast(u * u, d, 0);
    TerminalSandwich(t.priceNum, t.priceDen, u * u / d, c.virtualToken, TerminalTokens(t, c), S * S % d,
      c.virtualEth, c.virtualEth + c.graduationEth);
  }

  lemma ThresholdAlgebra(num: nat, den: nat, L: int, f: int, fees: nat, X: int, w: int, e: int, G: int, pL: int, deficit: int)
    requires num > 0 && den > 0 && X - w == L + f && deficit >= 0
    requires deficit == num * X - (e + G) * den
    requires den * e <= num * w < den * e + den
    requires den * pL <= num * L < den * pL + den
    requires num * f <= fees * den < num * f + num
    ensures G <= pL + fees + 1
    ensures (pL + fees - G) * den < num + deficit
  {
    assert num * X - num * w == num * L + num * f by {
      Distribute(num, X, w);
      assert num * (L + f) == num * L + num * f;
    }
    assert (e + G) * den == den * e + G * den;
    assert (pL + fees - G) * den == den * pL + fees * den - G * den;
    assert G * den < den * pL + fees * den + 2 * den;
    assert den * (pL + fees + 2) == den * pL + fees * den + 2 * den;
    MulCancelStrict(den, G, pL + fees + 2);
  }

  /** The threshold is at most one wei above p*L + F + R, and below it only by the price deficit. */
  lemma ThresholdNearTarget(t: Targets, c: Constants)
    requires WellPosed(t) && Solved(t, c) && t.graduationFee + t.callerReward >= 0
    ensures var target := t.priceNum * t.lpTranche / t.priceDen + t.graduationFee + t.callerReward;
      && c.graduationEth <= target + 1
      && (target - c.graduationEth) * t.priceDen < t.priceNum + PriceDeficit(t, c)
  {
    var num, den, fees := t.priceNum, t.priceDen, t.graduationFee + t.callerReward;
    var u := t.lpTranche + c.feeTokens;
    var d, X, w := t.curveSupply - u, TerminalTokens(t, c), u * u / (t.curveSupply - u);
    TerminalPrice(t, c);
    KeyIdentity(t.curveSupply, u, d, c.virtualToken);
    FloorBounds(num * w, den);
    FloorBounds(num * t.lpTranche, den);
    MulMono(den, 0, fees);
    TruncIsFloor(fees * den, num);
    FloorBounds(fees * den, num);
    ThresholdAlgebra(num, den, t.lpTranche, c.feeTokens, fees, X, w, c.virtualEth, c.graduationEth,
      num * t.lpTranche / den, PriceDeficit(t, c));
  }
}
