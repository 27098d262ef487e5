/** Newton integer square root, and the sqrt price of a price ratio. */
module Isqrt {
  import opened Numeric

  datatype SqrtError = NegativeInput | DivisionByZero

  /** r is the floor of the square root of n. */
  predicate IsFloorSqrt(n: int, r: int) {
    r >= 0 && r * r <= n < (r + 1) * (r + 1)
  }

  lemma Squares(a: nat, b: nat)
    requires a <= b
    ensures a * a <= b * b
  {
    MulMono(a, a, b);
    MulMono(b, a, b);
  }

  lemma FloorSqrtUnique(n: int, r: int, q: int)
    requires IsFloorSqrt(n, r) && IsFloorSqrt(n, q)
    ensures r == q
  {
    if r < q { Squares(r + 1, q); }
    if q < r { Squares(q + 1, r); }
  }

  /** Length of the binary numeral of n. */
  function BitLength(n: nat): nat {
    if n < 2 then 1 else 1 + BitLength(n / 2)
  }

  lemma {:induction false} BelowPow2(n: nat)
    ensures n < Pow2(BitLength(n))
  {
    if n < 2 {
      assert Pow2(1) == 2 * Pow2(0);
    } else {
      BelowPow2(n / 2);
    }
  }

  lemma {:induction false} Pow2Square(h: nat, e: nat)
    requires e <= 2 * h
    ensures Pow2(e) <= Pow2(h) * Pow2(h)
  {
    if h == 0 {
    } else if e < 2 {
      Squares(1, Pow2(h));
      assert Pow2(h) == 2 * Pow2(h - 1);
      assert e == 1 ==> Pow2(1) == 2 * Pow2(0);
      MulMono(Pow2(h), 2, Pow2(h));
    } else {
      Pow2Square(h - 1, e - 2);
      assert Pow2(e) == 2 * Pow2(e - 1) == 4 * Pow2(e - 2);
      assert Pow2(h) * Pow2(h) == 4 * (Pow2(h - 1) * Pow2(h - 1));
    }
  }

  lemma {:induction false} FloorSqrtFrom(n: nat, from: nat) returns (r: nat)
    requires from * from <= n
    ensures IsFloorSqrt(n, r)
    decreases n - from
  {
    Squares(from, from);
    if n < (from + 1) * (from + 1) {
      r := from;
    } else {
      MulMono(from + 1, 1, from + 1);
      r := FloorSqrtFrom(n, from + 1);
    }
  }

  /** Half the bit length, rounded up, starts the iteration at or above the root. */
  lemma StartAbove(n: nat, r: nat)
    requires IsFloorSqrt(n, r)
    ensures r <= Pow2((BitLength(n) + 1) / 2)
  {
    BelowPow2(n);
    var x := Pow2((BitLength(n) + 1) / 2);
    Pow2Square((BitLength(n) + 1) / 2, BitLength(n));
    if x < r { Squares(x, r); }
  }

  lemma MeanInequality(x: nat, z: nat)
    ensures 4 * (x * z) <= (x + z) * (x + z)
  {
    SquareNonNegative(x - z);
    assert (x + z) * (x + z) == 4 * (x * z) + (x - z) * (x - z);
  }

  function NewtonStep(n: nat, x: nat): nat
    requires x > 0
  {
    (x + n / x) / 2
  }

  lemma DoubleSquare(y: nat)
    ensures 2 * y * (2 * y) == 4 * (y * y)
  {
  }

  lemma NewtonSquare(n: nat, x: nat)
    requires x > 0
    ensures var y := NewtonStep(n, x); n < (y + 1) * (y + 1)
  {
    var z := n / x + 1;
    var y := NewtonStep(n, x);
    FloorBounds(n, x);
    MeanInequality(x, z);
    Squares(x + z, 2 * (y + 1));
    DoubleSquare(y + 1);
  }

  /** A Newton step never falls below the root. */
  lemma NewtonAbove(n: nat, x: nat, r: nat)
    requires x > 0 && IsFloorSqrt(n, r)
    ensures NewtonStep(n, x) >= r
  {
    NewtonSquare(n, x);
    if NewtonStep(n, x) < r { Squares(NewtonStep(n, x) + 1, r); }
  }

  /** A step that does not fall has reached the root. */
  lemma NewtonStops(n: nat, x: nat, r: nat)
    requires x > 0 && IsFloorSqrt(n, r)
    requires NewtonStep(n, x) >= x
    ensures x <= r
  {
    FloorBounds(n, x);
    MulMono(x, x, n / x);
    if r < x { Squares(r + 1, x); }
  }

  /** The loop of the square root, from any start at or above the root. */
  method Newton(n: nat, start: nat, ghost r: nat) returns (x: nat)
    requires IsFloorSqrt(n, r) && 0 < r <= start
    ensures x == r
  {
    x := start;
    NewtonAbove(n, x, r);
    var y := NewtonStep(n, x);
    while y < x
      invariant r <= x && r <= y && y == NewtonStep(n, x)
      decreases x
    {
      x := y;
      NewtonAbove(n, x, r);
      y := NewtonStep(n, x);
    }
    NewtonStops(n, x, r);
  }

  method Isqrt(n: int) returns (r: Result<nat, SqrtError>)
    ensures r.Err? <==> n < 0
    ensures r.Err? ==> r.error == NegativeInput
    ensures r.Ok? ==> IsFloorSqrt(n, r.value)
  {
    if n < 0 { return Err(NegativeInput); }
    if n < 2 { return Ok(n); }
    ghost var root := FloorSqrtFrom(n, 0);
    StartAbove(n, root);
    var x := Newton(n, Pow2((BitLength(n) + 1) / 2), root);
    return Ok(x);
  }

  lemma SqrtOfQuotient(v: nat, den: nat, r: nat, p: nat)
    requires den > 0 && IsFloorSqrt(v / den, r)
    ensures p * p * den <= v <==> p <= r
  {
    FloorBounds(v, den);
    if p <= r {
      Squares(p, r);
      MulMono(den, p * p, v / den);
    } else {
      Squares(r + 1, p);
      MulMono(den, v / den + 1, p * p);
    }
  }

  /** floor(sqrt(num/den) * 2^96): the greatest p with p^2 * den <= num * 2^192. */
  method SqrtPriceX96FromPrice(num: nat, den: nat) returns (r: Result<nat, SqrtError>)
    ensures r.Err? <==> den == 0
    ensures r.Ok? ==> forall p: nat :: p * p * den <= num * Q192 <==> p <= r.value
  {
    if den == 0 { return Err(DivisionByZero); }
    r := Isqrt(num * Q192 / den);
    forall p: nat ensures p * p * den <= num * Q192 <==> p <= r.value {
      SqrtOfQuotient(num * Q192, den, r.value, p);
    }
  }
}
