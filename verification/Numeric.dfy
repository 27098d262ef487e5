/** Integer division, rounding and order facts shared by the bigint models. */
module Numeric {

  datatype Option<+T> = None | Some(value: T)

  datatype Result<+T, +E> = Ok(value: T) | Err(error: E)

  const Q192: nat := 0x1_0000_0000_0000_0000_0000_0000_0000_0000_0000_0000_0000_0000

  function Min(a: int, b: int): int { if a < b then a else b }

  function Max(a: int, b: int): int { if a < b then b else a }

  function Abs(a: int): nat { if a < 0 then -a else a }

  /** Division of a bigint: truncates toward zero. */
  function TruncDiv(a: int, b: int): int
    requires b != 0
  {
    if a >= 0 then
      if b > 0 then a / b else -(a / -b)
    else
      if b > 0 then -(-a / b) else -a / -b
  }

  /** (a + b - 1) / b, the rounding-up division of the bigint helpers. */
  function CeilDiv(a: nat, b: nat): nat
    requires b > 0
  {
    (a + b - 1) / b
  }

  lemma FloorBounds(a: int, m: int)
    requires m > 0
    ensures m * (a / m) <= a < m * (a / m) + m
  {
  }

  lemma MulMono(m: int, a: int, b: int)
    requires m >= 0 && a <= b
    ensures m * a <= m * b && a * m <= b * m
  {
  }

  /** The quotient is the only integer q with m*q <= a < m*q + m. */
  lemma FloorIs(a: int, m: int, q: int)
    requires m > 0
    requires m * q <= a < m * q + m
    ensures a / m == q
  {
    FloorBounds(a, m);
    if a / m < q { MulMono(m, a / m + 1, q); }
    if q < a / m { MulMono(m, q + 1, a / m); }
  }

  /** CeilDiv is the least q with a <= b*q. */
  lemma CeilBounds(a: nat, b: nat)
    requires b > 0
    ensures a <= b * CeilDiv(a, b) < a + b
  {
    FloorBounds(a + b - 1, b);
  }

  lemma CeilAtMost(a: nat, b: nat, q: int)
    requires b > 0
    requires a <= b * q
    ensures CeilDiv(a, b) <= q
  {
    CeilBounds(a, b);
    if q < CeilDiv(a, b) { MulMono(b, q + 1, CeilDiv(a, b)); }
  }

  lemma CeilAtLeast(a: nat, b: nat, q: int)
    requires b > 0
    requires b * (q - 1) < a
    ensures CeilDiv(a, b) >= q
  {
    CeilBounds(a, b);
    if CeilDiv(a, b) < q { MulMono(b, CeilDiv(a, b), q - 1); }
  }

  lemma FloorAtLeast(a: int, m: int, q: int)
    requires m > 0
    requires m * q <= a
    ensures a / m >= q
  {
    FloorBounds(a, m);
    if a / m < q { MulMono(m, a / m + 1, q); }
  }

  lemma MulMonoStrict(m: int, a: int, b: int)
    requires m > 0 && a < b
    ensures m * a < m * b
  {
  }

  /** A common positive factor cancels from an inequality. */
  lemma MulCancel(m: int, a: int, b: int)
    requires m > 0
    requires m * a <= m * b
    ensures a <= b
  {
    if b < a { MulMonoStrict(m, b, a); }
  }

  lemma MulCancelStrict(m: int, a: int, b: int)
    requires m >= 0
    requires m * a < m * b
    ensures a < b
  {
    if b <= a { MulMono(m, b, a); }
  }

  lemma FloorMono(a: int, b: int, m: int)
    requires m > 0 && a <= b
    ensures a / m <= b / m
  {
    FloorBounds(a, m);
    FloorBounds(b, m);
    MulCancelStrict(m, a / m, b / m + 1);
  }

  lemma FloorBelow(a: int, m: int, q: int)
    requires m > 0
    requires a < m * q
    ensures a / m < q
  {
    FloorBounds(a, m);
    if a / m >= q { MulMono(m, q, a / m); }
  }

  lemma Commute(a: int, b: int)
    ensures a * b == b * a
  {
  }

  lemma SquareNonNegative(x: int)
    ensures x * x >= 0
  {
  }

  function Pow2(e: nat): (p: nat)
    ensures p > 0
  {
    if e == 0 then 1 else 2 * Pow2(e - 1)
  }
}
