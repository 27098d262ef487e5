/** Uniswap V3 tick maths: ratio at a tick, its inverse, and usable-tick rounding. */
module TickMath {
  import opened Numeric
  import opened BitTable
  import opened TickSearch

  const MIN_SQRT_RATIO: nat := 4295128739
  const MAX_SQRT_RATIO: nat := 1461446703485210103287273052203988822378723970342
  const Q32: nat := 0x1_0000_0000
  const Q128: nat := 0x1_0000_0000_0000_0000_0000_0000_0000_0000
  const MAX_UINT256: nat := 0xffffffffffffffffffffffffffffffffffffffffffffffffffffffffffffffff

  /** Row i multiplies by 1.0001^(-2^i / 2) in Q128. */
  const TICK_TABLE: Table := Table(Q128, [
    0xfffcb933bd6fad37aa2d162d1a594001,
    0xfff97272373d413259a46990580e213a,
    0xfff2e50f5f656932ef12357cf3c7fdcc,
    0xffe5caca7e10e4e61c3624eaa0941cd0,
    0xffcb9843d60f6159c9db58835c926644,
    0xff973b41fa98c081472e6896dfb254c0,
    0xff2ea16466c96a3843ec78b326b52861,
    0xfe5dee046a99a2a811c461f1969c3053,
    0xfcbe86c7900a88aedcffc83b479aa3a4,
    0xf987a7253ac413176f2b074cf7815e54,
    0xf3392b0822b70005940c7a398e4b70f3,
    0xe7159475a2c29b7443b29c7fa6e889d9,
    0xd097f3bdfd2022b8845ad8f792aa5825,
    0xa9f746462d870fdf8a65dc1f90e061e5,
    0x70d869a156d2a1b890bb3df62baf32f7,
    0x31be135f97d08fd981231505542fcfa6,
    0x9aa508b5b7a84e1c677de54f3e99bc9,
    0x5d6af8dedb81196699c329225ee604,
    0x2216e584f5fa1ea926041bedfe98,
    0x48a170391f7dc42444e8fa2])

  /** The Q128 ratio of a negative tick -a. */
  function RawRatio(a: nat): nat {
    Fold(TICK_TABLE, a, 20)
  }

  /** Inverts the Q128 ratio for positive ticks. */
  function Signed(tick: int, ratio: nat): nat
    requires ratio > 0
  {
    if tick > 0 then MAX_UINT256 / ratio else ratio
  }

  /** Q128.128 to Q64.96, rounding up. */
  function ToX96(ratio: nat): nat {
    ratio / Q32 + if ratio % Q32 == 0 then 0 else 1
  }

  // ---- the table holds powers -------------------------------------------------------------

  /** The folds of 0, 1, 2, ... set bits. */
  const TICK_ONES: seq<nat> := [
    Q128,
    0xfffcb933bd6fad37aa2d162d1a594001,
    0xfff62bbb6d458ec3c792106391dc463e,
    0xffe9114b9cf28d394c3203dbd44eb085,
    0xffcede6f1d8be90b88f350424e84e5b7,
    0xff9a80c1ada7480b1daa871d7c4d9b36,
    0xff31e58d5a53c84fc142023ec1b1dfd7,
    0xfe612f8183b1ea21b72fb71b03542ae4,
    0xfcc1c2f380536bc67ee1ff564d1080b2,
    0xf98ad8c8d7ecc0a3f8a42c9724cffb6a,
    0xf33c480189b415235ad119427d89a1f6,
    0xe71889a85903fd03cb7cc40bdf371a9c,
    0xd09a9f3e93db5812d4820c2fc67a3e3a,
    0xa9f973345b9e647c4163af91d00b255f,
    0x70d9db6485f04ddd567e07c7b89f8e7c,
    0x31beb65d91af63ae717a760be3b374dc,
    0x9aa7036fd2355429c4030b032e1cf71,
    0x5d6c2af97aaa8de0e5a6bf23f5e547,
    0x221755388a6658e120f4a3c503cf,
    0x48a25e36942a4fc0c1f899f,
    0x149b7873d84d48]

  /** Adjacent powers differ by more than one part in GAP. */
  const GAP: nat := 20001

  /** The least fold of the table, every bit set. */
  const LEAST_RAW: nat := 0x149b7873d84d48

  lemma TableRow(i: nat)
    requires i < |TICK_TABLE.muls|
    ensures PowerRow(TICK_TABLE, TICK_ONES, GAP, i)
  {
    assert i == 0 ==> PowerRow(TICK_TABLE, TICK_ONES, GAP, 0);
    assert i == 1 ==> PowerRow(TICK_TABLE, TICK_ONES, GAP, 1);
    assert i == 2 ==> PowerRow(TICK_TABLE, TICK_ONES, GAP, 2);
    assert i == 3 ==> PowerRow(TICK_TABLE, TICK_ONES, GAP, 3);
    assert i == 4 ==> PowerRow(TICK_TABLE, TICK_ONES, GAP, 4);
    assert i == 5 ==> PowerRow(TICK_TABLE, TICK_ONES, GAP, 5);
    assert i == 6 ==> PowerRow(TICK_TABLE, TICK_ONES, GAP, 6);
    assert i == 7 ==> PowerRow(TICK_TABLE, TICK_ONES, GAP, 7);
    assert i == 8 ==> PowerRow(TICK_TABLE, TICK_ONES, GAP, 8);
    assert i == 9 ==> PowerRow(TICK_TABLE, TICK_ONES, GAP, 9);
    assert i == 10 ==> PowerRow(TICK_TABLE, TICK_ONES, GAP, 10);
    assert i == 11 ==> PowerRow(TICK_TABLE, TICK_ONES, GAP, 11);
    assert i == 12 ==> PowerRow(TICK_TABLE, TICK_ONES, GAP, 12);
    assert i == 13 ==> PowerRow(TICK_TABLE, TICK_ONES, GAP, 13);
    assert i == 14 ==> PowerRow(TICK_TABLE, TICK_ONES, GAP, 14);
    assert i == 15 ==> PowerRow(TICK_TABLE, TICK_ONES, GAP, 15);
    assert i == 16 ==> PowerRow(TICK_TABLE, TICK_ONES, GAP, 16);
    assert i == 17 ==> PowerRow(TICK_TABLE, TICK_ONES, GAP, 17);
    assert i == 18 ==> PowerRow(TICK_TABLE, TICK_ONES, GAP, 18);
    assert i == 19 ==> PowerRow(TICK_TABLE, TICK_ONES, GAP, 19);
  }

  lemma TableHoldsPowers()
    ensures PowerTable(TICK_TABLE, TICK_ONES, GAP)
  {
    forall i | 0 <= i < |TICK_TABLE.muls| ensures PowerRow(TICK_TABLE, TICK_ONES, GAP, i) { TableRow(i); }
  }

  lemma RawRatioBounds(a: nat)
    ensures LEAST_RAW <= RawRatio(a) <= Q128
  {
    TableHoldsPowers();
    FoldBounds(TICK_TABLE, TICK_ONES, GAP, a, 20);
  }

  /** sqrt(1.0001^tick) * 2^96 as the integer code defines it. */
  function SqrtRatio(tick: int): nat
    requires MIN_TICK <= tick <= MAX_TICK
  {
    RawRatioBounds(Abs(tick));
    ToX96(Signed(tick, RawRatio(Abs(tick))))
  }

  // ---- order of the ratios ----------------------------------------------------------------

  lemma TwentyBits()
    ensures Pow2(20) == 0x100000
  {
    assert Pow2(8) == 0x100;
    assert Pow2(16) == 0x10000;
  }

  /** The Q128 ratio falls by more than 2^32 from one absolute tick to the next. */
  lemma RawRatioFalls(a: nat)
    requires a < MAX_TICK
    ensures RawRatio(a) > RawRatio(a + 1) + Q32
  {
    TwentyBits();
    TableHoldsPowers();
    FoldFalls(TICK_TABLE, TICK_ONES, GAP, a);
    RawRatioBounds(a + 1);
  }

  // ---- the ratio at a tick ----------------------------------------------------------------

  lemma FloorMonoDivisor(v: nat, a: nat, m: nat)
    requires 0 < a <= m
    ensures v / a >= v / m
  {
    FloorBounds(v, m);
    MulMono(v / m, a, m);
    FloorAtLeast(v, a, v / m);
  }

  lemma InvertFalls(a: nat, b: nat)
    requires 0 < b <= a - Q32 && a <= Q128
    ensures MAX_UINT256 / b >= MAX_UINT256 / a + Q32
  {
    var x := MAX_UINT256 / a;
    FloorBounds(MAX_UINT256, a);
    FloorMonoDivisor(MAX_UINT256, a, Q128);
    assert x >= b;
    assert b * (x + Q32) <= a * x by {
      assert b * (x + Q32) == b * x + b * Q32;
      assert a * x == b * x + (a - b) * x;
      MulMono(Q32, b, x);
      MulMono(x, Q32, a - b);
    }
    FloorAtLeast(MAX_UINT256, b, x + Q32);
  }

  lemma ToX96Rises(r: nat, s: nat)
    requires r + Q32 <= s
    ensures ToX96(r) < ToX96(s)
  {
  }

  lemma SignedRises(t: int, a: nat, b: nat)
    requires Q32 < a <= Q128 && 0 < b < a - Q32
    ensures t < 0 ==> ToX96(Signed(t, b)) < ToX96(Signed(t + 1, a))
    ensures t > 0 ==> ToX96(Signed(t, a)) < ToX96(Signed(t + 1, b))
    ensures a == Q128 ==> ToX96(Q128) < ToX96(MAX_UINT256 / b)
  {
    if t < 0 { ToX96Rises(b, a); }
    InvertFalls(a, b);
    ToX96Rises(MAX_UINT256 / a, MAX_UINT256 / b);
    assert ToX96(MAX_UINT256 / Q128) == ToX96(Q128);
  }

  /** What the rise of the final ratio needs of the raw one. */
  ghost predicate FallingRaw(raw: nat -> nat) {
    && raw(0) == Q128
    && (forall a: nat :: 0 < raw(a) <= Q128)
    && (forall a: nat :: a < MAX_TICK ==> raw(a) > raw(a + 1) + Q32)
  }

  lemma SignedRatioRises(raw: nat -> nat, t: int)
    requires FallingRaw(raw) && MIN_TICK <= t < MAX_TICK
    ensures ToX96(Signed(t, raw(Abs(t)))) < ToX96(Signed(t + 1, raw(Abs(t + 1))))
  {
    var a := if t < 0 then -t - 1 else t;
    assert raw(a) > raw(a + 1) + Q32;
    SignedRises(t, raw(a), raw(a + 1));
  }

  lemma {:induction false} ZeroFold(n: nat)
    requires n <= 20
    ensures Shifted(0, n) == 0 && Fold(TICK_TABLE, 0, n) == Q128
  {
    if n == 0 {
    } else {
      ZeroFold(n - 1);
    }
  }

  lemma UnitRatio()
    ensures RawRatio(0) == Q128 && SqrtRatio(0) == 0x1_0000_0000_0000_0000_0000_0000
  {
    ZeroFold(20);
  }

  lemma RawRatioFalling()
    ensures FallingRaw(RawRatio)
  {
    UnitRatio();
    forall a: nat ensures 0 < RawRatio(a) <= Q128 { RawRatioBounds(a); }
    forall a: nat | a < MAX_TICK ensures RawRatio(a) > RawRatio(a + 1) + Q32 { RawRatioFalls(a); }
  }

  /** The ratio is strictly increasing over the whole tick range. */
  lemma {:induction false} RatioStrictlyIncreasing(t: int, u: int)
    requires MIN_TICK <= t < u <= MAX_TICK
    ensures SqrtRatio(t) < SqrtRatio(u)
    decreases u - t
  {
    RawRatioFalling();
    SignedRatioRises(RawRatio, t);
    if t + 1 < u { RatioStrictlyIncreasing(t + 1, u); }
  }

  lemma FoldMaxLow()
    ensures Shifted(887272, 7) == 6931 && Fold(TICK_TABLE, 887272, 8) == 0xfd0c3654da9e033741d1a9f93707f6f6
  {
    assert Shifted(887272, 0) == 887272;
    assert Fold(TICK_TABLE, 887272, 1) == Q128;
    assert Shifted(887272, 1) == 443636;
    assert Fold(TICK_TABLE, 887272, 2) == Q128;
    assert Shifted(887272, 2) == 221818;
    assert Fold(TICK_TABLE, 887272, 3) == Q128;
    assert Shifted(887272, 3) == 110909;
    assert Fold(TICK_TABLE, 887272, 4) == 0xffe5caca7e10e4e61c3624eaa0941cd0;
    assert Shifted(887272, 4) == 55454;
    assert Fold(TICK_TABLE, 887272, 5) == 0xffe5caca7e10e4e61c3624eaa0941cd0;
    assert Shifted(887272, 5) == 27727;
    assert Fold(TICK_TABLE, 887272, 6) == 0xff7d10c63a977157da4140deb6f31a7b;
    assert Shifted(887272, 6) == 13863;
    assert Fold(TICK_TABLE, 887272, 7) == 0xfeac1d4052f7714818b490c1138ea058;
    assert Shifted(887272, 7) == 6931;
    assert Fold(TICK_TABLE, 887272, 8) == 0xfd0c3654da9e033741d1a9f93707f6f6;
  }

  lemma FoldMaxMiddle()
    ensures Shifted(887272, 14) == 54 && Fold(TICK_TABLE, 887272, 15) == 0xe183ac4e25d5949966242a64e9c80e2f
  {
    FoldMaxLow();
    assert Shifted(887272, 8) == 3465;
    assert Fold(TICK_TABLE, 887272, 9) == 0xf9d459c5817dbafa9e376ae84dcfeb8b;
    assert Shifted(887272, 9) == 1732;
    assert Fold(TICK_TABLE, 887272, 10) == 0xf9d459c5817dbafa9e376ae84dcfeb8b;
    assert Shifted(887272, 10) == 866;
    assert Fold(TICK_TABLE, 887272, 11) == 0xf9d459c5817dbafa9e376ae84dcfeb8b;
    assert Shifted(887272, 11) == 433;
    assert Fold(TICK_TABLE, 887272, 12) == 0xe183ac4e25d5949966242a64e9c80e2f;
    assert Shifted(887272, 12) == 216;
    assert Fold(TICK_TABLE, 887272, 13) == 0xe183ac4e25d5949966242a64e9c80e2f;
    assert Shifted(887272, 13) == 108;
    assert Fold(TICK_TABLE, 887272, 14) == 0xe183ac4e25d5949966242a64e9c80e2f;
    assert Shifted(887272, 14) == 54;
    assert Fold(TICK_TABLE, 887272, 15) == 0xe183ac4e25d5949966242a64e9c80e2f;
  }

  lemma HighRows()
    ensures TICK_TABLE.muls[15] == 0x31be135f97d08fd981231505542fcfa6
    ensures TICK_TABLE.muls[16] == 0x9aa508b5b7a84e1c677de54f3e99bc9
  {
  }

  lemma FoldMaxHigh()
    ensures Shifted(887272, 17) == 6 && Fold(TICK_TABLE, 887272, 18) == 0x1a785cbbdc050483e3be5812760be73
  {
    HighRows();
    FoldMaxMiddle();
    assert Shifted(887272, 15) == 27;
    assert Fold(TICK_TABLE, 887272, 16) == 0x2bd1a4c5d2a1181aca1ef15e64c2e3cf;
    assert Shifted(887272, 16) == 13;
    assert Fold(TICK_TABLE, 887272, 17) == 0x1a785cbbdc050483e3be5812760be73;
    assert Shifted(887272, 17) == 6;
    assert Fold(TICK_TABLE, 887272, 18) == 0x1a785cbbdc050483e3be5812760be73;
  }

  lemma FoldMax()
    ensures RawRatio(887272) == 0x1000276a221a17501
  {
    FoldMaxHigh();
    assert Shifted(887272, 18) == 3;
    assert Fold(TICK_TABLE, 887272, 19) == 0x3865a6455d07d2bc87c5956d2e;
    assert Shifted(887272, 19) == 1;
    assert Fold(TICK_TABLE, 887272, 20) == 0x1000276a221a17501;
  }

  /** The range ends map to the published minimum and maximum. */
  lemma RangeEnds()
    ensures SqrtRatio(MIN_TICK) == MIN_SQRT_RATIO
    ensures SqrtRatio(MAX_TICK) == MAX_SQRT_RATIO
  {
    FoldMax();
  }

  /** The table loop over the absolute tick. */
  method RatioLoop(absTick: nat) returns (ratio: nat)
    ensures ratio == RawRatio(absTick)
  {
    ratio := if HasBit(absTick, 0) then TICK_TABLE.muls[0] else Q128;
    MulShiftUnit(TICK_TABLE.muls[0], Q128);
    assert ratio == Fold(TICK_TABLE, absTick, 1) by { assert Fold(TICK_TABLE, absTick, 0) == Q128; }
    for i := 1 to |TICK_TABLE.muls|
      invariant ratio == Fold(TICK_TABLE, absTick, i)
    {
      if HasBit(absTick, i) {
        ratio := ratio * TICK_TABLE.muls[i] / Q128;
      }
    }
  }

  method GetSqrtRatioAtTick(tick: int) returns (r: Result<nat, TickError>)
    ensures r == if MIN_TICK <= tick <= MAX_TICK then Ok(SqrtRatio(tick)) else Err(TickOutOfRange)
  {
    var absTick := if tick < 0 then -tick else tick;
    if absTick > MAX_TICK { return Err(TickOutOfRange); }
    var ratio := RatioLoop(absTick);
    RawRatioBounds(absTick);
    if tick > 0 {
      ratio := MAX_UINT256 / ratio;
    }
    return Ok(ToX96(ratio));
  }

  // ---- the inverse and the rounding -------------------------------------------------------

  /** The ratio as a total function of the tick, constant beyond the range. */
  const RATIO: Ratio := (t: int) => SqrtRatio(Clamp(t))

  lemma RatioIncreasing()
    ensures Increasing(RATIO)
  {
    RangeEnds();
    forall t, u | MIN_TICK <= t < u <= MAX_TICK ensures RATIO(t) < RATIO(u) {
      RatioStrictlyIncreasing(t, u);
    }
  }

  /** The accepted prices are exactly those that have a tick. */
  lemma AcceptedPrices(s: int)
    ensures MIN_SQRT_RATIO <= s < MAX_SQRT_RATIO <==> exists t :: IsTickOf(RATIO, s, t)
  {
    RatioIncreasing();
    RangeEnds();
    TickExists(RATIO, s);
  }

  /** The inverse search from any starting estimate. */
  method GetTickAtSqrtRatio(s: int, estimate: int) returns (r: Result<int, TickError>)
    ensures r == Err(PriceOutOfRange) <==> s < MIN_SQRT_RATIO || s >= MAX_SQRT_RATIO
    ensures r.Ok? ==> IsTickOf(RATIO, s, r.value)
    ensures forall t :: IsTickOf(RATIO, s, t) ==> r == SearchResult(t, estimate)
  {
    AcceptedPrices(s);
    if s < MIN_SQRT_RATIO || s >= MAX_SQRT_RATIO { return Err(PriceOutOfRange); }
    ghost var exact :| IsTickOf(RATIO, s, exact);
    RatioIncreasing();
    forall t | IsTickOf(RATIO, s, t) ensures t == exact { TickUnique(RATIO, s, t, exact); }
    r := Refine(RATIO, s, estimate, exact);
  }

  /** What the rounding answers for a price whose exact tick is t: the search's error or the rounded tick. */
  function RoundedResult(s: nat, t: int, estimate: int, spacing: nat): Result<int, TickError>
    requires spacing > 0
  {
    match SearchResult(t, estimate)
    case Err(e) => Err(e)
    case Ok(raw) => Ok(NearestUsable(RATIO, s, raw, spacing))
  }

  method NearestUsableTick(s: nat, spacing: nat, estimate: int) returns (r: Result<int, TickError>)
    requires spacing > 0
    ensures r == Err(PriceOutOfRange) <==> s < MIN_SQRT_RATIO || s >= MAX_SQRT_RATIO
    ensures forall t :: IsTickOf(RATIO, s, t) ==> r == RoundedResult(s, t, estimate, spacing)
    ensures r.Ok? ==> Usable(r.value, spacing)
    ensures r.Ok? ==> forall u :: Usable(u, spacing) ==> NoFarther(s, RATIO(r.value), RATIO(u))
  {
    var raw := GetTickAtSqrtRatio(s, estimate);
    if raw.Err? { return raw; }
    RatioIncreasing();
    NearestUsableIsNearest(RATIO, s, raw.value, spacing);
    return Ok(NearestUsable(RATIO, s, raw.value, spacing));
  }
}
