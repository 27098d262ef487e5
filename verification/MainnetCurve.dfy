/** The emitted mainnet constants: where they come from, and what every run on them does. */
module MainnetCurve {
  import opened Numeric
  import opened BitTable
  import opened TickMath
  import opened CurveMath
  import opened CurveSolver
  import opened CurveSim

  const TARGET_TICK: int := -174000
  const TARGET_SQRT_PRICE: nat := 13204029826666559621110533

  /** The graduation price is the square of the target tick's ratio over 2^192. */
  const TARGETS: Targets := Targets(TARGET_SQRT_PRICE * TARGET_SQRT_PRICE, Q192,
    1_000_000_000_000_000_000_000_000_000, 793_100_000_000_000_000_000_000_000, 206_900_000_000_000_000_000_000_000,
    225_000_000_000_000, 2_824_000_000_000_000)

  const VIRTUAL_ETH: nat := 2030818236177600249
  const VIRTUAL_TOKEN: nat := 1073226583912778964568548738
  const GRADUATION_ETH: nat := 5749693301560943464

  lemma TargetFoldFirst()
    ensures Shifted(174000, 6) == 2718 && Fold(TICK_TABLE, 174000, 7) == 0xff62e8f83b6b5488479b861d6336ad93
  {
    assert Shifted(174000, 0) == 174000;
    assert Fold(TICK_TABLE, 174000, 1) == Q128;
    assert Shifted(174000, 1) == 87000;
    assert Fold(TICK_TABLE, 174000, 2) == Q128;
    assert Shifted(174000, 2) == 43500;
    assert Fold(TICK_TABLE, 174000, 3) == Q128;
    assert Shifted(174000, 3) == 21750;
    assert Fold(TICK_TABLE, 174000, 4) == Q128;
    assert Shifted(174000, 4) == 10875;
    assert Fold(TICK_TABLE, 174000, 5) == 0xffcb9843d60f6159c9db58835c926644;
    assert Shifted(174000, 5) == 5437;
    assert Fold(TICK_TABLE, 174000, 6) == 0xff62e8f83b6b5488479b861d6336ad93;
    assert Shifted(174000, 6) == 2718;
    assert Fold(TICK_TABLE, 174000, 7) == 0xff62e8f83b6b5488479b861d6336ad93;
  }

  lemma TargetFoldLow()
    ensures Shifted(174000, 11) == 84 && Fold(TICK_TABLE, 174000, 12) == 0xe802ac18d33909abf95ff8e016b28ea6
  {
    TargetFoldFirst();
    assert Shifted(174000, 7) == 1359;
    assert Fold(TICK_TABLE, 174000, 8) == 0xfdc1d787499cb7d3e9d7bed3c9e461fc;
    assert Shifted(174000, 8) == 679;
    assert Fold(TICK_TABLE, 174000, 9) == 0xfa87aba06a25bc421e854477a29048a9;
    assert Shifted(174000, 9) == 339;
    assert Fold(TICK_TABLE, 174000, 10) == 0xf432b70d78eac0e14b672385af306b9c;
    assert Shifted(174000, 10) == 169;
    assert Fold(TICK_TABLE, 174000, 11) == 0xe802ac18d33909abf95ff8e016b28ea6;
    assert Shifted(174000, 11) == 84;
    assert Fold(TICK_TABLE, 174000, 12) == 0xe802ac18d33909abf95ff8e016b28ea6;
  }

  lemma TargetFold()
    ensures RawRatio(174000) == 0xaec0fe4247cf3b4bd1b04ce3dcac3
  {
    TargetFoldLow();
    assert Shifted(174000, 12) == 42;
    assert Fold(TICK_TABLE, 174000, 13) == 0xe802ac18d33909abf95ff8e016b28ea6;
    assert Shifted(174000, 13) == 21;
    assert Fold(TICK_TABLE, 174000, 14) == 0x9a09dde0c4712c0214db2b35577117cf;
    assert Shifted(174000, 14) == 10;
    assert Fold(TICK_TABLE, 174000, 15) == 0x9a09dde0c4712c0214db2b35577117cf;
    assert Shifted(174000, 15) == 5;
    assert Fold(TICK_TABLE, 174000, 16) == 0x1dee4272f2e5cada994cfd399d23e377;
    assert Shifted(174000, 16) == 2;
    assert Fold(TICK_TABLE, 174000, 17) == 0x1dee4272f2e5cada994cfd399d23e377;
    assert Shifted(174000, 17) == 1;
    assert Fold(TICK_TABLE, 174000, 18) == 0xaec0fe4247cf3b4bd1b04ce3dcac3;
    assert Shifted(174000, 18) == 0;
    assert Fold(TICK_TABLE, 174000, 19) == 0xaec0fe4247cf3b4bd1b04ce3dcac3;
    assert Shifted(174000, 19) == 0;
    assert Fold(TICK_TABLE, 174000, 20) == 0xaec0fe4247cf3b4bd1b04ce3dcac3;
  }

  /** The tick the graduation price was aligned to has exactly the price used. */
  lemma TargetTickRatio()
    ensures SqrtRatio(TARGET_TICK) == TARGET_SQRT_PRICE
  {
    TargetFold();
  }

  const FEE_TOKENS: nat := 109775038595767510930498

  lemma FeeQuotient()
    ensures TARGETS.priceNum * FEE_TOKENS <= 3_049_000_000_000_000 * Q192 < TARGETS.priceNum * FEE_TOKENS + TARGETS.priceNum
  {
  }

  lemma TokenQuotient()
    ensures var d := 2 * TARGETS.curveSupply - TARGETS.totalSupply - FEE_TOKENS;
      d * VIRTUAL_TOKEN <= TARGETS.curveSupply * TARGETS.curveSupply < d * VIRTUAL_TOKEN + d
  {
  }

  lemma EthQuotient()
    ensures Q192 * VIRTUAL_ETH <= TARGETS.priceNum * (VIRTUAL_TOKEN - TARGETS.totalSupply - FEE_TOKENS) < Q192 * VIRTUAL_ETH + Q192
  {
  }

  lemma ThresholdQuotient()
    ensures var X, q := VIRTUAL_TOKEN - TARGETS.curveSupply, VIRTUAL_ETH + GRADUATION_ETH;
      X * q <= VIRTUAL_ETH * VIRTUAL_TOKEN < X * q + X
  {
  }

  const CONSTANTS: Constants := Constants(VIRTUAL_ETH, VIRTUAL_TOKEN, VIRTUAL_ETH * VIRTUAL_TOKEN, GRADUATION_ETH,
    TARGETS.graduationFee, TARGETS.callerReward, GRADUATION_ETH - TARGETS.graduationFee - TARGETS.callerReward, FEE_TOKENS)

  /** Solving the targets gives the emitted constants. */
  lemma TargetsSolve()
    ensures Solve(TARGETS) == Ok(CONSTANTS)
    ensures WellPosed(TARGETS) && Solved(TARGETS, CONSTANTS)
  {
    FeeQuotient();
    TokenQuotient();
    EthQuotient();
    ThresholdQuotient();
    SolveByQuotients(TARGETS, FEE_TOKENS, VIRTUAL_TOKEN, VIRTUAL_ETH, VIRTUAL_ETH + GRADUATION_ETH);
    SolveMeaning(TARGETS);
  }

  const DUST_TOLERANCE: nat := 1_000_000_000_000_000

  lemma UnsoldSmall(v: nat, X: nat, n: nat)
    requires X == VIRTUAL_TOKEN - TARGETS.curveSupply && v >= X && n <= STEP_LIMIT
    requires (v - X) * (VIRTUAL_ETH + GRADUATION_ETH) <= n * (VIRTUAL_TOKEN - 1) + (X - 1)
    ensures v - X <= 20_000_000_000_000
  {
    MulMono(VIRTUAL_TOKEN - 1, n, STEP_LIMIT);
  }

  lemma RelErrVanishes(cross: nat, v: nat, num: nat)
    requires v > 0 && num > 0 && cross * PPB < v * num
    ensures RelErr(cross, v, num) == 0
  {
    FloorIs(cross * PPB, v * num, 0);
  }

  /** The emitted curve: UNSOLD tokens stay when the whole curve supply is sold. */
  const UNSOLD: nat := 280126583912778964568548738
  const CURVE: Curve := Curve(VIRTUAL_ETH, VIRTUAL_TOKEN, GRADUATION_ETH, UNSOLD)

  lemma CurveIsSolved()
    ensures IsCurveOf(CURVE, TARGETS, CONSTANTS) && Anchored(CURVE) && TARGETS.priceNum > 0
  {
    TargetsSolve();
    SolvedIsAnchored(TARGETS, CONSTANTS, CURVE);
  }

  /** The two tolerances that the derivation checks on its seeds. */
  ghost predicate OnPrice(r: Reserves) {
    && 0 <= TARGETS.curveSupply - (VIRTUAL_TOKEN - r.token) <= DUST_TOLERANCE
    && TARGETS.priceNum > 0 && r.token > 0 && RelErrPpb(TARGETS, r) == 0
  }

  lemma GraduatesOnPrice(r: Reserves, n: nat)
    requires n <= STEP_LIMIT && InRange(CURVE, r, n) && r.eth == VIRTUAL_ETH + GRADUATION_ETH
    ensures OnPrice(r)
  {
    TargetsSolve();
    CurveIsSolved();
    UnsoldAtGraduation(CURVE, r, n);
    UnsoldSmall(r.token, UNSOLD, n);
    CrossAtGraduation(TARGETS, CONSTANTS, r);
    RelErrVanishes(PriceDeficit(TARGETS, CONSTANTS) + (r.token - UNSOLD) * TARGETS.priceNum, r.token, TARGETS.priceNum);
  }

  /** Every run of at most 100k trades of any sizes within the guards that reaches the threshold
      leaves at most DUST_TOLERANCE token units unsold and is off the price by less than one ppb. */
  lemma EveryRunGraduatesOnPrice(trades: seq<Trade>)
    requires |trades| <= STEP_LIMIT && GuardedRun(CURVE, trades)
    requires Run(Start(CURVE), trades).eth == VIRTUAL_ETH + GRADUATION_ETH
    ensures OnPrice(Run(Start(CURVE), trades))
  {
    CurveIsSolved();
    RunInRange(CURVE, trades);
    GraduatesOnPrice(Run(Start(CURVE), trades), |trades|);
  }

  /** So does every simulation, whatever its draws and fee rate. */
  lemma EverySimulationGraduatesOnPrice(draws: Draws, bps: nat, n: nat)
    requires bps < BPS && n <= STEP_LIMIT && Played(CURVE, draws, bps, n).graduated
    ensures OnPrice(Played(CURVE, draws, bps, n).v)
  {
    CurveIsSolved();
    PlayedInRange(CURVE, draws, bps, n);
    GraduatedAtThreshold(CURVE, draws, bps, n);
    GraduatesOnPrice(Played(CURVE, draws, bps, n).v, n);
  }
}
