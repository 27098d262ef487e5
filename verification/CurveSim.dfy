/**
 * Trading a curve from the solver's reserves to graduation. The simulation draws its trades
 * from a random source; here the draws are arbitrary, so its results hold for every run.
 */
module CurveSim {
  import opened Numeric
  import opened CurveMath
  import opened CurveSolver

  // ---- any run of trades within the graduation threshold ----------------------------------

  /** Starting reserves e0, v0; threshold g; X tokens remain when the whole supply is sold. */
  datatype Curve = Curve(e0: nat, v0: nat, g: nat, X: int)

  /** A curve starts with both reserves. */
  predicate Seeded(c: Curve) { c.e0 > 0 && c.v0 > 0 }

  /** The threshold is anchored to the product: e0 + g = floor(e0*v0 / X). */
  predicate Anchored(c: Curve) {
    && Seeded(c) && c.g > 0 && 0 < c.X < c.v0
    && c.e0 + c.g == c.e0 * c.v0 / c.X
  }

  function Start(c: Curve): Reserves { Reserves(c.e0, c.v0) }

  /** A buy is clamped to what the threshold still needs, a sale to the tokens sold so far. */
  predicate Guarded(c: Curve, r: Reserves, t: Trade) {
    match t
    case BuyNet(net) => r.eth + net <= c.e0 + c.g
    case SellTokens(tokens) => r.token + tokens <= c.v0
  }

  ghost predicate GuardedRun(c: Curve, trades: seq<Trade>)
    requires Seeded(c)
  {
    forall i :: 0 <= i < |trades| ==> Guarded(c, Run(Start(c), trades[..i]), trades[i])
  }

  /** The most one trade can add to the product. */
  function StepGain(c: Curve): nat { Max(c.e0 + c.g, c.v0) }

  /** After n guarded trades, on any curve. */
  predicate Held(c: Curve, r: Reserves, n: nat) {
    && c.e0 <= r.eth <= c.e0 + c.g
    && 0 < r.token <= c.v0
    && c.e0 * c.v0 <= r.eth * r.token <= c.e0 * c.v0 + n * (StepGain(c) - 1)
  }

  /** On an anchored curve the supply is never oversold either. */
  predicate InRange(c: Curve, r: Reserves, n: nat) { Held(c, r, n) && c.X <= r.token }

  lemma StartHeld(c: Curve)
    requires Seeded(c)
    ensures Held(c, Start(c), 0)
  {
  }

  lemma EthNeverBelowStart(c: Curve, e: nat, v: nat)
    requires Seeded(c) && v <= c.v0
    requires c.e0 * c.v0 <= e * v
    ensures e >= c.e0
  {
    if e < c.e0 { MulMonoStrict(c.v0, e, c.e0); MulMono(e, v, c.v0); }
  }

  lemma GainStep(n: nat, m: nat)
    ensures (n + 1) * m == n * m + m
  {
  }

  lemma BuyHeld(c: Curve, r: Reserves, net: nat, n: nat)
    requires Seeded(c) && Held(c, r, n) && r.eth + net <= c.e0 + c.g
    ensures Held(c, Buy(r, net), n + 1)
  {
    BuyBounds(r, net);
    GainStep(n, StepGain(c) - 1);
  }

  lemma SellHeld(c: Curve, r: Reserves, tokens: nat, n: nat)
    requires Seeded(c) && Held(c, r, n) && r.token + tokens <= c.v0
    ensures Held(c, Sell(r, tokens), n + 1)
  {
    SellBounds(r, tokens);
    GainStep(n, StepGain(c) - 1);
    var s := Sell(r, tokens);
    EthNeverBelowStart(c, s.eth, s.token);
  }

  /** Over every guarded run the product never falls, real ETH stays within the threshold and no more
      tokens come back than were sold. */
  lemma {:induction false} RunHeld(c: Curve, trades: seq<Trade>)
    requires Seeded(c) && GuardedRun(c, trades)
    ensures Held(c, Run(Start(c), trades), |trades|)
  {
    var n := |trades|;
    if n == 0 {
      StartHeld(c);
    } else {
      var init := trades[..n - 1];
      forall i | 0 <= i < n - 1 ensures Guarded(c, Run(Start(c), init[..i]), init[i]) {
        assert init[..i] == trades[..i];
      }
      RunHeld(c, init);
      assert Guarded(c, Run(Start(c), init), trades[n - 1]);
      match trades[n - 1]
      case BuyNet(net) => BuyHeld(c, Run(Start(c), init), net, n - 1);
      case SellTokens(tokens) => SellHeld(c, Run(Start(c), init), tokens, n - 1);
    }
  }

  /** Selling past the supply would break the product, since the threshold rounds down. */
  lemma NeverOversold(c: Curve, e: nat, v: nat)
    requires Anchored(c) && 0 < e <= c.e0 + c.g
    requires c.e0 * c.v0 <= e * v
    ensures v >= c.X
  {
    FloorBounds(c.e0 * c.v0, c.X);
    MulMono(c.X, e, c.e0 + c.g);
    if v < c.X { MulMonoStrict(e, v, c.X); }
  }

  /** On an anchored curve tokens sold also stay within the supply. */
  lemma RunInRange(c: Curve, trades: seq<Trade>)
    requires Anchored(c) && GuardedRun(c, trades)
    ensures InRange(c, Run(Start(c), trades), |trades|)
  {
    RunHeld(c, trades);
    var r := Run(Start(c), trades);
    NeverOversold(c, r.eth, r.token);
  }

  /** At most this many tokens are unsold after n trades that reach the threshold. */
  predicate UnsoldBound(c: Curve, r: Reserves, n: nat) {
    r.token >= c.X && (r.token - c.X) * (c.e0 + c.g) <= n * (StepGain(c) - 1) + (c.X - 1)
  }

  lemma UnsoldAlgebra(v: nat, X: nat, q: nat, k0: nat, gain: int)
    requires q * v <= k0 + gain
    requires k0 < X * q + X
    ensures (v - X) * q <= gain + (X - 1)
  {
    assert (v - X) * q == q * v - X * q;
  }

  lemma UnsoldAtGraduation(c: Curve, r: Reserves, n: nat)
    requires Anchored(c) && InRange(c, r, n) && r.eth == c.e0 + c.g
    ensures UnsoldBound(c, r, n)
  {
    FloorBounds(c.e0 * c.v0, c.X);
    UnsoldAlgebra(r.token, c.X, c.e0 + c.g, c.e0 * c.v0, n * (StepGain(c) - 1));
  }

  /** Every guarded run that reaches the threshold sells the supply up to that rounding. */
  lemma RunSellsSupply(c: Curve, trades: seq<Trade>)
    requires Anchored(c) && GuardedRun(c, trades)
    requires Run(Start(c), trades).eth == c.e0 + c.g
    ensures UnsoldBound(c, Run(Start(c), trades), |trades|)
  {
    RunInRange(c, trades);
    UnsoldAtGraduation(c, Run(Start(c), trades), |trades|);
  }

  // ---- the clamped last buy ---------------------------------------------------------------

  /** The fee charged on a used net amount. */
  function ClampedFee(net: nat, bps: nat): nat
    requires bps < BPS
  {
    CeilDiv(net * bps, BPS - bps)
  }

  /** net plus its fee is the least gross whose after-fee share covers net. */
  lemma ClampedGrossLeast(net: nat, bps: nat, gross: nat)
    requires bps < BPS
    ensures net + ClampedFee(net, bps) <= gross <==> gross * (BPS - bps) >= net * BPS
  {
    var share := BPS - bps;
    CeilBounds(net * bps, share);
    assert net * BPS == net * share + net * bps;
    if gross * (BPS - bps) >= net * BPS {
      assert gross >= net by { MulCancel(share, net, gross); }
      assert share * (gross - net) == gross * share - net * share;
      CeilAtMost(net * bps, share, gross - net);
    } else {
      var least := net + ClampedFee(net, bps);
      assert share * least == net * share + share * ClampedFee(net, bps);
      if least <= gross { MulMono(share, least, gross); }
    }
  }

  lemma OverchargeBound(gross: nat, needed: nat, charged: nat, share: nat, bps: nat, fee: nat)
    requires share + bps == BPS && share > 0 && gross - fee >= needed && gross * bps < BPS * fee + BPS
    requires charged > 0 ==> (charged - 1) * share < needed * BPS
    ensures (charged - gross - 1) * share <= BPS - 2
  {
    assert gross * share == gross * BPS - gross * bps;
    if charged == 0 {
      MulMono(share, 0, gross + 1);
      assert (charged - gross - 1) * share == -((gross + 1) * share);
    } else {
      assert (charged - gross - 1) * share == (charged - 1) * share - gross * share;
    }
  }

  /** A buy is clamped when its offered net covers the need. It is then charged more than was offered exactly
      when the offered gross does not cover the need at the fee rate, so that the floored fee alone made the
      net fit; the overcharge x is at most one wei more than (BPS - 2) / (BPS - bps). */
  lemma ClampOvercharge(gross: nat, needed: nat, bps: nat)
    requires bps < BPS && gross - Fee(gross, bps) >= needed
    ensures var x := needed + ClampedFee(needed, bps) - gross;
      && (x > 0 <==> gross * (BPS - bps) < needed * BPS)
      && (x - 1) * (BPS - bps) <= BPS - 2
  {
    var share, charged := BPS - bps, needed + ClampedFee(needed, bps);
    ClampedGrossLeast(needed, bps, gross);
    if charged > 0 { ClampedGrossLeast(needed, bps, charged - 1); }
    FloorBounds(gross * bps, BPS);
    OverchargeBound(gross, needed, charged, share, bps, Fee(gross, bps));
  }

  // ---- the simulation ---------------------------------------------------------------------

  const R48: nat := 0x1_0000_0000_0000

  type Bits48 = r: nat | r < R48

  /** One step's randomness: the sell coin and 48 random bits. */
  datatype Draw = Draw(sellCoin: bool, r48: Bits48)

  type Draws = nat -> Draw

  const SELL_FLOOR: nat := 1_000_000_000_000_000_000
  const STEP_LIMIT: nat := 100_000
  const PPB: nat := 1_000_000_000

  /** 48 bits scaled onto [1, max], or 0 when max is not positive. */
  function RandBig(r48: Bits48, max: int): nat {
    if max <= 0 then 0
    else
      MulMono(max - 1, 0, r48);
      FloorAtLeast(r48 * (max - 1), R48 - 1, 0);
      1 + r48 * (max - 1) / (R48 - 1)
  }

  lemma RandBigRange(r48: Bits48, max: int)
    ensures max > 0 ==> 1 <= RandBig(r48, max) <= max
    ensures max <= 0 ==> RandBig(r48, max) == 0
  {
    if max > 0 {
      MulMono(max - 1, r48, R48 - 1);
      MulMono(max - 1, 0, r48);
      FloorMono(r48 * (max - 1), (R48 - 1) * (max - 1), R48 - 1);
      FloorAtLeast(r48 * (max - 1), R48 - 1, 0);
    }
  }

  /** The books of a run: reserves, ETH taken from buyers, fees kept, ETH paid to sellers. */
  datatype Books = Books(v: Reserves, grossIn: nat, fees: nat, paidOut: nat, buys: nat, sells: nat, graduated: bool)

  predicate Open(c: Curve, b: Books) {
    c.e0 <= b.v.eth <= c.e0 + c.g && 0 < b.v.token <= c.v0
  }

  function Needed(c: Curve, b: Books): nat
    requires Open(c, b)
  {
    c.e0 + c.g - b.v.eth
  }

  /** The trade a draw stands for: a sale of up to a quarter of the tokens sold, or a buy of up to
      a sixth of the threshold, its net clamped to what the threshold still needs. */
  function NextTrade(c: Curve, b: Books, d: Draw, bps: nat): Trade
    requires Open(c, b) && bps < BPS
  {
    var sold := c.v0 - b.v.token;
    if d.sellCoin && sold > SELL_FLOOR then SellTokens(RandBig(d.r48, sold / 4))
    else
      var gross := RandBig(d.r48, c.g / 6);
      FeeWithin(gross, bps);
      BuyNet(Min(gross - Fee(gross, bps), Needed(c, b)))
  }

  /** The books after the trade of a draw. */
  function Entered(c: Curve, b: Books, d: Draw, bps: nat): Books
    requires Open(c, b) && c.e0 > 0 && bps < BPS
  {
    match NextTrade(c, b, d, bps)
    case SellTokens(tokens) =>
      var s := Sell(b.v, tokens);
      SellBounds(b.v, tokens);
      var out: nat := b.v.eth - s.eth;
      FeeWithin(out, bps);
      b.(v := s, fees := b.fees + Fee(out, bps), paidOut := b.paidOut + (out - Fee(out, bps)), sells := b.sells + 1)
    case BuyNet(net) =>
      var gross := RandBig(d.r48, c.g / 6);
      var last := gross - Fee(gross, bps) >= Needed(c, b);
      var fee := if last then ClampedFee(net, bps) else Fee(gross, bps);
      b.(v := Buy(b.v, net), grossIn := b.grossIn + net + fee, fees := b.fees + fee, buys := b.buys + 1, graduated := last)
  }

  lemma EnteredHeld(c: Curve, b: Books, d: Draw, bps: nat, n: nat)
    requires Seeded(c) && Held(c, b.v, n) && bps < BPS
    ensures Entered(c, b, d, bps).v == Step(b.v, NextTrade(c, b, d, bps)) && Guarded(c, b.v, NextTrade(c, b, d, bps))
    ensures Held(c, Entered(c, b, d, bps).v, n + 1)
  {
    var sold := c.v0 - b.v.token;
    RandBigRange(d.r48, sold / 4);
    match NextTrade(c, b, d, bps)
    case SellTokens(tokens) => SellHeld(c, b.v, tokens, n);
    case BuyNet(net) => BuyHeld(c, b.v, net, n);
  }

  type Play = (Books, Draw) -> Books

  /** One step of the simulation: nothing is traded after graduation. The books always stay open. */
  function PlayOf(c: Curve, bps: nat): Play
    requires c.e0 > 0 && bps < BPS
  {
    (b: Books, d: Draw) => if b.graduated || !Open(c, b) then b else Entered(c, b, d, bps)
  }

  /** The books after n steps. */
  function PlayOut(play: Play, start: Books, draws: Draws, n: nat): Books {
    if n == 0 then start else play(PlayOut(play, start, draws, n - 1), draws(n - 1))
  }

  function Played(c: Curve, draws: Draws, bps: nat, n: nat): Books
    requires c.e0 > 0 && bps < BPS
  {
    PlayOut(PlayOf(c, bps), Books(Start(c), 0, 0, 0, 0, 0, false), draws, n)
  }

  lemma {:induction false} PlayOutKeeps(play: Play, start: Books, draws: Draws, n: nat, inv: Books -> bool)
    requires inv(start) && forall b, d :: inv(b) ==> inv(play(b, d))
    ensures inv(PlayOut(play, start, draws, n))
  {
    if n == 0 {
    } else {
      PlayOutKeeps(play, start, draws, n - 1, inv);
    }
  }

  lemma RunOneMore(c: Curve, trades: seq<Trade>, t: Trade)
    requires Seeded(c) && GuardedRun(c, trades) && Guarded(c, Run(Start(c), trades), t)
    ensures GuardedRun(c, trades + [t]) && Run(Start(c), trades + [t]) == Step(Run(Start(c), trades), t)
  {
    var all := trades + [t];
    assert all[..|trades|] == trades;
    forall i | 0 <= i < |all| ensures Guarded(c, Run(Start(c), all[..i]), all[i]) {
      if i < |trades| { assert all[..i] == trades[..i]; }
    }
  }

  /** The books of a run that has not graduated are those of a guarded run of its n trades. */
  lemma {:induction false} PlayedIsRun(c: Curve, draws: Draws, bps: nat, n: nat) returns (trades: seq<Trade>)
    requires Seeded(c) && bps < BPS
    ensures |trades| <= n && GuardedRun(c, trades) && Run(Start(c), trades) == Played(c, draws, bps, n).v
    ensures n > 0 && !Played(c, draws, bps, n - 1).graduated ==> |trades| == n
    ensures Open(c, Played(c, draws, bps, n))
  {
    if n == 0 {
      trades := [];
    } else {
      var b := Played(c, draws, bps, n - 1);
      trades := PlayedIsRun(c, draws, bps, n - 1);
      RunHeld(c, trades);
      if !b.graduated {
        EnteredHeld(c, b, draws(n - 1), bps, |trades|);
        var t := NextTrade(c, b, draws(n - 1), bps);
        RunOneMore(c, trades, t);
        trades := trades + [t];
        RunHeld(c, trades);
      }
    }
  }

  /** Over the whole run the product never falls below its start, and real ETH stays within the threshold. */
  lemma PlayedHeld(c: Curve, draws: Draws, bps: nat, n: nat)
    requires Seeded(c) && bps < BPS
    ensures Held(c, Played(c, draws, bps, n).v, n)
  {
    var trades := PlayedIsRun(c, draws, bps, n);
    RunHeld(c, trades);
    MulMono(StepGain(c) - 1, |trades|, n);
  }

  /** On an anchored curve tokens sold also stay within the supply. */
  lemma PlayedInRange(c: Curve, draws: Draws, bps: nat, n: nat)
    requires Anchored(c) && bps < BPS
    ensures InRange(c, Played(c, draws, bps, n).v, n)
  {
    PlayedHeld(c, draws, bps, n);
    var r := Played(c, draws, bps, n).v;
    NeverOversold(c, r.eth, r.token);
  }

  lemma EnteredConserves(c: Curve, b: Books, d: Draw, bps: nat)
    requires Open(c, b) && c.e0 > 0 && bps < BPS
    ensures var s := Entered(c, b, d, bps);
      s.grossIn - b.grossIn == s.v.eth - b.v.eth + (s.fees - b.fees) + (s.paidOut - b.paidOut)
  {
  }

  /** Every wei taken from buyers is in the curve, kept as a fee, or paid to a seller. */
  lemma EthConserved(c: Curve, draws: Draws, bps: nat, n: nat)
    requires c.e0 > 0 && bps < BPS
    ensures var b := Played(c, draws, bps, n); b.grossIn == b.v.eth - c.e0 + b.fees + b.paidOut
  {
    var balanced := (b: Books) => b.grossIn == b.v.eth - c.e0 + b.fees + b.paidOut;
    forall b, d | balanced(b) ensures balanced(PlayOf(c, bps)(b, d)) {
      if !b.graduated && Open(c, b) { EnteredConserves(c, b, d, bps); }
    }
    PlayOutKeeps(PlayOf(c, bps), Books(Start(c), 0, 0, 0, 0, 0, false), draws, n, balanced);
  }

  lemma EnteredGraduates(c: Curve, b: Books, d: Draw, bps: nat)
    requires Open(c, b) && c.e0 > 0 && bps < BPS && !b.graduated
    ensures var s := Entered(c, b, d, bps);
      && s.v.eth <= c.e0 + c.g && s.buys + s.sells == b.buys + b.sells + 1
      && (s.graduated ==> s.v.eth == c.e0 + c.g)
      && (b.v.eth < c.e0 + c.g && s.v.eth == c.e0 + c.g ==> s.graduated)
  {
    match NextTrade(c, b, d, bps)
    case SellTokens(tokens) => SellBounds(b.v, tokens);
    case BuyNet(net) =>
  }

  /** A run has graduated exactly when the curve holds the threshold, to the wei. */
  lemma GraduatedAtThreshold(c: Curve, draws: Draws, bps: nat, n: nat)
    requires Seeded(c) && c.g > 0 && bps < BPS
    ensures Played(c, draws, bps, n).graduated <==> Played(c, draws, bps, n).v.eth == c.e0 + c.g
    ensures Played(c, draws, bps, n).v.eth <= c.e0 + c.g
  {
    var exact := (b: Books) => b.v.eth <= c.e0 + c.g && (b.graduated <==> b.v.eth == c.e0 + c.g);
    forall b, d | exact(b) ensures exact(PlayOf(c, bps)(b, d)) {
      if !b.graduated && Open(c, b) { EnteredGraduates(c, b, d, bps); }
    }
    PlayOutKeeps(PlayOf(c, bps), Books(Start(c), 0, 0, 0, 0, 0, false), draws, n, exact);
  }

  // ---- what each step does to the books ---------------------------------------------------

  /** x is the point of [1, max] that 48 random bits scale to. */
  predicate ScaledDraw(x: nat, bits: nat, max: int) {
    if max <= 0 then x == 0
    else 1 <= x <= max && (x - 1) * 281_474_976_710_655 <= bits * (max - 1) < x * 281_474_976_710_655
  }

  /** The share of an amount in basis points, rounded down. */
  predicate FloorShare(share: int, amount: int, bps: nat) {
    share * 10_000 <= amount * bps < share * 10_000 + 10_000
  }

  /** The least gross amount whose part after the fee rate covers net. */
  predicate LeastGross(gross: int, net: int, bps: nat) {
    (gross - 1) * (10_000 - bps) < net * 10_000 <= gross * (10_000 - bps)
  }

  /** The least reserve that keeps the product beside the other one. */
  predicate LeastReserve(reserve: int, other: int, product: int) {
    (reserve - 1) * other < product <= reserve * other
  }

  /** A sale returns up to a quarter of the tokens sold. The curve pays out down to the least ETH reserve that keeps the
      product, keeps the fee and hands over the rest. */
  predicate IsSale(c: Curve, b: Books, s: Books, d: Draw, bps: nat) {
    var tokens, out, fee := s.v.token - b.v.token, b.v.eth - s.v.eth, s.fees - b.fees;
    && tokens >= 0 && ScaledDraw(tokens, d.r48, (c.v0 - b.v.token) / 4)
    && LeastReserve(s.v.eth, s.v.token, b.v.eth * b.v.token)
    && FloorShare(fee, out, bps) && s.paidOut == b.paidOut + (out - fee) && s.grossIn == b.grossIn
    && s.sells == b.sells + 1 && s.buys == b.buys && !s.graduated
  }

  /** A buy offers up to a sixth of the threshold. When what is left of it after the fee falls short of the need it goes
      in as it is; otherwise the curve takes exactly the need, and the buyer is charged the least gross that covers it. */
  predicate IsBuy(c: Curve, b: Books, s: Books, d: Draw, bps: nat, gross: nat, share: nat) {
    var net, fee, needed := s.v.eth - b.v.eth, s.fees - b.fees, c.e0 + c.g - b.v.eth;
    && ScaledDraw(gross, d.r48, c.g / 6) && FloorShare(share, gross, bps)
    && LeastReserve(s.v.token, s.v.eth, b.v.eth * b.v.token)
    && s.grossIn == b.grossIn + net + fee && s.paidOut == b.paidOut && s.buys == b.buys + 1 && s.sells == b.sells
    && (if gross - share < needed then net == gross - share && fee == share && !s.graduated
        else net == needed && LeastGross(net + fee, net, bps) && s.graduated)
  }

  lemma DrawIsScaled(r48: Bits48, max: int)
    ensures ScaledDraw(RandBig(r48, max), r48, max)
  {
    RandBigRange(r48, max);
    if max > 0 { FloorBounds(r48 * (max - 1), R48 - 1); }
  }

  lemma FeeIsShare(amount: nat, bps: nat)
    ensures FloorShare(Fee(amount, bps), amount, bps)
  {
    FloorBounds(amount * bps, BPS);
  }

  lemma ClampIsLeast(net: nat, bps: nat)
    requires bps < BPS
    ensures LeastGross(net + ClampedFee(net, bps), net, bps)
  {
    var gross := net + ClampedFee(net, bps);
    ClampedGrossLeast(net, bps, gross);
    if gross > 0 { ClampedGrossLeast(net, bps, gross - 1); }
  }

  lemma LeastReserves(r: Reserves, x: nat)
    requires r.eth > 0 && r.token > 0
    ensures LeastReserve(Sell(r, x).eth, r.token + x, r.eth * r.token) && Sell(r, x).token == r.token + x
    ensures LeastReserve(Buy(r, x).token, r.eth + x, r.eth * r.token) && Buy(r, x).eth == r.eth + x
  {
    SellBounds(r, x);
    BuyBounds(r, x);
  }

  lemma SaleIs(c: Curve, b: Books, d: Draw, bps: nat)
    requires Open(c, b) && c.e0 > 0 && bps < BPS && !b.graduated && d.sellCoin && c.v0 - b.v.token > SELL_FLOOR
    ensures IsSale(c, b, Entered(c, b, d, bps), d, bps)
  {
    var tokens := RandBig(d.r48, (c.v0 - b.v.token) / 4);
    DrawIsScaled(d.r48, (c.v0 - b.v.token) / 4);
    LeastReserves(b.v, tokens);
    SellBounds(b.v, tokens);
    FeeIsShare(b.v.eth - Sell(b.v, tokens).eth, bps);
  }

  lemma BuyIs(c: Curve, b: Books, d: Draw, bps: nat)
    requires Open(c, b) && c.e0 > 0 && bps < BPS && !b.graduated && !(d.sellCoin && c.v0 - b.v.token > SELL_FLOOR)
    ensures var gross := RandBig(d.r48, c.g / 6); IsBuy(c, b, Entered(c, b, d, bps), d, bps, gross, Fee(gross, bps))
  {
    var gross := RandBig(d.r48, c.g / 6);
    FeeWithin(gross, bps);
    DrawIsScaled(d.r48, c.g / 6);
    FeeIsShare(gross, bps);
    LeastReserves(b.v, Min(gross - Fee(gross, bps), Needed(c, b)));
    ClampIsLeast(Needed(c, b), bps);
  }

  /** What one more step does, and the checks the simulation makes after it. */
  lemma StepChecks(c: Curve, draws: Draws, bps: nat, n: nat)
    requires Seeded(c) && bps < BPS && !Played(c, draws, bps, n).graduated
    ensures var b, s := Played(c, draws, bps, n), Played(c, draws, bps, n + 1);
      && Open(c, b) && s == Entered(c, b, draws(n), bps) && Product(s.v) >= Product(b.v)
      && c.e0 <= s.v.eth && 0 < s.v.token <= c.v0 && (s.graduated ==> s.v.eth == c.e0 + c.g)
      && (Anchored(c) ==> c.X <= s.v.token)
  {
    var trades := PlayedIsRun(c, draws, bps, n);
    var b := Played(c, draws, bps, n);
    RunHeld(c, trades);
    EnteredHeld(c, b, draws(n), bps, |trades|);
    if Anchored(c) { PlayedInRange(c, draws, bps, n + 1); }
    StepBounds(b.v, NextTrade(c, b, draws(n), bps));
    EnteredGraduates(c, b, draws(n), bps);
  }

  /** Every step before graduation is a sale, when the coin says so and more than 10^18 token units are sold, or else
      a buy, and nothing changes afterwards. So the fees of a simulation are the floored shares of what its sales took
      out and of what its buys offered, and the fee of the least gross for the last buy. */
  lemma EveryStep(c: Curve, draws: Draws, bps: nat, n: nat)
    requires Seeded(c) && bps < BPS
    ensures var b, s, d := Played(c, draws, bps, n), Played(c, draws, bps, n + 1), draws(n);
      if b.graduated then s == b
      else if d.sellCoin && c.v0 - b.v.token > 1_000_000_000_000_000_000 then IsSale(c, b, s, d, bps)
      else exists gross: nat, share: nat :: IsBuy(c, b, s, d, bps, gross, share)
  {
    var b, d := Played(c, draws, bps, n), draws(n);
    if !b.graduated {
      StepChecks(c, draws, bps, n);
      if d.sellCoin && c.v0 - b.v.token > SELL_FLOOR { SaleIs(c, b, d, bps); } else { BuyIs(c, b, d, bps); }
    }
  }

  // ---- the clamp in a run -------------------------------------------------------------------

  /** A small anchored curve on which every buy offers one wei, at a fee of 1%. */
  const TINY: Curve := Curve(6, 2, 6, 1)

  lemma TinyFees(net: nat)
    requires net <= 1
    ensures RandBig(0, 1) == 1 && Fee(1, 100) == 0 && ClampedFee(net, 100) == net
  {
  }

  lemma TinyBuy(e: nat)
    requires 6 <= e <= 11
    ensures Buy(Reserves(e, 2), 1) == Reserves(e + 1, 2)
  {
    FloorIs(e * 2 + (e + 1) - 1, e + 1, 2);
  }

  /** While more than one wei is needed a buy is charged what it offers; the last one is charged two. */
  lemma TinyStep(b: Books)
    requires 6 <= b.v.eth <= 11 && b.v.token == 2 && !b.graduated
    ensures var s := Entered(TINY, b, Draw(false, 0), 100);
      && s.v == Reserves(b.v.eth + 1, 2) && s.graduated == (b.v.eth == 11)
      && s.grossIn == b.grossIn + if b.v.eth == 11 then 2 else 1
  {
    TinyFees(1);
    TinyBuy(b.v.eth);
  }

  /** On it, five buys of one wei leave one wei of the threshold. */
  lemma {:induction false} TinyBuys(draws: Draws, n: nat)
    requires n <= 5 && forall i :: draws(i) == Draw(false, 0)
    ensures var b := Played(TINY, draws, 100, n);
      !b.graduated && b.v == Reserves(6 + n, 2) && b.grossIn == n
  {
    if n == 0 {
    } else {
      TinyBuys(draws, n - 1);
      TinyStep(Played(TINY, draws, 100, n - 1));
    }
  }

  /** The sixth buy offers one wei more and is charged two. */
  lemma ClampCanChargeMore(draws: Draws)
    requires forall i :: draws(i) == Draw(false, 0)
    ensures Anchored(TINY) && Played(TINY, draws, 100, 6).graduated
    ensures RandBig(draws(5).r48, TINY.g / 6) == 1
    ensures Played(TINY, draws, 100, 6).grossIn == Played(TINY, draws, 100, 5).grossIn + 2
  {
    TinyFees(1);
    TinyBuys(draws, 5);
    TinyStep(Played(TINY, draws, 100, 5));
  }

  datatype SimError = StepLimit | Oversold

  datatype SimResult = SimResult(steps: nat, buys: nat, sells: nat, realEth: int, grossIn: nat, fees: nat,
    sold: int, shortfall: int, relErrPpb: nat, kFinal: nat, kInitial: nat)

  /** The curve of a solution. */
  predicate IsCurveOf(curve: Curve, t: Targets, c: Constants) {
    curve.e0 == c.virtualEth && curve.v0 == c.virtualToken && curve.g == c.graduationEth && curve.X == TerminalTokens(t, c)
  }

  lemma SolvedIsAnchored(t: Targets, c: Constants, curve: Curve)
    requires WellPosed(t) && Solved(t, c) && IsCurveOf(curve, t, c)
    ensures Anchored(curve)
  {
    var u := t.lpTranche + c.feeTokens;
    if t.curveSupply == 0 { assert false; }
  }

  function RelErr(cross: nat, token: nat, num: nat): nat
    requires num > 0 && token > 0
  {
    MulMonoStrict(num, 0, token);
    cross * PPB / (token * num)
  }

  /** The relative price error at graduation, in parts per billion. */
  function RelErrPpb(t: Targets, r: Reserves): nat
    requires t.priceNum > 0 && r.token > 0
  {
    RelErr(Abs(r.eth * t.priceDen - r.token * t.priceNum), r.token, t.priceNum)
  }

  /** The error is |eth / token - p| / p in parts per billion, rounded down. */
  lemma RelErrMeaning(t: Targets, r: Reserves)
    requires t.priceNum > 0 && r.token > 0
    ensures var cross, whole := Abs(r.eth * t.priceDen - r.token * t.priceNum), r.token * t.priceNum;
      whole * RelErrPpb(t, r) <= cross * 1_000_000_000 < whole * RelErrPpb(t, r) + whole
  {
    MulMonoStrict(t.priceNum, 0, r.token);
    FloorBounds(Abs(r.eth * t.priceDen - r.token * t.priceNum) * PPB, r.token * t.priceNum);
  }

  lemma CrossAlgebra(num: nat, den: nat, e: nat, v: nat, X: int)
    requires v >= X && num * X >= e * den
    ensures e * den - v * num == -(num * X - e * den) - (v - X) * num
    ensures (v - X) * num >= 0
  {
    MulMono(num, 0, v - X);
    assert (v - X) * num == v * num - X * num;
  }

  /** At graduation the price falls short by the solver's deficit plus the unsold tokens at p. */
  lemma CrossAtGraduation(t: Targets, c: Constants, r: Reserves)
    requires WellPosed(t) && Solved(t, c)
    requires r.eth == c.virtualEth + c.graduationEth && r.token >= TerminalTokens(t, c)
    ensures Abs(r.eth * t.priceDen - r.token * t.priceNum)
      == PriceDeficit(t, c) + (r.token - TerminalTokens(t, c)) * t.priceNum
  {
    TerminalPrice(t, c);
    CrossAlgebra(t.priceNum, t.priceDen, r.eth, r.token, TerminalTokens(t, c));
  }

  /** What the simulation reports for the books it ends with. */
  predicate Reports(t: Targets, c: Constants, b: Books, s: SimResult) {
    && t.priceNum > 0 && b.v.token > 0
    && s.realEth == b.v.eth - c.virtualEth
    && s.sold == c.virtualToken - b.v.token
    && s.shortfall == t.curveSupply - s.sold
    && s.relErrPpb == RelErrPpb(t, b.v)
    && s.kFinal == b.v.eth * b.v.token
    && s.kInitial == c.virtualEth * c.virtualToken
    && s.steps == s.buys + s.sells
    && s.grossIn == b.grossIn && s.fees == b.fees && s.buys == b.buys && s.sells == b.sells
  }

  /** No more than the curve supply is sold after step k. */
  predicate Fits(c: Curve, draws: Draws, bps: nat, k: nat)
    requires c.e0 > 0 && bps < BPS
  {
    Played(c, draws, bps, k).v.token >= c.X
  }

  /** No step before step n stops the simulation. */
  ghost predicate GoesOn(c: Curve, draws: Draws, bps: nat, n: nat)
    requires c.e0 > 0 && bps < BPS
  {
    && (forall k :: 0 <= k < n ==> !Played(c, draws, bps, k).graduated)
    && (forall k :: 1 <= k < n ==> Fits(c, draws, bps, k))
  }

  lemma GoesOneMore(c: Curve, draws: Draws, bps: nat, n: nat)
    requires c.e0 > 0 && bps < BPS && GoesOn(c, draws, bps, n)
    requires !Played(c, draws, bps, n).graduated && (n > 0 ==> Played(c, draws, bps, n).v.token >= c.X)
    ensures GoesOn(c, draws, bps, n + 1)
  {
  }

  /** The body of the loop: one trade. A check that fails only for constants that are not anchored, on a buy,
      is reported; the others never fail. */
  method PlayOne(c: Constants, t: Targets, ghost curve: Curve, ghost b: Books, draw: Draw, bps: nat,
                 v0: Reserves, grossIn0: nat, fees0: nat, buys0: nat, sells0: nat)
    returns (v: Reserves, grossIn: nat, fees: nat, buys: nat, sells: nat, graduated: bool, oversold: bool)
    requires bps < BPS && IsCurveOf(curve, t, c) && Seeded(curve) && Open(curve, b)
    requires b == Books(v0, grossIn0, fees0, b.paidOut, buys0, sells0, false)
    requires Entered(curve, b, draw, bps).v.eth >= curve.e0
    ensures var s := Entered(curve, b, draw, bps); s == Books(v, grossIn, fees, s.paidOut, buys, sells, graduated)
    ensures buys + sells == buys0 + sells0 + 1
    ensures oversold ==> v.token < curve.X
    ensures !oversold ==> v.token >= curve.X || curve.v0 > v.token >= v0.token
    ensures !oversold && v0.token == curve.v0 ==> v.token >= curve.X
  {
    v, grossIn, fees, buys, sells, graduated, oversold := v0, grossIn0, fees0, buys0, sells0, false, false;
    var G := c.graduationEth;
    var soldSoFar := c.virtualToken - v.token;
    if draw.sellCoin && soldSoFar > SELL_FLOOR {
      RandBigRange(draw.r48, soldSoFar / 4);
      var tokensIn := RandBig(draw.r48, soldSoFar / 4);
      assert tokensIn != 0;  // the draw is never skipped
      var s := Sell(v, tokensIn);
      SellBounds(v, tokensIn);
      var ethOut := v.eth - s.eth;
      assert ethOut >= 0;  // negative sell output
      var fee := Fee(ethOut, bps);
      fees := fees + fee;
      v := s;
      assert v.eth - c.virtualEth >= 0;  // negative real reserves after sell
      sells := sells + 1;
    } else {
      var gross := RandBig(draw.r48, G / 6);
      var fee := Fee(gross, bps);
      FeeWithin(gross, bps);
      var net := gross - fee;
      var needed := G - (v.eth - c.virtualEth);
      if net >= needed {
        net := needed;
        fee := ClampedFee(net, bps);
        gross := net + fee;
        graduated := true;
      }
      var s := Buy(v, net);
      BuyBounds(v, net);
      assert v.token - s.token >= 0;  // negative buy output
      v := s;
      grossIn := grossIn + gross;
      fees := fees + fee;
      buys := buys + 1;
      oversold := c.virtualToken - v.token > t.curveSupply;
    }
  }

  /** The simulation of any curve with both reserves. It stops at the first step that oversells, at the first
      that graduates, whose books it reports, or at the step limit. Its other checks are assertions here, as
      they never fail; on an anchored curve overselling never happens either. */
  method SimulateFullCurve(c: Constants, t: Targets, draws: Draws, bps: nat, ghost curve: Curve)
    returns (r: Result<SimResult, SimError>, ghost stop: nat)
    requires bps < BPS && t.priceNum > 0 && IsCurveOf(curve, t, c) && Seeded(curve)
    ensures stop <= STEP_LIMIT && GoesOn(curve, draws, bps, stop)
    ensures r.Ok? ==> Played(curve, draws, bps, stop).graduated && stop > 0 && Fits(curve, draws, bps, stop)
    ensures r.Ok? ==> r.value.steps == stop && Reports(t, c, Played(curve, draws, bps, stop), r.value)
    ensures r.Ok? ==> r.value.shortfall >= 0 && r.value.realEth == c.graduationEth
    ensures r == Err(Oversold) ==> stop > 0 && !Fits(curve, draws, bps, stop)
    ensures r == Err(StepLimit) ==>
      stop == STEP_LIMIT && !Played(curve, draws, bps, stop).graduated && Fits(curve, draws, bps, stop)
    ensures Anchored(curve) ==> r != Err(Oversold)
  {
    var G := c.graduationEth;
    var v := Reserves(c.virtualEth, c.virtualToken);
    var kPrev := v.eth * v.token;
    var kInitial := kPrev;
    var grossIn: nat, fees: nat, buys: nat, sells: nat, steps: nat, graduated, oversold := 0, 0, 0, 0, 0, false, false;
    ghost var b := Played(curve, draws, bps, 0);
    stop := 0;
    while !graduated
      invariant stop == steps <= STEP_LIMIT && b == Played(curve, draws, bps, steps) && steps == buys + sells
      invariant b == Books(v, grossIn, fees, b.paidOut, buys, sells, graduated)
      invariant kPrev == Product(v) && 0 < v.token <= c.virtualToken
      invariant if steps == 0 then v.token == c.virtualToken else v.token >= curve.X
      invariant graduated ==> steps > 0 && v.eth - c.virtualEth == G
      invariant GoesOn(curve, draws, bps, steps)
      decreases STEP_LIMIT - steps, !graduated
    {
      if steps + 1 > STEP_LIMIT { return Err(StepLimit), stop; }
      var draw := draws(steps);
      StepChecks(curve, draws, bps, steps);
      GoesOneMore(curve, draws, bps, steps);
      steps := steps + 1;
      stop := steps;
      v, grossIn, fees, buys, sells, graduated, oversold :=
        PlayOne(c, t, curve, b, draw, bps, v, grossIn, fees, buys, sells);
      b := Entered(curve, b, draw, bps);
      if oversold { return Err(Oversold), stop; }
      var kNow := v.eth * v.token;
      assert kNow >= kPrev;  // k decreased
      kPrev := kNow;
    }
    var realEth := v.eth - c.virtualEth;
    assert realEth == G;  // graduated with realEth != G
    var sold := c.virtualToken - v.token;
    var shortfall := t.curveSupply - sold;
    assert shortfall >= 0;  // oversold curve supply
    r := Ok(SimResult(steps, buys, sells, realEth, grossIn, fees, sold, shortfall, RelErrPpb(t, v), kPrev, kInitial));
  }
}
