/**
 * The constant-product curve: buys and sells round the retained reserve up, so every rounding
 * error stays with the curve. Quotes and previews are the client-side view of the same moves.
 */
module CurveMath {
  import opened Numeric

  datatype Reserves = Reserves(eth: nat, token: nat)

  datatype Trade = BuyNet(net: nat) | SellTokens(tokens: nat)

  function Product(r: Reserves): nat { r.eth * r.token }

  predicate Live(r: Reserves) { r.eth > 0 && r.token > 0 }

  function Buy(r: Reserves, net: nat): Reserves
    requires r.eth + net > 0
  {
    Reserves(r.eth + net, CeilDiv(r.eth * r.token, r.eth + net))
  }

  function Sell(r: Reserves, tokens: nat): Reserves
    requires r.token + tokens > 0
  {
    Reserves(CeilDiv(r.eth * r.token, r.token + tokens), r.token + tokens)
  }

  function Step(r: Reserves, t: Trade): (s: Reserves)
    requires Live(r)
  {
    match t
    case BuyNet(net) => Buy(r, net)
    case SellTokens(tokens) => Sell(r, tokens)
  }

  // ---- one trade --------------------------------------------------------------------------

  /** The retained reserve b of a product a*b after a grows to grown. */
  lemma Retained(a: nat, b: nat, grown: nat)
    requires 0 < a <= grown
    ensures var c := CeilDiv(a * b, grown);
      && c <= b && (b > 0 ==> c > 0)
      && a * b <= grown * c < a * b + grown
  {
    var c := CeilDiv(a * b, grown);
    CeilBounds(a * b, grown);
    MulMono(b, a, grown);
    CeilAtMost(a * b, grown, b);
    if b > 0 && c == 0 { MulMonoStrict(a, 0, b); }
  }

  /** A buy keeps the product, up to less than one unit of the grown reserve, and never overpays. */
  lemma BuyBounds(r: Reserves, net: nat)
    requires Live(r)
    ensures var s := Buy(r, net);
      Live(s) && s.token <= r.token && Product(r) <= Product(s) < Product(r) + s.eth
  {
    Retained(r.eth, r.token, r.eth + net);
  }

  lemma SellBounds(r: Reserves, tokens: nat)
    requires Live(r)
    ensures var s := Sell(r, tokens);
      Live(s) && s.eth <= r.eth && Product(r) <= Product(s) < Product(r) + s.token
  {
    Commute(r.eth, r.token);
    Retained(r.token, r.eth, r.token + tokens);
    Commute(Sell(r, tokens).eth, r.token + tokens);
  }

  lemma StepBounds(r: Reserves, t: Trade)
    requires Live(r)
    ensures Live(Step(r, t)) && Product(r) <= Product(Step(r, t))
  {
    match t
    case BuyNet(net) => BuyBounds(r, net);
    case SellTokens(tokens) => SellBounds(r, tokens);
  }

  /** The payout of a buy is the most that keeps the product. */
  lemma BuyPaysMost(r: Reserves, net: nat, out: nat)
    requires Live(r) && out <= r.token
    ensures out <= r.token - Buy(r, net).token <==> (r.eth + net) * (r.token - out) >= Product(r)
  {
    var grown, k, kept := r.eth + net, Product(r), r.token - out;
    CeilBounds(k, grown);
    if kept < CeilDiv(k, grown) {
      MulMono(grown, kept, CeilDiv(k, grown) - 1);
    } else {
      MulMono(grown, CeilDiv(k, grown), kept);
    }
  }

  /** The payout of a sale is the most that keeps the product. */
  lemma SellPaysMost(r: Reserves, tokens: nat, out: nat)
    requires Live(r) && out <= r.eth
    ensures out <= r.eth - Sell(r, tokens).eth <==> (r.token + tokens) * (r.eth - out) >= Product(r)
  {
    var mirror := Reserves(r.token, r.eth);
    Commute(r.eth, r.token);
    BuyPaysMost(mirror, tokens, out);
  }

  // ---- runs of trades ---------------------------------------------------------------------

  function Run(r: Reserves, trades: seq<Trade>): (s: Reserves)
    requires Live(r)
    ensures Live(s)
  {
    if |trades| == 0 then r
    else
      var before := Run(r, trades[..|trades| - 1]);
      StepBounds(before, trades[|trades| - 1]);
      Step(before, trades[|trades| - 1])
  }

  lemma {:induction false} ProductNeverFalls(r: Reserves, trades: seq<Trade>)
    requires Live(r)
    ensures Product(Run(r, trades)) >= Product(r)
  {
    if |trades| == 0 {
    } else {
      ProductNeverFalls(r, trades[..|trades| - 1]);
      StepBounds(Run(r, trades[..|trades| - 1]), trades[|trades| - 1]);
    }
  }

  lemma OneReserveFalls(a: nat, b: nat, c: nat, d: nat)
    requires a > 0 && b > 0 && c * d >= a * b
    ensures d <= b ==> c >= a
    ensures c <= a ==> d >= b
  {
    if d <= b && c < a { MulMono(c, d, b); MulMonoStrict(b, c, a); Commute(b, c); }
    if c <= a && d < b { MulMono(d, c, a); MulMonoStrict(a, d, b); }
  }

  /** No fee-free path of trades takes out one reserve without putting in the other. */
  lemma NoFreeReserve(r: Reserves, trades: seq<Trade>)
    requires Live(r)
    ensures var s := Run(r, trades);
      (s.token <= r.token ==> s.eth >= r.eth) && (s.eth <= r.eth ==> s.token >= r.token)
  {
    ProductNeverFalls(r, trades);
    var s := Run(r, trades);
    OneReserveFalls(r.eth, r.token, s.eth, s.token);
  }

  // ---- splitting a buy --------------------------------------------------------------------

  function Sum(parts: seq<nat>): nat {
    if |parts| == 0 then 0 else Sum(parts[..|parts| - 1]) + parts[|parts| - 1]
  }

  function Buys(parts: seq<nat>): (trades: seq<Trade>)
    ensures |trades| == |parts|
    ensures forall i :: 0 <= i < |parts| ==> trades[i] == BuyNet(parts[i])
  {
    seq(|parts|, i requires 0 <= i < |parts| => BuyNet(parts[i]))
  }

  /** Rounding up a product of a rounded-up quotient loses at most one more unit. */
  lemma RoundAgain(k: nat, e: nat, grown: nat, extra: nat)
    requires 0 < e <= grown
    ensures var v := CeilDiv(k, e) + extra;
      CeilDiv(k, grown) <= CeilDiv(e * v, grown) <= CeilDiv(k, grown) + extra + 1
  {
    var v := CeilDiv(k, e) + extra;
    CeilBounds(k, e);
    MulMono(e, CeilDiv(k, e), v);
    CeilBounds(k, grown);
    CeilBounds(e * v, grown);
    CeilAtMost(k, grown, CeilDiv(e * v, grown));
    // e*v < k + e*(extra+1) <= grown*ceil(k/grown) + grown*(extra+1)
    assert e * v == e * CeilDiv(k, e) + e * extra;
    MulMono(extra + 1, e, grown);
    assert grown * (CeilDiv(k, grown) + extra + 1) == grown * CeilDiv(k, grown) + grown * (extra + 1);
    assert e * (extra + 1) == e * extra + e;
    CeilAtMost(e * v, grown, CeilDiv(k, grown) + extra + 1);
  }

  lemma CeilShift(x: nat, m: nat)
    requires m > 0
    ensures CeilDiv(x * m, m) == x
  {
    CeilBounds(x * m, m);
    CeilAtMost(x * m, m, x);
    MulCancel(m, x, CeilDiv(x * m, m));
  }

  /** Splitting one buy into n buys costs at most n - 1 token units and never gains. */
  lemma {:induction false} SplitBuy(r: Reserves, parts: seq<nat>)
    requires Live(r)
    ensures var one, many := Buy(r, Sum(parts)), Run(r, Buys(parts));
      one.eth == many.eth && one.token <= many.token
      && many.token <= one.token + (if |parts| == 0 then 0 else |parts| - 1)
  {
    var n := |parts|;
    if n == 0 {
      CeilShift(r.token, r.eth);
      Commute(r.token, r.eth);
    } else {
      var init, last := parts[..n - 1], parts[n - 1];
      SplitBuy(r, init);
      assert Buys(parts)[..n - 1] == Buys(init);
      var before := Run(r, Buys(init));
      if n == 1 {
        assert before == r;
      } else {
        RoundAgain(Product(r), before.eth, before.eth + last, before.token - Buy(r, Sum(init)).token);
      }
    }
  }

  // ---- the client-side quotes -------------------------------------------------------------

  datatype QuoteError = ZeroReserve

  datatype BuyPreview = BuyPreview(fee: nat, netEth: nat, tokensOut: nat)

  datatype SellPreview = SellPreview(ethOutGross: nat, fee: nat, ethOut: nat)

  const BPS: nat := 10000

  function QuoteBuy(r: Reserves, ethInNet: nat): Result<int, QuoteError> {
    if r.eth == 0 || r.token == 0 then Err(ZeroReserve)
    else Ok(r.token - CeilDiv(r.eth * r.token, r.eth + ethInNet))
  }

  function QuoteSell(r: Reserves, tokenIn: nat): Result<int, QuoteError> {
    if r.eth == 0 || r.token == 0 then Err(ZeroReserve)
    else Ok(r.eth - CeilDiv(r.eth * r.token, r.token + tokenIn))
  }

  /** floor(x * bps / 10_000) */
  function Fee(x: nat, bps: nat): nat { x * bps / BPS }

  lemma FeeWithin(x: nat, bps: nat)
    requires bps <= BPS
    ensures Fee(x, bps) <= x
  {
    MulMono(x, bps, BPS);
    FloorMono(x * bps, x * BPS, BPS);
  }

  /** Quotes pay out within the reserve, and a zero trade pays nothing. */
  lemma QuotesWithinReserve(r: Reserves, amount: nat)
    requires Live(r)
    ensures QuoteBuy(r, amount).Ok? && 0 <= QuoteBuy(r, amount).value < r.token
    ensures QuoteSell(r, amount).Ok? && 0 <= QuoteSell(r, amount).value < r.eth
    ensures QuoteBuy(r, 0) == Ok(0) && QuoteSell(r, 0) == Ok(0)
  {
    BuyBounds(r, amount);
    SellBounds(r, amount);
    CeilShift(r.token, r.eth);
    CeilShift(r.eth, r.token);
    Commute(r.token, r.eth);
  }

  function PreviewBuy(r: Reserves, ethInGross: nat, bps: nat): Result<BuyPreview, QuoteError>
    requires bps <= BPS
  {
    var fee := Fee(ethInGross, bps);
    FeeWithin(ethInGross, bps);
    var net := ethInGross - fee;
    if !Live(r) then Err(ZeroReserve)
    else
      QuotesWithinReserve(r, net);
      Ok(BuyPreview(fee, net, QuoteBuy(r, net).value))
  }

  function PreviewSell(r: Reserves, tokenIn: nat, bps: nat): Result<SellPreview, QuoteError>
    requires bps <= BPS
  {
    if !Live(r) then Err(ZeroReserve)
    else
      QuotesWithinReserve(r, tokenIn);
      var gross := QuoteSell(r, tokenIn).value;
      FeeWithin(gross, bps);
      Ok(SellPreview(gross, Fee(gross, bps), gross - Fee(gross, bps)))
  }

  /** Buying and selling the tokens straight back never returns more than the net paid. */
  lemma RoundTripLoses(r: Reserves, ethInGross: nat, bps: nat)
    requires Live(r) && bps <= BPS
    ensures var bought := PreviewBuy(r, ethInGross, bps);
      bought.Ok?
      && var sold := PreviewSell(Buy(r, bought.value.netEth), bought.value.tokensOut, bps);
      sold.Ok? && sold.value.ethOutGross <= bought.value.netEth <= ethInGross
  {
    var b := PreviewBuy(r, ethInGross, bps).value;
    var mid := Buy(r, b.netEth);
    BuyBounds(r, b.netEth);
    SellBounds(mid, b.tokensOut);
    var end := Sell(mid, b.tokensOut);
    assert end.token == r.token;
    OneReserveFalls(r.eth, r.token, end.eth, end.token);
  }

  /** A buy preview floors the fee and offers exactly the payouts that keep the product. */
  lemma PreviewBuyMeaning(r: Reserves, amount: nat, bps: nat, out: nat)
    requires Live(r) && bps <= BPS && out <= r.token
    ensures var b := PreviewBuy(r, amount, bps).value;
      && b.fee + b.netEth == amount && b.fee * BPS <= amount * bps < (b.fee + 1) * BPS
      && (out <= b.tokensOut <==> (r.eth + b.netEth) * (r.token - out) >= Product(r))
  {
    FloorBounds(amount * bps, BPS);
    BuyPaysMost(r, PreviewBuy(r, amount, bps).value.netEth, out);
  }

  /** A sell preview prices the gross the same way, then floors the fee on it. */
  lemma PreviewSellMeaning(r: Reserves, amount: nat, bps: nat, out: nat)
    requires Live(r) && bps <= BPS && out <= r.eth
    ensures var s := PreviewSell(r, amount, bps).value;
      && s.fee + s.ethOut == s.ethOutGross && s.fee * BPS <= s.ethOutGross * bps < (s.fee + 1) * BPS
      && (out <= s.ethOutGross <==> (r.token + amount) * (r.eth - out) >= Product(r))
  {
    FloorBounds(PreviewSell(r, amount, bps).value.ethOutGross * bps, BPS);
    SellPaysMost(r, amount, out);
  }
}
