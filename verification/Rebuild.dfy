/**
 * The rebuild: raw trades and transfers are merged, sorted by (block, log), and replayed through
 * the candle store and the balance ledger; the 24h volume is then summed over the trades as given.
 */
module Rebuild {
  import opened Numeric
  import opened Sums
  import opened Addresses
  import C = Candles
  import B = Balances

  const DAY: nat := 86400

  datatype TradeRaw = TradeRaw(token: string, trader: string, venue: string, isBuy: bool, ethAmount: int,
    tokenAmount: int, feeEth: int, price: real, block: nat, ts: nat, log: nat)

  datatype TransferRaw = TransferRaw(token: string, src: string, dst: string, value: int, block: nat, ts: nat, log: nat)

  datatype Event = TradeEvent(trade: TradeRaw) | TransferEvent(transfer: TransferRaw)

  function Block(e: Event): nat { if e.TradeEvent? then e.trade.block else e.transfer.block }

  function Log(e: Event): nat { if e.TradeEvent? then e.trade.log else e.transfer.log }

  // ---- merge and sort ---------------------------------------------------------------------

  function MapSeq<S, T>(a: seq<S>, f: S -> T): (r: seq<T>)
    ensures |r| == |a| && forall i :: 0 <= i < |a| ==> r[i] == f(a[i])
  {
    seq(|a|, i requires 0 <= i < |a| => f(a[i]))
  }

  function AsTrade(t: TradeRaw): Event { TradeEvent(t) }

  function AsTransfer(x: TransferRaw): Event { TransferEvent(x) }

  function Merge(trades: seq<TradeRaw>, transfers: seq<TransferRaw>): seq<Event> {
    MapSeq(trades, AsTrade) + MapSeq(transfers, AsTransfer)
  }

  predicate Earlier(a: Event, b: Event) {
    Block(a) < Block(b) || (Block(a) == Block(b) && Log(a) < Log(b))
  }

  /** Places e before the first event it does not follow. */
  function Insert(e: Event, s: seq<Event>): seq<Event> {
    if s == [] then [e]
    else if Earlier(s[0], e) then [s[0]] + Insert(e, s[1..])
    else [e] + s
  }

  /** The stable order by (block, log). */
  function Sort(s: seq<Event>): seq<Event> {
    if s == [] then [] else Insert(s[0], Sort(s[1..]))
  }

  ghost predicate StrictlySorted(s: seq<Event>) {
    forall i, j :: 0 <= i < j < |s| ==> Earlier(s[i], s[j])
  }

  predicate SamePlace(a: Event, b: Event) { Block(a) == Block(b) && Log(a) == Log(b) }

  ghost predicate DistinctPlaces(s: seq<Event>) {
    forall i, j :: 0 <= i < j < |s| ==> !SamePlace(s[i], s[j])
  }

  lemma {:induction false} InsertKeeps(e: Event, s: seq<Event>)
    ensures multiset(Insert(e, s)) == multiset(s) + multiset{e}
  {
    if s == [] {
    } else {
      InsertKeeps(e, s[1..]);
      ConsMultiset(s[0], Insert(e, s[1..]));
      ConsMultiset(s[0], s[1..]);
      ConsMultiset(e, s);
      assert s == [s[0]] + s[1..];
    }
  }

  lemma {:induction false} InsertIn(e: Event, s: seq<Event>, x: Event)
    requires x in Insert(e, s)
    ensures x == e || x in s
  {
    if s != [] && Earlier(s[0], e) && x != s[0] { InsertIn(e, s[1..], x); }
  }

  lemma ConsSorted(e: Event, s: seq<Event>)
    requires StrictlySorted(s) && forall x :: x in s ==> Earlier(e, x)
    ensures StrictlySorted([e] + s)
  {
    var r := [e] + s;
    forall i, j | 0 <= i < j < |r| ensures Earlier(r[i], r[j]) {
      assert r[j] == s[j - 1];
      if i > 0 { assert r[i] == s[i - 1]; }
    }
  }

  lemma HeadFirst(s: seq<Event>, x: Event)
    requires StrictlySorted(s) && |s| > 0 && x in s[1..]
    ensures Earlier(s[0], x)
  {
    var j :| 0 <= j < |s[1..]| && s[1..][j] == x;
    assert s[j + 1] == x;
  }

  lemma TailSorted(s: seq<Event>)
    requires StrictlySorted(s) && |s| > 0
    ensures StrictlySorted(s[1..])
  {
  }

  lemma {:induction false} InsertSorts(e: Event, s: seq<Event>)
    requires StrictlySorted(s) && forall x :: x in s ==> !SamePlace(x, e)
    ensures StrictlySorted(Insert(e, s))
  {
    if s == [] {
    } else if Earlier(s[0], e) {
      TailSorted(s);
      InsertSorts(e, s[1..]);
      forall x | x in Insert(e, s[1..]) ensures Earlier(s[0], x) {
        InsertIn(e, s[1..], x);
        if x != e { HeadFirst(s, x); }
      }
      ConsSorted(s[0], Insert(e, s[1..]));
    } else {
      forall x | x in s ensures Earlier(e, x) {
        assert s[0] in s;
        if x != s[0] { assert s == [s[0]] + s[1..]; HeadFirst(s, x); }
      }
      ConsSorted(e, s);
    }
  }

  lemma {:induction false} SortKeeps(s: seq<Event>)
    ensures multiset(Sort(s)) == multiset(s)
  {
    if s == [] {
    } else {
      SortKeeps(s[1..]);
      InsertKeeps(s[0], Sort(s[1..]));
      assert s == [s[0]] + s[1..];
    }
  }

  lemma {:induction false} SortSorts(s: seq<Event>)
    requires DistinctPlaces(s)
    ensures StrictlySorted(Sort(s))
  {
    if s == [] {
    } else {
      SortSorts(s[1..]);
      SortKeeps(s[1..]);
      forall x | x in Sort(s[1..]) ensures !SamePlace(x, s[0]) {
        assert x in multiset(Sort(s[1..]));
        var j :| 0 <= j < |s[1..]| && s[1..][j] == x;
        assert s[j + 1] == x;
      }
      InsertSorts(s[0], Sort(s[1..]));
    }
  }

  lemma FirstIsFirst(a: seq<Event>, b: seq<Event>)
    requires StrictlySorted(a) && StrictlySorted(b) && multiset(a) == multiset(b)
    requires |a| > 0 && |b| > 0
    ensures a[0] == b[0]
  {
    assert a[0] in multiset(b) && b[0] in multiset(a);
    var i :| 0 <= i < |b| && b[i] == a[0];
    var j :| 0 <= j < |a| && a[j] == b[0];
  }

  /** A strictly sorted sequence is determined by its events. */
  lemma {:induction false} SortedUnique(a: seq<Event>, b: seq<Event>)
    requires StrictlySorted(a) && StrictlySorted(b) && multiset(a) == multiset(b)
    ensures a == b
  {
    if a == [] {
      assert |multiset(b)| == 0;
    } else {
      assert |multiset(a)| == |multiset(b)|;
      FirstIsFirst(a, b);
      assert a == [a[0]] + a[1..] && b == [b[0]] + b[1..];
      assert multiset(a[1..]) == multiset(a) - multiset{a[0]};
      assert multiset(b[1..]) == multiset(b) - multiset{a[0]};
      SortedUnique(a[1..], b[1..]);
    }
  }

  lemma OnceIn(s: seq<Event>, i: nat)
    requires StrictlySorted(s) && i < |s|
    ensures multiset(s)[s[i]] == 1
  {
    assert s == s[..i] + ([s[i]] + s[i + 1..]);
    assert s[i] !in s[..i] && s[i] !in s[i + 1..];
    assert multiset(s) == multiset(s[..i]) + multiset{s[i]} + multiset(s[i + 1..]);
  }

  lemma {:induction false} PlacesPermute(a: seq<Event>, b: seq<Event>)
    requires multiset(a) == multiset(b) && DistinctPlaces(a)
    ensures DistinctPlaces(b)
  {
    SortKeeps(a);
    SortSorts(a);
    forall i, j | 0 <= i < j < |b| ensures !SamePlace(b[i], b[j]) {
      if SamePlace(b[i], b[j]) {
        var s := Sort(a);
        assert b[i] in multiset(s) && b[j] in multiset(s);
        var x :| 0 <= x < |s| && s[x] == b[i];
        var y :| 0 <= y < |s| && s[y] == b[j];
        assert b[i] == b[j];
        TwiceIn(b, i, j);
        OnceIn(s, x);
      }
    }
  }

  // ---- replay -----------------------------------------------------------------------------

  datatype PerToken = PerToken(lastPrice: real, tradeCount: nat, maxTs: nat)

  datatype State = State(rows: C.Rows, ledger: B.Ledger, perToken: map<string, PerToken>)

  const START: State := State(map[], B.EMPTY, map[])

  function CandleInput(t: TradeRaw): C.Trade {
    C.Trade(t.token, t.price, t.ethAmount, t.tokenAmount, t.block, t.ts, t.log)
  }

  function LedgerOp(e: Event): B.Op {
    match e
    case TransferEvent(x) => B.Transfer(x.token, x.src, x.dst, x.value, x.ts)
    case TradeEvent(t) =>
      if t.isBuy then B.CostBuy(t.token, t.trader, t.tokenAmount, t.ethAmount, t.ts)
      else B.CostSell(t.token, t.trader, t.tokenAmount, t.ethAmount - t.feeEth, t.ts)
  }

  function Count(per: map<string, PerToken>, t: TradeRaw): map<string, PerToken> {
    var pt := if t.token in per then per[t.token] else PerToken(0.0, 0, 0);
    per[t.token := PerToken(t.price, pt.tradeCount + 1, Max(pt.maxTs, t.ts))]
  }

  function Next(s: State, e: Event): State {
    match e
    case TradeEvent(t) => State(C.Applied(s.rows, CandleInput(t)), B.Step(s.ledger, LedgerOp(e)), Count(s.perToken, t))
    case TransferEvent(_) => s.(ledger := B.Step(s.ledger, LedgerOp(e)))
  }

  function Fold(events: seq<Event>): State {
    if |events| == 0 then START else Next(Fold(events[..|events| - 1]), events[|events| - 1])
  }

  predicate InWindow(per: map<string, PerToken>, t: TradeRaw) {
    t.token in per && t.ts >= per[t.token].maxTs - DAY
  }

  function AddVolume(m: map<string, int>, t: TradeRaw): map<string, int> {
    m[t.token := (if t.token in m then m[t.token] else 0) + t.ethAmount]
  }

  function Volume24h(trades: seq<TradeRaw>, per: map<string, PerToken>): map<string, int> {
    if |trades| == 0 then map[]
    else
      var m, t := Volume24h(trades[..|trades| - 1], per), trades[|trades| - 1];
      if InWindow(per, t) then AddVolume(m, t) else m
  }

  datatype Rebuilt = Rebuilt(state: State, volume24h: map<string, int>)

  function Replayed(trades: seq<TradeRaw>, transfers: seq<TransferRaw>): Rebuilt {
    var s := Fold(Sort(Merge(trades, transfers)));
    Rebuilt(s, Volume24h(trades, s.perToken))
  }

  /** One merged event through the mutable engines. */
  method ReplayEvent(e: Event, candles: C.CandleStore, ledger: B.BalanceLedger, before: map<string, PerToken>)
    returns (perToken: map<string, PerToken>)
    modifies candles, ledger
    ensures State(candles.rows, ledger.View(), perToken) == Next(old(State(candles.rows, ledger.View(), before)), e)
  {
    perToken := before;
    match e {
      case TradeEvent(t) =>
        candles.Apply(C.Trade(t.token, t.price, t.ethAmount, t.tokenAmount, t.block, t.ts, t.log));
        if t.isBuy {
          ledger.ApplyCostBasisBuy(t.token, t.trader, t.tokenAmount, t.ethAmount, t.ts);
        } else {
          ledger.ApplyCostBasisSell(t.token, t.trader, t.tokenAmount, t.ethAmount - t.feeEth, t.ts);
        }
        var pt := if t.token in perToken then perToken[t.token] else PerToken(0.0, 0, 0);
        perToken := perToken[t.token := PerToken(t.price, pt.tradeCount + 1, Max(pt.maxTs, t.ts))];
      case TransferEvent(x) =>
        ledger.ApplyTransfer(x.token, x.src, x.dst, x.value, x.ts);
    }
  }

  /** The 24h volume loop, over the trades in the order given. */
  method SumWindow(trades: seq<TradeRaw>, perToken: map<string, PerToken>) returns (volume24h: map<string, int>)
    ensures volume24h == Volume24h(trades, perToken)
  {
    volume24h := map[];
    for i := 0 to |trades|
      invariant volume24h == Volume24h(trades[..i], perToken)
    {
      assert trades[..i + 1][..i] == trades[..i];
      var t := trades[i];
      if t.token in perToken && t.ts >= perToken[t.token].maxTs - DAY {
        var soFar := if t.token in volume24h then volume24h[t.token] else 0;
        volume24h := volume24h[t.token := soFar + t.ethAmount];
      }
    }
    assert trades[..|trades|] == trades;
  }

  method Replay(trades: seq<TradeRaw>, transfers: seq<TransferRaw>)
    returns (candles: C.CandleStore, ledger: B.BalanceLedger, perToken: map<string, PerToken>, volume24h: map<string, int>)
    ensures fresh(candles) && fresh(ledger)
    ensures Rebuilt(State(candles.rows, ledger.View(), perToken), volume24h) == Replayed(trades, transfers)
  {
    var merged := Sort(Merge(trades, transfers));
    candles := new C.CandleStore();
    ledger := new B.BalanceLedger();
    perToken := map[];
    for i := 0 to |merged|
      invariant fresh(candles) && fresh(ledger)
      invariant State(candles.rows, ledger.View(), perToken) == Fold(merged[..i])
    {
      assert merged[..i + 1][..i] == merged[..i];
      perToken := ReplayEvent(merged[i], candles, ledger, perToken);
    }
    assert merged[..|merged|] == merged;
    volume24h := SumWindow(trades, perToken);
  }

  // ---- the order of the inputs does not matter --------------------------------------------

  function WindowEth(per: map<string, PerToken>, token: string): TradeRaw -> int {
    (t: TradeRaw) => if t.token == token && InWindow(per, t) then t.ethAmount else 0
  }

  function WindowCount(per: map<string, PerToken>, token: string): TradeRaw -> int {
    (t: TradeRaw) => if t.token == token && InWindow(per, t) then 1 else 0
  }

  /** The 24h volume of a token is the sum over its trades in the window. */
  lemma {:induction false} VolumeIsSum(trades: seq<TradeRaw>, per: map<string, PerToken>, token: string)
    ensures token in Volume24h(trades, per) <==> SumSeq(trades, WindowCount(per, token)) > 0
    ensures SumSeq(trades, WindowCount(per, token)) >= 0
    ensures (if token in Volume24h(trades, per) then Volume24h(trades, per)[token] else 0)
      == SumSeq(trades, WindowEth(per, token))
  {
    if |trades| == 0 {
    } else {
      VolumeIsSum(trades[..|trades| - 1], per, token);
    }
  }

  lemma VolumeOrderFree(a: seq<TradeRaw>, b: seq<TradeRaw>, per: map<string, PerToken>)
    requires multiset(a) == multiset(b)
    ensures Volume24h(a, per) == Volume24h(b, per)
  {
    var va, vb := Volume24h(a, per), Volume24h(b, per);
    forall token ensures (token in va <==> token in vb) && (token in va ==> va[token] == vb[token]) {
      VolumeIsSum(a, per, token);
      VolumeIsSum(b, per, token);
      SumSeqPermutation(a, b, WindowCount(per, token));
      SumSeqPermutation(a, b, WindowEth(per, token));
    }
  }

  lemma {:induction false} MapMultiset<S, T>(a: seq<S>, f: S -> T, e: T)
    ensures multiset(MapSeq(a, f))[e] == SumSeq(a, (s: S) => if f(s) == e then 1 else 0)
  {
    if |a| == 0 {
    } else {
      var init, last := a[..|a| - 1], a[|a| - 1];
      MapMultiset(init, f, e);
      assert MapSeq(a, f) == MapSeq(init, f) + [f(last)];
    }
  }

  lemma MapPermutes<S, T(!new)>(a: seq<S>, b: seq<S>, f: S -> T)
    requires multiset(a) == multiset(b)
    ensures multiset(MapSeq(a, f)) == multiset(MapSeq(b, f))
  {
    forall e ensures multiset(MapSeq(a, f))[e] == multiset(MapSeq(b, f))[e] {
      MapMultiset(a, f, e);
      MapMultiset(b, f, e);
      SumSeqPermutation(a, b, (s: S) => if f(s) == e then 1 else 0);
    }
  }

  lemma MergePermutes(trades: seq<TradeRaw>, trades': seq<TradeRaw>, transfers: seq<TransferRaw>, transfers': seq<TransferRaw>)
    requires multiset(trades) == multiset(trades') && multiset(transfers) == multiset(transfers')
    ensures multiset(Merge(trades, transfers)) == multiset(Merge(trades', transfers'))
  {
    MapPermutes(trades, trades', AsTrade);
    MapPermutes(transfers, transfers', AsTransfer);
  }

  /** When no two events share a position, the rebuild is the same for every ordering of its inputs. */
  lemma ReplayOrderFree(trades: seq<TradeRaw>, trades': seq<TradeRaw>, transfers: seq<TransferRaw>, transfers': seq<TransferRaw>)
    requires multiset(trades) == multiset(trades') && multiset(transfers) == multiset(transfers')
    requires DistinctPlaces(Merge(trades, transfers))
    ensures Replayed(trades, transfers) == Replayed(trades', transfers')
  {
    var m, m' := Merge(trades, transfers), Merge(trades', transfers');
    MergePermutes(trades, trades', transfers, transfers');
    PlacesPermute(m, m');
    SortSorts(m);
    SortSorts(m');
    SortKeeps(m);
    SortKeeps(m');
    SortedUnique(Sort(m), Sort(m'));
    VolumeOrderFree(trades, trades', Fold(Sort(m)).perToken);
  }

  // ---- the counters and the 24h volume of a token -----------------------------------------

  predicate IsOf(e: Event, token: string) { e.TradeEvent? && e.trade.token == token }

  ghost predicate HasTrade(events: seq<Event>, token: string) { exists e :: e in events && IsOf(e, token) }

  function One(token: string): Event -> int { (e: Event) => if IsOf(e, token) then 1 else 0 }

  /** ts is the greatest time of the token's trades. */
  ghost predicate GreatestTs(events: seq<Event>, token: string, ts: nat) {
    && (exists e :: e in events && IsOf(e, token) && e.trade.ts == ts)
    && forall e :: e in events && IsOf(e, token) ==> e.trade.ts <= ts
  }

  /** price is that of the token's last trade in the sequence. */
  ghost predicate LastPrice(events: seq<Event>, token: string, price: real) {
    exists i :: 0 <= i < |events| && IsOf(events[i], token) && events[i].trade.price == price
      && forall j :: i < j < |events| ==> !IsOf(events[j], token)
  }

  ghost predicate CountersOk(events: seq<Event>, token: string, per: map<string, PerToken>) {
    && (token in per <==> HasTrade(events, token))
    && (token in per ==>
          && per[token].tradeCount == SumSeq(events, One(token))
          && GreatestTs(events, token, per[token].maxTs) && LastPrice(events, token, per[token].lastPrice))
    && (token !in per ==> SumSeq(events, One(token)) == 0)
  }

  lemma OtherEvent(init: seq<Event>, e: Event, token: string, per: map<string, PerToken>)
    requires CountersOk(init, token, per) && !IsOf(e, token)
    ensures CountersOk(init + [e], token, per)
  {
    var events := init + [e];
    assert events[..|events| - 1] == init;
    assert forall x :: x in events && IsOf(x, token) ==> x in init;
    assert forall x :: x in init ==> x in events;
    if token in per {
      var i :| 0 <= i < |init| && IsOf(init[i], token) && init[i].trade.price == per[token].lastPrice
        && forall j :: i < j < |init| ==> !IsOf(init[j], token);
      assert events[i] == init[i];
      assert LastPrice(events, token, per[token].lastPrice);
    }
  }

  lemma OwnEvent(init: seq<Event>, t: TradeRaw, per: map<string, PerToken>)
    requires CountersOk(init, t.token, per)
    ensures CountersOk(init + [TradeEvent(t)], t.token, Count(per, t))
  {
    var e, token := TradeEvent(t), t.token;
    var events := init + [e];
    assert events[..|events| - 1] == init;
    assert events[|events| - 1] == e;
    assert e in events;
    assert forall x :: x in events <==> x in init || x == e;
    assert LastPrice(events, token, t.price);
    if token in per {
      var x :| x in init && IsOf(x, token) && x.trade.ts == per[token].maxTs;
    }
  }

  lemma {:induction false} FoldCounts(events: seq<Event>, token: string)
    ensures CountersOk(events, token, Fold(events).perToken)
  {
    if |events| == 0 {
    } else {
      var init, e := events[..|events| - 1], events[|events| - 1];
      assert events == init + [e];
      FoldCounts(init, token);
      if IsOf(e, token) {
        OwnEvent(init, e.trade, Fold(init).perToken);
      } else {
        OtherEvent(init, e, token, Fold(init).perToken);
      }
    }
  }

  /** The same over the trades given: m is the greatest time of the token's trades. */
  ghost predicate NewestAt(trades: seq<TradeRaw>, token: string, m: nat) {
    && (exists t :: t in trades && t.token == token && t.ts == m)
    && forall t :: t in trades && t.token == token ==> t.ts <= m
  }

  ghost predicate IsTraded(trades: seq<TradeRaw>, token: string) { exists t :: t in trades && t.token == token }

  function EthAfter(token: string, m: nat): TradeRaw -> int {
    (t: TradeRaw) => if t.token == token && t.ts + 86_400 >= m then t.ethAmount else 0
  }

  /** The ETH of the token's trades no more than 24 hours before m. */
  function EthSince(trades: seq<TradeRaw>, token: string, m: nat): int { SumSeq(trades, EthAfter(token, m)) }

  function OfToken(token: string): TradeRaw -> int { (t: TradeRaw) => if t.token == token then 1 else 0 }

  function TradesOf(trades: seq<TradeRaw>, token: string): int { SumSeq(trades, OfToken(token)) }

  /** The events of the sorted merge that are trades are the trades given. */
  lemma SortedTrades(trades: seq<TradeRaw>, transfers: seq<TransferRaw>, t: TradeRaw)
    ensures TradeEvent(t) in Sort(Merge(trades, transfers)) <==> t in trades
  {
    var m := Merge(trades, transfers);
    SortKeeps(m);
    assert TradeEvent(t) in multiset(m) <==> TradeEvent(t) in m;
    assert TradeEvent(t) in multiset(Sort(m)) <==> TradeEvent(t) in Sort(m);
    if t in trades {
      var i :| 0 <= i < |trades| && trades[i] == t;
      assert m[i] == TradeEvent(t);
    }
  }

  function Through<S, T>(f: S -> T, g: T -> int): S -> int { (s: S) => g(f(s)) }

  lemma {:induction false} SumOfMapped<S, T>(a: seq<S>, f: S -> T, g: T -> int)
    ensures SumSeq(MapSeq(a, f), g) == SumSeq(a, Through(f, g))
  {
    if |a| == 0 {
    } else {
      SumOfMapped(a[..|a| - 1], f, g);
      assert MapSeq(a, f)[..|a| - 1] == MapSeq(a[..|a| - 1], f);
    }
  }

  lemma SortedCount(trades: seq<TradeRaw>, transfers: seq<TransferRaw>, token: string)
    ensures SumSeq(Sort(Merge(trades, transfers)), One(token)) == TradesOf(trades, token)
  {
    var a, b := MapSeq(trades, AsTrade), MapSeq(transfers, AsTransfer);
    SortKeeps(a + b);
    SumSeqPermutation(Sort(a + b), a + b, One(token));
    SumSeqConcat(a, b, One(token));
    SumOfZeros(b, One(token));
    SumOfMapped(trades, AsTrade, One(token));
    SumSeqSame(trades, Through(AsTrade, One(token)), OfToken(token));
  }

  /** A rebuild has counters for a token exactly when it has trades: their number and their greatest time. */
  lemma CountersMeaning(trades: seq<TradeRaw>, transfers: seq<TransferRaw>, token: string)
    ensures var per := Replayed(trades, transfers).state.perToken;
      && (token in per <==> IsTraded(trades, token))
      && (token in per ==> per[token].tradeCount == TradesOf(trades, token) && NewestAt(trades, token, per[token].maxTs))
  {
    var s := Sort(Merge(trades, transfers));
    FoldCounts(s, token);
    SortedCount(trades, transfers, token);
    forall t: TradeRaw ensures TradeEvent(t) in s <==> t in trades { SortedTrades(trades, transfers, t); }
    forall e | e in s && IsOf(e, token) ensures e.trade in trades { assert e == TradeEvent(e.trade); }
    if IsTraded(trades, token) {
      var t :| t in trades && t.token == token;
      assert IsOf(TradeEvent(t), token) && TradeEvent(t) in s;
    }
    if token in Fold(s).perToken {
      var e :| e in s && IsOf(e, token) && e.trade.ts == Fold(s).perToken[token].maxTs;
      assert e.trade in trades && e.trade.token == token;
      forall t | t in trades && t.token == token ensures t.ts <= Fold(s).perToken[token].maxTs {
        assert IsOf(TradeEvent(t), token) && TradeEvent(t) in s;
      }
    }
  }

  /** t is the token's last trade by block and log. */
  ghost predicate IsLast(trades: seq<TradeRaw>, token: string, t: TradeRaw) {
    && t in trades && t.token == token
    && forall x :: x in trades && x.token == token && x != t ==> x.block < t.block || (x.block == t.block && x.log < t.log)
  }

  /** With distinct positions the last price is that of the token's last trade. */
  lemma LastPriceMeaning(trades: seq<TradeRaw>, transfers: seq<TransferRaw>, token: string)
    requires DistinctPlaces(Merge(trades, transfers)) && IsTraded(trades, token)
    ensures var per := Replayed(trades, transfers).state.perToken;
      token in per && exists t :: IsLast(trades, token, t) && per[token].lastPrice == t.price
  {
    var s := Sort(Merge(trades, transfers));
    SortSorts(Merge(trades, transfers));
    CountersMeaning(trades, transfers, token);
    FoldCounts(s, token);
    var price := Fold(s).perToken[token].lastPrice;
    var i :| 0 <= i < |s| && IsOf(s[i], token) && s[i].trade.price == price
      && forall j :: i < j < |s| ==> !IsOf(s[j], token);
    var t := s[i].trade;
    assert s[i] == TradeEvent(t);
    SortedTrades(trades, transfers, t);
    forall x | x in trades && x.token == token && x != t
      ensures x.block < t.block || (x.block == t.block && x.log < t.log)
    {
      SortedTrades(trades, transfers, x);
      var j :| 0 <= j < |s| && s[j] == TradeEvent(x);
      assert IsOf(s[j], token) && j != i;
      assert Earlier(s[j], s[i]);
    }
    assert IsLast(trades, token, t);
  }

  lemma WindowIs(trades: seq<TradeRaw>, per: map<string, PerToken>, token: string)
    requires token in per && NewestAt(trades, token, per[token].maxTs)
    ensures SumSeq(trades, WindowEth(per, token)) == EthSince(trades, token, per[token].maxTs)
    ensures SumSeq(trades, WindowCount(per, token)) > 0
  {
    var m := per[token].maxTs;
    SumSeqSame(trades, WindowEth(per, token), EthAfter(token, m));
    var t :| t in trades && t.token == token && t.ts == m;
    CountsAtLeastOne(trades, WindowCount(per, token), t);
  }

  /** A token has a 24h volume exactly when it has a trade: the ETH of its trades that are no more than 86400 seconds
      older than its newest one. */
  lemma VolumeMeaning(trades: seq<TradeRaw>, transfers: seq<TransferRaw>, token: string)
    ensures token in Replayed(trades, transfers).volume24h <==> IsTraded(trades, token)
    ensures forall m: nat :: NewestAt(trades, token, m) ==>
      token in Replayed(trades, transfers).volume24h
      && Replayed(trades, transfers).volume24h[token] == EthSince(trades, token, m)
  {
    var per := Replayed(trades, transfers).state.perToken;
    CountersMeaning(trades, transfers, token);
    VolumeIsSum(trades, per, token);
    if token in per {
      WindowIs(trades, per, token);
      forall m: nat | NewestAt(trades, token, m) ensures m == per[token].maxTs {
        var t :| t in trades && t.token == token && t.ts == m;
        var x :| x in trades && x.token == token && x.ts == per[token].maxTs;
      }
    } else {
      SumOfZeros(trades, WindowCount(per, token));
    }
  }

  // ---- what each stream determines --------------------------------------------------------

  function CandleInputs(events: seq<Event>): seq<C.Trade> {
    if |events| == 0 then []
    else
      var init, e := CandleInputs(events[..|events| - 1]), events[|events| - 1];
      if e.TradeEvent? then init + [CandleInput(e.trade)] else init
  }

  function LedgerOps(events: seq<Event>): seq<B.Op> {
    seq(|events|, i requires 0 <= i < |events| => LedgerOp(events[i]))
  }

  /** The replay is the candle fold of its trades and the ledger run of its operations, so every
      theorem about those engines holds of a rebuild. */
  lemma {:induction false} FoldIsEngines(events: seq<Event>)
    ensures Fold(events).rows == C.Fold(CandleInputs(events))
    ensures Fold(events).ledger == B.Run(LedgerOps(events))
  {
    if |events| == 0 {
    } else {
      var init, e := events[..|events| - 1], events[|events| - 1];
      FoldIsEngines(init);
      assert LedgerOps(events)[..|events| - 1] == LedgerOps(init);
      if e.TradeEvent? {
        assert CandleInputs(events)[..|CandleInputs(events)| - 1] == CandleInputs(init);
      }
    }
  }

  function Only(events: seq<Event>, trades: bool): seq<Event> {
    if |events| == 0 then []
    else
      var init, e := Only(events[..|events| - 1], trades), events[|events| - 1];
      if e.TradeEvent? == trades then init + [e] else init
  }

  lemma {:induction false} OnlyIn(events: seq<Event>, trades: bool, e: Event)
    ensures multiset(Only(events, trades))[e] == if e.TradeEvent? == trades then multiset(events)[e] else 0
  {
    if |events| == 0 {
    } else {
      OnlyIn(events[..|events| - 1], trades, e);
      assert events == events[..|events| - 1] + [events[|events| - 1]];
    }
  }

  lemma {:induction false} OnlySorted(events: seq<Event>, trades: bool)
    requires StrictlySorted(events)
    ensures StrictlySorted(Only(events, trades))
  {
    if |events| == 0 {
    } else {
      var init, last := events[..|events| - 1], events[|events| - 1];
      OnlySorted(init, trades);
      forall x | x in Only(init, trades) ensures Earlier(x, last) {
        OnlyIn(init, trades, x);
        assert x in multiset(Only(init, trades));
        assert x in init;
      }
    }
  }

  /** Dropping the other stream before or after sorting gives the same sequence. */
  lemma OnlyOfSort(events: seq<Event>, part: seq<Event>, trades: bool)
    requires DistinctPlaces(events) && DistinctPlaces(part)
    requires forall e :: multiset(part)[e] == if e.TradeEvent? == trades then multiset(events)[e] else 0
    ensures Only(Sort(events), trades) == Sort(part)
  {
    SortKeeps(events);
    SortKeeps(part);
    SortSorts(events);
    SortSorts(part);
    OnlySorted(Sort(events), trades);
    forall e ensures multiset(Only(Sort(events), trades))[e] == multiset(Sort(part))[e] {
      OnlyIn(Sort(events), trades, e);
    }
    SortedUnique(Only(Sort(events), trades), Sort(part));
  }

  lemma {:induction false} InputsOfOnly(events: seq<Event>)
    ensures CandleInputs(Only(events, true)) == CandleInputs(events)
  {
    if |events| == 0 {
    } else {
      InputsOfOnly(events[..|events| - 1]);
      var o := Only(events, true);
      if events[|events| - 1].TradeEvent? { assert o[..|o| - 1] == Only(events[..|events| - 1], true); }
    }
  }

  lemma {:induction false} OpsOfOnly(events: seq<Event>)
    ensures B.Transfers(LedgerOps(Only(events, false))) == B.Transfers(LedgerOps(events))
  {
    if |events| == 0 {
    } else {
      var init := events[..|events| - 1];
      OpsOfOnly(init);
      assert LedgerOps(events)[..|init|] == LedgerOps(init);
      var o := Only(events, false);
      if !events[|events| - 1].TradeEvent? { assert LedgerOps(o)[..|o| - 1] == LedgerOps(Only(init, false)); }
    }
  }

  lemma PartsDistinct(a: seq<Event>, b: seq<Event>)
    requires DistinctPlaces(a + b)
    ensures DistinctPlaces(a) && DistinctPlaces(b)
  {
    var m := a + b;
    forall i, j | 0 <= i < j < |a| ensures !SamePlace(a[i], a[j]) { assert !SamePlace(m[i], m[j]); }
    forall i, j | 0 <= i < j < |b| ensures !SamePlace(b[i], b[j]) { assert !SamePlace(m[|a| + i], m[|a| + j]); }
  }

  lemma MergeParts(trades: seq<TradeRaw>, transfers: seq<TransferRaw>)
    requires DistinctPlaces(Merge(trades, transfers))
    ensures DistinctPlaces(Merge(trades, [])) && DistinctPlaces(Merge([], transfers))
    ensures forall e :: multiset(Merge(trades, []))[e] == if e.TradeEvent? then multiset(Merge(trades, transfers))[e] else 0
    ensures forall e :: multiset(Merge([], transfers))[e] == if !e.TradeEvent? then multiset(Merge(trades, transfers))[e] else 0
  {
    var m, a, b := Merge(trades, transfers), Merge(trades, []), Merge([], transfers);
    assert a == MapSeq(trades, AsTrade) && b == MapSeq(transfers, AsTransfer);
    assert m == a + b;
    PartsDistinct(a, b);
    forall e: Event ensures (e.TradeEvent? ==> multiset(b)[e] == 0) && (!e.TradeEvent? ==> multiset(a)[e] == 0) {
      assert e in b ==> !e.TradeEvent?;
      assert e in a ==> e.TradeEvent?;
    }
  }

  lemma {:induction false} OnlyTwice(m: seq<Event>, trades: bool)
    ensures Only(Only(m, trades), trades) == Only(m, trades)
  {
    if |m| == 0 {
    } else {
      OnlyTwice(m[..|m| - 1], trades);
      var o := Only(m, trades);
      if m[|m| - 1].TradeEvent? == trades { assert o[..|o| - 1] == Only(m[..|m| - 1], trades); }
    }
  }

  lemma TradesDetermineRows(m: seq<Event>, a: seq<Event>)
    requires Only(m, true) == a
    ensures Fold(m).rows == Fold(a).rows
  {
    FoldIsEngines(m);
    FoldIsEngines(a);
    InputsOfOnly(m);
    assert Only(a, true) == a by { OnlyTwice(m, true); }
    InputsOfOnly(a);
  }

  lemma TransfersDetermineBalances(m: seq<Event>, b: seq<Event>, t: string)
    requires Only(m, false) == b
    ensures forall h :: B.Balance(Fold(m).ledger, t, h) == B.Balance(Fold(b).ledger, t, h)
    ensures B.HolderCount(Fold(m).ledger, t) == B.HolderCount(Fold(b).ledger, t)
  {
    FoldIsEngines(m);
    FoldIsEngines(b);
    OpsOfOnly(m);
    B.OnlyTransfersMatter(LedgerOps(m), LedgerOps(b), t);
  }

  /** The candles of a rebuild are those of its trades alone, and its balances and holder counts
      those of its transfers alone. */
  lemma StreamsDetermine(trades: seq<TradeRaw>, transfers: seq<TransferRaw>, t: string)
    requires DistinctPlaces(Merge(trades, transfers))
    ensures Replayed(trades, transfers).state.rows == Replayed(trades, []).state.rows
    ensures var l, l' := Replayed(trades, transfers).state.ledger, Replayed([], transfers).state.ledger;
      (forall h :: B.Balance(l, t, h) == B.Balance(l', t, h)) && B.HolderCount(l, t) == B.HolderCount(l', t)
  {
    var m, a, b := Merge(trades, transfers), Merge(trades, []), Merge([], transfers);
    MergeParts(trades, transfers);
    OnlyOfSort(m, a, true);
    OnlyOfSort(m, b, false);
    TradesDetermineRows(Sort(m), Sort(a));
    TransfersDetermineBalances(Sort(m), Sort(b), t);
  }

  // ---- the live store ---------------------------------------------------------------------

  lemma {:induction false} InputsIn(events: seq<Event>, t: C.Trade)
    ensures t in CandleInputs(events) <==>
      exists i :: 0 <= i < |events| && events[i].TradeEvent? && CandleInput(events[i].trade) == t
  {
    if |events| == 0 {
    } else {
      var init, e := events[..|events| - 1], events[|events| - 1];
      InputsIn(init, t);
      forall i | 0 <= i < |init| ensures init[i] == events[i] { }
      if e.TradeEvent? && CandleInput(e.trade) == t { assert events[|events| - 1] == e; }
    }
  }

  lemma {:induction false} InputsInOrder(events: seq<Event>)
    requires StrictlySorted(events)
    ensures C.InOrder(CandleInputs(events))
  {
    if |events| == 0 {
    } else {
      var init, e := events[..|events| - 1], events[|events| - 1];
      InputsInOrder(init);
      if e.TradeEvent? {
        forall x | x in CandleInputs(init) ensures C.Before(x, CandleInput(e.trade)) {
          InputsIn(init, x);
          var i :| 0 <= i < |init| && init[i].TradeEvent? && CandleInput(init[i].trade) == x;
          assert Earlier(events[i], e);
        }
      }
    }
  }

  /** The candle inputs of the sorted merge are those of the trades. */
  lemma SortedInputsIn(trades: seq<TradeRaw>, transfers: seq<TransferRaw>, t: C.Trade)
    ensures t in CandleInputs(Sort(Merge(trades, transfers))) <==>
      exists i :: 0 <= i < |trades| && CandleInput(trades[i]) == t
  {
    var m := Merge(trades, transfers);
    var s := Sort(m);
    SortKeeps(m);
    InputsIn(s, t);
    if t in CandleInputs(s) {
      var i :| 0 <= i < |s| && s[i].TradeEvent? && CandleInput(s[i].trade) == t;
      assert s[i] in multiset(m);
      var j :| 0 <= j < |m| && m[j] == s[i];
      assert j < |trades|;
    }
    if i :| 0 <= i < |trades| && CandleInput(trades[i]) == t {
      assert m[i] == AsTrade(trades[i]);
      assert m[i] in multiset(s);
      var j :| 0 <= j < |s| && s[j] == m[i];
    }
  }

  /** The engines fed live, each event once and in order, have the state of a rebuild. */
  lemma LiveStateIsReplayed(live: seq<Event>, trades: seq<TradeRaw>, transfers: seq<TransferRaw>)
    requires StrictlySorted(live) && multiset(live) == multiset(Merge(trades, transfers))
    ensures Fold(live) == Replayed(trades, transfers).state
  {
    var m := Merge(trades, transfers);
    assert DistinctPlaces(live);
    PlacesPermute(live, m);
    SortSorts(m);
    SortKeeps(m);
    SortedUnique(Sort(m), live);
  }

  /** The rows of a live stream, with re-deliveries, are those of a rebuild from its distinct trades. */
  lemma LiveRowsAreReplayed(live: seq<TradeRaw>, trades: seq<TradeRaw>, transfers: seq<TransferRaw>)
    requires C.Mixed(MapSeq(live, CandleInput)) && forall t :: t in trades <==> t in live
    requires DistinctPlaces(Merge(trades, transfers))
    ensures C.Fold(MapSeq(live, CandleInput)) == Replayed(trades, transfers).state.rows
  {
    var inputs, s := MapSeq(live, CandleInput), Sort(Merge(trades, transfers));
    SortSorts(Merge(trades, transfers));
    FoldIsEngines(s);
    InputsInOrder(s);
    C.NewOnesInOrder(inputs);
    forall t ensures t in CandleInputs(s) <==> t in C.NewOnes(inputs) {
      SortedInputsIn(trades, transfers, t);
      C.NewOnesIn(inputs, t);
      if i :| 0 <= i < |trades| && CandleInput(trades[i]) == t {
        assert trades[i] in live;
        var j :| 0 <= j < |live| && live[j] == trades[i];
        assert inputs[j] == t;
      }
      if t in inputs {
        var j :| 0 <= j < |live| && inputs[j] == t;
        assert live[j] in trades;
        var i :| 0 <= i < |trades| && trades[i] == live[j];
      }
    }
    C.InOrderUnique(CandleInputs(s), C.NewOnes(inputs));
    C.RedeliveryIsIdempotent(inputs);
  }

  // ---- the cost basis of a rebuild --------------------------------------------------------

  /** What a trade adds to a column: buys at the gross amount, sales net of the fee. */
  function TradeAdds(column: B.Column, token: string, trader: string): TradeRaw -> int {
    (t: TradeRaw) =>
      if t.token != token || t.trader != trader then 0
      else match column
        case TotalBought => if t.isBuy then t.tokenAmount else 0
        case TotalSold => if t.isBuy then 0 else t.tokenAmount
        case EthIn => if t.isBuy then t.ethAmount else 0
        case EthOut => if t.isBuy then 0 else t.ethAmount - t.feeEth
  }

  function OpAdds(column: B.Column, token: string, trader: string): Event -> int {
    Through(LedgerOp, B.AddsTo(column, token, trader))
  }

  lemma OpAddsIs(column: B.Column, token: string, trader: string, e: Event)
    ensures OpAdds(column, token, trader)(e) ==
      if B.IsCostOf(LedgerOp(e), token, trader) then column.Adds(LedgerOp(e)) else 0
  {
    assert OpAdds(column, token, trader)(e) == B.AddsTo(column, token, trader)(LedgerOp(e));
  }

  lemma FoldCost(events: seq<Event>, column: B.Column, token: string, trader: string)
    ensures B.CostOf(Fold(events).ledger, column, token, trader) == SumSeq(events, OpAdds(column, token, trader))
  {
    FoldIsEngines(events);
    B.CostBasisIsSum(LedgerOps(events), column, token, trader);
    assert LedgerOps(events) == MapSeq(events, LedgerOp);
    SumOfMapped(events, LedgerOp, B.AddsTo(column, token, trader));
  }

  lemma TradesCost(trades: seq<TradeRaw>, column: B.Column, token: string, trader: string)
    requires !IsZeroAddress(trader)
    ensures SumSeq(MapSeq(trades, AsTrade), OpAdds(column, token, trader)) == SumSeq(trades, TradeAdds(column, token, trader))
  {
    SumOfMapped(trades, AsTrade, OpAdds(column, token, trader));
    forall t: TradeRaw
      ensures Through(AsTrade, OpAdds(column, token, trader))(t) == TradeAdds(column, token, trader)(t)
    {
      assert Through(AsTrade, OpAdds(column, token, trader))(t) == OpAdds(column, token, trader)(AsTrade(t));
      OpAddsIs(column, token, trader, AsTrade(t));
    }
    SumSeqSame(trades, Through(AsTrade, OpAdds(column, token, trader)), TradeAdds(column, token, trader));
  }

  lemma TransfersCost(transfers: seq<TransferRaw>, column: B.Column, token: string, trader: string)
    ensures SumSeq(MapSeq(transfers, AsTransfer), OpAdds(column, token, trader)) == 0
  {
    var b, f := MapSeq(transfers, AsTransfer), OpAdds(column, token, trader);
    forall e | e in b ensures f(e) == 0 {
      var i :| 0 <= i < |b| && b[i] == e;
      assert e == AsTransfer(transfers[i]);
      OpAddsIs(column, token, trader, e);
    }
    SumOfZeros(b, f);
  }

  /** The cost columns of a rebuild are sums over the trades given, in whatever order. */
  lemma RebuiltCostBasis(trades: seq<TradeRaw>, transfers: seq<TransferRaw>, column: B.Column, token: string, trader: string)
    requires !IsZeroAddress(trader)
    ensures B.CostOf(Replayed(trades, transfers).state.ledger, column, token, trader)
         == SumSeq(trades, TradeAdds(column, token, trader))
  {
    var m, f := Merge(trades, transfers), OpAdds(column, token, trader);
    FoldCost(Sort(m), column, token, trader);
    SortKeeps(m);
    SumSeqPermutation(Sort(m), m, f);
    SumSeqConcat(MapSeq(trades, AsTrade), MapSeq(transfers, AsTransfer), f);
    TradesCost(trades, column, token, trader);
    TransfersCost(transfers, column, token, trader);
  }
}
