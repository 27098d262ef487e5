/**
 * The candle engine: one trade updates its bucket at each of the six intervals, and a trade at
 * or behind a bucket's high-water position is skipped.
 */
module Candles {
  import opened Numeric
  import opened Sums

  datatype Interval = S1 | S15 | M1 | M5 | M15 | H1

  const INTERVALS: seq<Interval> := [S1, S15, M1, M5, M15, H1]

  function Seconds(i: Interval): (s: nat)
    ensures s > 0
  {
    match i
    case S1 => 1
    case S15 => 15
    case M1 => 60
    case M5 => 300
    case M15 => 900
    case H1 => 3600
  }

  /** Floor of a timestamp to the start of its bucket. */
  function BucketStart(ts: nat, i: Interval): nat { ts / Seconds(i) * Seconds(i) }

  datatype Trade = Trade(token: string, price: real, volumeEth: int, volumeToken: int, block: nat, ts: nat, log: nat)

  datatype Key = Key(token: string, interval: Interval, start: nat)

  datatype Ohlc = Ohlc(open: real, high: real, low: real, close: real, volumeEth: int, volumeToken: int, count: nat,
    lastBlock: nat, lastLog: nat)

  datatype Candle = Candle(key: Key, ohlc: Ohlc)

  type Rows = map<Key, Candle>

  /** Whether position (aBlock, aLog) is at or before (bBlock, bLog). */
  predicate PositionLte(aBlock: nat, aLog: nat, bBlock: nat, bLog: nat) {
    if aBlock != bBlock then aBlock < bBlock else aLog <= bLog
  }

  function MaxReal(a: real, b: real): real { if a < b then b else a }

  function MinReal(a: real, b: real): real { if a < b then a else b }

  function FirstTrade(t: Trade): Ohlc {
    Ohlc(t.price, t.price, t.price, t.price, t.volumeEth, t.volumeToken, 1, t.block, t.log)
  }

  function ApplyTrade(existing: Option<Candle>, i: Interval, t: Trade): Candle {
    match existing
    case None => Candle(Key(t.token, i, BucketStart(t.ts, i)), FirstTrade(t))
    case Some(c) =>
      if PositionLte(t.block, t.log, c.ohlc.lastBlock, c.ohlc.lastLog) then c
      else c.(ohlc := c.ohlc.(
        high := MaxReal(c.ohlc.high, t.price), low := MinReal(c.ohlc.low, t.price), close := t.price,
        volumeEth := c.ohlc.volumeEth + t.volumeEth, volumeToken := c.ohlc.volumeToken + t.volumeToken,
        count := c.ohlc.count + 1, lastBlock := t.block, lastLog := t.log))
  }

  function KeyOf(t: Trade, i: Interval): Key { Key(t.token, i, BucketStart(t.ts, i)) }

  function Get(rows: Rows, k: Key): Option<Candle> { if k in rows then Some(rows[k]) else None }

  function ApplyAt(rows: Rows, t: Trade, i: Interval): Rows {
    rows[KeyOf(t, i) := ApplyTrade(Get(rows, KeyOf(t, i)), i, t)]
  }

  /** The first n intervals applied. */
  function ApplyIntervals(rows: Rows, t: Trade, n: nat): Rows
    requires n <= |INTERVALS|
  {
    if n == 0 then rows else ApplyAt(ApplyIntervals(rows, t, n - 1), t, INTERVALS[n - 1])
  }

  function Applied(rows: Rows, t: Trade): Rows { ApplyIntervals(rows, t, |INTERVALS|) }

  function Fold(trades: seq<Trade>): Rows {
    if |trades| == 0 then map[] else Applied(Fold(trades[..|trades| - 1]), trades[|trades| - 1])
  }

  /** The store: a keyed map of rows, updated in place. */
  class CandleStore {
    var rows: Rows

    constructor ()
      ensures rows == map[]
    {
      rows := map[];
    }

    method Apply(t: Trade)
      modifies this
      ensures rows == Applied(old(rows), t)
    {
      for n := 0 to |INTERVALS|
        invariant rows == ApplyIntervals(old(rows), t, n)
      {
        var i := INTERVALS[n];
        var k := Key(t.token, i, BucketStart(t.ts, i));
        var existing := if k in rows then Some(rows[k]) else None;
        rows := rows[k := ApplyTrade(existing, i, t)];
      }
    }
  }

  // ---- one bucket at a time ---------------------------------------------------------------

  predicate Touches(t: Trade, k: Key) { k == KeyOf(t, k.interval) }

  function Index(i: Interval): (n: nat)
    ensures n < |INTERVALS| && INTERVALS[n] == i
  {
    match i case S1 => 0 case S15 => 1 case M1 => 2 case M5 => 3 case M15 => 4 case H1 => 5
  }

  lemma {:induction false} IntervalsAt(rows: Rows, t: Trade, n: nat, k: Key)
    requires n <= |INTERVALS|
    ensures Get(ApplyIntervals(rows, t, n), k) ==
      if Index(k.interval) < n && Touches(t, k) then Some(ApplyTrade(Get(rows, k), k.interval, t)) else Get(rows, k)
  {
    if n == 0 {
    } else {
      IntervalsAt(rows, t, n - 1, k);
      assert Index(INTERVALS[n - 1]) == n - 1;
    }
  }

  /** A trade changes exactly the bucket it falls in at each interval. */
  lemma ApplyAtKey(rows: Rows, t: Trade, k: Key)
    ensures Get(Applied(rows, t), k) == if Touches(t, k) then Some(ApplyTrade(Get(rows, k), k.interval, t)) else Get(rows, k)
  {
    IntervalsAt(rows, t, |INTERVALS|, k);
  }

  predicate Before(a: Trade, b: Trade) { !PositionLte(b.block, b.log, a.block, a.log) }

  /** Strictly increasing positions. */
  ghost predicate InOrder(trades: seq<Trade>) {
    forall i, j :: 0 <= i < j < |trades| ==> Before(trades[i], trades[j])
  }

  /** The trades of a token with lo <= ts < hi. */
  function Between(trades: seq<Trade>, token: string, lo: nat, hi: nat): seq<Trade> {
    if |trades| == 0 then []
    else
      var init, t := Between(trades[..|trades| - 1], token, lo, hi), trades[|trades| - 1];
      if t.token == token && lo <= t.ts < hi then init + [t] else init
  }

  function InBucket(trades: seq<Trade>, k: Key): seq<Trade> {
    Between(trades, k.token, k.start, k.start + Seconds(k.interval))
  }

  /** x is a whole number of buckets. */
  predicate Multiple(x: nat, i: Interval) { x % Seconds(i) == 0 }

  predicate Aligned(k: Key) { Multiple(k.start, k.interval) }

  /** The bucket of ts is the only multiple within one width below it. */
  lemma FloorUnique(ts: nat, start: nat, s: nat)
    requires s > 0 && start % s == 0
    ensures ts / s * s == start <==> start <= ts < start + s
  {
    FloorBounds(ts, s);
    FloorBounds(start, s);
    if start <= ts < start + s { FloorIs(ts, s, start / s); }
  }

  lemma TouchesIsRange(t: Trade, k: Key)
    requires Aligned(k)
    ensures Touches(t, k) <==> t.token == k.token && k.start <= t.ts < k.start + Seconds(k.interval)
  {
    FloorUnique(t.ts, k.start, Seconds(k.interval));
  }

  lemma MultipleOf(q: int, s: nat)
    requires s > 0
    ensures q * s % s == 0
  {
    FloorIs(q * s, s, q);
  }

  lemma KeysAligned(t: Trade, i: Interval)
    ensures Aligned(KeyOf(t, i))
  {
    MultipleOf(t.ts / Seconds(i), Seconds(i));
  }

  // ---- what a bucket holds ----------------------------------------------------------------

  function MaxPrice(b: seq<Trade>): real
    requires |b| > 0
  {
    if |b| == 1 then b[0].price else MaxReal(MaxPrice(b[..|b| - 1]), b[|b| - 1].price)
  }

  function MinPrice(b: seq<Trade>): real
    requires |b| > 0
  {
    if |b| == 1 then b[0].price else MinReal(MinPrice(b[..|b| - 1]), b[|b| - 1].price)
  }

  lemma {:induction false} PriceExtremes(b: seq<Trade>)
    requires |b| > 0
    ensures (exists i :: 0 <= i < |b| && b[i].price == MaxPrice(b)) && forall i :: 0 <= i < |b| ==> b[i].price <= MaxPrice(b)
    ensures (exists i :: 0 <= i < |b| && b[i].price == MinPrice(b)) && forall i :: 0 <= i < |b| ==> MinPrice(b) <= b[i].price
  {
    if |b| == 1 {
      assert b[0].price == MaxPrice(b) == MinPrice(b);
    } else {
      var init := b[..|b| - 1];
      PriceExtremes(init);
      var i :| 0 <= i < |init| && init[i].price == MaxPrice(init);
      var j :| 0 <= j < |init| && init[j].price == MinPrice(init);
      assert b[i] == init[i] && b[j] == init[j];
      forall x | 0 <= x < |b| ensures MinPrice(b) <= b[x].price <= MaxPrice(b) {
        if x < |b| - 1 { assert b[x] == init[x]; }
      }
    }
  }

  function EthOf(t: Trade): int { t.volumeEth }

  function TokenOf(t: Trade): int { t.volumeToken }

  function SumEth(b: seq<Trade>): int { SumSeq(b, EthOf) }

  function SumToken(b: seq<Trade>): int { SumSeq(b, TokenOf) }

  /** The declarative candle of the trades in one bucket. */
  function Summary(b: seq<Trade>): Option<Ohlc> {
    if |b| == 0 then None
    else
      var last := b[|b| - 1];
      Some(Ohlc(b[0].price, MaxPrice(b), MinPrice(b), last.price, SumEth(b), SumToken(b), |b|, last.block, last.log))
  }

  function BodyOf(c: Option<Candle>): Option<Ohlc> {
    match c case None => None case Some(x) => Some(x.ohlc)
  }

  lemma SumOne(t: Trade)
    ensures SumSeq([t], EthOf) == t.volumeEth && SumSeq([t], TokenOf) == t.volumeToken
  {
    assert [t][..0] == [];
  }

  lemma SummaryStep(b: seq<Trade>, t: Trade, c: Option<Candle>, i: Interval)
    requires BodyOf(c) == Summary(b)
    requires |b| > 0 ==> Before(b[|b| - 1], t)
    ensures Summary(b + [t]) == Some(ApplyTrade(c, i, t).ohlc)
  {
    assert (b + [t])[..|b|] == b;
    SumSeqConcat(b, [t], EthOf);
    SumSeqConcat(b, [t], TokenOf);
    SumOne(t);
  }

  lemma {:induction false} BetweenIn(trades: seq<Trade>, token: string, lo: nat, hi: nat)
    ensures forall t :: t in Between(trades, token, lo, hi) <==> t in trades && t.token == token && lo <= t.ts < hi
  {
    if |trades| == 0 {
    } else {
      BetweenIn(trades[..|trades| - 1], token, lo, hi);
      assert trades == trades[..|trades| - 1] + [trades[|trades| - 1]];
    }
  }

  /** In an in-order stream every row of the store is the declarative candle of its bucket, and
      every bucket with a trade has a row. */
  lemma {:induction false} FoldIsSummary(trades: seq<Trade>, k: Key)
    requires InOrder(trades)
    ensures Aligned(k) ==> BodyOf(Get(Fold(trades), k)) == Summary(InBucket(trades, k))
    ensures Get(Fold(trades), k).Some? ==> Aligned(k) && Fold(trades)[k].key == k
  {
    var n := |trades|;
    if n == 0 {
    } else {
      var init, t := trades[..n - 1], trades[n - 1];
      FoldIsSummary(init, k);
      ApplyAtKey(Fold(init), t, k);
      KeysAligned(t, k.interval);
      if Aligned(k) {
        TouchesIsRange(t, k);
        var b := InBucket(init, k);
        BetweenIn(init, k.token, k.start, k.start + Seconds(k.interval));
        if |b| > 0 { assert b[|b| - 1] in init; }
        SummaryStep(b, t, Get(Fold(init), k), k.interval);
      }
    }
  }

  lemma LastIsLast(a: seq<Trade>, t: Trade)
    requires InOrder(a) && t in a
    ensures t == a[|a| - 1] <==> t !in a[..|a| - 1]
    ensures t != a[|a| - 1] ==> Before(t, a[|a| - 1])
  {
    var i :| 0 <= i < |a| && a[i] == t;
    if i < |a| - 1 { assert a[..|a| - 1][i] == t; }
    if t in a[..|a| - 1] {
      var j :| 0 <= j < |a| - 1 && a[j] == t;
      assert Before(a[j], a[|a| - 1]);
    }
  }

  /** An in-order stream is determined by its trades. */
  lemma {:induction false} InOrderUnique(a: seq<Trade>, b: seq<Trade>)
    requires InOrder(a) && InOrder(b) && forall t :: t in a <==> t in b
    ensures a == b
  {
    assert |b| > 0 ==> b[0] in b;
    if |a| == 0 {
    } else {
      var init, last := a[..|a| - 1], a[|a| - 1];
      assert last in b;
      var init', last' := b[..|b| - 1], b[|b| - 1];
      assert last' in a;
      LastIsLast(a, last');
      LastIsLast(b, last);
      assert a == init + [last] && b == init' + [last'];
      forall t ensures t in init <==> t in init' {
        if t in a { LastIsLast(a, t); LastIsLast(b, t); }
      }
      InOrderUnique(init, init');
    }
  }

  // ---- re-delivery ------------------------------------------------------------------------

  /** Each event is a new trade past all earlier ones, or one already delivered. */
  ghost predicate Mixed(events: seq<Trade>) {
    forall i :: 0 <= i < |events| ==>
      events[i] in events[..i] || forall j :: 0 <= j < i ==> Before(events[j], events[i])
  }

  /** First deliveries only. */
  function NewOnes(events: seq<Trade>): seq<Trade> {
    if |events| == 0 then []
    else
      var init, t := events[..|events| - 1], events[|events| - 1];
      if t in init then NewOnes(init) else NewOnes(init) + [t]
  }

  lemma {:induction false} NewOnesIn(events: seq<Trade>, t: Trade)
    ensures t in NewOnes(events) <==> t in events
  {
    if |events| == 0 {
    } else {
      NewOnesIn(events[..|events| - 1], t);
      assert events == events[..|events| - 1] + [events[|events| - 1]];
    }
  }

  lemma MixedPrefix(events: seq<Trade>)
    requires |events| > 0 && Mixed(events)
    ensures Mixed(events[..|events| - 1])
  {
    var init := events[..|events| - 1];
    forall i | 0 <= i < |init|
      ensures init[i] in init[..i] || forall j :: 0 <= j < i ==> Before(init[j], init[i])
    {
      assert init[..i] == events[..i];
    }
  }

  lemma {:induction false} NewOnesInOrder(events: seq<Trade>)
    requires Mixed(events)
    ensures InOrder(NewOnes(events))
  {
    if |events| == 0 {
    } else {
      var init, t := events[..|events| - 1], events[|events| - 1];
      MixedPrefix(events);
      NewOnesInOrder(init);
      if t !in init {
        forall i | 0 <= i < |NewOnes(init)| ensures Before(NewOnes(init)[i], t) {
          NewOnesIn(init, NewOnes(init)[i]);
          var j :| 0 <= j < |init| && init[j] == NewOnes(init)[i];
          assert events[j] == init[j];
        }
      }
    }
  }

  /** A delivered trade is at or behind the high-water mark of every bucket it falls in. */
  lemma {:induction false} HighWater(trades: seq<Trade>, t: Trade, k: Key)
    requires t in trades && Touches(t, k)
    ensures k in Fold(trades)
    ensures PositionLte(t.block, t.log, Fold(trades)[k].ohlc.lastBlock, Fold(trades)[k].ohlc.lastLog)
  {
    var init, last := trades[..|trades| - 1], trades[|trades| - 1];
    assert trades == init + [last];
    ApplyAtKey(Fold(init), last, k);
    if t in init { HighWater(init, t, k); }
  }

  lemma SameRows(a: Rows, b: Rows)
    requires forall k :: Get(a, k) == Get(b, k)
    ensures a == b
  {
    forall k ensures (k in a <==> k in b) && (k in a ==> a[k] == b[k]) { assert Get(a, k) == Get(b, k); }
  }

  /** Re-applying a delivered trade changes nothing. */
  lemma ReapplyIsNoOp(trades: seq<Trade>, t: Trade)
    requires t in trades
    ensures Applied(Fold(trades), t) == Fold(trades)
  {
    var rows := Fold(trades);
    forall k ensures Get(Applied(rows, t), k) == Get(rows, k) {
      ApplyAtKey(rows, t, k);
      if Touches(t, k) { HighWater(trades, t, k); }
    }
    SameRows(Applied(rows, t), rows);
  }

  /** A stream of new trades and re-deliveries leaves the store of the new trades alone. */
  lemma {:induction false} RedeliveryIsIdempotent(events: seq<Trade>)
    requires Mixed(events)
    ensures Fold(events) == Fold(NewOnes(events))
  {
    if |events| == 0 {
    } else {
      var init, t := events[..|events| - 1], events[|events| - 1];
      MixedPrefix(events);
      RedeliveryIsIdempotent(init);
      if t in init {
        ReapplyIsNoOp(init, t);
      } else {
        assert NewOnes(events)[..|NewOnes(events)| - 1] == NewOnes(init);
      }
    }
  }

  /** So after any such stream every row is the declarative candle of the distinct trades. */
  lemma StoreAfterRedelivery(events: seq<Trade>, k: Key)
    requires Mixed(events) && Aligned(k)
    ensures BodyOf(Get(Fold(events), k)) == Summary(InBucket(NewOnes(events), k))
  {
    RedeliveryIsIdempotent(events);
    NewOnesInOrder(events);
    FoldIsSummary(NewOnes(events), k);
  }

  // ---- any stream -------------------------------------------------------------------------

  /** t falls in the bucket and is ahead of every earlier trade in it. */
  predicate Leads(earlier: seq<Trade>, t: Trade, k: Key) {
    Touches(t, k) && forall x :: x in earlier && Touches(x, k) ==> Before(x, t)
  }

  function Leaders(trades: seq<Trade>, k: Key): seq<Trade> {
    if |trades| == 0 then []
    else
      var init, t := trades[..|trades| - 1], trades[|trades| - 1];
      if Leads(init, t, k) then Leaders(init, k) + [t] else Leaders(init, k)
  }

  lemma {:induction false} LeadersIn(trades: seq<Trade>, k: Key, t: Trade)
    requires t in Leaders(trades, k)
    ensures t in trades && Touches(t, k)
  {
    var init, last := trades[..|trades| - 1], trades[|trades| - 1];
    if t == last && Leads(init, last, k) {
    } else {
      LeadersIn(init, k, t);
      assert trades == init + [last];
    }
  }

  /** A trade that does not lead its bucket finds a row at or past it. */
  lemma LateIsSkipped(trades: seq<Trade>, t: Trade, k: Key)
    requires Touches(t, k) && !Leads(trades, t, k)
    ensures k in Fold(trades) && PositionLte(t.block, t.log, Fold(trades)[k].ohlc.lastBlock, Fold(trades)[k].ohlc.lastLog)
  {
    var x :| x in trades && Touches(x, k) && !Before(x, t);
    HighWater(trades, x, k);
  }

  /** Whatever the stream, every row is the declarative candle of the trades that led its bucket when they came. */
  lemma {:induction false} FoldIsLeaders(trades: seq<Trade>, k: Key)
    ensures BodyOf(Get(Fold(trades), k)) == Summary(Leaders(trades, k))
  {
    if |trades| == 0 {
    } else {
      var init, t := trades[..|trades| - 1], trades[|trades| - 1];
      FoldIsLeaders(init, k);
      ApplyAtKey(Fold(init), t, k);
      var b := Leaders(init, k);
      if Leads(init, t, k) {
        if |b| > 0 { LeadersIn(init, k, b[|b| - 1]); }
        SummaryStep(b, t, Get(Fold(init), k), k.interval);
      } else if Touches(t, k) {
        LateIsSkipped(init, t, k);
      }
    }
  }

  // ---- coarse candles from fine ones ------------------------------------------------------

  function Merge(a: Ohlc, b: Ohlc): Ohlc {
    Ohlc(a.open, MaxReal(a.high, b.high), MinReal(a.low, b.low), b.close, a.volumeEth + b.volumeEth,
      a.volumeToken + b.volumeToken, a.count + b.count, b.lastBlock, b.lastLog)
  }

  function Combine(a: Option<Ohlc>, b: Option<Ohlc>): Option<Ohlc> {
    match (a, b)
    case (None, _) => b
    case (_, None) => a
    case (Some(x), Some(y)) => Some(Merge(x, y))
  }

  lemma {:induction false} ExtremesConcat(a: seq<Trade>, b: seq<Trade>)
    requires |a| > 0 && |b| > 0
    ensures MaxPrice(a + b) == MaxReal(MaxPrice(a), MaxPrice(b))
    ensures MinPrice(a + b) == MinReal(MinPrice(a), MinPrice(b))
  {
    var ab := a + b;
    assert ab[..|ab| - 1] == a + b[..|b| - 1];
    if |b| == 1 {
      assert a + b[..0] == a;
    } else {
      ExtremesConcat(a, b[..|b| - 1]);
    }
  }

  lemma SummaryConcat(a: seq<Trade>, b: seq<Trade>)
    ensures Summary(a + b) == Combine(Summary(a), Summary(b))
  {
    SumSeqConcat(a, b, EthOf);
    SumSeqConcat(a, b, TokenOf);
    if a == [] {
      assert a + b == b;
    } else if b == [] {
      assert a + b == a;
    } else {
      ExtremesConcat(a, b);
    }
  }

  ghost predicate TimesRise(trades: seq<Trade>) {
    forall i, j :: 0 <= i < j < |trades| ==> trades[i].ts <= trades[j].ts
  }

  lemma {:induction false} NoneFrom(trades: seq<Trade>, token: string, lo: nat, hi: nat)
    requires forall i :: 0 <= i < |trades| ==> trades[i].ts < lo
    ensures Between(trades, token, lo, hi) == []
  {
    if |trades| == 0 {
    } else {
      NoneFrom(trades[..|trades| - 1], token, lo, hi);
    }
  }

  /** When times do not fall, a time range splits into its two parts in order. */
  lemma {:induction false} BetweenSplits(trades: seq<Trade>, token: string, lo: nat, mid: nat, hi: nat)
    requires TimesRise(trades) && lo <= mid <= hi
    ensures Between(trades, token, lo, hi) == Between(trades, token, lo, mid) + Between(trades, token, mid, hi)
  {
    if |trades| == 0 {
    } else {
      var init, t := trades[..|trades| - 1], trades[|trades| - 1];
      BetweenSplits(init, token, lo, mid, hi);
      if t.ts < mid {
        NoneFrom(init, token, mid, hi);
      }
    }
  }

  /** The fine candles of the buckets in [start, end), merged in time order. */
  function MergeFine(rows: Rows, token: string, fine: Interval, start: nat, end: int): Option<Ohlc>
    decreases end - start
  {
    if end <= start then None
    else
      var at := end - Seconds(fine);
      Combine(MergeFine(rows, token, fine, start, at), if at < 0 then None else BodyOf(Get(rows, Key(token, fine, at))))
  }

  /** The rows at the given starts are the summaries of their buckets. */
  ghost predicate Summarises(rows: Rows, trades: seq<Trade>, token: string, fine: Interval, starts: int -> bool) {
    forall at: nat :: starts(at) ==>
      BodyOf(Get(rows, Key(token, fine, at))) == Summary(Between(trades, token, at, at + Seconds(fine)))
  }

  lemma BucketSummary(rows: Rows, trades: seq<Trade>, k: Key, end: nat)
    requires InOrder(trades) && rows == Fold(trades) && Aligned(k) && end == k.start + Seconds(k.interval)
    ensures BodyOf(Get(rows, k)) == Summary(Between(trades, k.token, k.start, end))
  {
    FoldIsSummary(trades, k);
  }

  lemma FoldSummarises(rows: Rows, trades: seq<Trade>, token: string, fine: Interval, starts: int -> bool)
    requires InOrder(trades) && rows == Fold(trades)
    requires forall at: nat :: starts(at) ==> Multiple(at, fine)
    ensures Summarises(rows, trades, token, fine, starts)
  {
    forall at: nat | starts(at)
      ensures BodyOf(Get(rows, Key(token, fine, at))) == Summary(Between(trades, token, at, at + Seconds(fine)))
    {
      BucketSummary(rows, trades, Key(token, fine, at), at + Seconds(fine));
    }
  }

  lemma MergeNext(trades: seq<Trade>, token: string, start: nat, at: nat, end: nat)
    requires TimesRise(trades) && start <= at <= end
    ensures Combine(Summary(Between(trades, token, start, at)), Summary(Between(trades, token, at, end)))
      == Summary(Between(trades, token, start, end))
  {
    BetweenSplits(trades, token, start, at, end);
    SummaryConcat(Between(trades, token, start, at), Between(trades, token, at, end));
  }

  lemma MergeLast(rows: Rows, token: string, fine: Interval, start: nat, at: nat)
    requires start <= at
    ensures MergeFine(rows, token, fine, start, at + Seconds(fine))
      == Combine(MergeFine(rows, token, fine, start, at), BodyOf(Get(rows, Key(token, fine, at))))
  {
  }

  /** A grid of ends from start, one fine bucket apart. */
  ghost predicate Grid(start: nat, fine: Interval, ends: int -> bool) {
    forall end: int :: ends(end) && end > start ==> end - Seconds(fine) >= start && ends(end - Seconds(fine))
  }

  lemma {:induction false} EmptyRange(trades: seq<Trade>, token: string, lo: nat)
    ensures Between(trades, token, lo, lo) == []
  {
    if |trades| == 0 {
    } else {
      EmptyRange(trades[..|trades| - 1], token, lo);
    }
  }

  lemma {:induction false} MergeFineIs(rows: Rows, trades: seq<Trade>, token: string, fine: Interval, start: nat, end: nat,
                                       ends: int -> bool)
    requires TimesRise(trades) && start <= end && ends(end) && Grid(start, fine, ends)
    requires Summarises(rows, trades, token, fine, ends)
    ensures MergeFine(rows, token, fine, start, end) == Summary(Between(trades, token, start, end))
    decreases end - start
  {
    if end == start {
      EmptyRange(trades, token, start);
    } else {
      var at := end - Seconds(fine);
      assert ends(at);
      MergeFineIs(rows, trades, token, fine, start, at, ends);
      MergeLast(rows, token, fine, start, at);
      MergeNext(trades, token, start, at, end);
    }
  }

  /** Stepping back one bucket from an aligned end stays aligned and does not pass the start. */
  lemma StepBack(start: nat, end: nat, f: nat)
    requires f > 0 && start < end && start % f == 0 && end % f == 0
    ensures end - f >= start && (end - f) % f == 0
  {
    FloorBounds(start, f);
    FloorBounds(end, f);
    var a, b := start / f, end / f;
    MulCancelStrict(f, a, b);
    MulMono(f, a, b - 1);
    assert f * (b - 1) == end - f;
    MultipleOf(b - 1, f);
  }

  lemma MultiplesAreGrid(start: nat, fine: Interval)
    requires Multiple(start, fine)
    ensures Grid(start, fine, (end: int) => end >= 0 && Multiple(end, fine))
  {
    forall end: int | end >= 0 && Multiple(end, fine) && end > start
      ensures end - Seconds(fine) >= start && Multiple(end - Seconds(fine), fine)
    {
      StepBack(start, end, Seconds(fine));
    }
  }

  lemma DivisorAligned(x: nat, c: nat, q: nat, f: nat)
    requires f > 0 && c > 0 && q * f == c && x % c == 0
    ensures x % f == 0 && (x + c) % f == 0
  {
    FloorBounds(x, c);
    assert x == x / c * (q * f) == x / c * q * f;
    MultipleOf(x / c * q, f);
    assert x + c == (x / c * q + q) * f;
    MultipleOf(x / c * q + q, f);
  }

  /** Each interval is a whole number of any shorter one. */
  function Ratio(coarse: Interval, fine: Interval): (q: nat)
    requires Seconds(fine) <= Seconds(coarse)
    ensures q * Seconds(fine) == Seconds(coarse)
  {
    match fine
    case S1 => Seconds(coarse)
    case S15 => (match coarse case S15 => 1 case M1 => 4 case M5 => 20 case M15 => 60 case H1 => 240)
    case M1 => (match coarse case M1 => 1 case M5 => 5 case M15 => 15 case H1 => 60)
    case M5 => (match coarse case M5 => 1 case M15 => 3 case H1 => 12)
    case M15 => (match coarse case M15 => 1 case H1 => 4)
    case H1 => 1
  }

  lemma AlignedEnds(k: Key, fine: Interval)
    requires Seconds(fine) <= Seconds(k.interval) && Aligned(k)
    ensures Multiple(k.start, fine) && Multiple(k.start + Seconds(k.interval), fine)
  {
    DivisorAligned(k.start, Seconds(k.interval), Ratio(k.interval, fine), Seconds(fine));
  }

  lemma MergeOfAligned(rows: Rows, trades: seq<Trade>, token: string, fine: Interval, start: nat, end: nat)
    requires InOrder(trades) && TimesRise(trades) && start <= end && Multiple(start, fine) && Multiple(end, fine)
    requires rows == Fold(trades)
    ensures MergeFine(rows, token, fine, start, end) == Summary(Between(trades, token, start, end))
  {
    var ends := (end: int) => end >= 0 && Multiple(end, fine);
    MultiplesAreGrid(start, fine);
    FoldSummarises(rows, trades, token, fine, ends);
    MergeFineIs(rows, trades, token, fine, start, end, ends);
  }

  /** For an in-order stream with times that do not fall, each candle is the merge of the finer
      candles inside its bucket, for every pair of intervals. */
  lemma CoarseIsMergeOfFine(trades: seq<Trade>, fine: Interval, k: Key)
    requires InOrder(trades) && TimesRise(trades)
    requires Seconds(fine) <= Seconds(k.interval) && Aligned(k)
    ensures BodyOf(Get(Fold(trades), k))
      == MergeFine(Fold(trades), k.token, fine, k.start, k.start + Seconds(k.interval))
  {
    var end := k.start + Seconds(k.interval);
    AlignedEnds(k, fine);
    MergeOfAligned(Fold(trades), trades, k.token, fine, k.start, end);
    BucketSummary(Fold(trades), trades, k, end);
  }

  // ---- conservation of volume -------------------------------------------------------------

  function KeysAt(rows: Rows, token: string, i: Interval): set<Key> {
    set k | k in rows && k.token == token && k.interval == i
  }

  /** What a row adds up over its trades. */
  datatype Measure = EthVolume | TokenVolume | TradeCount {
    function Of(o: Ohlc): int {
      match this
      case EthVolume => o.volumeEth
      case TokenVolume => o.volumeToken
      case TradeCount => o.count
    }

    function Weight(t: Trade): int {
      match this
      case EthVolume => t.volumeEth
      case TokenVolume => t.volumeToken
      case TradeCount => 1
    }
  }

  function VolumeAt(m: Measure, rows: Rows): Key -> int { (k: Key) => if k in rows then m.Of(rows[k].ohlc) else 0 }

  /** Total of a measure over the rows of one interval of a token. */
  ghost function TotalVolume(m: Measure, rows: Rows, token: string, i: Interval): int {
    SumSet(KeysAt(rows, token, i), VolumeAt(m, rows))
  }

  function TradedVolume(m: Measure, trades: seq<Trade>, token: string): int {
    SumSeq(trades, (t: Trade) => if t.token == token then m.Weight(t) else 0)
  }

  lemma VolumeStep(m: Measure, rows: Rows, t: Trade, token: string, i: Interval)
    requires var k := KeyOf(t, i); k in rows ==> !PositionLte(t.block, t.log, rows[k].ohlc.lastBlock, rows[k].ohlc.lastLog)
    ensures TotalVolume(m, Applied(rows, t), token, i) ==
      TotalVolume(m, rows, token, i) + if t.token == token then m.Weight(t) else 0
  {
    var next, k := Applied(rows, t), KeyOf(t, i);
    var before, after := KeysAt(rows, token, i), KeysAt(next, token, i);
    forall q: Key | q.token == token && q.interval == i
      ensures q in next <==> q in rows || q == k
      ensures q != k ==> Get(next, q) == Get(rows, q)
    {
      ApplyAtKey(rows, t, q);
      assert Get(next, q).Some? <==> q in next;
    }
    ApplyAtKey(rows, t, k);
    if t.token == token {
      assert after == before + {k};
      assert after - {k} == before - {k};
      SumSetPick(after, VolumeAt(m, next), k);
      forall q | q in before - {k} ensures VolumeAt(m, next)(q) == VolumeAt(m, rows)(q) { assert Get(next, q) == Get(rows, q); }
      SumSetSame(before - {k}, VolumeAt(m, next), VolumeAt(m, rows));
      if k in before { SumSetPick(before, VolumeAt(m, rows), k); } else { assert before - {k} == before; }
    } else {
      assert after == before;
      forall q | q in before ensures VolumeAt(m, next)(q) == VolumeAt(m, rows)(q) { assert Get(next, q) == Get(rows, q); }
      SumSetSame(before, VolumeAt(m, next), VolumeAt(m, rows));
    }
  }

  /** At every interval the rows of a token carry exactly the ETH volume, the token volume and the
      number of its trades. */
  lemma {:induction false} VolumeConserved(m: Measure, trades: seq<Trade>, token: string, i: Interval)
    requires InOrder(trades)
    ensures TotalVolume(m, Fold(trades), token, i) == TradedVolume(m, trades, token)
  {
    var n := |trades|;
    if n == 0 {
      assert KeysAt(map[], token, i) == {};
    } else {
      var init, t := trades[..n - 1], trades[n - 1];
      VolumeConserved(m, init, token, i);
      var k := KeyOf(t, i);
      KeysAligned(t, i);
      FoldIsSummary(init, k);
      BetweenIn(init, k.token, k.start, k.start + Seconds(i));
      if k in Fold(init) {
        var b := InBucket(init, k);
        assert b[|b| - 1] in init;
      }
      VolumeStep(m, Fold(init), t, token, i);
    }
  }
}
