/**
 * The balance ledger: transfers move balances and the holder count, cost-basis calls touch only
 * the four cost columns. The zero address is never a holder.
 */
module Balances {
  import opened Addresses
  import opened Sums

  datatype BalanceState = BalanceState(balance: int, totalBought: int, totalSold: int, ethIn: int, ethOut: int,
    firstSeenAt: int, lastActiveAt: int)

  function EmptyState(ts: int): BalanceState { BalanceState(0, 0, 0, 0, 0, ts, ts) }

  function HolderCountDelta(prev: int, next: int): int {
    if prev <= 0 && next > 0 then 1 else if prev > 0 && next <= 0 then -1 else 0
  }

  type Holders = map<string, BalanceState>

  datatype Ledger = Ledger(byToken: map<string, Holders>, holderCount: map<string, int>)

  const EMPTY: Ledger := Ledger(map[], map[])

  datatype Op =
    | Transfer(token: string, src: string, dst: string, value: int, ts: int)
    | CostBuy(token: string, trader: string, tokens: int, eth: int, ts: int)
    | CostSell(token: string, trader: string, tokens: int, eth: int, ts: int)

  // ---- the transition rules ---------------------------------------------------------------

  function HoldersOf(l: Ledger, token: string): Holders {
    if token in l.byToken then l.byToken[token] else map[]
  }

  function StateOf(l: Ledger, token: string, holder: string, ts: int): BalanceState {
    if holder in HoldersOf(l, token) then HoldersOf(l, token)[holder] else EmptyState(ts)
  }

  function Put(l: Ledger, token: string, holder: string, s: BalanceState): Ledger {
    l.(byToken := l.byToken[token := HoldersOf(l, token)[holder := s]])
  }

  function HolderCount(l: Ledger, token: string): int {
    if token in l.holderCount then l.holderCount[token] else 0
  }

  function Bump(l: Ledger, token: string, delta: int): Ledger {
    if delta == 0 then l else l.(holderCount := l.holderCount[token := HolderCount(l, token) + delta])
  }

  /** One side of a transfer. */
  function Move(l: Ledger, token: string, holder: string, amount: int, ts: int): Ledger {
    if IsZeroAddress(holder) then l
    else
      var s := StateOf(l, token, holder, ts);
      var next := s.(balance := s.balance + amount, lastActiveAt := ts);
      Bump(Put(l, token, holder, next), token, HolderCountDelta(s.balance, next.balance))
  }

  /** A cost-basis call writes the new columns unless the trader is the zero address. */
  function Record(l: Ledger, token: string, trader: string, s: BalanceState): Ledger {
    if IsZeroAddress(trader) then l else Put(l, token, trader, s)
  }

  function Bought(s: BalanceState, tokens: int, eth: int, ts: int): BalanceState {
    s.(totalBought := s.totalBought + tokens, ethIn := s.ethIn + eth, lastActiveAt := ts)
  }

  function Sold(s: BalanceState, tokens: int, eth: int, ts: int): BalanceState {
    s.(totalSold := s.totalSold + tokens, ethOut := s.ethOut + eth, lastActiveAt := ts)
  }

  function Step(l: Ledger, op: Op): Ledger {
    match op
    case Transfer(token, src, dst, value, ts) => Move(Move(l, token, src, -value, ts), token, dst, value, ts)
    case CostBuy(token, trader, tokens, eth, ts) =>
      Record(l, token, trader, Bought(StateOf(l, token, trader, ts), tokens, eth, ts))
    case CostSell(token, trader, tokens, eth, ts) =>
      Record(l, token, trader, Sold(StateOf(l, token, trader, ts), tokens, eth, ts))
  }

  function Run(ops: seq<Op>): Ledger {
    if |ops| == 0 then EMPTY else Step(Run(ops[..|ops| - 1]), ops[|ops| - 1])
  }

  /** The in-memory ledger: nested maps updated in place. */
  class BalanceLedger {
    var byToken: map<string, Holders>
    var holderCount: map<string, int>

    function View(): Ledger
      reads this
    {
      Ledger(byToken, holderCount)
    }

    constructor ()
      ensures View() == EMPTY
    {
      byToken, holderCount := map[], map[];
    }

    method Write(token: string, holder: string, s: BalanceState)
      modifies this
      ensures View() == Put(old(View()), token, holder, s)
    {
      var m := if token in byToken then byToken[token] else map[];
      byToken := byToken[token := m[holder := s]];
    }

    method BumpHolderCount(token: string, delta: int)
      modifies this
      ensures View() == Bump(old(View()), token, delta)
    {
      if delta == 0 { return; }
      var count := if token in holderCount then holderCount[token] else 0;
      holderCount := holderCount[token := count + delta];
    }

    method ApplyTransfer(token: string, src: string, dst: string, value: int, ts: int)
      modifies this
      ensures View() == Step(old(View()), Transfer(token, src, dst, value, ts))
    {
      if !IsZeroAddress(src) {
        var s := StateOf(View(), token, src, ts);
        var prev := s.balance;
        s := s.(balance := prev - value, lastActiveAt := ts);
        Write(token, src, s);
        BumpHolderCount(token, HolderCountDelta(prev, s.balance));
      }
      if !IsZeroAddress(dst) {
        var s := StateOf(View(), token, dst, ts);
        var prev := s.balance;
        s := s.(balance := prev + value, lastActiveAt := ts);
        Write(token, dst, s);
        BumpHolderCount(token, HolderCountDelta(prev, s.balance));
      }
    }

    method ApplyCostBasisBuy(token: string, trader: string, tokens: int, ethGross: int, ts: int)
      modifies this
      ensures View() == Step(old(View()), CostBuy(token, trader, tokens, ethGross, ts))
    {
      if IsZeroAddress(trader) { return; }
      var s := StateOf(View(), token, trader, ts);
      Write(token, trader, s.(totalBought := s.totalBought + tokens, ethIn := s.ethIn + ethGross, lastActiveAt := ts));
    }

    method ApplyCostBasisSell(token: string, trader: string, tokens: int, ethNet: int, ts: int)
      modifies this
      ensures View() == Step(old(View()), CostSell(token, trader, tokens, ethNet, ts))
    {
      if IsZeroAddress(trader) { return; }
      var s := StateOf(View(), token, trader, ts);
      Write(token, trader, s.(totalSold := s.totalSold + tokens, ethOut := s.ethOut + ethNet, lastActiveAt := ts));
    }
  }

  // ---- balances are net transfers ---------------------------------------------------------

  function Balance(l: Ledger, token: string, holder: string): int {
    if holder in HoldersOf(l, token) then HoldersOf(l, token)[holder].balance else 0
  }

  /** What one operation adds to a holder's balance. */
  function Net(op: Op, token: string, holder: string): int {
    if !op.Transfer? || op.token != token || IsZeroAddress(holder) then 0
    else (if op.dst == holder then op.value else 0) - (if op.src == holder then op.value else 0)
  }

  function NetOf(token: string, holder: string): Op -> int { (op: Op) => Net(op, token, holder) }

  lemma MoveBalance(l: Ledger, token: string, holder: string, amount: int, ts: int, t: string, h: string)
    ensures Balance(Move(l, token, holder, amount, ts), t, h) ==
      Balance(l, t, h) + if t == token && h == holder && !IsZeroAddress(holder) then amount else 0
  {
  }

  lemma StepBalance(l: Ledger, op: Op, t: string, h: string)
    ensures Balance(Step(l, op), t, h) == Balance(l, t, h) + Net(op, t, h)
  {
    if op.Transfer? {
      MoveBalance(l, op.token, op.src, -op.value, op.ts, t, h);
      MoveBalance(Move(l, op.token, op.src, -op.value, op.ts), op.token, op.dst, op.value, op.ts, t, h);
    }
  }

  /** After any stream a balance is the sum of the transfers in minus those out; cost-basis
      calls, wherever they fall, add nothing. */
  lemma {:induction false} BalanceIsNet(ops: seq<Op>, t: string, h: string)
    ensures Balance(Run(ops), t, h) == SumSeq(ops, NetOf(t, h))
  {
    if |ops| == 0 {
    } else {
      BalanceIsNet(ops[..|ops| - 1], t, h);
      StepBalance(Run(ops[..|ops| - 1]), ops[|ops| - 1], t, h);
    }
  }

  // ---- the holder count -------------------------------------------------------------------

  function PositiveIn(m: Holders): set<string> { set h | h in m && m[h].balance > 0 }

  function Positive(l: Ledger, token: string): set<string> { PositiveIn(HoldersOf(l, token)) }

  lemma SetPositive(m: Holders, holder: string, s: BalanceState)
    ensures |PositiveIn(m[holder := s])| == |PositiveIn(m)|
      + HolderCountDelta(if holder in m then m[holder].balance else 0, s.balance)
  {
    var before, after := PositiveIn(m), PositiveIn(m[holder := s]);
    if s.balance > 0 { assert after == before + {holder}; } else { assert after == before - {holder}; }
  }

  lemma PutPositive(l: Ledger, token: string, holder: string, s: BalanceState, t: string)
    ensures |Positive(Put(l, token, holder, s), t)| == |Positive(l, t)|
      + if t == token then HolderCountDelta(Balance(l, token, holder), s.balance) else 0
  {
    SetPositive(HoldersOf(l, token), holder, s);
    assert HoldersOf(Put(l, token, holder, s), t) ==
      if t == token then HoldersOf(l, token)[holder := s] else HoldersOf(l, t);
  }

  /** Positive balances not accounted for by the holder count. */
  function Unaccounted(l: Ledger, t: string): int { |Positive(l, t)| - HolderCount(l, t) }

  lemma MovePositive(l: Ledger, token: string, holder: string, amount: int, ts: int, t: string)
    ensures Unaccounted(Move(l, token, holder, amount, ts), t) == Unaccounted(l, t)
  {
    if !IsZeroAddress(holder) {
      var s := StateOf(l, token, holder, ts);
      var next := s.(balance := s.balance + amount, lastActiveAt := ts);
      var put, delta := Put(l, token, holder, next), HolderCountDelta(s.balance, next.balance);
      PutPositive(l, token, holder, next, t);
      assert HoldersOf(Bump(put, token, delta), t) == HoldersOf(put, t);
    }
  }

  lemma RecordPositive(l: Ledger, token: string, trader: string, s: BalanceState, t: string)
    requires s.balance == Balance(l, token, trader)
    ensures Unaccounted(Record(l, token, trader, s), t) == Unaccounted(l, t)
  {
    PutPositive(l, token, trader, s, t);
  }

  lemma TwoMovesPositive(l: Ledger, token: string, src: string, dst: string, value: int, ts: int, t: string)
    ensures Unaccounted(Move(Move(l, token, src, -value, ts), token, dst, value, ts), t) == Unaccounted(l, t)
  {
    MovePositive(l, token, src, -value, ts, t);
    MovePositive(Move(l, token, src, -value, ts), token, dst, value, ts, t);
  }

  lemma StepPositive(l: Ledger, op: Op, t: string)
    ensures Unaccounted(Step(l, op), t) == Unaccounted(l, t)
  {
    match op
    case Transfer(token, src, dst, value, ts) => TwoMovesPositive(l, token, src, dst, value, ts, t);
    case CostBuy(token, trader, tokens, eth, ts) =>
      RecordPositive(l, token, trader, Bought(StateOf(l, token, trader, ts), tokens, eth, ts), t);
    case CostSell(token, trader, tokens, eth, ts) =>
      RecordPositive(l, token, trader, Sold(StateOf(l, token, trader, ts), tokens, eth, ts), t);
  }

  /** The holder count is the number of addresses with a positive balance. */
  lemma {:induction false} HolderCountIsExact(ops: seq<Op>, t: string)
    ensures HolderCount(Run(ops), t) == |Positive(Run(ops), t)|
  {
    if |ops| == 0 {
      assert Positive(EMPTY, t) == {};
    } else {
      HolderCountIsExact(ops[..|ops| - 1], t);
      StepPositive(Run(ops[..|ops| - 1]), ops[|ops| - 1], t);
    }
  }

  // ---- conservation -----------------------------------------------------------------------

  /** Minted minus burned by one operation. */
  function Supply(op: Op, token: string): int {
    if !op.Transfer? || op.token != token then 0
    else (if IsZeroAddress(op.dst) then 0 else op.value) - (if IsZeroAddress(op.src) then 0 else op.value)
  }

  function SupplyOf(token: string): Op -> int { (op: Op) => Supply(op, token) }

  function BalanceAt(l: Ledger, token: string): string -> int { (h: string) => Balance(l, token, h) }

  ghost function TotalBalance(l: Ledger, token: string): int {
    SumSet(HoldersOf(l, token).Keys, BalanceAt(l, token))
  }

  /** Writing one holder's state changes the total by the change of that balance. */
  lemma PutTotal(l: Ledger, token: string, holder: string, s: BalanceState, t: string)
    ensures TotalBalance(Put(l, token, holder, s), t) == TotalBalance(l, t)
      + if t == token then s.balance - Balance(l, token, holder) else 0
  {
    var next := Put(l, token, holder, s);
    var before, after := HoldersOf(l, t).Keys, HoldersOf(next, t).Keys;
    if t == token {
      assert after == before + {holder} && after - {holder} == before - {holder};
      SumSetPick(after, BalanceAt(next, t), holder);
      SumSetSame(before - {holder}, BalanceAt(next, t), BalanceAt(l, t));
      if holder in before { SumSetPick(before, BalanceAt(l, t), holder); } else { assert before - {holder} == before; }
    } else {
      assert after == before;
      SumSetSame(before, BalanceAt(next, t), BalanceAt(l, t));
    }
  }

  lemma SameHoldersSameTotal(a: Ledger, b: Ledger, t: string)
    requires a.byToken == b.byToken
    ensures TotalBalance(a, t) == TotalBalance(b, t)
  {
    SumSetSame(HoldersOf(a, t).Keys, BalanceAt(a, t), BalanceAt(b, t));
  }

  /** What a move adds to the total. */
  function Gain(token: string, holder: string, amount: int, t: string): int {
    if t == token && !IsZeroAddress(holder) then amount else 0
  }

  lemma MoveTotal(l: Ledger, token: string, holder: string, amount: int, ts: int, t: string)
    ensures TotalBalance(Move(l, token, holder, amount, ts), t) == TotalBalance(l, t) + Gain(token, holder, amount, t)
  {
    if !IsZeroAddress(holder) {
      var s := StateOf(l, token, holder, ts);
      var next := s.(balance := s.balance + amount, lastActiveAt := ts);
      PutTotal(l, token, holder, next, t);
      SameHoldersSameTotal(Move(l, token, holder, amount, ts), Put(l, token, holder, next), t);
    }
  }

  lemma RecordTotal(l: Ledger, token: string, trader: string, s: BalanceState, t: string)
    requires s.balance == Balance(l, token, trader)
    ensures TotalBalance(Record(l, token, trader, s), t) == TotalBalance(l, t)
  {
    PutTotal(l, token, trader, s, t);
  }

  lemma SupplyOfMoves(token: string, src: string, dst: string, value: int, ts: int, t: string)
    ensures Supply(Transfer(token, src, dst, value, ts), t) == Gain(token, src, -value, t) + Gain(token, dst, value, t)
  {
  }

  lemma TwoMoves(l: Ledger, token: string, src: string, dst: string, value: int, ts: int, t: string)
    ensures TotalBalance(Move(Move(l, token, src, -value, ts), token, dst, value, ts), t)
      == TotalBalance(l, t) + Gain(token, src, -value, t) + Gain(token, dst, value, t)
  {
    MoveTotal(l, token, src, -value, ts, t);
    MoveTotal(Move(l, token, src, -value, ts), token, dst, value, ts, t);
  }

  lemma StepTotal(l: Ledger, op: Op, t: string)
    ensures TotalBalance(Step(l, op), t) == TotalBalance(l, t) + Supply(op, t)
  {
    match op
    case Transfer(token, src, dst, value, ts) =>
      TwoMoves(l, token, src, dst, value, ts, t);
      SupplyOfMoves(token, src, dst, value, ts, t);
    case CostBuy(token, trader, tokens, eth, ts) =>
      RecordTotal(l, token, trader, Bought(StateOf(l, token, trader, ts), tokens, eth, ts), t);
    case CostSell(token, trader, tokens, eth, ts) =>
      RecordTotal(l, token, trader, Sold(StateOf(l, token, trader, ts), tokens, eth, ts), t);
  }

  /** Balances always sum to minted minus burned. */
  lemma {:induction false} BalancesConserved(ops: seq<Op>, t: string)
    ensures TotalBalance(Run(ops), t) == SumSeq(ops, SupplyOf(t))
  {
    if |ops| == 0 {
    } else {
      BalancesConserved(ops[..|ops| - 1], t);
      StepTotal(Run(ops[..|ops| - 1]), ops[|ops| - 1], t);
    }
  }

  // ---- order and cost-basis calls do not matter -------------------------------------------

  function Transfers(ops: seq<Op>): seq<Op> {
    if |ops| == 0 then []
    else
      var init, op := Transfers(ops[..|ops| - 1]), ops[|ops| - 1];
      if op.Transfer? then init + [op] else init
  }

  lemma {:induction false} NetOfTransfers(ops: seq<Op>, t: string, h: string)
    ensures SumSeq(Transfers(ops), NetOf(t, h)) == SumSeq(ops, NetOf(t, h))
  {
    if |ops| == 0 {
    } else {
      var init, op := ops[..|ops| - 1], ops[|ops| - 1];
      NetOfTransfers(init, t, h);
      if op.Transfer? { assert Transfers(ops)[..|Transfers(ops)| - 1] == Transfers(init); }
    }
  }

  lemma PositiveFromBalances(a: Ledger, b: Ledger, t: string)
    requires forall h :: Balance(a, t, h) == Balance(b, t, h)
    ensures Positive(a, t) == Positive(b, t)
  {
    forall h ensures h in Positive(a, t) <==> h in Positive(b, t) {
      assert h in Positive(a, t) <==> Balance(a, t, h) > 0;
      assert h in Positive(b, t) <==> Balance(b, t, h) > 0;
    }
  }

  /** Two streams with the same multiset of transfers, in any order and with any cost-basis calls
      between them, end with the same balances and the same holder counts. */
  lemma OnlyTransfersMatter(a: seq<Op>, b: seq<Op>, t: string)
    requires multiset(Transfers(a)) == multiset(Transfers(b))
    ensures forall h :: Balance(Run(a), t, h) == Balance(Run(b), t, h)
    ensures HolderCount(Run(a), t) == HolderCount(Run(b), t)
  {
    forall h ensures Balance(Run(a), t, h) == Balance(Run(b), t, h) {
      BalanceIsNet(a, t, h);
      BalanceIsNet(b, t, h);
      NetOfTransfers(a, t, h);
      NetOfTransfers(b, t, h);
      SumSeqPermutation(Transfers(a), Transfers(b), NetOf(t, h));
    }
    PositiveFromBalances(Run(a), Run(b), t);
    HolderCountIsExact(a, t);
    HolderCountIsExact(b, t);
  }

  // ---- the cost-basis columns -------------------------------------------------------------

  datatype Column = TotalBought | TotalSold | EthIn | EthOut {
    function Of(s: BalanceState): int {
      match this
      case TotalBought => s.totalBought
      case TotalSold => s.totalSold
      case EthIn => s.ethIn
      case EthOut => s.ethOut
    }

    /** What a cost-basis call carries for the column. */
    function Adds(op: Op): int {
      match this
      case TotalBought => if op.CostBuy? then op.tokens else 0
      case TotalSold => if op.CostSell? then op.tokens else 0
      case EthIn => if op.CostBuy? then op.eth else 0
      case EthOut => if op.CostSell? then op.eth else 0
    }
  }

  function CostOf(l: Ledger, column: Column, token: string, holder: string): int {
    if holder in HoldersOf(l, token) then column.Of(HoldersOf(l, token)[holder]) else 0
  }

  predicate IsCostOf(op: Op, token: string, holder: string) {
    !op.Transfer? && op.token == token && op.trader == holder && !IsZeroAddress(holder)
  }

  function AddsTo(column: Column, token: string, holder: string): Op -> int {
    (op: Op) => if IsCostOf(op, token, holder) then column.Adds(op) else 0
  }

  lemma MoveCost(l: Ledger, token: string, src: string, amount: int, ts: int, column: Column, t: string, h: string)
    ensures CostOf(Move(l, token, src, amount, ts), column, t, h) == CostOf(l, column, t, h)
  {
  }

  lemma TransferCost(l: Ledger, token: string, src: string, dst: string, value: int, ts: int, column: Column, t: string,
                     h: string)
    ensures CostOf(Move(Move(l, token, src, -value, ts), token, dst, value, ts), column, t, h) == CostOf(l, column, t, h)
  {
    MoveCost(l, token, src, -value, ts, column, t, h);
    MoveCost(Move(l, token, src, -value, ts), token, dst, value, ts, column, t, h);
  }

  lemma StepCost(l: Ledger, op: Op, column: Column, t: string, h: string)
    ensures CostOf(Step(l, op), column, t, h) == CostOf(l, column, t, h) + AddsTo(column, t, h)(op)
  {
    if op.Transfer? { TransferCost(l, op.token, op.src, op.dst, op.value, op.ts, column, t, h); }
  }

  /** After any stream each cost column of a holder is the sum of what its cost-basis calls carried. */
  lemma {:induction false} CostBasisIsSum(ops: seq<Op>, column: Column, t: string, h: string)
    ensures CostOf(Run(ops), column, t, h) == SumSeq(ops, AddsTo(column, t, h))
  {
    if |ops| == 0 {
    } else {
      CostBasisIsSum(ops[..|ops| - 1], column, t, h);
      StepCost(Run(ops[..|ops| - 1]), ops[|ops| - 1], column, t, h);
    }
  }

  // ---- the two times ----------------------------------------------------------------------

  /** The operation is about the holder. */
  predicate Concerns(op: Op, token: string, holder: string) {
    && op.token == token && !IsZeroAddress(holder)
    && (if op.Transfer? then op.src == holder || op.dst == holder else op.trader == holder)
  }

  ghost predicate FirstTime(ops: seq<Op>, token: string, holder: string, ts: int) {
    exists i :: 0 <= i < |ops| && Concerns(ops[i], token, holder) && ops[i].ts == ts
      && forall j :: 0 <= j < i ==> !Concerns(ops[j], token, holder)
  }

  ghost predicate LastTime(ops: seq<Op>, token: string, holder: string, ts: int) {
    exists i :: 0 <= i < |ops| && Concerns(ops[i], token, holder) && ops[i].ts == ts
      && forall j :: i < j < |ops| ==> !Concerns(ops[j], token, holder)
  }

  /** What happens to a holder's times when own says whether it is concerned. */
  predicate TimesStep(before: Holders, after: Holders, holder: string, own: bool, ts: int) {
    && (holder in after <==> holder in before || own)
    && (holder in before ==> after[holder].firstSeenAt == before[holder].firstSeenAt)
    && (holder in after && holder !in before ==> after[holder].firstSeenAt == ts)
    && (own ==> after[holder].lastActiveAt == ts)
    && (holder in before && !own ==> after[holder] == before[holder])
  }

  lemma MoveTimes(l: Ledger, token: string, holder: string, amount: int, ts: int, t: string, h: string)
    ensures TimesStep(HoldersOf(l, t), HoldersOf(Move(l, token, holder, amount, ts), t), h,
      t == token && h == holder && !IsZeroAddress(h), ts)
  {
  }

  lemma TwoTimes(a: Holders, b: Holders, c: Holders, holder: string, first: bool, second: bool, ts: int)
    requires TimesStep(a, b, holder, first, ts) && TimesStep(b, c, holder, second, ts)
    ensures TimesStep(a, c, holder, first || second, ts)
  {
  }

  lemma TransferTimes(l: Ledger, token: string, src: string, dst: string, value: int, ts: int, t: string, h: string)
    ensures TimesStep(HoldersOf(l, t), HoldersOf(Move(Move(l, token, src, -value, ts), token, dst, value, ts), t), h,
      Concerns(Transfer(token, src, dst, value, ts), t, h), ts)
  {
    var mid := Move(l, token, src, -value, ts);
    MoveTimes(l, token, src, -value, ts, t, h);
    MoveTimes(mid, token, dst, value, ts, t, h);
    TwoTimes(HoldersOf(l, t), HoldersOf(mid, t), HoldersOf(Move(mid, token, dst, value, ts), t), h,
      t == token && h == src && !IsZeroAddress(h), t == token && h == dst && !IsZeroAddress(h), ts);
  }

  lemma StepTimes(l: Ledger, op: Op, t: string, h: string)
    ensures TimesStep(HoldersOf(l, t), HoldersOf(Step(l, op), t), h, Concerns(op, t, h), op.ts)
  {
    if op.Transfer? { TransferTimes(l, op.token, op.src, op.dst, op.value, op.ts, t, h); }
  }

  lemma TimesGrow(ops: seq<Op>, op: Op, t: string, h: string, ts: int)
    ensures FirstTime(ops, t, h, ts) ==> FirstTime(ops + [op], t, h, ts)
    ensures !Concerns(op, t, h) && LastTime(ops, t, h, ts) ==> LastTime(ops + [op], t, h, ts)
    ensures Concerns(op, t, h) ==> LastTime(ops + [op], t, h, op.ts)
    ensures Concerns(op, t, h) && (forall i :: 0 <= i < |ops| ==> !Concerns(ops[i], t, h)) ==> FirstTime(ops + [op], t, h, op.ts)
  {
    var all := ops + [op];
    if FirstTime(ops, t, h, ts) {
      var i :| 0 <= i < |ops| && Concerns(ops[i], t, h) && ops[i].ts == ts && forall j :: 0 <= j < i ==> !Concerns(ops[j], t, h);
      assert all[i] == ops[i];
    }
    if !Concerns(op, t, h) && LastTime(ops, t, h, ts) {
      var i :| 0 <= i < |ops| && Concerns(ops[i], t, h) && ops[i].ts == ts && forall j :: i < j < |ops| ==> !Concerns(ops[j], t, h);
      assert all[i] == ops[i];
    }
    assert all[|ops|] == op;
  }

  /** A holder has a row exactly when an operation was about it: firstSeenAt and lastActiveAt are the times of the first
      and of the last one. */
  lemma {:induction false} TimesMeaning(ops: seq<Op>, t: string, h: string)
    ensures var m := HoldersOf(Run(ops), t);
      && (h in m <==> exists i :: 0 <= i < |ops| && Concerns(ops[i], t, h))
      && (h in m ==> FirstTime(ops, t, h, m[h].firstSeenAt) && LastTime(ops, t, h, m[h].lastActiveAt))
  {
    if |ops| == 0 {
    } else {
      var init, op := ops[..|ops| - 1], ops[|ops| - 1];
      assert ops == init + [op];
      TimesMeaning(init, t, h);
      StepTimes(Run(init), op, t, h);
      var m := HoldersOf(Run(ops), t);
      if h in m {
        TimesGrow(init, op, t, h, m[h].firstSeenAt);
        TimesGrow(init, op, t, h, m[h].lastActiveAt);
      }
    }
  }
}
