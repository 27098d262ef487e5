# Launchpad core: a verified model

The launchpad sells tokens on a bonding curve, moves a full curve into a Uniswap V3 pool, and serves
charts, balances and confirmation tiers from an event indexer. This project models its exact-integer
arithmetic and its replayable state machines, and proves what they promise.

**The bonding curve.** `CurveMath` is the constant-product trade with the retained reserve rounded up, and
the quotes built on it. `CurveSolver` solves the starting reserves and the graduation threshold from a
price, a supply split and two flat fees. `CurveSim` trades a solved curve to graduation. The source draws
its trades from a seeded generator; here the draws are arbitrary, so a claim the derivation checks on 25
seeds is proved for every run. `Played` gives the books after each step, `SimulateFullCurve` is the loop
that keeps them for any curve with both reserves. Of the four checks inside it the product and the sign of
a purchase are assertions proved never to fail; overselling and the step limit are its error results, and
on solved constants overselling never happens. `MainnetCurve` applies this to the emitted constants.

**Ticks and liquidity.** `TickMath` multiplies the ratio of a tick from its bits, with the published table.
The ratio is strictly increasing because every row keeps a relative gap that the truncations cannot close
(`BitTable`). `TickPrice` says what the ratio is: the square root of 1.0001^tick, up to an explicit relative
error and the rounding. `TickSearch` is the inverse search from any estimate and the rounding to a usable tick.
`Isqrt` is the Newton square root, `Liquidity` the full-range mint.

**Canonical JSON.** `CanonicalJson` prints a value with sorted keys, `JsonParser` reads the grammar of
RFC 8259, `Utf8` is the encoder and the fatal decoder, and `MetadataHash` is the commitment that three
services must agree on. `Numbers` has the grammar of numbers; how a finite number prints and what a text
denotes is any pair in which printing reads back, such as the digits of the integers below 2^53.
`JsonValue` holds the values, the key order of section 3.2.3 of RFC 8785, and the normal form in which
undefined members are gone and keys are sorted.

**The indexer.** `Candles`, `Balances` and `TopHolders` are the in-memory engines and `Rebuild` the replay
of raw events through them. `Confirmation` is the watermark tracker and `Coalescer` the batching of metric
updates. Both run on timers with awaits inside, so every await is a step boundary and steps of different
ticks interleave.

**The keeper.** `Keeper` is the graduation keeper, one step for each stretch between awaits. `KeeperRuns`
lets attempts interleave with each other and with a chain whose phase only moves forward. `KeeperTxs` adds the
node, which accepts a transaction while its send is pending and may mine it long after the attempt gave up.
`KeeperVerdicts` derives what an attempt returns from the outcomes it was told alone.

**Checksums.** `Gf2` is long division of polynomials over GF(2), `Crc` the table-driven CRC-32 and `Png`
the chunk and file writer together with a reader for the format.

A class or a method with a loop stands for code that changes state in place. Each is proved against a
specification function, and the theorems are about that function.

## Where the code and its documentation disagree

- The simulation says that the last buy's excess is refunded. When the offered net covers the need only
  because the fee was floored, the clamped buy is charged more than was offered: `ClampOvercharge` gives the
  exact condition and bounds the excess, and `ClampCanChargeMore` is a simulation in which it happens.
- The keeper says that it never has two transactions in flight for a curve. Those in flight are the ones it
  gave up, because a send threw or a receipt could not be fetched, and the one it sends or awaits
  (`InFlightAreGivenUp`); a transaction joins others exactly when one that was given up is not mined yet
  (`SecondIsAccepted`). `TwoCanBeInFlight` is a run that has two for a curve that is still ready. That no hint
  or stale event causes a send for a trading or an already graduated curve holds (`KeeperSafety`). A send can
  still meet a curve that somebody else graduated, exactly when that happened while its gas estimate was
  pending (`SendMeetsGraduated`, `SendCanReachGraduated`).
- Hashing fetched bytes is said to give a hash, or null when they are not JSON. A JSON document with a
  number too large for a double makes it throw instead (`HashedIffFinite`, `TooLargeThrows`).
- The metric updates are said to be published for each token of a batch. The first row that cannot be
  projected ends the flush, and the tokens after it are not published (`ReadRowsArePublished`,
  `BrokenRowSilencesTheRest`).
- The tracker says that stored tiers never go back. This holds when ticks do not overlap
  (`SerialRunIsMonotone`). When they do, and the observed tags do not fall, a save takes the stored pair back
  exactly when the store came from tags strictly past those the saving tick fetched, so when a later fetch was
  saved first (`OverlapRegressesIff`; `OverlapCanRegress` is such a run).
- The tracker says that each advance is saved and broadcast. An advance whose save failed stays in memory:
  ticks that see the same tags pass it over, a tick that sees a lower head stores it without announcing it
  (`FailedSaveIsNotRetried`), and after a restart they announce it if the store does not hold it, and pass
  it over if it does (`RestartAfterFailedSave`). Without restarts the pair in memory is the announced
  one exactly when the last save of an advance was acknowledged (`AnnouncedIffAcknowledged`);
  `AnnouncedIffHeard` decides it, for memory and store, over every serial run.

## Model

| member | source | states |
|---|---|---|
| `CurveMath.BuyBounds` | tools/m0/lib/curve.ts:119-124 | a buy keeps the product, up to less than one unit of the grown reserve, and takes out no more tokens than there are |
| `CurveMath.SellBounds` | tools/m0/lib/curve.ts:127-132 | the same for a sale |
| `CurveMath.BuyPaysMost` | packages/shared/src/curve-quote.ts:68-77 | a payout is at most the buy's payout exactly when it keeps the product |
| `CurveMath.SellPaysMost` | packages/shared/src/curve-quote.ts:87-96 | a payout is at most the sale's payout exactly when it keeps the product |
| `CurveMath.ProductNeverFalls` | tools/m0/lib/curve.ts:118-132 | over every sequence of trades the product never falls |
| `CurveMath.NoFreeReserve` | packages/shared/src/curve-quote.ts:54-96 | no fee-free path of trades ends with less of one reserve without more of the other |
| `CurveMath.SplitBuy` | packages/shared/src/curve-quote.ts:68-77 | splitting a net buy into n buys never yields more tokens and loses at most n - 1 units |
| `CurveMath.QuotesWithinReserve` | packages/shared/src/curve-quote.ts:60-96 | quotes pay out within the reserve and nothing for a zero trade |
| `CurveMath.PreviewBuyMeaning` | packages/shared/src/curve-quote.ts:116-133 | fee and net add up to the gross, the fee is the floor of its share, and the tokens offered are exactly the payouts that keep the product |
| `CurveMath.PreviewSellMeaning` | packages/shared/src/curve-quote.ts:135-151 | the same for a sale, with the fee taken on the ETH that comes out |
| `CurveMath.RoundTripLoses` | packages/shared/src/curve-quote.ts:116-151 | selling the bought tokens straight back never returns more than the net paid |
| `CurveSolver.KeyIdentity` | tools/m0/lib/curve.ts:80-88 | with v = floor(S^2/d): (v - S - u) * v = (v - S)^2 - S^2 mod d, and v - S - u = floor(u^2/d) |
| `CurveSolver.ReserveExceedsSupply` | tools/m0/lib/curve.ts:82-95 | the virtual token reserve exceeds the curve supply whenever L + f is at least 1 |
| `CurveSolver.SolveMeaning` | tools/m0/lib/curve.ts:69-114 | for any positive price, accepted targets have the closed forms; a zero denominator comes up exactly when nothing is for sale and a negative tranche outweighs the fees |
| `CurveSolver.TerminalPrice` | tools/m0/lib/curve.ts:20-27 | the terminal price never exceeds the graduation price and misses it only by a bounded rounding term |
| `CurveSolver.ThresholdNearTarget` | tools/m0/lib/curve.ts:75-100 | the threshold is at most one wei above p*L + F + R and below it only by the price deficit |
| `CurveSim.RunInRange` | tools/m0/lib/curve.ts:199-250 | over every guarded run the product never falls, tokens sold stay within the supply and real ETH within the threshold |
| `CurveSim.RunSellsSupply` | tools/m0/lib/curve.ts:199-255 | a run that reaches the threshold leaves at most 1 + (n*max(vE0+G, vT0) + vT0 - S)/(vE0+G) tokens unsold |
| `CurveSim.ClampedGrossLeast` | tools/m0/lib/curve.ts:222-228 | net plus its clamped fee is the least gross whose after-fee share covers net |
| `CurveSim.ClampOvercharge` | tools/m0/lib/curve.ts:222-228 | a clamped buy is charged more than was offered exactly when the offered gross falls short of the need at the fee rate, and by at most 1 + (BPS-2)/(BPS-bps) |
| `CurveSim.ClampCanChargeMore` | tools/m0/lib/curve.ts:222-228 | a simulation of an anchored curve whose sixth draw offers one wei and is charged two |
| `CurveSim.RandBigRange` | tools/m0/lib/curve.ts:192-197 | a draw lies in [1, max], or is 0 when max is not positive |
| `CurveSim.PlayedIsRun` | tools/m0/lib/curve.ts:199-250 | the books after n steps are those of a guarded run of n trades, and stay open |
| `CurveSim.PlayedInRange` | tools/m0/lib/curve.ts:162-170 | in every simulation the product never falls below its start, and sold tokens and real ETH stay in range |
| `CurveSim.EthConserved` | tools/m0/lib/curve.ts:199-250 | every wei taken from buyers is in the curve, kept as a fee, or paid to a seller |
| `CurveSim.EveryStep` | tools/m0/lib/curve.ts:199-250 | in every simulation what a step does to the reserves, the fees, the ETH taken in and the ETH paid out: a sale pays the floored fee out of what leaves the curve, a buy pays the floored share of its draw, and the last one the least gross that covers the need |
| `CurveSim.GraduatedAtThreshold` | tools/m0/lib/curve.ts:222-252 | a run has graduated exactly when the curve holds the threshold, to the wei |
| `CurveSim.SimulateFullCurve` | tools/m0/lib/curve.ts:171-272 | for any curve with both reserves the loop reports the books (`EveryStep` says what they hold) of the first step that graduates; it stops short at the first step that oversells, or at the step limit, and never oversells an anchored curve |
| `CurveSim.CrossAtGraduation` | tools/m0/lib/curve.ts:257-260 | the price error at graduation is the solver's deficit plus the unsold tokens at the price |
| `CurveSim.RelErrMeaning` | tools/m0/lib/curve.ts:260-263 | the reported error is the distance of the price from the target over the target, in parts per billion rounded down |
| `MainnetCurve.TargetTickRatio` | tools/m0/derive.ts:689-700 | the ratio of tick -174000 is the square-root price the targets use |
| `MainnetCurve.TargetsSolve` | tools/m0/out/constants.ts:17-32 | solving the targets gives the emitted constants |
| `MainnetCurve.EveryRunGraduatesOnPrice` | tools/m0/derive.ts:875-902 | every guarded run of at most 100k trades that graduates leaves at most 10^15 token units and has a price error of 0 ppb |
| `MainnetCurve.EverySimulationGraduatesOnPrice` | tools/m0/derive.ts:875-902 | the same for every simulation, whatever its draws and fee rate |
| `BitTable.HasBitIsMask` | tools/m0/lib/v3tick.ts:52-56 | the bit test by halving is the mask test with a power of two |
| `BitTable.FoldFalls` | tools/m0/lib/v3tick.ts:52-56 | for any table of powers with a relative gap, the product for a + 1 is below that for a by more than the slack |
| `TickMath.TableHoldsPowers` | tools/m0/lib/v3tick.ts:24-45 | the twenty published multipliers keep that gap |
| `TickPrice.RowsAreSquares` | tools/m0/lib/v3tick.ts:24-45 | the first multiplier is the square root of 10000/10001 in Q128 rounded down, and each next one the square of the one before up to two units |
| `TickMath.RawRatioFalls` | tools/m0/lib/v3tick.ts:48-56 | the Q128 ratio falls by more than 2^32 from one absolute tick to the next |
| `TickMath.RatioStrictlyIncreasing` | tools/m0/lib/v3tick.ts:48-60 | the ratio is strictly increasing over the whole tick range |
| `TickMath.RangeEnds` | tools/m0/lib/v3tick.ts:14-17 | the range ends map to the published least and greatest ratio |
| `TickMath.UnitRatio` | tools/m0/lib/v3tick.ts:48-60 | tick 0 maps to 2^96 |
| `TickMath.RatioLoop` | tools/m0/lib/v3tick.ts:52-56 | the table loop computes the fold over the bits |
| `TickMath.GetSqrtRatioAtTick` | tools/m0/lib/v3tick.ts:48-60 | the ratio inside the range, an error outside it; what that ratio is, `TickPrice.RatioIsRootOfPrice` says |
| `TickPrice.RawBand` | tools/m0/lib/v3tick.ts:48-56 | for every absolute tick below 2^20 the Q128 value is 1.0001^(-a/2) up to 2^-64 of relative error in its square and twenty last places |
| `TickPrice.OneTickIsOneStep` | tools/m0/lib/v3tick.ts:48-56 | adjacent Q128 values differ by a factor of 1.0001 in their squares up to 2^-55 of relative error |
| `TickPrice.RatioIsRootOfPrice` | tools/m0/lib/v3tick.ts:48-60 | for every tick the ratio is 2^96 * sqrt(1.0001^tick) up to 2^-56 of relative error in its square and one unit of rounding up |
| `TickSearch.TickSplitsRange` | tools/m0/lib/v3tick.ts:62-63 | exactly the ticks up to the tick of a price have a ratio at most the price |
| `TickSearch.TickExists` | tools/m0/lib/v3tick.ts:63-66 | a price has a tick exactly when it lies between the end ratios |
| `TickSearch.Refine` | tools/m0/lib/v3tick.ts:68-80 | from any estimate the search answers exactly when the clamped estimate is within 256 ticks, and then with the tick |
| `TickMath.AcceptedPrices` | tools/m0/lib/v3tick.ts:64-65 | the accepted prices are exactly those that have a tick |
| `TickMath.GetTickAtSqrtRatio` | tools/m0/lib/v3tick.ts:63-81 | whatever the estimate, an answer t has ratio(t) <= s < ratio(t+1); the range error is exact |
| `TickSearch.UsableBounds` | tools/m0/lib/v3tick.ts:98-103 | the usable ticks are exactly the multiples between the two extreme ones |
| `TickSearch.RoundedTick` | tools/m0/lib/v3tick.ts:85-95 | the rounded tick is a neighbour of the raw one, chosen by the midpoint test, or the only usable neighbour at a range end |
| `TickSearch.NearestUsableIsNearest` | tools/m0/lib/v3tick.ts:83-96 | it is usable, within one spacing, and no usable tick of the range is geometrically nearer |
| `TickMath.NearestUsableTick` | tools/m0/lib/v3tick.ts:84-96 | the method returns that tick for every estimate |
| `Isqrt.FloorSqrtUnique` | tools/m0/lib/v3tick.ts:105-116 | the floor square root is unique |
| `Isqrt.StartAbove` | tools/m0/lib/v3tick.ts:109-109 | half the bit length, rounded up, starts at or above the root |
| `Isqrt.NewtonAbove` | tools/m0/lib/v3tick.ts:110-114 | a Newton step never falls below the root |
| `Isqrt.NewtonStops` | tools/m0/lib/v3tick.ts:111-111 | a step that does not fall has reached the root |
| `Isqrt.Newton` | tools/m0/lib/v3tick.ts:109-115 | the loop ends at the root from any start at or above it |
| `Isqrt.Isqrt` | tools/m0/lib/v3tick.ts:106-116 | the exact floor square root for every n, an error exactly for negative n |
| `Isqrt.SqrtPriceX96FromPrice` | tools/m0/lib/v3tick.ts:119-121 | the greatest p with p^2 * den <= num * 2^192 |
| `Liquidity.Amount0Fits` | tools/m0/lib/v3tick.ts:126-142 | any liquidity up to L0 consumes at most amount0 |
| `Liquidity.Amount1FitsExactly` | tools/m0/lib/v3tick.ts:133-148 | a liquidity's amount1 fits exactly when it is at most L1 |
| `Liquidity.NoOvershoot` | tools/m0/lib/v3tick.ts:174-179 | min(L0, L1) fits both amounts |
| `Liquidity.MintBetween` | tools/m0/lib/v3tick.ts:174-184 | the correction loop runs zero times, the consumed amounts fit and both dusts are non-negative |
| `Liquidity.FullRangeMint` | tools/m0/lib/v3tick.ts:164-185 | the mint between two ticks, or the exact error |
| `Liquidity.MintDust` | tools/m0/lib/v3tick.ts:158-185 | on the side that bound the mint the dust is bounded by the price span |
| `JsonValue.LessIsByCodeUnit` | packages/shared/src/metadata.ts:99-102 | a key precedes another exactly when it is a proper prefix of it or has the smaller code unit where they first differ |
| `JsonValue.SortMeaning` | packages/shared/src/metadata.ts:101-102 | sorting puts the keys in the order of `Less` and keeps every lookup |
| `JsonValue.SortedUnique` | packages/shared/src/metadata.ts:101-102 | a sorted member list is determined by its lookups |
| `JsonValue.AgreeIsSameNorm` | packages/shared/src/metadata.ts:99-107 | values agree up to key order and undefined members exactly when their normal forms are equal |
| `CanonicalJson.NormPrintsSame` | packages/shared/src/metadata.ts:72-114 | a value and its normal form print the same text or fail alike |
| `CanonicalJson.ObjectText` | packages/shared/src/metadata.ts:99-107 | the text of an object: its defined members between braces, each a quoted key, a colon and the text of its value, in ascending order of the keys by code unit |
| `CanonicalJson.EscapeUnitIs` | packages/shared/src/metadata.ts:83-87 | the escape of every code unit: a letter where there is one, four lower-case digits for other controls and lone surrogates, else the unit |
| `CanonicalJson.GoldenText` | packages/shared/src/metadata.ts:72-114 | {b: [null], a: false} prints as {"a":false,"b":[null]} |
| `CanonicalJson.CanonicalWellFormed` | packages/shared/src/metadata.ts:83-87 | no lone surrogate reaches the output |
| `JsonParser.StringRoundTrip` | packages/shared/src/metadata.ts:83-87 | parsing an escaped string gives it back, lone surrogates included |
| `JsonParser.NumberRoundTrip` | packages/shared/src/metadata.ts:77-82 | parsing any printed finite number gives it back |
| `JsonParser.NumberDocument` | packages/shared/src/metadata.ts:146-146 | a text of the number grammar, with fraction and exponent or without, reads as the number it denotes, and as a non-finite one when that is too large |
| `Numbers.SafeIntegersAreLawful` | packages/shared/src/metadata.ts:77-82 | the decimal digits of the integers below 2^53 read back, so the round trips hold for them |
| `JsonParser.ValueRoundTrip` | packages/shared/src/metadata.ts:72-114 | parsing the text of any nested value gives its normal form and leaves what follows |
| `JsonParser.ParseCanonical` | packages/shared/src/metadata.ts:116-119 | a whole document parses back to its normal form |
| `JsonParser.SafeIntegerDocuments` | packages/shared/src/metadata.ts:116-119 | the same with no assumption on printing, when the numbers are integers below 2^53 |
| `JsonParser.SameTextIffAgree` | packages/shared/src/metadata.ts:116-119 | two values print alike exactly when they agree up to key order and undefined members |
| `JsonParser.AddFirstMeaning` | packages/shared/src/metadata.ts:146-146 | of two members with one key the parser keeps the later value |
| `JsonParser.ParsedIsJson` | packages/shared/src/metadata.ts:146-150 | everything the parser accepts has distinct keys and only JSON values |
| `JsonParser.JsonCanonicalizes` | packages/shared/src/metadata.ts:72-114 | a JSON value has a canonical text exactly when no number in it is too large, and the error is that of the number |
| `JsonParser.CanonicalFixpoint` | packages/shared/src/metadata.ts:137-151 | a parsed document has a canonical text exactly when its numbers are finite, and canonicalizing it is then idempotent |
| `Utf8.PointRoundTrip` | packages/shared/src/metadata.ts:126-126 | every scalar value decodes from its shortest form |
| `Utf8.KnownPoints` | packages/shared/src/metadata.ts:126-126 | the published examples of each length |
| `Utf8.EncodeDecodes` | packages/shared/src/metadata.ts:125-146 | well-formed text survives encoding and fatal decoding |
| `MetadataHash.BytesDecode` | packages/shared/src/metadata.ts:121-127 | canonical bytes decode to the canonical text |
| `MetadataHash.HashedIffFinite` | packages/shared/src/metadata.ts:143-151 | fetched bytes give null exactly when they hold no document, a hash exactly when its numbers are finite, and throw otherwise |
| `MetadataHash.TooLargeThrows` | packages/shared/src/metadata.ts:137-151 | the five bytes of 1e999 are JSON and make the hashing throw |
| `MetadataHash.PublishedBytesVerify` | packages/shared/src/metadata.ts:129-151 | hashing the fetched published bytes gives the committed hash, and the document up to key order |
| `MetadataHash.VerifiesIffAgrees` | packages/shared/src/metadata.ts:137-151 | for any hash, fetched bytes verify exactly when their document agrees with the committed one or the two canonical texts collide |
| `Candles.CandleStore.constructor` | apps/indexer/src/candles.ts:101-103 | a new store has no rows |
| `Candles.CandleStore.Apply` | apps/indexer/src/candles.ts:108-114 | the loop over the intervals stores the rows of one applied trade |
| `Candles.ApplyAtKey` | apps/indexer/src/candles.ts:43-84 | a trade changes exactly the bucket it falls in at each interval |
| `Candles.FloorUnique` | apps/indexer/src/candles.ts:21-24 | the bucket start is the only multiple within one width below the time |
| `Candles.PriceExtremes` | apps/indexer/src/candles.ts:70-78 | the declarative high and low are attained and bound every price |
| `Candles.FoldIsSummary` | apps/indexer/src/candles.ts:43-114 | in order, every row is the declarative candle of its bucket, and every bucket with a trade has a row |
| `Candles.FoldIsLeaders` | apps/indexer/src/candles.ts:43-114 | for any stream every row is the declarative candle of the trades that were ahead of all earlier ones of their bucket |
| `Candles.HighWater` | apps/indexer/src/candles.ts:60-66 | a delivered trade is at or behind the position of every bucket it falls in |
| `Candles.ReapplyIsNoOp` | apps/indexer/src/candles.ts:60-66 | applying a delivered trade again changes nothing |
| `Candles.RedeliveryIsIdempotent` | apps/indexer/src/candles.ts:43-114 | new trades mixed with re-deliveries leave the store of the new trades |
| `Candles.StoreAfterRedelivery` | apps/indexer/src/candles.ts:43-114 | after such a stream every row is the declarative candle of the distinct trades |
| `Candles.CoarseIsMergeOfFine` | packages/shared/src/constants.ts:75-87 | each candle is the merge of the finer candles inside it, for every pair of the six intervals |
| `Candles.VolumeConserved` | apps/indexer/src/candles.ts:43-114 | at every interval the rows of a token carry exactly the ETH volume, the token volume and the number of its trades |
| `Balances.BalanceLedger.constructor` | apps/indexer/src/balances.ts:61-63 | a new ledger is empty |
| `Balances.BalanceLedger.ApplyTransfer` | apps/indexer/src/balances.ts:89-105 | a transfer moves the ledger to the state after debit and credit, with the holder count |
| `Balances.BalanceLedger.ApplyCostBasisBuy` | apps/indexer/src/balances.ts:107-114 | a buy changes only the trader's cost columns |
| `Balances.BalanceLedger.ApplyCostBasisSell` | apps/indexer/src/balances.ts:116-123 | a sale changes only the trader's cost columns |
| `Balances.BalanceIsNet` | apps/indexer/src/balances.ts:89-123 | after any stream a balance is transfers in minus transfers out; cost-basis calls add nothing |
| `Balances.CostBasisIsSum` | apps/indexer/src/balances.ts:107-123 | after any stream each cost column of a holder is the sum of what its cost-basis calls carried |
| `Balances.TimesMeaning` | apps/indexer/src/balances.ts:61-123 | a holder has a row exactly when an operation was about it, and its two times are those of the first and the last |
| `Addresses.SameAddress` | apps/indexer/src/balances.ts:52-54 | two spellings are one address exactly when they differ only in the case of letters |
| `Balances.HolderCountIsExact` | apps/indexer/src/balances.ts:42-50 | after any stream the holder count is the number of addresses with a positive balance |
| `Balances.BalancesConserved` | apps/indexer/src/balances.ts:89-105 | balances sum to minted minus burned |
| `Balances.OnlyTransfersMatter` | apps/indexer/src/balances.ts:61-123 | balances and holder count depend only on the multiset of transfers |
| `TopHolders.TopMeaning` | apps/indexer/src/balances.ts:147-156 | at most limit positive holders, largest first, none twice, and nobody left out holds more |
| `TopHolders.TopIsFull` | apps/indexer/src/balances.ts:147-156 | after any stream the list has min(limit, holder count) entries |
| `Rebuild.ReplayEvent` | apps/indexer/scripts/rebuild.ts:99-119 | one merged event goes through the candle store, the ledger and the token counters |
| `Rebuild.Replay` | apps/indexer/scripts/rebuild.ts:89-131 | the method computes the rebuild of its two inputs |
| `Rebuild.SumWindow` | apps/indexer/scripts/rebuild.ts:122-128 | the loop computes the 24h volumes, whose meaning is `VolumeMeaning` |
| `Rebuild.VolumeMeaning` | apps/indexer/scripts/rebuild.ts:122-128 | a token has a 24h volume exactly when it has a trade: the ETH of its trades no more than 86400 seconds older than its newest one |
| `Rebuild.CountersMeaning` | apps/indexer/scripts/rebuild.ts:109-113 | a token has counters exactly when it has a trade: the number of its trades and their greatest time |
| `Rebuild.LastPriceMeaning` | apps/indexer/scripts/rebuild.ts:110-113 | the last price is that of the token's last trade by block and log |
| `Rebuild.RebuiltCostBasis` | apps/indexer/scripts/rebuild.ts:107-109 | the cost columns are sums over the trades given: buys at the gross amount, sales net of the fee |
| `Rebuild.ReplayOrderFree` | apps/indexer/scripts/rebuild.ts:89-131 | with distinct positions the rebuild is the same for every ordering of its inputs |
| `Rebuild.FoldIsEngines` | apps/indexer/scripts/rebuild.ts:95-120 | the replay is the candle fold of its trades and the ledger run of its operations |
| `Rebuild.StreamsDetermine` | apps/indexer/scripts/rebuild.ts:88-131 | candles are those of the trades alone; balances and holder counts those of the transfers alone |
| `Rebuild.LiveStateIsReplayed` | apps/indexer/scripts/rebuild.ts:8-12 | engines fed live, each event once and in order, have the candles, ledger and counters of a rebuild from the same events |
| `Rebuild.LiveRowsAreReplayed` | apps/indexer/scripts/rebuild.ts:8-12 | the candles of a live stream with re-deliveries are those of a rebuild from its distinct trades |
| `Keeper.GraduationKeeper.StartAttempt` | apps/keeper/src/keeper.ts:131-150 | dedup and cooldown gate, up to the first phase read |
| `Keeper.GraduationKeeper.NextAttempt` | apps/keeper/src/keeper.ts:164-201 | the next send attempt, or the cooldown and the persistent failure |
| `Keeper.GraduationKeeper.AttemptFailed` | apps/keeper/src/keeper.ts:179-186 | a failed attempt sleeps unless it was the last |
| `Keeper.GraduationKeeper.ResumePhase` | apps/keeper/src/keeper.ts:150-162 | what each phase read leads to, before the first send and after a failure; `KeeperVerdicts` says what that amounts to |
| `Keeper.GraduationKeeper.ResumeEstimate` | apps/keeper/src/keeper.ts:206-218 | an estimate leads to a send, a throw to a phase read |
| `Keeper.GraduationKeeper.ResumeSend` | apps/keeper/src/keeper.ts:215-227 | a send leads to a receipt wait, a throw to a phase read |
| `Keeper.GraduationKeeper.ResumeReceipt` | apps/keeper/src/keeper.ts:223-238 | success returns, a failed fetch is transient, a revert leads to a phase read |
| `Keeper.GraduationKeeper.ResumeSleep` | apps/keeper/src/keeper.ts:184-187 | after the backoff the loop goes on |
| `Keeper.GraduationKeeper.Finish` | apps/keeper/src/keeper.ts:143-145 | the finally block releases the curve |
| `KeeperRuns.ResumeOk` | apps/keeper/src/keeper.ts:148-254 | one resumption keeps an attempt's bookkeeping and sends only to a curve past Trading, outside a cooldown and below the limit |
| `KeeperRuns.RunKeeps` | apps/keeper/src/keeper.ts:131-254 | every interleaving of calls, resumptions, clock and chain steps keeps the invariant |
| `KeeperRuns.KeeperSafety` | apps/keeper/src/keeper.ts:4-26 | one attempt a curve; no send to a Trading curve, and none by a trigger that found the curve graduated; at most maxAttempts sends an attempt; none before a cooldown ends; success only when the chain is graduated |
| `KeeperVerdicts.ReturnsAreVerdicts` | apps/keeper/src/keeper.ts:131-254 | in every run a returned status is the verdict on the phase reads and receipts the attempt was told, unless its call was refused |
| `KeeperVerdicts.PersistentAfterMaxAttempts` | apps/keeper/src/keeper.ts:164-201 | an attempt that reads ready first and then only fails gives up after exactly maxAttempts failed tries and not before, and returns failed_persistent |
| `KeeperVerdicts.PersistentIsLogged` | apps/keeper/src/keeper.ts:189-201 | failed_persistent comes only with the attempt's exhaustion, after maxAttempts failed tries |
| `KeeperVerdicts.EarlyVerdicts` | apps/keeper/src/keeper.ts:148-162 | an attempt that has issued an estimate never returns not_ready or phase_unavailable |
| `KeeperVerdicts.NotReadyWasTrading` | apps/keeper/src/keeper.ts:155-158 | not_ready is returned only by an attempt called while its curve was trading |
| `KeeperVerdicts.CallIsAnswered` | apps/keeper/src/keeper.ts:126-146 | a call is refused exactly while an attempt on its curve runs or an exhaustion of it is less than a cooldown old |
| `KeeperRuns.SendMeetsGraduated` | apps/keeper/src/keeper.ts:205-221 | every send goes to a curve that was ready when its estimate was issued, and meets it graduated exactly when it graduated between that moment and the send |
| `KeeperRuns.SendCanReachGraduated` | apps/keeper/src/keeper.ts:205-221 | a run in which the curve graduates while the estimate is pending, and the send follows |
| `KeeperTxs.PoolIsRun` | apps/keeper/src/keeper.ts:204-240 | the keeper in a world that accepts and mines transactions makes a run of KeeperRuns, so its theorems hold there |
| `KeeperTxs.InFlightAreGivenUp` | apps/keeper/src/keeper.ts:215-230 | unmined transactions of a curve are those given up and not yet mined plus the one sent or awaited; of two in flight the earlier was given up |
| `KeeperTxs.SecondIsAccepted` | apps/keeper/src/keeper.ts:6-9 | a transaction joins others of its curve in flight exactly when one that was given up is not mined |
| `KeeperTxs.GivenUpIff` | apps/keeper/src/keeper.ts:216-230 | a transaction is given up exactly by a step in which its send throws or its receipt cannot be fetched |
| `KeeperTxs.TwoCanBeInFlight` | apps/keeper/src/keeper.ts:6-7 | a run from the start with two unmined transactions for a curve that is still ready |
| `Confirmation.TierNeverFalls` | packages/shared/src/confirmation.ts:53-84 | when watermarks do not go back no block's tier does, and the held tier is the upgrade of the two |
| `Confirmation.BoundaryBlocks` | packages/shared/src/confirmation.ts:76-84 | the finalized block itself is final, the safe one is posted, the next one is neither |
| `Confirmation.OrphanFloor` | apps/indexer/src/confirmation.ts:102-104 | a reorg notice goes out exactly when the head went back, and its floor is the first block above the observed head |
| `Confirmation.FetchMeaning` | apps/indexer/src/confirmation.ts:87-186 | a tick carries the observed head, never lowers safe or finalized, and saves exactly on an advance or a reorg |
| `Confirmation.ConfirmationTracker.constructor` | apps/indexer/src/confirmation.ts:196-201 | the state is the stored one, or zero |
| `Confirmation.ConfirmationTracker.BeginTick` | apps/indexer/src/confirmation.ts:203-205 | a tick starts from the state of that moment |
| `Confirmation.ConfirmationTracker.ResumeFetch` | apps/indexer/src/confirmation.ts:156-181 | what a tick does with the fetched tags |
| `Confirmation.ConfirmationTracker.ResumeSave` | apps/indexer/src/confirmation.ts:175-185 | a broadcast follows an acknowledged save of an advance |
| `Confirmation.ConfirmationTracker.AssignResult` | apps/indexer/src/confirmation.ts:205-207 | the finished tick's result replaces the state |
| `Confirmation.RunKeeps` | apps/indexer/src/confirmation.ts:156-217 | every serial run, with failed fetches, failed saves and restarts, keeps the invariant |
| `Confirmation.SerialRunIsMonotone` | apps/indexer/src/confirmation.ts:79-96 | when ticks do not overlap, stored watermarks and every block's tier never fall, and broadcasts are stored values that strictly advance |
| `Confirmation.BroadcastMeaning` | apps/indexer/src/confirmation.ts:175-177 | a broadcast goes out exactly for an acknowledged save of an advance, equals the stored pair and is strictly past the one before |
| `Confirmation.AnnouncedIffHeard` | apps/indexer/src/confirmation.ts:156-217 | over every serial run, whether the stored pair and the pair in memory equal the last broadcast is decided by the outcomes of saves and the restarts |
| `Confirmation.AnnouncedIffAcknowledged` | apps/indexer/src/confirmation.ts:171-181 | without restarts the pair in memory equals the last broadcast exactly when the last save of an advance was acknowledged |
| `Confirmation.OverlapCanRegress` | apps/indexer/src/confirmation.ts:203-208 | two overlapping ticks leave an older watermark stored |
| `Confirmation.OverlapRegressesIff` | apps/indexer/src/confirmation.ts:156-217 | in every overlapping run with tags that do not fall a landed save takes the stored pair back exactly when the store came from tags strictly past those it fetched, and when a tier falls with it |
| `Confirmation.TierFallsIff` | packages/shared/src/confirmation.ts:53-84 | from one pair to another some block loses its tier exactly when finalized goes back, or safe from past both |
| `Confirmation.FailedSaveIsNotRetried` | apps/indexer/src/confirmation.ts:171-185 | the runs from the start in which a failed save is followed by the same tags, which are passed over, and by a lower head, which stores the advance unannounced |
| `Confirmation.RestartAfterFailedSave` | apps/indexer/src/confirmation.ts:171-202 | after a restart a tick that sees the same tags announces the advance if its save had not landed, and passes it over if it had |
| `Coalescer.TokenMetricsCoalescer.constructor` | apps/indexer/src/tokenMetrics.ts:197-204 | a new coalescer is not armed and holds nothing |
| `Coalescer.TokenMetricsCoalescer.Start` | apps/indexer/src/tokenMetrics.ts:219-228 | starting arms it |
| `Coalescer.TokenMetricsCoalescer.Enqueue` | apps/indexer/src/tokenMetrics.ts:211-216 | an accepted sample replaces one of its token with a block not above its own, in its place, or goes last |
| `Coalescer.TokenMetricsCoalescer.BeginFlush` | apps/indexer/src/tokenMetrics.ts:236-244 | a flush takes the whole pending batch, or does nothing |
| `Coalescer.TokenMetricsCoalescer.EndFlush` | apps/indexer/src/tokenMetrics.ts:243-257 | the loop publishes in batch order the entries that have a row, up to the first row that cannot be projected; none when the read threw |
| `Coalescer.KeepCoalesces` | apps/indexer/src/tokenMetrics.ts:214-215 | the pending batch holds the last sample of the highest block of each token in the window, in the order in which the tokens appeared |
| `Coalescer.TakenIffStarted` | apps/indexer/src/tokenMetrics.ts:211-213 | a sample is taken exactly when the gate is open and the coalescer was started before |
| `Coalescer.RunKeeps` | apps/indexer/src/tokenMetrics.ts:190-257 | every interleaving of enqueues and overlapping flushes keeps the invariant |
| `Coalescer.FlushPublishesLatest` | apps/indexer/src/tokenMetrics.ts:230-257 | a flush publishes at most once per token, and then the latest sample of its window |
| `Coalescer.ReadRowsArePublished` | apps/indexer/src/tokenMetrics.ts:245-251 | in every run a token is published exactly when the read returned its row and no row up to it, in the order of first appearance, fails to project |
| `Coalescer.BrokenRowSilencesTheRest` | apps/indexer/src/tokenMetrics.ts:243-257 | a run in which the row of the first token cannot be projected, and nothing is published although the row of the second was read |
| `Coalescer.AcceptedIsNeverLost` | apps/indexer/src/tokenMetrics.ts:206-257 | an accepted sample is dominated by the pending one or was taken, at least as recent, by a later flush |
| `Gf2.RemainderDivides` | tools/localstack/seed-chain.ts:199-200 | long division finds a quotient: p = q*g + r with r of lower degree |
| `Gf2.RemainderIsUnique` | tools/localstack/seed-chain.ts:199-200 | no other r of lower degree fits |
| `Gf2.ClockAllDivides` | tools/localstack/seed-chain.ts:205-208 | clocking a message through a shift register leaves the remainder |
| `Gf2.TableLookup` | tools/localstack/seed-chain.ts:213-213 | n message bits act through their sum with the leading n register bits; the others only move up |
| `Gf2.BurstChangesRegister` | tools/localstack/seed-chain.ts:199-200 | errors within as many consecutive bits as the register is wide change the remainder |
| `Crc.GeneratorIsStandard` | tools/localstack/seed-chain.ts:206-206 | the divisor has exactly the terms of section 5.5 of the PNG Specification (Third Edition) |
| `Crc.MakeTable` | tools/localstack/seed-chain.ts:202-210 | the table holds eight shifts of each byte |
| `Crc.EntryIsRemainder` | tools/localstack/seed-chain.ts:204-208 | an entry is the remainder of its byte times x^32 |
| `Crc.TableStepClocks` | tools/localstack/seed-chain.ts:213-213 | one lookup is eight clocks of the bit-serial register |
| `Crc.Crc32` | tools/localstack/seed-chain.ts:211-215 | the loop computes the checksum of any byte sequence |
| `Crc.ChecksumIsDivision` | tools/localstack/seed-chain.ts:202-215 | the checksum is the complemented remainder of bit-by-bit division |
| `Crc.BurstsAreDetected` | tools/localstack/seed-chain.ts:199-200 | messages that differ only within 32 consecutive bits have different checksums |
| `Png.NumberRoundTrip` | tools/localstack/seed-chain.ts:219-219 | the 32-bit field reads back as the value modulo 2^32 |
| `Png.WordBytesRead` | tools/localstack/seed-chain.ts:222-222 | the checksum is stored with its most significant byte first |
| `Png.PngChunk` | tools/localstack/seed-chain.ts:216-224 | the buffer filled by offset holds length, type, data and checksum |
| `Png.ChunkRoundTrip` | tools/localstack/seed-chain.ts:216-224 | a chunk reads back exactly when its length fits the field |
| `Png.DamageIsRefused` | tools/localstack/seed-chain.ts:216-224 | a chunk altered within 32 consecutive bits of type and data is refused |
| `Png.MakePng` | tools/localstack/seed-chain.ts:225-246 | the file assembled in place is signature, header, data and end chunk |
| `Png.FileRoundTrip` | tools/localstack/seed-chain.ts:225-246 | a reader recovers the size and the scanlines that were compressed |
| `Png.FileOpens` | tools/localstack/seed-chain.ts:225-237 | every file opens with the signature and an IHDR chunk of 13 bytes for 8-bit RGB |
| `Png.PictureIsSolid` | tools/localstack/seed-chain.ts:231-234 | every pixel has the given colour and every line is unfiltered |

## Left out

- The Solidity contracts, Uniswap, Safe, viem and zod are not part of this model, except that graduating a curve reverts unless it is ready (contracts/src/BondingCurve.sol:344). The hash is any function.
- The trade generator `mulberry32` is replaced by arbitrary draws: any sell coin and any 48 bits at each step.
- The logarithm estimate of the tick search is replaced by any integer, so that no floating point is involved.
- Candle prices are real numbers: NaN and rounding are not modelled.
- JSON numbers are any type with a lawful pair of printing and reading; the shortest printing of doubles itself and its rounding are not modelled, and positive and negative zero, which print alike, are one number.
- Sparse arrays, objects with their own `toJSON`, the path in error messages, the enumeration of integer-like keys and the recursion depth of the JSON code are not modelled.
- Nested mutable maps of the ledger and the candle store are fields of type `map` that the methods reassign, and the coalescer's batch is the sequence of its entries; aliasing of their rows is not modelled. Map iteration order matters only for ties in `TopHolders.TopMeaning`, which holds for every order; a negative limit there is not modelled.
- The coalescer's interval and its realtime latch's source; what a row projects to, or why its projection throws.
- The keeper's gas amounts, backoff durations, logs, metrics and `cooldownCount`. A sweep is a sequence of calls. The clock does not go back, and a phase read returns the phase at some moment after it was asked.
- `CandleStore.rows` and `series`, `candleBucketsForTrade`, `getState`, `entries`, `tokens`, the write-back of a rebuild and its summary output.
- `sampleCurve` and the derivation's other checks, plots and notebooks.
- The deflate compression of the picture is any function that some inflate undoes; the reader accepts files of exactly three chunks.
- Postgres, Redis, WebSocket and HTTP plumbing, the Ponder handlers, the web app, deploy and code-generation scripts, schemas, gas doubling, fee sweepers and registries: plumbing, or true but easy.
- SimulateFullCurve: takes positive reserves, a positive price and a fee rate below 100%; what the source does with others is not modelled.
- SolveMeaning: takes a positive price; a zero price divides by zero, and a negative one is not modelled.
- ThresholdNearTarget: takes fees that are not negative together.
- FoldIsSummary: takes streams in order; the engine skips a late trade by design, and `Candles.FoldIsLeaders` says of any stream which trades a row summarises.
- OverlapRegressesIff: takes observed safe and finalized blocks that do not fall; after a lower reading a tick carries the maximum of two readings instead of the one it fetched.
- LiveStateIsReplayed: takes each event once; a transfer delivered twice is counted twice by the ledger.
- CoarseIsMergeOfFine: needs timestamps that do not fall, because otherwise a coarse candle's first trade need not be in its first fine candle.
- BurstsAreDetected: covers bursts up to 32 bits; longer damage can go undetected with any 32-bit checksum.
