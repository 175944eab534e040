# Verified model of the arbitrage detector

`arbd` watches Ethereum blocks. For every block it asks each venue (a Binance orderbook, a Uniswap V3 pool) for
the effective price of a list of trade sizes, pairs the answers of different venues, computes the net profit of
each pair of legs and reports those above a threshold. This project models the four parts of that program whose
correctness is not obvious from one function, and the program they make up:

| files | what they model |
|---|---|
| `Decimals`, `Pricing`, `Messages` | decimal arithmetic, quotes, the values that travel between the stages |
| `Orderbook`, `Binance`, `StaticBook` | the greedy walk of a book, the cursor that escalates through depth tiers, taker fees, slippage |
| `Uniswap`, `Arbitrage`, `EndToEnd`, `Decisions`, `Consume` | raw amounts and pool quotes, the profit decision against exact arithmetic, the reporting loop |
| `Pathfinder`, `PathfinderTraces`, `PathfinderLaws`, `Multiplicity`, `ArrivalOrder`, `CandidateCounts` | pairing results by block, over every stream of results in any order |
| `Chain`, `Dispatcher`, `Daemon`, `Shutdown`, `Rest`, `Pipeline`, `Provenance` | the subscriber, the dispatcher with its goroutines, and the whole program as a concurrent protocol |

## How the program is modelled

- Code that updates state is imperative: `WalkOrderbook`, `PickDepthLimit`, `FillSide`, `MarkInsufficient`, `Consume`
  and both `EffectivePrices` keep the loops, cursors and in-place slices of the source. `Pathfinder` is a class with
  the source's fields, whose context may be cancelled at any moment. `Subscriber` and `Dispatcher` are classes that
  keep the source's nested loops; where the source blocks they read the next occurrence off a finite script, and a
  script that runs out leaves them blocked. Each is proved equal to a specification function or to the steps of a
  state machine, and the laws are proved about those.
- The concurrent protocol is a state machine. Every goroutine's blocking operation is a position, every arm of a
  `select` a step, and a send on an unbuffered channel happens together with its receive. A *schedule* is any
  sequence of steps; a law about schedules holds for every interleaving.
- `Chain.Play`, `Dispatcher.Play` and `Daemon.Play` give the state after any schedule; reachable means reachable by one.
  The program is *at rest* when it is not cancelled, its venues have answered, and it can take no step by itself.
- What the program gets from outside is arbitrary: the book a depth request answers, what a simulated swap returns,
  the result of a dial, headers, timers, the moment of cancellation, a venue's snapshot.
- Go's map iteration and `select` choose freely; so do the model's.

Assumptions, all of which the source relies on too:

- Decimals are reals. Add, Sub, Mul, Shift and Cmp are exact; `Div` rounds to 16 places, halves away from zero,
  which is the default precision of the decimal library and is not overridden.
- Converting a big integer to a signed 64-bit one takes its low 64 bits. Go documents a value that does not fit as
  undefined; this is what its implementation does, and only the tier laws for such counts depend on it.
- Trade sizes ascend (required by `internal/cex/binance/client.go:79`) and are not zero for the pool adapter, which
  divides by them; level sizes are not negative; for the slippage laws books are sorted
  (`internal/cex/binance/orderbook.go:28-32`).
- The law about the spread of a venue assumes that bids are not negative.
- Results have at least as many Sell rows as Buy rows. `emitPairs` indexes Sell by Buy; both adapters are proved to
  deliver that, and the type `IndexableQuotes` carries it through the pipeline.
- Laws that say so assume at most one result per venue and block, which is proved to follow from events with
  distinct block numbers (no reorganisation).

## What the proofs found

- `pickDepthLimit` is documented to pick the smallest tier that covers the largest size. Because the quotient is
  rounded before it is compared, it picks one too small when the size exceeds a tier's estimate by less than half a
  unit of the 16th place per level (`PicksTooSmallATier`); and a level count beyond 63 bits wraps to a negative or a
  small one (`WrapsToTheSmallestTier`). `PicksSmallestCoveringIff` says exactly when the documented choice is made.
  On a standing book the prices are not affected, because the tier loop escalates (`DensityDoesNotMatter`).
- Sell prices fall with the size for fees up to 10000 bps and for no other fee (`SellPricesFallIff`).
- Comments on the subscriber (`internal/chain/subscriber.go:88-90,134-136`) say that it returns only once its context
  is done. It also returns when a dial fails with a context error of its own, such as an inner deadline
  (`ReturnsThoughContextIsAlive`); uncancelled, it returns exactly then (`ReturnsUncancelledIff`). If the error is a
  deadline the program ends with an error, and this is the only way it can (`ExitDiagnosis`).
- A venue that reports twice on one block can be paired with itself (`RepeatedVenueTradesWithItself`), since `handle`
  does not exclude the reporting venue. `VenueTradesWithItselfIff` says exactly when; it cannot happen while events
  have distinct block numbers (`ConsumedCandidatesAreSound`).
- A pool's raw amount can be read back off the rounded price exactly for sizes up to ten to the power of 16 minus the
  decimals of the quote token (`RawAmountsRecoveredIff`).
- After a cancellation a `select` may still take a header or an elapsed back-off instead of the cancellation. The
  program exits if and only if this stops happening (`ExitsIff`); `NeedNotExit` is an execution from the start in which
  it does not. Go's random choice makes that improbable, not impossible.

## Model

| member | source | states |
|---|---|---|
| Orderbook.WalkOrderbook | internal/cex/binance/orderbook.go:36-55 | the loop over levels pays units times price, level by level and best levels first, for units that add up to the size; its price is that total per unit, rounded to 16 places |
| Orderbook.WalkPaysForWhatItTakes | internal/cex/binance/orderbook.go:36-55 | the same of the walk as a function, which is refused exactly for a size that is not positive or exceeds the depth |
| Orderbook.FlatBook | internal/cex/binance/orderbook.go:40-53 | on a book of one price a covered size costs the size times that price, and a unit that price |
| Orderbook.UnfilledIsShortfall | internal/cex/binance/orderbook.go:40-52 | what a walk leaves unfilled is exactly the size minus the total depth, or nothing |
| Orderbook.CoveredIffDeepEnough | internal/cex/binance/orderbook.go:34-52 | a walk succeeds if and only if the size is at most the total depth, and reports insufficient depth if and only if it is more |
| Orderbook.PrefixStable | internal/cex/binance/orderbook.go:42-49 | levels behind the last one needed change neither what is filled nor the cost |
| Orderbook.GreedyIsAnAllocation | internal/cex/binance/orderbook.go:42-49 | the walk takes from each level no more than it holds, and the requested size in all |
| Orderbook.GreedyCost | internal/cex/binance/orderbook.go:42-49 | the walk's total is the cost of the allocation it makes |
| Orderbook.GreedyIsCheapest | internal/cex/binance/orderbook.go:31-49 | on ascending asks no allocation of the size within the levels costs less than the walk |
| Orderbook.GreedyEarnsMost | internal/cex/binance/orderbook.go:32-49 | on descending bids no allocation of the size within the levels earns more than the walk |
| Orderbook.MarginalCost | internal/cex/binance/orderbook.go:42-49 | every further unit costs at least the lowest price of the book |
| Orderbook.VwapRisesOnAsks | internal/cex/binance/orderbook.go:40-53 | the average price of a buy never falls with its size |
| Orderbook.VwapFallsOnBids | internal/cex/binance/orderbook.go:40-53 | the average price of a sell never rises with its size |
| Orderbook.CostIsSuperadditive | internal/cex/binance/orderbook.go:40-49 | one large buy never costs less than two separate ones of the same total on the same book |
| Orderbook.ProceedsAreSubadditive | internal/cex/binance/orderbook.go:40-49 | one large sell never earns more than two separate ones of the same total on the same book |
| Binance.PickDepthLimit | internal/cex/binance/client.go:33-50 | the loops find the largest size and the first tier that reaches the level count |
| Binance.NothingToEstimate | internal/cex/binance/client.go:40-42 | without a size or a density estimate the smallest tier is picked |
| Binance.TierAcceptedIff | internal/cex/binance/client.go:43-48 | a tier is accepted if and only if the size is below its estimate plus half a rounding unit per level, or, for a level count beyond 63 bits, if its low 64 bits are at most the tier or negative |
| Binance.PickedTierCovers | internal/cex/binance/client.go:40-49 | no smaller tier covers the size; the picked one covers it up to half a rounding unit per level or is the deepest if and only if the level count fits 63 bits or wraps to more than 500 |
| Binance.PicksSmallestCoveringIff | internal/cex/binance/client.go:30-50 | the documented choice is made if and only if the size is not just beyond one of the two smaller tiers or, for a level count beyond 63 bits, the count wraps to more than 500 |
| Binance.PicksTooSmallATier | internal/cex/binance/client.go:30-50 | a size just beyond the smallest tier, for which the documented choice is not made |
| Binance.WrapsToTheSmallestTier | internal/cex/binance/client.go:30-50 | a size of two to the power of 63 levels, which is served by the smallest tier though only the deepest could do |
| Binance.FeeRateIsExact | internal/cex/binance/client.go:155 | the division by 10000 never rounds |
| Binance.FeeIsExact | internal/cex/binance/client.go:151-166 | a buyer pays the price plus, a seller gets it minus, so many ten-thousandths, exactly |
| Binance.QuoteFromBook | internal/cex/binance/client.go:127-142 | a book's quote for a size: the size error, the depth error, or a clean price without gas that is the fee applied to the average the walk pays |
| Binance.FillSide | internal/cex/binance/client.go:127-142 | fills slots from the cursor up to the first size the book is too thin for, returns its index, leaves every other slot alone |
| Binance.MarkInsufficient | internal/cex/binance/client.go:170-174 | marks exactly the slots from the cursor on |
| Binance.ThinnessIsMonotone | internal/cex/binance/client.go:91-94 | a book too thin for one size is too thin for every larger one |
| Binance.CursorAdvances | internal/cex/binance/client.go:91-114 | one integer per side splits the sizes exactly into those covered by a fetched tier, with their first tier's quote, and those covered by none |
| Binance.FirstTierThatCovers | internal/cex/binance/client.go:102-117 | the quote of a size by itself is that of the first tier deep enough for it, and reports insufficient depth if and only if none is |
| Binance.TiersFromThePickedOne | internal/cex/binance/client.go:101-105 | a call may fetch those of 100, 500 and 1000 levels that are not below the picked one, in ascending order |
| Binance.SlotFromBooks | internal/cex/binance/client.go:102-117 | a slot is filled from the asks (Buy) or bids (Sell) of the first tier whose depth reaches the size, at the fee-adjusted average of the best levels, or refused if none does |
| Binance.FillPending | internal/cex/binance/client.go:113-114 | filling from one more tier moves a side's cursor to what that tier and the earlier ones cover |
| Binance.SettlePending | internal/cex/binance/client.go:116-117 | after the loop every slot holds the quote its size deserves by itself |
| Binance.EffectivePrices | internal/cex/binance/client.go:89-120 | for ascending sizes and unrelated books per tier, every slot gets the quote of the first tier that covers it, both sides are aligned with the sizes, tiers are fetched in order and only while something is unresolved, and a failed fetch fails the call |
| Binance.ByItselfIsAligned | internal/cex/binance/client.go:83-87 | row i of either side carries size i and its side |
| StaticBook.StartTierIsOnlyACost | internal/cex/binance/client.go:101-118 | if every tier shows a prefix of one book, any start gives the quote of the deepest tier |
| StaticBook.DensityDoesNotMatter | internal/cex/binance/client.go:101-118 | what the tier loop returns is, for every density estimate, exactly the walk of the 1000 best levels for each size |
| StaticBook.BuyPricesRise | internal/cex/binance/client.go:127-159 | Buy prices never fall with the size, rounding and fee included |
| StaticBook.SellPricesFallUpToFullFee | internal/cex/binance/client.go:127-162 | Sell prices never rise with the size for fees up to 10000 bps |
| StaticBook.SellPricesFallIff | internal/cex/binance/client.go:151-162 | Sell prices fall with the size on every sorted book if and only if the fee is at most 10000 bps |
| StaticBook.ExcessiveFeeReverses | internal/cex/binance/client.go:160-162 | a book on which a larger fee makes the larger size sell for more |
| StaticBook.SlippageGrowsWithSize | internal/cex/binance/client.go:89-120 | on a standing book the clean Buy prices of one answer never fall and the clean Sell prices never rise with the index, whatever tier each came from |
| StaticBook.FeeAgainstTrader | internal/cex/binance/client.go:147-162 | a fee never lowers what is paid nor raises what is received |
| StaticBook.NoSpreadWithinAVenue | internal/cex/binance/client.go:127-162 | on an uncrossed book, its levels in whatever order, the Buy price of a size is at least its Sell price after rounding and fees |
| Uniswap.RawRoundTrip | internal/dex/uniswapv3/decimals.go:12-21 | raw to decimal and back is the identity |
| Uniswap.AmountRoundTrip | internal/dex/uniswapv3/decimals.go:12-21 | decimal to raw and back never gains, loses less than one raw unit, and loses nothing if and only if the amount is a whole number of raw units |
| Uniswap.NegativeAmounts | internal/dex/uniswapv3/decimals.go:12-14 | negative amounts are truncated towards zero as well |
| Uniswap.RequestMovesTheSize | internal/dex/uniswapv3/client.go:109-130 | a sell puts base in, a buy takes base out, at the pool's fee, and either moves the size up to less than one raw unit |
| Uniswap.QuotedIffAnswered | internal/dex/uniswapv3/client.go:140-168 | a slot has a price if and only if the call answered two integers with a gas estimate that fits 64 bits; price times size is then the quoted amount up to half a unit of the 16th place per unit of size |
| Uniswap.EffectivePrices | internal/dex/uniswapv3/client.go:71-168 | in any completion order of the goroutines slot i of either side holds what the answer to its own exact-output or exact-input request in the pool's tokens and fee deserves: its error, or its gas and a price that times the size is the amount in whole quote tokens up to half a unit of the 16th place per unit of size |
| Uniswap.RawAmountRecovered | internal/dex/uniswapv3/client.go:161 | price times size, rounded to the token's decimals, is the quoted raw amount, for every raw amount and every size of at most ten to the power of 16 minus the decimals |
| Uniswap.RawAmountLost | internal/dex/uniswapv3/client.go:161 | every larger size loses some raw amount |
| Uniswap.RawAmountsRecoveredIff | internal/dex/uniswapv3/client.go:161 | all raw amounts are recovered if and only if the size is at most that bound |
| Arbitrage.GasIsBilledInWei | internal/arbitrage/evaluator.go:107-114 | the gas bill is gas units times base fee in wei, at the buy price per ether, and nothing without a base fee |
| Arbitrage.NetIsLipschitz | internal/arbitrage/evaluator.go:64-76 | moving both prices by one unit of the 16th place moves the net profit by at most (2 size + gas) units |
| Arbitrage.DecisionIsExactOutsideTheBand | internal/arbitrage/evaluator.go:64-98 | the decision is the one of the exact prices whenever those clear the threshold by more than that band |
| Arbitrage.FiguresAddUp | internal/arbitrage/evaluator.go:64-91 | what the size costs to buy plus the net profit plus the gas bill is what it sells for, and the other figures agree |
| Arbitrage.PercentageError | internal/arbitrage/evaluator.go:67-81 | the percentage is net profit per capital employed within 50 units of the 16th place, and zero without capital |
| Arbitrage.PercentageSign | internal/arbitrage/evaluator.go:78-81 | the percentage never contradicts the sign of the profit |
| Arbitrage.NoSpreadNoProfit | internal/arbitrage/evaluator.go:64-76 | without a positive spread there is no positive net profit |
| EndToEnd.PriceError | internal/cex/binance/client.go:127-166 | the price of a filled book or pool leg is within one unit of the 16th place of the exact rational price, for fees up to 10000 bps |
| EndToEnd.DecisionAgreesWithExactArithmetic | internal/arbitrage/evaluator.go:64-98 | from book levels or raw pool amounts to the decision: net profit within (2 size + gas) units of exact arithmetic, and the same decision outside that band |
| EndToEnd.NoSelfArbitrage | internal/arbitrage/evaluator.go:64-98 | a venue evaluated against itself on an uncrossed book, its levels in whatever order, is never profitable |
| Decisions.ConsumedDecisionsAreExact | cmd/arbd/main.go:247-264 | after any schedule, the decision about every consumed candidate is the one of exact arithmetic on the legs its two answers quote, outside the band of (2 size + gas) units, and its net profit is within that band |
| Consume.Consume | cmd/arbd/main.go:245-267 | every candidate is counted and exactly the profitable ones are reported, in order |
| Consume.AlertsExactlyTheProfitable | cmd/arbd/main.go:247-264 | an opportunity is reported if and only if it evaluates a consumed candidate and its net profit exceeds the threshold |
| Consume.OneReportEach | cmd/arbd/main.go:247-264 | there is exactly one report for each position of a profitable candidate, in the order of the candidates |
| Consume.AlertsPermuted | cmd/arbd/main.go:247-264 | what is reported does not depend on the order of the candidates |
| Pathfinder.Pathfinder.constructor | internal/pathfinder/pathfinder.go:67-72 | starts with block 0 and nothing stored |
| Pathfinder.Pathfinder.Emit | internal/pathfinder/pathfinder.go:195-200 | a candidate offered is appended to what was sent, or dropped on a done context; earlier sends stay as they were |
| Pathfinder.Pathfinder.EmitPairs | internal/pathfinder/pathfinder.go:147-191 | offers, row by row, both directions of every clean row of equal size, and nothing if the size sets differ in length |
| Pathfinder.Pathfinder.Handle | internal/pathfinder/pathfinder.go:101-133 | drops stale results, evicts older blocks, pairs a clean result with every stored venue in some order, and stores it |
| Pathfinder.Pathfinder.Run | internal/pathfinder/pathfinder.go:83-97 | takes all results or stops on a done context; what it offers is one run over the results it took, what it sends is that in order less what was dropped, and all of it unless the context is done |
| PathfinderTraces.StateRemembers | internal/pathfinder/pathfinder.go:101-133 | the current block is the maximum seen, errored results included, and the map holds exactly each venue's last clean answer on it |
| PathfinderTraces.EnumerationsPermute | internal/pathfinder/pathfinder.go:127-129 | two iterations over the stored venues visit the same entries |
| PathfinderTraces.TraceIsExact | internal/pathfinder/pathfinder.go:83-191 | over any stream of results the emitted multiset is exactly what the matched pairs yield, whatever the iteration order of the map |
| Multiplicity.PairsCount | internal/pathfinder/pathfinder.go:147-191 | two venues yield a candidate exactly once for each row and direction whose sizes agree, whose two legs are clean, and whose venues, prices, size and gas sum modulo two to the power of 64 it carries |
| Multiplicity.EmittedAsOftenAsSold | internal/pathfinder/pathfinder.go:83-191 | over any run a candidate is emitted exactly as often as there are two matched results and a row such that it buys that row of the one and sells it on the other |
| PathfinderLaws.EmittedIffFromPair | internal/pathfinder/pathfinder.go:101-191 | a candidate is emitted if and only if it is a clean row of two matched results, in one of both directions |
| PathfinderLaws.NoCandidateMixesBlocks | internal/pathfinder/pathfinder.go:101-191 | every emitted candidate joins two clean results on its own block |
| PathfinderLaws.EveryCandidateIsPriced | internal/pathfinder/pathfinder.go:147-191 | every candidate buys at the buyer's clean ask and sells at the seller's clean bid for one size, with the sum of both gas estimates unless it wraps |
| PathfinderLaws.AlignedRowsAreKept | internal/pathfinder/pathfinder.go:139-190 | two venues quoted for one size list never lose a row: each that is clean in a direction yields the trade of its size, whichever venue reports last |
| PathfinderLaws.OutputIsBlockOrdered | internal/pathfinder/pathfinder.go:101-115 | cancelled or not, block numbers never decrease along what is sent and never exceed the current block, which is the running maximum |
| PathfinderLaws.StaleResultsAreInvisible | internal/pathfinder/pathfinder.go:106-109 | removing every stale result from a stream changes neither the final state nor the set of possible outputs |
| ArrivalOrder.MatchedUnlessStale | internal/pathfinder/pathfinder.go:101-133 | with one result per venue and block, two results are matched if and only if both are clean, on one block, and nothing fresher came before the second |
| ArrivalOrder.NoVenueTradesWithItself | internal/pathfinder/pathfinder.go:127-132 | with one result per venue and block the two venues of a candidate differ |
| ArrivalOrder.VenueTradesWithItselfIff | internal/pathfinder/pathfinder.go:127-190 | over any stream of results a candidate with one venue on both sides is emitted if and only if two matched results of that venue have a row of equal size, clean to buy on one and clean to sell on the other |
| ArrivalOrder.PairsAreSymmetric | internal/pathfinder/pathfinder.go:147-191 | which of two venues reports last does not change what the pair yields |
| ArrivalOrder.AllPairsPermuted | internal/pathfinder/pathfinder.go:127-132 | what all pairs of a set of venues yield does not depend on their order |
| ArrivalOrder.ExpectedOnBlock | internal/pathfinder/pathfinder.go:101-133 | a block yields at most its cross-venue pairs, and all of them if it is the freshest |
| ArrivalOrder.FreshestBlockIsComplete | internal/pathfinder/pathfinder.go:101-133 | for the freshest block a run emits exactly all cross-venue pairs of the venues that answered |
| ArrivalOrder.ArrivalOrderDoesNotMatter | internal/pathfinder/pathfinder.go:101-133 | any two arrival orders of the same results, with any map iteration, emit the same for the freshest block |
| CandidateCounts.AtMostAllPairs | internal/pathfinder/pathfinder.go:127-190 | V venues and S sizes yield at most V(V-1)S candidates of a block |
| CandidateCounts.AllPairsWhenClean | internal/pathfinder/pathfinder.go:127-190 | exactly that many for the freshest block if every venue answers every size cleanly |
| Chain.NextKeepsInv | internal/chain/subscriber.go:91-237 | every step keeps the log legal: dials numbered in order with nothing open, headers only from the open subscription, each handed on before the next, the output closed once and last |
| Chain.EveryRunIsLegal | internal/chain/subscriber.go:91-237 | that holds after any sequence of occurrences |
| Chain.OneSubscriptionAtATime | internal/chain/subscriber.go:98-110 | at most one subscription is open, the last one dialled, and none once the output is closed |
| Chain.EachDialledIsClosed | internal/chain/subscriber.go:98-110 | a dialled subscription has been closed if and only if it is not open |
| Chain.EmitsInDialOrder | internal/chain/subscriber.go:167-237 | the emitted events are what each subscription delivered, one after the other in dial order |
| Chain.OnlyTheLastHeaderIsLost | internal/chain/subscriber.go:220-237 | every subscription's headers are handed on in order and in full, but for the last header of the last one when its send was given up |
| Chain.ReceivesWhatIsReported | internal/chain/subscriber.go:188-216 | over any script the events received from a subscription are those of the headers it reported, with their numbers, times and base fees, one for each and in order |
| Chain.HandsOn | internal/chain/subscriber.go:188-216 | a header is handed on as its event, and the same subscription goes on |
| Chain.ClosesAndRedials | internal/chain/subscriber.go:98-126 | a subscription that reports an error or a nil header is closed, and the next one is dialled |
| Chain.ClosedIffEndReported | internal/chain/subscriber.go:167-218 | in an uncancelled run a subscription is closed, or about to be, if and only if it reported an error or a nil header while streaming |
| Chain.BacksOffAndRedials | internal/chain/subscriber.go:141-160 | a failed dial is repeated after the delay and not before |
| Chain.StopsWhenCancelled | internal/chain/subscriber.go:105-118 | a cancelled subscriber closes what is open, closes its output and returns |
| Chain.ReturnsThoughContextIsAlive | internal/chain/subscriber.go:137-151 | a dial that reports a deadline ends the run though its context is alive |
| Chain.ReturnsUncancelledIff | internal/chain/subscriber.go:91-162 | an uncancelled run has returned if and only if a dial it was waiting for reported a context error |
| Chain.ReturnsTheErrorOfTheDial | internal/chain/subscriber.go:98-102 | it then returns the error of that dial |
| Chain.Subscriber.Await | internal/chain/subscriber.go:258-267 | a blocking operation ends with one of its own arms, the context's only once it is done |
| Chain.Subscriber.DialWithRetry | internal/chain/subscriber.go:137-162 | retries with back-off until a dial succeeds, or stops with the context error of the dial or the back-off |
| Chain.Subscriber.Emit | internal/chain/subscriber.go:230-237 | sends the event or gives up on a done context |
| Chain.Subscriber.Stream | internal/chain/subscriber.go:167-218 | hands headers on until the context, the subscription, a nil header or a given-up send ends it |
| Chain.Subscriber.Run | internal/chain/subscriber.go:91-127 | the nested loops end where the state machine ends, with a legal log |
| Dispatcher.NextKeepsInv | internal/pipeline/dispatcher.go:58-94 | every step keeps each goroutine in exactly one place, the WaitGroup equal to those that have not returned, every result faithful to its venue and event, and drops to cancelled runs |
| Dispatcher.EveryRunConserves | internal/pipeline/dispatcher.go:58-94 | in every reachable state events times venues is running plus sending plus delivered plus dropped plus not yet spawned, with each started goroutine in exactly one of the four, and the WaitGroup counts those running, sending or past their send but not returned |
| Dispatcher.NoSendAfterClose | internal/pipeline/dispatcher.go:59-64 | the output is closed only when every goroutine has returned, and no step is possible afterwards |
| Dispatcher.EachDeliveredOnce | internal/pipeline/dispatcher.go:66-94 | without a cancellation every venue's answer on every event is delivered exactly once whenever no goroutine is asking or sending |
| Dispatcher.ClosedIsIdle | internal/pipeline/dispatcher.go:59-64 | that is so in particular when the output is closed |
| Dispatcher.AtMostOneResultEach | internal/pipeline/dispatcher.go:74-94 | events with distinct block numbers give at most one result per venue and block, whatever the interleaving |
| Dispatcher.ResultsAreAnswers | internal/pipeline/dispatcher.go:88-93 | after any script every result carries the quotes and the error that its venue answered to that very goroutine |
| Dispatcher.Dispatcher.Dispatch | internal/pipeline/dispatcher.go:84-94 | one goroutine's step: its snapshot returns and its quotes and error are to be sent, that result goes out or is given up, or it returns and is taken off the WaitGroup |
| Dispatcher.Dispatcher.Await | internal/pipeline/dispatcher.go:66-77 | while the loop blocks, only goroutines and the context go on |
| Dispatcher.Dispatcher.SpawnAll | internal/pipeline/dispatcher.go:74-76 | one goroutine per venue is started, in any order and between any steps of the others |
| Dispatcher.Dispatcher.Run | internal/pipeline/dispatcher.go:58-79 | the loop and its deferred wait and close end where the state machine ends, with every goroutine accounted for |
| Daemon.StepKeepsInv | cmd/arbd/main.go:167-190 | every step of the composed program keeps the invariants of all stages, the hand-over between them, the account of candidates and the order in which stages end |
| Daemon.EveryScheduleKeepsInv | cmd/arbd/main.go:167-190 | they hold after any schedule |
| Daemon.KeepsFlow | cmd/arbd/main.go:167-172 | the dispatcher has accepted exactly the events emitted, and the Pathfinder received exactly the results sent, in order |
| Daemon.KeepsSpent | internal/pathfinder/pathfinder.go:195-200 | the queue is the end of what was offered, and what came before it is consumed or dropped, each in the order it was offered |
| Daemon.KeepsOrdered | cmd/arbd/main.go:272-283 | a stage has ended because its input is closed or the context is done, and the main goroutine only collects stages that ended |
| Shutdown.BlockedIffQuiet | cmd/arbd/main.go:167-190 | the program can take no step by itself if and only if every single stage is waiting for a live other stage or for the outside: no event, result, candidate, spawn, close or collection is pending anywhere |
| Shutdown.QuietAwaitsTheOutside | cmd/arbd/main.go:167-190 | then, short of the exit, a dial, a snapshot or, uncancelled, the timer or the node has yet to answer |
| Pipeline.NoScheduleDeadlocks | cmd/arbd/main.go:123-190 | after any schedule the program can take no step by itself if and only if all stages are quiet, and then it has exited or awaits the outside |
| Shutdown.EveryStepDescends | cmd/arbd/main.go:167-190 | once the context is done or the subscriber has returned, every step that is not an unlucky select lowers a well-founded measure of the whole program |
| Shutdown.ExitsIff | cmd/arbd/main.go:245-283 | an execution that goes on while it can and drains reaches the exit if and only if from some moment on none of its selects is unlucky |
| Shutdown.SomeScheduleExits | cmd/arbd/main.go:245-283 | from every state that drains some schedule reaches the exit |
| Shutdown.NeedNotExit | internal/chain/subscriber.go:139-161 | an execution from the start that is cancelled in its back-off, loses every race against the timer, and never exits |
| Shutdown.CancelledBackoffIsReachable | internal/chain/subscriber.go:139-161 | a failed dial and a cancellation lead there |
| Shutdown.ExitDiagnosis | cmd/arbd/main.go:272-283 | the exit is an error if and only if the subscriber returned a deadline error; a clean exit leaves no subscription open and no goroutine in flight |
| Rest.EveryOwnStepDescends | cmd/arbd/main.go:167-190 | in every state each step of the program itself and each answer of a venue lowers a well-founded measure, so there is no livelock |
| Rest.ComesToRest | cmd/arbd/main.go:167-190 | an uncancelled program whose venues answer while nothing new arrives comes to rest |
| Rest.NothingUnderWay | cmd/arbd/main.go:167-190 | at rest nothing is in flight, left to start, queued, dropped or held back in any stage |
| Pipeline.UncancelledConsumption | cmd/arbd/main.go:167-190 | until a cancellation the candidates consumed and waiting are, in order, one Pathfinder run over the delivered results, and exactly those its matched pairs yield |
| Pipeline.RestIsComplete | cmd/arbd/main.go:167-190 | whenever the program is at rest, running or ended, it has asked every venue about every event received, delivered every answer exactly once, and consumed, in order, every candidate of one Pathfinder run over them |
| Pipeline.UncancelledExit | cmd/arbd/main.go:167-190 | a program that exits without a cancellation is at rest |
| Pipeline.ConsumedInBlockOrder | cmd/arbd/main.go:247-264 | cancelled or not, block numbers never decrease along what is consumed |
| Pipeline.ConsumedCandidatesAreSound | internal/pipeline/dispatcher.go:74-75 | cancelled or not, with distinct block numbers every consumed candidate joins two different configured venues on a block the subscriber emitted |
| Provenance.ExitCollectsAll | cmd/arbd/main.go:272-283 | a clean exit has seen the candidates closed and collected the results of all three stages |
| Provenance.ResultsAreSnapshots | internal/pipeline/dispatcher.go:88-93 | after any schedule of the program every delivered result carries the quotes and the error its venue's snapshot returned |
| Provenance.ConsumedComesFromSnapshots | cmd/arbd/main.go:167-190 | after any schedule every consumed candidate buys at the clean ask and sells at the clean bid of two snapshots the schedule returned about its block number |
| Pipeline.AtMostAllPairsConsumed | internal/pathfinder/pathfinder.go:127-190 | cancelled or not, at most V(V-1)S candidates of a block are consumed |
| Pipeline.FreshestBlockIsConsumedInFull | internal/pathfinder/pathfinder.go:127-190 | at rest exactly V(V-1)S candidates of the freshest emitted block have been consumed if its answers are clean and aligned |
| Pipeline.FreshestAlertsAreDetermined | cmd/arbd/main.go:245-267 | two runs at rest with the same answers, delivered in whatever order, report the same opportunities on the freshest block |
| Pipeline.AlertsAreDetermined | cmd/arbd/main.go:245-267 | given the order in which answers were delivered, the opportunities reported on all blocks do not depend on the rest of the schedule or on map iteration |

## Left out

- HTTP requests, JSON and level parsing, ABI packing, `eth_call` and WebSocket transport: their outcomes are arbitrary inputs.
- Retry, rate limiting and circuit breaking (`internal/resilience`): thin wrappers around libraries.
- `PoolAddress`: a hash from a library; only the order of two addresses is this program's.
- Alert formatting, the probe commands, configuration and environment loading: printing and plumbing. What `validate` guarantees appears as preconditions.
- Real time: back-off lengths and call timeouts are steps that may happen at any moment; block timestamps are carried but not interpreted.
- Logging.
- The capacity and contents of the node's header buffer: a header is whatever a receive returns.
- Daemon.StepKeepsInv: the composed program is a state machine over values, since its stages run concurrently; the stages' own loops are the classes.
- Shutdown.ExitsIff: an execution goes on while it can, so dials and snapshots are taken to return; the probability of unlucky selects is not modelled.
- Reorganisations: events that repeat a block number are covered by `TraceIsExact`, but not by the laws that assume distinct numbers.
