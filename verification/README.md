# CrossVenue: a verified model of the arbitrage engine

CrossVenue watches the order books of several crypto venues, prices cross-venue trades on
them, executes the profitable ones on paper, and keeps a ledger of what it would own. This
project models that chain in Dafny and proves what the engine is relied on for:

1. **Fixed point** (`Decimal`, `DecimalMachine`, `DecimalText`): 1e8 fixed-point integers in
   64 bits, the 128-bit multiply-divide, and the text form.
2. **Feed to book** (`Sequence`, `BookSpec`, `OrderBook`, `Reconstruction`, `WholeFeeds`,
   `RangeCover`, `DeliveredTruth`, `Lane`, `BookLanes`, `Pipelines`, `Markets`): sequence
   trackers, the book folded from snapshots and deltas, its sorted buffers and published views,
   and the lane that submitters, worker and sweeper share.
3. **Depth walk, pricing, fills** (`Walk`, `Vwap`, `Opportunity`, `Orders`, `Averages`,
   `Execution`, `FillTheory`, `FillReports`, `FillValues`, `ModestFills`, `PricedProfit`): the
   greedy walk and its rounding, the costing of an opportunity, the order state machine, and the
   simulated execution.
4. **Settlement and whole runs** (`Sums`, `CheckedSums`, `Portfolio`, `LedgerTheory`, `Risk`,
   `EngineSpec`, `Attempts`, `RiskGate`, `Conservation`, `Settlement`, `OmittedFee`,
   `LiveConservation`, `RunTrades`, `DeterministicRun`, `RunProfit`, `Measurable`, `MarketTruth`,
   `RunPlans`, `Supervisors`): the ledger, the risk gate, the supervisor, live histories, and
   deterministic runs from the first event to the last.

## How it is built

Each stateful component is a class whose fields are those of the source; every method is
proved equal to a function on values (`Value()` before and after), and the theorems are
lemmas about those functions and about whole runs of them. Books keep their reused backing
arrays, ledgers their balance and position objects, simulators their order objects, and a book
lane records which steps of the lane's state machine its calls have taken, so that what is
proved of all interleavings holds of the object.

Go ranges over maps in any order, and that order can show in one place only: an exposure. It
decides between a sum and a panic exactly when the sum fits and either two positions are MinInt64
or one is and the sum is not negative (`ExposureOutcomes`). So the supervisor's `RunDeterministic`
is proved to end in one of the outcomes that `EngineSpec.RunsTo` allows, through every object in
between, and the results about runs hold of each of these outcomes. There is only one, that of
the function `RunOf`, wherever no risk check meets a position of MinInt64. `RunIsMeasurable`
proves that none does when every symbol has a base asset of its own; then two runs over the same
events, clock readings and configuration end in the same state.

A Go panic is the outcome `Panicked` of a `Checked` result; loops are specified by functions
that walk the same way, so that they panic exactly when the code does. `VenueHistory` is a
ghost: it gives the venue's true book at every sequence number, and a genuine message is one
that such a history can have produced. `Core` is everything an execution can touch; its
`refusals` list the settlements that the ledger refused, which the source only logs.

## Main results

- However a genuine feed is lost, repeated or reordered, a ready OKX/Bybit tracker means that
  the local book is the venue's at `lastSeq`. For Binance the same holds once a snapshot has
  loaded, unless an older snapshot rewinds the book behind the tracker. A three-message run
  shows that this does go wrong, and `RunIsTrueIff` says of every run whether it did: the book
  is true in every history that agrees with the last snapshot and the ranges applied since,
  exactly when those ranges cover every change since each price was last set. Against all that
  was delivered, dropped and outdated messages included, `DeliveredIsTrueIff` says the same: each
  quantity must be told at some point that ranges leaving its price out link to the book's own.
- And nothing that can be followed is given up: a feed delivered whole and in order after a snapshot
  never gaps, keeps the book ready, and leaves it the venue's at the last sequence number.
- Under every interleaving of submit, overload, receive, apply and sweep, each view ever
  published as ready is the top 512 levels per side of the venue's book at its own sequence
  number; after a loss no view is ready until a snapshot is applied. The lane object inherits it.
  After any sweep the cell's view, if ready, is stale exactly when it was too old at that sweep.
- The greedy walk is optimal; the three copies of it agree; over the whole life of any order,
  and over any buys of a position, the incremental average is at most the highest price and
  loses a bounded amount; per-level fees lie just below the one-shot fee. Together: executing an
  opportunity on the views it was priced on realizes more than
  net + slippage + latency - n - n*q/1e8 raw units, n being the bid levels touched, and a whole
  deterministic run realizes at least the sum of that over its trades.
- Over any settlements of any symbols at any amounts, each position is the signed sum of what was
  settled, and each balance has moved by the positions that have its asset as their base and by
  what it paid and received as a quote.
- Over any history of executions, live or not, what is held of any assets has moved by the flows
  of the executed legs, less what the ledger refused; no premise is needed. In live mode those
  flows are the residuals, the booked profit and the value of what did not match, exactly unless
  an amount is MinInt64; and whatever the views, no sale that passed the check is refused.
- In a deterministic run every order ever submitted is filled, whatever the prices. At nonnegative
  prices and fees or rebates up to half a notional, and at prices of any sign under a bounded
  notional, what is held of all quote assets is their seeds plus the realized profit, and what is
  held of assets that are no quotes is their seeds, refused buys aside; an asset that is a quote of
  some symbols and the base of others holds its seeds and the profits quoted in it. A buy that
  passed the inventory check is refused exactly when the quote does not cover its fee too; it never
  is when the quote covers the priced notional and the one-shot fee.
- Whatever the feeds lost, repeated or reordered, every opportunity found in a deterministic run is
  priced on the top 512 levels of both venues' own books (Binance snapshots never being older
  than their tracker).
- A deterministic run attempts everything it should and nothing else: after every event, on the books
  as that event left them, a scan finds exactly the venue pairs that pay, row by row, and each is
  tried in that order (`RunTriesAll`). An attempt goes ahead exactly when the limits, the two books
  and the two balances of the opportunity allow it (`GoesAheadIff`).
- The failure count never passes its maximum, and reaching it is for good: no reset of the
  kill switch ever lets another order through.

## Model

| member | source | states |
|---|---|---|
| Decimal.SubExactIff | pkg/decimal/decimal.go:132-142 | Sub is checked exact subtraction for every subtrahend but MinInt64, and for that one never |
| Decimal.MulIntExactIff | pkg/decimal/decimal.go:150-168 | exactly when MulInt is the checked exact product; the MinInt64 receiver slips past its guard |
| DecimalMachine.MulDiv128 | pkg/decimal/decimal.go:208-244 | the 128-bit code returns a*b/c truncated toward zero, ignoring the divisor's sign, and panics exactly when c is 0 or the magnitude exceeds MaxInt64 |
| DecimalMachine.HighWordGuard | pkg/decimal/decimal.go:239-244 | the guard hi >= y holds exactly when the quotient needs more than 64 bits |
| DecimalMachine.Plus | pkg/decimal/decimal.go:132-139 | the sign test on the wrapped sum detects exactly the overflows |
| DecimalMachine.TimesInt | pkg/decimal/decimal.go:150-168 | the division guard of MulInt refuses exactly the products whose magnitude exceeds MaxInt64, a MinInt64 receiver aside |
| DecimalText.Parse | pkg/decimal/decimal.go:41-107 | accepts exactly the well-shaped numerals within range and returns their exact value times 1e8; says which error each other input gets |
| DecimalText.SpelledIsAccepted | pkg/decimal/decimal.go:41-107 | a sign or none, digits, and a point with digits or neither: accepted exactly when there is a digit, at most 18 before and 8 after the point, and the number fits; its value is what the digits say |
| DecimalText.RoundTripIff | pkg/decimal/decimal.go:109-130 | Parse undoes String for every value except MinInt64, whose print Parse refuses |
| DecimalText.ParseThenString | pkg/decimal/decimal.go:41-130 | String undoes Parse on canonical numerals, so each value has one canonical text |
| BookSpec.FoldDeltaAt | internal/book/book.go:101-121 | a delta sets exactly the prices it mentions, each to its last mention, and no other |
| BookSpec.ShownIsFold | internal/book/book.go:77-90 | the side a snapshot leaves is the one whose quantity at each price is the last positive one the snapshot gives for it, or 0 |
| BookSpec.ListingUnique | internal/book/book.go:140-160 | a sorted list of the levels of a map is determined by the map, so neither map order nor sort order can show |
| OrderBook.Refill | internal/book/book.go:140-160 | ranging over a map in any order into a reused buffer and sorting it in place gives the one listing of that map |
| OrderBook.Book.LoadSnapshot | internal/book/book.go:77-98 | both sides show exactly what the snapshot says price by price, the book is ready at its sequence and time and not stale; publishes the top 512 of the new book, and changes no view handed out before |
| OrderBook.Book.ApplyDelta | internal/book/book.go:101-121 | each price the delta mentions takes its last mention and every other keeps its quantity; sequence and time are the delta's; publishes the result, and changes no view handed out before |
| OrderBook.Book.Depth | internal/book/book.go:140-160 | the best levels of the current map in a new array; re-sorting the shared buffers leaves every earlier array as it was |
| OrderBook.Book.VWAP | internal/book/book.go:227-249 | the walk over the whole side returns what vwapOf returns on its listing |
| Sequence.BinanceTracker.Check | internal/book/seq.go:86-105 | the range tracker moves as the value-level rule does: anchor, duplicate, gap or apply |
| Sequence.OKXTracker.Check | internal/book/seq.go:133-152 | the chained tracker moves as the value-level rule does |
| Sequence.BybitTracker.Check | internal/book/seq.go:175-191 | the Bybit tracker follows the same rule as the OKX one |
| WholeFeeds.ReadyVerdicts | internal/book/seq.go:86-191 | which verdict a ready tracker gives, each exactly when, under either rule |
| WholeFeeds.AnchorVerdicts | internal/book/seq.go:86-137 | before it is ready the range tracker anchors at the first delta and applies it, and a chained one asks for a snapshot |
| WholeFeeds.VerdictEffects | internal/marketdata/pipeline.go:223-265 | what each verdict does to tracker, book and stale mark: only Apply patches, gaps invalidate, duplicates do nothing |
| WholeFeeds.RequiredLinkIsApplied | internal/book/seq.go:133-191 | a ready chained tracker applies every link from its point that is the next number or names that point, and moves to the end of it |
| WholeFeeds.OldDeltaChangesNothing | internal/book/seq.go:86-191 | a delta at or below the tracker of a ready feed changes neither tracker nor book |
| WholeFeeds.WholeFeedIsFollowed | internal/book/seq.go:73-191 | over any deltas that each go on from the one before, delivered in order after a snapshot: no gap, the book stays ready, tracker and book end at the last sequence, and the sides are the snapshot patched with all of them |
| WholeFeeds.WholeChainedFeedIsTrue | internal/book/seq.go:110-191 | so a whole OKX, Bybit or synthetic feed of genuine messages leaves the ready, true book at its last point |
| WholeFeeds.WholeRangedFeedIsTrue | internal/book/seq.go:60-105 | and so does a whole Binance feed after a snapshot that is not older than the tracker |
| Sequence.RuleOfVenues | internal/book/seq.go:194-206 | Binance feeds are ranged; OKX, Bybit and synthetic ones are chained; no other venue has a tracker |
| Reconstruction.AcceptedLinkStartsAtLast | internal/book/seq.go:133-152 | an accepted delta starts from the tracker's own point, also in the +1 branch that never looks at PrevSequence |
| Reconstruction.ChainedReconstruction | internal/book/seq.go:110-191 | over any delivery of genuine messages, a ready tracker means that the book is the venue's at lastSeq, and a ready book means a ready tracker |
| Reconstruction.RangeLands | internal/book/seq.go:60-105 | a genuine range [U,u] takes the true book at any k with U-1 <= k <= u to the true book at u |
| Reconstruction.RangedReconstruction | internal/book/seq.go:64-105 | Binance feeds with rewinding snapshots: the book is true at its own sequence for as long as every applied range reaches back to it |
| Reconstruction.ForwardReconstruction | internal/book/seq.go:64-105 | Binance feeds without older snapshots: once loaded the book is the venue's at lastSeq, and before that it is never ready |
| Reconstruction.SnapshotAlignsIff | internal/book/seq.go:73-80 | a snapshot leaves tracker and book at one sequence number exactly when it is not older than the tracker |
| Reconstruction.SafeFromIff | internal/book/seq.go:86-105 | a range is safe for a true book at b, in every history, exactly when U <= b + 1 |
| RangeCover.DeliveredIsRebuilt | internal/book/seq.go:64-105 | after any run the book is the last snapshot patched with the ranges applied since, at the last one's sequence, which the tracker has reached |
| RangeCover.RunIsTrueIff | internal/book/seq.go:64-105 | after any run, the book is the venue's in every history that agrees with the last snapshot and the ranges applied since, exactly when for each price those ranges cover every change after it was last set |
| RangeCover.UntouchedPriceDecides | internal/book/seq.go:86-105 | if the ranges leave some price alone, that means: they cover every change after the snapshot |
| DeliveredTruth.MessagesDecide | internal/book/seq.go:60-105 | any messages determine the whole book at a point exactly when each quantity there is told at a point linked to it by ranges that leave the price out |
| DeliveredTruth.DeliveredIsTrueIff | internal/book/seq.go:64-105 | after any run, the local book is the venue's in every history that agrees with all delivered messages, dropped and outdated ones included, exactly when each of its quantities is determined so |
| DeliveredTruth.OutdatedSnapshotVouches | internal/book/seq.go:73-105 | a snapshot before the last one can do that where the ranges applied since the last one leave changes uncovered |
| Reconstruction.OlderSnapshotCounterexample | internal/book/book.go:77-98 | three genuine messages after which a ready book, aligned with its tracker, is not the venue's |
| Lane.LaneSafety | internal/marketdata/pipeline.go:104-295 | under every interleaving (for Binance, while no applied snapshot is older than the tracker): ready views are the venue's top 512, versions strictly increase, the cell is current, accepted events are applied in order, and every refused one invalidates |
| Lane.LossInvalidates | internal/marketdata/pipeline.go:223-265 | an overload or a gap leaves the book, and the view it publishes, not ready |
| Lane.NotReadyUntilSnapshot | internal/marketdata/pipeline.go:223-295 | from a book that is not ready, no view is ready until a snapshot is applied, whatever happens |
| Lane.SweptViewIsMarked | internal/marketdata/pipeline.go:267-295 | over any run, after a sweep the cell's view, if ready, is stale exactly when the book was too old at that sweep |
| BookLanes.BookLane.Apply | internal/marketdata/pipeline.go:223-265 | the locked apply moves tracker and book together as ApplyEvent says and publishes every book on the way |
| BookLanes.BookLane.Submit | internal/marketdata/pipeline.go:150-178 | with room the event is queued, the feed untouched and nothing published; without, the queue is untouched, the book invalidated and that book published; the steps taken are Submit, or Submit and Overload |
| BookLanes.BookLane.Work | internal/marketdata/pipeline.go:206-265 | the worker's apply of the event it has received is the state machine's ApplyReceived |
| BookLanes.BookLane.Sweep | internal/marketdata/pipeline.go:267-295 | one visit of the sweeper leaves a ready book stale exactly when its age is over the maximum, touches nothing else of it and nothing of a book that is not ready, and publishes exactly when that changed the book |
| BookLanes.ObjectIsSafe | internal/marketdata/pipeline.go:104-295 | the lane object, whose calls are steps of the state machine, is as safe: every ready view its cell has ever held is the venue's top 512 |
| Pipelines.Pipeline.ApplySync | internal/marketdata/pipeline.go:104-145 | one book moves, the others stay, and an unknown book gets its venue's tracker or the event is dropped |
| Markets.AppliedAtOnce | internal/marketdata/pipeline.go:104-145 | which feed an event moves: its own book's and no other, a new one if the book is unknown, none if the venue is |
| Pipelines.Pipeline.Snapshot | internal/book/book.go:355-369 | readers get the top 512 of a book as soon as it has changed once, and nothing before |
| Walk.GreedyIsOptimal | internal/opportunity/engine.go:228-246 | of all allocations of the filled quantity, the walk is cheapest on ascending asks and dearest on descending bids |
| Walk.TruncatedCostIsNearOptimal | internal/opportunity/engine.go:228-246 | the cost the code reports is at most the least that the quantity can cost on asks, and at least the most that it can bring on bids less one per level touched |
| Walk.AverageWorsens | internal/opportunity/engine.go:228-246 | the exact average price only gets worse with quantity |
| Vwap.VwapMeaning | internal/opportunity/engine.go:228-246 | the quote is min(quantity, depth) at the walk's cost, its average is rounded down, and it panics exactly when the cost overflows |
| Vwap.ComputeVwap | internal/opportunity/engine.go:228-246 | the loop of vwapOf returns that quote |
| Orders.FillStates | internal/execution/execution.go:72-144 | which states a fill can lead to; a terminal state is never left |
| Orders.Predecessors | internal/execution/execution.go:72-95 | where each state can be entered from, and that the terminal states are those without a way out |
| Orders.FillMeaning | internal/execution/execution.go:124-144 | a fill within the quantity is written at the truncated new average in any state, and goes through exactly when that is not terminal |
| Orders.FailedFillChangesNothingIff | internal/execution/execution.go:124-144 | a failed fill leaves the order alone exactly when a quantity guard refused it, not when the transition did |
| Orders.CancelledOrderStillCounts | internal/execution/execution.go:124-144 | a fill of a cancelled order fails and is counted all the same |
| Orders.Order.Fill | internal/execution/execution.go:124-144 | the order object moves as WithFill says, quantity and average first |
| Execution.Simulator.Submit | internal/execution/execution.go:213-229 | a known client order id returns the very order already there; ids are never reused |
| Execution.SubmittedOnce | internal/execution/execution.go:213-229 | a new order gets the next number and is pending, a known one changes nothing, and no other order is touched |
| Execution.Simulator.FillAgainstBook | internal/execution/execution.go:254-314 | the method works the order and reports fills as FillAgainst says, panics included |
| Execution.Simulator.ExecuteArbitrage | internal/execution/execution.go:328-363 | the legs are worked in the policy's order, the second from where the first left the order when both are one object; profit counts the matched quantity only |
| Execution.PolicyOrdersFillsOnly | internal/execution/execution.go:328-363 | for two orders the policy decides the order of the reported fills and nothing else |
| Execution.FirstLegFirst | internal/execution/execution.go:328-345 | the policy says which leg is worked first; when both legs are one order the second works what the first left |
| FillTheory.BreakIsJustified | internal/execution/execution.go:266-300 | stopping at the first level beyond the limit misses no level within it, because the side is sorted |
| FillTheory.FillAgainstOutcome | internal/execution/execution.go:254-314 | a call fills exactly min(what is left, depth within the limit); an IOC order does not rest in part, and one that crosses nothing is left as it is |
| FillTheory.OrderLifecycle | internal/execution/execution.go:72-144 | over a whole life: 0 <= filled <= quantity, Filled means filled in full, and an IOC order is never PartiallyFilled |
| FillTheory.TerminalStateIsFinal | internal/execution/execution.go:72-95 | no call takes an order out of a terminal state |
| FillTheory.TerminalOrderChangesIff | internal/execution/execution.go:254-314 | yet a call writes to a terminal order exactly when it is short of its quantity and the book is ready and crosses |
| FillTheory.FillAgainstNotReady | internal/execution/execution.go:254-264 | without a ready book a pending order is rejected and any other is left alone |
| FillReports.FillsReported | internal/execution/execution.go:266-314 | one fill is reported per level worked, best first, under the order's number, at the level's price and quantity and its own truncated fee; the fees of the fills add up to the leg's |
| FillValues.MarketOrderFill | internal/execution/execution.go:254-314 | a fresh market order fills min(quantity, depth) at the walk's cost, with fee and average below the one-shot ones by bounded amounts; it cannot panic when the one-shot values fit |
| FillValues.FillsAreAveraged | internal/execution/execution.go:124-144 | after any n successful fills of an order that had none, the average is at most the highest fill price, and avg*filled is at most the summed cost and short of it by less than (n-1) plus the sum of running quantities over 1e8 |
| FillValues.LifeIsAveraged | internal/execution/execution.go:254-314 | the same over the whole life of an order of any type, over any sequence of calls and views |
| FillValues.LegFees | internal/execution/execution.go:282-314 | whatever the order and the rate, a call's per-level fees add up to at most the one-shot fee on its notional, and to more than that less the number of fills; at a negative rate the same of the rebate |
| FillValues.WalksAgree | internal/execution/execution.go:266-300 | FillAgainstBook, vwapOf and Book.VWAP agree whenever the 512-level view holds enough, and the fill's average is at most the quoted one |
| Opportunity.Engine.Evaluate | internal/opportunity/engine.go:141-222 | evaluatePair decides and numbers as EvaluatePair says |
| Domain.TakerBps | internal/opportunity/engine.go:181-182 | a venue in the fee schedule is charged its own rate, any other none; execution.go:267 reads the same |
| Opportunity.CostingMeaning | internal/opportunity/engine.go:176-190 | for rates of any sign: gross is proceeds less cost, each fee its truncated share at its own rate, slippage that of the cost, and net what is left after all of them |
| Opportunity.EdgeTruncatesOnce | internal/opportunity/engine.go:191-192 | despite two truncating divisions the edge is net*10000/buyCost truncated once |
| Opportunity.PenaltyMeaning | internal/opportunity/engine.go:27-52 | the latency penalty is the truncated rate per millisecond times the whole milliseconds, and 0 where either is not positive |
| Opportunity.TotalUSExactIff | internal/opportunity/engine.go:27-38 | the wrapping latency sum is the one that was meant exactly when that is an int64 |
| PricedProfit.FoundIff | internal/opportunity/engine.go:141-222 | an evaluation that does not overflow finds an opportunity exactly when both views are current, both sides hold the quantity, and net, edge and spread at the walks' costs clear their floors |
| PricedProfit.DeclinedIff | internal/opportunity/engine.go:141-205 | which of its seven reasons an evaluation declines for: exactly the first condition that fails, in the order of the source |
| PricedProfit.EmittedCosts | internal/opportunity/engine.go:160-222 | an opportunity's gross, fees, slippage, latency, net, averages and edge in terms of the two walks and the two venues' rates |
| PricedProfit.EmittedMeaning | internal/opportunity/engine.go:141-222 | its number, venues, quantity, time and quote ages, and the floors it cleared |
| PricedProfit.PricedTradeExists | internal/opportunity/engine.go:141-222 | a concrete pair is priced, found and worked by both legs, so the results about priced trades are not empty |
| PricedProfit.PricedProfitIsRealized | internal/execution/execution.go:328-363 | both legs on the priced views realize more than net + slippage + latency - n - n*q/1e8 |
| PricedProfit.ExecutionCannotPanic | internal/execution/execution.go:254-363 | with a nonnegative profit floor and slippage rate, an opportunity that was priced can be executed without overflow |
| PricedProfit.BuySettlesWithinCheck | internal/engine/engine.go:381-394 | the buy settles for at most the notional that the inventory check compares |
| Portfolio.Ledger.ApplyBuy | internal/portfolio/portfolio.go:102-115 | pays quote, gains base and moves the position, or refuses and moves nothing, objects included |
| Portfolio.Ledger.ApplySell | internal/portfolio/portfolio.go:118-131 | pays base, gains quote and moves the position, or refuses and moves nothing, objects included |
| Portfolio.JoinedAssets | internal/engine/engine.go:462-469 | the assets of base-quote are that base and that quote |
| Portfolio.BareAssets | internal/engine/engine.go:462-469 | a symbol without a dash is its own base, quoted in USDT |
| Portfolio.KeptAverages | internal/portfolio/portfolio.go:143-161 | a short that stays one keeps its average, one that turns long takes the price, and a position that closes keeps it |
| Portfolio.Ledger.VenueExposure | internal/portfolio/portfolio.go:195-206 | the loop returns the checked sum of that venue's absolute quantities in some order of the positions, panics included |
| Portfolio.Ledger.TotalExposure | internal/portfolio/portfolio.go:208-217 | the loop returns the checked sum of all absolute quantities in some order of the positions, panics included |
| Portfolio.ExposureOutcomes | internal/portfolio/portfolio.go:195-217 | the outcomes of both exposures, exactly: the sum of the absolute quantities as Go forms them, or a panic if it does not fit; and a panic also, in some order, exactly when the sum fits and two positions are MinInt64, or one is and the sum is not negative |
| Portfolio.OrderDecides | internal/portfolio/portfolio.go:195-217 | with a position of MinInt64 one ledger's exposure is a number in one order and a panic in another |
| LedgerTheory.BuyEffect | internal/portfolio/portfolio.go:102-115 | whatever the amounts, a buy settles exactly when the quote covers price*qty + fee, and then moves just those amounts |
| LedgerTheory.BuysAreAveraged | internal/portfolio/portfolio.go:102-161 | over any settlements, a position that was empty and is never sold holds the sum of its settled buys at their running average: at most the highest price, and short of what was paid by the bound of the fills |
| LedgerTheory.StoredAverageIff | internal/portfolio/portfolio.go:143-161 | exactly when a trade of a position that is not short stores the truncated average: the new quantity is positive, or that average is 0 |
| Decimal.DivExactIff | pkg/decimal/decimal.go:170-244 | exactly when Div is the checked truncated quotient: for negative divisors only where that is 0 or does not fit |
| LedgerTheory.ShortStoresNegativeAverage | internal/portfolio/portfolio.go:143-166 | a short opened from nothing stores minus its average price |
| LedgerTheory.LedgerInvariant | internal/portfolio/portfolio.go:102-166 | over any settlements of any symbols at any prices, quantities and fees, refused ones included, each position is the signed sum of what was settled, and each balance has moved by the positions in its asset and by what it paid and received as a quote |
| LedgerTheory.BaseBalances | internal/portfolio/portfolio.go:102-166 | so a balance that is never a quote, whatever else is one, has moved by the positions in its asset |
| LedgerTheory.TotalIsSumOfVenues | internal/portfolio/portfolio.go:195-217 | total exposure is the sum of the venues' exposures |
| Risk.Engine.CheckOpportunity | internal/risk/risk.go:135-214 | the decision lists all reasons in the order of the checks, for exposures summed in some order of the positions, and is allowed exactly when there is none |
| Risk.AllowedIff | internal/risk/risk.go:135-214 | a trade is allowed exactly when it is within every limit, written out, whatever the exposures came to |
| Risk.ReasonIff | internal/risk/risk.go:135-214 | each reason is listed exactly when what it names is wrong |
| Risk.ReasonsInOrder | internal/risk/risk.go:135-214 | with every limit broken at once the fourteen reasons that two ready books leave are listed in the order of the checks |
| Risk.DailyLossIff | internal/risk/risk.go:166-170 | the daily loss limit stops a loss that has reached it, unless it is exactly MinInt64 |
| Risk.LargestLossIsAllowed | internal/risk/risk.go:135-214 | the witness: with a limit of one raw unit a loss of MinInt64 passes all checks, and one unit less is stopped |
| RiskGate.FailuresStayBounded | internal/risk/risk.go:92-125 | over any history of attempts and operator actions the failure count stays within its maximum and no order stays outstanding |
| RiskGate.MaximumIsAbsorbing | internal/engine/engine.go:363-436 | once the maximum is reached nothing is ever submitted, settled or booked again, resets included |
| RiskGate.KilledMeansNothing | internal/engine/engine.go:363-379 | with the kill switch set an attempt changes nothing |
| RiskGate.AttemptIsGated | internal/engine/engine.go:363-436 | an attempt that changes anything met no kill switch and no maximum of failures, and counts as a success exactly when both legs filled |
| Attempts.GoesAheadIff | internal/engine/engine.go:363-394 | an attempt goes ahead exactly when: no kill switch, orders and failures within limits, notional, expected net and daily loss within theirs, both legs' own books usable, room at each leg's own mid, and the two balances cover notional and quantity |
| Attempts.SumsOfTheLegs | internal/risk/risk.go:184-214 | the exposures behind that check are those of the opportunity's own two venues, and of all |
| Attempts.MidMeaning | internal/engine/engine.go:364-370 | the mid is half the sum of best bid and best ask rounded toward zero, and missing where a side is |
| Attempts.AttemptNotes | internal/engine/engine.go:396-437 | one execution counted, both legs' fills reported in the policy's order, as many orders outstanding as before, and a failure counted, up to the kill switch, exactly when a leg filled nothing |
| Settlement.LegsAreFull | internal/engine/engine.go:396-431 | on the priced views both orders of a fresh opportunity are filled, nothing is residual, and the profit is proceeds less cost |
| Settlement.BuySettlement | internal/engine/engine.go:381-444 | after the check a buy is refused exactly when the quote does not cover its fee too, short by at most that fee |
| Settlement.CoveredBuyIsNeverRefused | internal/engine/engine.go:381-444 | an attempt has nothing refused when the quote covers the priced notional and the one-shot buy fee, both known before the trade |
| OmittedFee.CheckOmitsFee | internal/engine/engine.go:381-451 | a run of MaybeExecute on an opportunity priced on sound views: it passes every check, its buy is refused for want of the fee, and its profit is booked all the same |
| Settlement.SaleIsNeverRefused | internal/engine/engine.go:363-450 | when maybeExecute passes its checks the sale cannot be refused, whatever views the legs read and however little they fill: nothing is refused, or the buy alone |
| Settlement.JoinedSymbolSettles | internal/engine/engine.go:439-450 | on base-quote a filled buy pays quote and brings base and a filled sale the reverse, each at its own venue, exactly when what it pays is there |
| Settlement.JoinedSymbolStocked | internal/engine/engine.go:381-394 | on base-quote the inventory check asks for quote at the buy venue and base at the sell venue |
| Conservation.HistoryConserves | internal/engine/engine.go:363-460 | over any history of maybeExecute, live or not, without premises: what is held of any assets moves by the flows of the executed legs, less what refused settlements should have moved; realized is the sum of what was booked; one booking per execution |
| Conservation.BookingMeaning | internal/execution/execution.go:328-363 | an execution adds its residual to the base, and to the quote its profit and the value of what did not match, exactly when the fees add up to MinInt64 just where the cost of the buy or the fee of the sale is MinInt64 |
| LiveConservation.LiveConserves | internal/engine/engine.go:363-460 | over any live history of new opportunities, each leg on views of its own: only buys are refused, assets that are no quotes move by the residuals, and, amounts being exact, any assets by residuals, booked profit and unmatched value |
| LiveConservation.RegimeIsExact | internal/execution/execution.go:254-363 | amounts are exact at nonnegative prices with rebates of up to half a notional, and at prices of any sign under a bounded notional |
| DeterministicRun.PairsVisited | internal/opportunity/engine.go:116-130 | a scan visits every ordered pair of distinct venues and nothing else |
| RunPlans.ScanOrder | internal/opportunity/engine.go:116-130 | it visits the places of the venue list where two different venues meet, row by row, each once |
| RunPlans.ScanFindsAll | internal/opportunity/engine.go:116-130 | it finds exactly the pairs that pay, in the order of the visit, numbered on without a gap |
| DeterministicRun.ExecutionRealizesPricedProfit | internal/engine/engine.go:425-451 | each execution of a deterministic pass books the priced profit up to the rounding bound, refused settlements included |
| DeterministicRun.RunFillsOrders | internal/engine/engine.go:304-460 | over every deterministic run, at any prices and in every outcome that an order of the positions gives: all orders filled, two per execution, and only buys refused |
| DeterministicRun.RunConserves | internal/engine/engine.go:304-460 | over every deterministic run of any symbols, at nonnegative prices with rebates of up to half a notional or at prices of any sign under a bounded notional, and in every outcome: assets that include all quotes hold their seeds plus the realized profit, assets that are no quotes hold their seeds, refused buys aside |
| DeterministicRun.RunConservesEach | internal/engine/engine.go:304-460 | and any assets, be they quotes of some symbols and bases of others, hold their seeds plus the profits of the trades quoted in them |
| DeterministicRun.EvaluationFindsBatch | internal/opportunity/engine.go:116-130 | everything a scan finds was priced on the current views, under fresh and increasing ids |
| RunProfit.RunRealizesPricedProfit | internal/engine/engine.go:304-460 | over every deterministic run of any symbols, in every outcome that an order of the positions gives: one trade per execution, and the realized profit is at least the sum over the trades of net + slippage + latency - n - n*q/1e8 |
| MarketTruth.OpportunitiesAreReal | internal/engine/engine.go:304-347 | whatever the feeds lost or repeated before, and whatever the outcome so far, an opportunity found in a deterministic run is priced on the top 512 levels of both venues' true books (for Binance, while no snapshot is older than its tracker) |
| RunPlans.RunTriesAll | internal/engine/engine.go:304-347 | every outcome of a deterministic run comes of attempting its whole plan: after each event, on the books it left, everything that the scans find, in order |
| Supervisors.Supervisor.MaybeExecute | internal/engine/engine.go:363-460 | the supervisor object gates, submits, executes, notes and settles as MaybeExecuteGiven says, for exposures summed in some order of the positions, or changes nothing |
| Supervisors.Supervisor.EvaluateOnce | internal/engine/engine.go:338-347 | one pass over all symbols and venue pairs, executing what it finds in order, ends in an outcome that PassesTo allows |
| Supervisors.Supervisor.RunDeterministic | internal/engine/engine.go:304-327 | consuming the source event by event leaves all objects in a state that RunsTo allows, or panics where it does; in the state of RunOf, wherever no check meets a position of MinInt64 |
| EngineSpec.MeasurableRun | internal/engine/engine.go:304-460 | such a run has one outcome, whatever order the positions are visited in |
| Measurable.RunIsMeasurable | internal/engine/engine.go:304-460 | when every symbol has a base asset of its own no check meets such a position, since a position is what its base balance has gained and no sale overdraws one |

## Where code and documents differ

The model follows the code.

- The Binance rule accepts U <= lastSeq + 1 (`internal/book/seq.go:100`), where
  `docs/market-data-contract.md` asks for an equality.
- A bare first Binance delta anchors the tracker and is applied (`internal/book/seq.go:87-91`),
  where the document says that deltas before any snapshot are ignored. Such a book is never ready.
- An IOC order that crosses no level stays Pending (`internal/execution/execution.go:301`),
  where `docs/execution-model.md` has its remainder cancelled.
- `Fill` writes quantity and average before it tries the transition
  (`internal/execution/execution.go:131-143`).
- `docs/risk-model.md` says that trades that cannot be settled are rejected; the check leaves
  out the buy's fee, and profit is booked even when a settlement was refused
  (`internal/engine/engine.go:384-389`, `internal/engine/engine.go:439-451`).
- A realized loss of exactly MinInt64 is not caught by the daily loss limit, because `Abs` wraps
  (`Risk.DailyLossIff`, `Risk.LargestLossIsAllowed`).

## Left out

- DeterministicRun.RunConserves: for prices, rates and quantities outside both regimes the flows of the legs are all that is claimed (HistoryConserves), since an amount of MinInt64 can then part them from the booked profit (BookingMeaning).
- RunProfit.RunRealizesPricedProfit: claims nothing for negative prices or for rebates, whose rounding goes against the trader.
- LiveConservation.LiveConserves: asks for opportunities that were never submitted before; one that was is worked on the orders already there.
- LedgerTheory.BuysAreAveraged: a position that is ever sold is not claimed to hold the average of its buys; selling averages too, and a trade that ends short stores minus the average (StoredAverageIff, ShortStoresNegativeAverage).
- Reconstruction.ForwardReconstruction: session-level sequence resets, and the fact that Binance's depth20 snapshots are top-20 images, are excluded by the premise of one monotone history with full snapshots.
- WebSocket, JSON, HTTP, storage, metrics, configuration, journal and recorder: I/O and plumbing. Resync requests and the recent-opportunity and rejection lists are not kept.
- Goroutines, channels and locks as primitives: a lane's steps are atomic at its lock and channel operations. In live mode the four places that read views may each see different ones; `EngineSpec.Reads` covers that for the risk gate, while the supervisor object is modelled on one goroutine.
- Submit and the sweeper's loop over all lanes: modelled one lane at a time; only Register and ApplySync work on the whole set of lanes.
- Wall-clock time: every clock reading is a parameter. Order and journal timestamps are not kept.
- Book versions, counters, sequence numbers and durations are unbounded integers.
- Keys are pairs of venue and name where the source joins strings with a bar; ids "opp-n-buy" and "opp-n-sell" are a datatype, and order numbers are numbers.
- `sort.Slice` is modelled by its effect; the FNV digests are not modelled, only that what they hash is determined by the maps.
- `Manager.MaxAge`, which no part of the engine sets, and the read helpers BestBid, Mid, Spread and Crossed.
- Reserved balances, which no operation of the ledger changes, and recovery of balances from storage.
