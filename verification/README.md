# Verified model of the trading platform's core

This project models the four parts of the platform whose correctness spans many steps, and
proves what each of them promises over every input and every run.

1. **Backtest simulation.** `Fills`, `Ledger`, `FifoMatching`, `Backtest`, `BacktestTheorems` and
   `BacktestEngine` model the fill resolver, the FIFO lot ledger and the run loop. A run is first
   defined as a fold over the intents; `BacktestEngine.RunBacktest` is the engine as it runs, with
   its monotone cursor, its per-record loop and its mutable ledger object, and is proved to compute
   that fold. `Portfolio`, `PortfolioPlanning`, `PortfolioTheorems`, `PortfolioRefinement`,
   `PortfolioEngine` and `PortfolioRun` do the same for the multi-symbol engine over one merged
   timeline and one cash pool (`Sorting` holds the sort it uses), and `PortfolioLookAhead` shows that this
   engine does not look ahead either.
2. **Order execution.** `OrderCreation` and `OrderService` model order creation, cancellation and status reports,
   and `OrderHistories` tells from their schedules which stored histories are legal. `Submission` models
   the retry loop, `SubmittedOrders` what it leaves behind, `OrderLifecycle` the state machine of one order and `OrderProgress`
   what moves it on, `EventStore` and `ConcurrentDelivery` the
   delivery of broker events, alone and among other deliveries and cancellations, and `CancelledFills` what
   these keep of an order's status. Creation, submission and delivery are state
   machines whose runs are all interleavings of workers, with crashes, over a store with unique keys;
   uninterrupted calls are methods proved to be runs of those machines.
3. **Paper trading.** `PaperBook` models the order book, `PaperFunds` the cash ledger and the cost
   model, `PaperService` the service on top, `PaperCash` what the cash ledger keeps over every run, and
   `PaperTrail` how its cash and outcomes correspond to the fills on record.
4. **Small stateful structures.** `SlidingWindow`, `TokenBucket`, `DuplicateTicks`, `WalkForward` and
   `Coverage` prove a request limiter, a token bucket, a duplicate detector and the walk-forward
   scheduler equal to specifications over their full history.

`Wrappers`, `Sequences` and `Arithmetic` hold option and result types, sequences without repetition and a few
facts about real arithmetic.

Modelling decisions:

- Decimal amounts are exact reals. The program rounds to 28 significant digits
  (backtesting/alpha_algo_backtest_engine/costs.py:26), so accounting equalities are statements about
  exact arithmetic. Rounding to a price or money quantum in the paper cost model is modelled as it is.
- Times are integers in the simulators and reals in the limiters. Clock readings, generated ids,
  broker answers and reference prices are parameters.
- Digests and generated identifiers are modelled by the values they are computed from, so they are injective.
  A digested quantity is a value together with the way it is written, as the program digests its text.
- What constructors enforce (positive prices, ascending records, slippage below 10000 basis points, a
  reserve within the capital, fill events with a positive quantity) is a type or a precondition.

Where the code does not do what one would expect of it, the code is followed and the difference is proved:

- Orders are read in one transaction and written in another, without a recheck, so a write can land on a
  status its writer never saw. A late partial fill reopens a filled order (`OrderService.StaleFillReopensOrder`),
  a late acknowledgement erases a cancel request (`OrderService.LateReportErasesCancel`), and a late
  cancellation overwrites a fill (`OrderService.LateCancelOverwritesFill`). Every write is legal for what its
  writer had read and every illegal edge was overtaken. `OrderHistories.HistoryIsLegalExactlyWhen` gives the
  exact condition on the schedule: never does the last write that lands between a call's read and its write
  store a status that does not admit what the call was asked to store.
- A cancel request sets the status alone. One that lands over a full fill leaves an order that is completely
  filled and not FILLED (`CancelledFills.LateCancelStrandsOrder`), and nothing that is delivered afterwards
  makes it FILLED (`CancelledFills.StrandedForever`). An order is FILLED exactly when it is completely filled,
  throughout a run, if and only if the last save between a canceller's check and its write is never a full
  fill (`CancelledFills.SoundExactlyWhenNoCancelOverFill`).
- An event without a broker's event id is identified by its fields, with the quantity as it is written, so the
  same fill written 1 and 1.0 is counted twice (`EventStore.RewrittenFillCountsTwice`).
- An adapter error of unknown external state, and a response with an unexpected status, end the attempt as unknown
  without telling the order, which stays SUBMISSION_REQUESTED (`SubmittedOrders.FinishedOrderFollowsAnswer`).
- The stored filled quantity is truncated to a whole number, so a fractional fill is accepted and lost
  (`EventStore.FractionalFillIsLost`); it is exact if and only if all accepted fills are whole
  (`EventStore.StoredFillsAreExact`).
- `apply_event` loads and saves an order in separate transactions, so two overlapping fills can lose one
  (`ConcurrentDelivery.OverlappingFillsLoseOne`); the stored quantity stays exact if and only if no fill of the
  same order commits between the load and the save of one call (`ConcurrentDelivery.ExactExactlyWhenNotOvertaken`).
- A paper buy whose slipped price rounds to zero while a commission is due takes the commission and
  records nothing (`PaperCash.FeeVanishes`); cash is conserved if and only if a run has no such buy
  (`PaperCash.CashIsConservedExactlyWhen`), which its caller can tell beforehand (`PaperCash.VanishesExactlyWhen`).
- The paper book records a fill before the service settles it. A buy whose slipped price rounds to zero, or a sell
  that does not exceed its fee, is on the fill trail without an accepted outcome (`PaperTrail.SellStrays`); outcomes
  and trail correspond one for one if and only if a run has no such call (`PaperTrail.TrailMatchesExactlyWhen`).
- A comment in the portfolio engine speaks of buys that would dip below the reserve; the code refuses
  sells that would as well, and the model follows the code (`Portfolio.PortfolioIsSafe`).

## Model

| member | source | states |
|---|---|---|
| Fills.SlippageIsProportional | backtesting/alpha_algo_backtest_engine/costs.py:81-105 | slippage adds the basis points of the anchor price to a buy and takes them off a sell |
| Fills.FillRuleIsLawful | backtesting/alpha_algo_backtest_engine/fills.py:151-269 | for every query, a fill exchanges the intent's quantity for cash at its price and pays its commission, cash and position stay non-negative, and a refusal changes nothing |
| Fills.FilledExactlyWhen | backtesting/alpha_algo_backtest_engine/fills.py:179-269 | an intent fills if and only if the quote on its side reaches it and the account affords it, and then at that price, commission, record and time |
| Fills.RefusalNamesTheObstacle | backtesting/alpha_algo_backtest_engine/fills.py:185-246 | a refusal names the first obstacle in the order quote, limit, shares, cash |
| Fills.PricesAreFair | backtesting/alpha_algo_backtest_engine/fills.py:179-232 | a limit order never trades through its limit and a market order never trades better than quoted |
| Fills.FillIsPricedAsQuoted | backtesting/alpha_algo_backtest_engine/fills.py:179-269 | a fill in numbers: its anchor is the open, the own side of the quote or the last price, its slippage per share is the configured basis points of the anchor for a market order and nothing for a limit order, and price, gross value and cash flow follow |
| Ledger.MatchCoherent | backtesting/alpha_algo_backtest_engine/ledger.py:95-105 | matching any part of a lot keeps its accumulated costs, exit value and realized profit in line with the shares it has sold |
| Ledger.CompletedBalanced | backtesting/alpha_algo_backtest_engine/ledger.py:106-119 | a completed lot's trade has profit (exit - entry) * quantity less entry and exit cost, and carries the lot's full entry commission |
| Ledger.UnmatchedShares | backtesting/alpha_algo_backtest_engine/ledger.py:121-122 | a sell is absorbed exactly when the open lots hold enough shares |
| Ledger.SellConserves | backtesting/alpha_algo_backtest_engine/ledger.py:90-120 | any quantity that is additive over matched shares is conserved by a sell between the lots before and the lots and trades after |
| Ledger.OpenBooks | backtesting/alpha_algo_backtest_engine/ledger.py:64-75 | a buy adds exactly its shares, its cost and its commission to the books |
| Ledger.CloseBooks | backtesting/alpha_algo_backtest_engine/ledger.py:77-124 | a sell moves exactly its quantity, its net proceeds and its commission on the books |
| Ledger.FifoLedger.OpenLot | backtesting/alpha_algo_backtest_engine/ledger.py:64-75 | appends the lot of a buy and refuses a sell |
| Ledger.FifoLedger.CloseLots | backtesting/alpha_algo_backtest_engine/ledger.py:77-124 | the in-place walk computes the specified lots and trades, and fails exactly when the sell exceeds the open position |
| FifoMatching.LedgerIsIntervalMatching | backtesting/alpha_algo_backtest_engine/ledger.py:64-124 | after any history that never oversells, lots, trades and trade numbers are those obtained by laying buys and sells end to end and overlapping their intervals |
| FifoMatching.LotRemaining | backtesting/alpha_algo_backtest_engine/ledger.py:95-99 | what a lot has lost is the overlap of its interval with all sells so far |
| FifoMatching.ExitsAreOverlaps | backtesting/alpha_algo_backtest_engine/ledger.py:100-100 | a lot's exit list names exactly the sells whose intervals overlap its own |
| FifoMatching.OnlyOldestLotPartlySold | backtesting/alpha_algo_backtest_engine/ledger.py:90-123 | in every reachable ledger only the oldest open lot can be partly consumed |
| FifoMatching.LotAccumulates | backtesting/alpha_algo_backtest_engine/ledger.py:95-104 | what a lot has accumulated follows from its buy and the overlaps alone: exit value, proportional exit commissions and exit list |
| FifoMatching.TradesInEntryOrder | backtesting/alpha_algo_backtest_engine/ledger.py:106-120 | the k-th trade is the round trip of the k-th buy: its price and full commission, the volume-weighted price and proportional commissions of the sells that overlap it, and exactly these sells in its exit list |
| Backtest.AnchorIsLeast | backtesting/alpha_algo_backtest_engine/engine.py:177-188 | an intent's anchor is the first record strictly after its decision |
| Backtest.ThreeBooksAgree | backtesting/alpha_algo_backtest_engine/engine.py:196-224 | at every step of every run cash, position and lots describe the same history, cash is non-negative and the ledger is the interval matching of the fills |
| BacktestTheorems.AccountingIdentity | backtesting/alpha_algo_backtest_engine/engine.py:196-230 | after every record, marked at its close or last price, equity is capital plus realized profit plus, for each open lot, its realized share, its unrealized gain and its unused entry commission |
| BacktestTheorems.FlatRunGainsItsTrades | backtesting/alpha_algo_backtest_engine/engine.py:123-125 | a run that ends flat gains exactly the sum of its trades' profits |
| BacktestTheorems.TradesAreRoundTrips | backtesting/alpha_algo_backtest_engine/engine.py:203-224 | in every run the k-th trade is the round trip of the k-th buy, with prices, costs, exits and profit |
| BacktestTheorems.CostsAreConserved | backtesting/alpha_algo_backtest_engine/engine.py:127-131 | every trade's profit balances and carries its buy's full commission, and in a flat run the trades' costs add up to the total commission |
| BacktestTheorems.NoLookAhead | backtesting/alpha_algo_backtest_engine/engine.py:177-230 | runs that share the first n records agree on the first n equity points and on every intent anchored before n |
| BacktestTheorems.AppendingRecords | backtesting/alpha_algo_backtest_engine/engine.py:187-194 | appending records can only change outcomes that were "no record after decision" |
| BacktestEngine.AnchorIntents | backtesting/alpha_algo_backtest_engine/engine.py:181-194 | the sweep with one monotone cursor places every intent at its anchor or pre-fills it, and nothing else |
| BacktestEngine.ApplyIntent | backtesting/alpha_algo_backtest_engine/engine.py:204-224 | one intent takes the engine's variables from the account after i intents to the account after i + 1; the oversell error cannot occur |
| BacktestEngine.ApplyRecord | backtesting/alpha_algo_backtest_engine/engine.py:203-224 | the intents anchored at a record are applied in order |
| BacktestEngine.AreAscending | backtesting/alpha_algo_backtest_engine/engine.py:162-166 | adjacent comparison decides whether all decisions strictly ascend |
| BacktestEngine.CollectOutcomes | backtesting/alpha_algo_backtest_engine/engine.py:232-238 | no outcome is missing at the end of a run |
| BacktestEngine.RunBacktest | backtesting/alpha_algo_backtest_engine/engine.py:140-238 | the engine computes the simple fold, and fails exactly on capital that is not positive or decisions that do not ascend |
| Sorting.SortSorts | backtesting/alpha_algo_backtest_portfolio/engine.py:226-226 | sorting comparable entries gives a strictly sorted arrangement of exactly these entries |
| Sorting.SortedUnique | backtesting/alpha_algo_backtest_portfolio/engine.py:259-259 | strictly sorted arrangements of the same entries are equal |
| Portfolio.PortfolioIsSafe | backtesting/alpha_algo_backtest_portfolio/engine.py:288-338 | over every run shared cash never falls below the reserve, for buys or sells, and every held symbol has a mark |
| Portfolio.AllocateIsProper | backtesting/alpha_algo_backtest_portfolio/engine.py:277-316 | the portfolio's rule is lawful and never fills below the reserve |
| Portfolio.AllocateOnlyRefuses | backtesting/alpha_algo_backtest_portfolio/engine.py:288-316 | the floor and the budget only refuse: the portfolio fills exactly what the single-symbol rule fills above the reserve and within the budget, and then with the same result |
| PortfolioPlanning.TimelineIsSorted | backtesting/alpha_algo_backtest_portfolio/engine.py:254-259 | the merged timeline is strictly sorted by time and symbol and holds every record exactly once |
| PortfolioPlanning.TimelineIsUnique | backtesting/alpha_algo_backtest_portfolio/engine.py:254-259 | any strictly ordered arrangement of the records is the timeline |
| PortfolioPlanning.TimelineRunsInTime | backtesting/alpha_algo_backtest_portfolio/engine.py:259-259 | records stand in time order, and those of one time in the order of their symbols: a proper prefix, or the smaller character where they first differ, comes first |
| PortfolioPlanning.EntriesCarryTheirRecords | backtesting/alpha_algo_backtest_portfolio/engine.py:254-258 | every entry is a record of the input of its symbol, under that record's own time |
| PortfolioPlanning.EquityRunsInTime | backtesting/alpha_algo_backtest_portfolio/engine.py:338-339 | the equity curve has a point for every record and never goes back in time |
| PortfolioPlanning.PlanIgnoresInputOrder | backtesting/alpha_algo_backtest_portfolio/inputs.py:51-57 | permuting the caller's inputs leaves the plan, and so outcomes, trades and equity, identical |
| PortfolioTheorems.PoolAlwaysBalances | backtesting/alpha_algo_backtest_portfolio/engine.py:264-329 | in every run of the engine, at every record, shared cash plus what is booked in open lots and trades of all symbols is the capital |
| PortfolioTheorems.PortfolioAccountingIdentity | backtesting/alpha_algo_backtest_portfolio/engine.py:331-339 | every point of the engine's equity curve is capital plus realized profit plus the open profit of every symbol at its last mark |
| PortfolioTheorems.MarkedAtLastClose | backtesting/alpha_algo_backtest_portfolio/engine.py:264-275 | at every moment a symbol is marked at the close or last price of its last record so far |
| PortfolioLookAhead.PortfolioDoesNotLookAhead | backtesting/alpha_algo_backtest_portfolio/engine.py:239-339 | universes whose merged timelines share their first g records agree on the first g equity points and on the outcome of every intent that one of these records follows, even if they differ in later records and in symbols that begin later |
| PortfolioLookAhead.AnchoredExactlyAt | backtesting/alpha_algo_backtest_portfolio/engine.py:239-252 | an intent is anchored at an entry of the timeline if and only if that is the first record of its symbol after its decision |
| PortfolioLookAhead.OutcomeStays | backtesting/alpha_algo_backtest_portfolio/engine.py:277-329 | an intent is processed once: what it got at its record is what the run reports |
| PortfolioRefinement.PortfolioRefinesBacktest | backtesting/alpha_algo_backtest_portfolio/engine.py:220-339 | for one symbol, no reserve, no budget and ascending intents, the portfolio engine yields the backtest engine's outcomes, trades and equity |
| PortfolioEngine.GroupIntents | backtesting/alpha_algo_backtest_portfolio/engine.py:220-223 | one pass distributes the intents to their symbols' groups in caller order |
| PortfolioEngine.HasTies | backtesting/alpha_algo_backtest_portfolio/engine.py:227-231 | adjacent comparison decides whether a sorted group has ties |
| PortfolioEngine.AnchorGroup | backtesting/alpha_algo_backtest_portfolio/engine.py:239-252 | one monotone cursor anchors or pre-fills every intent of a symbol |
| PortfolioEngine.BuildTimeline | backtesting/alpha_algo_backtest_portfolio/engine.py:254-259 | the collected and sorted entries are the timeline |
| PortfolioEngine.Prepare | backtesting/alpha_algo_backtest_portfolio/engine.py:213-259 | preparation yields the plan, and fails exactly on unknown symbols or tied decisions |
| PortfolioRun.MarkToMarket | backtesting/alpha_algo_backtest_portfolio/engine.py:331-338 | the sum over held symbols never meets a missing mark |
| PortfolioRun.FollowedIntentsAreProcessed | backtesting/alpha_algo_backtest_portfolio/engine.py:341-343 | every intent that some record follows gets its outcome during the run |
| PortfolioRun.RunPortfolioBacktest | backtesting/alpha_algo_backtest_portfolio/engine.py:190-343 | the engine runs the plan of its inputs, and fails exactly on unknown symbols or ties |
| OrderLifecycle.RunKeepsInvariant | services/execution_engine/alpha_algo_execution_engine/events.py:74-144 | over every run the filled quantity stays in range and never decreases, FILLED means completely filled and conversely, and the log is a connected legal path to the current state |
| OrderLifecycle.FreshOrderInvariant | services/execution_engine/alpha_algo_execution_engine/lifecycle.py:110-140 | the same for every run from a fresh order |
| OrderLifecycle.TerminalAbsorbs | services/execution_engine/alpha_algo_execution_engine/lifecycle.py:80-83 | no sequence of moves changes a terminal order in any way |
| OrderLifecycle.UnknownAwaitsReconciliation | services/execution_engine/alpha_algo_execution_engine/lifecycle.py:70-70 | an unknown order ignores everything but reconciliation |
| OrderLifecycle.FilledIsSumOfFills | services/execution_engine/alpha_algo_execution_engine/events.py:96-114 | the filled quantity is exactly what the accepted fills add up to |
| OrderProgress.AcceptedExactlyWhen | services/execution_engine/alpha_algo_execution_engine/events.py:74-114 | for every kind of event: an order accepts it exactly if it is its own, at the listed statuses, and if a fill fits; a refusal names the first obstacle |
| OrderProgress.AcceptedMovesOrder | services/execution_engine/alpha_algo_execution_engine/events.py:116-144 | an accepted event adds its fill, may bring a broker order id, appends one log entry and changes nothing else |
| OrderProgress.AdvancedExactlyWhen | services/execution_engine/alpha_algo_execution_engine/lifecycle.py:32-61 | the order service's own moves are accepted exactly along the path to submission, and to cancellation from where it can be requested |
| OrderProgress.ConfirmedCancelEnds | services/execution_engine/alpha_algo_execution_engine/lifecycle.py:62-69 | a confirmed cancellation ends the order CANCELLED with what it had filled |
| OrderProgress.PartialsAddUp | services/execution_engine/alpha_algo_execution_engine/events.py:96-104 | any partial fills that leave shares open are all accepted and add up |
| OrderProgress.FillsComplete | services/execution_engine/alpha_algo_execution_engine/events.py:82-114 | from submission an acknowledgement, any such partial fills and the completing fill end the order FILLED |
| OrderProgress.ReconciledOrderFollowsReport | services/execution_engine/alpha_algo_execution_engine/lifecycle.py:70-79 | an order of unknown state that is reconciled ends where the next report says |
| OrderProgress.EveryOrderCanEnd | services/execution_engine/alpha_algo_execution_engine/lifecycle.py:32-83 | from every state that is not terminal some run of valid moves reaches a terminal one |
| OrderProgress.StoredExactlyWhen | services/execution_engine/alpha_algo_execution_engine/engine.py:408-441 | the store accepts an event exactly if it is new, its order is stored at a status that admits it, its fill fits and its broker order id is free |
| OrderProgress.StoredMovesRow | services/execution_engine/alpha_algo_execution_engine/repository.py:158-192 | an accepted event moves its one row on and appends itself, and leaves every other row alone |
| OrderProgress.ConfirmedCancelIsStored | services/execution_engine/alpha_algo_execution_engine/repository.py:167-172 | a confirmed cancellation is stored as CANCELLED with what was filled |
| OrderProgress.RequestAndConfirmationCancel | services/oms/alpha_algo_oms/service.py:288-321 | a cancel request and its confirmation, one after the other, leave the stored order CANCELLED |
| OrderProgress.StoredFillsComplete | services/execution_engine/alpha_algo_execution_engine/repository.py:167-192 | different partial fills of whole shares and the completing fill leave the stored order FILLED and completely filled |
| EventStore.SameIdentityExactlyWhen | services/execution_engine/alpha_algo_execution_engine/identity.py:32-70 | two events have one identity if and only if they are for one order and carry one event id of the broker, or carry none and agree in kind, broker order id and written quantity; their contents agree if and only if kind, broker order id, written quantity and reason do |
| EventStore.RedeliveryIsHarmless | services/execution_engine/alpha_algo_execution_engine/engine.py:412-425 | an accepted event redelivered any time later changes nothing, then or afterwards |
| EventStore.ConflictIsRefused | services/execution_engine/alpha_algo_execution_engine/engine.py:414-418 | the same identity with different content is refused at any later time without change |
| EventStore.StoredFillsCountOnce | services/execution_engine/alpha_algo_execution_engine/repository.py:167-189 | for any delivery sequence the stored quantity counts every accepted event exactly once |
| EventStore.AcceptedOnce | services/execution_engine/alpha_algo_execution_engine/identity.py:32-54 | accepted events have pairwise different identities |
| EventStore.StoredFillsAreExact | services/execution_engine/alpha_algo_execution_engine/repository.py:171-171 | the stored quantity is the sum of the accepted fills if and only if all of them are whole |
| EventStore.FractionalFillIsLost | services/execution_engine/alpha_algo_execution_engine/repository.py:171-171 | half a share is accepted and the stored quantity stays at zero |
| EventStore.RewrittenFillCountsTwice | services/execution_engine/alpha_algo_execution_engine/identity.py:32-70 | an accepted fill delivered again with its quantity written differently is refused if it has a broker's event id, and otherwise counted twice |
| ConcurrentDelivery.IdentitiesStayUnique | services/execution_engine/alpha_algo_execution_engine/repository.py:176-192 | in every interleaving of deliveries and cancellations an identity is stored at most once |
| ConcurrentDelivery.BrokerIdsStayUnique | services/execution_engine/alpha_algo_execution_engine/repository.py:172-192 | in every interleaving of deliveries and cancellations no two stored orders have the same broker order id |
| ConcurrentDelivery.FillsAreAccountedFor | services/execution_engine/alpha_algo_execution_engine/engine.py:427-441 | in every interleaving of deliveries and cancellations the stored quantity is the stored fills less what stale copies wrote over |
| ConcurrentDelivery.ExactExactlyWhenNotOvertaken | services/execution_engine/alpha_algo_execution_engine/engine.py:427-441 | the stored quantity stays exact throughout a run if and only if no fill of the same order commits between the load and the save of one call |
| ConcurrentDelivery.UndisturbedRunsAreSerial | services/execution_engine/alpha_algo_execution_engine/engine.py:408-441 | if no write of the same order lands between the read and the write of any delivery or cancellation, the store is the one that making these calls one by one gives, in the order of their writes |
| ConcurrentDelivery.DeliveriesOneByOne | services/execution_engine/alpha_algo_execution_engine/engine.py:408-441 | without cancellations, that is a sequence of deliveries |
| ConcurrentDelivery.UninterruptedCancelIsRequest | services/oms/alpha_algo_oms/service.py:288-321 | the steps of a cancellation that nobody interrupts check and write at once |
| CancelledFills.FilledMeansComplete | services/execution_engine/alpha_algo_execution_engine/repository.py:167-172 | in every interleaving of deliveries and cancellations no stored order is overfilled, and a FILLED one is completely filled |
| CancelledFills.SoundExactlyWhenNoCancelOverFill | services/oms/alpha_algo_oms/service.py:288-321 | throughout a run an order is FILLED exactly when it is completely filled, if and only if the last save that lands between a canceller's check and its write is never a full fill |
| CancelledFills.LateCancelStrandsOrder | services/oms/alpha_algo_oms/repository.py:174-195 | every full fill that lands between a canceller's check and its write leaves the order completely filled with status CANCEL_REQUESTED |
| CancelledFills.StrandedForever | services/execution_engine/alpha_algo_execution_engine/events.py:74-144 | an order that is completely filled and not FILLED, with no delivery of it in flight, never becomes FILLED in any interleaving of further deliveries and cancellations |
| ConcurrentDelivery.FilledIsNotFinal | services/execution_engine/alpha_algo_execution_engine/lifecycle.py:80-83 | terminal states do not absorb at the store: a late partial fill reopens an order whose full fill was saved |
| ConcurrentDelivery.UninterruptedCallIsDelivery | services/execution_engine/alpha_algo_execution_engine/engine.py:408-441 | the four steps of a call that nobody interrupts leave the store that one delivery gives |
| ConcurrentDelivery.ExecutionStore.SaveEvent | services/execution_engine/alpha_algo_execution_engine/repository.py:158-194 | order and event are written together, exactly when the event's identity is new and the broker order id is not another order's, or not at all |
| ConcurrentDelivery.ExecutionStore.Apply | services/execution_engine/alpha_algo_execution_engine/engine.py:408-441 | one uninterrupted call is a run of the machine, and recognises, refuses or applies the event as one delivery does |
| ConcurrentDelivery.OverlappingFillsLoseOne | services/execution_engine/alpha_algo_execution_engine/engine.py:427-441 | any two overlapping fills are both stored, and status and quantity show only the second |
| ConcurrentDelivery.OneAndOneMakeOne | services/execution_engine/alpha_algo_execution_engine/engine.py:427-441 | a concrete instance: two single shares leave one filled |
| Submission.AtMostOneDispatcher | services/execution_engine/alpha_algo_execution_engine/engine.py:121-175 | in every interleaving only the worker that stored attempt 0 calls the adapter, at most max_retries + 1 times |
| Submission.RetriesFollowTransients | services/execution_engine/alpha_algo_execution_engine/engine.py:145-150 | every call after the first directly follows a transient error |
| Submission.RetriesNeverConflict | migrations/versions/20260819_execution.py:41-45 | the unique key never refuses a retry; only attempt 0 can conflict |
| Submission.AtMostOneOrderEvent | services/execution_engine/alpha_algo_execution_engine/engine.py:222-321 | in every interleaving an execution applies at most one order event, the one its last answer calls for, and an order awaiting submission admits it |
| Submission.AttemptStore.SaveAttempt | services/execution_engine/alpha_algo_execution_engine/repository.py:88-97 | an attempt is stored exactly when its key is free |
| Submission.MakeAttempt | services/execution_engine/alpha_algo_execution_engine/engine.py:132-175 | an attempt is stored before the adapter is called; unless the answer asks for another, its order event is applied and it is finalized |
| Submission.Submit | services/execution_engine/alpha_algo_execution_engine/engine.py:121-175 | one uninterrupted call is a run of the protocol; it replays attempt 0 or calls the adapter until the first answer that is not transient, within the retry bound, and applies the order event of that answer |
| SubmittedOrders.FinishedOrderFollowsAnswer | services/execution_engine/alpha_algo_execution_engine/engine.py:222-321 | when a submission has finished, in any interleaving, its order is acknowledged, rejected or unknown exactly when the last answer was an acknowledgement, a rejection, or a timeout or unknown response, and otherwise as it was |
| SubmittedOrders.MovedOrderFollowsAnswer | services/execution_engine/alpha_algo_execution_engine/engine.py:222-321 | at every moment, crashes included, an order that was moved on was moved as its last answer says |
| SubmittedOrders.StoredAttemptsRecordAnswers | services/execution_engine/alpha_algo_execution_engine/engine.py:141-175 | a stored attempt is in progress, or it is the last one and records its answer: acknowledged, submitted and timed out exactly for these answers, rejected exactly for rejections and errors that are not ambiguous |
| SubmittedOrders.ReportsAreTruthful | services/execution_engine/alpha_algo_execution_engine/engine.py:121-140 | a call reports its own final state as stored, or the first attempt's state; the lost race never raises |
| OrderCreation.OneRowPerOrchestration | services/oms/alpha_algo_oms/repository.py:136-172 | in every interleaving an orchestration id, and a risk approval, has at most one order row |
| OrderCreation.OneHandoffPerOrchestration | services/oms/alpha_algo_oms/service.py:185-239 | in every interleaving an orchestration id is handed to execution at most once, with its three events on record |
| OrderCreation.RowsAreForever | services/oms/alpha_algo_oms/repository.py:174-195 | a stored order keeps its identity forever and its history only grows |
| OrderCreation.OutcomesAreTruthful | services/oms/alpha_algo_oms/service.py:168-183 | what a finished call reports, an own order, an equal one or a conflicting one, is in the store |
| OrderCreation.LaterConflictIsRefused | services/oms/alpha_algo_oms/service.py:113-146 | a call that begins after the row exists with another payload can only end in a conflict naming that row, which stays as it is |
| OrderCreation.LoserNamesTheWinner | services/oms/alpha_algo_oms/repository.py:158-168 | whoever loses the race names the winner: once an orchestration id has a row, every call for it that has not inserted yet can only end in that row, as a replay if the payloads are equal and as a conflict if not |
| OrderCreation.OneCancelPerOrder | services/oms/alpha_algo_oms/service.py:288-328 | two calls never both have a cancellation of the same order accepted |
| OrderCreation.EventsAreWrittenOnce | services/oms/alpha_algo_oms/repository.py:174-195 | no event is written by two calls, however many deliver it |
| OrderCreation.WritesWereLegalWhenRead | services/execution_engine/alpha_algo_execution_engine/engine.py:427-441 | in every interleaving of creating, cancelling and reporting calls, every stored status was a legal successor of what its writer had read |
| OrderCreation.IllegalEdgesWereOvertaken | services/oms/alpha_algo_oms/service.py:295-316 | every illegal edge of a stored history was overtaken: another write of the order landed between its writer's read and its write |
| OrderHistories.CallsWriteWhatTheyWereAsked | services/oms/alpha_algo_oms/service.py:288-321 | in every run a call that is about to write will store what it was made to store: the target of its report, or CANCEL_REQUESTED |
| OrderHistories.WriteIsLegalExactlyWhen | services/execution_engine/alpha_algo_execution_engine/repository.py:158-194 | on the schedule: a write adds a legal edge if and only if the last write that landed since its call's read, if any did, stored a status that admits it |
| OrderHistories.HistoryIsLegalExactlyWhen | services/oms/alpha_algo_oms/repository.py:174-195 | in every run all edges of an order's history are legal if and only if never does the last write between the read and the write of a call store a status that does not admit the call's target |
| OrderService.OrderTables.CreateOrder | services/oms/alpha_algo_oms/repository.py:136-172 | stores order and first event exactly when no unique key is taken, and otherwise names the winner |
| OrderService.OrderTables.AppendEvent | services/oms/alpha_algo_oms/repository.py:174-195 | appends the event and sets the status exactly when the order exists and the event is new |
| OrderService.AdvanceToSubmission | services/oms/alpha_algo_oms/service.py:185-239 | after the insert the order advances and is handed off, unless its approval has expired by then; the steps are a run of the protocol |
| OrderService.CreateOrder | services/oms/alpha_algo_oms/service.py:113-146 | one uninterrupted call is a run of the protocol and returns the outcome its orchestration id and unique keys dictate |
| OrderService.UnusedOrderIsCreated | services/oms/alpha_algo_oms/service.py:185-239 | from every reachable store, an order whose id, orchestration id and risk approval are all unused is created, advanced and handed off, and no other order changes |
| OrderService.UsedOrderIsNotStored | services/oms/alpha_algo_oms/repository.py:158-168 | a used id, orchestration id or risk approval keeps a second order out |
| OrderService.RequestCancellation | services/oms/alpha_algo_oms/service.py:288-328 | one uninterrupted call is a run of the protocol and moves an order that admits cancellation to CANCEL_REQUESTED, once, and otherwise changes nothing |
| OrderService.OvertakingStoresBoth | services/execution_engine/alpha_algo_execution_engine/engine.py:427-441 | any two writes that an order admits can be stored one over the other, whether or not the second follows from the first |
| OrderService.StaleFillReopensOrder | services/execution_engine/alpha_algo_execution_engine/engine.py:427-441 | a late partial fill reopens a completely filled order, with no cancellation involved |
| OrderService.LateReportErasesCancel | services/execution_engine/alpha_algo_execution_engine/engine.py:427-441 | a late acknowledgement takes an order back behind its accepted cancel request |
| OrderService.LateCancelOverwritesFill | services/oms/alpha_algo_oms/service.py:288-321 | a fill between a canceller's check and its write is overwritten |
| OrderService.IllegalEdgesAreReached | services/oms/alpha_algo_oms/service.py:288-321 | for every payload, runs from the empty store end in each of the three illegal edges |
| PaperBook.FillsExactlyWhen | services/paper_trading/alpha_algo_paper_trading/fill_policy.py:33-109 | an order fills at a price if and only if it is a market order and that is the last price, or a limit order whose quote leg shows that price at the limit or better |
| PaperBook.RefusalNamesTheObstacle | services/paper_trading/alpha_algo_paper_trading/fill_policy.py:33-109 | a refusal says what is missing: a supported order type, a quote on the order's side, or a limit that reaches it; market orders are never refused |
| PaperBook.PaperOrderBook.Submit | services/paper_trading/alpha_algo_paper_trading/book.py:112-170 | the guards, the replay, the conflict and the recording are those of the specification, in its order |
| PaperBook.PaperOrderBook.AcceptAndFill | services/paper_trading/alpha_algo_paper_trading/book.py:310-369 | acknowledgement, fill event, fill record and response are recorded together |
| PaperBook.PaperOrderBook.Reject | services/paper_trading/alpha_algo_paper_trading/book.py:279-308 | one rejection event and its response are recorded |
| PaperBook.PaperOrderBook.PendingEvents | services/paper_trading/alpha_algo_paper_trading/book.py:174-179 | returns the undrained tail and drains it |
| PaperBook.SubmissionsConclude | services/paper_trading/alpha_algo_paper_trading/book.py:279-381 | in every run a recorded submission's events are legal for its order and end it filled or rejected, as the response said |
| PaperBook.DrainsDeliverTheLog | services/paper_trading/alpha_algo_paper_trading/book.py:174-183 | in every run the drains so far and the undrained tail are the full log, in order |
| PaperBook.LogHoldsEachSubmissionOnce | services/paper_trading/alpha_algo_paper_trading/book.py:185-190 | picking one order out of the whole log gives exactly the events its submission recorded |
| PaperBook.FillTrailIsTheLog | services/paper_trading/alpha_algo_paper_trading/book.py:346-359 | the fill trail is the log's fill events in order, numbered from zero |
| PaperBook.NamingsExist | services/paper_trading/alpha_algo_paper_trading/book.py:53-63 | an injective naming of orders by account and client order id exists |
| PaperBook.BrokerNamesDiffer | services/paper_trading/alpha_algo_paper_trading/book.py:317-317 | different orders get different broker order ids |
| PaperBook.ResubmissionIsHarmless | services/paper_trading/alpha_algo_paper_trading/book.py:141-146 | a resubmission at any later time gets the recorded answer if it is identical, is refused if not, and changes nothing |
| PaperFunds.ReleaseUndoesReserve | services/paper_trading/alpha_algo_paper_runtime/funds.py:39-65 | releasing what was reserved gives the ledger back |
| PaperFunds.SettlementMovesNetCash | services/paper_trading/alpha_algo_paper_runtime/service.py:206-225 | a settlement moves exactly its net cash, leaves reserved cash alone, and fails exactly on the stated amounts |
| PaperFunds.RoundHalfEven | services/paper_trading/alpha_algo_paper_runtime/costs.py:71-78 | the nearest integer, and the even one of two equally near |
| PaperFunds.SlippedBuyPrice | services/paper_trading/alpha_algo_paper_runtime/costs.py:60-71 | a slipped buy price is never negative and vanishes exactly when it is at most half a price quantum |
| PaperFunds.EffectivePriceIsNearest | services/paper_trading/alpha_algo_paper_runtime/costs.py:60-71 | the effective price is the quoted one plus (buy) or minus (sell) its basis points, to the nearest ten-thousandth, so slippage is adverse up to half of that |
| PaperFunds.FeeIsNearest | services/paper_trading/alpha_algo_paper_runtime/costs.py:73-78 | the fee is the configured one, to the nearest hundredth |
| PaperService.PaperBroker.SubmitOrder | services/paper_trading/alpha_algo_paper_trading/paper_broker.py:138-154 | a connected broker passes the request to its book with its own reference price |
| PaperService.PaperTradingService.CollectEvents | services/paper_trading/alpha_algo_paper_runtime/service.py:273-291 | the loop reads the latest fill price, rejection and time off the drained events |
| PaperService.PaperTradingService.Charge | services/paper_trading/alpha_algo_paper_runtime/service.py:206-244 | a fill is charged and recorded, or refused, or raises after the funds were debited, as specified |
| PaperService.PaperTradingService.Submit | services/paper_trading/alpha_algo_paper_runtime/service.py:145-244 | one call takes the desk to the specified desk and answer on every path |
| PaperCash.CallsGoByTheirIds | services/paper_trading/alpha_algo_paper_runtime/service.py:164-164 | a call goes by the client order id of its ticket, and an absent or empty one is replaced by the next generated one |
| PaperCash.GeneratedIdsDiffer | services/paper_trading/alpha_algo_paper_runtime/service.py:255-257 | generated client order ids of one account are all different |
| PaperCash.CashIsAccountedFor | services/paper_trading/alpha_algo_paper_runtime/service.py:206-244 | over every run cash is what the account began with plus the recorded net cash, less what vanished; reserved cash never changes and available cash is never negative |
| PaperCash.CashIsConservedExactlyWhen | services/paper_trading/alpha_algo_paper_runtime/service.py:209-241 | a run conserves cash if and only if none of its buys rounds to nothing while a payable fee is due |
| PaperCash.VanishesExactlyWhen | services/paper_trading/alpha_algo_paper_runtime/service.py:174-209 | when prices are shared, whether a buy loses its fee follows from what the caller holds: the policy's price on the quote, the half-quantum test on it, and a payable fee |
| PaperCash.FeeVanishes | services/paper_trading/alpha_algo_paper_runtime/service.py:67-74 | every such buy takes the fee, raises and records nothing |
| PaperCash.RestartRestoresFunds | services/paper_trading/alpha_algo_paper_runtime/service.py:102-111 | a service started again on the same repository, after any run, has the funds the old one had |
| PaperCash.PennyVanishes | services/paper_trading/alpha_algo_paper_runtime/costs.py:60-78 | a concrete such buy |
| PaperCash.FillsAtOwnQuote | services/paper_trading/alpha_algo_paper_runtime/service.py:174-186 | when prices are shared and events drained, a call that fills does so at the price the fill policy gives on the service's own quote |
| PaperCash.PreCheckSawThePrice | services/paper_trading/alpha_algo_paper_runtime/service.py:259-271 | then a buy fills at the very price that the pre-check found affordable |
| PaperCash.LateRefusalNeverRuns | services/paper_trading/alpha_algo_paper_runtime/service.py:213-219 | when service and broker share prices, no run reaches the late insufficient-funds refusal |
| PaperTrail.WouldFillExactlyWhen | services/paper_trading/alpha_algo_paper_runtime/service.py:145-185 | whether a call the book takes is filled, and at what price, follows from its ticket: its type, its limit and the quote, and for a buy the cash |
| PaperTrail.AcceptedTicketsAreHonoured | services/paper_trading/alpha_algo_paper_runtime/service.py:167-244 | when prices are shared, an accepted outcome has its ticket's side, instrument and quantity and the price the ticket asks for |
| PaperTrail.FillsAreAcceptedOrStray | services/paper_trading/alpha_algo_paper_runtime/service.py:145-244 | when prices are shared, at every moment of every run the fills on record are as many as the accepted outcomes and the fills that could not be settled |
| PaperTrail.TrailMatchesExactlyWhen | services/paper_trading/alpha_algo_paper_runtime/service.py:206-244 | then accepted outcomes and fill trail correspond one for one, in client order id, side, instrument, quantity, price and net cash, if and only if no call is filled that its caller could tell cannot be settled: a buy that rounds to nothing, or a sell that does not exceed its fee |
| PaperTrail.CashFollowsTheTrail | services/paper_trading/alpha_algo_paper_runtime/service.py:206-225 | and then cash follows from the fill trail alone |
| PaperTrail.SellStrays | services/paper_trading/alpha_algo_paper_runtime/service.py:222-225 | a concrete sell that is on the trail and moves no cash |
| PaperTrail.OutcomesAreChargedFairly | services/paper_trading/alpha_algo_paper_runtime/service.py:202-244 | over every run every accepted outcome is charged at its fill price with the configured basis points and the configured fee, both rounded to their quantum, its net cash follows, and a refused one moves nothing |
| SlidingWindow.SlidingWindowRateLimiter.Allow | apps/api/alpha_algo_api/rate_limit.py:26-39 | with its trimming loop and its sweep on every 1024th call, the limiter decides as the full history of accepted hits dictates |
| SlidingWindow.DecisionsFollowHistory | apps/api/alpha_algo_api/rate_limit.py:26-39 | for calls in time order every decision is the one computed by filtering the full history of accepted hits |
| SlidingWindow.SweepingIsTransparent | apps/api/alpha_algo_api/rate_limit.py:41-45 | no two sweeping schedules ever decide differently |
| SlidingWindow.WindowsAreBounded | apps/api/alpha_algo_api/rate_limit.py:34-38 | no half-open interval of one window length holds more than the limit of a key's accepted hits |
| TokenBucket.TokenBucketLimiter.Acquire | services/broker_adapters/alpha_algo_broker_integration/ratelimit.py:43-53 | the bucket grants a call if and only if every window of calls that ends with it has room for one more grant, and keeps its tokens between zero and the burst |
| TokenBucket.TokensInRange | services/broker_adapters/alpha_algo_broker_integration/ratelimit.py:43-53 | tokens stay between zero and the burst |
| TokenBucket.GrantedExactlyWhenAllWindowsHaveRoom | services/broker_adapters/alpha_algo_broker_integration/ratelimit.py:43-53 | a call is granted if and only if every window of calls that ends with it has room for one more grant |
| TokenBucket.GrantsAreBounded | services/broker_adapters/alpha_algo_broker_integration/ratelimit.py:43-53 | between any two calls at most burst + rate * elapsed are granted |
| TokenBucket.BurstIsGranted | services/broker_adapters/alpha_algo_broker_integration/ratelimit.py:43-53 | a fresh bucket grants its whole burst, however fast the calls come |
| TokenBucket.NoMoreThanBurstAtOnce | services/broker_adapters/alpha_algo_broker_integration/ratelimit.py:43-53 | and no call more at the same instant |
| DuplicateTicks.DuplicateTickDetector.IsDuplicate | services/market_data/alpha_algo_market_data/safety.py:66-74 | the detector reports a duplicate if and only if the key was used before and fewer than maxsize other keys have been used since |
| DuplicateTicks.MemoryIsNewest | services/market_data/alpha_algo_market_data/safety.py:66-74 | after every run the memory is exactly the most recently used different keys in the order of their last use |
| DuplicateTicks.DuplicateExactlyWhen | services/market_data/alpha_algo_market_data/safety.py:66-74 | a duplicate is reported if and only if the key was used before and fewer than maxsize other keys have been used since |
| DuplicateTicks.MemoryIsBounded | services/market_data/alpha_algo_market_data/safety.py:48-61 | the memory never exceeds its bound and never holds a key twice |
| WalkForward.ScheduledWindowsAreSound | backtesting/alpha_algo_walk_forward/windows.py:101-178 | no construction check of a scheduled window or slice can fail |
| WalkForward.WindowPassesExactlyWhen | backtesting/alpha_algo_walk_forward/windows.py:101-178 | a window passes its construction checks if and only if its slices are sound, follow each other without a gap and end at increasing times |
| WalkForward.ScheduleIsMaximal | backtesting/alpha_algo_walk_forward/windows.py:219-227 | a window is scheduled if and only if it fits |
| WalkForward.BuildWindows | backtesting/alpha_algo_walk_forward/windows.py:205-268 | the loop builds exactly the schedule, and fails only on too few records |
| WalkForward.SlicesFollowEachOther | backtesting/alpha_algo_walk_forward/windows.py:227-232 | in every window train, validation and test follow each other without a gap, each as long as configured |
| WalkForward.TestSlicesAreDisjoint | backtesting/alpha_algo_walk_forward/windows.py:79-82 | test slices of different windows are disjoint |
| Coverage.CoveredRecords | backtesting/alpha_algo_walk_forward/results.py:194-199 | marking every slice in a bitmap and summing it gives the specified count |
| Coverage.CoverageIsClosedForm | backtesting/alpha_algo_walk_forward/results.py:194-199 | the count is (periods - 1) * min(step, span) + span, and fewer than one step of records is left in the tail |
| Coverage.MeasureCoverage | backtesting/alpha_algo_walk_forward/results.py:181-210 | covered and uncovered records add up, with the closed form for the covered ones |

## Left out

- Rounding of decimals to 28 digits in the backtest and portfolio engines: amounts are exact reals.
- Web application, authentication, configuration, database engine and scripts: plumbing. Migrations are used only for the unique keys they declare.
- Broker adapters, HTTP transport, reconnection and asynchronous scheduling: network code and lookup tables.
- Digests, generated ids, JSON and the ORM: modelled by injective values and transactional maps.
- Performance ratios (CAGR, Sharpe, Sortino, alpha, beta): closed forms with little structure.
- Observability, alerts, audit trail and event bus: they would only add easy members.
- Repository-less modes of the order service and the execution engine, request validation and metrics counters.
- Submission.AttemptStore.SaveAttempt: the companion update is keyed by execution id and attempt number, the contract the engine states, because the SQL update looks rows up by execution id alone.
- OrderHistories.WriteIsLegalExactlyWhen: broker events are taken to reach an order only after its handoff, since the broker does not know it before.
- ConcurrentDelivery.UndisturbedRunsAreSerial: the order service's first two transitions are not steps of this machine, since they precede the handoff; `OrderCreation` has them.
- OrderCreation.LaterConflictIsRefused: a differing limit price is not a conflict, because it is not part of the identity key.
- OrderCreation.OneHandoffPerOrchestration: at most once, not exactly once; a worker that crashes before the handoff leaves an order that is never handed off.
- SlidingWindow.DecisionsFollowHistory: calls are taken in time order, although the program reads its clock before it takes its lock.
- TokenBucket.GrantsAreBounded: real arithmetic instead of floating point, and a rate that is not negative.
- PaperBook.PaperOrderBook.Submit: leaves out positions and their average price, a fold over the fill trail that is proved to match the log.
- A cap on the cumulative spending per symbol: the budget check compares one fill's gross value only.
- Walk-forward result aggregation and the window runner's contract checks.
