# Crypto MAS: a verified model of its trading core

A Dafny 4.11 model of the parts of Crypto MAS that move money or decide how much of it to risk, with proofs
of what they keep, over every run and for every input:

- **The paper broker** (`Rounding`, `PositionTable`, `RiskCalculator`, `Targets`, `Ledger`, `PaperBroker`, and the
  theorems in `Conservation`, `StopSpacing`, `CashSafety`, `TrailingBracket`, `StepOutcomes`, `BrokerRules`,
  `AdmittedOrders`, `RowOutcomes`, `BrokerRuns`, `BrokerTheorems`, `BrokerExamples`). `Ledger` says what each of the
  three steps (open towards a target, close what is not in it, mark to market) does to cash, equity, the position
  table and the trade log. `PaperBroker` is the service as a class whose loops are proved equal to those steps.
  `AdmittedOrders` and `RowOutcomes` say what each step files for every order and every row, in terms of the account,
  the bar and the configured rates alone. `BrokerRuns` proves one invariant for every run; `BrokerTheorems` reads off
  conservation of money, spacing of stop-losses, exactly which positions are on record as stopped out, monotone stops,
  cash safety and what rebalancing leaves behind.
- **The in-memory repositories** of the backtest (`Bisect`, `FeatureCache`, `MixedBatches`, `PositionCache`,
  `PositionCooldowns`) refine the database queries they stand in for, except where the lemmas give the exact difference.
- **Portfolio construction** (`Decisions`, `Sorting`, `Bounds`, `Repeats`, `Sums`, `PortfolioEngine`,
  `PortfolioReplacement`, `BestCandidates`, `PortfolioExposure`, `PositionSizes`) and **risk reduction**
  (`RiskEngine`, `RiskDecisions`, `RiskThresholds`), both with their rounding. `PortfolioMeetsBroker` joins the
  portfolio engine to the broker's closing step; `TradingCycle`, `ExecutionCycle` and `ScalpingExample` join all
  three: what a whole cycle can commit and what it leaves open.
- **Resumable backfill** behind its integrity gate (`Integrity`, `Backfill`, `BackfillResume`, `BackfillGaps`).
- **The event stream**, **the circuit breaker**, **the single-symbol backtest engine** and **performance analytics**
  (`EventEngine`, `SpikeTriggers`, `CircuitBreaker`, `CircuitInFlight`, `BacktestEngine`, `DecisionOutcomes`,
  `ReportedBalance`, `Analytics`).

`dafny verify dfyconfig.toml` checks everything.

## How to read it

Decimals and floats are `real`; every `quantize` and `round` of the program is written out as rounding half to even
(`Rounding`), and the bounds come from there. `UNIT` is 1e-8. Time is in microseconds in the broker, the caches and
the backfill, and in seconds in the event engine and the circuit breaker. Where the program loops over mutable state
there is a class or a method with a loop, proved equal to a function (`ExecuteTarget`, `Paging`, `OnTrade`,
`Processed`, `Target`, ...) that the lemmas are about. Quotes, snapshots, clocks, decisions, the strategy and the
provider's outages are arbitrary inputs.

## Where the code differs from what it says

- *Risk limits.* Reduction is meant to satisfy the limits. A target that it cannot bring within them exists for exactly
  the position limits from 20 on (`RejectionThreshold`): the second rescaling divides by a rounded sum. And it produces
  a target that its own schema refuses, one of gross 1.0000000001, for exactly the gross limits above
  1 + 1e-10 - 0.5e-10 per position (`RefusalThreshold`); the shipped limits are on the safe side of both
  (`ShippedLimitsNeverReject`).
- *Sides after reduction.* Reduced positions lose their side and overrides: they become LONG. So an accepted target
  keeps its sides exactly when it was within the limits or long only (`SidesAreKeptIff`, `ShortBecomesLong`), and the
  broker, handed a reduced target, leaves no short open that it can price (`ReducedTargetsLeaveNoShort`).
- *Drop-in position cache.* `InMemoryPositionRepository` calls itself a drop-in replacement. It ignores
  `cooldown_minutes`: whatever it is asked, it answers for 30 minutes of stop-losses and 60 of closes
  (`AnswersDifferExactly`, `OnlyThirtyMinutesOfStops`, `OnlySixtyMinutesOfCloses`), where the position manager and the
  strategy orchestrator ask for 120 minutes of stop-losses. At its own lengths it forgets a symbol at the instant of
  expiry, when the database still lists it (`CooldownsAgreeButAtExpiry`). The broker's spacing theorems are about the
  database repository.
- *Feature cache keys.* An underscore in an exchange or a timeframe makes a series share its key with another one
  (`CollidesIffUnderscore`). A batch is filed under its first row's key. One of several series is mirrored exactly when
  its rows of other series bring nothing new and are overwritten by the first series (`MirrorsIff`); the first batch of
  all, exactly when it has one series (`FirstBatchMirrorsIffOneSeries`).
- *Correlated-group cap.* Retained positions are not scaled. Capping leaves an excess over the cap exactly when the group
  is overweight and has a retained member (`GroupExcessIff`); only then can a target exceed the cap by more than its
  rounding, and to that rounding it does exactly when the excess outweighs what scaling down makes room for
  (`GroupCapOnTarget`); five retained members are an example (`FiveRetainedExceedDefaultCap`).
- *Retained positions.* A comment in `portfolio.py` says that the broker ignores the side of retained positions. It
  does compare sides when closing, so a retained short is closed (`RetainedShortsAndReplacedAreClosed`).
- *Half-open circuit.* The log message announces a half-open state with one probe; the code resets the count, so five
  more failing calls pass (`RestedCircuitLetsFivePass`). With m calls in flight 4 + m failures can coincide and 5 + m
  cannot (`FailuresAreRateBoundedExactly`), so without a bound on the calls in flight there is none on failures
  (`OverlappingCallsAreUnbounded`).
- *Positions without a price.* The closing step passes over a position with neither a quote nor a mark above zero, in
  the target or not (`RebalanceLeavesOnlyTargets`, `UnpricedPositionStaysOpen`).
- *Backtest balance.* A short's opening fee is taken at opening and again inside its profit at closing; the reported
  final balance counts it once (`ReportOverstatesByShortFees`). The two agree in all runs exactly without a fee, or
  where no short can be opened (`BalancesAgreeIff`).
- *Trailing stop.* A stop that trails by no more than half a unit can be rounded onto the price and stop the position out
  in the step that moved it (`MarkingRecordsExactly`, `NearStopOvertakes`).
- *ATR at opening.* `time_provider.get_time()` does not exist and the error is swallowed, so every opening uses the
  percentage bracket, and so does the model.
- *Backfill.* Resuming behind the latest stored candle fills a range only if what is stored of it is a prefix
  (`CompletesIffPrefix`, `HoleStays`). The gate sees one page at a time, so a history with gaps is stored all the same
  when they fall between pages (`GapsSlipThroughIff`).
- *Scalping.* A scalping task without close reasons skips the closing step, so positions outside the target stay open
  (`TaskKeepsToTarget`) and the account can hold more of them than the risk limits allow (`ScalperOutgrowsLimit`).

## Model

| member | source | states |
|---|---|---|
| Rounding.MoneyError | src/crypto_mas/services/paper_trading/risk_calculator.py:185-187 | `_money` rounds to a multiple of 1e-8 that misses the exact amount by at most half a unit |
| Rounding.RoundMonotone | src/crypto_mas/services/paper_trading/risk_calculator.py:185-187 | rounding half to even never reverses an order, at any number of decimals |
| Rounding.RoundOdd | src/crypto_mas/services/paper_trading/risk_calculator.py:185-187 | rounding commutes with negation, so both directions of a trade round alike |
| Rounding.RoundFixesGrid | src/crypto_mas/services/paper_trading/risk_calculator.py:185-187 | exactly the amounts already on the grid are left alone; in particular rounding twice is rounding once |
| Rounding.MoneySign | src/crypto_mas/services/paper_trading/risk_calculator.py:185-187 | rounding keeps the sign, and says exactly which amounts round to a non-negative or a positive one |
| RiskCalculator.SlippageCosts | src/crypto_mas/services/paper_trading/risk_calculator.py:71-95 | at one quote a long buys above and sells below it, a short the reverse; the entry of one side is the exit of the other |
| RiskCalculator.BracketStraddlesEntry | src/crypto_mas/services/paper_trading/risk_calculator.py:100-131 | with the percentage bracket and any overrides, stop and target lie on opposite sides of the rounded entry |
| PositionTable.PositionRepository.CreateOpenPosition | src/crypto_mas/domain/repositories/position_repository.py:147-187 | appends the row and changes no other |
| PositionTable.PositionRepository.UpdateMarkPrice | src/crypto_mas/domain/repositories/position_repository.py:189-215 | mark, unrealized profit and notional of the one row become those of the price; all else stays |
| PositionTable.PositionRepository.UpdateStopLoss | src/crypto_mas/domain/repositories/position_repository.py:217-227 | only the stop of the one row changes, to the rounded value |
| PositionTable.PositionRepository.ClosePosition | src/crypto_mas/domain/repositories/position_repository.py:229-262 | the one row becomes closed history with its profit; all else stays |
| PaperBroker.PaperBrokerService.CalculateOpenPositionsValue | src/crypto_mas/services/paper_trading/mark_to_market.py:41-49 | the loop sums every open position at its worth, longs at the mark and shorts at twice the entry less the mark, and rounds once |
| PaperBroker.PaperBrokerService.ExecuteTargetPortfolio | src/crypto_mas/services/paper_trading/position_manager.py:45-360 | the opening loop turns the whole ledger and both result lists into those of the step `ExecuteTarget` |
| PaperBroker.PaperBrokerService.SettlePosition | src/crypto_mas/services/paper_trading/position_manager.py:436-494 | one close credits the rounded recovery, files the trade and takes the fee from the recorded profit |
| PaperBroker.PaperBrokerService.ClosePositionsNotInTarget | src/crypto_mas/services/paper_trading/position_manager.py:362-536 | the closing loop turns the whole ledger and both result lists into those of the step `CloseNotInTarget` |
| PaperBroker.PaperBrokerService.UpdateMarkPrices | src/crypto_mas/services/paper_trading/mark_to_market.py:51-300 | the marking loop turns the whole ledger and both result lists into those of the step `MarkToMarket` |
| AdmittedOrders.OrdersAreAdmittedExactly | src/crypto_mas/services/paper_trading/position_manager.py:55-294 | order k of any target is filled if and only if its market has no open row, no stop-loss in the last 120 minutes and fewer than two in the last 2880, the close is positive, high less low at most 8% of it and volume times close at least 1000 as far as given, and the order's share of the equity is positive and, with the commission, within the cash left; row, trade and cash afterwards follow from the close and the configured rates, and a refusal is reported for the first condition that fails |
| AdmittedOrders.OneOrderIsAdmittedExactly | src/crypto_mas/services/paper_trading/position_manager.py:105-294 | so a target of one order adds its row exactly under these conditions on the account as it stands |
| AdmittedOrders.OrdersMakeTheStep | src/crypto_mas/services/paper_trading/position_manager.py:105-360 | worked off from the first order to the last, these are the whole opening step |
| RowOutcomes.ClosingDecidesEachRow | src/crypto_mas/services/paper_trading/position_manager.py:377-494 | for every row, the closing step files and reports exactly this: nothing if the target's first position in the symbol is on its side or there is neither a positive quote nor a positive mark, and otherwise a close at the slipped quote, or failing one the slipped mark, with its fee, profit and reason |
| RowOutcomes.RebalancesAtQuoteOrMark | src/crypto_mas/services/paper_trading/position_manager.py:401-442 | in any ledger, the exit price on the row and on the new trade of a position closed by that step is the slipped quote where there is a positive one and the slipped last mark where there is none |
| RowOutcomes.MarkingDecidesEachRow | src/crypto_mas/services/paper_trading/mark_to_market.py:61-198 | for every open row with a positive quote, marking leaves exactly this: mark, profit, value and stop; a close as STOP_LOSS at the slipped quote if it is at the new stop, else as TAKE_PROFIT if it is at the target |
| RowOutcomes.StopsMoveExactly | src/crypto_mas/services/paper_trading/mark_to_market.py:103-178 | on either side, the stop after marking is the quote less (plus) twice the ATR or the mode's percentage, halved above 2% of gain and times 0.75 above 1%, rounded, if that is tighter and the quote is past break-even, and otherwise the stop as it was |
| BrokerRules.SettleFiles | src/crypto_mas/services/paper_trading/position_manager.py:436-494 | row and trade of a close at any positive price, by the configured commission and slippage |
| BrokerRuns.StepKeepsSound | src/crypto_mas/services/paper_trading/position_manager.py:45-536 | each of the three steps keeps the joint invariant of money, history, cash and brackets, and lets rows only evolve |
| BrokerRuns.RunIsSound | src/crypto_mas/services/paper_trading/mark_to_market.py:51-300 | every state of every run satisfies that invariant, with equity up to date |
| BrokerTheorems.MoneyIsConserved | src/crypto_mas/services/paper_trading/position_manager.py:213-294 | in every run, cash plus open positions at cost is the opening balance plus all realized profit less the slippage paid at openings, within half a unit per opening and one and a half per closing, hence one unit (1e-8) per recorded trade |
| BrokerTheorems.EquityIsAccountedFor | src/crypto_mas/services/paper_trading/mark_to_market.py:293-300 | in every run, recorded equity is cash plus open cost plus unrealized profit, for longs and shorts alike, within half a unit and one unit per open row |
| BrokerTheorems.StopLossesAreSpacedInEveryRun | src/crypto_mas/services/paper_trading/position_manager.py:55-104 | in every run a market has at most one open position, two of its stop-losses are more than 120 minutes apart and any three span more than 2880 minutes |
| BrokerTheorems.LifeOfAPosition | src/crypto_mas/services/paper_trading/mark_to_market.py:105-175 | between any two moments of a run a position keeps its terms, a long stop never falls, a short stop never rises, closed rows stay as they are, the trade log only grows, and open brackets do not cross |
| BrokerTheorems.RebalanceLeavesOnlyTargets | src/crypto_mas/services/paper_trading/position_manager.py:377-434 | after the closing step of any run exactly those positions are still open, unchanged, that were open and that the target holds on the same side or that have neither a quote nor a mark above zero; for an account whose quotes all round to a positive mark none is left for the second reason and nothing is skipped for want of a price |
| BrokerExamples.UnpricedPositionStaysOpen | src/crypto_mas/services/paper_trading/position_manager.py:390-434 | the exception is real: after some run a position is open whose mark rounded to zero, and closing towards an empty target without a quote leaves it open |
| BrokerTheorems.OnlyMarkingStopsOut | src/crypto_mas/services/paper_trading/position_manager.py:444-457 | in every run only mark-to-market files the reason STOP_LOSS |
| BrokerTheorems.ExitsAreRecordedExactly | src/crypto_mas/services/paper_trading/mark_to_market.py:105-198 | in every run a position is on record under STOP_LOSS if and only if at some mark step it was open and its quote had reached the stop as it stood before that step, or the stop just moved overtook the quote; under TAKE_PROFIT if and only if it had reached the target and not the stop; and the record carries the instant of that very step |
| StopSpacing.RebalanceIsNoStopLoss | src/crypto_mas/services/paper_trading/position_manager.py:444-449 | a rebalancing close is never filed as STOP_LOSS, whatever reason the strategy supplies |
| BrokerTheorems.CashNeverNegative | src/crypto_mas/services/paper_trading/position_manager.py:188-294 | cash is never negative at any moment of a run whose closed shorts were each covered at their exit price; a run without closed shorts needs no condition |
| BrokerExamples.UncoveredShortOverdraws | src/crypto_mas/services/paper_trading/mark_to_market.py:177-198 | the condition is needed: a run with a short opened at 100 and stopped out at 300 takes cash below zero |
| CashSafety.LongRecoversNonNegative | src/crypto_mas/services/paper_trading/position_manager.py:436-442 | closing a long never costs cash |
| CashSafety.ShortRecoversIffCovered | src/crypto_mas/services/paper_trading/position_manager.py:436-442 | closing a short costs no cash if and only if the exit value plus the fee is at most twice the entry cost, to half a unit |
| CashSafety.OpenKeepsCashSafe | src/crypto_mas/services/paper_trading/position_manager.py:213-294 | an admitted opening leaves cash non-negative despite rounding, so several openings within one target cannot overdraw together |
| CashSafety.SettlingAtMarkNeverPays | src/crypto_mas/services/paper_trading/position_manager.py:436-442 | settling a position at its own mark, whatever its decimals, returns at most its worth less the fee, to half a unit, plus half a unit per piece if the mark has more than eight decimals |
| CashSafety.SettlingAtMarkLowersEquity | src/crypto_mas/services/paper_trading/position_manager.py:436-494 | settling an open position at its own mark lowers the recorded equity by at least the fee, to one and a half units and the same rounding of the mark |
| BrokerTheorems.ClosingAtMarkNeverRaisesEquity | src/crypto_mas/services/paper_trading/position_manager.py:436-494 | so in every state that a run reaches, for every open position |
| CashSafety.RoundTripNeverPays | src/crypto_mas/services/paper_trading/risk_calculator.py:66-98 | opening and then closing at one quote leaves cash lower by at least both fees, up to rounding of the order of price and quantity, on either side |
| Conservation.WorthIsCostPlusGain | src/crypto_mas/services/paper_trading/mark_to_market.py:41-49 | the valuation of longs and of shorts is in both cases cost plus gain |
| Conservation.SettleRounding | src/crypto_mas/services/paper_trading/position_manager.py:436-494 | what a close adds to cash and the profit it files differ by the position cost to at most one and a half units |
| StepOutcomes.MarkingRecordsExactly | src/crypto_mas/services/paper_trading/mark_to_market.py:51-300 | for every row open before marking: it is closed as STOP_LOSS if and only if there is a positive quote that had reached the stop as it stood before the step, or that the stop just moved overtakes; as TAKE_PROFIT if and only if it has reached the target and not the stop; otherwise it stays open; closed rows are untouched |
| StepOutcomes.StepRecordsExactly | src/crypto_mas/services/paper_trading/position_manager.py:45-536 | over any of the three steps, a row is filed under STOP_LOSS or TAKE_PROFIT afterwards if and only if it was before or the step is a mark step in which it exits so |
| TrailingBracket.DistantStopNeverOvertakes | src/crypto_mas/services/paper_trading/mark_to_market.py:115-129 | a stop trailing by more than half a unit never overtakes the price, so the old stop alone decides |
| BrokerExamples.NearStopOvertakes | src/crypto_mas/services/paper_trading/mark_to_market.py:105-131 | nearer than that it can: in some run a mark step stops a long out at a quote above its stop as it stood before, because the stop moved in that step rounds past the quote |
| Bisect.BisectLeft | src/crypto_mas/services/backtesting/memory_cache.py:152-168 | on a sorted list, everything before the result is smaller and everything from it on is not |
| Bisect.BisectRight | src/crypto_mas/services/backtesting/memory_cache.py:197-220 | on a sorted list, everything before the result is not larger and everything from it on is |
| Bisect.SortedIsAscending | src/crypto_mas/domain/repositories/feature_snapshot_repository.py:96-97 | a strictly sorted list is the one ascending arrangement of its elements |
| FeatureCache.InMemoryFeatureSnapshotRepository.InsertSorted | src/crypto_mas/services/backtesting/memory_cache.py:152-168 | bisect and replace or insert keeps both lists parallel and sorted and is an upsert of the timestamp |
| FeatureCache.InMemoryFeatureSnapshotRepository.BulkUpsert | src/crypto_mas/services/backtesting/memory_cache.py:170-195 | the batch is upserted row after row under the key of its first row |
| FeatureCache.InMemoryFeatureSnapshotRepository.GetLatest | src/crypto_mas/services/backtesting/memory_cache.py:197-220 | a cached answer is the last snapshot of the series up to the end time, as the database query orders and limits |
| FeatureCache.InMemoryFeatureSnapshotRepository.ListBySymbol | src/crypto_mas/services/backtesting/memory_cache.py:222-260 | a cached answer is the filter, order and limit query over the series |
| FeatureCache.SliceIsQuery | src/crypto_mas/services/backtesting/memory_cache.py:240-260 | two bisections and a shifted left end give the range query with its limit |
| FeatureCache.BisectIsLatest | src/crypto_mas/services/backtesting/memory_cache.py:209-220 | one bisection gives the newest snapshot not after the end time |
| FeatureCache.QueriesDoNotLookAhead | src/crypto_mas/domain/repositories/feature_snapshot_repository.py:48-97 | both queries depend on nothing later than their end time |
| FeatureCache.KeysDoNotCollide | src/crypto_mas/services/backtesting/memory_cache.py:149-150 | composite keys of different series differ when exchange and timeframe contain no underscore |
| FeatureCache.ExchangeUnderscoreCollides | src/crypto_mas/services/backtesting/memory_cache.py:149-150 | whenever an exchange contains an underscore, for every symbol and timeframe, the part behind it can belong to the symbol of another series with the same key |
| FeatureCache.TimeframeUnderscoreCollides | src/crypto_mas/services/backtesting/memory_cache.py:149-150 | the same for every timeframe with an underscore |
| FeatureCache.CollidesIffUnderscore | src/crypto_mas/services/backtesting/memory_cache.py:149-150 | a series shares its key with another one of plain names if and only if its exchange or its timeframe contains an underscore |
| FeatureCache.CacheMirrorsDatabase | src/crypto_mas/services/backtesting/memory_cache.py:170-195 | after any sequence of single-series batches the cache holds, under each key, exactly the table the database holds for that series |
| MixedBatches.MirrorsIff | src/crypto_mas/services/backtesting/memory_cache.py:170-195 | where cache and database agree and the database holds every row under its own series and time, they agree after a further batch of plain names if and only if every row of another series than the first row's is overwritten in the batch by a row of the first series at its time, and is stored already unless the batch overwrites it within its own series too |
| MixedBatches.NextBatchMirrorsIff | src/crypto_mas/services/backtesting/memory_cache.py:170-195 | so for the next batch after any history that left the two in agreement |
| MixedBatches.TwoSeriesMayMirror | src/crypto_mas/services/backtesting/memory_cache.py:170-195 | a batch of two series can be mirrored: one whose second series brings only a row that is stored already and that the first series overwrites |
| FeatureCache.FirstBatchMirrorsIffOneSeries | src/crypto_mas/services/backtesting/memory_cache.py:170-195 | the first batch of plain names is mirrored if and only if it has one series |
| PositionCache.InMemoryPositionRepository.ClosePosition | src/crypto_mas/services/backtesting/memory_cache.py:410-440 | closing removes the symbol from the open positions, starts its cooldowns and, for a stop-loss, extends the history |
| PositionCache.InMemoryPositionRepository.GetWhipsawCooldownSymbols | src/crypto_mas/services/backtesting/memory_cache.py:313-330 | the counting loop returns exactly the symbols with at least one and at least the asked number of stops since the cutoff |
| PositionCache.CallKeepsMirror | src/crypto_mas/services/backtesting/memory_cache.py:351-440 | every call made in step on cache and database keeps them in agreement on open rows, expiries and stop counts |
| PositionCache.SameOpenAndWhipsaw | src/crypto_mas/domain/repositories/position_repository.py:74-145 | in every run the cache gives the open symbols and, for every window and count, the whipsaw symbols of the database query |
| PositionCooldowns.DatabaseCountsFromLatest | src/crypto_mas/domain/repositories/position_repository.py:84-121 | in every run and for every length, the database lists a symbol for that long after its latest stop-loss (or close), which is the instant the cache counts its own delay from |
| PositionCooldowns.AnswersDifferExactly | src/crypto_mas/services/backtesting/memory_cache.py:293-311 | so for every length asked for, the two answers differ exactly while the time since that close lies between the cache's fixed delay and the length |
| PositionCooldowns.CooldownsAgreeButAtExpiry | src/crypto_mas/domain/repositories/position_repository.py:84-121 | the 30-minute stop-loss set and the 60-minute close set agree with the database at every instant, except exactly at expiry, where only the database still lists the symbol |
| PositionCooldowns.OnlyThirtyMinutesOfStops | src/crypto_mas/services/backtesting/memory_cache.py:293-301 | 30 minutes is the only length of a stop-loss cooldown for which they agree but at expiry: for every other one there is a run in which they do not |
| PositionCooldowns.OnlySixtyMinutesOfCloses | src/crypto_mas/services/backtesting/memory_cache.py:303-311 | 60 minutes is the only length for closes |
| PositionCooldowns.ProfitsAgree | src/crypto_mas/domain/repositories/position_repository.py:229-262 | for an exit in money, cache and database record profits less than 1e-8 apart, and record zero together |
| PositionCooldowns.ProfitsAgreeInEveryRun | src/crypto_mas/domain/repositories/position_repository.py:229-262 | so for every close of an open symbol after any run of calls |
| PositionCooldowns.MarksAgree | src/crypto_mas/domain/repositories/position_repository.py:189-227 | marked at one price in money, both show that mark, profits less than 1e-8 apart and zero together, values less than 1e-8 apart where there is a profit, and the same stop |
| PortfolioEngine.AdjustDecisions | src/crypto_mas/engine/portfolio/portfolio.py:64-91 | the loop adjusts every confidence by its regime, in order, and nothing else |
| PortfolioEngine.ReplaceWeakest | src/crypto_mas/engine/portfolio/portfolio.py:129-141 | the replacement loop picks the candidates of `Picked`, removes as many of the weakest retained symbols and files a reason for each |
| PortfolioEngine.Allocate | src/crypto_mas/engine/portfolio/portfolio.py:186-215 | the allocation loop serves the requests in turn from what exposure is left |
| PortfolioEngine.ScaleDown | src/crypto_mas/engine/portfolio/portfolio.py:242-247 | the loop multiplies every weight by the scale |
| PortfolioEngine.BuildTargetPortfolio | src/crypto_mas/engine/portfolio/portfolio.py:45-263 | the whole construction yields the target that the theorems below are about |
| BestCandidates.BestAreOpened | src/crypto_mas/engine/portfolio/portfolio.py:64-115 | with slots free, the target keeps what is held and opens the best eligible decisions, best first, as many as there are slots or eligible ones: each entry signal counts with its regime-adjusted confidence, at least the minimum, and a positive score; none passed over has more confidence, or as much and more score, than one that is opened |
| BestCandidates.StrongerReplaceWeakest | src/crypto_mas/engine/portfolio/portfolio.py:117-145 | with no slot free, eligible decisions take the places of the weakest held symbols, best first, each beating the standing (score times confidence of the last decision, or 0.15) of the one it replaces by more than 0.10; none kept is weaker than one that goes, no decision left out beats one kept by more than the margin, nor, if it ranks ahead of one opened, the symbol that one replaces; each replaced symbol is given that reason |
| BestCandidates.ReasonsGoWithCloses | src/crypto_mas/engine/portfolio/portfolio.py:54-60 | a symbol has a close reason exactly if it was told to close, then that of the last decision to tell it, or was replaced |
| PortfolioReplacement.WeakestAreReplaced | src/crypto_mas/engine/portfolio/portfolio.py:117-141 | the replaced symbols are the weakest retained ones, one per picked candidate; the k-th weakest gives way to a candidate stronger by more than 0.10; every symbol kept is at least as strong as every one replaced |
| PortfolioReplacement.PassedOverStayBehind | src/crypto_mas/engine/portfolio/portfolio.py:129-141 | when the loop is done, no candidate passed over beats a kept symbol by more than 0.10 |
| PortfolioReplacement.SelectionIsBounded | src/crypto_mas/engine/portfolio/portfolio.py:93-141 | positions never outnumber the larger of the limit and the positions retained at first; what is newly opened is an entry signal for a symbol neither retained nor replaced |
| PortfolioReplacement.TargetSymbols | src/crypto_mas/engine/portfolio/portfolio.py:159-238 | the positions are the retained symbols, all labelled LONG, then the picked candidates on their own side; capping and scaling move or drop none |
| PortfolioReplacement.ReplacedLeaveTheTarget | src/crypto_mas/engine/portfolio/portfolio.py:129-141 | a replaced symbol has no position in the target |
| PortfolioMeetsBroker.RetainedShortsAndReplacedAreClosed | src/crypto_mas/engine/portfolio/portfolio.py:159-173 | handed to the broker after any run, the target closes every short in a retained symbol, since it is labelled LONG, and everything in a replaced symbol, except a position with neither a quote nor a mark above zero |
| PortfolioExposure.BaseWeightGrows | src/crypto_mas/engine/portfolio/portfolio.py:179-184 | the base weight grows with the risk level and stays between 5% and 50% |
| PortfolioExposure.SharesClosedForm | src/crypto_mas/engine/portfolio/portfolio.py:203-207 | the k-th new weight is min(raw_k, max(0, A - sum of the earlier raw weights)) |
| PositionSizes.TargetsAreSizedExactly | src/crypto_mas/engine/portfolio/portfolio.py:159-249 | every weight of every target: held positions weigh 10%; pick k is granted what its grade asks for at the risk level (all of the base from 0.85 of confidence, half from 0.70, a quarter below), or what the picks before it leave of the room, to six decimals; picks of an overweight group are scaled to its cap; and all are divided by their sum where that exceeds 1 |
| PortfolioExposure.SharesTotal | src/crypto_mas/engine/portfolio/portfolio.py:203-207 | together the new weights take the smaller of all that is requested and all that is available |
| PortfolioExposure.TargetIsWhole | src/crypto_mas/engine/portfolio/portfolio.py:175-263 | every target is well formed, its weights sum to its gross exposure, gross and cash sum to exactly 1, and gross is at most max(max_gross, 0.10 per retained position) plus half a unit of the sixth decimal per new position |
| PortfolioExposure.GroupAfterCap | src/crypto_mas/engine/portfolio/portfolio.py:217-238 | an overweight correlated group comes down to its cap plus the excess of its retained members, within half a unit per new position; a group within its cap is untouched |
| PortfolioExposure.ExcessIffRetained | src/crypto_mas/engine/portfolio/portfolio.py:217-238 | that excess is zero if and only if no retained position is in the group |
| PortfolioExposure.GroupExcessIff | src/crypto_mas/engine/portfolio/portfolio.py:217-238 | the excess of a construction is positive if and only if its group is overweight before capping and has a retained member |
| PortfolioExposure.GroupCapOnTarget | src/crypto_mas/engine/portfolio/portfolio.py:217-263 | the finished target weighs at most cap plus excess plus half a unit of the sixth decimal per new position; it exceeds cap plus that rounding only if the group was overweight with a retained member in it; and, to that rounding, it exceeds the cap exactly when the excess is larger than the room that scaling down makes: the cap's share of what the weights sum to above 1 |
| PortfolioExposure.GroupCapHolds | src/crypto_mas/engine/portfolio/portfolio.py:217-249 | so the finished target keeps the group cap up to rounding whenever no retained position is in the group |
| PortfolioExposure.RetainedAloneWeigh | src/crypto_mas/engine/portfolio/portfolio.py:159-173 | without decisions and with at most ten positions held, the group weighs exactly 0.10 per held member |
| PortfolioExposure.FiveRetainedExceedDefaultCap | src/crypto_mas/engine/portfolio/portfolio.py:217-238 | so five held members weigh 50% under the default cap of 40% |
| PortfolioExposure.RetainedMembersKeepTheirWeight | src/crypto_mas/engine/portfolio/portfolio.py:217-238 | retained members always keep 0.10 each, so they alone may exceed the cap |
| RiskEngine.CollectIssues | src/crypto_mas/engine/risk/risk.py:49-97 | the loop reports nothing if and only if count, gross, cash and every weight are within the limits, to 1e-9 |
| RiskDecisions.IssuesSayWhich | src/crypto_mas/engine/risk/risk.py:49-97 | each code is reported if and only if its own limit is exceeded: count, gross by more than 1e-9, cash by more than 1e-9, or the weight of a position of that symbol by more than 1e-9 |
| RiskDecisions.AnswersExactly | src/crypto_mas/engine/risk/risk.py:16-160 | a target without a breach is approved as it is; any other is cut to the first positions and the largest weight, scaled to the gross limit and then to the cash limit, to ten decimals, each only where needed, and that target is accepted if it is valid and without a breach |
| RiskEngine.AcceptedTargetsPass | src/crypto_mas/engine/risk/risk.py:16-47 | what is approved or reduced passes every check, and approval is exactly passing unchanged |
| RiskEngine.ReductionPassesUnlessOverOne | src/crypto_mas/engine/risk/risk.py:99-160 | with at most 19 positions and any other limits, reducing a valid target gives one that passes every check whenever it is a target at all, and it is one exactly when its rounded sum is at most 1; it is a prefix of the original and no weight grows by more than 1e-10 |
| RiskThresholds.ReductionAlwaysSucceeds | src/crypto_mas/engine/risk/risk.py:99-160 | with at most 19 positions and a gross limit up to 1 + 1e-10 - 0.5e-10 per position, every valid target is approved or reduced |
| RiskThresholds.RejectionThreshold | src/crypto_mas/engine/risk/risk.py:16-47 | rejection is impossible for exactly the position limits up to 19, whatever the gross limit, the other limits and the target |
| RiskThresholds.TwentyPositionsCanBeRejected | src/crypto_mas/engine/risk/risk.py:99-160 | for every position limit from 20 on some valid limits and target are rejected: dividing by the rounded sum overshoots by more than the tolerance |
| RiskThresholds.ReductionStaysWithinOne | src/crypto_mas/engine/risk/risk.py:99-160 | up to that safe gross limit, for any number of positions (counted up to 1e10 + 1), the reduced gross exposure is at most 1 |
| RiskThresholds.UnsafeGrossCanFail | src/crypto_mas/engine/risk/risk.py:99-160 | above it, for every position limit and every gross limit, some valid target is reduced to weights that sum to 1.0000000001, which a target may not hold |
| RiskThresholds.RefusalThreshold | src/crypto_mas/engine/risk/risk.py:99-160 | hence no valid target is refused by the schema if and only if the gross limit is at most the safe one |
| RiskThresholds.ShippedLimitsNeverReject | src/crypto_mas/engine/risk/profiles.py:8-27 | the default limits, the three profiles and the limits of the API neither reject nor refuse a valid target |
| RiskEngine.RescaledSum | src/crypto_mas/engine/risk/risk.py:110-121 | scaling and rounding every weight misses the scaled sum by at most half a unit of the tenth decimal per position, either way |
| TradingCycle.ReducedAreStripped | src/crypto_mas/engine/risk/risk.py:99-160 | every position of a reduced target is LONG and without overrides |
| TradingCycle.SidesAreKeptIff | src/crypto_mas/engine/risk/risk.py:16-47 | an accepted target keeps the sides that were asked for if and only if it was within the limits or the selected positions were all LONG |
| TradingCycle.ShortBecomesLong | src/crypto_mas/engine/risk/risk.py:99-160 | for instance, a single short above the default weight limit is accepted as a long |
| TradingCycle.ReducedTargetsLeaveNoShort | src/crypto_mas/services/paper_trading/position_manager.py:45-536 | handed to the broker in any state, a reduced target opens no short and leaves none open that could be priced |
| TradingCycle.OpeningCommitsAtMost | src/crypto_mas/services/paper_trading/position_manager.py:105-360 | the opening loop adds at most one row per position of the target, for at most the summed weights' share of the equity at the start, however many orders pass |
| TradingCycle.OpeningStaysWithinLimits | src/crypto_mas/engine/risk/risk.py:16-47 | from any state of any run, under limits of at most 19 positions and a safe gross limit: what the portfolio engine builds is always accepted, and executing it opens at most the permitted number of positions, for at most the permitted gross share of the account's equity |
| ExecutionCycle.TaskKeepsToTarget | src/crypto_mas/services/trading_cycle_service/executor_queue.py:52-105 | after a task (mark, close, open) at the end of any run, every open position of the account is of a target symbol and no more are open on any exchange than the target has positions, but for those without a price at the closing step; a scalping task without close reasons closes nothing, so there all that survived marking stays open |
| ScalpingExample.ScalperOutgrowsLimit | src/crypto_mas/services/trading_cycle_service/executor_queue.py:72-105 | under a limit of one position, two scalping tasks whose targets pass the risk engine unchanged leave two positions open |
| ExecutionCycle.CycleStaysWithinLimits | src/crypto_mas/services/trading_cycle_service/executor_queue.py:52-105 | for a task on what the risk engine lets through of the portfolio engine's target: it adds at most the permitted gross share of the equity, and where it closes first and marks are positive, the account has at most the permitted number of positions open on any exchange afterwards |
| Integrity.CheckSorting | src/crypto_mas/services/market_data_service/integrity.py:59-73 | reports exactly the candles that open before their predecessor; none if and only if neighbours are in order |
| Integrity.CheckDuplicates | src/crypto_mas/services/market_data_service/integrity.py:75-98 | reports exactly the candles that repeat an exchange, symbol and open time; none if and only if these are distinct |
| Integrity.CheckOhlc | src/crypto_mas/services/market_data_service/integrity.py:100-137 | reports for each candle a price that is not positive, or else a high below or a low above another price; nothing if and only if every candle has sane prices |
| Integrity.CheckVolume | src/crypto_mas/services/market_data_service/integrity.py:139-163 | reports exactly the negative volumes and quote volumes; none if and only if every candle has sane volumes |
| Integrity.CheckMissingCandles | src/crypto_mas/services/market_data_service/integrity.py:181-206 | reports exactly the sorted candles that are not one step after their predecessor; none if and only if all are evenly spaced by the timeframe |
| Integrity.Validate | src/crypto_mas/services/market_data_service/integrity.py:24-57 | a page is accepted if and only if it is non-empty, evenly spaced and each candle has sane prices, volumes and time bounds; the report holds exactly the issues of the single checks |
| Integrity.SpacingDecides | src/crypto_mas/services/market_data_service/integrity.py:24-57 | even spacing alone implies order and absence of duplicates, and the sort inside the spacing check never changes the verdict |
| Integrity.NoStepNoPage | src/crypto_mas/services/market_data_service/integrity.py:208-222 | a weekly or monthly page is accepted only if it is a single sane candle |
| Integrity.StepInSeconds | src/crypto_mas/services/market_data_service/integrity.py:208-222 | the step of each timeframe in seconds, and none for weeks and months |
| Backfill.HistoricalFetcherService.LatestIn | src/crypto_mas/services/market_data_service/historical_fetcher.py:37-44 | the latest stored open time of the range, if there is one |
| Backfill.HistoricalFetcherService.FetchAndStoreRange | src/crypto_mas/services/market_data_service/historical_fetcher.py:27-115 | the paging loop terminates and leaves the store, the fetch state, the count and the reason for stopping of `RunOnce` |
| BackfillResume.PageIsNextStretch | src/crypto_mas/services/market_data_service/historical_fetcher.py:60-70 | the page fetched after a prefix is the next stretch of the range, `limit` long if that much is left |
| BackfillResume.PagingKeepsPrefix | src/crypto_mas/services/market_data_service/historical_fetcher.py:60-105 | however the loop ends the stored candles of the range are still a prefix, no shorter than before, and nothing outside changes; only an outage or a rejected page ends it incomplete |
| BackfillResume.ResumedEqualsUnpaged | src/crypto_mas/services/market_data_service/historical_fetcher.py:36-105 | any number of runs broken off anywhere and then a clean one store exactly what one unpaged request would |
| BackfillResume.CompletesIffPrefix | src/crypto_mas/services/market_data_service/historical_fetcher.py:36-58 | a clean run fills the range if and only if what was stored of it was a prefix |
| BackfillResume.HoleStays | src/crypto_mas/services/market_data_service/historical_fetcher.py:46-58 | a candle missing before a stored one stays missing, because a run resumes behind the latest |
| BackfillGaps.ResumedIsWholeIff | src/crypto_mas/services/market_data_service/historical_fetcher.py:36-105 | for any history: any number of runs broken off anywhere and then a clean one store the whole range if and only if every page from the prefix on passes the gate; where a run resumes does not move the pages |
| BackfillGaps.PagesPassIff | src/crypto_mas/services/market_data_service/historical_fetcher.py:60-105 | every page passes if and only if every candle is sane and every gap falls behind a whole number of pages |
| BackfillGaps.GapsSlipThroughIff | src/crypto_mas/services/market_data_service/historical_fetcher.py:60-105 | from an empty range, a history that the gate would reject as one page is stored in full if and only if its candles are sane, it has a gap, and its gaps fall between pages |
| BackfillGaps.MissingMinuteSlipsThrough | src/crypto_mas/services/market_data_service/historical_fetcher.py:60-105 | for instance, minutes 0, 1, 3 and 4 in pages of two |
| BackfillGaps.RunKeepsVerdict | src/crypto_mas/services/market_data_service/historical_fetcher.py:60-115 | whatever its outages, a run leaves a prefix, reports exactly the number of candles it added and the opening of the last of them, and leaves the verdict on the pages to come as it was |
| EventEngine.EventEngine.ProcessTrade | src/crypto_mas/engine/strategy/event_engine.py:85-162 | one trade updates window, delta and trigger time of its symbol as `OnTrade` says, reports whether it fired, and touches no other symbol |
| EventEngine.EvictOld | src/crypto_mas/engine/strategy/event_engine.py:103-106 | the loop drops exactly the leading records older than the cutoff |
| EventEngine.DetectSpike | src/crypto_mas/engine/strategy/event_engine.py:108-161 | fires if and only if volume, skew, relative volume and cooldown all allow it |
| EventEngine.WindowIsLastMinute | src/crypto_mas/engine/strategy/event_engine.py:92-111 | on a forward clock the window after each trade is exactly the symbol's trades of the last 60 seconds, and the delta is the signed sum of its whole history |
| EventEngine.TriggersAreSpaced | src/crypto_mas/engine/strategy/event_engine.py:130-161 | two triggers of a symbol are more than 30 seconds apart, each on a last minute of enough notional and skew and with enough relative volume |
| SpikeTriggers.TriggersExactly | src/crypto_mas/engine/strategy/event_engine.py:92-161 | a trade starts a cycle if and only if at least 5000 was traded in the last 60 seconds with more than 60% or less than 40% of it bought, the relative volume reaches its threshold, and every earlier start was more than 30 seconds ago |
| SpikeTriggers.DeltaIsSigned | src/crypto_mas/engine/strategy/event_engine.py:92-98 | the running delta is what takers bought less what they sold |
| CircuitBreaker.CircuitState.RecordFailure | src/crypto_mas/infrastructure/api_client/circuit_breaker.py:49-58 | counts the failure, stamps it and opens at five |
| CircuitBreaker.CircuitState.IsOpen | src/crypto_mas/infrastructure/api_client/circuit_breaker.py:60-71 | blocks if and only if open and not yet rested for 60 seconds; otherwise an open circuit closes and forgets its count |
| CircuitBreaker.CircuitState.Attempt | src/crypto_mas/infrastructure/api_client/circuit_breaker.py:108-126 | one attempt of the wrapped call is blocked, or made and recorded |
| CircuitBreaker.AlwaysLatched | src/crypto_mas/infrastructure/api_client/circuit_breaker.py:45-71 | under any interleaving the circuit is open exactly at five failures or more |
| CircuitBreaker.BlocksForAMinute | src/crypto_mas/infrastructure/api_client/circuit_breaker.py:45-71 | a failure blocks calls if and only if it is the fifth or later that counts, and for 60 seconds; a success clears the count, and so does the first check after those 60 seconds |
| CircuitBreaker.FailuresAreRateBounded | src/crypto_mas/infrastructure/api_client/circuit_breaker.py:108-126 | in every sequential run any six consecutive failing calls without a success between them span more than 60 seconds |
| CircuitBreaker.OverlappingCallsAreUnbounded | src/crypto_mas/infrastructure/api_client/circuit_breaker.py:108-126 | the bound needs sequential calls: any number of overlapping ones can pass the check and fail at one instant |
| CircuitInFlight.FailuresAreRateBoundedExactly | src/crypto_mas/infrastructure/api_client/circuit_breaker.py:45-71 | with at most m calls in flight, any k + 1 consecutive failures span more than 60 seconds in every run if and only if k is at least 4 + m; for m = 1 these are the six of the sequential case |
| CircuitInFlight.FailuresMayCoincide | src/crypto_mas/infrastructure/api_client/circuit_breaker.py:108-126 | for every m there is a run in which 4 + m failures fall on one instant |
| CircuitInFlight.RestedCircuitLetsFivePass | src/crypto_mas/infrastructure/api_client/circuit_breaker.py:60-71 | an open circuit that has rested lets five failing calls pass, not one probe, and blocks the sixth |
| BacktestEngine.BacktestEngine.ClosePosition | src/crypto_mas/engine/backtest/engine.py:169-196 | the position leaves the book, the balance takes the proceeds of its side and the closing fill is logged |
| BacktestEngine.BacktestEngine.ProcessDecision | src/crypto_mas/engine/backtest/engine.py:110-167 | one decision leaves the state of `Processed`, and fails exactly when the execution price of an opening is zero |
| BacktestEngine.BacktestEngine.Simulate | src/crypto_mas/engine/backtest/engine.py:69-100 | the loop with its rolling window of five is the replay in which the strategy sees the last five bars |
| BacktestEngine.BacktestEngine.Run | src/crypto_mas/engine/backtest/engine.py:45-108 | the run leaves the state of `Ran`, and reports on it unless an opening failed |
| BacktestEngine.BacktestEngine.GenerateReport | src/crypto_mas/engine/backtest/engine.py:198-236 | totals, win rate and drawdown of the report are those of the profits of the closed trades |
| BacktestEngine.ProcessKeepsSound | src/crypto_mas/engine/backtest/engine.py:110-196 | every decision keeps the balance law, the pairing of trades and the match of open positions and log |
| BacktestEngine.RunKeepsSound | src/crypto_mas/engine/backtest/engine.py:45-108 | balance plus open stakes is the initial balance plus realized profit less the opening fees of closed shorts, after every run |
| BacktestEngine.TradesAlternate | src/crypto_mas/engine/backtest/engine.py:142-196 | in a symbol openings and closings alternate; a closing has the side and quantity of the opening before it and realizes the price move less both fees |
| BacktestEngine.FirstTradeOpens | src/crypto_mas/engine/backtest/engine.py:142-167 | the first trade of a symbol is an opening |
| BacktestEngine.SignalIsFollowed | src/crypto_mas/engine/backtest/engine.py:123-145 | an entry signal leaves the symbol held on the side it asks for; any other signal opens nothing |
| BacktestEngine.BracketIsTwoToOne | src/crypto_mas/engine/backtest/engine.py:113-121 | the take-profit is always exactly twice the stop-loss, and the stop-loss between 0.5% and 5% |
| DecisionOutcomes.DecisionOnTheLog | src/crypto_mas/engine/backtest/engine.py:110-196 | from any sound state, the log gains a close of the held position if and only if its gain has reached twice the stop distance (1.5 ATRs, within 0.5% and 5%, or 1%) or its loss the distance, or the signal is the opposite entry, for the first of these that holds; then an opening for a tenth of the balance if the symbol is free and the signal an entry; at the slipped close, with its fee; and nothing else |
| DecisionOutcomes.BarByBar | src/crypto_mas/engine/backtest/engine.py:69-100 | from the fifth bar on the strategy is shown the last five, and what it decides is carried out at the newest |
| DecisionOutcomes.RunEndsFlat | src/crypto_mas/engine/backtest/engine.py:102-108 | what is open after the last bar is closed there, at its slipped close |
| BacktestEngine.FreshRun | src/crypto_mas/engine/backtest/engine.py:102-108 | after a run of one symbol on a fresh engine nothing is open, and the balance is the initial one plus realized profit less the opening fees of the shorts |
| BacktestEngine.ReportOverstatesByShortFees | src/crypto_mas/engine/backtest/engine.py:198-236 | the reported final balance exceeds the engine's own by exactly those fees, which its balance paid twice; they agree when only longs were closed |
| ReportedBalance.BalancesAgreeIff | src/crypto_mas/engine/backtest/engine.py:198-236 | for every engine with a positive initial balance: whatever a strategy for one symbol and the bars, the report gives the engine's own balance, if and only if the fee rate is zero or the slippage is 1, which leaves no price to open a short at |
| ReportedBalance.ShortRunParts | src/crypto_mas/engine/backtest/engine.py:142-196 | otherwise five equal bars and a strategy that asks for a short make the two differ |
| ReportedBalance.ShortIsFilled | src/crypto_mas/engine/backtest/engine.py:142-196 | by the fee on a tenth of the initial balance |
| ReportedBalance.NeverShortAgrees | src/crypto_mas/engine/backtest/engine.py:198-236 | a strategy that never asks for a short is always reported the balance it ends with |
| BacktestEngine.ReportedDrawdown | src/crypto_mas/engine/backtest/engine.py:211-224 | the reported drawdown is the largest drop of the equity after the closings when that never goes negative, and lies in 0..100 exactly then |
| Analytics.BuildEquityCurve | src/crypto_mas/services/reporting_service/analytics.py:179-211 | one pass gives a rounded point per cycle, and the peak and drawdown of the path of equities that starts at the initial balance |
| Analytics.CurveFollowsCycles | src/crypto_mas/services/reporting_service/analytics.py:188-196 | after each cycle the curve is at its ending equity where that is on record, and otherwise moves by its profit where that is |
| Analytics.PassIsMaxDrop | src/crypto_mas/services/reporting_service/analytics.py:188-205 | the running-peak drawdown is the maximum over all pairs i <= j of (e_i - e_j)/e_i for a path that starts positive and stays non-negative |
| Analytics.DrawdownIsLargestDrop | src/crypto_mas/services/reporting_service/analytics.py:188-211 | so for the cycles of an account; it lies in [0, 1] if and only if no equity is negative |
| Analytics.ExpectancyIsMeanPnl | src/crypto_mas/services/reporting_service/analytics.py:100-117 | win rate, average win and average loss combine to the plain mean profit, and the reported total is the plain sum |
| Analytics.WinRateCountsProfits | src/crypto_mas/services/reporting_service/analytics.py:100-105 | the win rate is the share of trades with a positive profit; breaking even is no win |

## Left out

- Decimal's 28-digit context and the rounding of a `Numeric(20, 8)` column on commit: amounts are exact reals between the explicit roundings, and the text-to-Decimal detours of rates and prices are identities.
- IEEE float error: floats are reals with their explicit `round` calls; infinities and NaN do not occur.
- Quotes whose slipped price rounds to zero: the program then divides by zero while sizing a position, so runs are over quotes where it does not (`AllTradable`).
- BrokerTheorems.RebalanceLeavesOnlyTargets: that nothing is passed over for want of a price is for accounts whose quotes all round to a positive mark (`Markable`); otherwise it says exactly which positions are.
- The database session, commits and object identity: a table is a sequence of row values, a position id is its index, and each broker call is one atomic step with one `now`.
- Several accounts in one table: the table is that of one account; queries filter by exchange as the program does.
- Execution report amounts, log lines, Telegram messages and the wording of trade reasons: an item keeps its symbol and verdict, and the formatted fee is an arbitrary function of the fee.
- PortfolioEngine.ReplaceWeakest: the replacement message keeps its prefix and the candidate's symbol but not the two formatted scores, which nothing reads.
- PortfolioEngine.BuildTargetPortfolio: the iteration order of a Python set is a parameter (any duplicate-free order); reasons of positions and the prefixes that regime adjustments put on them are dropped, and metadata is reduced to the two bracket overrides.
- PortfolioExposure.GroupCapOnTarget: for group limits of at least zero (a negative one makes every scaled weight zero); where the excess is within the rounding of the room, the target may or may not exceed the cap.
- ExecutionCycle.CycleStaysWithinLimits: the bound on exposure is on what the opening step adds; positions kept from earlier cycles are not resized by the broker, and their exposure is not bounded.
- Duplicate candidates: two entry decisions for one symbol give two positions in a target, in the model as in the program; no uniqueness is claimed.
- FeatureCache.InMemoryFeatureSnapshotRepository.GetLatest: the fall-back to the database on a missing or empty key is a flag in the result, not a query.
- The candle cache: the same bisect-and-slice code as `list_by_symbol`, filled once on load; no freshness is claimed.
- PositionCooldowns.ProfitsAgree: for exits that are money amounts, as the broker's are; price and profit of the cache are unrounded, in the program and in the model.
- The wiring of the position cache into the broker: `PositionManager` keeps the repository it was built with.
- Backfill.HistoricalFetcherService.FetchAndStoreRange: the provider answers with the true candles that open within the requested bounds, or fails; a provider that aligns the start downwards, and the concurrent backfill of several symbols, are not modelled.
- EventEngine.EventEngine.ProcessTrade: the relative volume and its threshold are inputs of each trade; the metrics store, the periodic log and the started trading cycle are not modelled.
- CircuitBreaker.CircuitState.Attempt: the back-off between retries is not modelled: a run is any sequence of attempts at any instants.
- BacktestEngine.BacktestEngine.Run: the features of the candles are inputs, and the strategy is a function of its window; an initial balance of zero or less, for which the report divides by zero or by a negative number, is excluded; the profit factor is not modelled.
- Analytics: the Sharpe, Sortino and Calmar ratios, durations, the profit factor and the parsing of fees from text; the equity curve has a point per cycle because every cycle has a start time.
- Indicators, strategies, regime detection, bet sizing, scheduler, optimizer, fold generator, paper OMS, API, Telegram, LLM providers and frontend.
