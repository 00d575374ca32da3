# Verified model of the market-data engine

A Dafny model of the engine that turns exchange events into per-symbol market state, anomalies and
health scores, and of the supervisor that switches it between replay and live mode.  `dafny verify
dfyconfig.toml` checks everything.

| file | what it holds |
|---|---|
| `Domain.dfy` | symbols and events with the validity their constructors enforce, market state, anomalies |
| `BookSide.dfy`, `Books.dfy` | one trimmed side; the order book with its stale filter and gap counter |
| `BookDegradation.dfy` | how the trimmed book relates to the untrimmed one |
| `BookIds.dfy` | update ids: monotonicity, counter bound, coverage, replay |
| `Windows.dfy` | the sliding window as a stable sort cut by age |
| `Aggregator.dfy`, `AggregatorLaws.dfy` | per-symbol state; independence of streams, symbols and arrival order |
| `MarketView.dfy` | what the published state says: the top of the book, the gaps, the percentages |
| `Detectors.dfy`, `DetectorLaws.dfy` | the detectors; what each reports, after any history |
| `Engines.dfy` | all detectors per symbol, and the cooldown |
| `Pipeline.dfy`, `PipelineLaws.dfy`, `PipelineReports.dfy` | the event loop; non-interference, cache coherence, end-to-end reports |
| `Health.dfy`, `Retention.dfy` | the health score; what the cooldown lets through |
| `RowLimit.dfy`, `FullHouse.dfy` | why the row limit of the health query loses nothing; the run that shows the bound is exact |
| `Redis.dfy` | the market-state cache over a store that may hold anything |
| `Supervisor.dfy`, `SupervisorLaws.dfy`, `SupervisorProgram.dfy` | run switching as a step machine, its safety, and the switch operation as a program |

Objects the engine updates in place (book, window, symbol state, aggregator, detector states, detector
engine, cache, supervisor) are classes.  Each method's contract gives the object's whole new state as
a function of the old one, and the properties are lemmas about those functions over whole feeds and
runs.  Prices, quantities and percentages are reals, instants are integer milliseconds, update ids are
64-bit naturals and the gap counter is proved not to overflow.  Events satisfy what their validating
constructors check (`src/domain/depth.rs:41-77`, `src/domain/events.rs:67-68`, `src/domain/events.rs:120-131`).

The step machine of the supervisor has one step per shared access: each atomic load or store, each
access to the active-task slot, each snapshot write.  A guarded snapshot update is a load and, later, a
write.  It starts where `src/main.rs:63-70` lets the server start, after the initial start.  A join is
enabled once the joined ingestion task has taken its last step.

Findings worth knowing:

- The documentation calls the local book a top-N view (`docs/architecture.md:94`, `docs/architecture.md:105`).
  After deletions it is not one: the level that should move up was thrown away earlier.
  `TopNExactlyWhen` says exactly when it is, `TopLevelsSurvive` and `TopLevelsRecover` what remains true
  otherwise, and `BookDegradesTightly` gives two valid updates that reach the bound for every width.
- An update that is sent again is refused exactly when it carries both ids.  Without them it is accepted
  again and can bring back a deleted level (`ReplayWithoutIdsChangesTheBook`).
- A run that is being replaced can still overwrite the switching notice (`StaleWriteIsPossible`); once the
  new run is marked running, nothing an older run does changes the snapshot (`NoStaleOverwrite`).
- A failed status can lack its error text: exactly when the last write of a switch comes after its own
  task has failed, until the next switch announces itself (`FailedWithoutTextExactly`).  The caller is told
  that the switch succeeded (`OkAnswerShowsTheTask`).
- Otherwise the status is that of the active task (`StatusShowsTheTask`); a task that panics reports
  nothing and stays shown as running.
- The 100-row health query loses nothing exactly while the recency window, plus however far row stamps may
  be ahead of the query's clock, is below 420 seconds (`LosslessExactly`).  The default window is 300.

## Model

| member | source | states |
|---|---|---|
| Domain.NewDepthUpdate | src/domain/depth.rs:41-89 | the constructor accepts exactly the valid updates, unchanged, with positive prices, quantities from zero on and ordered ids; an empty update is reported first, then the first bad level by its price before its quantity, reversed ids last |
| BookSide.TrimSide | src/state/order_book.rs:187-204 | removing the extreme price until N remain leaves exactly the levels of rank below N, min(N, size) of them: every bid kept is higher than every bid dropped, every ask kept lower |
| BookSide.TopNSize | src/state/order_book.rs:187-204 | trimming keeps min(N, size) levels, and is the identity up to N |
| BookSide.LiquidityTakeOut | src/state/order_book.rs:228-232 | the liquidity fold does not depend on the order of summation |
| BookSide.BestInPrices | src/state/order_book.rs:214-226 | the best bid is the highest bid and the best ask the lowest ask, each with its quantity; there is none exactly on an empty side |
| BookSide.LastLevelWins | src/state/order_book.rs:206-212 | after any levels a price holds the quantity of the last one quoted at it, and is gone if that is zero |
| BookSide.OtherPricesStay | src/state/order_book.rs:206-212 | a price at which nothing is quoted stays as it was |
| Books.EditSide | src/state/order_book.rs:73-78 | applying levels one after the other is the fold of inserts and deletions |
| Books.OrderBook.Apply | src/state/order_book.rs:64-87 | a stale update changes nothing and is refused; any other one gives the book of ApplyUpdate; the 64-bit counter cannot overflow |
| Books.OrderBook.IsStaleOrDuplicate | src/state/order_book.rs:117-128 | true exactly when the last id is known, both ids are given and the final id is not beyond it |
| Books.OrderBook.DetectsGap | src/state/order_book.rs:130-142 | true exactly when all ids are known and the first id skips past the successor of the last; never when the last id is the largest 64-bit number |
| Books.OrderBook.RecordUpdateIds | src/state/order_book.rs:144-168 | which ids are remembered in each of the four cases |
| Books.OrderBook.TakeSnapshot | src/state/order_book.rs:89-115 | best levels, liquidities, imbalance, times, ids and gap count of the current book |
| Books.SnapshotShows | src/state/order_book.rs:89-115 | the snapshot shows the highest bid and lowest ask with their quantities, both liquidities, an imbalance that times their sum is their difference, and the times, ids and gap count of the book |
| Books.SnapshotImbalance | src/state/order_book.rs:89-99 | the imbalance is absent exactly when the book is empty, lies in [-1, 1], and reaches an end exactly when the other side is empty |
| Books.UpdateKeepsInvariant | src/state/order_book.rs:64-87 | every update keeps at most N positive levels a side and twice the gap count within the last id |
| Books.UpdateInPricesAndIds | src/state/order_book.rs:64-87 | an accepted update leaves the highest bids and the lowest asks, remembers its own ids if it has both and otherwise the larger of its own and the old one, and leaves its own times |
| BookDegradation.TopLevelsSurvive | src/state/order_book.rs:64-87 | after any feed each side is part of the untrimmed side, has at most N levels, contains the best N - d, is the top N if d = 0 and has the exact best price if d < N, where d counts deletions that hit a retained price |
| BookDegradation.TopLevelsSurviveDeletions | src/state/order_book.rs:187-212 | the same with d the number of zero-quantity levels applied |
| BookDegradation.BestPricesSurvive | src/state/order_book.rs:64-87 | the same in prices: a bid missing from the book has at least N - d higher ones and with d = 0 is below every bid kept, and the best bid shown is the highest of the untrimmed side if d < N; asks mirror this |
| BookDegradation.BookShowsLastQuantity | src/state/order_book.rs:206-212 | a price in the book has the quantity of the last accepted level at it, and no price whose last level has quantity zero is in the book |
| BookDegradation.TopLevelsRecover | src/state/order_book.rs:64-87 | the sharper bound: the depth down to which the side is right falls by one with a deletion that hits and rises again, up to N, with each price newly quoted within it; it is never below N minus the losses |
| BookDegradation.MissingFromTheBook | src/state/order_book.rs:187-212 | a price of the untrimmed side is missing from the book exactly when it was trimmed after its last level update |
| BookDegradation.TopNExactlyWhen | src/state/order_book.rs:64-87 | the side is the top N exactly when none of the N best prices was trimmed since its last level update |
| BookDegradation.BookDegradesTightly | src/state/order_book.rs:187-212 | for every N and 1 <= d <= N two valid updates lead a book with d losses to a side that lacks the level of rank N - d and is not the top N |
| BookIds.FeedKeepsInvariant | src/state/order_book.rs:64-87 | the book invariant holds after every feed of valid updates |
| BookIds.GapCountNeverOverflows | src/state/order_book.rs:69-71 | over any feed twice the gap count is at most the last id, so the 64-bit increment cannot overflow |
| BookIds.LastIdOnlyGrows | src/state/order_book.rs:117-168 | over any continuation the last id never decreases, each new gap costs two ids of its growth, and an update adds at most one gap |
| BookIds.TimesOfLastAccepted | src/state/order_book.rs:83-84 | the book carries the event and ingest time of the update it accepted last |
| BookIds.SpansAreDisjoint | src/state/order_book.rs:130-142 | the gap count is the number of gap spans; gap spans and unchecked spans are ordered and pairwise disjoint |
| BookIds.EveryIdAccountedFor | src/state/order_book.rs:117-168 | every id from the first known one to the last is covered by an accepted update, or in a gap span, or in a span passed over by an update with only a final id |
| BookIds.UncoveredIdsAreCountedGaps | src/state/order_book.rs:117-168 | with both ids present every uncovered id lies in one of exactly gap-count disjoint spans; count zero means nothing was missed |
| BookIds.GapFilledOnlyFromLater | src/state/order_book.rs:64-87 | an id inside a gap is covered exactly when a later accepted update reaches back over it |
| BookIds.HistoryIsStale | src/state/order_book.rs:117-128 | whatever follows, an update of the history is refused exactly when it carries both ids |
| BookIds.ReplayChangesNothing | src/state/order_book.rs:64-87 | re-sending any such updates in any order leaves the book as it was |
| BookIds.ReplayWithoutIdsChangesTheBook | src/state/order_book.rs:117-128 | without ids an update of the history is accepted again and can change the book |
| Windows.TradeWindow.Push | src/state/window.rs:28-41 | the new sample goes behind all samples that are not later, then the stale front is evicted |
| Windows.TradeWindow.EvictBefore | src/state/window.rs:43-50 | the eviction loop drops the prefix older than the cutoff |
| Windows.TradeWindow.EvictStale | src/state/window.rs:52-58 | the cutoff is the newest instant minus the window size |
| Windows.WindowIsRecentStableSort | src/state/window.rs:28-58 | after any pushes the window is the stable sort of all samples ever pushed, cut to the window size before the newest |
| Windows.StableSortIsStable | src/state/window.rs:34-39 | repeated insertion sorts by time and keeps the arrival order of equal times |
| Windows.StableSortIsUnique | src/state/window.rs:34-39 | those two facts determine the result |
| Windows.ArrivalOrderIsIrrelevant | src/state/window.rs:28-58 | arrival orders that agree on ties give the same window |
| Windows.BackIsLastOfNewest | src/state/window.rs:60-66 | after a push the window is non-empty and its back is the last arrival of the newest instant |
| Aggregator.SymbolState.ApplyTrade | src/state/aggregator.rs:69-85 | the whole new symbol state after a trade |
| Aggregator.SymbolState.ApplyQuote | src/state/aggregator.rs:87-104 | the whole new symbol state after a quote |
| Aggregator.SymbolState.ApplyDepth | src/state/aggregator.rs:106-138 | the whole new symbol state after a depth update; a refused one changes nothing |
| Aggregator.SymbolState.AdvanceTimestamps | src/state/aggregator.rs:116-127 | both clocks become the maximum of their old value and the event's |
| Aggregator.SymbolState.RefreshTradeSignals | src/state/aggregator.rs:140-143 | price change and trade rate are recomputed from the window |
| Aggregator.MarketStateAggregator.Apply | src/state/aggregator.rs:33-51 | only the event's symbol changes, created if missing; the symbol is returned |
| Aggregator.MarketStateAggregator.SymbolStateMut | src/state/aggregator.rs:151-155 | the entry exists afterwards, new if it was missing, and no other entry changes |
| Aggregator.MarketStateAggregator.Snapshot | src/state/aggregator.rs:53-55 | the symbol's market state, or nothing if it was never seen |
| AggregatorLaws.StreamsAreIndependent | src/state/aggregator.rs:69-138 | a symbol's state is the merge of what its trades, its quotes and its depth updates build alone |
| AggregatorLaws.SymbolsAreIndependent | src/state/aggregator.rs:33-51 | a symbol's entry in a mixed feed is what its own events alone build |
| AggregatorLaws.TradeOrderIsIrrelevant | src/state/aggregator.rs:69-85 | trades in two orders that agree on ties give the same window, signals, last trade and clocks |
| AggregatorLaws.QuoteOrderIsIrrelevant | src/state/aggregator.rs:87-104 | likewise for quotes |
| AggregatorLaws.SnapshotDependsOnStreams | src/state/aggregator.rs:33-138 | two mixed feeds give the same snapshot of a symbol if its depth updates agree and its trades and quotes agree up to the order of different instants |
| AggregatorLaws.LatestQuoteShown | src/state/aggregator.rs:87-104 | after a feed with a quote the best bid and ask, prices and quantities, are those of the last arrival among the newest quotes |
| AggregatorLaws.LatestTradeShown | src/state/aggregator.rs:69-85 | likewise price and quantity of the last trade |
| AggregatorLaws.LastOfNewestIsLatest | src/state/aggregator.rs:87-91 | that event is the one no other is newer than, nor arrived later at the same instant |
| AggregatorLaws.BookkeepingsAgree | src/state/aggregator.rs:69-85 | after a feed with a trade the window is non-empty and its back sample is the last trade reported |
| AggregatorLaws.LastEventTimeIsMaximum | src/state/aggregator.rs:106-127 | the last event time is the maximum over trades, quotes and accepted depth updates, and never below the last depth time |
| AggregatorLaws.LastIngestTimeIsMaximum | src/state/aggregator.rs:116-127 | the last ingest time is the maximum over the same events |
| Aggregator.SymbolState.ApplyOrderBookSnapshot | src/state/aggregator.rs:129-138 | the eight depth fields come from the snapshot, the others stay |
| MarketView.StateShowsBook | src/state/aggregator.rs:106-138 | after any feed the state's depth fields are those of the symbol's book |
| MarketView.BookIsFed | src/state/aggregator.rs:106-114 | that book is the book of the symbol's depth updates alone |
| MarketView.TopQuantitiesShown | src/state/aggregator.rs:129-138 | the top quantities published are those at the highest bid and lowest ask of the book and, while fewer than fifty deletions were applied to a side, of the untrimmed side |
| MarketView.FiftyLevels | src/state/order_book.rs:44-53 | the book of a symbol keeps at most fifty levels a side |
| MarketView.GapCountShownIsSpans | src/state/aggregator.rs:129-138 | the gap count shown is the number of ordered disjoint spans of skipped ids |
| MarketView.PriceChangeShown | src/state/aggregator.rs:140-174 | after any valid feed with a trade, the rate published is the number of trades in the 60,000 ms up to the newest one; the change published leads from the oldest of these to the last trade published, and is absent exactly when they share one instant |
| MarketView.SpreadShown | src/state/aggregator.rs:176-189 | after any valid feed the spread published is that of the uncrossed best quote published, within [0, 200) percent, zero exactly when bid and ask meet, and absent exactly before the first quote |
| Detectors.TradeBurstState.Evaluate | src/detectors/trade_burst.rs:15-70 | new baseline, count and last rate, and the anomaly reported, from the old ones |
| Detectors.TradeBurstState.RecordObservation | src/detectors/trade_burst.rs:72-83 | one step of the running mean |
| Detectors.QuoteStuckState.Evaluate | src/detectors/quote_stuck.rs:26-71 | new signature and change time, and the anomaly reported, from the old ones |
| Detectors.DepthSequenceGapState.Evaluate | src/detectors/depth_sequence_gap.rs:12-44 | the count seen is remembered on every call; the anomaly reported, from the old one |
| DetectorLaws.PriceMoveReported | src/detectors/price_move.rs:7-36 | reported exactly when the change, up or down, reaches the threshold, critical from twice the threshold on; the report shows change and threshold |
| DetectorLaws.SpreadSpikeReported | src/detectors/spread_spike.rs:8-32 | reported exactly when the spread reaches the threshold, as a warning |
| DetectorLaws.StaleDataReported | src/detectors/stale_data.rs:6-36 | reported exactly when the last event is as old as the threshold, critical from twice the threshold on, where doubling stops at the largest 64-bit number |
| DetectorLaws.EventLagReported | src/detectors/event_lag_spike.rs:6-36 | likewise for the last ingest time less the last event time |
| DetectorLaws.BaselineIsMeanOfChanges | src/detectors/trade_burst.rs:15-83 | after any rates the baseline is the mean of the rates with consecutive repetitions removed, and the count their number |
| DetectorLaws.BurstRaisedExactly | src/detectors/trade_burst.rs:30-69 | a burst is reported exactly when the rate is new, warm-up is over and it reaches the multiplier times the mean of all recorded changes; the report shows the rate beside that product and is critical from twice the product on |
| DetectorLaws.StuckRemembersStreak | src/detectors/quote_stuck.rs:36-40 | the change time is the event time of the first look of the current streak |
| DetectorLaws.StuckDurationIsExact | src/detectors/quote_stuck.rs:42-47 | with growing event times the duration is the plain difference; the zero clamp is never used |
| DetectorLaws.StuckDurationsNeverShrink | src/detectors/quote_stuck.rs:42-51 | within a streak durations never shrink |
| DetectorLaws.SameSignatureIff | src/detectors/quote_stuck.rs:74-83 | a signature exists exactly when all four best values do, and two are equal exactly when these and both top quantities agree |
| DetectorLaws.StuckReported | src/detectors/quote_stuck.rs:26-71 | reported exactly when the signature repeats and its streak is as old as the threshold; the report shows that age, critical from twice the threshold on |
| DetectorLaws.RawReportsCountGaps | src/detectors/depth_sequence_gap.rs:12-24 | a count that climbs by at most one a look is reported as often as it climbed, never if the minimum increment exceeds one |
| DetectorLaws.GapReported | src/detectors/depth_sequence_gap.rs:12-44 | reported exactly when the count exceeds the previous one by the minimum increment or more; the report shows the increase as of the last depth update, as a warning |
| Engines.DetectorEngine.Evaluate | src/detectors/engine.rs:34-74 | the new detector memories and cooldowns, and the anomalies emitted, from the old ones |
| Engines.DetectorEngine.ShouldEmit | src/detectors/engine.rs:76-98 | emitted exactly when thirty whole seconds passed since the last emission of the key; only then is the key's time updated |
| Engines.DetectorEngine.FilterByCooldown | src/detectors/engine.rs:70-74 | the filter runs in order, each decision seeing the ones before |
| Pipeline.RunEventPipeline | src/ingestion/pipeline.rs:25-54 | the loop returns the cache, the emitted and the stored anomalies of the folded run, and the number of events received |
| Pipeline.StoreAnomalies | src/ingestion/pipeline.rs:114-125 | exactly the anomalies whose insert did not fail are appended, in order |
| PipelineLaws.NonInterference | src/ingestion/pipeline.rs:33-51 | in a mixed run a symbol's market state, detector memories, cooldowns, cache entry, emitted and stored anomalies are those of a run of its own events at the same clock readings |
| PipelineLaws.SymbolSeesOnlyItself | src/ingestion/pipeline.rs:33-51 | runs that agree on a symbol's own events agree on everything observable about it |
| PipelineLaws.EmittedAreStamped | src/detectors/engine.rs:34-74 | whatever is emitted names the symbol looked at and carries the clock reading |
| PipelineLaws.CacheHoldsLastWrite | src/ingestion/pipeline.rs:95-105 | the cached state is the snapshot at the last accepted write of the symbol, or what was there before |
| PipelineLaws.CacheIsCoherent | src/ingestion/pipeline.rs:95-105 | if no write fails, after every event the cache holds the aggregator's snapshot of every symbol seen |
| PipelineLaws.MemoriesFollowSnapshots | src/detectors/engine.rs:54-68 | in a mixed run each detector memory is that of the detector fed with the symbol's own snapshots |
| PipelineReports.RawGapAnomaliesCountGaps | src/detectors/depth_sequence_gap.rs:12-44 | the raw gap anomalies so far equal the book's gap count for a minimum increment of at most one, and there are none for a larger one |
| PipelineReports.GapCountsClimb | src/state/aggregator.rs:106-138 | one event raises the gap count by at most one and the state always shows the book's count |
| PipelineReports.ShownTimesGrow | src/state/aggregator.rs:116-127 | the event times the detectors are shown of a symbol never go back |
| PipelineReports.StuckAgeIsStreakAge | src/detectors/quote_stuck.rs:26-71 | in the pipeline a stuck quote's age is the exact time since the first snapshot of its streak |
| PipelineReports.StuckAgesNeverShrink | src/detectors/quote_stuck.rs:26-71 | from one event of a symbol to its next, with any others between, an unchanged signature's age does not shrink |
| PipelineReports.StuckReportedExactly | src/detectors/quote_stuck.rs:26-71 | in the pipeline a stuck quote is reported exactly when the streak of the symbol's own snapshots is as old as the threshold, and shows that age |
| PipelineReports.GapReportedExactly | src/detectors/depth_sequence_gap.rs:12-44 | in the pipeline a gap is reported exactly at the depth updates that raise the gap count, with an increase of one and that update's time, unless the minimum increment exceeds one |
| PipelineReports.BurstReportedExactly | src/detectors/trade_burst.rs:15-83 | in the pipeline a burst is reported exactly when the rate is new, warm-up is over and it reaches the multiplier times the mean of the symbol's earlier changes of rate; with its measurement and severity |
| Retention.AdmitKeepsSpacing | src/detectors/engine.rs:76-98 | the cooldown lets through only anomalies at least thirty seconds after every logged one of the same symbol and kind, whatever the clock does |
| Retention.RunIsWellSpaced | src/detectors/engine.rs:34-98 | so the emitted and the stored log of any run keep that distance |
| Retention.BookkeepingMirrorsLog | src/detectors/engine.rs:76-98 | over any run the cooldown bookkeeping is the emitted log seen key by key |
| Retention.EmittedExactly | src/detectors/engine.rs:34-98 | what a detector reports at an event is emitted exactly when the run so far emitted none of the same symbol and kind, or the last one is thirty whole seconds old |
| Retention.EmissionRateBound | src/detectors/engine.rs:76-98 | at most floor(length / 30 s) + 1 emissions of a symbol and kind in any stretch of time |
| Retention.ReportLeavesARow | src/detectors/engine.rs:76-98 | whatever a detector reports is emitted, or was emitted less than a cooldown ago |
| RowLimit.TruncationIsLossless | src/api/handlers.rs:182-199 | with window plus slack below 420 s, and no row stamped more than the slack after the query's clock reading, score, status, recent count and the penalties over the newest 100 stored rows are those over all stored rows |
| RowLimit.SamePenalties | src/health/scoring.rs:66-89 | rows that are not recent contribute to no penalty |
| FullHouse.LosslessExactly | src/storage/anomalies.rs:23-27 | over all runs, accepted settings and queries the limit loses nothing exactly when window plus slack are below 420 s; without slack exactly up to 419 s |
| FullHouse.LimitLoses | src/api/handlers.rs:36 | from 420 s on there is a pipeline run of valid events after which the query counts five recent anomalies too few |
| FullHouse.ScoreIsLost | src/health/scoring.rs:97-99 | and with accepted settings the score over the rows can be 86 where that over the log is 85 |
| Health.ScoreInNumbers | src/health/scoring.rs:50-99 | the score is the base less, for each severity, its penalty times the number of recent anomalies of it other than stale data, less the stale penalty for each recent stale-data anomaly, or once if there is none and the state is stale, clamped to 0 and 100 despite 16-bit saturation; the status and the recent count follow |
| Health.PenaltiesListed | src/health/scoring.rs:66-89 | the penalties listed are those of the recent anomalies in order and then, exactly when none of these is about stale data although the state is stale, one with the state's age beside the threshold |
| Health.PenaltyOfEach | src/health/scoring.rs:125-153 | each carries its anomaly's kind, severity and measurement, and the points for stale data or for its severity |
| Health.ScoreIgnoresOrder | src/health/scoring.rs:50-99 | score, status and count do not depend on the order of the rows |
| Health.AnomaliesNeverHelp | src/health/scoring.rs:66-89 | one more anomaly never raises score or status, not even a stale-data one that replaces the synthetic penalty |
| Domain.NewSymbol | src/domain/symbol.rs:9-23 | what is constructed is a non-empty string of upper-case letters and digits |
| Domain.PaddedNameConstructs | src/domain/symbol.rs:9-23 | a padded name is accepted exactly when the padding encloses a non-empty run of ASCII letters and digits, and gives that run with small letters raised |
| Domain.TrimSplits | src/domain/symbol.rs:10 | every name is such a padded one |
| Domain.CanonicalIffUnchanged | src/storage/redis.rs:260-279 | exactly the canonical names survive construction unchanged |
| Redis.RedisCache.SetMarketState | src/storage/redis.rs:15-34 | the atomic write sets value and registration, or fails on a key of another type and changes nothing |
| Redis.RedisCache.GetMarketState | src/storage/redis.rs:137-157 | missing, malformed, of another type, or the state stored, whatever symbol it names |
| Redis.RedisCache.GetMarketStates | src/storage/redis.rs:159-215 | one entry per requested symbol in order, or an error if any value is malformed or names another symbol; a key of another type reads as missing |
| Redis.RedisCache.ListSymbols | src/storage/redis.rs:217-253 | the registered names as symbols, or an error if one is not a symbol or the key is not a set |
| Redis.RedisCache.ValidateMarketStateCache | src/storage/redis.rs:255-305 | succeeds exactly when every registered name is canonical and backed by a well-formed state of that symbol, and returns their number; otherwise a name that is not canonical, or data that is wrong where no key has another type, is reported as invalid data |
| Redis.RedisCache.ClearMarketStateCache | src/storage/redis.rs:307-357 | both the values and the registration are gone, and every deleted key is counted |
| Redis.SoundIffReadable | src/storage/redis.rs:255-305 | validation succeeds exactly when listing returns the registered names themselves and the bulk read finds a matching state for each |
| Redis.AliasReadsButDoesNotValidate | src/storage/redis.rs:235-248 | reading alone is not enough: a registered lower-case alias lists and reads well but does not validate |
| Redis.ValidatedStaysReadable | src/storage/redis.rs:113-135 | a validated cache stays readable in full under any later writes of constructed symbols |
| Redis.SetIsMapUpdate | src/storage/redis.rs:113-157 | to readers an accepted write is one map update and a refused one is nothing |
| Redis.SetThenRead | src/storage/redis.rs:113-157 | after an accepted write the state reads back singly and in bulk, its symbol is registered and no other symbol reads differently; refused exactly on a key of another type, changing nothing |
| Redis.ReadAnswers | src/storage/redis.rs:137-215 | what a single read and a bulk entry answer for a missing key, another type, a malformed value and a state of another symbol |
| Redis.BulkReadInOrder | src/storage/redis.rs:202-214 | a bulk read answers entry by entry in order, or with an error if any entry has one |
| Supervisor.Resolve | src/runtime_supervisor.rs:392-426 | a command is accepted exactly when its mode is known, its symbols parse and are not an empty list, and live mode has a symbol; the request has the mode named, the symbols named in order or else the configured ones, and the flags set |
| SupervisorLaws.AtMostOneTask | src/runtime_supervisor.rs:136-264 | in every reachable state at most one task is unfinished, the already-running bail is unreachable, a spawned run id is new and the current id is below the next |
| SupervisorLaws.StepKeepsTaskInv | src/runtime_supervisor.rs:136-264 | the inductive invariant behind it, over every step of every interleaving |
| SupervisorLaws.NoStaleOverwrite | src/runtime_supervisor.rs:288-390 | once run r is marked running, whatever changes the snapshot is a write on behalf of r or a newer run, with load and write as separate steps |
| SupervisorLaws.StaleWritesOnlyBeforeJoin | src/runtime_supervisor.rs:512-523 | a write is by a run that is no longer current exactly when a task writes after the new id is stored and before the join returns; that task is the one being replaced |
| SupervisorLaws.StaleWriteIsPossible | src/runtime_supervisor.rs:512-523 | such a write does occur in some run |
| SupervisorLaws.SnapshotIsTruthful | src/runtime_supervisor.rs:136-195 | an error text means failed, the status is running, switching, completed or failed, and switching only while a switch is under way |
| SupervisorLaws.FailedWithoutErrorIsPossible | src/runtime_supervisor.rs:181-192 | a run in which the status is failed without an error text and the switch reports success |
| SupervisorLaws.ErrorTextLostExactly | src/runtime_supervisor.rs:181-192 | in every run a step loses the text exactly when it is the last write of a switch whose task has already failed, and a failure without text ends exactly when the next switch announces itself |
| SupervisorLaws.FailedWithoutTextExactly | src/runtime_supervisor.rs:136-195 | a reachable status is failed without text exactly when such a write happened and no switch has announced itself since; that switch spawned the active task, which has errored |
| SupervisorLaws.OkAnswerShowsTheTask | src/runtime_supervisor.rs:181-195 | a successful switch answers with the status of the task it spawned, failed exactly when that task has already errored |
| SupervisorLaws.StatusShowsTheTask | src/runtime_supervisor.rs:288-390 | with no switch under way and a task active, mode and status are those of the current run's task, and an error text is its own |
| SupervisorLaws.SwitchingSupportNeverChanges | src/runtime_supervisor.rs:146-152 | the operator gate is what it was at startup, in every reachable state |
| SupervisorLaws.SwitchAnswers | src/runtime_supervisor.rs:136-195 | success answers with the mode and symbols the command names, runtime source and a settled status, and the active task is of the mode named; an execution error leaves a failed status with that error, no active and no unfinished task |
| SupervisorLaws.StampsOfRun | src/runtime_supervisor.rs:181-192 | in every reachable state the two time stamps are the clock readings of the last running mark and of the last switch completed |
| SupervisorLaws.JoinTells | src/runtime_supervisor.rs:525-530 | a joined task that ended well is forgotten, any other is a failure named after its mode |
| SupervisorLaws.RefusedChangesNothing | src/runtime_supervisor.rs:140-144 | validation errors and conflicts change nothing and occur exactly when the command is unacceptable or the lock is held |
| SupervisorLaws.RefusedCallersAreInvisible | src/runtime_supervisor.rs:140-144 | leaving a refused call out of a run leaves a run |
| SupervisorLaws.SwitchMakesProgress | src/runtime_supervisor.rs:136-195 | a switch takes at most fourteen steps of its own, each enabled unless it is joining an unfinished task |
| SupervisorProgram.SwitchAlwaysFinishes | src/runtime_supervisor.rs:136-195 | from every reachable state with a switch under way, its own steps and those of the task it joins lead to its end and an answer, whatever the outside does |
| SupervisorProgram.IngestionSupervisor.SwitchMode | src/runtime_supervisor.rs:136-195 | left undisturbed, the operation as a program over the fields ends in the state and with the answer of the step machine, waiting for the active task however it stands |
| SupervisorProgram.IngestionSupervisor.ShutdownActiveIngestion | src/runtime_supervisor.rs:219-264 | taking the slot, waiting for the task, joining and marking the old failure, step for step |
| SupervisorProgram.IngestionSupervisor.ResetRuntimeState | src/runtime_supervisor.rs:266-286 | the reset with the id loaded before it, and the failure marked under that id |
| SupervisorProgram.IngestionSupervisor.StartMode | src/runtime_supervisor.rs:197-217 | the bail, the running mark, the spawn and the slot, step for step |

## Left out

- HTTP handlers, routes, DTOs, demo data, configuration loading, telemetry and the web console: plumbing around the engine.
- JSON, WebSocket, file replay and PostgreSQL: events arrive validated, the anomaly log is a sequence, and whether an insert or a cache write fails is an input of the run; historical trade and quote inserts have no effect on the model.
- Decimal and floating-point rounding: prices and percentages are reals, so the trade-burst baseline is the exact mean and equal rates are equal reals.
- Sub-millisecond instants and the range limits of dates: times are unbounded integer milliseconds.
- Detectors.TradeBurstState.RecordObservation: does not model the 32-bit limit of the observation count.
- Detectors.TradeBurstState.Evaluate: does not model the 32-bit limit of the observation count, which more than four billion changes of rate would exceed.
- Anomaly ids and message texts: no property depends on them.
- RowLimit.TruncationIsLossless: covers the rows of one pipeline run, because a restarted process forgets its cooldowns.
- Redis transport failures, the in-memory test backend and a missing connection: every command reaches the store.
- Domain.NewSymbol: models trimming and upper-casing of ASCII only; other characters are left alone and refused, while Unicode upper-casing can turn a few of them into ASCII letters.
- Redis.RedisCache.ListSymbols: does not model the sorting of the listing; the results hold for every order of it.
- Redis.RedisCache.ClearMarketStateCache: deletes the matching keys in one step, where the original scans for them in batches.
- Supervisor.Resolve: the texts of validation errors, and which invalid symbol is named.
- The supervisor's concurrency is a step machine on values; SupervisorProgram is the switch operation as a program, with no interleaving but the task it waits for, and one clock reading for both time stamps.
- Error texts inside tasks and resets are arbitrary strings; only the texts of a failed join are spelled out.
- What a reset clears, and the symbols handed to a spawned task: a reset is a step that may fail, and a task has a mode and a phase.
- Run ids are unbounded: a 64-bit counter would need that many switches to wrap.
- Shutdown, the initial start and a stand-alone reset running beside a switch, and futures dropped at an await: outside the assumptions above.
