# Verification model of QuantDSS

QuantDSS turns market ticks into candles, candles into signals, signals into risk-checked orders, and keeps the
books of paper and live trades. This project models the parts of its backend that carry state from one event to
the next, and proves what they keep over whole runs. Prices and money are exact reals, times are integer
milliseconds (seconds inside the candle engine), and every broker reply, strategy, verdict of an outside system,
clock reading, crash or interleaving is an arbitrary input.

Files whose Python code updates objects in place are modelled by classes and loops, each method proved against a
function of the state before; the laws are proved about those functions.

* `Candles`, `MtfSpec`, `MtfTheorems`, `MtfResults`, `MtfWindows`, `MtfEngine`: the hierarchical candle engine (1s,
  5s, 15s, 30s, 1m, 5m). A tick enters the 1s candle; each completed candle is merged into the next timeframe. The
  main result is that this cascade refines six independent aggregators over the raw ticks, so that every candle
  summarises exactly the ticks of a window of the clock.
* `CandleAggregator`, `MinuteRoutes`, `MarketData`, `VolumeDelta`: the one-minute aggregator that runs beside it,
  the agreement of the two routes to five-minute candles, and the volume from the exchange feed to the candles.
* `LiveOrders`, `LiveOrderTheorems`, `LiveRedelivery`, `LiveCancellation`, `LiveBookings`, `LiveResults`,
  `ExecutionManager`, `RateLimiter`: the life of a live trade and its stop and target legs under order updates,
  protection retries, market closes and reconciliation; updates delivered again; what a closed trade leaves behind;
  what is booked, and how much; and the token bucket in front of the broker.
* `RedisKeys`, `Delivery`, `DeliveryBatches`: a stream message from publication to the idempotency gate of the
  auto-trader, through crashes, claims and redeliveries; and whole batches, message by message.
* `RedisLock`, `RiskRules`, `Reservations`, `RiskAdmission`, `RiskOverrun`: the lease lock, the chain of risk rules,
  the two-minute reservations, admission of signals by any number of workers under the lock, and when reservations
  can exceed the risk limit.
* `Backtest`, `BacktestResults`, `BacktestEngine`, `OpeningRange`, `BacktestMetrics`: the backtest's bar loop, its
  trades and ledger, where a stop stands and when a trade leaves, when the strategy is heard, the opening-range
  columns computed before it, drawdown, losing streak and costs.
* `StrategyHealth`, `StrategyVerdicts`: the rolling window that disables a strategy, for what and for how long, and its
  rebuilding from the database.
* `PaperLedger`, `PaperResults`, `PaperTrading`: the paper account under batches, worker entries, reversals and the monitor.

Check everything with `dafny verify dfyconfig.toml`.

## What the proofs found

* A zero open or a low that is not positive counts as missing in a merge. One merge equals reading the ticks
  together exactly when the level's zero open meets a zero open and its non-positive low meets one no higher
  (`MtfTheorems.MergedIsDirectIff`), and the whole engine refines direct aggregation at every moment exactly when
  all merges of the run are of that kind (`MtfTheorems.CascadeRefinesIff`), as with positive prices they are;
  `MtfResults.ZeroPriceIsForgotten` is one that is not.
* The volume deltas telescope through feed resets too: a fall of more than 10 000 counts as any other fall
  (`VolumeDelta.DeltasTelescope`), so they add up to the net rise exactly when the feed never falls
  (`VolumeDelta.DeltasAreRiseIff`).
* A partial fill of a protective leg overwrites the trade's quantity; it is the only event that makes it differ
  from the entry's last fill (`LiveOrderTheorems.FillsMatchExactly`).
* CLOSED is not a terminal status: an entry order reported complete once more after its stop has filled opens the
  trade again and places live legs for a position that is gone (`LiveRedelivery.RedeliveryReopens`,
  `LiveRedelivery.ReopenedAfterStop`). The redelivery is harmless at every later moment exactly when the stop was
  placed and no event since completed a leg or dropped the stop, resized the trade, or closed it at the market
  (`LiveRedelivery.RedeliveryIgnoredThroughout`).
* One cancels the other, with two exceptions: an entry order cancelled or rejected with nothing filled closes its
  trade and leaves recorded legs with the broker, and a market close of a closed trade records a new order that
  nothing cancels. At every moment of a run the legs of closed trades are cancelled or final exactly when neither
  happened (`LiveCancellation.OneCancelsOther`, `LiveCancellation.AbandonedAfterPartialFill`).
* A trade's results are booked once for each completion of one of its legs that is reported, also when the trade is
  closed by then, so once exactly when only one is reported (`LiveBookings.BookingsAreCompletions`); the day's P&L
  exceeds what the trades show by the bookings that were superseded (`LiveBookings.DailyPnlIsShown`).
* The consumer reads only new entries, so its retry counter never exceeds one and the dead-letter branch is
  unreachable (`Delivery.BoundedAndNeverDeadLettered`). When every handler reaches the gate less than a
  given time after it started, all messages of all runs execute at most once exactly for times up to 600 s
  (`Delivery.AtMostOnceIff`).
* The lock excludes unexpired leases, not sections: while one process is in its section another gets in exactly when
  that lease has run out and nobody else has taken one since (`RedisLock.EntersIffLeaseIsOver`).
* A backtest over an index of times gives every bar after 09:30 the opening range of all days of its frame, later
  ones included, so it looks ahead unless no later opening widens a range in use
  (`OpeningRange.ClockRunsLookAheadIff`); over row numbers it never does (`OpeningRange.RowRunsNeverLookAhead`).
* The sizing rule compares the exact risk T and reserves the rounded one, R, so the live reservations can exceed the
  limit L by one rounding, at most 0.005. Some run does exceed it exactly when T is positive and some n, up to the
  number of slots, has (n - 1) * R + T <= L < n * R (`RiskOverrun.LimitIsExceededIff`); `RiskOverrun.ExceedingRun`
  is one, with 5.01 of 5.006.
* Every worker counts the signals per stock for itself and writes its own count to the day's row, which therefore
  holds what passed at the last writer and not the sum (`RiskRules.SharedRowIsLastWriters`).
* The drawdown loop is the largest drop between any two points only while equity is not negative
  (`BacktestMetrics.NegativeEquityHidesADrop`).
* A rebuilt strategy can be enabled although the uninterrupted one was disabled (`StrategyHealth.RebuildForgets`).
* The paper monitor measures the risk unit from the stop as it stands, so a trade's stop trails at most once: the
  first move takes it beyond the entry, where no unit is left to trail by (`PaperResults.TrailsAtMostOnce`).
* The token bucket refuses nothing that its bound allows: a call is granted exactly when no window of calls up to it
  would exceed the rate and the refill of its length (`RateLimiter.GrantedIff`).
* With the trading mode disabled, a reversal closes a paper trade without returning its margin or result
  (`PaperLedger.ReversalConservesIff`).

## Notes on the source

* `place_sl_order` and `place_target_order` import `httpx` inside an `except` block, which makes the name local to
  the function, so the call above it always fails; the model lets every reply, and none, happen.
* `RiskEngineWorker.run` and the recovery worker name a handler `_handle_signal` that `RiskEngineWorker` does not
  have; the method modelled is `_process_signal`.
* The paper monitor's description promises exits at the stop price and half of the position at a first target; its
  code closes the whole trade at the last price, and the model follows the code.

## Model

| member | source | states |
|---|---|---|
| MtfEngine.MTFCandle.Update | backend/app/ingestion/mtf_engine.py:51-56 | the candle after a price: higher high, lower low, last close, volume added |
| MtfEngine.MTFCandle.Merge | backend/app/ingestion/mtf_engine.py:58-65 | the candle after merging another, with the rules for a zero open or low |
| MtfEngine.MultiTimeframeEngine.ProcessTick | backend/app/ingestion/mtf_engine.py:131-163 | one tick cascades through the six timeframes of its symbol as the specification's step does, returns the completed candles in order, and leaves other symbols alone |
| MtfEngine.MultiTimeframeEngine.Process1mCandle | backend/app/ingestion/mtf_engine.py:165-195 | a one-minute candle is stored and folded into the five-minute level |
| MtfEngine.SymbolCandles.UpdateCandle | backend/app/ingestion/mtf_engine.py:197-224 | the finest level rolls over when the floored time changes, completing the old candle, then takes the price |
| MtfEngine.SymbolCandles.AggregateUp | backend/app/ingestion/mtf_engine.py:226-248 | a level takes a completed candle of the level below, rolling over first when its window changed |
| MtfEngine.MultiTimeframeEngine.GetCandles | backend/app/ingestion/mtf_engine.py:250-257 | the stored history of a symbol and timeframe; none for an unknown one |
| MtfEngine.MultiTimeframeEngine.GetCurrentCandle | backend/app/ingestion/mtf_engine.py:259-266 | the candle being built, if any; none for an unknown symbol or timeframe |
| MtfEngine.MultiTimeframeEngine.ResetSession | backend/app/ingestion/mtf_engine.py:268-271 | every symbol forgets all candles |
| MtfTheorems.AggregateImage | backend/app/ingestion/mtf_engine.py:226-248 | merging the candle of a group of ticks does to a level what adding the ticks themselves would do, exactly when it starts a candle there or the merge is exact |
| MtfTheorems.MergedIsDirectIff | backend/app/ingestion/mtf_engine.py:58-65 | one merge equals the direct reading of both groups of ticks exactly when a zero open meets a zero open and a low that is not positive meets one no higher |
| MtfTheorems.CascadeRefinesPiles | backend/app/ingestion/mtf_engine.py:131-163 | after any run whose merges are exact, in any time order, all six levels and all completed candles are those of groups of raw ticks |
| MtfTheorems.CascadeRefinesIff | backend/app/ingestion/mtf_engine.py:131-163 | the engine refines the groups of raw ticks at every moment of a run exactly when every merge that happens in it is exact |
| MtfTheorems.PositiveRunsMergeExactly | backend/app/ingestion/mtf_engine.py:58-65 | with positive prices every merge of every run is exact |
| MtfResults.StreamPartition | backend/app/ingestion/mtf_engine.py:151-163 | the tick stream is exactly the ticks of the completed candles of a timeframe followed by those of the open candles from that timeframe down to 1s |
| MtfResults.CascadeRefinesBuckets | backend/app/ingestion/mtf_engine.py:197-248 | in runs whose merges are exact, the completed candles of each timeframe are a prefix of what an independent aggregator of that timeframe builds, at most one window per level behind, and the history is the last 200 of them |
| MtfResults.BucketsAreWindows | backend/app/ingestion/mtf_engine.py:79-83 | for ticks in time order the groups are the windows of floored times, in strictly increasing order |
| MtfResults.CandlesAreDirectFolds | backend/app/ingestion/mtf_engine.py:131-163 | in such runs, for ticks in time order, every completed candle has the open, high, low, close and volume of exactly the ticks whose floored time is its start, and times strictly increase |
| MtfResults.VolumeConserved | backend/app/ingestion/mtf_engine.py:206-248 | for all ticks, at every timeframe the volume of completed candles plus that of open candles up to it is the volume of all ticks |
| MtfResults.ZeroPriceIsForgotten | backend/app/ingestion/mtf_engine.py:58-65 | one merge that is not exact: a tick at price 0 followed by one at 10 |
| Candles.NestedFloor | backend/app/ingestion/mtf_engine.py:79-83 | flooring to a coarser timeframe is unchanged by flooring to the next finer one first |
| Candles.FloorMonotone | backend/app/ingestion/mtf_engine.py:79-83 | flooring keeps the order of times |
| Candles.FloorIsWindow | backend/app/ingestion/mtf_engine.py:79-83 | flooring gives a start exactly when the start is a multiple of 1, 5, 15, 30, 60 or 300 seconds and the time lies within that many seconds from it |
| MtfWindows.StartsAreMultiples | backend/app/ingestion/mtf_engine.py:79-100 | whatever the ticks, every completed candle starts at a multiple of its timeframe's length |
| MtfWindows.CandlesAreWindows | backend/app/ingestion/mtf_engine.py:86-163 | for ticks in time order and exact merges, every completed candle is first, last, highest and lowest price and total volume of exactly the ticks in the 1, 5, 15, 30, 60 or 300 seconds it starts |
| MtfWindows.HistoryIsLast200 | backend/app/ingestion/mtf_engine.py:106-163 | whatever the ticks, every timeframe stores the last 200 candles it ever completed |
| MtfWindows.FiveMinutesAreWindows | backend/app/ingestion/mtf_engine.py:165-195 | five-minute candles built from one-minute candles start at multiples of 300 seconds and hold the volume of exactly the minutes that start in their five |
| CandleAggregator.CandleBuilder.AddTick | backend/app/ingestion/candle_aggregator.py:93-105 | the candle under construction after a tick; negative volume counts as none |
| CandleAggregator.MinuteStartIsFloor | backend/app/ingestion/candle_aggregator.py:71-74 | the minute computed in exchange time is the minute of the clock |
| CandleAggregator.Aggregator.ProcessTick | backend/app/ingestion/candle_aggregator.py:148-271 | a tick is judged, may close the candle of the last minute and is added, exactly as the specification's step; closing a candle resets the cached volume of the instrument; other symbols are untouched |
| CandleAggregator.Aggregator.GetPendingCandle | backend/app/ingestion/candle_aggregator.py:273-277 | the candle under construction, if it has ticks |
| CandleAggregator.Aggregator.ResetSession | backend/app/ingestion/candle_aggregator.py:324-349 | every symbol is forgotten and every cached volume is zero |
| MinuteRoutes.AcceptedInOrder | backend/app/ingestion/candle_aggregator.py:177-200 | accepted ticks are in time order whatever arrives |
| MinuteRoutes.EmittedAreDirect | backend/app/ingestion/candle_aggregator.py:194-271 | every emitted and pending minute candle is the direct reading of the accepted ticks of its minute, and minutes strictly increase |
| MinuteRoutes.AcceptedIff | backend/app/ingestion/candle_aggregator.py:173-200 | a tick is accepted exactly when it repeats none of the last twenty ticks that were no repetitions themselves and is not earlier than any accepted tick; a negative volume then counts as none |
| MtfWindows.MinutesAreWindows | backend/app/ingestion/candle_aggregator.py:194-271 | every emitted and pending minute candle summarises exactly the ticks accepted in the sixty seconds it starts |
| MinuteRoutes.MinuteVolumeConserved | backend/app/ingestion/candle_aggregator.py:93-105 | emitted volume plus pending volume is the volume of the accepted ticks |
| MinuteRoutes.RoutesCommute | backend/app/ingestion/mtf_engine.py:165-195 | when both routes make exact merges only, the five-minute candles from ticks are a prefix, candle for candle, of those from the aggregator's one-minute candles |
| MinuteRoutes.PositiveRoutesCommute | backend/app/ingestion/mtf_engine.py:165-195 | with positive prices they are |
| MinuteRoutes.OnlyDroppedIsMissing | backend/app/ingestion/candle_aggregator.py:148-271 | for any arrival sequence, emitted and pending volume is all volume offered less exactly that of the ticks dropped as duplicate or out of order |
| VolumeDelta.VolumeDeltaTracker.GetDelta | backend/app/ingestion/websocket_manager.py:103-133 | the delta of a cumulative volume against the last one of the same instrument, and the new last one |
| VolumeDelta.DeltasTelescope | backend/app/ingestion/websocket_manager.py:103-133 | the deltas of a feed add up to the capped first value plus the net rise plus all falls |
| VolumeDelta.DeltasAreRiseIff | backend/app/ingestion/websocket_manager.py:103-133 | they add up to the capped first value plus the net rise exactly when the feed never falls |
| VolumeDelta.DeltasNonNegative | backend/app/ingestion/websocket_manager.py:103-133 | no delta is negative when the feed starts at zero or above |
| VolumeDelta.DeltaIsRiseOrNothing | backend/app/ingestion/websocket_manager.py:103-133 | each delta is the rise since the reading before, and zero when there is none; the first is the reading, up to 50 000 |
| MarketData.MarketDataCache.AccumulateVolume | backend/app/ingestion/websocket_manager.py:205-207 | the delta is added for one instrument |
| MarketData.MarketDataCache.ResetVolume | backend/app/ingestion/websocket_manager.py:209-211 | the volume of one instrument is zero again |
| VolumeDelta.Follow | backend/app/ingestion/websocket_manager.py:622-625 | over a run of messages and resets the tracker and the cache together hold the deltas since the last reset |
| VolumeDelta.CachedIsRiseSinceReset | backend/app/ingestion/websocket_manager.py:205-211 | on a rising feed the cached volume is the rise since the message before the last reset |
| VolumeDelta.FeedReachesCandles | backend/app/ingestion/candle_aggregator.py:93-105 | for any feed, minute candles and the pending one hold the capped first value plus the net rise plus all falls, less exactly the volume of the dropped ticks |
| VolumeDelta.CandlesHoldRiseIff | backend/app/ingestion/candle_aggregator.py:93-105 | that is the capped first value plus the net rise, less the dropped volume, exactly when the feed never falls |
| RateLimiter.RedisRateLimiter.Evaluate | backend/app/engine/execution_manager.py:56-77 | the script on a key that expires after a second behaves as on one that never expires |
| RateLimiter.RedisRateLimiter.Acquire | backend/app/engine/execution_manager.py:79-87 | a caller without competition makes at most eleven attempts, of which the last is granted and no earlier one |
| RateLimiter.ExpiryUnobservable | backend/app/engine/execution_manager.py:56-77 | losing the key changes nothing exactly when the bucket has refilled to capacity, which one second always does |
| RateLimiter.GrantsArePaid | backend/app/engine/execution_manager.py:56-77 | grants of a call sequence never exceed the tokens at its start plus those refilled during it |
| RateLimiter.RateBound | backend/app/engine/execution_manager.py:50-87 | in any interval of any run at most rate + rate * length grants are given |
| RateLimiter.GrantedIff | backend/app/engine/execution_manager.py:50-87 | from a full bucket, a call is granted exactly when with it no window of calls up to it grants more than the rate and the refill of its length |
| RateLimiter.BurstIsGranted | backend/app/engine/execution_manager.py:50-77 | of n calls at one moment exactly the smaller of n and the rate are granted |
| ExecutionManager.Manager.HandleWebhook | backend/app/engine/execution_manager.py:725-966 | an order update finds its trade, by entry or leg id, and has the effect of the specification's event on trades, cancel queue and booked P&L; the legs sent, with the trade's quantity when sent, are those the specification places |
| ExecutionManager.Manager.CompleteLeg | backend/app/engine/execution_manager.py:785-828 | a completed leg closes the trade, books its net result and enqueues the other leg |
| ExecutionManager.Manager.OnComplete | backend/app/engine/execution_manager.py:785-869 | a completed entry replaces both legs, sent at the filled quantity, unless already processed |
| ExecutionManager.Manager.OnPartialFill | backend/app/engine/execution_manager.py:871-908 | a partial fill resizes the trade and replaces both legs, sent at the new quantity |
| ExecutionManager.Manager.OnDropped | backend/app/engine/execution_manager.py:917-960 | a rejected or cancelled order drops a leg, keeps a partly filled entry protected, or closes the trade |
| ExecutionManager.Manager.PlaceProtectionOrdersWithRetry | backend/app/engine/execution_manager.py:372-437 | up to three attempts place only missing legs and stop early only when the trade needs none |
| ExecutionManager.Manager.PlaceMarketCloseOrder | backend/app/engine/execution_manager.py:597-662 | a market order enqueues both legs for cancellation and takes the target's place |
| ExecutionManager.Manager.ReconcileOpenTrade | backend/app/engine/execution_manager.py:1080-1123 | the first leg the broker reports complete closes an open trade |
| LiveOrderTheorems.NoOrphanedOrder | backend/app/engine/execution_manager.py:785-962 | over any run of events, every leg the broker ever accepted is recorded on its trade, enqueued for cancellation, or reported final |
| LiveOrderTheorems.LegsMatchLastFill | backend/app/engine/execution_manager.py:830-908 | in live mode, when partial fills concern entry orders, every leg a trade records was placed with the trade's quantity, and that is the last reported entry fill |
| LiveOrderTheorems.RecordedLegsWerePlaced | backend/app/engine/execution_manager.py:785-962 | over any run every leg a trade records is one that was placed for it, the market order that closes it included |
| LiveOrderTheorems.FillsMatchExactly | backend/app/engine/execution_manager.py:871-908 | a trade's quantity stops matching its last entry fill exactly when one of its own legs is partially filled by another amount |
| LiveRedelivery.RedeliveryIgnoredIff | backend/app/engine/execution_manager.py:830-868 | in any state a complete entry update is ignored for all broker replies exactly when the trade is open with its numbers and has a stop, or can have no leg |
| LiveRedelivery.StandsIffUndisturbed | backend/app/engine/execution_manager.py:785-962 | an event takes that from a trade with a stop exactly when it completes a leg or drops the stop, resizes the trade, or closes it at the market |
| LiveRedelivery.RedeliveryOverRuns | backend/app/engine/execution_manager.py:830-868 | after the first delivery and any run of events a redelivery is ignored exactly when the trade is in that state then |
| LiveRedelivery.RedeliveryIgnoredThroughout | backend/app/engine/execution_manager.py:830-868 | in live mode with a stop price, a redelivery is ignored at every later moment exactly when the first delivery placed the stop and no event since disturbed the trade |
| LiveRedelivery.RedeliveryReopens | backend/app/engine/execution_manager.py:830-868 | a redelivery to a trade that is no longer open opens it and places a live stop |
| LiveRedelivery.ReopenedAfterStop | backend/app/engine/execution_manager.py:830-868 | one such run: entry, stop fill, entry again leave the trade open with four legs placed |
| LiveCancellation.SettledIffNotAbandoned | backend/app/engine/execution_manager.py:785-962 | an event leaves a live order on a closed trade exactly when it drops an entry order with nothing filled while unsettled legs are recorded, or closes a closed trade at the market again under a new id |
| LiveCancellation.OneCancelsOther | backend/app/engine/execution_manager.py:785-962 | in live mode, at every moment of a run every leg still recorded on a closed trade has been enqueued for cancellation or reported final, exactly when the run has no such event |
| LiveCancellation.DroppedEntryAbandons | backend/app/engine/execution_manager.py:917-960 | a dropped entry with nothing filled closes the trade, keeps its legs and cancels none |
| LiveCancellation.AbandonedAfterPartialFill | backend/app/engine/execution_manager.py:917-960 | one such run: a partial fill, then a cancellation that reports nothing filled, leaves both legs with the broker |
| LiveBookings.BooksIffCompletion | backend/app/engine/execution_manager.py:785-828 | an event books for a trade exactly when it reports a leg of it complete, at the net result of the reported price, which the trade then shows |
| LiveBookings.BookingsAreCompletions | backend/app/engine/execution_manager.py:785-828 | over any run, reconciliation included, the bookings of a trade are its leg completions, one for one, and the trade shows the last |
| LiveBookings.SecondLegBooksAgain | backend/app/engine/execution_manager.py:785-828 | two legs of one trade reported complete are both booked, each at its own net result, although the first closes the trade |
| LiveBookings.DailyPnlIsBookings | backend/app/engine/execution_manager.py:815-828 | over any run the daily P&L is the opening one plus all bookings, up to one rounding a booking |
| LiveBookings.DailyPnlIsShown | backend/app/engine/execution_manager.py:815-828 | that is what the booked trades show plus the bookings superseded by a later one of the same trade |
| LiveBookings.NothingSuperseded | backend/app/engine/execution_manager.py:815-828 | nothing is superseded when no trade has two leg completions |
| LiveResults.ResultsDiffer | backend/app/engine/execution_manager.py:792-800 | the results booked for two completions of one trade at nonzero prices a and b differ by the filled shares times b - a for a BUY and a - b for a SELL |
| LiveResults.EvenExitCosts | backend/app/engine/execution_manager.py:788-800 | a completion at the entry price books exactly -40 less 0.05 % of the entry value; a missing entry or exit price books nothing |
| LiveResults.DayMovesByResult | backend/app/engine/execution_manager.py:803-828 | the day's P&L moves by the booked result, to a whole hundredth next to it |
| LiveResults.ClosedAsReported | backend/app/engine/execution_manager.py:785-828 | a completed leg leaves the trade closed at the reported price, as stop loss or as target |
| LiveResults.ReconciledAsAnswered | backend/app/engine/execution_manager.py:1080-1123 | reconciliation asks about the stop first and closes at the first complete answer |
| LiveResults.FillIsProtected | backend/app/engine/execution_manager.py:830-908 | after every entry fill the trade is open for the filled shares, its old legs are enqueued for cancellation, and its legs are what the broker answered, sent for that many shares at positive prices |
| LiveResults.FillSetsEntry | backend/app/engine/execution_manager.py:830-880 | the entry price is what the completion reports, or the last positive price of a partial fill |
| LiveResults.RiskIsLossAtStop | backend/app/engine/execution_manager.py:876-886 | the risk a partial fill records is what its stop would lose before costs, to the nearest hundredth |
| LiveResults.RetryCompletes | backend/app/engine/execution_manager.py:372-437 | a retry with positive prices and a willing broker leaves both legs in place, the old ones where there were any, and cancels nothing |
| LiveResults.RetryLeavesClosed | backend/app/engine/execution_manager.py:372-437 | a retry leaves a closed, rejected or cancelled trade alone |
| LiveResults.DroppedLegIsForgotten | backend/app/engine/execution_manager.py:917-960 | a rejected or cancelled leg is forgotten and nothing else changes |
| LiveResults.DroppedEntryCloses | backend/app/engine/execution_manager.py:940-960 | an entry dropped with nothing filled closes the trade as cancelled or rejected |
| LiveResults.MarketCloseReplacesLegs | backend/app/engine/execution_manager.py:597-662 | a market close enqueues both legs and, accepted, takes the target's place for the whole quantity |
| RedisKeys.Redis.SetNxEx | backend/app/core/redis_lock.py:28-32 | SET NX EX: succeeds exactly when no live entry exists, and then replaces it |
| RedisKeys.Redis.CompareAndDelete | backend/app/core/redis_lock.py:44-51 | the script deletes the key only while it holds the caller's value |
| Delivery.StreamConsumer.Consume | backend/app/core/streams.py:183-206 | a batch acknowledges what was handled, counts failures, and dead-letters past five |
| Delivery.SettlingIsSteps | backend/app/core/streams.py:183-206 | settling a batch is the same as letting its handler runs return or raise one after the other |
| DeliveryBatches.BatchIsSettled | backend/app/core/streams.py:183-206 | of a batch without repetition what returned is acknowledged, what raised has failed once more, and nothing else changes |
| DeliveryBatches.SixthFailureBuries | backend/app/core/streams.py:190-206 | five failures of a message are only counted; the sixth dead-letters and acknowledges it with the counter back at zero |
| Delivery.PelRecoveryWorker.Scan | backend/app/workers/pel_recovery_worker.py:55-71 | messages delivered more than five times are acknowledged, and of the rest those idle long enough are selected |
| Delivery.ScanAgrees | backend/app/workers/pel_recovery_worker.py:55-71 | the scan selects exactly the messages the protocol lets recovery claim or acknowledge |
| Delivery.PelRecoveryWorker.Reprocess | backend/app/workers/pel_recovery_worker.py:80-103 | claimed messages older than 300 s are acknowledged unhandled, the others handled and then acknowledged, until a handler raises |
| Delivery.ReprocessingIsSteps | backend/app/workers/pel_recovery_worker.py:80-103 | reprocessing one message is the protocol's look followed by the handler's return or raise |
| DeliveryBatches.PassByIndex | backend/app/workers/pel_recovery_worker.py:80-106 | before the first fresh message whose handler raises every message is acknowledged and the fresh ones are handled; that one is handled and not acknowledged; nothing after it is touched |
| DeliveryBatches.BatchIsSteps | backend/app/workers/pel_recovery_worker.py:80-106 | reprocessing a whole batch is a run of the protocol that looks at each message and lets its handler return or raise, up to the first that raises, and forgets the later claims |
| DeliveryBatches.ScanPicks | backend/app/workers/pel_recovery_worker.py:55-71 | a scan takes for poison exactly what was delivered more than five times, and takes up of the rest exactly what has been idle long enough |
| Delivery.ExecutesAtMostOnce | backend/app/workers/autotrader_worker.py:101-109 | over any interleaving of delivery, crash, claim and redelivery, with handlers reaching the gate less than some bound of at most 600 s after they start, a message passes at most once ever and equal traits pass at least 900 s apart |
| Delivery.PassedMeansShut | backend/app/workers/autotrader_worker.py:101-109 | a message that has passed finds its own key alive whenever another of its handlers reaches the gate |
| Delivery.BoundedAndNeverDeadLettered | backend/app/core/streams.py:162-206 | a message starts at most six handler runs, its retry count stays at most one, and it is never dead-lettered |
| Delivery.LaterIsTooLate | backend/app/workers/pel_recovery_worker.py:89-95 | for every larger bound there is a run that passes the same message twice |
| Delivery.AtMostOnceIff | backend/app/workers/autotrader_worker.py:101-109 | all runs pass every message at most once exactly when the bound is at most 600 s |
| RedisLock.World.Acquire | backend/app/core/redis_lock.py:20-37 | whatever others do to the key, the spin loop ends within its timeout plus one retry, holding a fresh lease or timed out |
| RedisLock.World.Release | backend/app/core/redis_lock.py:41-51 | release deletes the key only while it holds the caller's nonce |
| RedisLock.MutualExclusion | backend/app/core/redis_lock.py:20-51 | in every reachable state at most one process holds an unexpired lease of a name |
| RedisLock.ReleaseTakesOnlyItsOwn | backend/app/core/redis_lock.py:41-51 | a release, however late, leaves every other process's unexpired lease and key as they were |
| RedisLock.ReleaseInTimeFrees | backend/app/core/redis_lock.py:41-51 | a release within the lease frees the key at once |
| RedisLock.NoDeadlock | backend/app/core/redis_lock.py:28-32 | once no live entry exists, a try takes the lease, whatever happened to the last holder |
| RedisLock.EntersIffLeaseIsOver | backend/app/core/redis_lock.py:20-51 | in every reachable state, while one process is in its section, a try of another on the same name succeeds exactly when the lease of the first has run out and no other has been taken since |
| RedisLock.KeyIsALease | backend/app/core/redis_lock.py:28-51 | in every reachable state a live key is the unexpired lease of a process in its section, or one left behind by a crash |
| RedisLock.OverstayingOverlaps | backend/app/core/redis_lock.py:20-51 | one run in which a section outlives its lease and overlaps another |
| RiskRules.RiskEngine.CheckSignals | backend/app/engine/risk_engine.py:605-626 | the per-stock rule's verdict, the counts it leaves, and the count it writes back to the day's row |
| RiskRules.RiskEngine.Validate | backend/app/engine/risk_engine.py:845-906 | approval exactly when all seventeen rules pass, else the first refusal; the capped sizing; a signal uses up its stock's count, in memory and in the day's row, once the first fifteen rules pass |
| RiskRules.SizingIsLargest | backend/app/engine/risk_engine.py:362-413 | the approved quantity is the largest within both the risk budget and the position cap, or one share when none is |
| RiskRules.ValueIsCapped | backend/app/engine/risk_engine.py:404-413 | no approved position is worth more than the cap or one share |
| RiskRules.ApprovalFits | backend/app/engine/risk_engine.py:362-453 | an approved signal fits the risk limit, the free slots and the exposure cap of the portfolio shown |
| RiskRules.ApprovesIff | backend/app/engine/risk_engine.py:319-453 | a signal is approved exactly when its ATR lies in the band of minimum and maximum fraction of the entry price, or a scanner's below the maximum, its risk fits limit and balance, a slot and exposure are left, its stock has signals left, and no rule with outside input objects |
| RiskRules.VolatilityRefusals | backend/app/engine/risk_engine.py:319-348 | the volatility rule refuses exactly outside that band: as an invalid price, as low or as high volatility |
| RiskRules.SizingRefusals | backend/app/engine/risk_engine.py:362-388 | the sizing rule refuses exactly an entry at the stop, a trade risk above what the limit leaves, or one below the risk of one share, with these reasons in this order |
| RiskRules.RefusedFor | backend/app/engine/risk_engine.py:870-896 | a reason is given only when every earlier rule of the portfolio had nothing to object |
| RiskRules.BreakersComeFirst | backend/app/engine/risk_engine.py:870-896 | the circuit breakers are asked before every rule of the portfolio, liquidity, spread and time before the per-stock rule |
| RiskRules.PassedPerDay | backend/app/engine/risk_engine.py:605-626 | of n signals of one stock reaching the rule on one day, min(n, max(1, cap)) pass |
| RiskRules.RowsHoldPassed | backend/app/engine/risk_engine.py:596-626 | while one engine writes it, the day's row holds for every stock how many of its signals passed that day |
| RiskRules.SharedRowIsLastWriters | backend/app/engine/risk_engine.py:596-626 | with several workers the row holds what passed at the worker that wrote last |
| Reservations.RiskReservations.Reserve | backend/app/engine/risk_reservation.py:14-33 | an entry under the signal's id for 120 s, replacing an earlier one |
| Reservations.RiskReservations.TotalReserved | backend/app/engine/risk_reservation.py:36-64 | the sum of risks and the list of notionals of the entries found alive under the scanned keys |
| Reservations.RiskReservations.Release | backend/app/engine/risk_reservation.py:67-76 | the entry is gone, the others stay |
| Reservations.ScanIsComplete | backend/app/engine/risk_reservation.py:46-60 | a scan finds every live entry among its keys, only those, and each once when no key repeats |
| Reservations.PartIsLess | backend/app/engine/risk_reservation.py:54-64 | different live reservations add up to no more than any list that contains them, in any order and with repetition |
| Reservations.OrderDoesNotMatter | backend/app/engine/risk_reservation.py:54-64 | the total does not depend on the order of the scanned keys |
| RiskAdmission.RiskEngineWorker.Evaluate | backend/app/workers/risk_engine_worker.py:190-248 | the locked section: what it publishes, and the reservations it leaves |
| RiskAdmission.ReservationsAreCapped | backend/app/workers/risk_engine_worker.py:190-248 | over any interleaving of workers whose sections run within their lease, with reads, expiry and release in between, live reservations number at most max_concurrent_positions and their risk exceeds the cap by at most one rounding |
| RiskAdmission.ApprovalFitsAll | backend/app/workers/risk_engine_worker.py:190-248 | right after an approval, open trades, all other live reservations and the new position together fit the slots, the risk limit up to rounding, and exposure cap plus max(position cap, entry) |
| RiskAdmission.ReservesWhatItGrants | backend/app/workers/risk_engine_worker.py:225-248 | an approval reserves for 120 s the trade's risk to the nearest hundredth and the value of the granted shares; a refusal reserves nothing |
| RiskAdmission.CapIsExactIffNotRoundedUp | backend/app/engine/risk_engine.py:373-394 | no approval ends above the limit, whatever was committed, exactly when the trade's risk does not round up |
| RiskAdmission.RoundingCanExceed | backend/app/engine/risk_engine.py:373-394 | a signal approved for 5.006 of 5.006 reserves 5.01 |
| RiskOverrun.LiveHaveRoom | backend/app/workers/risk_engine_worker.py:190-248 | in every reachable state n live reservations carry n times the rounded amount, and n - 1 of those and the exact amount fit the limit |
| RiskOverrun.NumberIsReachedIff | backend/app/workers/risk_engine_worker.py:190-248 | some run has n live reservations exactly when that holds of n, n is within the slots, and the amount is positive and does not round to nothing |
| RiskOverrun.LimitIsExceededIff | backend/app/workers/risk_engine_worker.py:190-248 | some run has live reservations above the limit L exactly when the amount T is positive and some n from 1 to the slots has (n - 1) * R + T <= L < n * R, R being T rounded |
| RiskOverrun.ExceedingRun | backend/app/workers/risk_engine_worker.py:190-248 | a run of four steps whose only reservation is 5.01 under a limit of 5.006 |
| BacktestEngine.RunBacktest | backend/app/engine/backtest_engine.py:116-301 | the bar loop over mutable trades yields the balance, trades and equity of the specification |
| BacktestEngine.Run.Step | backend/app/engine/backtest_engine.py:153-284 | one bar: fill, day reset, trail, exit, evaluation, equity |
| BacktestEngine.Run.ManageOpen | backend/app/engine/backtest_engine.py:186-247 | an open trade trails, may exit, and is booked |
| BacktestEngine.Run.Consult | backend/app/engine/backtest_engine.py:250-282 | strategy and risk engine are asked only without an open trade and unless halted; approval makes the signal pending |
| BacktestEngine.Run.ForceExit | backend/app/engine/backtest_engine.py:286-297 | a trade still open is closed at the last close |
| BacktestEngine.BacktestTrade.TrailStop | backend/app/engine/backtest_engine.py:189-205 | the stop follows by the ATR distance once the ATR trigger is reached |
| BacktestEngine.BacktestTrade.CheckExit | backend/app/engine/backtest_engine.py:208-225 | stop before target, with the reason |
| Backtest.NoLookahead | backend/app/engine/backtest_engine.py:153-284 | the state after a bar is determined by the candles up to it, indicators included, so a run on a prefix agrees with the full run |
| OpeningRange.ClockColumnsStayIff | backend/app/engine/indicators.py:52-97 | on an index of times the opening-range columns of a frame stay what they are under appended bars exactly when no bar has a range yet or no later opening bar widens it |
| OpeningRange.ClockColumnsAreRange | backend/app/engine/indicators.py:52-97 | on an index of times the bars after 09:30, and no others, get the highest high and the lowest low of all bars from 09:15 to 09:30 |
| OpeningRange.RowColumnsAreRange | backend/app/engine/indicators.py:98-109 | on an index of row numbers the rows after the fifteenth get those of the first fifteen |
| OpeningRange.OneDayIsSettled | backend/app/engine/indicators.py:52-97 | within one day in order that is always so |
| OpeningRange.RowColumnsStay | backend/app/engine/indicators.py:98-109 | on an index of row numbers the columns never change |
| OpeningRange.RowRunsNeverLookAhead | backend/app/engine/backtest_engine.py:136-284 | a backtest over row numbers, its opening ranges included, does not look ahead |
| OpeningRange.ClockRunsLookAheadIff | backend/app/engine/backtest_engine.py:136-284 | a backtest over an index of times does not look ahead, whatever its strategy, exactly when the range is settled in that sense |
| OpeningRange.SecondDayLeaks | backend/app/engine/indicators.py:52-97 | the second day's opening bar changes the range of the first day's 09:31 bar |
| Backtest.NeverBoth | backend/app/engine/backtest_engine.py:165-175 | after every bar there is an open trade or a pending signal or neither |
| Backtest.TradesComeFromSignals | backend/app/engine/backtest_engine.py:165-247 | every trade was entered at the open of the bar after a signal approved with its quantity, and left at exactly its stop, on a bar that touched it, at its target, on a bar that touched the target and not the stop, or at the last close; its result is the quantity times the move |
| Backtest.TradesAreDisjoint | backend/app/engine/backtest_engine.py:153-297 | trades occupy strictly disjoint bar intervals, and so disjoint times |
| Backtest.StopsNeverLoosen | backend/app/engine/backtest_engine.py:189-205 | while a trade is open a BUY stop never falls and a SELL stop never rises |
| Backtest.TrailingNeverLoses | backend/app/engine/backtest_engine.py:189-238 | with a trail distance no larger than its trigger, a trade that leaves on its trailed stop has gross P&L of at least zero |
| Backtest.LedgerBalances | backend/app/engine/backtest_engine.py:227-297 | the final balance is the initial one plus the gross P&L of all trades, the forced exit included |
| Backtest.EquityIsBalance | backend/app/engine/backtest_engine.py:284 | each point of the equity curve is the balance after its bar |
| BacktestResults.OpenIsUntouched | backend/app/engine/backtest_engine.py:186-225 | a trade still open after a bar had neither its stop, where it stands after that bar, nor its target touched by it |
| BacktestResults.StopIsTightest | backend/app/engine/backtest_engine.py:186-205 | a trade leaves with the tightest of its signal's stop and of those at the trailing distance from the best prices of its bars that reached the trigger |
| BacktestResults.GrantedIsFilled | backend/app/engine/backtest_engine.py:165-175 | a signal granted on one bar is a trade from the next bar's open with the granted quantity |
| BacktestResults.NothingStaysOpen | backend/app/engine/backtest_engine.py:286-297 | the trade open after the last bar, and no other, is closed by force |
| BacktestResults.WindowIsLast201 | backend/app/engine/backtest_engine.py:155 | the strategy sees the last 201 candles up to its bar, or all |
| BacktestResults.AsksIff | backend/app/engine/backtest_engine.py:178-282 | the strategy is heard exactly when no trade is open after the bar's exits and its day is not halted; balance, peak and the day's result are those after the exits; the verdict is counted, a loss limit halts the day, and an approved quantity waits for the next open |
| BacktestResults.CountsAddUp | backend/app/engine/backtest_engine.py:263-274 | every question to the risk engine is counted once |
| BacktestResults.RealisedIsToday | backend/app/engine/backtest_engine.py:178-243 | the realised result the risk engine sees is what the balance gained since the bar's day began |
| BacktestResults.PeakIsHighest | backend/app/engine/backtest_engine.py:240-240 | the peak balance is the highest point of the equity curve |
| BacktestMetrics.MaxDrawdown | backend/app/engine/backtest_engine.py:320-326 | the loop computes the worst drop from the running peak |
| BacktestMetrics.WorstDropIsWorst | backend/app/engine/backtest_engine.py:320-326 | that is an upper bound of the drops of all points, and one of them or zero |
| BacktestMetrics.DrawdownIsLargestPairDrop | backend/app/engine/backtest_engine.py:320-326 | on a curve that is never negative it is the largest drop between any two points in order |
| BacktestMetrics.PeakDropIsLargest | backend/app/engine/backtest_engine.py:320-326 | at one point the drop from the peak covers the drop from an earlier positive point exactly when the point is not negative or the earlier one is the peak |
| BacktestMetrics.NegativeEquityHidesADrop | backend/app/engine/backtest_engine.py:320-326 | a curve below zero where the loop reports less than the largest drop |
| BacktestMetrics.MaxLosingStreak | backend/app/engine/backtest_engine.py:344-352 | the length of the longest contiguous run of losing trades |
| BacktestMetrics.ChargeCosts | backend/app/engine/backtest_engine.py:364-403 | every trade's P&L falls by its own cost, once, and the total is the sum of the costs |
| BacktestMetrics.CostsAreChargedOnce | backend/app/engine/backtest_engine.py:364-403 | after the cost loop the P&L of all trades adds up to final balance less initial balance less total costs |
| BacktestMetrics.CostsAreBounded | backend/app/engine/backtest_engine.py:366-401 | a trade's cost is positive and below 0.12 % of its turnover |
| BacktestMetrics.CostIsLinear | backend/app/engine/backtest_engine.py:364-401 | the cost is 0.0920226 % of the bought and 0.1140226 % of the sold value while brokerage is below its cap of 40, and 47.2 plus 0.0566226 % and 0.0786226 % beyond; a BUY buys at its entry, a SELL at its exit |
| BacktestMetrics.NetIsGrossLessCost | backend/app/engine/backtest_engine.py:227-403 | the reported result of every trade is the quantity times the move less its cost |
| BacktestMetrics.Report | backend/app/engine/backtest_engine.py:299-403 | the whole backtest with its metrics and the ledger after costs |
| StrategyHealth.StrategyHealthMonitor.RecordTrade | backend/app/engine/strategy_health.py:96-123 | the state after a result: window, loss counter, and the latch of the first unhealthy verdict |
| StrategyHealth.StrategyHealthMonitor.RecordTradeAsync | backend/app/engine/strategy_health.py:125-142 | the result is recorded in Redis and appended to the database, or only recorded when the database fails |
| StrategyHealth.StrategyHealthMonitor.IsDisabled | backend/app/engine/strategy_health.py:180-195 | the answer, and the state cleared once a pause has run out |
| StrategyHealth.StrategyHealthMonitor.ReEnable | backend/app/engine/strategy_health.py:245-252 | the flags are cleared, window and counter kept |
| StrategyHealth.StrategyHealthMonitor.Hydrate | backend/app/engine/strategy_health.py:144-178 | every listed strategy has the state of a replay of its last thirty results, the others are untouched |
| StrategyHealth.WindowAndStreak | backend/app/engine/strategy_health.py:96-123 | through re-enables and expired pauses the window is the last thirty results and the counter the losses at the end |
| StrategyHealth.DisabledIffEverUnhealthy | backend/app/engine/strategy_health.py:108-121 | without re-enabling, a strategy is disabled exactly when it was ever found unhealthy |
| StrategyHealth.HydrationIsSound | backend/app/engine/strategy_health.py:144-178 | the replay of the last thirty results has the window and verdict of the uninterrupted run, is disabled only if that run was, and is the same for histories up to thirty |
| StrategyHealth.RebuiltDisabledIff | backend/app/engine/strategy_health.py:256-282 | exactly when a replay ends disabled, in terms of the full history: five losses, a low win rate or a low profit factor at a point where the replay has five, twenty or thirty results |
| StrategyHealth.RebuildForgets | backend/app/engine/strategy_health.py:144-178 | five losses and thirty wins leave the original disabled and the replay enabled |
| StrategyVerdicts.VerdictMeans | backend/app/engine/strategy_health.py:256-285 | a history is unhealthy exactly when its last five results are losses, or at most six of its last twenty are wins, or its last thirty add up to a loss; the reason is the first of these |
| StrategyVerdicts.TradeDisablesIff | backend/app/engine/strategy_health.py:108-121 | a result disables an enabled strategy exactly when its history has become unhealthy, until a day later for five losses and without end otherwise |
| StrategyVerdicts.PauseLastsADay | backend/app/engine/strategy_health.py:180-195 | after five losses a strategy stays disabled whatever it records or is asked for a day, and the first question after it enables it |
| StrategyVerdicts.DisabledUntilEnabled | backend/app/engine/strategy_health.py:180-195 | disabled for another reason it stays so until someone re-enables it |
| StrategyVerdicts.OnlyTradesDisable | backend/app/engine/strategy_health.py:180-195 | neither a question nor a re-enabling disables an enabled strategy |
| PaperTrading.PaperAccount.CloseTrade | backend/app/engine/auto_trader_engine.py:197-233 | a reversal closes the open trade of the opposite direction and credits margin and net result |
| PaperTrading.PaperAccount.OpenTrade | backend/app/engine/auto_trader_engine.py:297-410 | an entry of the batch: checks, margin lock, new trade, or the query that raises |
| PaperTrading.PaperAccount.ExecutePaperTrade | backend/app/workers/autotrader_worker.py:232-277 | an entry of the worker: slot, duplicate and balance checks, margin lock, new trade |
| PaperTrading.PaperTrade.Check | backend/app/engine/paper_monitor.py:143-195 | the monitor's trail and exit of one trade |
| PaperTrading.PaperAccount.CheckPaperTrades | backend/app/engine/paper_monitor.py:135-201 | the monitor's loop closes at the last price and credits margin and gross result |
| PaperTrading.PaperAccount.ProcessBatch | backend/app/engine/auto_trader_engine.py:554-658 | reversals and entries of a batch with counted slots, the slot re-check under the lock and the execution keys with their hour to live |
| PaperLedger.FoundIsMatch | backend/app/engine/auto_trader_engine.py:201-210 | the query for one row finds it, finds none, or raises exactly when there are one, none or several matches |
| PaperLedger.MoneyIsConserved | backend/app/engine/auto_trader_engine.py:215-233 | over any run of reversals, entries, worker entries and monitor passes, balance plus locked margin is the initial balance plus all realised results, and no two open trades share symbol and direction |
| PaperLedger.ClosedIsFinal | backend/app/engine/paper_monitor.py:187-201 | a closed trade never changes again |
| PaperLedger.ReversalConservesIff | backend/app/engine/auto_trader_engine.py:199-233 | a reversal conserves money exactly when the mode is not disabled, or nothing is closed, or margin and result cancel |
| PaperLedger.BatchKeeps | backend/app/engine/auto_trader_engine.py:557-658 | a batch conserves money, never raises, and never takes open positions above the limit or what they were |
| PaperLedger.EntrancesAreSpaced | backend/app/engine/auto_trader_engine.py:622-651 | two entries a batch makes on the same symbol, direction and price are at least an hour apart |
| PaperLedger.OneSidedNeverRaises | backend/app/engine/auto_trader_engine.py:338-346 | the duplicate check meets at most one row once the opposite direction is closed |
| PaperLedger.WorkerOpenKeeps | backend/app/workers/autotrader_worker.py:150-163 | a worker's entry keeps the ledger and leaves at most max_open_positions open |
| PaperResults.BalanceOverRuns | backend/app/engine/paper_monitor.py:192-197 | over any run balance plus a fifth of the open trades' entry value is the initial balance plus all realised results |
| PaperResults.PassSeesEvery | backend/app/engine/paper_monitor.py:135-197 | a pass of the monitor sees every open trade with a price once: it stays open exactly while the price is strictly between its stop, moved first, and its target, and otherwise, or at the end of the day, closes at the price for the quantity times the move |
| PaperResults.TrailsAtMostOnce | backend/app/engine/paper_monitor.py:150-184 | over any run the stop of a trade moves at most once |
| PaperResults.ReversesIff | backend/app/engine/auto_trader_engine.py:197-233 | a signal closes the open trade of its symbol in the other direction exactly when there is one and the price is positive, for the quantity times the move less 40 and 0.05 % of the entry value, and no other trade |
| PaperResults.OpensIff | backend/app/engine/auto_trader_engine.py:297-410 | a batch entry succeeds exactly in paper mode at a positive price for at least one share without an open trade of the symbol and with a fifth of the value in the balance; otherwise nothing changes |
| PaperResults.WorkerOpensIff | backend/app/workers/autotrader_worker.py:232-277 | a worker's entry succeeds exactly at a positive price with a free slot, without an open trade of symbol and direction and with a fifth of the value in the balance, for the given quantity or as many shares as the capital buys, at least one |
| PaperResults.TriesIff | backend/app/engine/auto_trader_engine.py:585-651 | an item of a batch enters exactly when a slot is left by the batch's count and by a fresh one, the lock was acquired, the same signal was not executed within the hour, and an entry is possible; it takes a slot and an hour |
| PaperResults.ItemIs | backend/app/engine/auto_trader_engine.py:557-584 | an item with a signal first reverses, which frees a slot, and then tries to enter |

## Left out

- MtfEngine: timestamps are whole milliseconds since the epoch, not `datetime` values; the session's date arithmetic is not part of this model.
- MtfResults.CandlesAreDirectFolds: for runs whose merges are exact; `MtfTheorems.CascadeRefinesIff` says that the refinement holds for no others.
- CandleAggregator: session hours, staleness checks, unknown timestamp types, and the publishing of candles.
- MarketData.MarketDataCache: the dictionaries of last prices, quotes and price history, which only store what they are given.
- ExecutionManager: signature checks, database failures, commits, logging and alerts; handlers are atomic, so a webhook running during a protection retry is not modelled.
- ExecutionManager.place_order: it reads an undefined `kwargs`; trades start registered and pending.
- ExecutionManager.Manager.ReconcileOpenTrade: the branches about entry orders and the position reconciler change status or quantity without maintaining the legs.
- LiveCancellation.OneCancelsOther: "cancelled" is the enqueueing of the id; the queue's retries are not part of this model, nor are the callers of a market close, which read open trades or bring a trade of their own.
- LiveOrderTheorems.LegsMatchLastFill: assumes that the broker never hands out an id twice and that partial fills concern entry orders; `FillsMatchExactly` shows what happens otherwise.
- Delivery: the retry counter's expiry after a day; the auto-trader's own 60 s staleness check, which only removes passes; the delivery of several messages in one read.
- Delivery.ExecutesAtMostOnce: one shared clock; the bound on a handler's way to the gate is an assumption, which `Delivery.AtMostOnceIff` shows to be the weakest.
- RiskRules.RiskEngine.Validate: the rules about errors, reward, regime, losses, drawdown, cooldown, liquidity, spread, time and sectors are single thresholds over inputs from elsewhere and enter as arbitrary verdicts; the percentage fields of a decision.
- RiskRules.RowsHoldPassed: for the rows of one engine; `SharedRowIsLastWriters` is what several workers make of them.
- RiskRules: `hydrate_signal_counts`, which is never called; a day's row that cannot be written.
- Reservations: failures of Redis inside the reservation functions, which are logged and treated as nothing reserved.
- RiskAdmission: the configuration and its balance are the worker's snapshot, equal for all workers; open trades are read once a section and are arbitrary.
- RiskAdmission.ReservationsAreCapped: up to the rounding of one amount, which the code itself causes; for sections that run within their lease.
- Backtest.NoLookahead: the indicators of a bar are part of it; of the columns computed over the whole frame beforehand `OpeningRange` models the opening range; the others are running averages and sums.
- Backtest: Sharpe ratio, win rates, degradation and Monte Carlo runs; the trail of the live monitor is a different one.
- StrategyHealth: reason texts carry the counts, which may differ after a rebuild; the metrics snapshot; order of rows with equal timestamps.
- PaperLedger: rounding of the balance column to two places; manual trades and resets through the API; live routes; close reasons, times and logs.
- PaperTrading.PaperAccount.CloseTrade: the live route, which does the same to the table of live trades and leaves the paper balance alone.
- PaperTrading.PaperAccount.OpenTrade: the live route, which places an order with the broker instead of a paper trade.
- PaperTrading.PaperAccount.ProcessBatch: live routes, the halt flag that stops a batch before it begins, and rolled-back work after an exception.
- Frontend, HTTP, WebSocket and Protobuf clients, Kafka, alerts, metrics, tracing, authentication, migrations, and the intelligence filters: input and output, or single thresholds.
