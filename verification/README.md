# Trading system verification model

A Dafny 4.11 model of a paper-trading system and proofs of what its stateful parts promise: streaming
indicators against their definitions, a virtual-trade protocol between a publisher and an idempotent
consumer, the worker's execution ledger and signal consumer, the trading-session clock, the candle store,
the recovery pipeline (planner, candidate, merge), the admission-controlled event loop, shadow-equity
repair, the portfolio manager's cycle and its reconciliation against the worker, and swing levels.

`dafny verify dfyconfig.toml` checks everything.

## How the model reads

Each component is one module. What the program changes step by step is a class or a method with the same
branches and the same order of writes, proved against a function of the old state; the properties are
lemmas about those functions, over all inputs and all runs.

- What an operation does to its rows is also spelled out column by column, without the functions it is built
  from: `V5Readings`, `VirtualEffects`, `VirtualTrips`, `LedgerEffects`, `SignalEffects`, `EquityRows`,
  `RecoveryEntries`, `RecoveryRefusals`, `RecoveryTrim`, `EventAccount`, `CandleRows`, `ShadowRows`,
  `PortfolioCycle`, `PmSignals` and `RollingReadings`.
- Floats are `real`, with the program's literal tolerances; instants are integer ticks (microseconds) since
  the epoch in UTC.
- Hashed and uuid5 ids are injective datatypes; random ids, fills, faults, clocks and prices are parameters.
- SQL tables are sequences in row order or maps by primary key; a transaction is a method that restores what
  it saved when it fails.
- Concurrency is a state machine over the segments between two awaits; a run is any sequence of steps.
- Symbols are strings in the worker and their alphabetical ranks where the program iterates in sorted order.

## What the proofs found

- The two V5 forms differ exactly when the history is as long as the range window
  (`indicators/pandas/v5.py:42` against `indicators/streaming/v5.py:66`).
- The virtual-ledger consumer reads nothing new while anything is pending
  (`worker/app/virtual_trade_ledger.py:81-92`). Its recovery can end exactly if every pending message
  validates and is a known id, an OPEN, or a readable CLOSE whose readable OPEN is recorded or pending too; one
  malformed message or one CLOSE without its OPEN stops it for ever. So can a read count smaller than the
  number pending: exactly when each of the first that many messages fails, a turn changes nothing.
- After a lost pipeline reply, repeating the same rebalance is harmless, but the caller logs the failure and
  goes on (`alphas/runner/strategies/cross_sectional/strategy.py:772-785`). A CLOSE of the next rebalance is
  then refused exactly if some holding has a price in both rebalances, and publisher and consumer come apart
  unless the lost one had nothing to publish.
- After rebalances at rising candles, one more at the last candle always replays. It leaves publisher and
  consumer apart exactly if it opens a symbol that was opened at that candle before.
- A delivered close whose second write fails is committed half done by the inner handler of the signal
  transaction. A price-check close that fails leaves its first write in an open implicit transaction
  (`worker/app/db.py:134`, `worker/app/db.py:283-302`): the next new signal is then left pending although nothing
  fails in it, and rolls that write back, while the next close that commits stores it. An id's stored quantity is
  conserved over a run exactly if none of its committed closes is torn.
- The recovery ledger never misses or mistakes a position, but it cannot be applied exactly if a position it
  closes has its trade already (`scripts/rebalance_recovery/candidate.py:79`), which a torn close leaves behind.
- `WorkerMetrics.reconciles` holds exactly while no delivery is counted and then fails to commit or ack, or
  fails while its error is being marked.
- A malformed candle field leaves the six lists of different lengths exactly when its time is new. They are
  never even again, and every further message for the newest candle raises.
- A stored side that is LONG only after upper-casing is filled as a long but booked as a short.
- The portfolio manager cannot read weights from the snapshots the worker publishes, so same-side positions
  are never resized.
- In shadow-equity repair the comparison of position sets never fires and the second tolerance test is
  implied by the first.

## Model

| member | source | states |
|---|---|---|
| V5Indicators.StreamMatchesBatch | indicators/streaming/v5.py:26-93 | any history fed candle by candle and the batch function on the whole of it give the same answer, `None` included, unless the history is exactly as long as the range window |
| V5Indicators.AgreementIsExact | indicators/pandas/v5.py:40-43 | the two definitions differ if and only if the history is exactly `atr_len` long and otherwise ready for an answer; then the stream answers and the batch returns `None` |
| V5Indicators.DisagreementAtRangeWindow | indicators/pandas/v5.py:40-43 | a concrete history of twelve candles where the two forms differ |
| V5Indicators.ShortRangeWindowAlwaysAgrees | indicators/pandas/v5.py:60-62 | a range window shorter than the warm-up leaves no case of disagreement |
| V5Readings.ReadingMeans | indicators/streaming/v5.py:26-93 | every reading of either form, from the candles alone: each normalised slope is the newest move of the average over the largest of the last `norm_window` moves, the range is the mean of the last true ranges, the median is the middle of the sorted window; and a reading is withheld only for a short history, prices that stand still or no range |
| V5Readings.AcolMeans | indicators/pandas/v5.py:66-78 | the slope over the largest of its window in size, none exactly when that is at most 1e-12 |
| V5Readings.NormalisedIsAtMostOne | indicators/streaming/v5.py:46-48 | no normalised slope exceeds one in size |
| V5Readings.AverageRangeMeans | indicators/pandas/v5.py:40-47 | the mean of ranges each of which is the largest of the candle's height and its two distances from the close before |
| V5Readings.MedianMeans | indicators/pandas/v5.py:30-37 | the middle of the window in ascending order, or the mean of the two in the middle |
| V5Indicators.SymbolState.Append | indicators/streaming/v5.py:26-93 | the answer to a candle depends on the whole history alone, and the running state keeps summarising it |
| V5Indicators.Advance | indicators/streaming/v5.py:32-93 | one step of every running part (average, slope window, range window, sorted closes, last slope) keeps each equal to its definition on the longer history |
| V5Indicators.NextSma | indicators/streaming/v5.py:32-36 | the running sum and the list of averages are those of the definition |
| V5Indicators.NextSlope | indicators/streaming/v5.py:38-48 | the slope window holds the last slopes of the history and the normalised slope is the definition's |
| V5Indicators.NextRange | indicators/streaming/v5.py:50-54 | the running range sum is the sum of the window of true ranges |
| V5Indicators.NextMedianWindow | indicators/streaming/v5.py:56-60 | after insertion and removal the list is the sorted window of closes |
| V5Indicators.MedianWindowSlides | indicators/streaming/v5.py:56-60 | inserting the newcomer and deleting the element that leaves gives the sorted next window |
| V5Indicators.SlopeWindowGrows | indicators/streaming/v5.py:39-45 | one more close leaves the slope window alone or slides it by the new slope |
| V5Indicators.StreamTailByParts | indicators/streaming/v5.py:62-93 | the answer defined on the history can be read off the running parts |
| V5Indicators.ComputeTailIndicators | indicators/pandas/v5.py:50-94 | the batch loops over prefix sums compute the definition on the history |
| V5Indicators.PrefixSums | indicators/pandas/v5.py:6-12 | entry i is the sum of the first i values |
| V5Indicators.WindowAvgIsSma | indicators/pandas/v5.py:15-19 | a difference of running totals over the period is the window average, absent when the window does not fit |
| V5Indicators.AdiffIsSlope | indicators/pandas/v5.py:22-27 | the difference of two window averages five candles apart is the slope |
| V5Indicators.SlopesBetween | indicators/pandas/v5.py:67-72 | the inner loop collects exactly the slopes of its range |
| V5Indicators.NormalisedSlope | indicators/pandas/v5.py:66-78 | each of the two normalised slopes is the definition at its candle |
| V5Indicators.AtrTail | indicators/pandas/v5.py:40-47 | the average true range of the window, absent for a history not longer than it |
| Sorting.SortedFormIsUnique | indicators/streaming/v5.py:22 | a multiset has one sorted form, so the incrementally sorted list is the sorted window |
| Sorting.SortedSlides | indicators/streaming/v5.py:56-60 | insort then delete-by-value turns one sorted window into the next |
| Sorting.SortedIsPermutation | indicators/pandas/v5.py:33 | the sorted window has exactly the window's elements |
| RollingIndicators.RollingExtreme.Update | indicators/streaming/extreme.py:16-26 | popping, pushing and expiring keep the deque covering the last d samples; NaN changes nothing |
| RollingIndicators.RollingExtreme.Value | indicators/streaming/extreme.py:28-29 | present once d samples arrived, and then the maximum (or minimum) of the last d |
| RollingIndicators.PushCovers | indicators/streaming/extreme.py:20-22 | replacing the beaten entries by the new sample keeps the deque a cover of the whole window |
| RollingIndicators.ExpireCovers | indicators/streaming/extreme.py:23-24 | dropping expired entries leaves a cover of the shorter window |
| RollingIndicators.FrontIsExtreme | indicators/streaming/extreme.py:28-29 | the front of a covering deque is the extremum of the window |
| RollingIndicators.WeightedSumSlides | indicators/streaming/decay.py:21-26 | subtracting the plain sum and adding the newest at full weight gives the weighted sum of the next window |
| RollingIndicators.DecayStep | indicators/streaming/decay.py:17-32 | window, sum and weighted sum after one more sample, while filling and when full |
| RollingIndicators.DecayLinear.Update | indicators/streaming/decay.py:17-32 | `S` and `WS` stay the sum and the linearly weighted sum of the window; NaN changes nothing |
| RollingIndicators.DecayLinear.Value | indicators/streaming/decay.py:34-35 | present once the window is full, and then a weighted average: the exact quotient, within any bounds of the window |
| RollingIndicators.NormIsTriangular | indicators/streaming/decay.py:15 | the weights 1..d sum to d(d+1)/2 |
| RollingIndicators.WeightedSumBounds | indicators/streaming/decay.py:34-35 | a weighted sum lies between those of constant windows at its bounds |
| RollingIndicators.RollingMoments.Update | indicators/streaming/moments.py:15-28 | the three power sums stay those of the window; NaN changes nothing |
| RollingIndicators.RollingMoments.Mean | indicators/streaming/moments.py:30-32 | the mean of the window, absent when it is empty |
| RollingIndicators.RollingMoments.Variance | indicators/streaming/moments.py:34-40 | the square of `std` is the centred sample variance of the window, absent for a constant window or one of fewer than two samples |
| RollingIndicators.RollingMoments.CentralMoments | indicators/streaming/moments.py:46-53 | the second and third moments behind `skew` are the centred moments of the window, with the code's threshold |
| RollingIndicators.CentredSumsFromPowers | indicators/streaming/moments.py:39-52 | the raw power-sum formulas are the centred sums about any point |
| RollingIndicators.CentredSquares | indicators/streaming/moments.py:39-40 | centred squares never sum below zero, and to zero exactly when all samples equal the centre |
| RollingIndicators.VarianceIsPositive | indicators/streaming/moments.py:40 | a variance that is given is positive |
| RollingIndicators.VarianceFromPowers | indicators/streaming/moments.py:38-40 | the code's variance formula with its guard is the definition |
| RollingIndicators.MomentsAreCentred | indicators/streaming/moments.py:50-52 | both moment formulas are centred sums over the count |
| RollingReadings.ExtremeMeans | indicators/streaming/extreme.py:16-29 | the extremum is a sample of the window that no other exceeds, or undercuts |
| RollingReadings.WeightedMeans | indicators/streaming/decay.py:17-35 | the average times d(d+1)/2 is the sum of the samples, the oldest once and the newest d times |
| RollingReadings.MeanMeans | indicators/streaming/moments.py:30-32 | the mean is the sum over the count |
| RollingReadings.VarianceMeans | indicators/streaming/moments.py:34-40 | the variance is the squared deviations from the mean over one less than the count; none for fewer than two samples or no deviation |
| RollingReadings.MomentsMean | indicators/streaming/moments.py:46-53 | the two moments are the averages of squared and cubed deviations from the mean; none for fewer than three samples or a second moment of at most 1e-12 |
| SessionClock.ActiveSessionSeconds | worker/app/db.py:13-43 | the loop with its uneven steps terminates and counts exactly the ticks inside weekday sessions |
| SessionClock.SessionTicksSplit | worker/app/db.py:13-43 | the count is additive over a split interval |
| SessionClock.SessionTicksOfDay | worker/app/db.py:10 | a weekday holds 16200 seconds of session, a weekend day none |
| SessionClock.InSessionIsWeekly | worker/app/db.py:24-30 | the session pattern repeats every week |
| SessionClock.WeekHolds81000Seconds | worker/app/db.py:10-43 | any seven days hold 81000 seconds, from whatever instant |
| SessionClock.NextWeekdayMidnight | worker/app/db.py:46-49 | the jump over a weekend goes forward and skips no session tick |
| SessionClock.NextSessionStart | worker/app/db.py:52-54 | the jump to the next minute goes forward and stays within one minute |
| SessionClock.WindowIsIn | worker/app/db.py:28-40 | from inside a window to its end every tick is in session |
| SessionClock.TradeDurationHours | worker/app/db.py:57-66 | session hours for the VN exchange, wall-clock hours elsewhere, never negative and never more than wall clock |
| SessionClock.DurationIsAdditive | worker/app/db.py:57-66 | splitting a holding period neither gains nor loses session time |
| SessionClock.SessionMeans | worker/app/db.py:8-10 | the session predicate spelled out: every day but Saturday and Sunday, 01:45-04:30 and 06:00-07:45 UTC |
| SessionClock.DurationMeans | worker/app/db.py:61-76 | hours are ticks in session over 3600 seconds on the VN exchange and elapsed ticks elsewhere, none when the period ends before it begins |
| SessionClock.MidnightIsMonday | worker/app/db.py:46-52 | the jump over a weekend lands on the first midnight of the next week |
| VirtualConsumer.ScheduleDoesNotMatter | worker/app/virtual_trade_ledger.py:81-107 | any schedule of deliveries, failed attempts and lost acks that ends with every message acked leaves the tables of applying the log once in order |
| VirtualConsumer.AckedRunsAgree | worker/app/virtual_trade_ledger.py:81-107 | any two schedules that end with every message acked leave the same tables, also for a log that could not be applied in order |
| VirtualTimeless.ScheduleDoesNotMatterUpToTimes | worker/app/virtual_trade_ledger.py:81-107 | the same when copies of an event carry different timestamps: up to the recorded times the tables are those of applying the log in order |
| VirtualTimeless.AckedRunsAgreeUpToTimes | worker/app/virtual_trade_ledger.py:81-107 | any two fully acked schedules of such a log agree up to the recorded times |
| VirtualTimeless.RunErases | worker/app/db.py:525-646 | forgetting the readable times of messages and rows commutes with every run of the consumer, so times decide nothing but times |
| VirtualConsumer.AckedOnlyIfRecorded | worker/app/virtual_trade_ledger.py:93-107 | in every run an acked message has its event recorded, and no delivered message is lost or held twice |
| VirtualConsumer.ReplayableIffOpensComeFirst | worker/app/db.py:525-646 | a log can be applied in order if and only if every CLOSE follows the OPEN of its position, both with readable timestamps |
| VirtualConsumer.PoisonedRecoveryReadsNothingNew | worker/app/virtual_trade_ledger.py:81-92 | once a pending message fails validation for good, recovery never ends and no new message is read again |
| VirtualRecovery.DrainsIff | worker/app/virtual_trade_ledger.py:81-92 | in every state of recovery some schedule empties the pending list if and only if each pending message validates and is a known id, an OPEN, or a readable CLOSE whose readable OPEN is recorded or itself pending |
| VirtualRecovery.UndrainedReadsNothingNew | worker/app/virtual_trade_ledger.py:83-92 | if it cannot be emptied, no schedule ever reads a new message |
| VirtualRecovery.UndrainableStays | worker/app/virtual_trade_ledger.py:93-107 | an undrainable message stays pending in every run, and only messages that could be drained are recorded meanwhile |
| VirtualRecovery.LogDrainsIff | worker/app/virtual_trade_ledger.py:81-92 | a stream read in full and then dropped by the connection can be recovered if and only if every message validates and every CLOSE is readable and has a readable OPEN somewhere in the stream |
| VirtualRecovery.BrokenMessageStops | worker/app/virtual_trade_ledger.py:18-22 | the run that reaches it, and that no schedule gets past one message that is not an object |
| VirtualRecovery.OrphanCloseStops | worker/app/db.py:561-570 | the same for a CLOSE that passes every check but whose OPEN never comes |
| VirtualRecovery.StarvedIff | worker/app/virtual_trade_ledger.py:83-91 | a turn of recovery in fair weather, and every later one, changes nothing if and only if each of the first read-count pending messages fails |
| VirtualRecovery.EnoughCountDrains | worker/app/virtual_trade_ledger.py:83-107 | with a read count of at least the number pending, recovery in fair weather drains within that many turns if and only if it can drain at all |
| VirtualRecovery.SmallCountStarves | worker/app/virtual_trade_ledger.py:83-91 | with one message per read, a CLOSE queued before its OPEN stops recovery for ever although it could drain |
| VirtualRecovery.RunsAreRecovering | worker/app/virtual_trade_ledger.py:81-107 | every run over a distinct log that is in recovery meets the conditions of these results |
| VirtualDraining.DrainsIffUpToTimes | worker/app/virtual_trade_ledger.py:81-92 | the same exact condition of recovery when rebalances are repeated at later times, so that copies of an event differ in their timestamps |
| VirtualDraining.LogDrainsIffUpToTimes | worker/app/virtual_trade_ledger.py:81-92 | likewise read off such a stream |
| VirtualDraining.UndrainedReadsNothingNewUpToTimes | worker/app/virtual_trade_ledger.py:83-92 | likewise, if it cannot be emptied, no schedule ever reads a new message |
| VirtualDraining.EnoughCountDrainsUpToTimes | worker/app/virtual_trade_ledger.py:83-107 | likewise a read count of at least the number pending drains whatever can be drained |
| VirtualDraining.RunsAreRecoveringUpToTimes | worker/app/virtual_trade_ledger.py:81-107 | every run in recovery over a log whose ids name one event each up to times meets the conditions of these results |
| VirtualConsumer.RunIsExplained | worker/app/virtual_trade_ledger.py:81-107 | in every run the tables are faithful to the log and every record comes from it |
| VirtualConsumer.Consumer.HandleRow | worker/app/virtual_trade_ledger.py:94-107 | one row is processed and acked as one enabled step of the machine; a failure skips the ack, and a row that cannot be applied changes nothing in any weather |
| VirtualConsumer.Consumer.HandleRows | worker/app/virtual_trade_ledger.py:93-107 | the rows of a read as steps of the machine, up to a broken connection; in fair weather each row is tried once, in order |
| VirtualConsumer.PendingRows | worker/app/virtual_trade_ledger.py:83-89 | a recovery read returns the first read-count pending rows in stream order, and none only if none is pending |
| VirtualConsumer.Consumer.ReadRows | worker/app/virtual_trade_ledger.py:83-92 | a read takes pending rows during recovery and new rows otherwise, as steps of the machine |
| VirtualConsumer.Consumer.Poll | worker/app/virtual_trade_ledger.py:82-107 | one turn of the inner loop is a run of the machine, whatever fails in it; in fair weather a recovery turn tries the first read-count pending rows in order, and if all of those fail it changes nothing in any weather |
| VirtualLedger.Database.ApplyVirtualTradeEvent | worker/app/db.py:525-646 | the transaction commits the whole effect of an event or, on any fault or check, nothing |
| VirtualEffects.ValidateMeans | worker/app/virtual_trade_ledger.py:18-46 | a message is accepted exactly if it is an object in virtual mode with every required field, a known type and side and positive numbers, and then as the event its fields say |
| VirtualEffects.ApplyMeans | worker/app/db.py:525-646 | what an event does to the three tables: a known id nothing; an OPEN its record and, unless one is there, its position; a CLOSE, with its position, readable times and an unused trade id, its record and the trade with its profit and percentage |
| VirtualEffects.AckedIsRecorded | worker/app/virtual_trade_ledger.py:91-107 | in every run each delivered message is pending or acked and not both, and an acked one was acceptable and is recorded |
| VirtualLedger.ApplyStaysFaithful | worker/app/db.py:525-646 | every applied event keeps positions and trades equal to what the recorded events imply, in any order |
| VirtualLedger.AttemptSucceeds | worker/app/db.py:544-646 | an attempt succeeds exactly for a known id, an OPEN, or a CLOSE whose OPEN is recorded with readable timestamps |
| VirtualLedger.FaithfulIsUnique | worker/app/db.py:525-646 | faithful tables with the same recorded events are equal |
| VirtualLedger.ReplayIsFaithful | worker/app/db.py:525-646 | replaying a log leaves faithful tables that record exactly its events |
| VirtualLedger.ReplayOfKnown | worker/app/db.py:532-538 | redelivering known ids changes nothing |
| VirtualLedger.MessageRoundTrip | worker/app/virtual_trade_ledger.py:18-45 | validation accepts a sent event unchanged if and only if price and quantity are positive |
| VirtualLedger.VirtualReturnIsPriceMove | worker/app/db.py:573-576 | a virtual trade's percentage is the price move between its OPEN and CLOSE, whatever the size |
| VirtualPublisher.StreamRebuildsBook | alphas/runner/virtual_trade_ledger.py:107-216 | for rebalances at rising candles and positive capital every event is new and valid, every CLOSE finds its position, and replay gives exactly the publisher's book |
| VirtualPublisher.AnyDeliveryMirrorsTheBook | alphas/runner/virtual_trade_ledger.py:107-216 | the same through the consumer: whatever the delivery schedule, once all is acked the tables hold the book |
| VirtualFeeds.EveryBookIsMirrored | alphas/runner/virtual_trade_ledger.py:107-216 | many publishers on one stream, interleaved in any way, each repeating rebalances at any later times: whatever the delivery schedule, once all is acked the tables hold every publisher's current book, up to the recorded times |
| VirtualFeeds.InterleavingRebuildsBooks | alphas/runner/virtual_trade_ledger.py:107-216 | such a stream replays in order and leaves every publisher's book, up to times |
| VirtualFeeds.ReplayInParts | worker/app/db.py:525-646 | an interleaving replays if every publisher's events do, and each publisher's part of the tables is what its own events alone leave |
| VirtualFeeds.ApplyInPart | worker/app/db.py:532-646 | an event succeeds or fails by its own publisher's part and changes no other |
| VirtualFeeds.FeedErases | alphas/runner/virtual_trade_ledger.py:118-216 | up to times, a feed with repeated rebalances leaves the book, tables and events of the feed without them |
| VirtualFeeds.InterleavingIsDistinct | alphas/runner/virtual_trade_ledger.py:16-17 | up to times, ids of the interleaved stream name one event each |
| VirtualPublisher.RebalanceIsMirrored | alphas/runner/virtual_trade_ledger.py:118-216 | one rebalance at a fresh candle takes mirrored tables to tables that mirror the next book |
| VirtualTrips.RebalanceMoves | alphas/runner/virtual_trade_ledger.py:108-225 | the three tables after a rebalance, row by row: each priced holding is gone from the positions and is a trade from its entry to the price now, with its profit, percentage, reason and times; each wanted symbol is a position at its price with its share of the capital; their events are recorded; and no other row moves |
| VirtualTrips.RunMoves | alphas/runner/virtual_trade_ledger.py:108-225 | the same of every rebalance of a run with rising candles |
| VirtualTrips.EveryTradeIsATrip | alphas/runner/virtual_trade_ledger.py:122-154 | every trade a run adds is a holding of some rebalance's book, from its entry to that rebalance's price, and no earlier trade changes |
| VirtualPublisher.RepeatAfterLostReply | alphas/runner/virtual_trade_ledger.py:137-189 | repeating the rebalance from the same book, also at a later clock time, publishes only known ids and changes nothing |
| VirtualPublisher.StaleBookIsRefused | alphas/runner/virtual_trade_ledger.py:205-216 | after a lost reply, the CLOSE that the stale book derives for a holding priced in the lost rebalance is refused, its position being gone |
| VirtualDivergence.StaleBookIff | alphas/runner/virtual_trade_ledger.py:122-136 | for every mirrored book: going on from it after a lost reply replays if and only if no holding has a price both in the lost rebalance and in the next one |
| VirtualDivergence.StaleBookMirrorsIff | alphas/runner/virtual_trade_ledger.py:205-216 | and the tables then mirror the next book if and only if the lost rebalance had nothing to close and nothing to open |
| VirtualDivergence.IdleIff | alphas/runner/virtual_trade_ledger.py:122-203 | a rebalance publishes no event if and only if no holding is priced and no weighted symbol is |
| VirtualDivergence.LostReplyStopsTheConsumer | alphas/runner/virtual_trade_ledger.py:122-154 | an instance: three equal rebalances in one symbol, the second reply lost, and the third cannot be applied |
| VirtualDivergence.ForgottenBookIff | alphas/runner/virtual_trade_ledger.py:42-95 | a publisher that starts without its state at a new candle always replays, and mirrors its book if and only if nothing was held |
| VirtualPublisher.SameCandleDiverges | alphas/runner/virtual_trade_ledger.py:161-163 | an instance: retargeting a one-symbol book to its symbol at the candle that opened it leaves book and tables different |
| VirtualDivergence.SameCandleIff | alphas/runner/virtual_trade_ledger.py:156-203 | for every mirrored book whose holdings have no CLOSE at the candle: the rebalance always replays, and the tables mirror the next book if and only if no weighted and priced symbol has its OPEN for that candle recorded already |
| VirtualDivergence.RepeatedCandleIff | alphas/runner/virtual_trade_ledger.py:107-216 | after any run at rising candles, one more rebalance at the last candle leaves the tables mirroring the book if and only if it reopens no symbol that the run's last candle opened |
| VirtualDivergence.RunIsRooted | alphas/runner/virtual_trade_ledger.py:156-203 | in every run, each open or closed position of the publisher has its OPEN recorded |
| VirtualDivergence.NextBookIs | alphas/runner/virtual_trade_ledger.py:118-203 | the next book holds exactly the holdings without a price and the newly wanted symbols, each with its stated content |
| VirtualPublisher.HoldingHasItsNotional | alphas/runner/virtual_trade_ledger.py:170-183 | a new holding is worth its weight's share of the capital, on the weight's side |
| VirtualPublisher.Publisher.Rebalance | alphas/runner/virtual_trade_ledger.py:107-216 | stream, stored state and in-memory book after a rebalance, for each outcome of the pipeline |
| VirtualPublisher.Publisher.constructor | alphas/runner/virtual_trade_ledger.py:28-105 | a readable state is loaded; otherwise the target book is opened as a first rebalance, and a failure of that leaves no positions and the stream as the pipeline left it |
| VirtualPublisher.Publisher.CloseLoop | alphas/runner/virtual_trade_ledger.py:122-154 | the CLOSE events of the priced holdings in symbol order, and the retained rest |
| VirtualPublisher.Publisher.OpenLoop | alphas/runner/virtual_trade_ledger.py:156-203 | the OPEN events in symbol order and the next book |
| VirtualPublisher.ReplayOfCloses | alphas/runner/virtual_trade_ledger.py:122-154 | every CLOSE of a rebalance finds its own position |
| VirtualPublisher.ReplayOfOpens | alphas/runner/virtual_trade_ledger.py:156-203 | every OPEN of a rebalance is new to the consumer |
| VirtualPublisher.FreshLogIsDistinct | alphas/runner/virtual_trade_ledger.py:16-17 | a published log opens and closes each position id at most once, under distinct event ids |
| WorkerConservation.QuantityIsConserved | worker/app/db.py:434-506 | over every run and for every id: opened quantity = open remainder + legs + dust; dust is at most 1e-12 over the whole life and zero until the full close |
| WorkerConservation.CloseMovesQty | worker/app/db.py:434-506 | one close moves quantity from the position to a leg and drops at most 1e-12, only when closing in full |
| WorkerConservation.StepMovesQty | worker/app/executor.py:46-178 | the same balance for every operation, refused ones included |
| WorkerConservation.NeverTwoPositions | worker/app/executor.py:49-63 | with the reject policy an alpha whose signals never opt in holds at most one position per symbol in every run, whatever the other alphas do |
| WorkerConservation.StopNeverMovesAgainst | worker/app/executor.py:106-121 | over the life of a position in any run of operations, a stop that is set never moves against it |
| SignalHistory.ConsumerStopNeverMovesAgainst | worker/app/executor.py:106-121 | the same over every run of the signal consumer as its connection sees it: redeliveries, failures, prunings, torn closes, price-check closes and rollbacks included |
| WorkerConservation.StepTightens | worker/app/executor.py:101-123 | one operation keeps the position's identity and may only tighten its stop |
| WorkerConservation.NoHitSurvivesAPass | worker/app/executor.py:213-305 | after a finished pass no open position with quantity has its stop or target reached at the pass's quotes, whatever fills the closes were given |
| WorkerConservation.HitsAreSwept | worker/app/executor.py:213-305 | a pass only removes rows, and removes every hit row it saw, whatever the fills |
| WorkerLedger.Database.ClosePosition | worker/app/db.py:425-506 | the tables after a close, and after a failure of either of its two writes |
| WorkerLedger.Database.ProcessOpen | worker/app/executor.py:46-99 | the tables after an open; a refusal or fault changes nothing |
| WorkerLedger.Database.ProcessModify | worker/app/executor.py:101-123 | the tables after a modify, which writes for a stop, a target or metadata; a stop against the position is refused |
| WorkerLedger.Database.ProcessClose | worker/app/executor.py:140-178 | the quantity checks precede every write; a torn close leaves the leg without the position change |
| WorkerLedger.Database.CheckTpslHits | worker/app/executor.py:213-305 | the pass over positions, stops and targets as a function of tables, quotes and fills; after an error the tables are those of the pass up to the row that failed |
| LedgerEffects.OpenMeans | worker/app/executor.py:46-99 | an open is refused exactly for a second position that the policy rejects or a taken id; otherwise it appends one row with the signal's terms at the fill, or at the entry with the slip against it |
| LedgerEffects.ModifyMeans | worker/app/executor.py:101-123 | a modify sets the target and stop it names on its row and nothing else, unless the stop would move against the position |
| LedgerEffects.CloseMeans | worker/app/db.py:425-506 | a close takes the smaller of the open quantity and the one asked for: the leg with its profit after a fee on both fills, and the row removed or reduced; refused exactly for a taken trade id |
| LedgerEffects.CloseSignalMeans | worker/app/executor.py:140-178 | a close by signal: its three refusals, its exit price and the rows it leaves |
| LedgerEffects.PassMeans | worker/app/executor.py:213-305 | a pass, as far as it gets: the positions whose target or stop is reached at their quotes are gone and are trades, for the target before the stop and at their fills; no other row moves and no other trade is new |
| EquityMarks.CloseAtMarkKeepsEquity | worker/app/db.py:444-452 | closing any admissible part at the mark leaves capital + realised + unrealised unchanged, exactly up to the dropped dust |
| EquityMarks.RunAtMarkKeepsEquity | worker/app/equity_snapshots.py:347-351 | the same over every run of closes at the marks, for every alpha |
| EquityMarks.LegsNetToOneClose | worker/app/db.py:444-452 | legs of one side, entry and fee net what one close of the total at the quantity-weighted exit would |
| PositionLife.LifeIsLegs | worker/app/db.py:434-506 | over any run of operations, from any moment a position is open until it is closed: every trade booked for it is a leg at the side, entry price and fee rate it had then, and the legs' quantities add up to what was booked |
| PositionLife.LifeNetsToOneClose | worker/app/db.py:444-452 | so whatever partial closes, stops and modifies came between, what the position earned is the pnl of one close of everything closed at the quantity-weighted exit price |
| PositionLife.StepBooksLeg | worker/app/executor.py:46-178 | one operation books at most one trade, a leg of the open position or of another one, and leaves the position's side, entry and fee rate |
| EquityMarks.MarkIsLegPnl | worker/app/equity_snapshots.py:189-201 | the snapshot's mark is what the ledger would book for a full close at that price |
| EquityMarks.LegPnlIsCashFlow | worker/app/db.py:444-452 | net pnl is sale proceeds less purchase cost, each after its fee, for longs and shorts |
| EquityMarks.TripAtOnePrice | worker/app/fill.py:6-14 | opening and closing at one price costs the slip twice; a side that is LONG only after upper-casing gains it instead |
| EquityMarks.UnrealisedByAlpha | worker/app/equity_snapshots.py:301-312 | the accumulated map is the sum of the marks of each alpha's priced positions, and has exactly the alphas with one; rows without a usable quantity or entry price count as nothing |
| EquityMarks.RealisedByAlpha | worker/app/equity_snapshots.py:203-208 | the realised map is the sum of each alpha's trade pnl, and has exactly the alphas that traded |
| EquityMarks.SnapshotOnce | worker/app/equity_snapshots.py:286-359 | exactly one row for each alpha that is registered, has a trade or holds a markable priced position, and is not a shadow sleeve; each row carries capital + realised + unrealised of its markable positions; and the total row |
| EquityMarks.TotalAddsUp | worker/app/equity_snapshots.py:339-351 | the total balance is the alphas' capital plus total realised plus total unrealised |
| EquityRows.SnapshotMeans | worker/app/equity_snapshots.py:339-351 | every row of a snapshot says what its alpha's rows come to: its capital or ten thousand, what its trades netted and what its priced positions would net after fees; and no alpha has two |
| EquityRows.AlphasListed | worker/app/equity_snapshots.py:329-335 | which alphas count as having traded or holding a priced position |
| EquityRows.SleevesMean | worker/app/equity_snapshots.py:361-385 | every sleeve's row: its published value and what its positions gained since, at the prices of both times |
| EquityMarks.SnapshotSleeves | worker/app/equity_snapshots.py:361-385 | one row per published sleeve: its published value moved on to live prices, and unrealised as what is neither capital nor realised |
| EquityMarks.MarkSleeve | worker/app/equity_snapshots.py:250-284 | the published value plus the price move of the sleeve's markable positions priced both then and now |
| EquityMarks.SleeveMovesWithPrices | worker/app/equity_snapshots.py:250-284 | between two snapshots of one published value a sleeve moves by what prices moved its positions, wherever it was anchored |
| SignalConsumer.AtMostOnce | worker/app/main.py:155-166 | without pruning a known signal id takes effect at most once, however often delivered and whatever fails |
| SignalConsumer.TakenOncePerMemory | worker/app/main.py:155-166 | with pruning: exactly once per time its row is remembered |
| SignalConsumer.EffectComesWithMark | worker/app/main.py:228-255 | a delivery that does not commit changes nothing stored (one that is left pending rolls the connection back), a committed one leaves its id marked and nothing open, and no stored table changes without the mark |
| SignalConsumer.LeftPendingIffOpen | worker/app/db.py:287-302 | when nothing else fails, a new signal is left pending if and only if a price-check close has left a transaction open on the connection; that close is then rolled back |
| SignalConsumer.WholeOrNothingUnlessTorn | worker/app/main.py:235-255 | the committed effect is the whole operation or none of it, unless a close lost its second write |
| SignalEffects.DeliveryMeans | worker/app/main.py:228-262 | a new signal in fair weather is committed if and only if its open, modify or close is admitted, with exactly that operation's tables for this delivery's fill and ids, and refused with none otherwise |
| SignalEffects.TakenMeans | worker/app/main.py:228-262 | whatever fails, the tables of a delivery that is committed or refused are those of its operation, of a close's trade alone, or unchanged |
| SignalEffects.CommittedMeans | worker/app/main.py:228-262 | a committed delivery has exactly the tables of its kind of operation |
| SignalEffects.OutcomeMeans | worker/app/main.py:155-262 | the outcome of every delivery, from what is known, what is open, the statement that fails and whether its operation is admitted and written |
| SignalEffects.MarksMean | worker/app/db.py:673-689 | the signal table after a delivery: one more row, and every row of its id processed, as failed or not |
| SignalEffects.TermsAreLastSet | worker/app/executor.py:101-135 | over every consumer run an open position, stored or seen, has the target and stop of its opening signal, each as last set by a modify that took effect |
| SignalEffects.AutoCloseMeans | worker/app/db.py:425-506 | a price-check close, its transaction and what is stored meanwhile, for every fault |
| SignalEffects.PruneMeans | worker/app/db.py:778-786 | pruning drops exactly the rows received before the time |
| SignalHistory.TornCloseDoubleCounts | worker/app/main.py:250-255 | what a torn close books: the closed quantity of its own position, which is positive, while the position keeps it; nothing for any other id |
| SignalHistory.ConsumerConserves | worker/app/db.py:434-506 | over every run of deliveries, price-check closes, redeliveries, failures and rollbacks, for every id, both for what is stored and for what the connection sees: opened quantity plus what torn closes booked twice = open remainder + legs + dust, and dust is at most 1e-12 |
| SignalHistory.HistoryExplains | worker/app/db.py:283-302 | in every run the connection sees the tables of all writes since the last rollback and before it those committed; stored are exactly the tables of the committed writes; without an open transaction the two are one |
| SignalHistory.NewSignalDropsTornClose | worker/app/db.py:287-302 | a torn price-check close followed by a new signal: the signal is left pending though nothing else fails, the torn leg is rolled back, and the run conserves exactly what it conserved before |
| SignalHistory.NextCloseCommitsTornClose | worker/app/db.py:283-285 | followed by another close that commits, the torn leg is stored with it and its quantity is no longer conserved |
| SignalHistory.ConservedIffNeverTorn | worker/app/main.py:250-255 | an id's stored quantity is conserved over a run if and only if none of its closes that were committed, by their own transaction or by a later one, was torn |
| SignalHistory.TornDeliveryIsReachable | worker/app/main.py:250-255 | every OPEN with quantity followed by a delivered close whose second write fails gives such a run: the whole quantity is a leg and still open |
| SignalConsumer.WrittenIsWholeUnlessTorn | worker/app/db.py:462-506 | the writes of an operation are whole or none unless an admitted close loses its second write; then the leg is booked and the position kept |
| SignalConsumer.ReconcilesExactly | worker/app/metrics.py:68-76 | received equals the sum of the outcomes if and only if no delivery meets the guards of a double count |
| SignalConsumer.CountsDecided | worker/app/main.py:155-262 | a delivery counts twice exactly by its guards: a known id whose ack fails; a malformed body when the transaction cannot begin or the log, error mark, commit or ack fails; otherwise, past begin and log, a failing commit or ack, or a failing error mark of a refused operation |
| SignalHistory.ConsumerRunsOperations | worker/app/main.py:146-262 | if no committed close is torn, every run stores the tables of a plain run of operations |
| SignalHistory.ConsumerNeverHoldsTwo | worker/app/main.py:228-255 | with the reject policy an alpha whose signals never opt in has at most one open position per symbol in every consumer run, stored and seen, whatever other alphas, torn closes, redeliveries and price-check closes do |
| SignalHistory.PassIsSteps | worker/app/executor.py:213-305 | a price-check pass, as far as it gets, is a run of its closes; what it writes is stored |
| SignalConsumer.Worker.ProcessSignalMessage | worker/app/main.py:155-262 | database, open transaction and outcome of one message, and which one counter it moves |
| SignalConsumer.Worker.HandleSignalMessage | worker/app/main.py:318-356 | processing and ack, with every counter; a failure is counted as left pending |
| SignalConsumer.Worker.Transact | worker/app/main.py:228-255 | the transaction of a parsed message: begin, log, operation, mark or error mark, commit, and the rollback of each failure, with its counters |
| SignalConsumer.Worker.CloseHit | worker/app/db.py:425-506 | one price-check close: its first write opens an implicit transaction, which its commit ends and any failure leaves open |
| CandleStore.StoreIsNewestOfAll | alphas/base/engine.py:1364-1410 | for candles in any order with repeats, cut into batches in any way, the store is exactly the newest N of everything ever seen, each with its last-arrived values, times strictly rising |
| CandleStore.HistoryIsEverythingSeen | alphas/base/engine.py:1371-1398 | the untrimmed store lists each time once, in order, with the last values |
| CandleStore.TrimThenUpsert | alphas/base/engine.py:1400-1410 | trimming first or after a candle gives the same newest N |
| CandleStore.TrimThenUpsertAll | alphas/base/engine.py:689-700 | the same for a batch trimmed once |
| CandleStore.WarmupIsLiveFeed | alphas/base/engine.py:689-700 | a warm-up batch leaves what feeding its candles one by one would |
| CandleStore.UpsertAtPlace | alphas/base/engine.py:1386-1398 | replacing or inserting at the place a binary search finds is the ordered upsert |
| CandleStore.BisectLeft | alphas/base/engine.py:1386 | everything before the index is earlier and nothing from it on is |
| CandleStore.SymbolData.UpsertCandle | alphas/base/engine.py:1371-1398 | the six lists after one candle, even or uneven; from even ordered lists a well-formed candle is the reference step, and a malformed one leaves them even exactly when its time was there |
| CandleStore.SymbolData.ReplaceCandle | alphas/base/engine.py:1364-1369 | the row at the index takes the new values up to the first malformed field or list that is too short, which raises |
| CandleStore.SymbolData.InsertCandle | alphas/base/engine.py:1393-1398 | the row is inserted in the six lists, up to a malformed field, which leaves even ones uneven |
| CandleStore.RaiseIsLocal | alphas/base/engine.py:1364-1398 | a raise spoils only the row it was at: an existing row keeps its time and every other row its values, and a new one leaves the lists uneven |
| CandleStore.EvenIffNoneBreaks | alphas/base/engine.py:1364-1410 | over every feed of live candles and warm-up batches into a store that keeps at least one candle, the six lists are even at the end if and only if they were at the beginning and no malformed candle came at a time the store did not hold: a gap is never closed again |
| CandleStore.UpsertKeepsGap | alphas/base/engine.py:1371-1398 | one candle keeps times rising and lists stepped, and widens the gap by one exactly if it is malformed and its time is new |
| CandleStore.NewestCandleRaises | alphas/base/engine.py:1374-1376 | on uneven lists every message for the newest candle raises, even a well-formed one |
| CandleStore.UpsertIsReference | alphas/base/engine.py:1371-1398 | on even ordered lists a well-formed candle is the reference step |
| CandleStore.BatchIsReference | alphas/base/engine.py:689-700 | a batch of well-formed candles is the reference steps, and one with a malformed candle raises |
| CandleRows.MessageMeans | alphas/base/engine.py:646-667 | a live message: the candle, field by field with absent ones zero, takes its time's place among those held, in all six columns, and the newest N stay |
| CandleRows.BatchMeans | alphas/base/engine.py:669-700 | a warm-up batch likewise, later candles over earlier ones |
| CandleRows.MalformedMeans | alphas/base/engine.py:1364-1398 | a malformed candle on even lists raises, its place has its time and exactly the fields before the first bad one, and nothing is trimmed |
| CandleRows.BatchBreaksOff | alphas/base/engine.py:689-700 | a batch that raises leaves what its candles left up to the one that raised, untrimmed |
| CandleStore.SymbolData.TrimSymbolData | alphas/base/engine.py:1400-1410 | the newest N rows remain |
| CandleStore.SymbolData.OnKlineMessage | alphas/base/engine.py:646-667 | one live candle on lists even or uneven: ignored without a positive open time, otherwise upserted, and trimmed unless it raised; from even ordered lists the reference step and trim |
| CandleStore.SymbolData.LoadWarmupCandles | alphas/base/engine.py:669-700 | a batch on lists even or uneven: unusable open times skipped, the rest upserted up to the first raise, then trimmed unless one raised; from even ordered lists exactly the reference; reports whether anything is stored |
| RecoverySimulation.ReplaySimulates | scripts/rebalance_recovery/replay.py:45-113 | with one position per symbol for the alphas of the ledger, distinct points and unused derived ids, the plan is made and no entry misses or mistakes its position: the ledger applies if and only if no position of an alpha that a point names has its closing trade already, and any failure is that key clash; then the candidate is sound and its rows are the planner's book |
| RecoverySimulation.EveryPointSimulates | scripts/rebalance_recovery/replay.py:45-113 | the same, exact condition included, after every prefix of the ledger that ends a point |
| RecoverySimulation.TradedPositionBlocks | scripts/rebalance_recovery/candidate.py:79-112 | a baseline that meets every other condition and cannot be recovered: one open position with a trade under its own id |
| RecoverySimulation.StepSimulates | scripts/rebalance_recovery/replay.py:50-112 | the entries of one point apply if and only if none of its alpha's positions is traded already; then the alpha's rows become the planner's new book and no other row moves |
| RecoverySimulation.CloseAll | scripts/rebalance_recovery/candidate.py:49-117 | the closes of a point go through if and only if none of the alpha's positions is traded already; then they remove every row of the alpha and no other, recording their trades |
| RecoverySimulation.OpenAll | scripts/rebalance_recovery/candidate.py:120-160 | the opens of a point append rows that load back as the planner's entries, decision price and all |
| RecoverySimulation.BookOfOpened | scripts/rebalance_recovery/replay_state.py:35-61 | loading the rows that opens wrote gives the planner's own book |
| RecoverySimulation.TradeFollowsPlan | scripts/rebalance_recovery/candidate.py:71-75 | a close applies if and only if its position is not traded yet; its trade carries the planner's quantity, and its fee rate even where the row has none |
| RecoverySimulation.StaysUnused | scripts/rebalance_recovery/replay_state.py:101-104 | applying one point leaves the ids of every other point free |
| RecoveryReplay.BuildRecoveryLedger | scripts/rebalance_recovery/replay.py:37-113 | refuses taken points, otherwise returns the plan made from the loaded book, or the missing configuration |
| RecoveryEntries.PointMeans | scripts/rebalance_recovery/replay.py:50-113 | the ledger point by point, with unique slots: a point's entries close exactly what its alpha holds then, the baseline rows or the targets of its last point, and open exactly its targets, closes first and each in the order of symbols, with every price, quantity, side, fee, id and leverage spelled out |
| RecoveryEntries.LeverageRuns | scripts/rebalance_recovery/replay_state.py:96-98 | the leverage of a point's openings is that stored with the alpha's first baseline row, 1 if it stores none or there is no row, until a point leaves the alpha no position; from then on it is 1 |
| RecoveryEntries.PlanLists | scripts/rebalance_recovery/replay.py:50-113 | the planner's book lists exactly the positions held after the points so far |
| RecoveryEntries.RefusedIff | scripts/rebalance_recovery/replay_state.py:63-93 | a replay is refused exactly when a stored signal of a point's alpha names its candle |
| RecoveryEntries.AppliedIsRefused | scripts/rebalance_recovery/replay_state.py:63-93 | a ledger that was applied is refused the next time |
| RecoveryReplay.AssertPointsAreMissing | scripts/rebalance_recovery/replay_state.py:64-93 | accepts exactly when no signal of a point's alpha names its candle |
| RecoveryReplay.LoadPositionState | scripts/rebalance_recovery/replay_state.py:35-61 | the loaded state is each alpha's book |
| RecoveryReplay.AppendCloses | scripts/rebalance_recovery/replay.py:55-76 | the closing entries of the book in symbol order |
| RecoveryReplay.AppendOpens | scripts/rebalance_recovery/replay.py:78-112 | the opening entries in symbol order and the book they build |
| RecoveryReplay.PlanPrefix | scripts/rebalance_recovery/replay.py:50-113 | the plan for the first points is the start of the plan for all |
| RecoveryReplay.TargetsAreOpenable | scripts/rebalance_recovery/replay.py:80-84 | every target symbol has a positive price |
| RecoveryReplay.OpenHasItsNotional | scripts/rebalance_recovery/replay.py:81-103 | an open is worth its weight's share of the leveraged capital, on the weight's side, under the point's own id |
| RecoveryReplay.LeveragePersists | scripts/rebalance_recovery/replay_state.py:96-98 | the leverage of a book is its successor's, until a point leaves no position: then the next starts at 1 |
| RecoveryWeights.BookIsBalanced | scripts/rebalance_recovery/replay.py:188-211 | a two-sided book is trimmed to equally many longs and shorts, the smaller count; a one-sided one is untouched |
| RecoveryWeights.DroppedAreSmallest | scripts/rebalance_recovery/replay.py:201-207 | a dropped entry is no larger than any kept on its side; zero weights are kept |
| RecoveryWeights.BookIsTradable | scripts/rebalance_recovery/replay.py:192-196 | every kept entry was selected and has a positive price, each symbol once |
| RecoveryWeights.SortSorts | scripts/rebalance_recovery/replay.py:201-206 | the sort is ordered by size and a permutation |
| RecoveryTrim.TrimMeans | scripts/rebalance_recovery/replay.py:188-211 | what is kept: selected entries with a positive price; all of them on a one-sided book, else as many longs as shorts, as many as the smaller side has |
| RecoveryTrim.DroppedPrecede | scripts/rebalance_recovery/replay.py:201-211 | what is dropped on a side precedes everything kept there: smaller, or as large and listed earlier; zero weights never |
| RecoveryCandidate.Candidate.BuildMainCandidate | scripts/rebalance_recovery/candidate.py:19-46 | the whole ledger is applied or, at the first failure, none of it |
| RecoveryCandidate.Candidate.ApplyClose | scripts/rebalance_recovery/candidate.py:49-117 | one close: missing, mismatched and clashing positions fail, otherwise trade, signal and deletion |
| RecoveryCandidate.Candidate.ApplyOpen | scripts/rebalance_recovery/candidate.py:120-160 | one open: a taken id or unknown alpha fails, otherwise signal and row |
| RecoveryEntries.EntryMeans | scripts/rebalance_recovery/candidate.py:49-160 | the rows an entry leaves: its audit signal, and either the trade of its row with the slip against it and the fee on both fills, or a new row with the slip against it and its metadata |
| RecoveryCandidate.CandidateExtends | scripts/rebalance_recovery/candidate.py:19-46 | after any applied ledger history only grew and only the ledger's alphas' positions moved |
| RecoveryCandidate.AppliedPointsAreTaken | scripts/rebalance_recovery/candidate.py:163-194 | every point with an entry is taken afterwards, so replaying it again is refused |
| RecoveryCandidate.RecoveredTripCosts | scripts/rebalance_recovery/candidate.py:66-75 | opening and closing at one decision price costs the slip twice and the fee on both fills |
| RecoveryMerge.Production.MergeMainDatabase | scripts/rebalance_recovery/merge.py:14-43 | the merge succeeds if and only if its inputs are mergeable and share one schema; then production equals the candidate table by table, its rows in the stated order, otherwise it is unchanged |
| RecoveryMerge.BuiltCandidateMerges | scripts/rebalance_recovery/merge.py:14-43 | a candidate from a non-empty ledger over the baseline, with the ledger's alphas as scope, passes every guard |
| RecoveryMerge.MergedTwiceIsRefused | scripts/rebalance_recovery/merge.py:25-26 | promoting the same candidate again fails the baseline guard |
| RecoveryMerge.StatementsSucceed | scripts/rebalance_recovery/merge.py:24-43 | the guarded statements go through exactly on mergeable inputs with one schema |
| RecoveryMerge.Production.RunStatements | scripts/rebalance_recovery/merge.py:24-43 | the tables after the statements, or the guard that stopped them |
| RecoveryMerge.DeltaCompletes | scripts/rebalance_recovery/merge.py:139-151 | adding the delta gives the candidate exactly when the candidate only grew |
| RecoveryMerge.SwapCompletes | scripts/rebalance_recovery/merge.py:29-43 | swapping the affected rows gives the candidate exactly when the other rows agree, and then no key clashes |
| RecoveryMerge.WithinIsSame | scripts/rebalance_recovery/merge.py:115-136 | an empty difference both ways is equality of the row sets |
| RecoveryMerge.EquityProduction.MergeEquityDatabase | scripts/rebalance_recovery/merge.py:46-71 | the equity merge succeeds if and only if production is the baseline and the candidate changed only values; then production is the candidate, otherwise it is unchanged |
| RecoveryMerge.UpdateCompletes | scripts/rebalance_recovery/merge.py:55-71 | updating the changed values gives the candidate exactly when nothing but values differs |
| RecoveryRefusals.StatementsMean | scripts/rebalance_recovery/merge.py:24-43 | the first guard that stops a merge, in terms of rows, keys and columns, and the tables when none does |
| RecoveryRefusals.SchemasMean | scripts/rebalance_recovery/merge.py:91-99 | one schema: the same columns in the same order in all three databases, and no table missing |
| RecoveryRefusals.OnlyValuesMean | scripts/rebalance_recovery/merge.py:55-71 | only values changed: the same snapshots, each of the same alpha and time |
| RecoveryPipeline.ProductionHoldsThePlan | scripts/rebalance_recovery/merge.py:14-43 | end to end, from a baseline that production still equals, with one position per symbol for the ledger's alphas: the plan builds a candidate if and only if nothing it closes is traded already; a non-empty ledger then passes every merge guard, and a production table with the candidate's rows holds exactly the planned positions of those alphas and every other alpha's rows as they were |
| RecoveryPipeline.SameRowsSameBook | scripts/rebalance_recovery/replay_state.py:35-61 | row sets that agree load the same positions of an alpha, whatever the row order, while that alpha's slots are unique |
| EventLoop.RunKeepsInvariant | alphas/runner/main.py:394-550 | for any number of loops and any interleaving: free + held permits is constant, the gauge is the number of loops really waiting, and each loop's variables tell the truth |
| EventLoop.CriticalAlwaysReaches | alphas/runner/main.py:436-454 | absent a cancellation during admission, the dequeued klines of the own timeframe all reach the handler, once each and in order |
| EventLoop.CriticalMissedIff | alphas/runner/main.py:436-501 | with cancellations: one is missed exactly when the loop was cancelled while waiting for that kline's permit |
| EventAccount.ReachedIsLetIn | alphas/runner/main.py:394-480 | the exact account over every run: what reached a loop's handler are, in order, its events dequeued without a semaphore, or whose permit came, or whose deadline passed and which are klines of its own timeframe |
| EventAccount.StepsLead | alphas/runner/main.py:394-550 | where each step leaves its loop: handling with a permit once it came, handling without one for an own kline at its deadline, back at the queue otherwise; and the free permits |
| EventAccount.NothingIsWithheld | alphas/runner/main.py:437-454 | no loop is stuck, and the last free permit can be given |
| EventLoop.BypassReleasesNothing | alphas/runner/main.py:454-482 | a loop that bypassed the semaphore gives back no permit, however its handler ends |
| EventLoop.OneTaskDoneEach | alphas/runner/main.py:549-550 | every dequeued event has exactly one `task_done`, but for the one in flight |
| EventLoop.ClampNeverBites | alphas/runner/metrics.py:97-99 | whenever a loop unregisters, the gauge is positive |
| EventLoop.PeakIsHighest | alphas/runner/metrics.py:92-95 | the recorded maximum is the gauge's maximum over the whole run |
| EventLoop.QueueIsFifo | alphas/runner/main.py:396 | events leave a queue in the order they were put, none twice and none skipped |
| EventLoop.DeadlinesDrain | alphas/runner/main.py:437-479 | the deadlines alone bring a waiting loop back to its queue, without any step of another loop |
| EventLoop.StepKeepsInvariant | alphas/runner/main.py:394-550 | one segment of one coroutine keeps the invariant |
| EventLoop.CountersFollow | alphas/runner/main.py:437-501 | permits and gauge move exactly with the loop that moved |
| EventLoop.Coroutine.TakeEvent | alphas/runner/main.py:396-425 | the segment from the queue to the semaphore |
| EventLoop.Coroutine.AdmissionOver | alphas/runner/main.py:436-474 | the segment after the wait for a permit: acquired, timed out or cancelled |
| EventLoop.Coroutine.HandlerOver | alphas/runner/main.py:475-501 | the segment after the handler: release, unregister, `task_done` |
| EventLoop.RunnerMetrics.ScanWaitStarted | alphas/runner/metrics.py:92-95 | the gauge rises by one and the maximum follows |
| EventLoop.RunnerMetrics.ScanWaitFinished | alphas/runner/metrics.py:97-99 | the gauge falls by one, not below zero |
| ShadowEquity.RepairIsIdempotent | scripts/backfill_shadow_equity.py:250-328 | repairing twice is repairing once |
| ShadowEquity.SecondRunChangesNothing | scripts/backfill_shadow_equity.py:314-328 | a second run counts no change |
| ShadowEquity.RowResult | scripts/backfill_shadow_equity.py:276-328 | anchors never change; balance − realised − unrealised is kept on every row; a changed row has its anchor's balance plus the price-move pnl, an unchanged markable one is within 1e-9 of it |
| ShadowRows.RepairMeans | scripts/backfill_shadow_equity.py:250-328 | every repaired row in full: unchanged if it starts over or a price is missing, else its anchor's balance plus each held position's price move by side and quantity, balance and unrealised pnl moving together if by more than 1e-9 |
| ShadowRows.AnchorMeans | scripts/backfill_shadow_equity.py:268-292 | the rows that anchor are exactly those that start over: the first, one that an event was applied for, one in another bucket than the row before, or one with nothing held |
| ShadowRows.ReplayedMeans | scripts/backfill_shadow_equity.py:172-188 | the positions after a run of events: each id at most once, as its last event left it |
| ShadowEquity.SamePositionsSinceAnchor | scripts/backfill_shadow_equity.py:292-295 | positions do not change between an anchor and its rows, so that comparison never fires |
| ShadowEquity.SegmentMovesWithPrices | scripts/backfill_shadow_equity.py:303-308 | between two rows of one anchor the true balance moves by the price move alone |
| ShadowEquity.TolerancesCoincide | scripts/backfill_shadow_equity.py:311-318 | the two tolerance tests always agree |
| ShadowEquity.RepairShadowEquity | scripts/backfill_shadow_equity.py:250-328 | the in-place loop over rows, in any order of times, and events leaves the reference repair and counts changes and missing prices |
| ShadowEquity.RepairRow | scripts/backfill_shadow_equity.py:250-328 | one turn of the loop body computes the reference row from the carried variables |
| ShadowEquity.ApplyUpTo | scripts/backfill_shadow_equity.py:259-266 | the inner loop applies exactly the events from its index up to the row's time |
| ShadowEquity.ReachOn | scripts/backfill_shadow_equity.py:260-266 | the event index never goes back: moving on to another time arrives where starting over with the later of the two would |
| ShadowEquity.PricesAreLookups | scripts/backfill_shadow_equity.py:191-204 | the price table is the lookup on the symbols held, missing exactly when one lookup is |
| Portfolio.RunStaysWithinGross | portfolio_manager/core/engine.py:59-87 | over every run with a fixed gross target, baseline and candidate never exceed it |
| Portfolio.RunRestartsAtStale | portfolio_manager/core/blend.py:57-60 | a run whose first cycle has a stale sleeve and succeeds does not depend on anything carried into it |
| Portfolio.StaleCycleForgets | portfolio_manager/core/blend.py:57-60 | such a cycle's result, errors included, is the same whatever was carried |
| Portfolio.StaleCycleUsesActiveBooks | portfolio_manager/core/blend.py:31-39 | such a cycle outputs only symbols of books active now |
| Portfolio.CycleKeepsGross | portfolio_manager/core/blend.py:55-66 | one cycle from a carried baseline within the target stays within it |
| Portfolio.GrossOfMix | portfolio_manager/core/overlays.py:23-39 | the gross of a mix is at most the mix of the grosses |
| Portfolio.SmoothingKeepsGross | portfolio_manager/core/overlays.py:23-39 | smoothing two books within a gross stays within it |
| Portfolio.SmoothingConverges | portfolio_manager/core/overlays.py:23-39 | towards a fixed target every round closes the gap by the same factor, symbol by symbol |
| Portfolio.GrossTargetIsExact | portfolio_manager/core/overlays.py:13-20 | targeting hits the gross exactly unless there is nothing to scale |
| Portfolio.CapBounds | portfolio_manager/core/overlays.py:7-10 | capping keeps the sign, never exceeds the cap and leaves smaller weights alone |
| Portfolio.ThrottleShrinks | portfolio_manager/core/overlays.py:42-51 | throttling never adds exposure |
| Portfolio.CandidateIsThrottledBaseline | portfolio_manager/core/blend.py:61-65 | the candidate is the baseline, scaled in a downtrend and untouched otherwise |
| Portfolio.BlendIsAllocation | portfolio_manager/core/blend.py:31-39 | each symbol's blended weight is the sum of its active sleeves' allocations |
| Portfolio.BlendedIsOffered | portfolio_manager/core/blend.py:31-39 | the blend names exactly the symbols of active books |
| Portfolio.BlendBooks | portfolio_manager/core/blend.py:19-39 | the accumulating loop, with its active and stale lists and the allocation check |
| Portfolio.AddEach | portfolio_manager/core/blend.py:37-38 | adding a book symbol by symbol adds its weighted weights |
| Portfolio.PortfolioEngine.Cycle | portfolio_manager/core/engine.py:59-87 | the outcome of a cycle, and the carried baseline afterwards; an error leaves it alone |
| PortfolioCycle.CycleMeans | portfolio_manager/core/blend.py:42-66 | every output weight of a cycle: the fresh books by their allocations, within the cap, all scaled by one factor to the gross target, smoothed with the carried baseline unless a sleeve is stale, and throttled in a downtrend |
| PortfolioCycle.CycleFailsIff | portfolio_manager/core/blend.py:42-66 | a cycle fails exactly for an unsound allocation, cap, gross, span or multiplier, and with the first of these |
| PortfolioCycle.ListsMean | portfolio_manager/core/blend.py:27-38 | each sleeve is on exactly one of the lists of active and stale ones |
| Portfolio.CollapsedIsDictionary | portfolio_manager/core/engine.py:65-75 | the sleeves held by id are exactly the listed ids, each once, with what was listed for it last |
| PmReconcile.CycleReconciles | portfolio_manager/app/service.py:121-196 | from a snapshot of the worker's book, with one position per symbol for the manager's own alpha and whatever rows for others: the worker refuses none of a cycle's signals if and only if every leaving position has a quantity and no closing trade yet; then only target symbols on target sides remain, reopened ones at exact weight and quantity, every priced target covered, other alphas untouched; with positive capital closable books stay closable |
| PmReconcile.SecondCycleIsSilent | portfolio_manager/app/service.py:121-196 | with the same target and prices a second cycle publishes nothing |
| PmReconcile.WeightsTrackIff | portfolio_manager/app/service.py:140-151 | every position ends at its target weight if and only if each one already on its side had that weight, or had one the snapshot let the manager read |
| PmReconcile.PublishedSnapshotHidesResize | portfolio_manager/app/service.py:30-46 | with the published snapshot shape a resize publishes nothing; with text metadata it closes and reopens |
| PmReconcile.PublishedWeightIsUnreadable | portfolio_manager/app/service.py:30-46 | from an object-shaped snapshot no weight is ever read |
| PmReconcile.NothingIsRejected | worker/app/executor.py:46-99 | each close finds its position and each open its slot and id free, if and only if every leaving position can be closed |
| PmReconcile.RowsAfterCycle | portfolio_manager/app/service.py:121-196 | which rows remain and which are new after a cycle |
| PmReconcile.ReadyAgain | portfolio_manager/app/service.py:162-195 | the book is ready for the next cycle: keys and the alpha's one position per symbol, and closable positions with positive capital |
| PmReconcile.UnchangedMeansStays | portfolio_manager/app/service.py:165-172 | a target is unchanged exactly when the row of its symbol is there and stays |
| PmReconcile.ClosePhase | portfolio_manager/app/service.py:130-160 | the closing signals go through exactly if every leaving row can be closed, and then remove exactly those rows |
| PmReconcile.OpenPhase | portfolio_manager/app/service.py:162-195 | the opening signals append exactly the new rows |
| PmReconcile.ReconcileAndPublish | portfolio_manager/app/service.py:121-196 | the two loops publish the signals of a cycle in order and count them |
| PmSignals.CycleSays | portfolio_manager/app/service.py:121-196 | every signal of a cycle, from any snapshot: closes of exactly the current entries on the wrong side of their target weight or readably off it by more than 1e-9, then openings of exactly the priced targets that no staying entry covers, each with its side, price, quantity and weight |
| PmSignals.OpeningLeaves | worker/app/executor.py:65-89 | the row an opening leaves, with the target's weight and the fill |
| PmSignals.ClosingLeaves | worker/app/executor.py:140-178 | the trade a close leaves: the whole position, at the fill or at its entry with the slip against it |
| Swings.UpIsHighestSince | alphas/deobietcophaialphakhong/app/strategy.py:83-99 | the upper level at each bar is the maximum high from the latest confirmed swing-high pivot (or bar 0) through that bar |
| Swings.DnIsLowestSince | alphas/deobietcophaialphakhong/app/strategy.py:83-99 | dually the lower level is the minimum low |
| Swings.MarksAlternate | alphas/deobietcophaialphakhong/app/strategy.py:35-57 | swing marks strictly alternate starting with a low, and the detector's leg is the last mark's |
| Swings.LegsAgree | alphas/deobietcophaialphakhong/app/strategy.py:83-91 | the trailing loop's leg always equals the detector's |
| Swings.MarkMeansFlip | alphas/deobietcophaialphakhong/app/strategy.py:45-55 | a bar is marked exactly when the bar confirming it flips the leg |
| Swings.MarksArePivots | alphas/deobietcophaialphakhong/app/strategy.py:42-55 | a swing high is a pivot high, a swing low a pivot low |
| Swings.TrailedNext | alphas/deobietcophaialphakhong/app/strategy.py:83-97 | on the detector's marks a mark always resets its level |
| Swings.ComputeSwingPoints | alphas/deobietcophaialphakhong/app/strategy.py:19-57 | the detector's loop fills both lists with the declared marks |
| Swings.ComputeTrailingLevels | alphas/deobietcophaialphakhong/app/strategy.py:63-99 | the trailing loop, for any marks |
| Swings.HighWindowDecides | alphas/deobietcophaialphakhong/app/strategy.py:39-42 | comparing with the window maximum is being above every bar of it |
| Swings.LevelsEncloseBar | alphas/deobietcophaialphakhong/app/strategy.py:93-97 | the levels enclose the current bar, and zones are missing exactly when they coincide |
| Swings.ZonesAreOrdered | alphas/deobietcophaialphakhong/app/strategy.py:105-120 | zones are ordered bottom to top, of equal height, and missing without a range |

## Left out

- VirtualConsumer.ScheduleDoesNotMatter: speaks of runs that end with every message acked; a schedule that never acks is covered only by the safety lemmas.
- VirtualFeeds.EveryBookIsMirrored: candles rise from one rebalance of a publisher to the next; what a repeated candle or a stale book does instead is the subject of VirtualDivergence, for one publisher and replay in order.
- CandleStore.EvenIffNoneBreaks: a store that keeps no candle at all is left out; there every stored candle clears the lists.
- RecoverySimulation.ReplaySimulates: the selection and prices of a point are inputs; the pandas selection that computes them is not modelled.
- RecoveryMerge.EquityProduction.MergeEquityDatabase: the comparison of the two schemas is one flag.
- PmReconcile.CycleReconciles: a stored side spelled FLAT is not modelled, and a run of signals is followed up to the first refusal.
- ShadowEquity.RepairShadowEquity: one alpha at a time; dry run, the loop over alphas and events with malformed payloads (which abort and roll back the whole repair) are not modelled.
- EventLoop.RunKeepsInvariant: the bounded acquire is one step; a permit acquired in the same instant its wait is cancelled, which depends on the Python version, is not modelled.
- RollingIndicators.RollingMoments.Variance: square roots are not modelled, so `std`, `zscore` and the last division of `skew` stop at their radicands.
- WorkerConservation.NoHitSurvivesAPass: a pass runs alone; in a consumer run its closes are steps between deliveries, and its interleaving inside one signal transaction on the same connection is not modelled.
- SignalHistory.ConsumerConserves: an error at which SQLite itself rolls back is a failed statement followed by a rollback step; other writers of the same database are not steps.
- Floating-point rounding, NaN and infinities beyond the guards that skip or withhold them.
- Redis, SQLite, HTTP, parquet, JSON text and logging: only their effect (atomic transaction, ordered stream, pending list, key-value store) is modelled; malformed stored state of the publisher is not.
- Metadata merging, exchange names other than the session exchange, leverage columns and dashboard columns.
- The resolution of order-book fills: a fill is a given price or the fixed-percentage fallback.
- Nested transaction depth: every operation is entered at depth zero or inside one enclosing transaction.
- The capital-weighted allocators other than the fixed one, the regime provider and the parsing of target books.
- Signal formulas in `alphas/cross_alpha/strategy.py`, per-alpha configuration, command-line wrappers and benchmarks: no state to keep.
