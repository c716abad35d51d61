# Verification of the market maker's core

This project models the hard core of a Lighter market maker that follows Binance: the two order-book
feeds, the incremental statistics behind alpha and volatility, the order slots, the sender's nonce and
rate limiter, the PnL accounting, and the quote ladder with its exposure bound. Each component has a
state machine or specification in functions, run theorems about it, and, where the program updates
state in place, a class or method proved to follow that specification.

`dafny verify dfyconfig.toml` checks everything. All arithmetic is exact (`int`, `real`).

## The pieces

| file | contents |
|---|---|
| `Common`, `Orders` | shared values, order operations and their acknowledgements |
| `Book` | sorted parallel price/size vectors refining a price-to-size map |
| `VenueLog` | the venue as a log of changes; honest snapshots and diffs |
| `DepthSync`, `DepthClient` | the Binance depth client as a state machine and as it runs, with the published alpha |
| `HotBook` | the hot task's Lighter book: nonce continuity and re-snapshots |
| `Rolling`, `VolObi` | ring-buffer statistics (forward and reverse Welford) and the step clock that feeds them |
| `OrderSlots`, `OrderDiff`, `OrderRuns`, `OrderIds`, `OrderManager`, `OrderLoop` | slots, the diff and its convergence, whole runs, ids, the class and the loop that drives it |
| `RateLimiter` | sliding window, pacing, 429 backoff, the gate and the sender's run |
| `NonceSync`, `SendFate` | the optimistic nonce against the venue's next nonce; what a reply means for the order slots |
| `FillAccounting`, `PnlActor`, `PnlPosition`, `PnlTask` | fill accounting, the PnL actor, its position against the venue's, and the actor as it runs |
| `Quotes`, `Exposure` | the quote pipeline and the position cap |

## What came out different from the documentation or the expectation

- The exposure bound is false in two places even if every resting order carries this cycle's
  reduce-only flag. A position of exactly `EPSILON` is big enough for the fallback to quote an exit and
  too small for that exit to be reduce-only. And a position worth less than the dust threshold is
  quoted as flat, so a whole side can be added to it unseen. `Exposure.ExposureBoundedIff` gives the
  exact condition, `Exposure.DustExitExample` and `Exposure.HiddenDustExample` inputs, and
  `Exposure.NoHiddenDustBelowCap` a threshold that is safe. A modify does not set the flag, so an order
  may also carry an older one: the full ladder is safe with any flags, the fallback's exit is not
  (`Exposure.ExposureAnyFlagsIff`, `Exposure.StaleFlagExample`).
- A dead order is documented to linger at most the grace period. That holds for an order whose exchange
  id is not known (`OrderRuns.FreedByFirstDueSnapshot`). A resolved one that is repriced or cancelled
  between snapshots starts over each time and may never be freed (`OrderRuns.TouchedIsNeverFreed`,
  `OrderRuns.DeadOrderRepricedExample`); `OrderRuns.FreedAfterLastTouch` says exactly when it is.
- The 429 deadline can move back if a 429 is recorded without passing the gate
  (`RateLimiter.DeadlineMovesBackIff`, `RateLimiter.UngatedDeadlineCanMoveBack`); behind the gate it
  cannot (`RateLimiter.NoSendBeforeDeadline`).
- `time_until_ops_free_at` is documented as the time until `n` ops are available; its index waits for
  one more entry to expire than that needs (`RateLimiter.WaitIsLeastIff`,
  `RateLimiter.WaitTooLongExample`).
- A batch of more than 40 ops passes the gate on an empty window and breaks the window bound
  (`RateLimiter.RunBoundedIff`, `RateLimiter.OversizedBatchExample`).
- The refresh result ignored after a failed cancel-all is the only way a trusted nonce can be wrong
  (`NonceSync.RunTrustIff`, `NonceSync.IgnoredRefreshEscapes`).
- Fill accounting conserves value except for a negative size against the position
  (`FillAccounting.ConservesIff`, `FillAccounting.NegativeSizeExample`); this concerns direct callers
  only, since the PnL actor skips trades without a positive size. It also throws away positions and
  remainders below `EPSILON` (`FillAccounting.DustOpenExact`, `FillAccounting.CloseExact`).
- A trade delivered again after 10,000 other bookings, or after it fell off a full queue, is processed a
  second time (`PnlPosition.RunTracks`, `PnlPosition.SoonIsNotRepeated`).
- Client ids increase exactly until the id space ends (`OrderIds.IdsIncreaseIff`).
- A first delta on an uninitialised hot book is taken for a snapshot (`HotBook.FirstDeltaExact`,
  `HotBook.FirstDeltaExample`).
- A sample stamped 0 counts as no sample (`VolObi.SpacedIff`, `VolObi.ZeroStampExample`).
- Snapshots with repeated prices break the sorted vectors (`Book.SortedSnapshotValid`,
  `Book.RepeatedPriceExample`).
- Slots are marked before a batch is sent so that the next cycle emits nothing twice. That holds for
  creates and modifies; a cancel is emitted again on every cycle while it is in flight
  (`OrderDiff.InFlightRepeatsOnlyCancels`).
- The exit bias is documented to bring the reducing side closer. A quote less than a tick from mid can
  be moved away from it instead (`Quotes.ExitSideNoFurtherIff`, `Quotes.ExitMovesOutExample`).
- A negative requote threshold makes every resolved quote reprice on every cycle
  (`OrderDiff.SettlesIff`, `OrderDiff.NegativeThresholdExample`).

## Model

| member | source | states |
|---|---|---|
| Book.BookSide.Upsert | src/book/local_book.rs:51-66 | the vectors stay strictly ascending and represent the old map with one price put or removed |
| Book.BookSide.ApplySnapshot | src/book/local_book.rs:109-128 | a snapshot with distinct prices leaves vectors that represent exactly its non-zero levels |
| Book.BookSide.ApplyDelta | src/book/local_book.rs:191-198 | a list of upserts leaves the map with every listed price overwritten in order |
| Book.BookSide.SumSizesFrom | src/book/local_book.rs:89-96 | the loop's total is the size the map holds at or above a price |
| Book.BookSide.SumSizesTo | src/book/local_book.rs:99-106 | the loop's total is the size the map holds at or below a price |
| Book.LocalBook.BestQuotes | src/book/local_book.rs:160-176 | the extreme vector entries are the map's highest bid and lowest ask |
| Book.LocalBook.ImbalanceBetween | src/book/local_book.rs:89-106 | bid size at or above the lower bound minus ask size at or below the upper one, of the maps |
| Book.SnapshotIsReplay | src/book/local_book.rs:109-128 | sorting a snapshot's non-zero levels represents the same map as upserting its levels one by one |
| Book.SortedSnapshotValid | src/book/local_book.rs:115-128 | the rebuilt vectors are strictly ascending exactly when the kept prices are distinct |
| Book.RepeatedPriceExample | src/book/local_book.rs:115-128 | an input with a repeated price that breaks the vectors |
| Book.RangeSum | src/book/local_book.rs:89-106 | summing a slice of the size vector is summing the map over the slice's prices |
| Book.DepthBand | src/strategy/vol_obi.rs:139-141 | the band whose sizes are compared reaches equally far below and above mid, by the looking depth |
| Book.ImbalanceExample | src/strategy/vol_obi.rs:139-141 | more size on the bid side gives a positive imbalance |
| VenueLog.DiffAdvances | src/binance/obi.rs:55-58 | a diff over (lo, hi] carries the venue's book from any update between lo and hi to hi, so overlap is harmless |
| DepthSync.RunFaithful | src/binance/depth_client.rs:208-328 | over every run of resets, snapshots, drains and live events, a synced client holds the venue's book at `prev_u` |
| DepthSync.HandleFaithful | src/binance/depth_client.rs:56-78 | each classification and the write it leads to keeps the book true at its sequence number |
| DepthSync.DrainOutcome | src/binance/depth_client.rs:208-231 | on a continuous buffer the drain syncs exactly when an event brackets the snapshot, and stays unsynced exactly when all are stale |
| DepthSync.InStepIff | src/binance/depth_client.rs:74-78 | for any events, a synced client follows all of them exactly when the first continues `prev_u` and each continues the one before, by their ids; then it stands at the last id, otherwise it must re-snapshot |
| DepthSync.OutOfStepIff | src/binance/depth_client.rs:56-78 | for any events, an unsynced client skips the stale ones and follows the rest exactly when the first other brackets the snapshot and the rest continue it |
| DepthClient.ApplySnapshotAndDrain | src/binance/depth_client.rs:208-231 | the loop over the buffer ends in the state the machine prescribes, or asks for a re-snapshot |
| DepthClient.BinanceObi.UpdateAlpha | src/binance/obi.rs:62-77 | publishes exactly when the book is two-sided, uncrossed and of positive mid, and then the z-score of its imbalance around that mid |
| DepthClient.BinanceObi.ApplyDiff | src/binance/obi.rs:55-58 | the book takes the diff and `prev_u` its last id; the statistics are untouched |
| DepthClient.BinanceObi.ApplySnapshot | src/binance/obi.rs:48-53 | a snapshot with distinct prices becomes the book and continuity starts over; the book stays usable exactly when no non-zero level repeats a price |
| DepthClient.BinanceObi.ResetAll | src/binance/obi.rs:31-38 | everything published and buffered is forgotten |
| DepthClient.ApplyAndPublish | src/binance/depth_client.rs:299-311 | a live event keeps the book true; an entry is added exactly when the venue's book at the event's last id is quotable, and the entries are what the client shows |
| DepthClient.LiveLoop | src/binance/depth_client.rs:280-327 | the loop publishes true alphas only; in step from the start or from the bracketing event on, it asks for a re-snapshot exactly if some event's ids do not continue the one before, and publishes on the events before that one and on no other |
| DepthClient.PublishesUntilBreak | src/binance/depth_client.rs:280-327 | a synced client's publications are those of the events before the first sequence break whose book is quotable, stated on the ids alone |
| DepthClient.PublishesFromSync | src/binance/depth_client.rs:280-327 | an unsynced client publishes nothing on stale events, then on the bracketing event and those that continue it, and re-snapshots exactly at the first other event |
| DepthClient.Session | src/binance/depth_client.rs:248-328 | one trace per round played; together they are everything published, each alpha from the venue's book and none due missing; a short session closed or gave up, and gave up exactly on the fifth failure in a row |
| DepthClient.GivingUpMeans | src/binance/depth_client.rs:253-324 | the session gives up after a round exactly when that round breaks, at least five were played, and the last four never got in step with the stream |
| HotBook.QuotesSeeVenueBook | src/orchestrator.rs:1352-1447 | in every run each quote decision sees the venue's book at `last_nonce`, and a delta is priced only when it continues the book |
| HotBook.NoQuoteBeforeSnapshot | src/orchestrator.rs:1231-1236 | after a flagged gap or divergence nothing is priced before a fresh snapshot |
| HotBook.GapIsFlagged | src/orchestrator.rs:1378-1393 | a fresh delta that does not continue the book raises the flag and prices nothing |
| HotBook.PricedIff | src/orchestrator.rs:1352-1447 | a message is priced exactly when it passes the guards, leaves a two-sided book and the book does not diverge; a message that passes is written with its nonce and offset, one that does not changes none of the three |
| HotBook.ContinuingDeltaIsPriced | src/orchestrator.rs:1378-1447 | in every disciplined run a fresh delta that continues `last_nonce` leaves the venue's book at its nonce and is priced exactly when that book is two-sided and undivergent |
| HotBook.ReconnectStartsOver | src/orchestrator.rs:1317-1365 | after a disconnect the next message meets the state of a fresh start |
| HotBook.FirstDeltaExact | src/orchestrator.rs:1407-1421 | a delta on an uninitialised book gives the venue's book exactly when it lists every resting price |
| HotBook.FirstDeltaExample | src/orchestrator.rs:1407-1421 | an honest first delta that leaves a wrong book |
| HotBook.HotTask.OnOrderBookMessage | src/orchestrator.rs:1352-1447 | the guards, the write and the quote decision are those of the state machine |
| HotBook.HotTask.CheckDelta | src/orchestrator.rs:1367-1394 | which deltas are ignored, which raise the flag, which go on |
| HotBook.HotTask.WriteBook | src/orchestrator.rs:1407-1430 | full or incremental write with its offset and nonce; a full write keeps the book usable exactly when no non-zero level repeats a price |
| HotBook.HotTask.OnDisconnect | src/orchestrator.rs:1317-1329 | a disconnect only raises the flag that discards the book at the next message |
| Rolling.RollingStats.Push | src/strategy/rolling.rs:37-76 | the ring holds the last `capacity` values and `sum`, mean, `m2` and deviation are their batch figures |
| Rolling.RollingStats.Evict | src/strategy/rolling.rs:40-57 | reverse Welford leaves the figures of the window without its oldest value; the negative-`m2` guard cannot fire |
| Rolling.RollingStats.Absorb | src/strategy/rolling.rs:67-75 | forward Welford leaves the figures of the extended window; the guard cannot fire |
| Rolling.RollingStats.ValidMeans | src/strategy/rolling.rs:37-76 | the invariant every operation keeps says exactly that the window is the ring's contents, oldest first, and the figures are its batch figures |
| Rolling.RollingStats.Clear | src/strategy/rolling.rs:107-114 | an empty window with zero figures |
| Rolling.RollingStats.ZScore | src/strategy/rolling.rs:90-95 | the z-score against the batch mean and deviation of the window, zero when the deviation underflows |
| Rolling.ScoreSign | src/strategy/rolling.rs:90-95 | the score is positive exactly above the mean, and one a deviation above it |
| Rolling.DeviationExample | src/strategy/rolling.rs:67-76 | the deviation is that of the population |
| Rolling.WelfordAppend | src/strategy/rolling.rs:67-74 | the forward update of the sum of squared deviations is exact |
| Rolling.WelfordEvict | src/strategy/rolling.rs:40-57 | the reverse update of the sum of squared deviations is exact, down to an empty window |
| Rolling.Replay | src/strategy/rolling.rs:37-114 | after any run of pushes and clears the figures are those of the last min(k, capacity) values |
| VolObi.SamplesAreStepsApart | src/strategy/vol_obi.rs:118-135 | for any timing with positive stamps, accepted samples are as many steps apart as there are samples between them |
| VolObi.SamplingKeepsUp | src/strategy/vol_obi.rs:118-135 | for any timing the last sample is less than a step behind the last update |
| VolObi.SpacedIff | src/strategy/vol_obi.rs:118-135 | for non-negative stamps, samples are a step apart exactly unless the stream opens with a stamp of 0 and a second update less than a step later |
| VolObi.ZeroStampExample | src/strategy/vol_obi.rs:119-119 | two updates stamped 0 are both sampled |
| VolObi.VolObiCalculator.SumTelescopes | src/strategy/vol_obi.rs:124-135 | the volatility window's sum is the last sampled mid minus the mid at the window's start |
| VolObi.VolObiCalculator.WarmupTakesTime | src/strategy/vol_obi.rs:147-158 | a warmed-up engine has seen `min_warmup_samples` steps pass since its first sample |
| VolObi.VolObiCalculator.Step | src/strategy/vol_obi.rs:118-159 | samples on the step clock, refreshes alpha on every call and volatility when due, warms up exactly when enough samples were seen |
| VolObi.VolObiCalculator.OnBookUpdate | src/strategy/vol_obi.rs:118-159 | the local alpha scores the imbalance of the book's maps around the mid |
| VolObi.VolObiCalculator.Feed | src/strategy/vol_obi.rs:118-159 | any stream of updates leaves exactly the samples the step clock accepts |
| VolObi.VolObiCalculator.Quote | src/strategy/vol_obi.rs:163-212 | no quote before warm-up; the quote is the one `Quotes` proves to lean against inventory, follow alpha and keep the half-spread, and with a minimum half-spread it straddles mid |
| VolObi.VolObiCalculator.SetAlphaOverride | src/strategy/vol_obi.rs:215-231 | the override replaces the local alpha, and lifting it brings the local one back |
| VolObi.VolObiCalculator.SetMaxPosition | src/strategy/vol_obi.rs:233-235 | a negative limit becomes zero |
| VolObi.VolObiCalculator.Reset | src/strategy/vol_obi.rs:237-249 | no samples, no warm-up, no override; the position limit survives |
| OrderDiff.DiffConverges | src/exec/order_manager.rs:127-299 | once a batch is marked and acknowledged a second collect emits nothing, and every resolvable slot agrees with its target up to the threshold |
| OrderDiff.CollectShape | src/exec/order_manager.rs:127-215 | a batch lists at most one operation per slot, in ladder order, and only orders the slots hold |
| OrderDiff.CollectOpFor | src/exec/order_manager.rs:127-215 | which operation the nested loops emit for each slot |
| OrderDiff.CollectTable | src/exec/order_manager.rs:127-215 | the whole first collect in plain arithmetic: what is created, cancelled, modified and left alone in each slot; a resolved quote is left alone exactly when its price moved by at most the threshold and its size by less than a tick |
| OrderDiff.WithinThresholdExample | src/exec/order_manager.rs:183-188 | one basis point against a threshold of eight is left alone, nine are not |
| OrderDiff.ResolvedInFlight | src/exec/order_manager.rs:229-251 | a create or modify in flight is not emitted again, even after its exchange id was resolved |
| OrderDiff.InFlightRepeatsOnlyCancels | src/exec/order_manager.rs:229-251 | while a batch is in flight the next cycle, for the same targets, repeats exactly its cancels |
| OrderDiff.AckAllAt | src/exec/paced_send.rs:291-312 | what an acknowledged batch does to each slot |
| OrderDiff.AckIds | src/exec/order_manager.rs:275-280 | an acknowledged batch resolves no id that was not resolved before |
| OrderDiff.SettlesIff | src/exec/order_manager.rs:127-299 | for every threshold the second collect is empty exactly when the threshold is not negative, mutations are held, the size is not positive, or no targeted slot is resolved after the acknowledgement |
| OrderDiff.NegativeThresholdExample | src/exec/order_manager.rs:183-188 | a quote that has not moved is modified |
| OrderRuns.FreedOnlyAfterTwoMisses | src/exec/order_manager.rs:370-432 | reconcile frees a slot only if its id was not live in two consecutive snapshots, nothing touched the slot between them, and nothing disturbed it for 5 s |
| OrderRuns.FreedByFirstDueSnapshot | src/exec/order_manager.rs:370-405 | a slot whose unresolved id is named by no snapshot and no event, whatever the quote cycles and gates do, stays occupied until the first snapshot that is its second miss and 5 s after its last update, and that one frees it |
| OrderRuns.UnresolvedIsLeftAlone | src/exec/order_manager.rs:179-182 | a cycle emits nothing for a slot whose order is not resolved |
| OrderRuns.FreedAfterLastTouch | src/exec/order_manager.rs:229-251 | for any order, freeing is due counted from the last step that touched the slot: the second miss since and 5 s later, exactly |
| OrderRuns.TouchedIsNeverFreed | src/exec/order_manager.rs:229-251 | over every run, a slot touched between any two snapshots is never freed by reconcile |
| OrderRuns.MovedTargetTouches | src/exec/order_manager.rs:183-198 | a cycle whose target moved past the threshold touches the slot of a resolved order, dead or not |
| OrderRuns.DeadOrderRepricedExample | src/exec/order_manager.rs:375-402 | a dead order requoted between two empty snapshots is still held, however much later the second comes |
| OrderRuns.ReconcileFreesIff | src/exec/order_manager.rs:380-405 | when one snapshot frees a slot, and that it otherwise keeps its id |
| OrderRuns.LiveRowIsAdopted | src/exec/order_manager.rs:407-432 | a live row of the slot's order makes it live at the row's price and remaining size; a row on the other side only resets the misses |
| OrderRuns.SnapshotResolves | src/exec/order_manager.rs:360-372 | the id of a tracked order shown by a snapshot is resolved to the exchange id of its last row |
| OrderRuns.StreamResolves | src/exec/order_manager.rs:288-293 | an id resolved over the account stream is resolved for the slot that holds it, and no slot changes |
| OrderRuns.FillShrinks | src/exec/order_manager.rs:306-326 | a fill lowers the tracked size of its slot by the filled amount, frees the slot when no more than a tick or `EPSILON` is left, and touches no other slot |
| OrderRuns.GateCancels | src/exec/order_manager.rs:438-463 | the gate cancels exactly the resolved slots that are not being cancelled yet, each under its own ids |
| OrderRuns.StepOnSlot | src/exec/order_manager.rs:229-326 | what each kind of step does to one slot |
| OrderRuns.EmittedShape | src/orchestrator.rs:1636-1650 | every emitted batch holds at most one operation per slot |
| OrderIds.CreatesBalanceClears | src/exec/order_manager.rs:127-326 | over every run each slot's creates and stray binds balance its clears, so creates never exceed clears plus one |
| OrderIds.IdsIncreaseIff | src/exec/order_manager.rs:89-101 | over every run ids are non-zero and strictly increase exactly within one lap of the id space |
| OrderIds.TrackedIdsDistinct | src/exec/order_manager.rs:127-326 | within one lap, when binds echo emitted creates, the ids held by the slots are non-zero and pairwise distinct |
| OrderSlots.NextIdIncreasesIff | src/exec/order_manager.rs:89-101 | the next id is in 1..2^48-1 and larger than the last exactly if the last is below 2^48-1, and it follows the clock when that is ahead |
| OrderSlots.IdMapBounded | src/exec/order_manager.rs:328-358 | the id map stays bounded, never loses the id of a live slot, and loses nothing below its cap |
| OrderSlots.TrimDropsOldest | src/exec/order_manager.rs:328-358 | a trim keeps larger ids before smaller ones, and drops nothing while no more than 100 other ids are known |
| OrderManager.OrderManager.CollectOrderOperations | src/exec/order_manager.rs:127-215 | the nested loops emit the specified batch and advance the id counter |
| OrderManager.OrderManager.CollectOne | src/exec/order_manager.rs:137-211 | the branches for one slot decide as specified and take an id only for a create |
| OrderManager.OrderManager.NextClientOrderIndex | src/exec/order_manager.rs:89-101 | the id handed out and remembered |
| OrderManager.OrderManager.MarkPending | src/exec/order_manager.rs:229-250 | the slot is occupied as the operation says, everything else unchanged |
| OrderManager.OrderManager.ApplyEvent | src/exec/order_manager.rs:272-299 | each event's effect on slots and id map |
| OrderManager.OrderManager.ApplyFill | src/exec/order_manager.rs:306-326 | the first slot in ladder order that holds the id shrinks or is freed, no other |
| OrderManager.OrderManager.RecordIdMapping | src/exec/order_manager.rs:328-358 | the mapping is recorded and an overfull map trimmed to the live ids and the 100 largest others |
| OrderManager.TakeLargest | src/exec/order_manager.rs:344-354 | exactly the elements with fewer than `n` larger ones |
| OrderManager.OrderManager.ProcessReconcile | src/exec/order_manager.rs:370-432 | ids recorded, then every slot debounced and refreshed |
| OrderManager.OrderManager.CollectCancelOps | src/exec/order_manager.rs:438-463 | a cancel for every resolvable slot that is not already canceling |
| OrderLoop.Perform | src/orchestrator.rs:1636-1650 | one turn of the hot task is one step of the run: slots are occupied before the batch is handed on |
| OrderLoop.Drive | src/orchestrator.rs:1449-1457 | any schedule of turns is an execution, so the run theorems hold of the class |
| RateLimiter.Drive | src/exec/paced_send.rs:195-353 | the sender's run on any script: one turn per attempt, every turn lawful (a pass only behind the gate, a skip only for a distant deadline or a long wait), and the limiter's history, last send, quota and backoff are those of the turns |
| RateLimiter.RunBoundedIff | src/exec/rate_limit.rs:238-304 | over every lawful run at most 40 recorded ops lie in any 60 s, exactly when no recorded batch alone has more than 40 |
| RateLimiter.OversizedBatchExample | src/exec/rate_limit.rs:394-419 | 41 ops pass the gate of an unused limiter and break the bound |
| RateLimiter.SendsAreSpaced | src/exec/rate_limit.rs:421-463 | over every lawful run a batch follows every earlier recorded send by the gap that its kind and the quota in force call for |
| RateLimiter.GapInFigures | src/exec/rate_limit.rs:312-319 | the gap for each kind of batch and band of the quota, as an equation |
| RateLimiter.SpacingInFigures | src/exec/rate_limit.rs:421-449 | over every lawful run: 0.5 s before a cancel-only batch, otherwise the interval, 1.5 or 3 times it, or 15 s, by the quota in force |
| RateLimiter.QuotaRejectSlowsDown | src/exec/rate_limit.rs:434-440 | over every lawful run, after a quota reject and until a quota is reported again every other batch comes at least 15 s later |
| RateLimiter.Limiter.AwaitPace | src/exec/rate_limit.rs:421-449 | waits until the required gap has passed, and asks for no longer sleep than what is left of it |
| RateLimiter.NoSendBeforeDeadline | src/exec/rate_limit.rs:394-407 | over every lawful run 429 deadlines never move back and no batch passes the gate before any deadline issued ahead of it |
| RateLimiter.TakeTurn | src/exec/paced_send.rs:195-353 | one attempt: what the gate answers and what is recorded |
| RateLimiter.Limiter.WriteSlot | src/exec/rate_limit.rs:394-452 | true only after the 429 deadline, with room for a batch of at most 40 and the required gap behind it; false only for a deadline over 2 s away or a wait over 30 s |
| RateLimiter.Limiter.TimeUntilOpsFreeAt | src/exec/rate_limit.rs:267-291 | the wait the code computes from the recent history, and that whoever waits that long finds room at every later instant |
| RateLimiter.Limiter.RecordOpsSentAt | src/exec/rate_limit.rs:299-304 | `count` stamps appended to the history |
| RateLimiter.Limiter.PruneAt | src/exec/rate_limit.rs:238-248 | the deque becomes the part of the history inside the window |
| RateLimiter.Limiter.TriggerGlobalBackoffAt | src/exec/rate_limit.rs:338-346 | escalation by one level |
| RateLimiter.Limiter.ResetGlobalBackoffAt | src/exec/rate_limit.rs:354-370 | the level is forgotten after two successes or five quiet minutes; the deadline stays |
| RateLimiter.Settle | src/exec/paced_send.rs:263-353 | a gated batch is recorded with its stamps and its outcome handled: quota, backoff and last send as the turn says |
| RateLimiter.RecordKeepsBound | src/exec/rate_limit.rs:299-304 | recording where there is room keeps the bound at every instant, past and future |
| RateLimiter.WaitIsLeastIff | src/exec/rate_limit.rs:267-291 | the computed wait is the time until `n` ops are free exactly when the whole window must drain, the entry waited for equals the one before it, or it has expired |
| RateLimiter.WaitTooLongExample | src/exec/rate_limit.rs:267-291 | an input on which an op is free at once and the wait is 30 s |
| RateLimiter.RoomIff | src/exec/rate_limit.rs:238-291 | a full window has room for `n` ops exactly from the expiry of the entry before the budget, even with many equal stamps |
| RateLimiter.BackoffRange | src/exec/rate_limit.rs:338-346 | backoff lies between 15 s and 120 s and saturates exactly from level four |
| RateLimiter.LevelIsForgotten | src/exec/rate_limit.rs:338-370 | after any history a 429 raises the level by one; the first success forgets it exactly after five quiet minutes, the second always |
| RateLimiter.GatedDeadlineMovesForward | src/exec/rate_limit.rs:338-370 | behind the gate a 429 moves the deadline forward, and successes never move it |
| RateLimiter.DeadlineMovesBackIff | src/exec/rate_limit.rs:338-370 | after any history of 429s and successes a 429 moves the deadline back exactly when the level was reset since the last 429 and the old deadline is more than 15 s away |
| RateLimiter.DeadlineIsLastHit | src/exec/rate_limit.rs:338-370 | the deadline is the last 429's instant plus the backoff of the level it raised |
| RateLimiter.UngatedDeadlineCanMoveBack | src/exec/rate_limit.rs:338-370 | an input on which it does |
| NonceSync.RunKeepsTrust | src/exec/paced_send.rs:259-431 | whenever the lock is free and the nonce is trusted, the next local nonce is the one the venue expects |
| NonceSync.RunTrustIff | src/exec/paced_send.rs:259-431 | a run stays trusted at every free moment exactly when each step leaves the flag down or leaves no unrepaired cancel-all try |
| NonceSync.StepKeepsTrust | src/exec/paced_send.rs:259-431 | the flag each step leaves, and that a step keeps trust exactly when it leaves the flag down or its cancel-all leaves no unrepaired try |
| NonceSync.CancelAllDrift | src/orchestrator.rs:988-1020 | a cancel-all ends ahead of the venue by exactly its unrepaired tries |
| NonceSync.IgnoredRefreshEscapes | src/orchestrator.rs:1003-1003 | one lost cancel-all leaves a trusted flag on a wrong counter |
| NonceSync.PollerRepairs | src/orchestrator.rs:749-755 | the first poll that reaches the venue repairs an untrusted nonce |
| NonceSync.SignBatch | src/exec/signing.rs:21-109 | every op signed with consecutive nonces, or every reserved nonce given back |
| NonceSync.RoundsToNearestEven | src/util.rs:15-25 | to the nearest integer, and to the even one when two are equally near |
| NonceSync.GridPriceIsSigned | src/exec/signing.rs:40-69 | a create on the price grid is signed at exactly its number of ticks, and only if that fits in 32 bits |
| NonceSync.NonceManager.Rollback | src/lighter/nonce.rs:47-51 | exactly `n` nonces are given back |
| NonceSync.NonceManager.HardRefresh | src/lighter/nonce.rs:54-58 | the next nonce is the fetched one, or nothing changes |
| NonceSync.Sender.ResyncNonceOrPause | src/exec/paced_send.rs:114-140 | up to three refreshes, then the nonce is declared untrusted |
| NonceSync.Sender.HandleReply | src/exec/paced_send.rs:263-431 | which replies keep, roll back or re-fetch the nonce, and the fate reported for each op |
| NonceSync.Sender.SendOnce | src/exec/paced_send.rs:195-431 | sign, send, handle the reply and pull the ladder when paused or in doubt, as one step of the protocol |
| SendFate.FateOfSlot | src/exec/paced_send.rs:263-431 | on the slots, after mark and reply: an accepted batch binds its creates and modifies and frees its cancels, an unknown outcome changes no slot, and every definite failure frees exactly the slots of its creates |
| SendFate.PullsLadderTable | src/exec/paced_send.rs:263-431 | the ladder is pulled after every unknown outcome and every other failed frame that trips the breaker or leaves the nonce untrusted, never after an accepted or unsent one |
| NonceSync.Sender.CancelAllAndVerify | src/orchestrator.rs:988-1020 | the tries of a cancel-all with refresh on error |
| NonceSync.Sender.PollNonce | src/orchestrator.rs:749-755 | the poller's resync of an untrusted nonce |
| NonceSync.Sender.CancelOrphan | src/orchestrator.rs:757-798 | an orphan cancel and its nonce handling |
| FillAccounting.RunConserves | src/account/fill_accounting.rs:96-160 | through opens, adds, partial closes, exact closes and flips, realized PnL is cash flow plus the change in entry value minus fees |
| FillAccounting.ConservesIff | src/account/fill_accounting.rs:96-160 | one fill conserves value exactly when it is not a negative size against the position |
| FillAccounting.NegativeSizeExample | src/account/fill_accounting.rs:121-130 | an input of negative size that loses its closed leg |
| FillAccounting.VwapBetweenEntries | src/account/fill_accounting.rs:112-145 | starting flat, the VWAP lies between two prices of the fills that built the position |
| FillAccounting.AppliedPosition | src/account/fill_accounting.rs:96-160 | on the tick grid a fill moves the position by its signed size |
| FillAccounting.RunCounts | src/account/fill_accounting.rs:147-152 | over every run the counters are the number of fills and the turnover |
| FillAccounting.FeeOnNotional | src/account/fill_accounting.rs:102-103 | the fee is the notional times the rate, whatever their signs |
| FillAccounting.DustOpenExact | src/account/fill_accounting.rs:112-118 | opening over dust conserves value exactly when the dust had no entry value |
| FillAccounting.CloseExact | src/account/fill_accounting.rs:132-136 | a close that leaves a remainder below `EPSILON` conserves value exactly when the remainder had no entry value |
| FillAccounting.FillAccounting.Apply | src/account/fill_accounting.rs:96-160 | the four branches update the fields and return the realized delta as specified |
| FillAccounting.FillAccounting.FromSnapshotState | src/account/fill_accounting.rs:76-93 | the fields of a snapshot, with zero counters |
| PnlActor.RunIsSound | src/account/pnl_actor.rs:288-490 | over every event sequence: seen and pending ids disjoint and distinct, 10,000 other bookings between two of one id, realized PnL grows by the booked deltas, fills are buys plus sells |
| PnlActor.BookingKeepsDedupe | src/account/pnl_actor.rs:346-355 | booking an unseen id keeps the seen queue equal to the tail of the booking log |
| PnlActor.RetryKeepsSound | src/account/pnl_actor.rs:400-424 | retrying the whole queue keeps the books |
| PnlActor.QueueIsFifo | src/account/pnl_actor.rs:376-392 | what was lost, what waits and the new trade stay in order of arrival, and nothing is lost before the queue is full |
| PnlActor.RegisteredIs | src/account/pnl_actor.rs:290-299 | until the set is full the registered ids are exactly the positive ones announced |
| PnlPosition.RunTracks | src/account/pnl_actor.rs:288-490 | from any starting position: the local position is the venue's minus the current-generation trades still pending or pushed off a full queue, plus those of the current generation delivered again after they were forgotten, minus the initial difference until the first re-seed |
| PnlPosition.BooksOwnSide | src/account/pnl_actor.rs:690-718 | the actor books exactly the account's trades, and moves the position down for the ask side and up for the bid side, as the report's own fields say |
| PnlPosition.TradeTable | src/account/pnl_actor.rs:426-490 | what becomes of one trade, read off its report: queued while its client id is unknown, otherwise booked once with the exchange's PnL or the local one, counted as buy or sell by its side, and applied unless a snapshot already counts it |
| PnlPosition.SkipTable | src/account/pnl_actor.rs:357-398 | trades without an id or of other accounts count as unattributed, booked ones as duplicates, queued ones are ignored |
| PnlPosition.ReseedTable | src/account/pnl_actor.rs:327-343 | a snapshot re-seeds exactly when it is flat or knows its entry price, and otherwise changes nothing |
| PnlPosition.GapCloses | src/account/pnl_actor.rs:327-343 | from the first re-seeding snapshot on there is no initial difference left |
| PnlPosition.ReseedTracks | src/account/pnl_actor.rs:327-343 | a re-seed closes any difference, takes the venue's entry price, keeps realized PnL, and nothing queued earlier is owed or applied again |
| PnlPosition.ProcessTracks | src/account/pnl_actor.rs:357-398 | one delivered trade, booked, queued or known, keeps the equation |
| PnlPosition.RetryTracks | src/account/pnl_actor.rs:400-424 | retrying the queue keeps the equation |
| PnlPosition.SoonIsNotRepeated | src/account/pnl_actor.rs:346-373 | trades delivered again within 10,000 bookings, and not after they fell off the queue, are never processed twice |
| PnlTask.Task.Serve | src/account/pnl_actor.rs:222-262 | every event sequence ends in the prescribed state with hash sets equal to their queues and sound books |
| PnlTask.Task.Handle | src/account/pnl_actor.rs:288-325 | one event, in the order trades, retry, position |
| PnlTask.Task.AdoptPosition | src/account/pnl_actor.rs:327-343 | re-seed and new generation, or nothing when the entry price is unknown |
| PnlTask.Task.MarkSeen | src/account/pnl_actor.rs:346-355 | FIFO-bounded insertion, set and queue in step |
| PnlTask.InsertBounded | src/account/pnl_actor.rs:290-299 | the eviction loop keeps the newest 10,000 ids and the set equal to the queue |
| PnlTask.Task.ProcessTrade | src/account/pnl_actor.rs:357-398 | booked, queued, counted as duplicate or skipped as specified |
| PnlTask.Task.Enqueue | src/account/pnl_actor.rs:376-392 | the overflow loop drops exactly the oldest trades beyond the limit |
| PnlTask.Task.RetryQueue | src/account/pnl_actor.rs:400-424 | the retry loop leaves exactly the trades that are still waiting, in order |
| PnlTask.Task.TryAcceptTrade | src/account/pnl_actor.rs:426-490 | the decision and the booking of one trade |
| Quotes.PipelineSafe | src/strategy/quotes.rs:43-170 | every quote leaving the pipeline is a whole number of ticks, bids below mid, asks above, deeper levels never closer, for every setting |
| Quotes.EngineQuoteSafe | src/strategy/vol_obi.rs:163-212 | the level-0 quote is on the grid and straddles mid |
| Quotes.QuoteLeansAgainstInventory | src/strategy/vol_obi.rs:163-212 | a larger position never raises either quote |
| Quotes.QuoteFollowsAlpha | src/strategy/vol_obi.rs:163-212 | a larger alpha never lowers either quote |
| Quotes.QuoteInDollars | src/strategy/vol_obi.rs:163-212 | the quote lies within a tick outside fair price minus and plus the leaned half-spread, capped by the minimum spread |
| Quotes.FlatQuoteSpread | src/strategy/vol_obi.rs:163-212 | flat and without a signal both quotes are at least the half-spread from mid and within a tick of it or of the minimum spread |
| Quotes.QuoteExistsIff | src/strategy/vol_obi.rs:163-212 | with a minimum half-spread there is a quote exactly once the engine is warm |
| Quotes.LeaningExample | src/strategy/vol_obi.rs:180-181 | ten long quotes 98.9 / 101.0 and ten short 99.0 / 101.1 |
| Quotes.FallbackSafe | src/strategy/quotes.rs:178-206 | the fallback quote is on the grid and on its side of mid |
| Quotes.FallbackDistance | src/strategy/quotes.rs:178-206 | the exit is quoted on the reducing side only, within a tick beyond the larger of the fallback spread and one tick |
| Quotes.BuiltSafe | src/strategy/quotes.rs:43-98 | the built ladder is safe whichever branch builds it |
| Quotes.LevelDistance | src/strategy/quotes.rs:66-98 | level `i` lies within a tick beyond the level-0 distance times the factor to the power `i`, on the sides level 0 quotes |
| Quotes.QualityKeepsSafe | src/strategy/quotes.rs:101-115 | widening keeps a safe ladder safe |
| Quotes.WidenedDistance | src/strategy/quotes.rs:101-115 | a multiplier above 1.0001 scales each quote's distance from mid up to a tick outward; any other changes nothing |
| Quotes.BiasKeepsSafe | src/strategy/quotes.rs:119-170 | tightening or widening keeps a safe ladder safe |
| Quotes.BiasFactorsPositive | src/strategy/quotes.rs:128-145 | the bias never turns a depth to zero or through mid |
| Quotes.BiasSides | src/strategy/quotes.rs:128-145 | the factor of the reducing side is at most one and that of the adding side at least one, within the configured limits |
| Quotes.BiasExample | src/strategy/quotes.rs:119-145 | the two factors of a half-used position limit, with and without adverse excess, and none for a small position |
| Quotes.AddingSideNoCloser | src/strategy/quotes.rs:146-170 | the adding side never comes closer to mid |
| Quotes.ExitSideNoFurtherIff | src/strategy/quotes.rs:146-170 | the reducing side comes no further from mid exactly when it is a tick away or the biased minimum of a tick reaches no further than it |
| Quotes.ExitMovesOutExample | src/strategy/quotes.rs:146-170 | an ask half a tick above mid is moved out by a tick |
| Quotes.PowGrows | src/strategy/quotes.rs:19-21 | spread factors from a factor of at least one never decrease |
| Quotes.BuildQuoteLevels | src/strategy/quotes.rs:43-98 | the loop builds the specified ladder |
| Quotes.FallbackLevels | src/strategy/quotes.rs:178-206 | one reducing quote on level 0, nothing else |
| Quotes.ApplyQualitySpreadMultiplier | src/strategy/quotes.rs:101-115 | in place, every level is widened and none is skipped |
| Quotes.ApplyInventoryExitBias | src/strategy/quotes.rs:119-170 | in place, every level is biased by the side's factor |
| Quotes.QuoteLadder | src/orchestrator.rs:1601-1633 | the whole pipeline as the hot task runs it, safe for positive mid and half-spread and factor at least one |
| Quotes.PipelineExample | src/orchestrator.rs:1601-1633 | engine, widening and bias together, on a long desk |
| Exposure.ExposureBoundedIff | src/orchestrator.rs:1513-1562 | with every order carrying this cycle's flag, filling any part of one side leaves the account's own position within 0.9 of leveraged capital or worth no more than before, exactly unless the dust exit or hidden dust escapes |
| Exposure.ExposureAnyFlagsIff | src/exec/signing.rs:71-82 | the same whatever flag each resting order carries, exactly unless a plain exit overshoots or hidden dust escapes |
| Exposure.StaleFlagExample | src/exec/signing.rs:71-82 | an ask placed while flat that overshoots when the fallback reuses it as the exit |
| Exposure.CapReserves | src/util.rs:51-69 | a positive cap plus a whole side of the ladder fits the budget |
| Exposure.CapExact | src/util.rs:51-69 | the cap is the budget less 1.8 times a side of the ladder when that is not negative, and zero otherwise |
| Exposure.CapExample | src/util.rs:51-69 | the cap of a two-level ladder, and without one |
| Exposure.LadderBoundedIff | src/strategy/quotes.rs:66-98 | the bound for the full ladder, exactly unless dust quoted as flat and a whole side exceed the budget |
| Exposure.ExitBoundedIff | src/strategy/quotes.rs:178-206 | the bound for an exit on level 0, exactly unless the position is `EPSILON` and the order too large |
| Exposure.WarmupExitIff | src/orchestrator.rs:1586-1601 | the same for the warm-up exit, at any size |
| Exposure.DustExitExample | src/exec/order_manager.rs:117-119 | an input on which the dust exit escapes, with a dust threshold that lets it through |
| Exposure.HiddenDustExample | src/orchestrator.rs:1513-1521 | an input on which dust quoted as flat escapes |
| Exposure.NoHiddenDustBelowCap | src/orchestrator.rs:1513-1562 | a dust threshold no larger than the cap hides nothing that matters |

## Left out

- IEEE rounding, NaN and overflow: all arithmetic is exact; square root is an arbitrary function given to the statistics, so deviations are stated through `m2 / n`.
- Network, parsing, files, logging, configuration, the signing library: their results are parameters.
- Memory ordering of the shared atomics, the freshest-wins mailbox and task scheduling: each component is driven by arbitrary inputs instead, and the nonce protocol is stated for the moments the lock is free.
- The reading of `nonce_ok` before the lock is taken: a send while untrusted is possible and not excluded by the model.
- DepthSync.RunFaithful: assumes complete snapshots at `lastUpdateId` and events with final sizes for every changed price; Binance's limited snapshot depth is not modelled.
- HotBook.QuotesSeeVenueBook: assumes that the first book message of each connection is a snapshot and that messages carry their nonces; the ticker cross-check is an arbitrary answer.
- DepthClient.ApplySnapshotAndDrain: asks for distinct prices in the snapshot, which the code does not check; with a repeated price the code goes on with vectors that represent no map (`Book.SortedSnapshotValid`).
- HotBook.HotTask.OnOrderBookMessage: asks for distinct prices in a full write, for the same reason.
- OrderDiff.DiffConverges: covers the live sender's acknowledgements; the dry run's invented exchange ids are not modelled.
- OrderRuns.FreedByFirstDueSnapshot: covers unresolved ids absent from the snapshots; rows with a terminal status rebind the slot, and resolved ids are the subject of `OrderRuns.FreedAfterLastTouch`.
- OrderManager.OrderManager.ProcessReconcile: one instant per call, where the code reads the clock for every slot.
- RateLimiter.Drive: counts recorded ops; a batch with an unknown outcome or that was not sent is not recorded by the code and so not by the model.
- NonceSync.RunKeepsTrust: an unknown frame is taken to be settled at the venue before the nonce is fetched again; pause, cool-down and reconcile flags of the risk controller are not modelled.
- PnlPosition.RunTracks: sizes and the restored position lie on a tick grid no finer than 1e-9, and trades from before the session are not delivered in it. A trade of the account with itself is counted as its ask side, as the code books it.
- Capital events, mark-to-market, CSV and JSON output of the PnL actor: they do not feed back into the accounting.
- Exposure.ExposureBoundedIff: all orders of the side carry the flag of the current cycle; `Exposure.ExposureAnyFlagsIff` drops that.
- Live metrics and the risk controller's flag machine: not wired into quoting, or single branches only.
