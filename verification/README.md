# bt_api_base: verified models of its stateful engines

This project models the parts of `bt_api_base` whose guarantees are about whole runs, and proves those
guarantees: rate limiting with rollback, the TTL/LRU cache, the WebSocket readiness protocol and its two
watchdogs, the crash-safe order-ref allocator, subscription counting, order identity and event routing, the
buffered tick writer, the async connection pool, the instrument indexes, the circuit breaker, the async rate
limiter, and recursive redaction. `dafny verify dfyconfig.toml` checks everything.

## How the model is built

Each component is one module (large ones split into operations and theorems). A class carries the source's
fields, and each of its methods, loops included, is proved to equal a function on the class's view; so are the
gateway commands that act on such objects. A run is a sequence of operations or actions applied to that view; the
theorems are about every run. Each region under a lock, and each stretch of asyncio code between awaits, is one
atomic step, and an addition to a shared total outside any lock is two, a load and a store; an action that cannot
happen in a state is skipped, so every sequence of actions is a run. Clock readings are parameters, as reals.
Outcomes of I/O (a send, a file write, an adapter's answer, the factory) are chosen by the run. Where a theorem
speaks of history, the history (`log`, `granted`, `issued`, `batches`, ...) is recorded beside the state and never
read by it. Beside the theorems on runs stand laws on the raw inputs (rules, dictionaries, values, traces) that say
what the specifications themselves mean.

| file | component |
|---|---|
| `Limiters.dfy`, `LimiterBounds.dfy`, `RateLimiting.dfy`, `RateLimitRules.dfy`, `RateLimitTheorems.dfy` | `rate_limiter.py` |
| `Cache.dfy`, `CacheTheorems.dfy` | `cache.py` |
| `WebSocketApp.dfy`, `Readiness.dfy`, `Watchdogs.dfy` | `feeds/my_websocket_app.py` |
| `OrderRefs.dfy` | `gateway/order_ref_allocator.py` |
| `Subscriptions.dfy` | `gateway/subscription_manager.py`, `gateway/runtime_remote.py` |
| `OrderIdentity.dfy`, `OrderRouting.dfy`, `OrderTheorems.dfy`, `OrderReading.dfy` | `gateway/order_identity_map.py`, `gateway/runtime_remote.py` |
| `TickWriter.dfy`, `TickCalls.dfy`, `TickOrder.dfy` | `gateway/storage/tick_writer.py` |
| `AsyncPool.dfy` | `connection_pool.py` |
| `AsyncGuards.dfy` | `core/async_context.py` |
| `Instruments.dfy` | `instrument_manager.py` |
| `Redaction.dfy`, `RedactionLaws.dfy` | `feeds/transport_safety.py` |

## Where the code keeps less than one might expect

- Rollback of a refused `RateLimiter.acquire` is exact for sliding windows whatever the weights; for a fixed
  window exactly when neither the weight nor the counter it was added to is negative (`HandBackExactIff`,
  `AllOrNothingIff`; instances are `NegativeWeightLeavesCharge` and, with a negative counter left by an earlier
  call, `NegativeCounterForgotten`). Without a roll it is exact when the counter was not negative
  (`FixedRefundIff`).
- The sliding bound, and the bound of a fixed window on spans, hold for all weights from a given least one on
  exactly when that one is not negative (`BoundIffNonNegative`, `SpanBoundIffNonNegative`); the bound on aligned
  windows holds for weights of any sign (`CompositeBounds`).
- Decisions are those of a plain log for weights of any sign on sliding windows (`AttemptRefinesLog`). A fixed
  window goes on accounting for the log after every refused call exactly when the demand handed back was not
  negative or not admitted (`RefusalKeepsAccountIff`).
- A replacement is certain to remove a secret, and sanitizing a value that collects it is certain to clean it,
  exactly when the secret neither starts nor ends with `*` and holds no `***` (`AlwaysRemovedIffSafe`,
  `AlwaysCleanedIffSafe`).
- Venue lookups are complete at every point of a run exactly when live (venue, symbol) pairs are unique at every
  point (`CompleteIffAlwaysUnique`); a collision that is over still hides an instrument (`PastCollisionHides`).
- A failed persist followed by a crash and a plain restart repeats a ref (`LostPersistRepeats`); after a restart
  the next ref is fresh exactly when the loaded counter reaches the last one issued (`RestartFreshIff`).
- A state file whose reading raises a plain `ValueError` - text that is not valid UTF-8, or an integer of too many
  digits - is never replaced, and refs repeat although nothing fails (`ValueErrorFileRepeats`); every run without
  failures is safe exactly when the first file is not such a file (`RefsIncreaseIffNoValueError`).
- The end of a batch reports ready with subscriptions unacknowledged exactly when the connection was closed during
  the batch, or when acknowledgements of something else, or counted sends of an older batch or already acknowledged
  that raise, have taken all of them off the count (`EndDecidesIff`, `UnacknowledgedHidden`).
- A batch that has ended, with nothing left on the count, is never decided exactly when it was a send that raised
  after the end that took the count to zero (`UndecidedIffRaised`, `FailedSendHushes`).
- A raising factory, or a cancelled wait for the lock, loses a semaphore permit for ever (`lost` in
  `PoolCapacity`). A late second release breaks exclusive use (`StaleReleaseShares`); connections are used
  exclusively exactly when every release returns what its caller holds or what is not out (`ExclusiveIffOwned`).
- Overlapping flushes of one symbol can lose rows (`OverlapLosesRows`); the files hold every committed batch
  exactly when no flush commits a file that another one has changed since it was read
  (`FilesHoldIffUndisturbed`). Up to the commit no row is ever lost (`RowsPermuted`), and their order survives
  exactly when no flush overtakes another (`OrderedIffNoOvertaking`).
- Flushes, of different symbols too, can lose each other's additions to the flushed total
  (`InterleavedCountLost`); it stays exact exactly when no flush stores it after another one has since its load
  (`TotalExactIffUnmoved`).
- Removing an order leaves behind exactly its superseded aliases (`RemovalForgetsIff`, `StaleAliasSurvives`).
- While the clock does not go back, every sleep that returns early breaks the async limiter's bound, and nothing
  else does (`BoundedIffSleepsLast`; an instance is `EarlyWakeOvershoots`).

## Model

| member | source | states |
|---|---|---|
| `Limiters.SlidingWindowLimiter.Acquire` | src/bt_api_base/rate_limiter.py:91-105 | after dropping expired requests, admits exactly when the remaining weight plus the request fits, and records it |
| `Limiters.SlidingWindowLimiter.Release` | src/bt_api_base/rate_limiter.py:107-113 | takes back the newest unexpired request if its weight matches, else only prunes |
| `Limiters.FixedWindowLimiter.Acquire` | src/bt_api_base/rate_limiter.py:143-156 | rolls to the aligned window of the reading, then admits exactly when the counter leaves room |
| `Limiters.FixedWindowLimiter.Release` | src/bt_api_base/rate_limiter.py:158-161 | lowers the counter, never below zero, without rolling |
| `LimiterBounds.AdmitsIffHistoryAllows` | src/bt_api_base/rate_limiter.py:96-105 | the pruned deque or rolling counter decides what a scan of the whole admission history over the current window would decide |
| `LimiterBounds.DequeIsUnexpiredSuffix` | src/bt_api_base/rate_limiter.py:91-129 | for every run of acquire, release and usage reads with a clock that never goes back, and weights of any sign, the deque is the unexpired suffix of the admitted, unreleased charges |
| `LimiterBounds.SlidingWindowSafety` | src/bt_api_base/rate_limiter.py:91-129 | for every such run with weights that are not negative, no closed window of length interval holds more than limit of admitted, unreleased weight |
| `LimiterBounds.SlidingDecisionsMatchHistory` | src/bt_api_base/rate_limiter.py:96-105 | after any run, with weights of any sign, an acquire is admitted if and only if the unreleased charges of the last interval leave room |
| `LimiterBounds.NegativeWeightBreaksBound` | src/bt_api_base/rate_limiter.py:96-105 | for every negative weight, limit from zero on and positive interval, a run with it that exceeds the limit in a later window |
| `LimiterBounds.BoundIffNonNegative` | src/bt_api_base/rate_limiter.py:96-105 | all runs with weights from `least` on keep the window bound if and only if `least` is not negative |
| `LimiterBounds.AlignedBoundsSpans` | src/bt_api_base/rate_limiter.py:143-156 | a limit per aligned window bounds every half-open span of one interval by twice the limit |
| `RateLimiting.RateLimiter.Acquire` | src/bt_api_base/rate_limiter.py:244-268 | the loop over matched rules, on limiter objects shared by name, with reverse-order rollback, equals the specification of one call |
| `RateLimiting.RateLimiter.constructor` | src/bt_api_base/rate_limiter.py:208-218 | builds one limiter per name, the last rule with a limiter type winning |
| `RateLimitRules.LimiterOfName` | src/bt_api_base/rate_limiter.py:208-218 | a name has a limiter if and only if some rule of that name has a limiter type, and the last such rule gives its kind, interval and limit |
| `RateLimitRules.WeightIsCharged` | src/bt_api_base/rate_limiter.py:70-78 | the weight charged is the entry for "METHOD path", else the one for METHOD, else the rule's own |
| `RateLimitRules.EntriesDecide` | src/bt_api_base/rate_limiter.py:70-78 | adding an entry under "METHOD path" decides, under METHOD decides when there is none, and under any other key changes nothing |
| `RateLimitRules.ScopeDecides` | src/bt_api_base/rate_limiter.py:62-68 | a global rule applies to every path, an endpoint rule with a pattern to the paths it globs, any other to none |
| `RateLimitRules.ChargesInOrder` | src/bt_api_base/rate_limiter.py:220-221 | a call is charged once for every matched rule with a limiter, in the order of the rules, with the rule's weight for it times its own, and for nothing else |
| `RateLimitRules.OneRuleAdmits` | src/bt_api_base/rate_limiter.py:244-268 | a call one rule is charged for is admitted if and only if usage plus the rule's weight for it times its own is at most the limit |
| `RateLimitRules.ThreePosts` | src/bt_api_base/rate_limiter.py:70-78 | an instance: with POST weighing 5 of 10, the third POST in a second is refused |
| `RateLimitTheorems.UndoTake` | src/bt_api_base/rate_limiter.py:107-161 | a release undoes its charge up to pruning or rolling, whatever expired or rolled in between |
| `RateLimitTheorems.RefusalLeavesNoCharge` | src/bt_api_base/rate_limiter.py:253-267 | a refused call leaves every limiter its old self merely pruned or rolled at a moment of the call, with windows rolling mid-call and several rules sharing a limiter; a fixed window needs its own counter and demands not to be negative |
| `RateLimitTheorems.RefusedRequestLeavesNoTrace` | src/bt_api_base/rate_limiter.py:244-268 | the same in every state a run of requests can reach; only demands on a fixed window itself must not be negative |
| `RateLimitTheorems.OthersUntouched` | src/bt_api_base/rate_limiter.py:255-262 | limiters named by no matched rule are unchanged |
| `RateLimitTheorems.FixedRefundIff` | src/bt_api_base/rate_limiter.py:153-161 | with no roll in between, charge then release restores the counter if and only if it was not negative |
| `RateLimitTheorems.HandBackExactIff` | src/bt_api_base/rate_limiter.py:107-161 | over all later clock readings a release takes its charge back without trace if and only if the limiter is a sliding window, or neither the weight nor the current counter is negative |
| `RateLimitTheorems.AllOrNothingIff` | src/bt_api_base/rate_limiter.py:244-268 | over all further demands and readings, a refused call leaves no charge of w behind if and only if the limiter is a sliding window, neither w nor the current counter is negative, or w was not admitted |
| `RateLimitTheorems.NegativeWeightLeavesCharge` | src/bt_api_base/rate_limiter.py:244-268 | an instance: a refused call with a negative weight leaves a charge behind |
| `RateLimitTheorems.NegativeCounterForgotten` | src/bt_api_base/rate_limiter.py:153-161 | an instance: a negative counter, left by an admitted call, is cleared by a refused one without negative weights |
| `RateLimitTheorems.AttemptRefinesLog` | src/bt_api_base/rate_limiter.py:244-268 | a call succeeds if and only if every matched rule's demand fits a plain log in turn; success adds exactly one charge per matched rule with a limiter, refusal adds none; only demands on fixed windows must not be negative |
| `RateLimitTheorems.RefusalKeepsAccountIff` | src/bt_api_base/rate_limiter.py:244-268 | over all further demands and readings a refused call leaves a fixed window accounting for the log if and only if the demand was not negative or not admitted |
| `RateLimitTheorems.SuccessChargesEachOnce` | src/bt_api_base/rate_limiter.py:255-268 | whatever the signs, a call that succeeds has charged every matched rule exactly once, in turn, at one reading each |
| `RateLimitTheorems.RequestsDecidedByLog` | src/bt_api_base/rate_limiter.py:244-268 | after any run of requests whose demands on fixed windows are not negative, the next one succeeds if and only if its demands fit the log |
| `RateLimitTheorems.CompositeBounds` | src/bt_api_base/rate_limiter.py:143-161 | in every run through the composite limiter a fixed window keeps its limit per aligned window for weights of any sign; if no demand on the limiter itself is negative, a sliding one keeps its window bound and a fixed one twice the limit per span; rolled-back charges are never counted |
| `RateLimitTheorems.SpanBoundIffNonNegative` | src/bt_api_base/rate_limiter.py:143-161 | runs with weights from `least` on keep twice the limit in every half-open span if and only if `least` is not negative |
| `Cache.SimpleCache.GetOrMiss` | src/bt_api_base/cache.py:49-64 | hit, expired and missing cases, recency update and counters |
| `Cache.SimpleCache.Store` | src/bt_api_base/cache.py:70-82 | replaces or appends as youngest, then evicts oldest entries down to the size limit |
| `Cache.SimpleCache.Cleanup` | src/bt_api_base/cache.py:94-106 | keeps exactly the unexpired entries in order and counts the rest |
| `Cache.RunInvariant` | src/bt_api_base/cache.py:49-106 | keys stay unique and a bounded cache never exceeds its size |
| `CacheTheorems.Inclusion` | src/bt_api_base/cache.py:49-106 | on every common trace the cache of capacity n is that of capacity n+1 with at most one entry removed, in the same order |
| `CacheTheorems.LargerCacheHitsToo` | src/bt_api_base/cache.py:49-106 | a larger capacity never turns a hit into a miss or changes the value |
| `CacheTheorems.HitIsLastStored` | src/bt_api_base/cache.py:49-92 | an entry found is the last one stored under its key, not deleted or cleared since |
| `CacheTheorems.Survives` | src/bt_api_base/cache.py:57-82 | an entry set or hit, then not replaced, deleted, cleared or expired, stays while fewer than max_size distinct other keys are set or hit |
| `CacheTheorems.AnswersAsPlainMap` | src/bt_api_base/cache.py:49-106 | while no more distinct keys are set than fit, or without a bound, get answers exactly as the plain timed map |
| `CacheTheorems.HitIffSetLast` | src/bt_api_base/cache.py:49-106 | while keys fit, get answers v if and only if the last of set, delete and clear on the key is a set of v whose own ttl, or else the default one, is not over |
| `CacheTheorems.SetSurvives` | src/bt_api_base/cache.py:49-106 | whatever the capacity, an answer is the last value set, in time; and such a value is found while fewer than max_size other keys are set or hit and no reading was past its time |
| `WebSocketApp.MyWebsocketApp.SubscriptionAcknowledged` | src/bt_api_base/feeds/my_websocket_app.py:217-225 | counts down and marks ready exactly on the last acknowledgement after the batch ended |
| `WebSocketApp.MyWebsocketApp.Subscribe` | src/bt_api_base/feeds/my_websocket_app.py:185-200 | counts a tracked send and takes it back when the send raises |
| `WebSocketApp.MyWebsocketApp.OnOpen` | src/bt_api_base/feeds/my_websocket_app.py:300-312 | starts a generation and sets its readiness deadline and socket |
| `WebSocketApp.MyWebsocketApp.OnClose` | src/bt_api_base/feeds/my_websocket_app.py:395-405 | resets the batch, the latch, the deadline and the activity time |
| `WebSocketApp.MyWebsocketApp.ClaimReadinessTimeout` | src/bt_api_base/feeds/my_websocket_app.py:615-626 | acts exactly when the second look still shows the sampled deadline, generation and socket |
| `WebSocketApp.MyWebsocketApp.ClaimIdleClose` | src/bt_api_base/feeds/my_websocket_app.py:657-668 | latches exactly when the second look still shows the sampled activity, generation and socket |
| `Readiness.DecidedExactlyOnce` | src/bt_api_base/feeds/my_websocket_app.py:178-238 | with sends by any threads, failed sends, closes and acknowledgements of any origin in any order, readiness is decided at most once per batch, exactly when the sender is done and the count is zero, unless a failed send took it there after the end; the count is what waits less what others took off it, and never negative |
| `Readiness.UndecidedIffRaised` | src/bt_api_base/feeds/my_websocket_app.py:185-225 | a batch whose count is at zero stays undecided if and only if a send that raised took it there after the end |
| `Readiness.FailedSendHushes` | src/bt_api_base/feeds/my_websocket_app.py:185-225 | a run with a complete batch that is never decided |
| `Readiness.DecidedWhenComplete` | src/bt_api_base/feeds/my_websocket_app.py:178-238 | with each subscription acknowledged once and no other acknowledgement or failed send counted, pending is always sent minus acknowledged, and readiness is decided exactly once when the batch is complete, never while one is outstanding, by end if all acknowledgements came first and otherwise by the last one; only a failed send completing it after the end leaves it undecided |
| `Readiness.CompletionDecides` | src/bt_api_base/feeds/my_websocket_app.py:185-225 | a step decides if and only if it settles the batch and is not a failed send |
| `Readiness.EndDecidesIff` | src/bt_api_base/feeds/my_websocket_app.py:185-225 | the end of a batch reports ready if and only if a close came during the batch or what others took off the count makes up for everything that waits |
| `Readiness.UnacknowledgedHidden` | src/bt_api_base/feeds/my_websocket_app.py:185-225 | three runs that report ready with a subscription unacknowledged: after a close, after a stray acknowledgement, and after an older counted send raises |
| `Watchdogs.TimeoutHitsItsOwnSocket` | src/bt_api_base/feeds/my_websocket_app.py:598-635 | a readiness timeout names the socket and generation of the on_open that set the expired deadline, with nothing settling that connection in between |
| `Watchdogs.OneTimeoutPerGeneration` | src/bt_api_base/feeds/my_websocket_app.py:598-635 | at most one readiness timeout per generation |
| `Watchdogs.IdleClosesSeparated` | src/bt_api_base/feeds/my_websocket_app.py:637-678 | an idle close rests on the latest activity, older than the timeout; two idle closes have an on_open, on_close or readiness between them |
| `Watchdogs.UnreadyTimesOut` | src/bt_api_base/feeds/my_websocket_app.py:300-312 | a connection that has not settled and is still current is timed out by the next pass that looks later than its on_open plus the timeout |
| `Watchdogs.ZeroNeverTimesOut` | src/bt_api_base/feeds/my_websocket_app.py:300-312 | with the timeout at zero nothing is ever timed out |
| `Watchdogs.QuietIsClosed` | src/bt_api_base/feeds/my_websocket_app.py:637-678 | a connection that runs or awaits readiness and has been quiet for longer than the idle timeout is closed by the next pass, unless an idle close is still unanswered |
| `OrderRefs.OrderRefAllocator.Next` | src/bt_api_base/gateway/order_ref_allocator.py:32-37 | returns the next value and leaves the file as the persist outcome says |
| `OrderRefs.OrderRefAllocator.AlignWithMax` | src/bt_api_base/gateway/order_ref_allocator.py:43-54 | raises the counter to the given maximum, never lowers it |
| `OrderRefs.PersistRoundTrip` | src/bt_api_base/gateway/order_ref_allocator.py:61-112 | a persist that gets through is read back by the next load and keeps every other key of the file |
| `OrderRefs.LoadTakes` | src/bt_api_base/gateway/order_ref_allocator.py:61-83 | a load takes the larger of initial and saved value, a missing or falsy one counting as zero, and the initial value when nothing can be read |
| `OrderRefs.PersistLeaves` | src/bt_api_base/gateway/order_ref_allocator.py:85-129 | a persist leaves the value and every other key that could be read and nothing else, or the file as it was |
| `OrderRefs.RefsIncrease` | src/bt_api_base/gateway/order_ref_allocator.py:32-129 | with crashes at any step and persists failing at will, refs strictly increase over the whole run if each process loads a file known to hold the last ref, or is aligned with it, before its first next |
| `OrderRefs.RefsIncreaseIffNoValueError` | src/bt_api_base/gateway/order_ref_allocator.py:32-129 | refs strictly increase in every run without failures, over any number of crashes and restarts, if and only if reading the first state file does not raise a plain ValueError |
| `OrderRefs.ValueErrorFileRepeats` | src/bt_api_base/gateway/order_ref_allocator.py:85-123 | a run in which every operation succeeds and a ref repeats, for a file whose reading raises a plain ValueError |
| `OrderRefs.AlignRecovers` | src/bt_api_base/gateway/order_ref_allocator.py:43-54 | if every process is aligned with at least the last issued ref before its first next, refs strictly increase over the whole run, whatever loads and persists fail |
| `OrderRefs.RestartFreshIff` | src/bt_api_base/gateway/order_ref_allocator.py:61-71 | the first ref after a restart, whether the load can read the file or not, is fresh if and only if the initial value or a value read reaches the last one issued |
| `OrderRefs.LostPersistRepeats` | src/bt_api_base/gateway/order_ref_allocator.py:124-129 | a run in which a swallowed persist failure makes a ref repeat |
| `Subscriptions.CountsAdd` | src/bt_api_base/gateway/subscription_manager.py:19-24 | one more holder raises the count by one, and the count is one exactly for a symbol nobody held |
| `Subscriptions.CountsDrop` | src/bt_api_base/gateway/subscription_manager.py:33-39 | one holder less lowers the count, and the symbol is dropped exactly when nobody holds it |
| `Subscriptions.SubscriptionManager.Add` | src/bt_api_base/gateway/subscription_manager.py:16-25 | keeps counts equal to holders; returns the symbols that were not active |
| `Subscriptions.SubscriptionManager.Remove` | src/bt_api_base/gateway/subscription_manager.py:27-42 | keeps counts equal to holders; returns the symbols that stop being active; drops an empty strategy |
| `Subscriptions.SubscriptionManager.RemoveStrategy` | src/bt_api_base/gateway/subscription_manager.py:44-53 | removes the strategy and returns the symbols only it held |
| `Subscriptions.SubscribeForStrategy` | src/bt_api_base/gateway/runtime_remote.py:285-324 | the command, on the manager object, equals its specification for any adapter answer |
| `Subscriptions.SubscribeLaws` | src/bt_api_base/gateway/runtime_remote.py:285-324 | subscribed is accepted minus previously active; active becomes old active plus accepted; accepted and skipped are disjoint; other strategies are untouched |
| `Subscriptions.SubscribeAnswers` | src/bt_api_base/gateway/runtime_remote.py:285-324 | blank requests are dropped, active ones accepted without asking; for the rest a reply that is no dictionary accepts all, and one that is accepts the first non-empty of its three lists and skips that of its two |
| `OrderIdentity.OrderIdentityMap.RegisterOrder` | src/bt_api_base/gateway/order_identity_map.py:28-52 | adds one shared entry and indexes it under its non-empty ids |
| `OrderIdentity.OrderIdentityMap.SetClientOrderId` | src/bt_api_base/gateway/order_identity_map.py:54-61 | updates the shared entry and adds the alias |
| `OrderIdentity.OrderIdentityMap.SetVenueOrderIdByClient` | src/bt_api_base/gateway/order_identity_map.py:72-81 | finds the entry by client id, even a stale one, and adds the venue id |
| `OrderIdentity.OrderIdentityMap.RemoveOrder` | src/bt_api_base/gateway/order_identity_map.py:110-119 | drops the request id and only the current client and venue ids |
| `OrderRouting.EnrichEventPayload` | src/bt_api_base/gateway/runtime_remote.py:586-608 | lookup, defaults, learning of ids and status update on the map object equal their specification |
| `OrderRouting.PlaceOrder` | src/bt_api_base/gateway/runtime_remote.py:370-391 | the command on the map object: registration, allocated ref, payload sent and recorded result ids equal their specification |
| `OrderRouting.RecordOrderResultIds` | src/bt_api_base/gateway/runtime_remote.py:424-479 | the first usable client and venue id in the answer, then the payload, are set on the order |
| `OrderReading.StripIs` | src/bt_api_base/gateway/runtime_remote.py:406-412 | stripping takes white space off both ends, nothing else, and leaves none there |
| `OrderReading.NestedTextIff` | src/bt_api_base/gateway/runtime_remote.py:406-422 | an id is read under the first key with a value in the dictionary, or, when that gives nothing usable, in its details |
| `OrderReading.OneIdReaches` | src/bt_api_base/gateway/runtime_remote.py:586-648 | an event that carries one id of a live order, under any listed key, in itself or only in its details, reaches that order and has every default filled in |
| `OrderReading.FirstKindWins` | src/bt_api_base/gateway/runtime_remote.py:610-648 | a known request id wins over client and venue ids, and a known client id over venue ids |
| `OrderReading.StatusRecorded` | src/bt_api_base/gateway/runtime_remote.py:604-607 | a status text is recorded, stripped, on the order the event concerns |
| `OrderReading.EntryAsTold` | src/bt_api_base/gateway/order_identity_map.py:28-119 | the map keeps each live order's record as if it kept no other: strategy and symbol as registered, and the client id, venue id and status last set for it |
| `OrderReading.SentClientId` | src/bt_api_base/gateway/runtime_remote.py:370-387 | the adapter gets the payload with only the client order id changed: the allocated ref, else the payload's own, else the text under order_ref or bt_order_ref |
| `OrderReading.AnswerRecorded` | src/bt_api_base/gateway/runtime_remote.py:424-479 | an id that the first answer dictionary with any listed key carries under one key, in itself or only in its details, leads to the new order |
| `OrderReading.PlacedRecord` | src/bt_api_base/gateway/runtime_remote.py:370-391 | the new record has the command's strategy and symbol, the client id of the answer, else the ref, else the payload's own, and the answer's venue id |
| `OrderReading.FillInDetails` | src/bt_api_base/gateway/runtime_remote.py:586-648 | an instance: a fill report with the venue id only in its details |
| `OrderTheorems.AliasesResolve` | src/bt_api_base/gateway/order_identity_map.py:28-119 | with fresh request ids and no id given to two orders, every id ever given to a live order resolves to it despite removals of others, and an id given to nobody to nothing |
| `OrderTheorems.RemovalForgetsIff` | src/bt_api_base/gateway/order_identity_map.py:110-119 | of all ids ever given to an order, its removal forgets exactly the current client id and the current venue id; every other one still leads to the removed order |
| `OrderTheorems.StaleAliasSurvives` | src/bt_api_base/gateway/order_identity_map.py:115-118 | an instance: a superseded alias still leads to its removed order |
| `OrderTheorems.EventReachesItsOrder` | src/bt_api_base/gateway/runtime_remote.py:586-648 | an event with ids of one live order and otherwise unknown ids is enriched from that order's entry, no carried key overwritten |
| `OrderTheorems.DefaultsKeep` | src/bt_api_base/gateway/runtime_remote.py:594-602 | carried keys keep their values, missing ones are filled from the entry |
| `OrderTheorems.EventsAreRuns` | src/bt_api_base/gateway/runtime_remote.py:604-607 | what an event teaches the map is a run of the map's own operations, none of them a registration, so fresh request ids stay fresh |
| `OrderTheorems.LearnedIdsResolve` | src/bt_api_base/gateway/runtime_remote.py:586-676 | after an event that concerns a live order and carries nobody else's ids, the order is live and the client and venue id of the enriched event lead to it, newly learned ones included |
| `OrderTheorems.PlacedOrderResolves` | src/bt_api_base/gateway/runtime_remote.py:370-391 | after place_order the payload's client id, the allocated ref and the client and venue ids found in the answer resolve to the new order |
| `TickWriting.TickWriter.Write` | src/bt_api_base/gateway/storage/tick_writer.py:111-119 | appends to the symbol's buffer and flushes it when it reaches the flush count |
| `TickWriting.TickWriter.FlushSymbol` | src/bt_api_base/gateway/storage/tick_writer.py:135-163 | moves the buffer to the end of the file of its first row's day, or puts it back |
| `TickCalls.FlushFiles` | src/bt_api_base/gateway/storage/tick_writer.py:135-163 | a successful flush appends the symbol's buffered rows to the file of the symbol and the first row's day and touches no other; a failed one touches none and keeps the rows |
| `TickCalls.WriteKeeps` | src/bt_api_base/gateway/storage/tick_writer.py:98-119 | a written row is last in its buffer, or in the file with the whole buffer once it has reached the flush count |
| `TickCalls.FlushIsSteps` | src/bt_api_base/gateway/storage/tick_writer.py:135-163 | one flush is its pop, read, commit and count, or failure, of the interleaved model with nothing in between |
| `TickCalls.CallsConserve` | src/bt_api_base/gateway/storage/tick_writer.py:98-163 | any sequence of calls, with any writes failing, keeps files, order and both totals |
| `TickCalls.WriteJoinsFile` | src/bt_api_base/gateway/storage/tick_writer.py:152-156 | an instance: a row joins the one already in the file |
| `TickWriting.TicksConserved` | src/bt_api_base/gateway/storage/tick_writer.py:98-163 | without overlapping flushes of one symbol, committed then in-flight then buffered rows are the symbol's history, files hold their batches in order after what was there, and the written total counts rows, through any failures |
| `TickWriting.TotalExactIffUnmoved` | src/bt_api_base/gateway/storage/tick_writer.py:157 | the flushed total, which no lock protects, is exact at every point of a run, up to flushes still adding, if and only if no flush stores it after another one has since its load |
| `TickWriting.TotalWhenIdle` | src/bt_api_base/gateway/storage/tick_writer.py:157 | if no store is late, the total is the number of committed rows whenever no flush is adding |
| `TickWriting.InterleavedCountLost` | src/bt_api_base/gateway/storage/tick_writer.py:157 | two flushes that both load the total before either stores it lose the rows of one |
| `TickWriting.CommitFilesIff` | src/bt_api_base/gateway/storage/tick_writer.py:140-155 | a commit keeps every committed row on disk if and only if the file is as the flush read it |
| `TickWriting.FilesHoldIffUndisturbed` | src/bt_api_base/gateway/storage/tick_writer.py:135-163 | whatever overlaps, the files hold every committed batch in order at every point of a run if and only if no flush commits a file that another flush has changed since it was read |
| `TickWriting.OverlapLosesRows` | src/bt_api_base/gateway/storage/tick_writer.py:135-163 | an instance: two overlapping flushes of one symbol lose a row |
| `TickOrder.RowsPermuted` | src/bt_api_base/gateway/storage/tick_writer.py:98-163 | whatever flushes overlap and fail, committed, in-flight and buffered rows of a symbol are together exactly its history, in some order |
| `TickOrder.OrderedIffNoOvertaking` | src/bt_api_base/gateway/storage/tick_writer.py:98-163 | in order, at every point of a run, if and only if no flush commits before an earlier one of the symbol or is put back while a later one is under way, but for rows that cannot be told apart |
| `TickOrder.OvertakingPlainly` | src/bt_api_base/gateway/storage/tick_writer.py:135-163 | when rows can be told apart, a flush overtakes exactly when it commits with an earlier one under way or is put back with a later one under way |
| `AsyncPool.AsyncConnectionPool.Release` | src/bt_api_base/connection_pool.py:204-212 | returns a connection that is out and frees a permit; otherwise nothing changes |
| `AsyncPool.AsyncConnectionPool.TakeIdle` | src/bt_api_base/connection_pool.py:190-194 | hands out the oldest idle connection if there is one |
| `AsyncPool.PoolCapacity` | src/bt_api_base/connection_pool.py:187-212 | free permits, waiting calls, connections out and lost permits add up to max_size in every interleaving, and the factory is called at most max_size times ever |
| `AsyncPool.ReleaseEffective` | src/bt_api_base/connection_pool.py:204-212 | a release changes the pool if and only if its connection is out; repeating it changes nothing |
| `AsyncPool.ReuseInOrder` | src/bt_api_base/connection_pool.py:187-212 | connections are reused in the order they were given back, and none is passed over |
| `AsyncPool.FactoryWhenAllOut` | src/bt_api_base/connection_pool.py:190-202 | the factory is called only when every connection given back has been handed out again |
| `AsyncPool.ExclusiveIffOwned` | src/bt_api_base/connection_pool.py:187-212 | no connection is held by two callers, and those held are those out, throughout a run if and only if every release returns what its caller holds or what is not out |
| `AsyncPool.StaleReleaseShares` | src/bt_api_base/connection_pool.py:204-212 | a late second release gives one connection to two callers |
| `AsyncLimiter.AsyncRateLimiter.Acquire` | src/bt_api_base/core/async_context.py:326-347 | filter, optional sleep, second filter and unconditional append equal their specification |
| `AsyncLimiter.GrantsBounded` | src/bt_api_base/core/async_context.py:326-347 | if sleeps last as long as asked, every half-open window of length time_window holds at most max_requests grants |
| `AsyncLimiter.SleepsExactlyWhenFull` | src/bt_api_base/core/async_context.py:335-339 | an acquire sleeps if and only if the last window already holds max_requests grants |
| `AsyncLimiter.BoundedIffSleepsLast` | src/bt_api_base/core/async_context.py:326-347 | while the clock does not go back, every half-open window holds at most max_requests grants if and only if every sleep lasts as long as asked |
| `AsyncLimiter.EarlyWakeOvershoots` | src/bt_api_base/core/async_context.py:337-347 | an instance: an early wake-up exceeds the bound |
| `CircuitBreaker.Breaker.TryStart` | src/bt_api_base/core/async_context.py:276-286 | the three-state admission step |
| `CircuitBreaker.TrippedIffFailures` | src/bt_api_base/core/async_context.py:288-296 | in every interleaving the state differs from CLOSED exactly when failures since the last success reach the threshold |
| `CircuitBreaker.StartsIffHistoryAllows` | src/bt_api_base/core/async_context.py:276-296 | a call starts if and only if failures since the last success are below the threshold or the recovery timeout has passed since the latest failure |
| `CircuitBreaker.TrippedStaysShut` | src/bt_api_base/core/async_context.py:276-300 | once tripped, and until a success, no call starts before the recovery timeout has passed since the latest failure |
| `Instruments.InstrumentManager.Register` | src/bt_api_base/instrument_manager.py:37-62 | re-registration cleans both indexes, then all three tables are updated |
| `Instruments.IndexesAgree` | src/bt_api_base/instrument_manager.py:37-62 | after any registrations each underlying list holds exactly the live instruments with it, once each, and every venue entry is a live instrument with that venue and symbol |
| `Instruments.IndexMatchesScan` | src/bt_api_base/instrument_manager.py:74-94 | the underlying index lists exactly what find returns for that underlying |
| `Instruments.LiveIffLatest` | src/bt_api_base/instrument_manager.py:37-62 | the live instruments are the latest registrations of each internal name |
| `Instruments.FindFilters` | src/bt_api_base/instrument_manager.py:74-94 | find returns the live instruments that match every filter given |
| `Instruments.CompleteIffAlwaysUnique` | src/bt_api_base/instrument_manager.py:37-72 | venue lookups find every live instrument throughout a run if and only if live pairs are unique throughout it |
| `Instruments.TranslationsInverse` | src/bt_api_base/instrument_manager.py:96-104 | to_internal and to_venue_symbol undo each other |
| `Instruments.PastCollisionHides` | src/bt_api_base/instrument_manager.py:38-44 | an earlier collision leaves a live instrument unfindable although pairs are unique again |
| `Redaction.SanitizeText` | src/bt_api_base/feeds/transport_safety.py:112-129 | the replacement loop leaves no safe secret in the text |
| `Redaction.Walk` | src/bt_api_base/feeds/transport_safety.py:139-162 | the walk appends, in order, what its specification collects |
| `RedactionLaws.CollectedIffHeld` | src/bt_api_base/feeds/transport_safety.py:139-162 | a string is collected if and only if a path of positions through dictionaries, lists and tuples leads to a dictionary with it under a sensitive key, as text or bytes of at least 4 characters or an integer of at least 8 digits |
| `RedactionLaws.DedupInOrder` | src/bt_api_base/feeds/transport_safety.py:162 | each collected string is replaced once, in the order the walk met them |
| `Redaction.StaysAbsent` | src/bt_api_base/feeds/transport_safety.py:123-128 | replacing one secret never creates an occurrence of another, safe one |
| `Redaction.ReplaceRemoves` | src/bt_api_base/feeds/transport_safety.py:123-128 | replacing a safe secret leaves no occurrence, not even one formed from the pieces |
| `Redaction.AlwaysRemovedIffSafe` | src/bt_api_base/feeds/transport_safety.py:123-128 | replacement removes a secret from every text if and only if the secret neither starts nor ends with an asterisk nor holds three in a row |
| `Redaction.RedactionComplete` | src/bt_api_base/feeds/transport_safety.py:139-183 | no string leaf of the output contains a safe collected secret, whatever the earlier passes do and whatever the order of replacement |
| `Redaction.AlwaysCleanedIffSafe` | src/bt_api_base/feeds/transport_safety.py:139-183 | every value that collects a secret comes out clean of it, whatever the earlier passes do, if and only if the secret is safe |
| `RedactionLaws.HeldNeverLeaks` | src/bt_api_base/feeds/transport_safety.py:139-183 | no string at any position of the output contains a safe string held anywhere in the input |
| `RedactionLaws.HeldAlwaysCleanedIffSafe` | src/bt_api_base/feeds/transport_safety.py:139-183 | held strings are certain to disappear if and only if they are safe |
| `RedactionLaws.PositionKept` | src/bt_api_base/feeds/transport_safety.py:165-183 | past no sensitive key each position keeps what it has, sanitized; strings are the text with held strings replaced, and a value under a sensitive key is "***" |
| `RedactionLaws.ReplaceLeftmost` | src/bt_api_base/feeds/transport_safety.py:123-128 | replacement goes from the left without overlaps and changes nothing else |
| `RedactionLaws.ScrubKeepsOthers` | src/bt_api_base/feeds/transport_safety.py:112-129 | a text in which no secret occurs comes out as the passes before left it |
| `RedactionLaws.SpellingIgnored` | src/bt_api_base/feeds/transport_safety.py:40-47 | a separator more or less in a key, or a letter in the other case, makes no difference |
| `RedactionLaws.PlainKeyIsSensitiveIff` | src/bt_api_base/feeds/transport_safety.py:40-47 | which plainly spelled keys are sensitive |
| `RedactionLaws.NestedLeakClosed` | src/bt_api_base/feeds/transport_safety.py:139-183 | an instance: a token repeated in a nested list is gone there too |
| `Redaction.NoStarIsSafe` | src/bt_api_base/feeds/transport_safety.py:123-128 | a secret without asterisks is safe |
| `Redaction.ShapeKept` | src/bt_api_base/feeds/transport_safety.py:165-183 | outside redacted keys, keys, lengths and non-string leaves are unchanged |

## Left out

- Rounding of floating-point times: clock readings are reals.
- `wait_time`, `wait_and_acquire`, `async_acquire` and `get_status` of the rate limiter: loops over sleeps around the modelled acquire.
- Fixed windows with interval zero, where the source raises after charging earlier rules; a negative interval is modelled but not bounded.
- Acquiring or releasing a limiter of a composite directly, beside the composite.
- The URL, key-value and bearer passes of `sanitize_text`: any function from text to text stands for them. `fnmatch` is any predicate.
- Lower-casing of sensitive keys and stripping of order texts beyond ASCII letters and common white space.
- Sets and other containers beyond dictionaries, lists and tuples in sanitized values: the source returns them unchanged, strings inside included.
- An acquire of the async limiter that is cancelled while asleep, or a clock that goes back.
- Mapping keys in sanitized output, which the source leaves as they are even when they contain a secret.
- `Readiness.DecidedExactlyOnce`: a second batch begun by another thread before the first has ended is not part of a run.
- Reconnect loop, backoff, start and stop of worker threads; only their effect on the shared fields appears.
- `OrderRefs.RefsIncrease`: `reset` is not part of a run; temporary files left behind by a crash are not modelled, nor a saved value of infinity, on which the constructor raises.
- Redis and other storage backends, sockets, parquet encoding: only whether a write happens.
- The tick writer's error count, which is also added to outside the lock and of which nothing is claimed.
- Partial file writes by the tick writer; the periodic flush thread's timing.
- `Instruments.InstrumentManager.Register`: dictionary order is not modelled, so `find` returns a set.
- The sync `ConnectionPool`, whose reuse branch does not check `max_size`, and idle times of pooled connections.
- `cancel_order`, market data and other gateway commands that only pass through to the adapter.
- `register_strategy` while the adapter is not connected, which adds the symbols without asking it.
