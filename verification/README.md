# Verified model of the Goddess AI back end

Dafny models of the stateful core of the back end, with proofs over whole runs: the coin ledger with its
store and audits, the quota-bound YouTube client, the event delivery and coordination protocols, and the
time-window and level rules of engagement.

Each component is a specification function that takes one atomic step of the state (`Step`, `Next`, `Apply`,
`Check`), a class or loop in the source's imperative form proved against that function, and lemmas about all
runs of it. A section of code under one lock, or between two suspension points, is one step; concurrent
components are interleavings of such steps of any number of participants. Clocks, days, fresh ids and the
answers of remote services are inputs.

| files | what they model |
|---|---|
| `Ledger`, `LedgerMeaning`, `DerivedKeys`, `LedgerInvariants`, `LedgerReplay` | double-entry ledger, what each call answers and moves, which calls count as the same, its invariants, idempotency and tenant isolation as equivalence of runs |
| `Store`, `StoreMeaning`, `StoreConservation` | purchases, when they are made and refused; stock, ownership and payment over runs mixed with ledger calls |
| `Audit` | the two audits and the single-transaction check, against the writer |
| `Quota`, `KeyPool`, `KeyPoolMeaning`, `KeyPoolBalance`, `CircuitBreaker`, `CircuitRecovery`, `Retry` | the parts of the API pipeline |
| `ClientProtocol`, `ClientCauses`, `ClientTime`, `ClientBalance`, `ClientWorstCase`, `Client` | many concurrent requests through all parts, why each ends as it does, what time gives back, and how evenly they use the keys; one request against the live objects |
| `Sse`, `SseBuffers`, `SseDelivery` | replay ring, lossy client queues, and what a resuming client receives |
| `Coalescer` | single-flight execution, shared by the API and the AI coalescer |
| `Cache`, `CacheMeaning`, `CacheRefinement`, `RateLimiter`, `Locks` | lazily expiring store, its eager specification, and two protocols on top |
| `Worker`, `WorkerExits`, `WorkerLoops` | the stream worker's loop racing with `stop`; why it ends; loops of a start that came beside an active one |
| `EventBus` | event fan-out over any number of processes |
| `Levels`, `AntiFarming`, `AntiFarmingHistory`, `AntiFarmingLimits`, `AntiFarmingInterleaved`, `Engagement` | level search, award guard against full history, chat messages |
| `Options`, `Sums`, `Sequences`, `Powers` | shared helpers |

Where the code and its description differ, the model follows the code:

- `spend` reports success for a key that is already used (app/economy/ledger.py:136-137) and a purchase looks at
  that flag only (app/store/service.py:130), so a repeated purchase under the default key is free.
  `PaidInFullIffFresh` says exactly when a creator is paid in full.
- Transfers without a key of their own are told apart by sender, receiver and amount joined with colons
  (app/economy/ledger.py:211), so names with colons can make two different transfers count as one; `DerivedKeys` says
  exactly when.
- A price may be zero (app/db/models/store.py:45), but the ledger refuses to move zero coins, so such an item can
  never be bought.
- A request that finds no available key or no OAuth token is charged although nothing was sent, and one whose
  sends end in a transport or decoding error is released, although the quota manager describes charging as
  conservative (app/youtube/quota.py:165-167). A reply that does not decode is retried, and each try is recorded
  on the key.
- The breaker admits a probe at `now >= open_until` and closes after `half_open_max_attempts` successes; its
  description says `>` and one success (app/utils/circuit_breaker.py:24-28). Half-open admits any number of calls.
- The longest cooldown is 300 seconds in the code and 900 in docs/youtube/quota-model.md:56. An exhausted key has a
  deadline that nothing ever looks at, so it does not come back by itself. A served cooldown resets the error
  count, so the backoff grows only while errors of calls already under way come in.
- `expire` and `delete` do not drop a stale key first: an expire brings the old value back to life, a delete counts
  it. An expiry of zero seconds means none.
- The in-memory store never sets the `_is_fallback` mark that the lock and the bus look for
  (app/cache/locks.py:40, app/events/bus.py:91); whether the mark is set is an input here.
- `start` of a worker does not reset the count of errors, and lets a second loop start while the first is
  resolving its chat or reconnecting; then a stop that has returned need not last. `WorkerLoops` says exactly when
  it does. The worker manager starts each session object once (app/workers/manager.py:69-81) and does not get there.
- A reply that does not decode lets one request record up to three times its cost, so the keys are balanced to
  three times what the costs in flight suggest.
- The limits of the award guard are checked and recorded in separate steps, and the record does not check again.
  Concurrent messages of one viewer keep the limits exactly when each record would pass the guard again; when records
  come within a cooldown of their checks, exactly when no award comes between a check and its record.
- Resuming by an event id relies on the named event being older than the connection. A client that names an event
  published after it registered may be sent events that precede it; `SseDelivery.DeliveryIsExact` says exactly when.
- A client that leaves during its greeting or its replay, before the block whose end unregisters it
  (app/api/sse.py:165-185), leaves its queue behind; `SseBuffers.RegisteredWhileConnected` says that no other does.

## Model

| member | source | states |
|---|---|---|
| Ledger.Lookup | app/db/models/economy.py:129-132 | a transaction is found by (creator, key) exactly when the table has one |
| Ledger.EconomyService.GetBalance | app/economy/ledger.py:30-37 | the balance of a viewer's row, 0 without one |
| Ledger.EconomyService.GetOrCreateAccount | app/economy/ledger.py:65-76 | a missing account row appears with balance 0, an existing one stays |
| Ledger.EconomyService.Earn | app/economy/ledger.py:39-112 | the in-place service answers and changes the three tables as the ledger step does: refusal, duplicate, or one movement mint to viewer |
| Ledger.EconomyService.Spend | app/economy/ledger.py:114-191 | same for viewer to sink, with the funds check on a missing or short account |
| Ledger.EconomyService.Transfer | app/economy/ledger.py:193-265 | same for viewer to viewer, with the self-transfer check before the key is looked up |
| Ledger.EconomyService.Give | app/economy/ledger.py:267-285 | a grant is an earn with the composed reason |
| LedgerInvariants.PostKeepsRunning | app/economy/ledger.py:88-106 | a posted movement stores the running sum of its account in both entries and disturbs no older one |
| LedgerInvariants.PostKeepsSolvency | app/economy/ledger.py:146-148 | a posted movement leaves no viewer overdrawn at any prefix of the entries |
| LedgerInvariants.PostKeepsZeroSum | app/economy/ledger.py:88-90 | a movement leaves every creator's total as it was and other creators' rows untouched |
| LedgerInvariants.StepKeepsConsistent | app/economy/ledger.py:39-265 | any call keeps double entry, running balances, balances as sums, solvency, unique keys and zero sums together |
| LedgerInvariants.EveryRunIsConsistent | app/economy/ledger.py:39-285 | all of these hold of every book reachable from the empty one |
| LedgerReplay.EffectiveRunIsTheSame | app/economy/ledger.py:56-62 | a run and the same run without duplicates and failing calls end in the same book |
| LedgerReplay.LogIsEffectiveCalls | app/economy/ledger.py:78-86 | the transaction table is exactly the effective calls, in order |
| LedgerReplay.ReplayIsAbsorbed | app/economy/ledger.py:132-137 | a redelivered call, even with other arguments, inserted anywhere after its key is recorded changes no run |
| LedgerReplay.RedeliveryIsNoop | app/economy/ledger.py:211-215 | any batch of recorded calls in any order leaves the book as it is |
| LedgerReplay.OkMeansRecorded | app/economy/ledger.py:53-62 | success is reported exactly when the key is recorded afterwards and the argument checks pass |
| LedgerReplay.CreatorsAreIsolated | app/economy/ledger.py:58-70 | what a creator sees after a mixed run is the run of its own calls alone |
| LedgerMeaning.EarnByKey | app/economy/ledger.py:39-112 | with a key: refused for a non-positive amount, skipped exactly when a transaction of this creator under this key is in the table, else the coins go from mint to viewer, the key is in the table, and nothing else changes |
| LedgerMeaning.GiveByKey | app/economy/ledger.py:267-285 | the same for a grant, under a reason that names the moderator |
| LedgerMeaning.SpendByKey | app/economy/ledger.py:114-191 | the same from viewer to sink; duplicates are looked for before the funds, and the exact balance suffices |
| LedgerMeaning.TransferByKey | app/economy/ledger.py:193-265 | the same from viewer to viewer, with amount, viewers, key and funds looked at in this order |
| DerivedKeys.KeylessIsDerived | app/economy/ledger.py:56 | a call without a key, or with an empty one, is answered and acts like the same call under a key made of its fields |
| DerivedKeys.KeylessEarnsByReason | app/economy/ledger.py:56-62 | after an earn without a key another of the viewer is skipped exactly when it names the same reason or was to be skipped before |
| DerivedKeys.KeylessSpendsByReason | app/economy/ledger.py:132-137 | the same for spends |
| DerivedKeys.KeylessGivesByReason | app/economy/ledger.py:277-285 | the same for grants, by the reason they compose |
| DerivedKeys.KeylessTransfersByFields | app/economy/ledger.py:211-215 | after a transfer without a key another is skipped exactly when the amounts agree and sender and receiver, joined by a colon, spell the same, or it was to be skipped before |
| DerivedKeys.KeylessTransfersByViewers | app/economy/ledger.py:211-215 | when no sender has a colon in its name that means the same sender, receiver and amount |
| DerivedKeys.ColonsConfuseTransfers | app/economy/ledger.py:211 | two different transfers whose keys are the same |
| Store.StoreService.GrantInventory | app/db/repositories/store_repo.py:124-144 | one holding grows by the quantity, created if missing; no other changes |
| Store.StoreService.PurchaseItem | app/store/service.py:84-154 | the checks in order, the payment, then stock and inventory, each with its own outcome and no effect of a refused order |
| StoreMeaning.BoughtIff | app/store/service.py:100-131 | a purchase is made if and only if the item is there and enabled, not sold out, below the cap of the viewer, has a positive price, and its payment key is on record or the coins of the viewer cover the price |
| StoreMeaning.RefusedBecause | app/store/service.py:101-131 | which refusal is given when each condition is the first to fail; a refused order changes nothing |
| StoreMeaning.PurchaseGrants | app/store/service.py:133-143 | one unit leaves a finite stock, the buyer holds one more, no other item or holding changes |
| StoreMeaning.PurchasePays | app/store/service.py:119-131 | the price goes from the buyer to the sink under the payment key, and no coin moves if that is on record |
| StoreMeaning.DefaultKeysAgree | app/store/service.py:120 | without keys of their own two orders of one viewer share a payment exactly when item and price agree |
| StoreConservation.StockIsConserved | app/store/service.py:105-143 | over runs mixed with ledger calls, finite stock stays non-negative and falls by the units granted, unlimited stock stays, viewers own what was granted, caps hold |
| StoreConservation.SinkIsConserved | app/store/service.py:119-131 | the sink gains the prices granted plus direct spends less purchases that reused a key |
| StoreConservation.PaidInFullIffFresh | app/store/service.py:119-131 | the creator is paid in full if and only if every granted purchase used a fresh key |
| StoreConservation.RepeatPurchaseIsFree | app/store/service.py:120-131 | after a purchase, another under the same payment key is granted and moves no coin, whatever happened in between |
| StoreConservation.UnpricedItemsStay | app/store/service.py:119-135 | over every run an item without a positive price keeps its stock and no unit of it is granted |
| StoreMeaning.DisabledItemsStay | app/store/service.py:101-103 | over every run a disabled item keeps its stock and no unit of it is granted |
| Audit.AuditEconomyLedger | app/services/integrity.py:86-130 | the loop reports the rows whose debits and credits differ, and only those, and its totals are the plain sums over all entries, in whatever order the groups come |
| Audit.ReportedIffUnequal | app/services/integrity.py:90-122 | of any table of entries, a transaction is reported exactly when the sums of its debits and credits differ |
| Audit.AllTotals | app/services/integrity.py:90-111 | the sums of the groups add up to the sums over the ungrouped table |
| Audit.AuditAccountBalances | app/services/integrity.py:132-166 | exactly one violation for each overdrawn viewer row, with its balance, and the counts of all rows and of the overdrawn ones |
| Audit.OwnRowsBalance | app/economy/ledger.py:287-300 | in a double-entry book a recorded transaction has entries that balance at a positive sum, any other id has none |
| Audit.IntegrityComparesSums | app/economy/ledger.py:292-300 | of a debit and a credit the check accepts equal positive amounts only, and a transaction without entries, or with a debit alone, never |
| Audit.IntegrityMeansRecorded | app/economy/ledger.py:287-300 | on every reachable book the single-transaction check holds exactly for recorded ids |
| Audit.AuditsAgreeWithWriter | app/services/integrity.py:86-166 | on every reachable book both audits are clean and the global totals equal each other |
| Quota.QuotaManager.Remaining | app/youtube/quota.py:54-57 | the rest of today's budget, never negative |
| Quota.QuotaManager.Reserve | app/youtube/quota.py:73-108 | grants exactly what fits next to today's charges and all active reservations, summed by the loop |
| Quota.QuotaManager.Consume | app/youtube/quota.py:110-141 | charges the reservation once, to the day of the call, and drops it |
| Quota.QuotaManager.RecordFailure | app/youtube/quota.py:159-175 | charges a sent request, releases an unsent one |
| Quota.StepKeepsBudget | app/youtube/quota.py:73-175 | any reservation, charge or release, on the same or a later day, keeps charges plus reservations within the budget |
| Quota.BudgetIsNeverExceeded | app/youtube/quota.py:73-175 | no interleaving over any days takes a day's total, or today's total with all reservations, over the budget |
| Quota.GrantedIffFits | app/youtube/quota.py:82-108 | on a day without releases a reservation is granted exactly when its units fit the limit beside all granted before it, whatever of them has been charged, up to the last unit |
| Quota.ReleaseGivesBack | app/youtube/quota.py:110-153 | a release gives the units back, a charge moves them from the reservations to the day |
| Quota.NegativeCostBreaksBudget | app/youtube/quota.py:85-94 | one negative cost is enough to overdraw any budget |
| KeyPool.LeastUsed | app/youtube/key_pool.py:95-104 | an available key of least usage, and none exactly when no key is available |
| KeyPool.ApiKeyPool.GetAvailableKey | app/youtube/key_pool.py:78-106 | the two passes refresh ended cooldowns and count a request on the least used key |
| KeyPool.ApiKeyPool.RecordUsage | app/youtube/key_pool.py:108-112 | adds the units to a known key |
| KeyPool.ApiKeyPool.RecordSuccess | app/youtube/key_pool.py:114-123 | clears the error count of a known key and leaves its status |
| KeyPool.ApiKeyPool.RecordError | app/youtube/key_pool.py:125-202 | the new status and deadline for each kind of error, with the capped exponential backoff |
| KeyPool.CooldownDoubles | app/youtube/key_pool.py:187-199 | the cooldown after a row of errors is the base doubled for each of them, capped at five minutes |
| KeyPool.ServedCooldownRestarts | app/youtube/key_pool.py:86-93 | after a cooldown has been served the next error cools down for the base time only |
| KeyPoolMeaning.BackoffDoubles | app/youtube/key_pool.py:187-199 | the backoff starts at the base and doubles with every further error up to five minutes |
| KeyPoolMeaning.ReadyAfterError | app/youtube/key_pool.py:144-202 | when a key can be selected again after each kind of error: never, after five minutes, after the backoff, or as before |
| KeyPoolMeaning.RefreshMakesReady | app/youtube/key_pool.py:86-95 | a selection sees exactly the available keys and those whose cooldown has ended, and one that comes back has no errors counted |
| KeyPoolMeaning.OnlyThisKey | app/youtube/key_pool.py:108-137 | usage and errors recorded on one key leave the others alone |
| KeyPoolMeaning.SuccessEndsRow | app/youtube/key_pool.py:114-120 | the first cooldown after a success is the base one |
| KeyPoolMeaning.FirstOfLeastUsed | app/youtube/key_pool.py:103-106 | of the keys of least usage the first in the order of the pool |
| KeyPoolMeaning.SelectionRefreshesAll | app/youtube/key_pool.py:86-106 | a selection refreshes every key and counts a request on the chosen one only |
| KeyPoolBalance.UsageStaysBalanced | app/youtube/key_pool.py:95-112 | of the pool alone: with k calls outstanding that record at most C each, usages of keys that stay available never differ by more than k*C |
| KeyPoolBalance.OutKeysStayOut | app/youtube/key_pool.py:86-101 | a key in cooldown is not selected before its deadline, an exhausted or invalid one never, unless a later error changes it |
| KeyPoolMeaning.ReadinessLasts | app/youtube/key_pool.py:86-95 | over any run a key whose cooldown ends by some time can be selected then, unless an error of its own comes in between |
| CircuitBreaker.CircuitBreaker.CanExecute | app/utils/circuit_breaker.py:54-65 | refuses exactly an open breaker before its deadline, and turns it half-open at the deadline |
| CircuitBreaker.CircuitBreaker.RecordSuccess | app/utils/circuit_breaker.py:67-80 | counts towards closing, or clears the failure count of a closed breaker |
| CircuitBreaker.CircuitBreaker.RecordFailure | app/utils/circuit_breaker.py:82-93 | opens a half-open breaker or one at the threshold, with a new deadline |
| CircuitBreaker.ClosedMeansBelowThreshold | app/utils/circuit_breaker.py:54-93 | on every run the breaker is closed exactly while its count is below the threshold, and then the count is the failures in a row |
| CircuitBreaker.ThresholdMustBePositive | app/utils/circuit_breaker.py:34-46 | that equivalence holds on all runs exactly for thresholds of at least one |
| CircuitBreaker.TripsAtThreshold | app/utils/circuit_breaker.py:84-89 | a closed breaker opens exactly on the failure that completes the row |
| CircuitBreaker.NothingAdmittedBeforeDeadline | app/utils/circuit_breaker.py:58-65 | once open nothing is admitted before the deadline, whatever late outcomes come in |
| CircuitBreaker.HalfOpenCountsSuccesses | app/utils/circuit_breaker.py:59-71 | a half-open breaker has counted exactly the successes since its probing began |
| CircuitBreaker.ClosesAfterEnoughSuccesses | app/utils/circuit_breaker.py:70-80 | a breaker closes exactly at the success that completes the required number since probing began with no failure between |
| CircuitRecovery.RefusedIffRecentFailure | app/utils/circuit_breaker.py:54-65 | on every run a call is refused if and only if the breaker is open and the latest failure less than a timeout old |
| CircuitRecovery.CheckProbes | app/utils/circuit_breaker.py:58-65 | on every run a check a timeout or more after the latest failure is admitted by an open breaker and leaves it half-open with no success counted; any other check changes nothing |
| CircuitRecovery.Recovers | app/utils/circuit_breaker.py:58-80 | that check and then as many successes as required leave any open breaker closed with no failure counted |
| CircuitRecovery.ProbeFailureReopens | app/utils/circuit_breaker.py:87-89 | a failure while probing opens it again for a whole timeout, whatever the threshold |
| Retry.RetryWithBackoff | app/utils/retry.py:25-69 | calls until success, a fatal failure or the retries are used up, with the capped exponential delay before each retry |
| Retry.DelayDoubles | app/utils/retry.py:60-61 | the delay starts at the base and doubles with every attempt up to the cap |
| ClientProtocol.EveryRunIsOk | app/youtube/client.py:62-209 | for any number of concurrent requests: reservations are exactly those in flight, each finished one settled once, at most three sends and one outcome, total charged equals the costs of those that succeeded or ended in an API error, no day over budget |
| ClientProtocol.RequestsFinish | app/utils/retry.py:39-69 | whatever a step brings, it takes its request nearer to its end or does nothing, and a request in flight can always take one that does something |
| ClientProtocol.SettleChargesUnlessOther | app/youtube/client.py:195-209 | a settlement charges the cost unless the request ended in another error, sent or not |
| ClientProtocol.ChargedWithoutSending | app/youtube/client.py:99-207 | a request that finds no available key is charged in full with nothing sent |
| ClientCauses.ResultFollowsCause | app/youtube/client.py:85-209 | on every run a finished request succeeded exactly if its last reply decoded, ended in an API error exactly if that was a refusal or, before any send, token or key was missing, and in another error exactly if that was lost or did not decode or, before any send, the token store failed or the breaker refused |
| ClientCauses.BreakerHearsResults | app/utils/circuit_breaker.py:95-109 | on every run the breaker is the one that has heard a check for each admission and, of each request through with its sends, a success if its last reply decoded and a failure otherwise |
| ClientTime.NewDayNewBudget | app/youtube/quota.py:43-108 | from any run, on a new day a request is taken exactly when its cost and the costs of the requests in flight fit the limit, whatever was charged on the days before |
| ClientTime.OpenBreakerIsTried | app/utils/circuit_breaker.py:58-65 | at its deadline an open breaker lets a waiting request through to its first send and is half-open then; before it the request fails and the breaker stays |
| ClientTime.CooledKeyIsTaken | app/youtube/key_pool.py:86-106 | once the cooldown of a key is over a waiting request finds a key |
| ClientBalance.RequestStepIsPoolStep | app/youtube/client.py:99-185 | every step of a request that meters at most m sends is one step of the key pool, in which it may record its cost m times |
| ClientBalance.UsageStaysBalanced | app/youtube/client.py:62-209 | with at most k requests in flight, each of cost at most C, usages of keys that stay available never differ by more than 3*k*C |
| ClientBalance.DecodedUsageStaysBalanced | app/youtube/client.py:183-185 | on runs in which every metered reply decodes they never differ by more than k*C |
| ClientWorstCase.BoundIsReached | app/youtube/client.py:99-185 | for every k and every cost within the limit, a run of k requests whose replies do not decode takes two keys of equal usage 3*k*C apart |
| Client.YouTubeClient.DoHttp | app/youtube/client.py:103-185 | one attempt: an error reply is an API failure, a lost or undecodable one another failure, and what each leaves on the key |
| Client.AttemptOnKey | app/youtube/client.py:112-185 | a reply in time counts a success and the cost on the key, an error that is its fault is punished, nothing else changes anything |
| Client.AttemptIsProtocol | app/youtube/client.py:103-185 | the steps of an attempt among many requests leave on the pool what the attempt of a single one leaves |
| Client.YouTubeClient.Authorize | app/youtube/client.py:85-101 | a write takes the token and leaves the pool alone, a read takes the least used key; how each ends without a credential |
| Client.YouTubeClient.Execute | app/utils/circuit_breaker.py:95-109 | under the breaker at most three sends, the last one decides, with a doubling pause before each repetition; what the attempts leave on the key, each at its own time, and the one outcome told |
| Client.YouTubeClient.Settle | app/youtube/client.py:195-209 | the reservation is gone; charged unless another error ended the request |
| Client.YouTubeClient.Request | app/youtube/client.py:50-209 | on the live objects: once sent, the result is success exactly if the last reply decoded and an API failure exactly if it was an error, and unsent it follows from token, keys and breaker; reservations are as before, the charge goes to the day of the settlement and depends on the result only, pool and breaker are as the sends leave them, a refused reservation has no effect at all |
| Sse.SSEBroadcaster.HandleEvent | app/api/sse.py:51-82 | the ring keeps the newest events and every client queue gets the event, dropping its oldest when full |
| Sse.SSEBroadcaster.RegisterClient | app/api/sse.py:84-91 | a new empty queue, no other touched |
| Sse.SSEBroadcaster.UnregisterClient | app/api/sse.py:93-97 | the queue is gone, no other touched |
| Sse.SSEBroadcaster.GetReplayEvents | app/api/sse.py:103-125 | the events after the first one of that id, none for an unknown id |
| SseDelivery.SnapshotIsTail | app/api/sse.py:111-125 | a snapshot for a known id is the publication order from behind the named event on |
| SseBuffers.RingHoldsNewest | app/api/sse.py:36-64 | on every run the ring holds exactly the events published last, as many as it has slots |
| SseBuffers.ResumedIffRecent | app/api/sse.py:103-125 | a client that names a published event is resumed right behind it, with all later events to be replayed, if and only if it is among the last as many as the ring has slots |
| SseBuffers.PublishReachesAll | app/api/sse.py:70-82 | publishing puts the event into every registered queue, at the cost of the oldest one queued there only when that is full |
| SseBuffers.RegisteredWhileConnected | app/api/sse.py:136-185 | on every run a queue is registered exactly while its client is connected, except that the queue of a client that left before it went live is never given back |
| SseBuffers.ReplayEnds | app/api/sse.py:156-163 | a replay ends after one step for each event and one more, with all of them sent |
| SseDelivery.EveryRunIsOk | app/api/sse.py:51-185 | the ring is a suffix of what was published, each queue too, and every session is accounted for, under every interleaving |
| SseDelivery.DeliveryIsExact | app/api/sse.py:153-177 | every live client has been delivered exactly the events behind the named one up to the served position, less those dropped after the snapshot, if and only if it has read no event published after it registered and not behind the named one; always so if it named a past event |
| SseDelivery.ResumedClientMissesOnlyDrops | app/api/sse.py:153-177 | the same event by event under the same condition: in order, once, nothing else; an empty queue means all is served, and without overflow nothing is missing |
| SseBuffers.QuietClientCatchesUp | app/api/sse.py:165-177 | from any run a live client that reads on while nothing is published empties its queue and, if it named the past, has then been sent all behind the named event but what its full queue dropped |
| SseDelivery.FutureNameBreaksOrder | app/api/sse.py:166-177 | a read ends the exactness exactly when the event at the head of the queue is not behind the named one, and that event is then sent |
| SseDelivery.EarlyReadIsNeverMended | app/api/sse.py:166-177 | once such an event was read, the delivery never becomes exact again while the client stays |
| SseDelivery.GuessedIdBreaksOrder | app/api/sse.py:136-177 | a run in which a client that guessed an id reads such an event |
| Coalescer.SingleFlightCoalescer.Join | app/youtube/coalescer.py:32-48 | the entry of the key names the leader to follow, created only if missing; both counters |
| Coalescer.SingleFlightCoalescer.Leave | app/youtube/coalescer.py:65-67 | the key's entry is gone |
| Coalescer.EveryRunIsOk | app/ai/coalescer.py:29-70 | entries, futures and tasks agree at every point of every interleaving |
| Coalescer.OneLeaderPerKey | app/youtube/coalescer.py:32-67 | per key at most one task leads and the entry it pops is its own |
| Coalescer.FollowersGetLeadersOutcome | app/youtube/coalescer.py:50-64 | whoever finished got the outcome of the leader it joined, for the same key |
| Coalescer.NothingLeftBehind | app/youtube/coalescer.py:33-67 | requests are actions plus coalesced; with no leader no entry is left and every waiter has its outcome |
| Coalescer.FlightHasOneOutcome | app/youtube/coalescer.py:50-64 | over every run, whoever joined a flight can only ever finish with its one outcome |
| Coalescer.EnterJoins | app/youtube/coalescer.py:32-48 | a request starts an action exactly when no flight is on for its key, and else waits for that flight |
| Coalescer.OutcomeReachesAll | app/youtube/coalescer.py:50-67 | the outcome of an acting task is what it and every task waiting for it finish with, and its entry is gone |
| Coalescer.FinishedWithActionsOutcome | app/youtube/coalescer.py:55-64 | on every run whoever finished did so with the outcome with which the action of its leader ended |
| Cache.InMemoryRedis.CleanupExpired | app/cache/redis.py:27-30 | drops the key from both tables if it is past its deadline |
| Cache.InMemoryRedis.Get | app/cache/redis.py:32-35 | the value, after dropping a stale key |
| Cache.InMemoryRedis.Set | app/cache/redis.py:37-55 | set-if-absent and the deadline rules, a zero expiry being none |
| Cache.InMemoryRedis.IncrBy | app/cache/redis.py:57-63 | adds to the number or to zero, keeps the deadline, refuses other text |
| Cache.InMemoryRedis.Delete | app/cache/redis.py:74-82 | removes the key from both tables, counting it even if stale |
| Cache.InMemoryRedis.Expire | app/cache/redis.py:84-89 | a new deadline for any key present, stale or not |
| Cache.InMemoryRedis.Ttl | app/cache/redis.py:91-98 | whole seconds left, -1 without deadline, -2 without key |
| CacheMeaning.GetAnswersSeen | app/cache/redis.py:32-35 | a get answers the value unless its deadline has passed |
| CacheMeaning.SetThenGet | app/cache/redis.py:37-55 | a value set is seen as long as its expiry lasts; set-if-absent leaves what is seen |
| CacheMeaning.IncrThenGet | app/cache/redis.py:57-63 | an increment adds to the number seen, or to zero, and keeps the deadline of a key seen |
| CacheMeaning.DeleteThenGet | app/cache/redis.py:74-82 | a deleted key is not seen, and one that was seen is counted |
| CacheMeaning.ExpireThenGet | app/cache/redis.py:84-89 | an expire gives a key that is present this long from now |
| CacheMeaning.TtlTells | app/cache/redis.py:91-98 | -2 exactly for a key not seen, -1 exactly for one without deadline, else the whole seconds left |
| CacheMeaning.OthersAreSeenAlike | app/cache/redis.py:27-98 | no operation changes what is seen of other keys |
| CacheRefinement.StepRefines | app/cache/redis.py:27-98 | an operation leaves alive what a map that drops keys at their deadline holds, unless it extends a stale key; replies agree except for expire and delete of a stale key, and only then |
| CacheRefinement.RunRefines | app/cache/redis.py:27-98 | over chronological runs without such an expire the living contents agree at any later time |
| CacheRefinement.AgreeIffNoRevival | app/cache/redis.py:27-98 | over every chronological run the living contents agree after each operation if and only if no expire brings a stale key back |
| CacheRefinement.RunAnswersAsEager | app/cache/redis.py:27-98 | on such runs every reply is that of the eager map, except exactly delete or expire of a stale key |
| RateLimiter.WindowBounds | app/cache/rate_limiter.py:20-22 | a moment lies in the window its key names |
| RateLimiter.CounterIsExact | app/cache/rate_limiter.py:31-34 | until its window ends a counter holds the number of requests made in it; it is never lost |
| RateLimiter.AllowedIffEarly | app/cache/rate_limiter.py:24-36 | a request passes exactly when fewer than its limit came before it in the same window under the same identifier |
| RateLimiter.RemainingIsExact | app/cache/rate_limiter.py:44-52 | what is reported as remaining is what the window would still let pass |
| RateLimiter.ExactlyTheFirstPass | app/cache/rate_limiter.py:24-36 | of the requests of a window exactly the first `limit` pass |
| RateLimiter.AtMostTwiceTheLimit | app/cache/rate_limiter.py:20-36 | no interval of one window length, wherever it starts, lets more than twice the limit pass |
| RateLimiter.TwiceTheLimitIsReached | app/cache/rate_limiter.py:20-36 | for every identifier, limit and window length a run that lets exactly twice the limit pass in one window length |
| RateLimiter.IsAllowed | app/cache/rate_limiter.py:24-36 | one count and, for a fresh counter, one deadline on the live store |
| RateLimiter.GetRemaining | app/cache/rate_limiter.py:44-52 | one look at the live store, with its rounding to zero |
| Locks.DistributedLock.Acquire | app/cache/locks.py:32-64 | with nobody else acting between its polls: fails closed, or takes the key at the first poll that finds it free, and fails only if no poll did |
| Locks.DistributedLock.Release | app/cache/locks.py:66-77 | undisturbed, removes the key exactly when it holds this token |
| Locks.AtMostOneInLease | app/cache/locks.py:50-77 | no two instances hold locks that have not run out, as long as no delete finds another lock in time |
| Locks.KeysLastIffRemovesSafely | app/cache/locks.py:66-77 | on every run each instance has its key for as long as its lock is in time, if and only if no delete ever finds another lock in time |
| Locks.InTimeIsSafe | app/cache/locks.py:66-77 | deletes that come within the time of their own lock never do |
| Locks.UnsafeRemoveLetsSecondIn | app/cache/locks.py:52-74 | wherever a run comes to a delete that does, one attempt by any third instance lets it in beside the holder |
| Locks.FreeIffNoLease | app/cache/locks.py:52-62 | on those runs the lock can be taken exactly when no lock in time is held |
| Locks.AtMostOneHolder | app/cache/locks.py:50-77 | if each holder finishes its release within its time, at most one instance believes it holds the lock |
| Locks.ForeignReadRemovesNothing | app/cache/locks.py:72-77 | a release goes on to its delete exactly when the living key holds its token; otherwise nothing is lost |
| Locks.RemoveIsSafeIffNoOtherLease | app/cache/locks.py:73-74 | a delete leaves every other holder its key exactly when no other lock is in time |
| Locks.LateRemoveBreaksExclusion | app/cache/locks.py:72-74 | a lock that runs out between read and delete lets two holders in |
| Worker.StreamWorkerSession.Start | app/workers/session.py:102-120 | refused while the state is starting or running; otherwise a new loop and a cleared stop event, and a loop still active goes on beside it |
| Worker.StreamWorkerSession.BeginStop | app/workers/session.py:122-134 | no effect on a stopped, ended or idle worker; otherwise stopping, with the event set |
| Worker.StreamWorkerSession.EndStop | app/workers/session.py:160-162 | stopped unless the stream had ended |
| Worker.StreamWorkerSession.BatchProcessed | app/workers/session.py:253-260 | a completed batch clears the count, and ends an offline stream |
| Worker.StreamWorkerSession.Failed | app/workers/session.py:269-272 | an exception in the loop counts one error |
| Worker.StreamWorkerSession.FailureReported | app/workers/session.py:290-295 | gives up at the threshold, else backs off |
| Worker.StreamWorkerSession.FinishLoop | app/workers/session.py:328-337 | the loop leaves in a terminal state |
| Worker.EveryRunIsSound | app/workers/session.py:102-337 | with one loop at a time, stopped or ended only when the loop is over or leaving, and a stop under way has its event set |
| Worker.StoppedStaysStopped | app/workers/session.py:122-162 | with one loop at a time, a stop that returns on a started worker leaves it stopped or ended, until the next start |
| Worker.StopIsBounded | app/workers/session.py:230-307 | after a stop begins the loop takes at most twelve more steps, even if nothing is cancelled |
| Worker.StopIsNeverStuck | app/workers/session.py:136-151 | a waiting stop can return or the loop can go on by itself |
| Worker.ErrorExactlyAtThreshold | app/workers/session.py:253-307 | started once and reconnecting well, the worker turns to error exactly at the threshold-th failure in a row, and otherwise ends |
| Worker.TripsByHistory | app/workers/session.py:269-295 | with any starts and outcomes, a reported failure is the last exactly when the failures in a row across starts reach the threshold |
| Worker.RestartGivesUpAtOnce | app/workers/session.py:104-117 | a worker started again after its error gives up at the first failure |
| Worker.StartBesideActiveLoop | app/workers/session.py:105-117 | with a loop active, a start is let through exactly when, with no stop event set, the loop is resolving its chat or connecting after it, dealing with a failure, or leaving, and, with the event left set by a stop that failed, unless the loop has come to run again since |
| WorkerExits.EndsForAReason | app/workers/session.py:182-337 | on every run that nobody stops, the loop is on its way out if and only if the stream was offline, the chat not found, a call failed, or the failures in a row reached the threshold; it ends as ended exactly in the first case, else as error |
| WorkerExits.OfflineLeaves | app/workers/session.py:255-265 | an offline stream ends the loop at once, stopped or not |
| WorkerExits.TakesBatches | app/workers/session.py:102-260 | the way of a stream that is found from the start to its first batch and on to the next |
| WorkerExits.FailureIsRetried | app/workers/session.py:269-307 | a failure below the threshold is followed by a pause and a reconnection, after which the worker runs again |
| WorkerLoops.OneLoopIsTheWorker | app/workers/session.py:102-117 | every run of one loop is a run of the worker with any number of loops in which no other loop comes up |
| WorkerLoops.StopHoldsIffLoopsHarmless | app/workers/session.py:136-162 | with any number of loops, a worker whose stop returned stays stopped or ended until the next start if and only if every loop is reporting its end, leaving, over, or at its head with the stop event set |
| WorkerLoops.ReturnedStopHoldsIff | app/workers/session.py:122-162 | and so after every step with which a stop on a started worker returns |
| WorkerLoops.AloneIsHarmless | app/workers/session.py:122-162 | with one loop at a time that condition holds whenever a stop returns |
| WorkerLoops.RunningAfterStop | app/workers/session.py:184-209 | a run in which a second start comes beside the first loop, stop returns, and the first loop sets the worker running again |
| EventBus.EventBus.Subscribe | app/events/bus.py:57-61 | one more registration for that type and for no other |
| EventBus.EventBus.SubscribeAll | app/events/bus.py:63-65 | one more general registration, seen by every type after its own |
| EventBus.EventBus.DispatchLocal | app/events/bus.py:103-120 | every handler of the type, then every general one, is invoked with the event, in order, once for each registration |
| EventBus.EventBus.Publish | app/events/bus.py:75-101 | one local dispatch, and an envelope exactly if asked for and the transport is there |
| EventBus.EventBus.Receive | app/events/bus.py:184-206 | an envelope is dispatched locally exactly if it is another process's and can be rebuilt, by the rule the machine of processes uses; nothing is sent on |
| EventBus.EveryRunIsAccounted | app/events/bus.py:75-206 | each copy of an event is queued, dropped or dispatched, for any number of processes |
| EventBus.DispatchedOnce | app/events/bus.py:75-206 | exactly one dispatch at the publisher, at most one elsewhere, and exactly when a copy arrived and was not dropped |
| EventBus.CopiesAreDispatched | app/events/bus.py:87-204 | a broadcast queues a copy at every process it reaches, and one read at another process that can be rebuilt is dispatched there |
| EventBus.NoRebroadcast | app/events/bus.py:184-206 | each event is broadcast at most once, and broadcasts are exactly the publishes that asked for one |
| Levels.Isqrt | app/engagement/xp.py:135 | the integer square root that makes the step 100*level^1.5 exact |
| Levels.StepXp | app/engagement/xp.py:135 | the step of a level is the whole part of 100*level^1.5: its square is at most 10000*level^3, and the square of the next number is more |
| Levels.CalculateLevelFromXp | app/engagement/xp.py:120-141 | the loop ends and returns the level of the search, for any step table and number of levels |
| Levels.LevelInvertsCumulative | app/engagement/xp.py:120-141 | a level is reached exactly when its cumulative sum is at most the XP |
| Levels.LevelIsMonotone | app/engagement/xp.py:129-141 | more XP never means a lower level |
| Levels.LevelOfCumulative | app/engagement/xp.py:134-141 | reaching a level's sum exactly gives that level |
| Levels.DefaultLevels | app/engagement/xp.py:122-141 | both for the 1000 levels of the repository's own table |
| Levels.StoredLevelIsPeakLevel | app/engagement/xp.py:178-184 | after any run of awards the stored level is the level of the highest total, so it never drops |
| Levels.StoredLevelMatchesStoredXp | app/games/engine.py:155-157 | without negative awards it is the level of the stored XP |
| AntiFarming.AntiFarmingGuard.Prune | app/engagement/xp.py:73-75 | the times less than a window old, in order |
| AntiFarming.AntiFarmingGuard.CanAwardXp | app/engagement/xp.py:59-89 | verdict and trackers of the viewer, no other viewer touched |
| AntiFarming.AntiFarmingGuard.RecordAward | app/engagement/xp.py:91-101 | adds to the tracker under the day of the record, no other viewer touched |
| AntiFarmingHistory.CheckDecidesByHistory | app/engagement/xp.py:64-89 | the pruned trackers decide as the full history does, and keep doing so |
| AntiFarmingHistory.RunDecidesByHistory | app/engagement/xp.py:59-101 | over a serial run an attempt is awarded exactly when the history allows it |
| AntiFarmingHistory.VerdictsMean | app/engagement/xp.py:59-89 | which verdict is given: the latest award less than a cooldown ago, six or more within ten minutes, the total of the day with this award over the cap, or none of these |
| AntiFarmingLimits.EveryRunIsWithinLimits | app/engagement/xp.py:59-101 | awards are a cooldown apart, an award and the sixth before it a window apart, no date over its cap, even when midnight falls between check and record |
| AntiFarmingLimits.AtMostSixPerWindow | app/engagement/xp.py:72-77 | any interval shorter than the window holds at most six awards |
| AntiFarmingLimits.AccountedIsSum | app/engagement/xp.py:79-87 | without a midnight between check and record the capped total is the sum of the day |
| AntiFarmingLimits.RunLimits | app/engagement/xp.py:59-101 | the window and date limits, counted over the awards of a run |
| AntiFarmingInterleaved.LimitsHoldIffRechecked | app/engagement/xp.py:59-101 | over every run of concurrent checks and records, all limits hold at every moment if and only if each record is made when the guard, asked again, would still agree |
| AntiFarmingInterleaved.PromisesHoldIffRechecked | app/engagement/xp.py:59-101 | the same for spacing, bursts and the XP of each date alone, when no midnight splits an attempt |
| AntiFarmingInterleaved.InTurnIsWithinLimits | app/engagement/xp.py:172-185 | with checks and records of concurrent messages in any order and at any distance, all limits hold if no award comes between a check and its record |
| AntiFarmingInterleaved.PromptWithinIffInTurn | app/engagement/xp.py:172-185 | when every record comes less than a cooldown after its check, the limits hold if and only if no award comes between a check and its record |
| AntiFarmingInterleaved.OvertakenRunBreaksLimits | app/engagement/xp.py:172-185 | a run that breaks them, for every positive cooldown and every reward within the cap |
| Engagement.ViewerProfile.AwardXp | app/db/repositories/engagement_repo.py:51-60 | adds the gain and never lowers the level |
| Engagement.XPManager.ProcessChatMessage | app/engagement/xp.py:147-192 | counts the message; awards exactly when the text qualifies and the guard allows it, telling whether the stored level rose |

## Left out

- Database sessions, row locks, migrations and repositories: each ledger or store call is one atomic step on tables with the declared uniqueness constraints; column widths are unbounded integers.
- A real Redis server, pub/sub inside the in-memory store, and string key formats of counters; the daily quota counter is a map by day without its 48-hour expiry.
- Ledger.EconomyService.Earn: reference type and reference id of a transaction are not stored, because nothing computes with them.
- Store.StoreService.PurchaseItem: item names are taken as already stripped, and the engagement record of a purchase is not updated.
- Store item edits and deletions, and the audits of orphaned inventory and stale sessions.
- Audit.AuditEconomyLedger: the grouped SQL query is an input, characterised by what a grouping is.
- Audit.AuditAccountBalances: the selection of overdrawn rows is an input, characterised by what it must hold.
- HTTP, OAuth and Discord calls are outcomes; which phrases a message contains is a flag.
- Client.YouTubeClient.Execute: the retry loop is written out beside it and does not call Retry.RetryWithBackoff, because an attempt changes the key pool; the random factor of the pauses is not modelled.
- ClientProtocol.EveryRunIsOk: concurrent requests are a machine on values, one step for each critical section; the objects are tied to it by the shared step functions of quota, pool and breaker, not by a heap proof.
- Cancellation of tasks in the quota manager, the client and the coalescers; the reset of the daily quota.
- Coalescer.EveryRunIsOk: futures and waiting tasks are values of a machine, while the two critical sections are methods of a class.
- SseDelivery.EveryRunIsOk: generators are sessions of a machine; greetings, heartbeats and the wire format are not events of it, and event ids are unique.
- RateLimiter.AllowedIffEarly: one window length for each limiter, since counters of different lengths can share a key.
- Locks.DistributedLock.Acquire: nobody else acts between its polls, and the time-out is given as the sequence of polls before it; Locks.FreeIffNoLease decides each single poll among others. Locks.Enabled takes one release at a time for each instance.
- Worker.StreamWorkerSession.Start: segments of the loop that only move on are steps of the machines and not methods.
- Message counters, heartbeats and the greeting task of a worker.
- Unsubscribing from the event bus.
- EventBus.EventBus.Receive: order of arrival between processes, reconnection delays and listener health are not modelled; handlers that raise are not told apart.
- Engagement.XPManager.ProcessChatMessage: whether a text is meaningful is an input.
- Levels.CalculateLevelFromXp: floating-point powers are the exact integer square root, with which they agree on levels 1 to 1000.
- Moderation policy, roles, feature flags, health aggregation, incidents, leaderboards, the AI budget, personas, commands and the web interface: case analysis or without a closed invariant.
