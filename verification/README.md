# Purchases and the transactional outbox in Dafny

A Dafny model of the shop's two protocols and of the tables they share:

- **The purchase transaction** (`app/services/purchase.py`). Any number of calls run
  concurrently. Each is cut into the atomic steps PostgreSQL (Read Committed) and Redis give it:
  Redis probe, user check, lookup of the key, guarded `UPDATE`, second read, flush of the order,
  commit, Redis write. Calls may crash between any two steps; Redis may fail, forget or miss.
- **The outbox workers** (`app/worker/outbox_worker.py`). Any number of workers share one table.
  They claim, publish and record; they may crash, lose confirms, fail to write what they did, act
  on stale copies and recover each other's events while time passes.
- **The combined system**, in which the commit of a purchase is the insertion of its event.

A protocol is a total function `Step(state, label)`: a label that is not enabled changes nothing,
so every sequence of labels is a run, and a statement about all sequences is a statement about
all interleavings. `Exec` is the state after a sequence. Invariants are proved for every step of
every run. The imperative code is then written as classes that update their tables in place and
keep the ghost sequence of labels they went through: `PurchaseService.Database` (with arbitrary
steps of everybody else between any two steps of a call), `OutboxWorker.OutboxTable` (the worker
loop, whose batches too run among arbitrary steps of others), `IdempotencyCache.RedisStore` and the loop of `VerifyStock`. Whatever is proved of runs
therefore holds of the states their methods return in.

## Files

| files | content |
|---|---|
| `Schema`, `Totals` | rows and messages; sums over finite maps |
| `Purchase`, `PurchaseInvariant` | the purchase state machine and its invariant |
| `PurchaseAnswers` | what the answers of calls promise; where the documented promise fails |
| `PurchaseProgress` | no deadlock, termination |
| `CacheRefinement`, `IdempotencyCache` | Redis as a mere accelerator; the Redis client |
| `Outbox`, `OutboxInvariant` | the worker state machine and its invariant |
| `Lease`, `StaleHolder` | bounded duplication, leases, and a run that breaks one |
| `Backoff`, `Batch` | delays; what a batch does to the table |
| `OutboxProgress`, `RecoverySchedule` | draining and starvation of any number of workers; recovery latency |
| `RetrySchedule` | what each statement of a worker reads and writes; backoff over whole runs |
| `ShopSystem`, `Conservation`, `Serialisability` | the combined system and the laws that span it |
| `Erasure`, `SystemRuns` | both protocols inside the system; a failed call leaves no trace |
| `PurchaseService`, `OutboxWorker`, `VerifyStock` | the code itself, in place, against the above |

## Results

- **Conservation.** In every reachable state initial stock = stock + committed orders, stock is
  never negative, every message is a committed order, and once everything is sent a consumer that
  drops duplicate order ids knows the stock exactly (`Conservation.UnitsAreConserved`).
- **Serialisability.** The committed tables are those of atomic purchases in commit order, each of
  which takes effect (`Serialisability.Serialisable`).
- **Idempotency.** Success means exactly one order with that key, for ever
  (`PurchaseAnswers.SuccessIsDurable`). A call that has not yet looked for its key when an order
  with it is committed never buys again and never answers 404 or 409 (`RepeatNeverBuys`).
- **Where the documentation promises too much.** The API documentation answers a repeated key with
  200 without exception (README.md:87, README.md:202), and a test says it of parallel requests
  (`tests/integration/test_idempotency.py:105`, with enough stock for all of them). A duplicate that
  passed the lookup before the winner committed is judged by the stock that is committed when its
  own `UPDATE` runs, be it what the winner left or less: `LateDuplicate` states, over every
  continuation, that it answers success exactly when that stock covers its count;
  `ShortStockRefuses` sees the refusal coming, `DuplicateCanConflict` is a concrete run that ends
  in the 409. The promise breaks a second way: the user is checked before the order is looked up, so
  a repeat that Redis does not answer gets 403 exactly when its user is not active at the moment of
  that check, whatever happens before and after it (`RepeatIsAnswered`); `DuplicateCanBeForbidden` is a run in which the user is banned after buying.
- **Deadlock freedom and termination** of purchases (`PurchaseProgress`), **Redis-free refinement**
  (`CacheRefinement.RedisOnlyAccelerates`), **failures leave no trace**
  (`SystemRuns.FailureLeavesNoTrace`).
- **At-least-once, bounded duplication, leases** (`Conservation.NothingIsLost`, `Lease`). `sent` and
  `dlq` are not final in the code without an assumption about time, because the recording updates
  filter on the id alone: `ReopenedExactly` says when they come back, `StaleHolder.SentCanReopen` is
  a concrete run, and `TerminalStays` holds in punctual
  runs, in which no recovery comes while a live batch is older than the stuck threshold.
- **Recovery latency.** In every run that the worker loop cuts into turns at most G apart, an event
  that nobody will write to any more from some moment t of the run on, be it before the loop or in
  the middle of it, is pending and due again by t + 2 × threshold + G, whatever else happens in the
  run (`RecoverySchedule.AbandonedIsRecovered`); for one abandoned before the loop the time counts
  from its last write (`RecoveredAfterStart`). The loop cuts its runs
  so, whatever other workers do meanwhile (`OutboxWorker.OutboxTable.RunAmongOthers`).
- **Drain.** In every punctual run of any number of workers, with crashes, recoveries and new events,
  no more attempts are recorded than the table had left plus max_retries for each new event
  (`OutboxProgress.DrainBound`); a worker on its own empties the table, however old its events and
  also if errors escape some of its batches (`RunWorker`).
- **Starvation.** In every punctual run of any number of workers in which new events are younger, the
  claims that pass over an event are at most (unclaimed attempts of the events before it, plus
  recoveries of those) / batch_size (`OutboxProgress.NoStarvation`). Without crashes there are no such
  recoveries (`CrashFreeNoStarvation`), and for a worker on its own, which recovers only between its
  batches, that holds with no condition on time (`AloneNoStarvation`).
- **Backoff is kept.** No event is claimed before its next_retry_at, and after the n-th recorded
  failure of an event, in every punctual run, its row stays as written until a claim that comes at
  least min(2^n, 300) seconds later (`RetrySchedule.BackoffIsKept`).
- **The stock checker** lists exactly the products that do not balance; because it reads stock and
  orders in two statements, it passes for a product exactly when no purchase of it commits in
  between (`VerifyStock.CheckIsExact`); `FalseAlarm` is a run in which every unit is accounted for
  and the script reports an error.

## Model

| member | source | states |
|---|---|---|
| PurchaseInvariant.InvStep | app/services/purchase.py:33-150 | every step of every call keeps: stock never negative, orders and unique index describe each other, row and key locks exclusive, both guards of a purchase still true while its locks are held, answers given still true, Redis names only committed orders |
| PurchaseInvariant.InvExec | app/services/purchase.py:33-150 | the same in every state of every run |
| PurchaseAnswers.ExecGrows | app/services/purchase.py:67-117 | along every run orders and index entries never change or go, and stock never rises |
| PurchaseAnswers.SuccessIsDurable | app/services/purchase.py:33-64 | on every way to success exactly one committed order has the key at that time and after every continuation |
| PurchaseAnswers.FailuresAreTrue | app/services/purchase.py:79-92 | a 409 reports a stock below the requested count that never recovers, a 404 a product that never exists |
| PurchaseAnswers.OnlyActiveUsersBuy | app/services/purchase.py:48-50 | with user statuses fixed, every committed order belongs to an active user |
| PurchaseAnswers.RepeatNeverBuys | app/services/purchase.py:33-64 | a call that has not looked for its key before an order with it is committed ends only as success without buying, 403 or a crash |
| PurchaseAnswers.CheckDecides | app/services/purchase.py:33-64 | over every continuation of a repeated key before its user check, the moment that check runs decides: an active user leads only to success or a crash, any other only to 403 or a crash |
| PurchaseAnswers.RepeatIsAnswered | app/services/purchase.py:33-64 | in every continuation, whatever statuses do, a repeat that Redis does not answer is answered with success iff its user is active when its user check runs, and with 403 iff not |
| PurchaseAnswers.RepeatSucceeds | tests/integration/test_idempotency.py:14-40 | with user statuses fixed a repeated key of an active user is answered with success, by Redis or not |
| PurchaseAnswers.DuplicateCanBeForbidden | README.md:87 | a concrete run in which a repeated key gets 403 although the order exists: the user was banned after buying and Redis lost the key |
| PurchaseAnswers.UpdateDecides | app/services/purchase.py:67-131 | over every continuation of a call past its lookup, the moment its update runs decides: stock that qualifies then leads only to success or a crash, stock that does not only to 409, 404 or a crash |
| PurchaseAnswers.LateDuplicate | app/services/purchase.py:67-131 | a duplicate past its lookup never buys; in every continuation, when it answers, it answers success iff the stock committed when its update ran covered its count, 409 iff it did not, 404 iff there is no product |
| PurchaseAnswers.ShortStockRefuses | app/services/purchase.py:67-92 | if the stock is below its count before its update, a call is never answered with anything but 409, whatever happens |
| PurchaseAnswers.DuplicateCanConflict | README.md:87 | a concrete run in which a parallel request with the same key gets 409 although the order exists |
| PurchaseAnswers.RaceIsWon | app/services/purchase.py:47-117 | the run up to that point: one call committed the last item, its duplicate is at the update |
| PurchaseAnswers.ReachesCommit | app/services/purchase.py:67-117 | an undisturbed call past its lookup commits exactly the decrement, the order and the index entry |
| PurchaseProgress.ChainAscends | app/services/purchase.py:67-102 | along a chain of waiting transactions the number of locks held strictly rises |
| PurchaseProgress.NoDeadlock | app/services/purchase.py:67-102 | the waits-for graph has no cycle; no chain of waits is longer than three |
| PurchaseProgress.SomeoneCanStep | app/services/purchase.py:33-150 | while any call is unfinished some call can take a step of its own |
| PurchaseProgress.StuckIffFinished | app/services/purchase.py:33-150 | crashes aside, no call can take a step of its own exactly when all are finished |
| PurchaseProgress.CallsTerminate | app/services/purchase.py:33-165 | without new arrivals the calls take a bounded number of steps under every schedule, and where none can take a step of its own, none is unfinished |
| CacheRefinement.RedisOnlyAccelerates | app/services/purchase.py:33-40 | every run has a twin that never uses Redis and leaves the same committed tables and calls |
| CacheRefinement.OfflineTwin | app/services/purchase.py:135-150 | each step with Redis is no step, or the same step, of the protocol without Redis |
| Erasure.EraseOwn | app/services/purchase.py:79-131 | a step of a call that ends without a trace is nothing, or one skipped order_id, for everybody else |
| Erasure.EraseOther | app/services/purchase.py:47-117 | no other step can tell whether that call is there |
| SystemRuns.FailureLeavesNoTrace | app/services/purchase.py:79-131 | a call that ends in 403, 404, 409, a lost race or a crash before commit leaves everything as a run in which it takes no step |
| SystemRuns.ShopRuns | app/services/purchase.py:47-117 | the purchases of a system run are a run of the purchase protocol |
| SystemRuns.BoxRuns | app/worker/outbox_worker.py:98-193 | the workers of a system run, with commits as inserts, are a run of the outbox protocol |
| ShopSystem.InvStep | app/services/purchase.py:104-117 | every step of the combined system keeps one event with equal fields per committed order, and both protocol invariants |
| ShopSystem.InvExec | app/services/purchase.py:104-117 | the same in every state of every run |
| ShopSystem.PayloadsStay | app/worker/outbox_worker.py:82-193 | no worker step adds, removes or rewrites an event's payload |
| ShopSystem.LinkedCommit | app/services/purchase.py:94-117 | a commit adds exactly the event of its order |
| Conservation.UnitsAreConserved | scripts/verify_stock.py:4-5 | in every reachable state initial stock = stock + orders, stock >= 0, and a de-duplicating consumer's view bounds the stock, exactly so once all is sent |
| Conservation.ConservedStep | app/services/purchase.py:67-117 | each step of a call keeps initial stock = stock + committed orders |
| Conservation.SoldSince | app/services/purchase.py:94-117 | what was sold between two states of a run is the sum of the commits between them |
| Conservation.MessagesAreOrders | app/worker/outbox_worker.py:152-158 | every broker message carries the fields of the committed order it names |
| Conservation.SentIsPublished | app/worker/outbox_worker.py:158-169 | a sent event's payload is in the broker, stale holders and recoveries included |
| Conservation.NothingIsLost | app/worker/outbox_worker.py:5-6 | a committed order has exactly one event, which survives every continuation; once sent, its message is in the broker |
| Conservation.ConsumeAll | app/services/purchase.py:104-117 | when all events are sent, the distinct messages are exactly the committed orders |
| Conservation.ConsumerBound | app/worker/outbox_worker.py:138-169 | units known to a de-duplicating consumer never exceed what was sold |
| Serialisability.CommitIsAtomicPurchase | app/services/purchase.py:53-117 | at commit both guards hold of the committed tables, and the commit is the atomic purchase |
| Serialisability.Serialisable | app/services/purchase.py:47-117 | whatever the interleaving, the committed tables are the replay of the commits as atomic purchases in commit order, each accepted |
| OutboxInvariant.InvStep | app/worker/outbox_worker.py:82-193 | every worker step keeps: pending and processing have attempts and a time left, dlq has used exactly all, sent has its time and its message; claims of locked rows disjoint; one message per claim |
| OutboxInvariant.InvExec | app/worker/outbox_worker.py:82-193 | the same in every state of every run |
| Lease.PublishBound | app/worker/outbox_worker.py:138-193 | in every run an event is published at most failures + recoveries + 1 times |
| Lease.NoSharedEvent | app/worker/outbox_worker.py:115-139 | in punctual runs no two workers hold the same event |
| Lease.LeaseStep | app/worker/outbox_worker.py:82-193 | every step, recoveries only while batches are punctual, keeps holders current and the counters exact |
| Lease.PunctualRuns | app/worker/outbox_worker.py:82-193 | so it is in every state of every punctual run from an empty table |
| Lease.PublishBoundPunctual | app/worker/outbox_worker.py:171-193 | in punctual runs retry_count counts the failures, claims are failures + recoveries + the one in progress or sent, publishes are at most max_retries + recoveries |
| Lease.OnlyHoldersTouchTerminal | app/worker/outbox_worker.py:160-193 | a sent or dead-lettered row changes only by a record of a worker that still holds it |
| Lease.ReopenedExactly | app/worker/outbox_worker.py:173-193 | it comes back exactly when that record is a failure and the holder's own count has attempts left |
| Lease.TerminalStays | app/worker/outbox_worker.py:160-193 | in punctual runs sent and dlq are final |
| StaleHolder.SentCanReopen | app/worker/outbox_worker.py:184-193 | a concrete run in which a sent event becomes pending again |
| StaleHolder.TwoHolders | app/worker/outbox_worker.py:82-136 | a concrete run after which two live workers hold the same event |
| Backoff.DelaysFillWindow | app/worker/outbox_worker.py:37 | the possible delays before retry n are exactly those from min(2^n, 300) seconds to one second more |
| Backoff.CapStartsAtNine | app/worker/outbox_worker.py:37 | the cap of 300 seconds is reached exactly from the ninth failure on |
| Backoff.StrictlyLonger | app/worker/outbox_worker.py:35-38 | the next delay is longer whatever the jitter exactly for failures 1 to 8 |
| Backoff.BackoffBudget | app/worker/outbox_worker.py:173-181 | total backoff over k failures lies between B(k) and B(k)+k seconds, with B in closed form |
| RetrySchedule.InsertWrites | alembic/versions/001_initial.py:72-102 | a new event is pending, untried, created at its transaction's start and due at once |
| RetrySchedule.SelectReads | app/worker/outbox_worker.py:116-126 | every selected row is pending with next_retry_at not in the future, oldest first, distinct, at most batch_size, none locked by another claim |
| RetrySchedule.ClaimWrites | app/worker/outbox_worker.py:131-136 | the claim sets the status and updated_at of the selected rows and nothing else |
| RetrySchedule.SentWrites | app/worker/outbox_worker.py:160-169 | sent now, error cleared, updated_at now, every other column kept |
| RetrySchedule.FailureWrites | app/worker/outbox_worker.py:171-193 | one more than the writer's copy of retry_count, updated_at now, the first 1000 characters of the error; below max_retries pending with next_retry_at in the backoff window from now, otherwise dlq without one |
| RetrySchedule.RecoverWrites | app/worker/outbox_worker.py:82-93 | a row in processing last written more than the threshold ago becomes pending and due now, every other row is kept |
| RetrySchedule.SelectedDueExec | app/worker/outbox_worker.py:115-136 | in every run the rows a claim has locked were due when it selected them |
| RetrySchedule.ClaimIsDue | app/worker/outbox_worker.py:115-136 | no event is claimed before its next_retry_at |
| RetrySchedule.PendingWaits | app/worker/outbox_worker.py:115-193 | along every run a pending row stays as it is until it is claimed at its time or later, or written by a worker that holds it from before |
| RetrySchedule.BackoffIsKept | app/worker/outbox_worker.py:173-192 | after the n-th failure is recorded, in every punctual run, the row stays as written until its next claim, at least min(2^n, 300) seconds later |
| Batch.BatchDrains | app/worker/outbox_worker.py:138-193 | a batch that attempted i events, complete or broken off, lowered the attempts left in the table by at least i |
| OutboxProgress.WorkStep | app/worker/outbox_worker.py:82-193 | under the lease invariant a recorded outcome lowers the attempts left by at least one, a new event adds max_retries, no other step adds any |
| OutboxProgress.DrainBound | app/worker/outbox_worker.py:138-193 | in every punctual run of any number of workers, recorded outcomes plus attempts left at the end are at most attempts left at the start plus max_retries per new event |
| OutboxProgress.AttemptsAreBounded | app/worker/outbox_worker.py:173-193 | so N events and M new ones cost at most max_retries recorded outcomes each |
| OutboxProgress.SelectionSkips | app/worker/outbox_worker.py:115-126 | a selection that leaves out a due event nobody has locked is a full batch of events before it |
| OutboxProgress.SelectionPasses | app/worker/outbox_worker.py:115-136 | whatever others do before it commits, it becomes a claim that passes over the event |
| OutboxProgress.ClaimLowersAhead | app/worker/outbox_worker.py:126-136 | a claim takes one unclaimed attempt of each event it claims, a full batch of them when it passes over an event |
| OutboxProgress.AheadStep | app/worker/outbox_worker.py:82-193 | each pass over an event costs batch_size unclaimed attempts before it; only recoveries give any back |
| OutboxProgress.NoStarvation | app/worker/outbox_worker.py:115-141 | in every punctual run of any number of workers with younger new events, batch_size times the claims that pass over an event is at most the unclaimed attempts before it plus recoveries of those |
| OutboxProgress.CrashFreeNoStarvation | app/worker/outbox_worker.py:115-141 | without crashes it is at most the unclaimed attempts before it |
| OutboxProgress.AloneNoStarvation | app/worker/outbox_worker.py:238-250 | the same for a worker on its own that recovers between its batches, however long they last |
| RecoverySchedule.AbandonedIsRecovered | app/worker/outbox_worker.py:235-244 | in every run whose turns are scheduled at most a gap apart, an event nobody will write to from any moment of the run on is pending and due within two thresholds and one gap of that moment |
| RecoverySchedule.RecoveredAfterStart | app/worker/outbox_worker.py:235-244 | for an event abandoned before the loop the time counts from its last write or, if later, the start of the loop |
| RecoverySchedule.RecoveryComes | app/worker/outbox_worker.py:241-244 | after any moment of the loop a recovery comes more than one threshold and at most two thresholds and one gap later |
| RecoverySchedule.AbandonOrphans | app/worker/outbox_worker.py:270-272 | a crash or an escaping error leaves claimed events in processing that nobody writes to |
| RecoverySchedule.OrphanStep | app/worker/outbox_worker.py:82-93 | nothing but a recovery after the threshold moves such an event, and that makes it pending |
| RecoverySchedule.OrphanWaits | app/worker/outbox_worker.py:82-93 | along a run it waits unchanged until the first recovery that finds it stuck |
| RecoverySchedule.OrphanIsRecovered | app/worker/outbox_worker.py:77-93 | when a recovery of the run would find it stuck, it is pending and due by that one at the latest |
| RecoverySchedule.RecoveryIsExact | app/worker/outbox_worker.py:82-93 | a recovery changes exactly the processing rows last written more than the threshold ago, and keeps their retry_count |
| PurchaseService.Database.ProcessPurchase | app/services/purchase.py:18-165 | the whole call, others free to act between any two steps: Redis answers exactly if it is up and knows the key when asked; success means the one order of the key, 409 the stock then too small, 404 no such product, 403 no active user, and a call is cut off only while another holds its row or key; all but success by own commit or lookup leave no trace, and after those, if Redis takes the write, it knows the order; an own commit's event was created after the call began its transaction |
| PurchaseService.Database.Probe | app/services/purchase.py:33-40 | a hit exactly if Redis is up and knows the key at that moment; it answers success with the one order of the key; a miss or failure goes on |
| PurchaseService.Database.CheckUser | app/services/purchase.py:47-50 | the transaction starts now; an active user goes on, any other gets 403 and the call has left no trace |
| PurchaseService.Database.FindOrder | app/services/purchase.py:53-64 | a committed order ends the transaction, otherwise the update is next |
| PurchaseService.Database.GuardedUpdate | app/services/purchase.py:67-79 | matches nothing, waits for the row lock, or holds it with the stock |
| PurchaseService.Database.Refuse | app/services/purchase.py:81-92 | 409 with the stock read again, below the count, or 404 |
| PurchaseService.Database.Flush | app/services/purchase.py:94-102 | waits for the key, or loses the race to the one order of the key, or holds it |
| PurchaseService.Database.CommitOrder | app/services/purchase.py:104-117 | the whole new state: stock, order, index entry, event and nothing else |
| PurchaseService.Database.Buy | app/services/purchase.py:65-131 | either committed as the last commit, its event created at the start of the transaction, or a true reply with everything rolled back |
| PurchaseService.Database.Respond | app/services/purchase.py:135-165 | success names the one order of the key whether or not Redis takes the write, and if it does, Redis names that order |
| PurchaseService.SuccessIsTruthful | app/services/purchase.py:33-37 | a success is true of every state that satisfies the invariant |
| PurchaseService.ConflictIsTruthful | app/services/purchase.py:89-92 | the 409 fields are true and the available stock is below the requested count |
| PurchaseService.CommitStep | app/services/purchase.py:104-117 | a call that holds its locks can always commit |
| OutboxWorker.OutboxTable.RecoverStuckEvents | app/worker/outbox_worker.py:77-93 | every row after the update: stuck ones pending and due now, all others unchanged |
| OutboxWorker.OutboxTable.SelectBatch | app/worker/outbox_worker.py:115-129 | the oldest due rows that no other worker has locked, at most batch_size; empty only if no free row is due |
| OutboxWorker.OldestDue | app/worker/outbox_worker.py:118-124 | selection loop: the chosen ids are the oldest due unlocked rows in order, the rest are due and not older |
| OutboxWorker.Oldest | app/worker/outbox_worker.py:122 | a minimum of created_at |
| OutboxWorker.OutboxTable.ClaimBatch | app/worker/outbox_worker.py:126-136 | the worker holds copies of the selected rows as they were; with nobody else moving exactly those rows become processing |
| OutboxWorker.OutboxTable.SendEvent | app/worker/outbox_worker.py:152-158 | the message reaches the broker exactly in the outcomes in which the broker accepts it |
| OutboxWorker.OutboxTable.PublishEvent | app/worker/outbox_worker.py:144-193 | with the given steps of others before the write: the outcome is recorded exactly if its write can get the row and succeeds; then that event's row alone has the columns of the outcome, with times counted from the write; otherwise nothing is written |
| OutboxWorker.OutboxTable.Meanwhile | app/worker/outbox_worker.py:138-139 | exactly the given steps of other workers and the environment happen; this worker's state and the count of its records stay |
| OutboxWorker.OutboxTable.RecordSent | app/worker/outbox_worker.py:160-169 | the sent record is a step of the protocol and writes that row only |
| OutboxWorker.OutboxTable.WriteFailure | app/worker/outbox_worker.py:173-193 | dlq or pending with backoff, retry_count from the worker's copy, error cut to 1000 characters |
| OutboxWorker.OutboxTable.PublishAll | app/worker/outbox_worker.py:138-139 | the loop records each claimed event once until it ends or an error escapes; with nobody else moving the first ones are attempted, the rest claimed and other rows unchanged |
| OutboxWorker.OutboxTable.ProcessBatch | app/worker/outbox_worker.py:98-141 | among any steps of others: the returned count is the size of a correct selection, the worker records one outcome for each event up to an error that escapes, zero means no free row was due; with nobody else moving, exactly those rows are attempted, each with its own outcome, the rest claimed, and the attempts left fall by at least the records |
| OutboxWorker.OutboxTable.RecoverIfTime | app/worker/outbox_worker.py:241-244 | recovery runs exactly when a whole interval is gone since the last one and costs no attempts |
| OutboxWorker.OutboxTable.Iterate | app/worker/outbox_worker.py:238-272 | among any steps of others: an iteration starts with a recovery exactly when one is scheduled, survives an error that escapes its batch, and ends with a pause exactly if it had nothing to do or failed; with nobody else moving it drains what it records, or some open event is still to come |
| OutboxWorker.OutboxTable.RunAmongOthers | app/worker/outbox_worker.py:235-272 | among any steps of others and new events: the loop's run, for any number of iterations, is cut into turns that recover on schedule, and it counts what it records |
| OutboxWorker.OutboxTable.RunWorker | app/worker/outbox_worker.py:235-272 | alone, from every table, with errors escaping in finitely many iterations, the loop ends with every event sent or dead-lettered; it records what it returns, at most max_retries outcomes per event |
| IdempotencyCache.ParseDecimal | app/cache/redis.py:63-65 | an order_id written as text reads back as itself |
| IdempotencyCache.KeysApart | app/cache/redis.py:29-34 | idempotency entries are prefixed idem:, never collide with each other or with product cards |
| IdempotencyCache.ProductsApart | app/cache/redis.py:29-30 | different products never share a card |
| IdempotencyCache.RedisStore.CheckIdempotency | app/cache/redis.py:58-60 | a hit exactly when the key is known, and then a text that reads as the stored order_id |
| IdempotencyCache.RedisStore.SetIdempotency | app/cache/redis.py:63-65 | exactly one entry is written, a text that reads as the order_id, for 24 hours |
| IdempotencyCache.RedisStore.SetCachedProduct | app/cache/redis.py:43-50 | exactly the product's card is written, without the stock, for five minutes; cards of other products stay |
| IdempotencyCache.RedisStore.InvalidateProductCache | app/cache/redis.py:53-55 | only the product's card goes, cards of other products stay |
| IdempotencyCache.RedisStore.Wait | app/cache/redis.py:11-12 | time only forgets entries, and exactly the expired ones |
| IdempotencyCache.ProbeIsAStep | app/cache/redis.py:58-60 | a store that says what the protocol's map says answers a probe exactly when the protocol can hit |
| IdempotencyCache.SetIsAStep | app/cache/redis.py:63-65 | after a set the store says what the map says after the protocol's write |
| IdempotencyCache.ExpiryIsEviction | app/cache/redis.py:63-65 | what time leaves of the keys is what a run of evictions of the purchase protocol leaves |
| VerifyStock.GroupedTotals | scripts/verify_stock.py:40-44 | the grouped sums of the listed products |
| VerifyStock.Verify | scripts/verify_stock.py:51-72 | the loop lists the mismatches of the listed products in order |
| VerifyStock.MismatchesAreExact | scripts/verify_stock.py:58-72 | an error is listed for exactly the listed products that do not balance, with the size of the gap |
| VerifyStock.VerifyScenario | scripts/verify_stock.py:22-82 | the script passes iff both listed products balance at the seeded 10 000 000; it names laptop iff product 1 does not balance and desktop iff product 2 does not, in that order |
| VerifyStock.CheckIsExact | scripts/verify_stock.py:33-44 | the check passes for a product exactly when no purchase of it commits between the script's two queries |
| VerifyStock.SaleIsPossible | app/services/purchase.py:33-117 | from any state a new call with an unused key can run to its commit if its product is in stock and nobody is buying it |
| VerifyStock.FalseAlarm | scripts/verify_stock.py:33-72 | a concrete run from the seeded database: everything balances and the script reports an error |
| VerifyStock.CheckerAccepts | scripts/verify_stock.py:58-82 | on every reachable state seeded with the initial stock a quiet checker reports nothing |

## Left out

- FastAPI routing, JWT, RFC 9457 bodies, logging and health checks: only the outcome and the fields of the 409 are kept; `user_id` and the key are inputs, the count is positive as the request schema demands.
- SQLAlchemy sessions, pools and the identity map: a transaction is its atomic steps; an attribute that cannot be loaded after a rollback is an error that escapes the batch (`Abandon`).
- PostgreSQL below Read Committed: share locks of foreign keys, lock timeouts and serialisation are not modelled; a transaction the database gives up is `Crash`. Column ranges (bigint, int4, 255 characters) are not modelled either; an overflow would be an error before the commit.
- The unique violation is recognised as such; matching on the text of the IntegrityError is not modelled.
- Ids are only fresh: an order_id is drawn at the flush, an event id at the commit, in no particular order, and values may be skipped.
- RabbitMQ topology, channel re-creation and dead lettering in the broker: the broker is a log of accepted messages. The branches of `run_worker` for lost connections are `Abandon` and time.
- One clock in whole microseconds stands for `time.monotonic`, the worker's wall clock and the database's `now()`; skew between them is not modelled, nor is JSON encoding.
- The product card endpoint, seeding scripts and migrations as steps: they give only the initial state. Truncating orders under a live Redis, as the scenario seeding does, is not part of a run.
- PurchaseService.Database.ProcessPurchase: waiting for a lock is one stretch of arbitrarily many steps of others; a call that still finds it taken then is cut off. Crashes elsewhere in the call, and after its commit, are steps of the state machine only.
- OutboxWorker.OutboxTable.RunWorker: that the loop empties the table is for one worker with no new events and a shutdown signal when nothing is open; for several, OutboxProgress.DrainBound bounds their work, and with RunAmongOthers they share the schedule. A loop in which errors escape for ever never uses up an event's attempts, so they escape in finitely many iterations.
- OutboxWorker.OutboxTable.PublishEvent: waiting for a row lock is one stretch of arbitrarily many steps of others; an UPDATE that still finds it taken then is cut off.
- IdempotencyCache.RedisStore.Wait: eviction under memory pressure and restarts are the `Evict` label of the purchase protocol, not steps of the store; the store's methods answer, its failures are the `ProbeSkip` and `CacheSkip` labels.
- RecoverySchedule.AbandonedIsRecovered: that iterations begin at most G apart is an assumption, as batches take as long as the broker takes.
- OutboxProgress.NoStarvation: for several workers in punctual runs only, as a recovery that overtakes a live batch lets its holder's failure record give an event attempts back.
- RecoverySchedule.StuckIsFound: for the row as it is when the loop starts; RecoveryComes is the statement for any moment.
