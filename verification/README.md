# Verification of the transaction pipeline

This project models a payment API written in Go and proves properties of it with Dafny 4.11. The API takes transactions
over HTTP, stores them as `pending` rows in PostgreSQL, remembers idempotency keys in Redis, publishes messages to
RabbitMQ, and completes the rows and moves the balances in queue consumers. It also has a synchronous path (`/v0`) that
does the same work in one database transaction, cache-aside reads, and a per-IP rate limiter.

`dafny verify dfyconfig.toml` checks everything.

## How the model is built

* **One machine for the whole protocol.** `Protocol` is a state machine over one database, one Redis, one queue, and any
  number of request handlers, consumers, synchronous requests and cached readers, each with a program counter that
  follows its function in the source statement by statement. A *run* is any sequence of events, so every interleaving,
  failure, crash, expiry and eviction is a run. `Behavior(tr, es)` says that `tr` lists the states of such a run from an
  initial state: any database, nothing cached, nothing queued, all consumers idle.
* **Outcomes of calls are events.** A database write ends `Done`, `NotDone`, or `Ambiguous` (applied, but reported as an
  error); other calls succeed or fail. An open circuit breaker, a cancelled context and a network error are all a call
  that is not run.
* **History.** `State.hist` logs commits, accepted requests, acks and key deletions so that theorems can speak of
  them. No guard of any step looks at it.
* **The program's own form.** `Services`, `Handlers` and `RateLimiter` are classes whose methods change their fields in
  place, as the Go code does. Each handler and the consumer loop is proved to leave the stores, and to answer, as the
  machine does in a run made of that one process's own events with the same call outcomes. The machine's theorems thus
  speak about what the methods do.
* **An independent reference.** `Outcomes` says once more, in columns, key strings and numbers, what each operation
  answers and leaves in the stores when it runs alone. Neither the machine nor the methods use it; the methods' contracts
  are stated with it. The theorems about runs likewise name columns, clocks and constants rather than the machine's own
  helpers where a row below speaks of amounts, times, statuses or lifetimes.

| file | content |
|---|---|
| `Domain`, `Stores` | entities; each atomic operation of each store as a function |
| `Protocol`, `Frames`, `Traces` | the machine, what each of its steps leaves alone, executions |
| `Ledger` | snapshot transactions and balances |
| `References` | what messages, answers and Redis entries refer to |
| `Delivery`, `Lifecycle` | where each message is; what happens to statuses |
| `ExactlyOnce` | how often a message commits, and what an ack promises |
| `Refinement` | the asynchronous path against the synchronous one |
| `Drain` | termination of the consumer loop |
| `Idempotency` | what an idempotency key buys |
| `Staleness` | how old, and why wrong, a cached answer can be |
| `Rounding`, `CacheKeys` | half cents; Redis keys as strings |
| `RateLimit`, `RateLimiter` | the limiter as a function of its traffic, and the mutable table |
| `Stamps` | which write a row's status and times are from |
| `Answers` | what requests and reads are answered |
| `Outcomes` | each operation's answer and effect, in raw terms |
| `Services`, `Handlers` | the imperative code |
| `Examples` | runs that show what is not promised |

## What turned out not to hold

* *Exactly once.* `processTransaction` never looks at the row's status, so a message delivered again after its commit is
  paid again. The number of passes of a message is exactly the number of its *slips* (a commit applied but reported as
  an error, a commit by a consumer without a channel, the loss of a consumer or its channel between Commit and Ack),
  plus one once it has committed for the broker (`PassesCounted`). An acked message was paid once if and only if it
  never slipped (`AckedExactlyOnceIff`); `CrashPaysTwice` is a run where it was paid twice.
* *Acked means completed.* A consumer whose channel the broker has dropped works on through the messages it has
  buffered, and can set an acked row back to `processing` (`StrayLeavesProcessing`). An acked row is `completed` if and
  only if no such consumer has claimed it since its last commit (`AckedIsCompletedIff`).
* *Cache coherence.* With every delete succeeding, a reader that queried before a commit can still store the old balance
  after the delete (`LateStoreGoesStale`). A cached balance is off by exactly the changes committed since its reader's
  query, shared out over three causes (`CachedBalanceOffBy`), and right if and only if they cancel out
  (`CachedBalanceIsRightIff`).
* *Unobservable eviction* of rate limiters needs ten idle minutes, less the time a request takes from looking its
  limiter up to asking it, to refill a bucket: `EvictionUnobservableIff`. The deployed 300 tokens at 800 per second meet
  it by far (`DeployedLimitsRefill`).
* *Rows and balances* round half cents separately, and can part by one cent a payment (`BoundIsReached`); `PayDrifts`
  says exactly when, and they agree if and only if these drifts cancel out (`BalanceOffBy`).

The key builders of `api/cache/redis.go`, taken alone, are not injective either: two keys share a string exactly as
`KeysCollideIff` says, and two owners can collide if and only if one id followed by a colon begins the other
(`OwnersCollideIff`). This cannot happen in the service, whose user ids have passed a query on a UUID column first.

## Assumptions

* New transaction ids are fresh. (The table has no unique constraint on `id` alone; ids are random UUIDs.)
* A serializable transaction sees a snapshot, writes private copies, and commits only if every row it wrote still has the
  version its snapshot saw (first committer wins). The autocommit statements are atomic.
* Both database handles point at one primary, as docker-compose.yml:111-114 has it.
* Redis is a map with expiry; keys can be evicted at any time. A call can fail. A store by a reader takes effect before
  its request's deadline or not at all.
* A publish may get lost on the way with or without an error, and may arrive although it reports an error. The broker
  keeps what has arrived, hands each ready message to one consumer, requeues at the head, and drops what arrives at a full
  queue without telling the publisher. Prefetch 0 means no limit.
* The rate limiter library's bucket is exact: it starts full and refills continuously. A request asks its limiter at most
  ten minutes after looking it up, and time stamps do not go back.
* Amounts are whole cents everywhere but in `Rounding`.

Where comments and code differ, the model follows the code: the handlers' comments speak of a read replica, but both
handles open the primary; the idempotency key is commented as a header (api/handler/transaction.go:25) but is read from
the body; a failed publish is commented as needing manual processing (api/handler/transaction.go:136-143), while a publish
dropped by the full queue gets the ordinary answer.

## Model

| member | source | states |
|---|---|---|
| Ledger.LedgerHolds | api/main.go:178-211 | In every reachable state every balance is its initial value plus the signed amounts of the committed passes and synchronous requests: concurrent serializable transactions lose, repeat and invent nothing, aborted ones add nothing |
| References.LedgerAmounts | api/main.go:194-207 | Every logged change is its row's amount, added for a credit and subtracted for a debit or a transfer |
| Ledger.StepAdvances | api/main.go:166-211 | No step removes a row, changes a column that no UPDATE names, or changes a row without a new version |
| Ledger.SnapshotsKept | api/main.go:178-211 | Every open transaction's snapshot stays a true earlier version of its rows, and is the current one while versions agree |
| References.ReferencesHold | api/handler/transaction.go:95-135 | Every queued, unacked or in-progress message, idempotency entry, cached value, pending row and accepted request names an existing row of the same user with the same type and amount, because insert comes before set and set before publish |
| References.EveryPassMovesTheBalance | api/main.go:194-207 | A pass that reaches its commit has a listed type and found both its rows: the branch without a balance statement is never taken |
| References.AnswersAgreeWithUncachedRead | api/handler/transaction.go:176-222 | Whatever a cached read answers, hit or miss, its user, type, amount, reference, description and creation time are those the uncached read of the same key gives at that moment; only status, update time and balance may lag |
| References.AnswersNameOwnRows | api/handler/transaction.go:77-157 | The id in any answer of CreateTransaction names a row of the requesting user, and for a new transaction the row that was asked for |
| Delivery.WorkIsConserved | api/queue/rabbitmq.go:133-147 | In every reachable state, crashes included, every asynchronous row is in exactly one of: its handler's hand, one position of the queue, one position of one consumer's unacked messages, acked, never to be enqueued; nothing else is in any |
| Delivery.PrefetchHolds | api/queue/rabbitmq.go:70-72 | A connected consumer never holds more messages than it may prefetch |
| Delivery.NoticedStops | api/queue/rabbitmq.go:117-149 | A consumer whose delivery channel has closed finishes the pass in progress and claims nothing more until it restarts |
| Lifecycle.NeverEnqueuedStaysPending | api/handler/transaction.go:135-146 | A row whose publish failed, was dropped by the full queue or died with its handler stays as inserted and moves no balance for the rest of the run |
| Lifecycle.StatusesNeverGoBack | api/main.go:165-191 | A row that has left `pending` never returns to it |
| Lifecycle.NothingWritesFailed | migrations/init.sql:36-37 | No code path writes `failed`: such a row was there from the start |
| Stamps.RowsAreStamped | migrations/init.sql:179-194 | In every reachable state a row's status, `updated_at` and version are those of its last claim (at its clock) or its last committed pass (at the clock of that pass's Begin), whichever came last, and before any those of its creation |
| Stamps.ClaimStamps | api/main.go:166-169 | An applied claim leaves the row `processing`, stamped with the clock of that step |
| Stamps.CommitStamps | api/main.go:185-188 | A committed pass leaves the row `completed`, stamped with the clock of its own Begin |
| Stamps.UnwrittenIsAsCreated | migrations/init.sql:179-194 | A row created in the run that no claim or commit has written has the `updated_at` it was created with |
| Lifecycle.QueueHolds | api/handler/transaction.go:124-146 | Only published messages are ever delivered, worked on, acked or committed; an unpublished row still has its first version |
| ExactlyOnce.PassesCounted | api/queue/rabbitmq.go:141-146 | In every state of every run, the committed passes of a message number its slips, plus one once it has committed for the broker |
| ExactlyOnce.RetriesAreSafe | api/queue/rabbitmq.go:141-146 | However often it is requeued, a message without slips commits at most once, and a pass about to be requeued has changed no balance |
| ExactlyOnce.AckedExactlyOnceIff | api/main.go:166-211 | An acked message has committed exactly once more than it slipped: once if and only if no step of the run slipped it |
| ExactlyOnce.AckedIsCompletedIff | api/queue/rabbitmq.go:141-146 | After an ack, in every later state, at least one pass has committed and the row is `completed` if and only if no consumer without a channel has claimed it since its last commit |
| ExactlyOnce.AckedImpliesCompletedForever | api/queue/rabbitmq.go:141-146 | With crash-stop consumers an acked row is `completed` in all later states |
| Refinement.DeviationIsExact | api/main.go:193-211 | In every reachable state, each balance is that of the synchronous path run on the accepted requests in any order, plus exactly the sum of (times committed - 1) times the signed amount |
| Refinement.DrainedDeviation | api/main.go:209-215 | Once drained with nothing lost, the difference is exactly the signed amounts of the slips |
| Refinement.DrainedRefinesIff | api/handler/v0_transaction.go:61-118 | A drained run's balances and rows (user, type, amount, description, status) are those of the synchronous path on the accepted requests in any order, if and only if every row reached the queue, none was left by a stray consumer, and each user's slips cancel out |
| Refinement.DrainedRefinesSynchronous | api/handler/v0_transaction.go:61-118 | Without lost rows, slips and stray claims, the drained asynchronous pipeline has the outcome of the synchronous path in any order |
| Refinement.SyncAllRuns | api/handler/v0_transaction.go:61-118 | The synchronous path accepts any sequence of requests of active users with fresh ids, and adds each effect once and each row completed |
| Refinement.PlainPermutes | api/handler/v0_transaction.go:87-106 | The order of the requests does not matter to any balance |
| Drain.DrainTerminates | api/queue/rabbitmq.go:133-147 | From any reachable state, while nothing is published, the number of steps that move a message or a consumer is bounded by the work at hand, the failed calls and lost consumers, and the synchronous commits; commits refused because another consumer overtook them are paid for by that consumer's progress |
| Drain.StuckMeansDone | api/queue/rabbitmq.go:133-147 | When no consumer can go on and one is connected, queue and inboxes are empty and every message ever enqueued is acked, committed, and `completed` unless a stray consumer claimed its row |
| Idempotency.PublicationsCounted | api/handler/transaction.go:75-146 | In every run a key's requests call Publish at most once, plus once for each failed lookup or Set, eviction or expiry of the key, and request that overlaps an earlier one |
| Idempotency.AnsweredForADay | api/handler/transaction.go:77-122 | After a successful Set, in every continuation without an eviction or another Set of that key, a lookup that Redis answers ends its request with the stored id if and only if it comes within 24 hours of the Set, and otherwise goes on to insert |
| Idempotency.RetriesPublishOnce | api/handler/transaction.go:75-146 | Requests with one user and key that do not overlap and are looked up within 24 hours of any earlier Set call Publish at most once for it, wherever their handlers die, if the key is not evicted and no lookup or Set of it fails |
| Idempotency.RowsCounted | api/handler/transaction.go:77-117 | In every run the rows inserted for a key number at most its lookups that did not end their request |
| Idempotency.OverlapsAreBounded | api/handler/transaction.go:77-122 | Overlapping requests with one user and key insert at most as many rows as there were lookups before the first Set, within 24 hours and without evictions and failed calls |
| Staleness.HitsAreBoundedlyStale | api/handler/user.go:48-86 | A hit at time t answers, column by column, what the database held at some moment of the run no earlier than t minus TTL minus the five-second request deadline |
| Staleness.MissesAreFresh | api/handler/user.go:58-75 | A miss answers, column by column, what the database held at some moment since its request arrived |
| Answers.MissOnAckedIsCompleted | api/handler/transaction.go:176-222 | A miss on a transaction that was acked when the read arrived, and that no consumer without a channel has claimed since its last commit, answers `completed` |
| Answers.BadRequestIff | api/handler/transaction.go:22-23 | CreateTransaction answers "invalid request" if and only if the type is none of the three or the amount is not above zero |
| Answers.SyncRefusedIff | api/handler/v0_transaction.go:26-35 | CreateTransactionV0 refuses a request on arrival if and only if the same holds |
| Answers.SyncAnswersAreFinal | api/handler/v0_transaction.go:61-118 | A synchronous request that has been answered, or whose process has died, keeps its answer and commits nothing more |
| Staleness.CachedBalanceOffBy | api/handler/user.go:58-86 | In every reachable state a cached balance is off by exactly the changes committed for its user since its reader's query: those of synchronous requests, of passes that have not deleted the key, and of passes whose delete came between the query and its store; every such commit is one of the three |
| Staleness.CachedBalanceIsRightIff | api/handler/user.go:58-86 | A cached balance is the uncached one if and only if those changes add up to zero |
| Staleness.StaleBalancesHaveACause | api/handler/user.go:58-86 | A cached balance that differs has a commit behind it of a cause whose changes do not cancel out |
| Staleness.StaleOnlyWhileRacing | api/main.go:209-215 | When deletes succeed and the user has no synchronous write since the query, the cached balance is off by exactly the changes of consumers between their commit and their delete, and of late stores; right if and only if these cancel out |
| Rounding.PayDrifts | api/main.go:194-207 | One payment parts the balance from the stored row amount exactly when the amount is a half cent and the new sum is below zero after a credit or above zero after a debit, and then by one cent |
| Rounding.BalanceOffBy | api/main.go:194-207 | After any payments the balance is off from what the stored rows add up to by exactly the payments' drifts |
| Rounding.BalanceNearRows | migrations/init.sql:35 | After any payments the balance is within one cent per half-cent payment of what the stored rows add up to |
| Rounding.WholeCentsAgree | migrations/init.sql:15 | For whole cents balance and rows agree exactly |
| Rounding.BoundIsReached | migrations/init.sql:15 | The bound is attained: half-cent debits leave a positive balance alone and store a cent each |
| Rounding.InsertRefusedIff | api/handler/transaction.go:23 | The CHECK on the stored amount refuses what the binding let through exactly below half a cent; what it lets through is stored to the nearest cent |
| Rounding.RoundsToNearest | migrations/init.sql:35 | NUMERIC(18, 2) rounding picks the nearest cent, ties away from zero |
| CacheKeys.KeysAreInjective | api/cache/redis.go:76-88 | For user ids without colons, distinct transactions, balances and (user, key) pairs never share a Redis key |
| CacheKeys.KeysCollideIff | api/cache/redis.go:76-88 | On any strings, two Redis keys coincide exactly if they are the same or idempotency keys whose owner and key are cut apart differently |
| CacheKeys.OwnersCollideIff | api/cache/redis.go:86-88 | Two owners' idempotency keys can coincide if and only if one id followed by a colon begins the other |
| CacheKeys.ColonsCollide | api/cache/redis.go:86-88 | The string builder does give two owners one key when an id has a colon |
| CacheKeys.SetRepresented | api/cache/redis.go:46-52 | A store under string keys represents the cache of typed keys after Set |
| CacheKeys.DeleteRepresented | api/cache/redis.go:71-73 | The same after Delete |
| CacheKeys.GetRepresented | api/cache/redis.go:55-68 | Get finds under the string what the typed cache holds |
| RateLimit.EvictionUnobservableIff | api/middleware/ratelimit.go:37-83 | When every request asks its limiter within a given delay of looking it up, others running in between, the table that evicts answers every request of every trace like one that never does, if and only if ten minutes and a nanosecond less the delay bring `burst` tokens at `rps` |
| RateLimit.AskedIsCurrent | api/middleware/ratelimit.go:68-70 | Between its look-up and its Allow a request's entry is never evicted, so it asks the limiter the table holds |
| RateLimit.RefillCondition | docker-compose.yml:127-128 | For requests that ask at once, below a billion requests per second, the condition is burst <= 600 * rps |
| RateLimit.SimulationHolds | api/middleware/ratelimit.go:37-62 | The evicting table simulates the keeping one: buckets agree, or both would be full |
| RateLimit.AdmissionBound | api/middleware/ratelimit.go:65-83 | Over any window an address is admitted at most burst + rps * seconds times, even if its bucket is deleted and made anew inside |
| RateLimit.AddressesAreIndependent | api/middleware/ratelimit.go:37-52 | Other addresses' requests never change an address's answers |
| RateLimit.CleanupKeepsExactly | api/middleware/ratelimit.go:54-62 | The walk's visit leaves an address exactly if its last request is at most ten minutes old at the visit's clock reading |
| RateLimit.EntriesAreRecent | api/middleware/ratelimit.go:27-35 | While the last full walk began at most five minutes ago each entry was used within the last fifteen |
| RateLimit.EntriesAreLastLooks | api/middleware/ratelimit.go:41-44 | An entry's time stamp is its address's last request; an address missing after a request was idle when last visited |
| RateLimiter.Limiter.Allow | api/middleware/ratelimit.go:70 | Takes one token if the bucket, refilled at rps and capped at burst, has one and says so; otherwise leaves the bucket alone |
| RateLimiter.LimiterTable.GetLimiter | api/middleware/ratelimit.go:37-52 | Returns the address's own limiter, stamped now, or a new full one; no other entry changes and no two share a bucket |
| RateLimiter.LimiterTable.CleanupLimiters | api/middleware/ratelimit.go:54-62 | The walk visits every entry once, in any order, reads the clock at each, and deletes exactly those idle for more than ten minutes then |
| RateLimiter.LimiterTable.Admit | api/middleware/ratelimit.go:65-83 | One request looks its limiter up under the mutex and asks it later: table and answer are those of the trace model |
| Handlers.Api.CreateTransaction | api/handler/transaction.go:45-158 | From any state, with any outcome of each call, the answer and every column, key and message in the stores are as `CreateAnswer` and `AfterCreate` spell them out, and those of a run of one handler's own steps; an accepted request's message is at the tail of a queue that has room |
| Handlers.Api.LookupKey | api/handler/transaction.go:77-92 | Only a live id under the request's own key ends the request; an error falls through like a miss |
| Handlers.Api.InsertAndPublish | api/handler/transaction.go:94-157 | Insert, then Set for 24 hours if there is a key, then Publish, each with its error handling: row, key and message are spelled out, and are those of a run of the handler |
| Handlers.Api.ProcessTransaction | api/main.go:161-224 | Alone, a pass is a run of the consumer's own steps and fails exactly when one of its database calls reports an error; the row's status and stamp, the balance and the two keys it leaves are spelled out |
| Handlers.Api.CommitPass | api/main.go:209-211 | Committing the private copies stamps the row `completed`, moves the balance by the signed amount, and is the machine's validated commit |
| Handlers.Api.StartConsumer | api/queue/rabbitmq.go:117-149 | Left alone, the delivery loop empties the queue and the prefetched buffer whatever failures its first passes meet and however many messages it is handed at a time, by steps of its own; the stores are those after exactly its passes, each message succeeds in one of them, and malformed messages are discarded |
| Handlers.Api.CreateTransactionV0 | api/handler/v0_transaction.go:22-129 | Succeeds exactly when the request binds, the user is active and every call succeeds; then the row is inserted completed and the balance moved by the signed amount, and otherwise, unless the commit's result was lost, nothing has changed |
| Handlers.Api.GetCached | api/handler/user.go:31-90 | Get, else query and Set, with time passing in between: answer, stored entry, its expiry and the time taken are spelled out, and are those of a run of one reader's own steps; a Set more than five seconds after the start stores nothing |
| Services.Tx.Commit | api/main.go:209-211 | Installs exactly the private copies that were written, or reports an error and changes nothing, unless the result is lost |
| Examples.CrashPaysTwice | api/queue/rabbitmq.go:141-146 | For any database and request, a crash between Commit and Ack pays twice and leaves nothing in the queue |
| Examples.StrayLeavesProcessing | api/main.go:165-172 | For any database and request, a consumer that has lost its channel can leave an acked, paid row `processing` |
| Examples.LateStoreGoesStale | api/handler/user.go:58-86 | For any database and request, a late store leaves the old balance cached although every delete succeeded |

## Left out

- Idempotency.RetriesPublishOnce: says at most one publication, as a handler can die between Set and Publish.
- RateLimit.EvictionUnobservableIff: a request that takes more than ten minutes from look-up to Allow, and so may ask a limiter already evicted, is not modelled.
- Malformed bodies are in the classes (`Services.Body`); the machine's queue holds the messages among them.
- Staleness.HitsAreBoundedlyStale: a positive TTL is not needed, but Set with TTL zero, which Redis takes as no expiry, is not modelled.
- Circuit breaker states, connection pools, reconnects: a call that is not run is an outcome like any other failure.
- Gin routing, JSON, HTTP status texts, logging, metrics, health checks, graceful shutdown, start-up retries.
- Float amounts in JSON and messages, NUMERIC overflow, and table partitions without a matching month.
- `username`, `email`, `metadata`, `fetched_at`, `updated_at` of users, and the message's description, trace id and time: no step reads them.
- Read-replica lag, several spellings of one UUID, unparsable environment values.
- `middleware.Timeout`, which is mounted nowhere, trace ids, seed data, load tests, dashboards, nginx.
- Non-negative balances and transfers between users: the code has no such rule (a `transfer` only debits).
