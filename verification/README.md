# Verified model of notify-relay

A Dafny model of the notification relay: the delivery protocol between API processes, workers, a
lossy broker and the periodic jobs; the Redis token bucket; idempotent message creation; the
webhook address check; and the choice of client address for rate limits. `dafny verify
dfyconfig.toml` checks everything.

## How it is built

| file | content |
|---|---|
| `Messages.dfy` | rows, attempts, dead letters, constants, and what each database statement does |
| `Protocol.dfy` | the protocol as a state machine; one event per statement or process step |
| `Ownership.dfy` | what every run keeps, whatever the broker does |
| `Records.dfy` | what the attempt and dead-letter tables keep in every run |
| `Succession.dfy` | who may claim a message after it was enqueued again |
| `Copies.dfy`, `Tries.dfy` | how often a message is delivered and a task tries, with any number of redeliveries |
| `Tightness.dfy`, `Rates.dfy` | runs that reach these bounds, and the bound on publications, for all parameters |
| `Recovery.dfy` | that an unfinished message can be sent from every state, whatever was lost |
| `Exclusion.dfy` | what holds for a message when no claim of it overlaps a run of the same task |
| `Overlap.dfy` | that this condition is exact, message by message |
| `Accounting.dfy` | the exact account of the successes of such a message |
| `Witnesses.dfy` | concrete runs that show where a promise ends |
| `Tasks.dfy` | the task bodies as imperative code |
| `TaskSteps.dfy` | each task body is a sequence of protocol events |
| `Bucket.dfy` | the token bucket script and client |
| `Intake.dfy` | concurrent `create_message` calls |
| `Resolver.dfy`, `ResolverPool.dfy` | webhook vetting; the resolver's slots and threads under every interleaving |
| `ClientAddress.dfy` | forwarded chains and buckets |
| `Listing.dfy`, `Options.dfy` | ordered query results taken in batches; `Option` |

A run of the protocol is any sequence of events; an event that is not enabled changes nothing, so a
theorem about `Exec(start, es)` for all `es` is a theorem about every interleaving. Only the claim
and a dispatch pass's select-and-stamp are one event, because they hold the row lock; the channel
call, the attempt count, the attempt insert and the final write are separate events, with anything
in between. A dispatch pass, a creation and a cleanup pass may have read the clock any time before
they write, which covers overlapping passes.

Assumptions on the environment, all in `Protocol.Enabled`: the clock does not run backwards; task
ids and message ids are fresh, and task ids are not empty; no claiming run outlives the hard time
limit of 60 s. The broker may lose, delay, reorder and redeliver, also while an earlier delivery of
the same task is waiting or running (`Redeliver`). `Ownership`, `Records`, `Succession`, `Recovery`,
`Copies` and `Tries` assume nothing more. `Exclusion` and `Accounting` hold for each message of which no claim
succeeds while another delivery of the same task is running (`NoOverlapOn`), whatever happens to other
messages. The code cannot enforce this because a claim checks the task id only;
`Overlap.FinalStatusIsKeptExactly` proves that the condition is necessary as well, and
`Accounting.NoRedeliveryMeansNoOverlap` that a message never handed out twice meets it. The bound on
waiting (the larger of the 3600 s countdown cap and the 3900 s visibility timeout) appears only in
`Ownership.OwnerAlive`.

The `log` and `ledger` of the state record what happened; no event's effect depends on them, except
that ids are fresh, that a pending publication is published once, and that a cleanup pass deletes
what it has read.

## Where the code and its documentation differ

- `docs/ARCHITECTURE.md:34` draws a transient failure as going back to `queued`. The code leaves the
  row `sending` and owned (`src/tasks/delivery.py:122-128`), and so does the model.
- `src/tasks/scheduler.py:55` says that a late run of an old task stops as a duplicate after a
  re-enqueue. It does exactly when another task has claimed the row since the new stamp, or the
  message is settled (`Succession.TurnedAwayExactly`); until then the old task may claim, and the new
  one stops (`Witnesses.OldTaskClaimsAgain`). Either way one task runs per stamp
  (`Succession.OneTaskPerStamp`).
- `src/tasks/delivery.py:77` relies on redeliveries keeping the task id. That lets a redelivered copy
  claim while the first one runs, and then a final status can be overwritten
  (`Witnesses.SentIsOverwritten`); it cannot otherwise (`Overlap.FinalStatusIsKeptExactly`).
- `src/apps/messages_api/validators.py:138` says that a lookup never queues. It waits for a thread
  exactly when the threads that have released their slot and are not idle yet outnumber the slots that
  are free, leaked or not submitted (`ResolverPool.WaitsExactly`, with a run in
  `ResolverPool.LookupMayQueue`), and never for another lookup to be resolved as long as the pool can
  start its threads. If the pool refuses a lookup without queuing it, its slot is lost
  (`ResolverPool.SlotsAreConservedExactly`).
- A request with an explicit empty priority is stored with it and compared as the default
  (`src/apps/messages_api/services.py:74`, `src/apps/messages_api/services.py:148`), so its own retry is
  a conflict (`Intake.RetryIsReplayedExactly`). Such a request does not come through the API: the
  serializer refuses it (`src/apps/messages_api/serializers.py:29`).
- "One row per (API key, idempotency key)" fails for calls without an API key, because the unique
  constraint treats NULLs as distinct (`src/apps/messages_api/models.py:72-77`).
  `Intake.UniquenessNeedsAnApiKey` gives the exact scope. The view never makes such a call
  (`src/apps/messages_api/views.py:57-65`).

## Model

| member | source | states |
|---|---|---|
| Ownership.InvHolds | src/tasks/delivery.py:76-128 | every run keeps the whole-system invariant over rows, live deliveries, stamps, publications and doomed ids |
| Ownership.ClaimingRunsOwnTheRow | src/tasks/delivery.py:79-87 | in every run each claiming run carries the row's `claimed_by` and is no older than 60 s, and two claiming runs of one message belong to one task, redeliveries included |
| Ownership.LiveOwnerIsNotDisplaced | src/tasks/scheduler.py:30-45 | no dispatch pass can select a row whose owner is running or within one retry or redelivery wait, from 60 + max(3600, 3900) < 7200 |
| Ownership.OwnersStayAlive | src/tasks/scheduler.py:30-33 | a run that crashes and is redelivered, asks for a retry or is handed out again leaves its task alive in that sense while the row is its own |
| Ownership.NeverEarly | src/apps/messages_api/services.py:59-80 | in every run a message with a live delivery, or with a row past `queued`, has reached its `scheduled_at`, which no event changes |
| Ownership.CreationIsPublishedWhenDue | src/apps/messages_api/services.py:59-80 | a new row holds what was asked for, and its task is pending with the row stamped if and only if there is no `scheduled_at` or it had been reached |
| Ownership.NothingIsStranded | src/tasks/scheduler.py:43-49 | every unfinished row of every run is selected by exactly the passes after its deadline: two hours after its claim, fifteen minutes after its stamp, or at `scheduled_at` |
| Recovery.UnfinishedMessagesCanBeSent | src/tasks/scheduler.py:3-8 | from every state of every run, even after the broker lost every task and every worker died, an unfinished message can be dispatched again and sent |
| Ownership.StampsAreSpaced | src/tasks/scheduler.py:42-59 | stamps of one row are more than 15 minutes apart, and two tasks of one message stem from stamps that far apart |
| Ownership.PublicationRate | src/tasks/scheduler.py:42-67 | at most 1 + T / (15 min + 1 µs) tasks of a message stem from stamps within a span T, however many passes overlap, and so at most 1 + T / 15 min |
| Ownership.PublicationRateByMoment | src/tasks/scheduler.py:42-67 | counted by the moment of publication, at most 1 + (T + D) / (15 min + 1 µs) when no task is published more than D after its stamp |
| Rates.BoundIsReached | src/tasks/scheduler.py:42-67 | for every T and D there is a run that reaches this bound |
| Rates.PlainRateExactly | src/tasks/scheduler.py:42-67 | by the moment of publication 1 + T / 15 min holds in every run with lags at most D if and only if D is at most 1 µs |
| Ownership.CleanupSparesLiveMessages | src/tasks/scheduler.py:83-90 | deleting by ids read earlier, with no recheck, removes only finished messages past retention |
| Records.AttemptsAreNumbered | src/tasks/delivery.py:99-109 | in every run, redeliveries included, the attempts of a message are numbered 1..n although the count is read unlocked |
| Records.ContentIsKept | src/tasks/delivery.py:131-153 | in every run a row keeps its content, and a dead letter belongs to a stored message and holds its seven fields as accepted |
| Succession.OneTaskPerStamp | src/tasks/delivery.py:79-87 | between two stamps of a row at most one task id ever claims it, in every run |
| Succession.TurnedAwayExactly | src/tasks/scheduler.py:55-58 | a delivery is turned away if and only if its message is settled or another task has claimed it since the last stamp |
| Witnesses.OldTaskClaimsAgain | src/tasks/scheduler.py:55-58 | a run in which the old task claims after the re-enqueue and the new one is the duplicate |
| Copies.SuccessesAreCounted | src/tasks/delivery.py:90-95 | a channel call counts as a success if and only if it returns one; an exception never does |
| Copies.DeliveriesAreBounded | src/tasks/delivery.py:76-128 | in every run successful calls are at most 1 + crashed runs + redeliveries; before the message is settled each is lost or held by a run |
| Tightness.DeliveriesReachTheBound | src/notify_relay/settings/base.py:181-184 | for any number of redeliveries and crashes there is a run that reaches that bound |
| Tries.TriesAreBounded | src/tasks/delivery.py:41-73 | in every run a task completes at most 7 × (1 + its redeliveries) tries outside crashes |
| Tightness.TriesReachTheBound | src/tasks/delivery.py:41-73 | for any number of redeliveries there is a run that reaches that bound |
| Tries.RetriesAreBounded | src/tasks/delivery.py:41-73 | in every run no delivery carries more than six retries; a task never handed out twice has at most seven tries outside crashes, and while it runs exactly as many completed as it has retries |
| Exclusion.ExclHolds | src/tasks/delivery.py:89-128 | for a message of which no claim overlaps a run of the same task: what its claiming run may rely on without a lock, kept by every event, redeliveries and other messages included |
| Exclusion.UnlockedWritesAreGuarded | src/tasks/delivery.py:99-134 | whole runs without overlapping claims equal runs in which count, insert and final write are guarded by (sending, owner) and the numbering is atomic |
| Exclusion.FinalStatusIsKept | src/tasks/delivery.py:81-84 | once such a message is sent, failed or dead, no later event changes its row or its attempts until it is deleted |
| Exclusion.InsertsNeverFail | src/tasks/delivery.py:99-109 | for such a message the unique constraint on attempts never fires and a final status agrees with the last attempt |
| Exclusion.DeadLettersMatch | src/tasks/delivery.py:131-141 | such a message has a dead letter exactly when it is failed or dead |
| Overlap.OverlapOverwrites | src/tasks/delivery.py:81-115 | from every reachable overlapping claim the two runs can go on, by their own statements alone, until the final status of their message is overwritten, unless the earlier one holds an attempt number taken since |
| Overlap.FinalStatusIsKeptExactly | src/tasks/delivery.py:81-134 | for any set of runs that leaves workers free and for each message: its final status is kept in all of them if and only if no claim of it overlaps a run of the same task |
| Accounting.BalanceHolds | src/tasks/delivery.py:90-115 | for a message without overlapping claims, every successful call is lost with its run, held by its one claiming run, or written to the row; a failed or dead message has none that was not lost |
| Accounting.AtLeastOnceIsBounded | src/tasks/delivery.py:76-128 | for such a message, successful calls are at most 1 + crashed runs, and exactly 1 when it is sent without crashes |
| Accounting.NoRedeliveryMeansNoOverlap | src/notify_relay/settings/base.py:181-184 | a message none of whose live deliveries is handed out again meets the condition on claims |
| Accounting.TaskEndsForAReason | src/tasks/delivery.py:81-84 | a task of such a message that ends without crash or loss leaves the message settled or owned by another task |
| Witnesses.SentIsOverwritten | src/notify_relay/settings/base.py:181-184 | a run in which the broker redelivers after the visibility timeout and a sent message becomes failed |
| Tasks.Store.Deliver | src/tasks/delivery.py:76-128 | the task body run alone computes `DeliverOnce` |
| Tasks.EndingIsDecided | src/tasks/delivery.py:81-128 | when a run is skipped, ceded or broken, and which ending the channel's answer and the retries lead to; an exception asks for a retry or ends dead |
| Tasks.EndingsPromise | src/tasks/delivery.py:81-153 | what each ending leaves in the three tables: the new attempt by the channel's answer, the final row, and the dead letter's reason and seven fields; other messages are untouched |
| Tasks.Store.MoveToDeadLetter | src/tasks/delivery.py:131-141 | status and dead letter together, an existing letter kept |
| TaskSteps.RunMatchesTaskBody | src/tasks/delivery.py:76-128 | the protocol's events, uninterrupted, leave the same tables as the task body, and the delivery finished, waiting with one more retry, or gone, as the outcome says |
| TaskSteps.PassMatchesEvents | src/tasks/scheduler.py:40-67 | a dispatch pass with a broker that fails part-way is one `Dispatch`, a `Publish` per accepted task and a `PublishFails` per row left, with exactly these effects |
| TaskSteps.CleanupMatchesEvents | src/tasks/scheduler.py:77-95 | the cleanup job is a sequence of `CleanupSelect` and `CleanupDelete` rounds that leaves the tables the code leaves |
| Tasks.Store.SelectBatch | src/tasks/scheduler.py:43-54 | the first 200 selected rows in query order |
| Tasks.Store.EnqueueAll | src/tasks/scheduler.py:65-67 | publishes in order up to the first broker failure |
| Tasks.Store.DispatchScheduled | src/tasks/scheduler.py:40-62 | stamps exactly the batch, then publishes; a broker failure leaves stamped rows without a task |
| Tasks.BacklogDrains | src/tasks/scheduler.py:43-62 | at one moment n eligible rows need exactly n / 200 passes rounded up, each row selected once |
| Tasks.Store.DeleteByIds | src/tasks/scheduler.py:88-89 | deletes the messages with their attempts and dead letters; the count is by how many rows the three tables shrink |
| Tasks.Store.CleanupOldMessages | src/tasks/scheduler.py:71-95 | terminates, removes exactly the sent, failed and dead messages older than 90 days with their dependents, and returns by how many rows the three tables have shrunk |
| Bucket.LazyIsEager | src/apps/ratelimit/lua/token_bucket.lua:17-43 | same replies on every call sequence as a bucket topped up each millisecond that never expires and gives each call what it asks for or nothing |
| Bucket.TokensAreConserved | src/apps/ratelimit/lua/token_bucket.lua:24-40 | as long as the refill does not meet the cap, tokens left plus tokens granted equal tokens before plus refill, over any call sequence |
| Bucket.AffordableCallsAreAdmitted | src/apps/ratelimit/lua/token_bucket.lua:31-34 | calls at one moment that ask together for no more than is there are all admitted, each leaving the rest; an unused bucket has `burst` |
| Bucket.TtlCoversFullRefill | src/apps/ratelimit/lua/token_bucket.lua:42-43 | by the time the key may expire the bucket is full again |
| Bucket.TicksAreLazy | src/apps/ratelimit/lua/token_bucket.lua:24-29 | the lazy capped refill equals the sum of the capped ticks |
| Bucket.WindowBound | src/apps/ratelimit/lua/token_bucket.lua:21-43 | any window grants at most burst + rate × forward clock movement, on any clock; tokens stay within 0..burst |
| Bucket.WindowBoundOnMonotoneClock | src/apps/ratelimit/lua/token_bucket.lua:21-43 | on a monotone clock the bound is burst + rate × elapsed |
| Bucket.RefusedCallsAreNeutral | src/apps/ratelimit/lua/token_bucket.lua:31-43 | deleting any refused calls changes no other reply |
| Bucket.RetryTimeIsLeast | src/apps/ratelimit/lua/token_bucket.lua:36-39 | the same request passes w ms later exactly when it fits the bucket and w has reached the reported wait |
| Bucket.RetryAfterSuffices | src/apps/ratelimit/bucket.py:27-29 | after a refusal the header is the least positive number of seconds after which the request passes; otherwise it is 0 |
| Bucket.Redis.TokenBucketScript | src/apps/ratelimit/lua/token_bucket.lua:11-45 | the script as written computes `Script` and touches one key |
| Bucket.Redis.Consume | src/apps/ratelimit/bucket.py:38-61 | meaningless limits are refused without a trace; otherwise one script run on the prefixed key |
| Intake.FindIsNewest | src/apps/messages_api/services.py:102-107 | the search returns the newest row whose API key and idempotency key both equal the request's, and none only if there is no such row |
| Intake.InsertIsDecided | src/apps/messages_api/services.py:63-86 | an insert that breaks no other constraint creates the message unless it has an API key and a row with both fields equal exists |
| Intake.SearchIsDecided | src/apps/messages_api/services.py:48-86 | both searches answer from such a row if there is one; otherwise the first goes on and the second raises again |
| Intake.NewKeyCreates | src/apps/messages_api/services.py:48-87 | a request under a new key creates its message, whatever else is stored or under way |
| Intake.AnswersHaveCreators | src/apps/messages_api/services.py:81-87 | in every run a replay or conflict implies another call with the same API key and idempotency key that created the message |
| Intake.RejectionIsFinal | src/apps/messages_api/services.py:52-57 | a call whose template fails stores nothing, then or later |
| Intake.CallsRefine | src/apps/messages_api/services.py:48-87 | every interleaving of calls equals a sequence of atomic put-if-absent operations, one per answered call; only calls without an API key may insert a second row |
| Intake.RealTimeOrder | src/apps/messages_api/services.py:48-87 | a call answered before another began comes first in that sequence |
| Intake.AnswersAreTruthful | src/apps/messages_api/services.py:110-113 | unless the entry of its key is removed, an answered call reports the row stored under its key, and a conflict exactly when the compared payload differs |
| Intake.RetryIsReplayedExactly | src/apps/messages_api/services.py:63-80 | unless the entry of its key is removed, a repeated request is answered with the message it created if and only if it does not name the empty priority |
| Intake.CreationStores | src/apps/messages_api/services.py:63-87 | a call reports a new message only if its own insert broke no constraint and stored its request |
| Intake.OneCreator | src/apps/messages_api/services.py:63-87 | of the calls with one key at most one reports created, unless the entry of that key is removed |
| Intake.AtMostOneRow | src/apps/messages_api/models.py:72-77 | no two rows have the same API key and the same idempotency key, removals included |
| Intake.UniquenessNeedsAnApiKey | src/apps/messages_api/models.py:72-77 | one row in every interleaving if and only if the call has an API key |
| Intake.CollisionIsResolved | src/apps/messages_api/services.py:81-86 | after a lost race the second search finds the winner, so nothing is re-raised unless that row was removed or the insert broke another constraint |
| Intake.MatchIsFiveFields | src/apps/messages_api/services.py:139-149 | a row matches a request exactly when channel, recipient, context, schedule and priority agree, missing values read as the code reads them; the template plays no part |
| Intake.RequestMatchesRowOf | src/apps/messages_api/services.py:63-76 | when a request matches the row another request created, on the fields of the two requests |
| Resolver.CollectAddresses | src/apps/messages_api/validators.py:125-134 | refuses on one blocked or no address, otherwise lists each address once |
| Resolver.FirstSeenMembers | src/apps/messages_api/validators.py:125-131 | the list holds exactly the resolved addresses, each once |
| Resolver.FirstSeenOrder | src/apps/messages_api/validators.py:125-131 | the list is in order of first occurrence |
| Resolver.Slots.GetAddrInfo | src/apps/messages_api/validators.py:137-154 | case by case on timeout, free slots, submission and duration: what the caller gets and what becomes of its slot |
| Resolver.ValidateWebhookUrl | src/apps/messages_api/validators.py:91-134 | case by case on the URL, the reply and the time: refused, vetted with exactly the resolved addresses, vetted with none, or an exception; without a timeout the list is never empty |
| ResolverPool.SlotsAreConservedExactly | src/apps/messages_api/validators.py:137-154 | in every interleaving, timeouts included, free and held slots add up to four if and only if no submission raised after taking its slot and before queuing its lookup |
| ResolverPool.FourLeaks | src/apps/messages_api/validators.py:141-150 | four raising submissions after which no timed lookup ever starts |
| ResolverPool.PoolComesToRest | src/apps/messages_api/validators.py:144-154 | from any state the calls under way can end, and then every slot not leaked is free, every thread idle and no caller waits |
| ResolverPool.WaitsExactly | src/apps/messages_api/validators.py:137-150 | in every interleaving a lookup waits for a thread if and only if threads past their release and not idle outnumber the slots free, leaked or not submitted |
| ResolverPool.CallersCanMakeOneWaitExactly | src/apps/messages_api/validators.py:137-150 | from any state callers alone can bring a lookup to wait if and only if more threads are past their release and not idle than slots have leaked |
| ResolverPool.LookupMayQueue | src/apps/messages_api/validators.py:137-150 | a run in which a lookup with a slot finds no thread |
| ClientAddress.EntryFromTheRightIsCounted | src/apps/core/middleware.py:87-97 | behind n proxies the request counts against the n-th entry from the right, blanks around it and a zone id dropped; garbage there counts against the remote address |
| ClientAddress.RemoteIsCounted | src/apps/core/middleware.py:87-99 | without a long enough header the request counts against the remote address, or its text, or `unknown` |
| ClientAddress.TextInFrontIsIgnoredExactly | src/apps/core/middleware.py:87-97 | for every parser and remote address: text in front of the trusted part never matters if and only if that part has at least `hops` non-blank entries, as soon as one entry reads as an address of another bucket |
| ClientAddress.SharedBuckets | src/apps/core/middleware.py:100-114 | IPv6 addresses share a bucket exactly by their top 64 bits; an IPv4 address shares with its mapped form and nothing else |

## Left out

- Jitter and the exact retry countdown: a retry may come at any later time; only its cap is used.
- Liveness: that workers and passes eventually run is not assumed or proved; deadlines and the drain at one moment are.
- Row order and fairness across passes: the protocol lets a pass take any eligible rows, up to its limit.
- How long a publication may lag behind its stamp: a parameter of the rate by moment.
- Attempt start and end times, HTTP status and SMTP code: stored, never read by the protocol.
- Channels (SMTP, HTTP), rendering, signing, logging and metrics: a channel call is an arbitrary result or exception.
- Rounding: token amounts are exact reals; Lua's `tostring` keeps fewer digits.
- Loading and reloading the bucket script in Redis (`src/apps/ratelimit/bucket.py:55-70`).
- Requests with `priority` or `context` of the wrong type, which the serializer refuses before `create_message`.
- Which addresses count as blocked, and how addresses are parsed and printed: parameters of the model.
- When the thread pool refuses a lookup: it may at any time.
- Template resolution, API keys, authentication, serializers, admin and settings profiles: easier than what is modelled.
- Operator SQL that re-queues finished messages: outside the code, and it undoes finality on purpose.
