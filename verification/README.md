# Dispatch: a verified model of its delivery core

Dispatch takes events from Kafka, turns each into one delivery row per matching subscription, and lets
any number of workers deliver those rows as webhooks under leases. This project models that core in
Dafny and proves what it promises over all runs: with any number of workers, crashes, expired leases,
late writers, replays and deletions.

## How the project is laid out

| file | what it holds |
|---|---|
| `Collections.dfy` | counting facts about sets and sequences |
| `Domain.dfy` | rows, events, attempts, the mutable delivery and its transitions |
| `Projection.dfy` | the loop that projects an event from its deliveries, against lattice maxima |
| `Execution.dfy` | rate check, call, retry decision and its effect on a worker's copy; the one-worker delivery machine |
| `Store.dfy` | the database as a value and every transaction on it as a function |
| `Columns.dfy` | what each transaction writes, column by column |
| `Lease.dfy` | the lease protocol as a step relation, and its inductive invariant |
| `Fencing.dfy`, `Refinement.dfy`, `History.dfy`, `CallBounds.dfy`, `Agreement.dfy`, `Bypass.dfy` | theorems over all runs of the protocol |
| `Overlap.dfy`, `MissedUpdates.dfy` | outcome and replay transactions of one event that overlap in time, and what they can miss |
| `Repository.dfy` | the repository object, method by method, proved to perform those transactions |
| `Handler.dfy`, `Processing.dfy`, `Intake.dfy`, `Polling.dfy` | processing claimed copies, for a batch of messages and for the retry poller |
| `Reachability.dfy`, `Simulation.dfy` | the databases the repository and the handler produce are databases the protocol reaches |
| `Subscriptions.dfy` | wildcard matching and the fan-out map |
| `Consumer.dfy`, `Watermark.dfy` | any number of Kafka consumers on top of the protocol, commit safety, and what a commit means as a watermark |
| `Consuming.dfy` | one consumer's loop as an object |
| `Poller.dfy`, `Scheduling.dfy` | the retry scheduler as a step relation, and its loop as an object that refines it |
| `Limiter.dfy` | the Redis sliding window against a log of admissions |
| `Backoff.dfy` | exponential backoff with cap and jitter, over the reals |

The source's objects are classes with `modifies` clauses, its loops are loops, and each method is tied
to a function on values. The theorems are lemmas about those functions and about runs built from them.

## Assumptions

- One SQL transaction or statement is one atomic step. The database clock is a non-decreasing integer
  of microseconds; a transaction sees one value of it.
- Leases last at least one microsecond (`Store.PostgresInterval` gives that for every positive duration).
- Rows are keyed by (event, subscription). The textual id is as good a key exactly as long as no event
  id in use continues another one past a colon (`Domain.DeliveryIdDetermines`); initialization is
  refused where it would give two rows one id.
- A worker's clock readings, the outcome of the call and the backoff draw are parameters of the step.
  Rows locked by other transactions are an arbitrary set that a statement passes over.
- The clocks of the workers and of Redis agree where the limiter compares them, and worker clocks are
  not behind the database's where `Bypass.BoundedBypass` compares the times of new rows with it.

## Where the code does less than its prose says

- **Frozen destinations.** The behaviour document, in its section on subscription matching, calls an
  event's matching result frozen. Its rows are, the set is not: initializing again adds a row for any
  newly matching subscription (`Store.DestinationSetGrows`); it changes nothing exactly when all named
  rows exist (`Store.ReinitializeIdentity`).
- **Offsets.** Commit safety holds for "committed" as the set of messages handed to the broker
  (`Consumer.CommittedWorkIsSafe`). Read as a per-partition watermark it fails in two ways
  (`Watermark.WatermarkCanSkipWork`, `Watermark.MalformedCanSkipWork`), and holds exactly when no message
  passed over was dropped (`Watermark.WatermarkExact`).
- **Jitter after the cap.** `docs/adr/003-retry-strategy.md:23` caps last, the code caps first; the delay
  respects the maximum exactly when the capped value plus its jitter range fits under it
  (`Backoff.CapHoldsIff`, `Backoff.DefaultCapExceeded`).
- **Limiter members.** Members are a time and a per-process counter, so two workers can collide
  (`Limiter.CollisionExceedsLimit`). The script decides rightly under all limits, and keeps every fixed
  limit, exactly when no two calls share a member (`Limiter.AlwaysRightIff`, `Limiter.AlwaysWithinIff`).
- **Stored event under READ COMMITTED.** Overlapping transactions of sibling rows can leave a finished
  event stored as processing, as delivered although a row failed, or as failed although all were
  delivered (`MissedUpdates`). `Overlap.StatusExact` is the exact condition for the right status,
  `Overlap.AgreementExact` for the whole stored event. The protocol's own theorems take each transaction
  as one step, which is the case without overlap.

## Model

| member | source | states |
|---|---|---|
| `Refinement.RunRefines` | internal/repository/postgres/event.go:197-350 | in every run, the moves on any row form a run of the one-worker delivery machine that ends where the row is; a commit applies to the attempts and generation its worker read |
| `Refinement.StepRefines` | internal/repository/postgres/event.go:298-350 | every protocol step is one move of a row's machine or leaves it alone; claims, lost writes and crashes are stutters |
| `Lease.RunSafe` | internal/repository/postgres/event.go:197-350 | the lease invariant holds in every reachable state: row columns go together, a live claim is current or superseded, live claims on a row never share a deadline |
| `Lease.FenceMeansCurrent` | internal/repository/postgres/event.go:309-324 | a copy that passes the fence is, column for column, the row, and every other live claim on it is superseded, although the fence checks neither attempts nor generation |
| `Lease.WrittenMeans` | internal/repository/postgres/event.go:309-350 | a write is accepted exactly when the fence holds, and then changes one row, appends its attempts and rewrites its event from the listing |
| `Fencing.SupersededForever` | internal/repository/postgres/event.go:309-324 | a superseded claim never commits in any continuation, through persists, replays, deletes and re-creation |
| `Fencing.ReclaimFencesOlderClaims` | internal/repository/postgres/event.go:204-213 | once a row is claimed again, no older live claim on it ever commits, even for the same owner |
| `Fencing.FenceSeparatesReclaims` | internal/repository/postgres/event.go:204-213 | a reclaim after expiry carries a strictly later deadline, so the earlier copy fails the fence |
| `Fencing.NoStuckWork` | internal/repository/postgres/event.go:199-214 | processing holds iff owner and deadline are set, waiting rows have a next time, and every open row is claimable from a known time on |
| `Fencing.LeaseLasts` | internal/repository/postgres/event.go:209-213 | in every run, from a claim until the row is claimed again or that claim is persisted, the row carries exactly the claim's owner, its time and its time plus the lease, is otherwise as it was, and is claimable at t iff the lease has run out by t |
| `Fencing.StepKeepsWork` | internal/repository/postgres/retention.go:41-61 | no step removes a row except the purge of an ended event, whose rows are terminal |
| `Fencing.DeliveredForever` | internal/domain/delivery.go:83-127 | a delivered row stays as it is until its event is purged |
| `History.AttemptHistoryExact` | internal/repository/postgres/event.go:326-340 | in every reachable state the recorded attempt numbers of each generation are base+1..base+n, n matching the row's count in the current one |
| `CallBounds.EveryCallBounded` | internal/kafka/delivery.go:78-170 | for every claim ever made, the calls in its incarnation and generation of the row, purged or not, are the committed ones, within the limit, plus calls under claims that never committed |
| `History.CallsBounded` | internal/kafka/delivery.go:78-170 | for the present incarnation the committed calls are exactly the recorded attempts |
| `History.CommitNumbers` | internal/kafka/delivery.go:104-109 | an accepted outcome records the next number of the row's generation when a call was made, nothing when it was throttled |
| `Agreement.StoredEventAgrees` | internal/repository/postgres/event.go:464-485 | when all rows of an event have ended, the stored event is their projection: delivered iff all are, else failed |
| `Agreement.RewriteMirrors` | internal/repository/postgres/event.go:464-485 | right after every accepted outcome or replay of every run the stored event mirrors its rows, open or ended |
| `Agreement.ReprojectMirrors` | internal/repository/postgres/event.go:464-485 | rewriting an event from one listing of its rows makes it agree with every listing of them |
| `Overlap.StatusExact` | internal/repository/postgres/event.go:309-349 | with overlapping transactions: once all rows have ended, the event is stored as delivered if all were and as failed otherwise, iff no sibling the last transaction had listed as open was committed before it, no sibling inserted since its listing was the first to fail, and the failures it listed were not all replayed and delivered since |
| `Overlap.AgreementExact` | internal/repository/postgres/event.go:309-349 | the whole stored event is the projection of the rows if nothing was missed, and, when no insert or replay fell between listing and commit, only if nothing was missed |
| `Overlap.EndedExact` | internal/repository/postgres/event.go:309-349 | it is stored as ended at all iff no sibling listed as open was committed in between |
| `Overlap.SerialMissesNothing` | internal/repository/postgres/event.go:309-349 | without overlap nothing is missed |
| `MissedUpdates.SiblingsMissEachOther` | internal/repository/postgres/event.go:309-349 | two overlapping outcomes leave all rows delivered and the event processing |
| `MissedUpdates.NewFailureMissed` | internal/repository/postgres/event.go:464-485 | a row inserted and failed behind a transaction's listing leaves the event delivered |
| `MissedUpdates.HealingMissed` | internal/repository/postgres/event.go:464-485 | a row replayed and delivered behind a transaction's listing leaves the event failed |
| `Overlap.StaysAsStored` | internal/repository/postgres/retention.go:46-53 | from then on only a new row of the event can change what is stored |
| `Bypass.BoundedBypass` | internal/repository/postgres/event.go:199-208 | in any stretch of a run without back-dating or lease expiry ahead of it, an overdue row with r rows ahead is served within floor(r/n)+1 polls of n |
| `Bypass.QueueAccounted` | internal/repository/postgres/event.go:199-208 | in any stretch at all, n per passing poll and the rows still ahead come out of the rows ahead at the start and those that got ahead in between |
| `Bypass.PollShortensQueue` | internal/repository/postgres/event.go:199-208 | a poll that passes a due row takes its whole limit from the rows ahead of it |
| `Bypass.SingleKeepsOrder` | internal/kafka/handler.go:390-396 | no other step puts a row ahead of one already due |
| `Bypass.WaitingServedByClaim` | internal/repository/postgres/event.go:209-215 | a pending or waiting row changes only by being claimed |
| `Store.InsertRowsMeans` | internal/repository/postgres/event.go:103-130 | exactly the wanted rows are added, each, column by column, for the first listed subscription of its id; no existing row changes |
| `Store.InitializeIdempotent` | internal/repository/postgres/event.go:60-140 | repeating an initialization at any later time equals doing it once |
| `Store.ReinitializeIdentity` | internal/repository/postgres/event.go:92-130 | initialization changes nothing iff the event and all named rows exist |
| `Store.DestinationSetGrows` | internal/repository/postgres/event.go:103-130 | a newly matching subscription gets a row on re-initialization, other rows untouched |
| `Store.PostgresInterval` | internal/repository/postgres/event.go:487-493 | a lease is the duration truncated to whole microseconds, but one microsecond for any positive duration below that |
| `Repository.TakeLightest` | internal/repository/postgres/event.go:199-208 | ORDER BY with LIMIT: distinct, in order, a prefix no other candidate sorts before |
| `Repository.EventRepository.InitializeEventDeliveries` | internal/repository/postgres/event.go:60-140 | the new event and every new row column by column (target, URL, secret, rate, limit, clean state), everything else as it was; refused exactly when a new row would take another row's textual id; errors change nothing |
| `Repository.EventRepository.ClaimDeliveries` | internal/repository/postgres/event.go:197-242 | takes claimable unlocked rows in the order of next time, else deadline, else creation, passing over none that sorts earlier; each gets processing, the owner, now plus the lease and now, and no other column or row changes; the copies and reclaimed flags are those rows' |
| `Repository.EventRepository.ClaimEventDeliveries` | internal/repository/postgres/event.go:244-296 | the same for given events, by event first; nothing for no events or no limit |
| `Repository.EventRepository.PersistClaimedDeliveryOutcome` | internal/repository/postgres/event.go:298-350 | claim lost exactly unless the row is processing under the copy's owner and deadline; else the row takes the copy's outcome and loses its lease, the attempts are appended under the database's clock, the event says what its rows say, and nothing else changes |
| `Repository.EventRepository.ReplayFailedDelivery` | internal/repository/postgres/event.go:146-195 | a failed row starts over as retrying in a new generation without attempts, due at the given time, and its event says what its rows say; not found and not eligible are told apart and change nothing |
| `Repository.EventRepository.UpdateEventProjection` | internal/repository/postgres/event.go:464-485 | the event takes top status, attempts, next time, delivery time and last error of its rows, open or ended, and the time; its other columns and all other events stay; or it is reported missing |
| `Repository.EventRepository.ListDeliveries` | internal/repository/postgres/event.go:352-378 | every row of the event exactly once, by creation time |
| `Repository.EventRepository.RedactAttemptBodies` | internal/repository/postgres/retention.go:19-39 | clears the bodies, and nothing else, of the oldest unlocked attempts made before the cut-off, up to the limit, leaving none if the limit is not reached |
| `Repository.EventRepository.DeleteTerminalEvents` | internal/repository/postgres/retention.go:41-67 | deletes, with their rows and attempts and nothing else, the least recently updated unlocked ended events not touched since the cut-off that have no open row, up to the limit |
| `Simulation.ClaimedBatchReal` | internal/kafka/handler.go:264-277 | a batch claim and the processing of its copies, stopped anywhere, leads from one database of the protocol to another |
| `Simulation.ProcessedReachable` | internal/kafka/handler.go:304-327 | executing and persisting held copies in order is a run of the protocol |
| `Domain.Delivery.ScheduleReplay` | internal/domain/delivery.go:113-127 | accepted iff failed; then a new generation with no attempts, otherwise unchanged |
| `Domain.DeliveryIdDetermines` | internal/domain/delivery.go:72-74 | for a set of event ids, the textual id determines the pair exactly when none of them continues another past a colon |
| `Domain.ColonFreeApart` | internal/domain/delivery.go:72-74 | so it does when no event id contains a colon, and for any single event |
| `Projection.ProjectEventFromDeliveries` | internal/domain/delivery.go:129-189 | the loop computes the projection of the non-nil entries |
| `Projection.ProjectMeans` | internal/domain/delivery.go:129-189 | top status, maximum attempts, earliest next time, latest delivery only when all are delivered |
| `Projection.ProjectIgnoresOrder` | internal/domain/delivery.go:129-189 | reordering the rows changes nothing but the last error |
| `Projection.LastErrorMeans` | internal/domain/delivery.go:149-151 | the last error is that of the last row that has one |
| `Execution.ApplyDeliveryResult` | internal/kafka/handler.go:378-404 | the copy after each of the four outcomes |
| `Execution.DecisionMeans` | internal/kafka/delivery.go:78-186 | delivered iff a 2xx response, throttled iff the limiter refused, retrying iff no response or one of 408, 429, 500, 502, 503, 504 with attempts left, failed otherwise; with the attempt count, next time, error and times each writes |
| `Execution.RecordMeans` | internal/kafka/delivery.go:104-120 | one attempt per call, numbered next, with the response's code, body and error; none for a refusal |
| `Execution.ExecutedSettles` | internal/kafka/delivery.go:78-186 | executing a claim settles the one-worker machine and never leaves the row processing |
| `Handler.ProcessDeliveries` | internal/kafka/handler.go:299-329 | the databases after each copy, why and where it stopped, which copies are untouched, and three lists, by the status each delivery ended in, that together hold each handled one once |
| `Handler.BatchPrefix` | internal/kafka/handler.go:299-329 | after a stop at k exactly the non-nil copies before k have their outcome stored, every other row is as it was |
| `Handler.CurrentBatchGoesOn` | internal/kafka/handler.go:304-327 | a copy that was current when the batch began still passes the fence when its turn comes |
| `Handler.SortedPartition` | internal/kafka/handler.go:315-322 | every handled delivery is in exactly one result list |
| `Intake.ProcessBatch` | internal/kafka/handler.go:238-291 | without failure: the batch initialized in order, all messages durable for every loaded subscription, every claimable row claimed, executed and written, messages sorted by their rows; with event ids apart only an outside failure makes it fail; always: nothing removed, database stays one of the protocol |
| `Intake.MessageStored` | internal/kafka/handler.go:343-356 | what initializing a message adds: rows and event with the message's type, source, data, attempts and limit, and the subscription's URL, secret and rate; an event nobody wants is delivered at once |
| `Intake.InitializeAll` | internal/kafka/handler.go:259-266 | initializes the longest prefix that meets no failure or id clash; the total counted is at least the number of rows of its events, repeated ids included |
| `Processing.FreshGoesOn` | internal/kafka/handler.go:304-327 | nothing but an outside failure stops a batch of freshly claimed copies |
| `Processing.ProcessClaimed` | internal/kafka/handler.go:268-297 | the copies of a claim are executed and written in order; on a database of the protocol it stops only at an outcome that cannot be persisted |
| `Polling.PollOnce` | internal/retry/poller.go:195-259 | the poller's claim takes the first due rows and processes them, and keeps the database one of the protocol |
| `Intake.ClaimCovers` | internal/kafka/handler.go:268-273 | a claim with that limit takes every claimable unlocked row of the events |
| `Intake.BatchLeavesNothing` | internal/kafka/handler.go:268-282 | after an uninterrupted batch each such row shows the outcome of one execution and holds no lease |
| `Intake.SubscriptionsForMessages` | internal/kafka/handler.go:331-341 | what is loaded for a message is exactly the active subscriptions that want its type |
| `Intake.CategorizeMessages` | internal/kafka/handler.go:358-376 | each message goes to the list of its rows' state: all delivered, all ended, or in progress |
| `Intake.CategoriesPartition` | internal/kafka/handler.go:358-376 | together the three lists hold, for every message of the batch, the last one with its id, once |
| `Subscriptions.MatchWildcardMeans` | internal/domain/subscription.go:48-59 | a filter matches iff it is `*`, equal, or a prefix followed by a star |
| `Subscriptions.MatchesEventType` | internal/domain/subscription.go:36-46 | true iff some filter covers the type |
| `Subscriptions.SubscriptionRepository.GetByEventTypes` | internal/repository/postgres/subscription.go:72-126 | each asked type maps to the active subscriptions that want it, in table order, once per time asked |
| `Consumer.CommittedWorkIsSafe` | internal/kafka/consumer.go:224-265 | over every history with crashes and failed batches, a committed message has its event and a row for each subscription active and matching when loaded, each terminal or recoverable, unless retention has removed the event since the message was initialized |
| `Consumer.StepKeeps` | internal/repository/postgres/retention.go:41-61 | durable work stays durable through every protocol step until retention removes the event |
| `Watermark.WatermarkExact` | internal/kafka/consumer.go:138-265 | over every history, all fetched messages at or below a committed offset of their partition are kept or still held if and only if none of them lost every worker that fetched it, by a failed batch or a death, before its initialization |
| `Watermark.SafeIffNotDropped` | internal/kafka/consumer.go:156-265 | the same for each single message, committed past or not |
| `Watermark.DroppedLeavesNoTrace` | internal/kafka/consumer.go:233-244 | an event all of whose messages were dropped has never been in the database |
| `Watermark.WatermarkCanSkipWork` | internal/kafka/consumer.go:233-244 | a failed batch: a later offset is committed while an earlier message left no trace |
| `Watermark.MalformedCanSkipWork` | internal/kafka/consumer.go:194-207 | no failed batch: a malformed message commits its offset while earlier messages of the collection die with the worker |
| `Consuming.KafkaConsumer.CollectBatch` | internal/kafka/consumer.go:156-222 | the batch is the parsed messages in order, the malformed ones are committed on the spot |
| `Consuming.ParsedPartition` | internal/kafka/consumer.go:181-219 | every fetched message is in exactly one of the two |
| `Consuming.KafkaConsumer.ProcessBatchAndCommit` | internal/kafka/consumer.go:224-265 | a batch is committed iff processing reported no failure, and then all of it is stored |
| `Consuming.KafkaConsumer.ConsumeLoop` | internal/kafka/consumer.go:135-153 | over any rounds, committed are exactly the malformed messages and the batches without failure, with event ids apart a batch fails only if something outside does, and everything committed is stored |
| `Poller.NewPollerMeans` | internal/retry/poller.go:84-113 | the configuration as given, one slot and a hundred rows for zero values, and one place in the channel per slot |
| `Poller.SlotsConserved` | internal/retry/poller.go:131-240 | in every state running batches plus buffered completions equal activeBatches, at most the slots, and a finishing batch can always send |
| `Poller.CapacityExact` | internal/retry/poller.go:109-109 | a batch can get stuck at its send for good iff the channel has fewer places than there are slots |
| `Poller.StuckForever` | internal/retry/poller.go:184-193 | once stuck, the batch never ends and no call of Stop returns |
| `Poller.StopWaitsForAll` | internal/retry/poller.go:184-193 | Stop returns only when every batch started has ended, and no claim follows, also when it ran before Start |
| `Poller.ClaimHasSlot` | internal/retry/poller.go:134-146 | every claim is made while draining and with a free slot |
| `Poller.DrainDiscipline` | internal/retry/poller.go:146-180 | between a failed, empty or partial claim and the next claim there is a tick |
| `Poller.ClaimsAfterStop` | internal/retry/poller.go:136-146 | after the stop signal at most the one claim already past its check is made |
| `Poller.TickClaims` | internal/retry/poller.go:175-176 | after a tick with a free slot the coordinator claims within three steps of its own, unless a stop comes first, whatever the others do |
| `Poller.FullClaimAgain` | internal/retry/poller.go:158-162 | after a full claim with a slot still free it claims again without a tick |
| `Poller.FreedSlotClaims` | internal/retry/poller.go:177-178 | a slot freed while there is work to drain is used without a tick |
| `Poller.StartClaims` | internal/retry/poller.go:131-146 | the first claim comes with the start |
| `Poller.ShutdownProgress` | internal/retry/poller.go:168-193 | after the stop signal some goroutine can move until everything has ended |
| `Poller.ShutdownBounded` | internal/retry/poller.go:168-193 | and the steps left are bounded by the work left plus what ticks and new callers add |
| `Scheduling.Scheduler.Start` | internal/retry/poller.go:117-181 | for every schedule of the other goroutines the nested loop makes a run of the step relation, ends where its turn-by-turn description does, and claims in exactly the turns that find work to drain, a free slot and no stop |
| `Scheduling.TickThenWork` | internal/retry/poller.go:175-176 | the turn after a tick is such a turn whenever a slot is free and no stop has come |
| `Scheduling.FullThenWork` | internal/retry/poller.go:158-162 | so is the turn after a full claim that leaves a slot free |
| `Limiter.SortedSet.RunScript` | internal/resilience/redis_ratelimiter.go:47-65 | the script's steps on the set in place are the script function |
| `Limiter.RedisRateLimiter.Allow` | internal/resilience/redis_ratelimiter.go:67-87 | default limit, fresh member per call, the script's decision, closed when Redis is unreachable |
| `Limiter.WindowRefinesLog` | internal/resilience/redis_ratelimiter.go:47-65 | for non-decreasing times and distinct members the script admits exactly what a plain log of admissions admits |
| `Limiter.StoredIsWindow` | internal/resilience/redis_ratelimiter.go:47-65 | the stored set is the members admitted in (now - W, now], each under its own time |
| `Limiter.ExpiryChangesNothing` | internal/resilience/redis_ratelimiter.go:54-64 | key expiry changes no decision |
| `Limiter.EveryWindowWithinLimit` | internal/resilience/redis_ratelimiter.go:47-65 | with a fixed limit no window of length W, wherever placed, holds more admissions of the log than the limit |
| `Limiter.ScriptWithinLimit` | internal/resilience/redis_ratelimiter.go:47-65 | the same for the script itself |
| `Limiter.AlwaysRightIff` | internal/resilience/redis_ratelimiter.go:67-87 | for calls in order, the script decides as the log does after every prefix, under all limits, on every next call, iff no two calls share a member or the window is below a millisecond |
| `Limiter.AlwaysWithinIff` | internal/resilience/redis_ratelimiter.go:67-87 | under the same condition, and only then, every one limit is kept by every window after any of the calls and any further ones with new members |
| `Limiter.ScriptGoesByMembers` | internal/resilience/redis_ratelimiter.go:47-65 | colliding or not, the script keeps the log that counts members in place of admissions |
| `Limiter.CollisionExceedsLimit` | internal/resilience/redis_ratelimiter.go:75-75 | two workers with equal counters get three admissions under a limit of two |
| `Backoff.DelayWithinJitter` | internal/retry/policy.go:46-60 | every delay lies within (1 ± J) times the capped geometric term |
| `Backoff.StrictGrowth` | internal/retry/policy.go:46-60 | below the cap each attempt waits longer for all draws iff M(1 - J) >= 1 + J |
| `Backoff.TotalBounded` | internal/retry/policy.go:46-60 | n delays sum to at most (1 + J) I (M^n - 1) / (M - 1) |
| `Backoff.CapHoldsIff` | internal/retry/policy.go:49-57 | the maximum is respected for all draws iff the capped value plus its jitter range stays within it |
| `Backoff.DefaultDelays` | internal/retry/policy.go:34-60 | the default policy waits about 1, 2, 4, 8 and 16 seconds, ten percent either way |
| `Backoff.DefaultCapExceeded` | internal/retry/policy.go:34-60 | the default policy exceeds its maximum at attempt 13 |

## Left out

- HTTP routing, JSON, health checks, logging, metrics and wiring: no deep state.
- The outbound call, HMAC signing and response reading: the call's result is a parameter of a step.
- The local token bucket: its arithmetic is in a library that is not part of the repository.
- Kafka rebalancing, connection pools and row-lock internals: steps are atomic and skipped rows arbitrary.
- Trace ids, durations and scheduling-lag figures: carried along, never decided on.
- Agreement.StoredEventAgrees: takes each transaction as one step; Overlap.StatusExact and Overlap.AgreementExact say exactly when overlap breaks it.
- Overlap.AgreementExact: with an insert or a replay between listing and commit a stale projection may agree by coincidence in attempts and times, so the exact condition is given for the status only (Overlap.StatusExact).
- Poller.SlotsConserved: goroutines and channels are steps on values, one communication each; a batch's own work is one step and is assumed to end. The coordinator's loop is also modelled as a loop, with the other goroutines' moves given by a schedule.
- Repository.EventRepository.InitializeEventDeliveries: all rows of one call carry one clock reading, where the source reads the clock for each row.
- Repository.EventRepository.ListDeliveries: rows created at the same instant may come in any order, where the source breaks the tie by textual id in the database's collation.
- Repository.EventRepository.ClaimEventDeliveries: the order of event ids is the database's collation and is a parameter.
- Repository.EventRepository.DeleteTerminalEvents: a negative limit, an error in the database, is not a value of the parameter.
- Polling.PollOnce: the batch is processed at the instant of its claim, with no other worker's step in between; the protocol's theorems cover the others.
- Consuming.KafkaConsumer.ConsumeLoop: the subscription table does not change over the rounds; in Consumer it may change at any time.
- Intake.ProcessBatch: the database clock does not advance inside one call; other workers' steps in between are covered by the protocol's own theorems and by Consumer.CommittedWorkIsSafe.
- Backoff.DelayWithinJitter: real arithmetic; floating-point rounding and truncation to whole nanoseconds are not modelled.
- The retention cleaner's ticker and the backlog statistics: simpler copies of what the poller does, or read-only queries.
- Subscription creation, deletion and secret rotation: single-row updates; Consumer lets the table change arbitrarily.
