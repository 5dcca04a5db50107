# QueueForge: a verified model of the delivery pipeline

QueueForge takes AI results in, stores one delivery per matching destination, and pushes each delivery through a queue
until its POST succeeds or it is dead-lettered. The delivery table, three job queues, a lease and a dedup cache have to
stay in agreement through retries, crashes and repair sweeps. This project models that logic in Dafny and proves what
it keeps and, where the code falls short of its promise, exactly when.

`dafny verify dfyconfig.toml` checks the whole project.

## How it is laid out

- **Delivery protocol.** `RetryStrategy` (backoff arithmetic), `DeliveryEntity` and `Lifecycle` (the state machine),
  `DeliveryStore` (table and queue), `ProcessDelivery`, `RecoverStaleJobs`, `DelayedQueueProcessor`, `SyncState`,
  `RebuildQueue`, `HandleFailure`, `ScheduleRetry` and `OneShotUseCase` (the services, as classes proved against
  functions on values), `SyncCorrectness`, `SavedRows`, `DeliveryProtocol` (whole runs with crashes and storage errors)
  and `Convergence` (repair).
- **Leader election.** `LeaderElection` interleaves single Redis commands of any number of nodes under an explicit
  clock; `LeaseRetention` adds timeliness; `LeaseRaces` holds the runs that break each assumption;
  `LeaderElectionService` is one node's code as written, tied to the interleaving model.
- **Jobs between queues.** `IsoDate` (calendar and Date Time String Format of section 21.4.1 of ECMA-262),
  `JobSerializer`, `QueueManager`.
- **Ingestion.** `Validation`, `Ingestion`, `IngestionSafety`.
- **Smaller parts.** `Worker`, `FailureRanking`, `Paging`.

Class methods follow the program's loops and branches, and each states its whole new state through a function on
values; the lemmas are about those functions. Clock readings, random draws, fresh identifiers and the outcome of every
call that can fail are parameters. Times are milliseconds as integers, delays are reals with floors.

## Results worth knowing

- **Repair converges** (`CrashRepairConverges`, `AnyRunThenRepair`): after any run with crashes and storage errors, one
  clean pass of the three sweeps, each past the waits before it, leaves every row PENDING with a job or finished with
  none, loses no row, leaves finished rows untouched and lowers no count.
- **At-most-once up to crashes** (`RunBalance`): successful POSTs equal the successes lost between POST and save, plus
  one if the run completed the delivery. This is an equation for every run, not only a bound.
- **Network failures strand rows** (`StrandsRowExactly`): a POST without a status in the HTTP range, or a job that
  names its delivery by the result, makes attempt recording throw, so the row stays PROCESSING until a sweep. Recording also stops `handleFailure` on every call.
- **Retries of one job are blocked by the schema** (`UniqueTraceExactly`, `StoredRowBlocksEverySave`): the use case saves
  a new row per attempt, but the schema allows one per result and destination, so every later save throws, even after a
  successful POST. The documented trace holds exactly when the first attempt is the last one needed.
- **The limit of five is overridden** (`SweepOverridesTheLimit`), and finished deliveries can be reopened
  (`HandleFailure.ReopensFinished`, `ScheduleRetry.ReopensFinished`), exactly under the stated conditions.
- **One leader** (`AtMostOneLeader`, `LeaderKeepsLease`): safety needs each PEXPIRE and DEL to find the key still in the
  caller's name, and no participate of a node to overlap its resign; dropping either gives two leaders. Leaders keep the
  lease exactly while twice the call time plus the timer's lateness stays under 20 seconds and no node asks twice at
  once before it leads (`LeaseKeptExactly`, `OverlapIsHarmful`). A node between its DEL and the end of its resign is the one exception to flag and key
  agreeing (`FlagMatchesKey`, `ResignLeavesTwoFlags`).
- **Moves lose jobs** (`MoveToDelayedConserves`, `MoveToDlqConserves`): a move removes the job before it adds the copy.
  Jobs are conserved exactly when every instant-shaped string is canonical and, for the delayed queue, the delivery id
  is not instant-shaped.
- **Colons collide in the sync key** (`ColonsCollide`), and `SyncServesRow` says exactly which rows a sync serves.
- **Counters** (`CountersBalance`): a logger that throws on an answer counts the job twice; one that throws before the
  job runs leaves it active for ever. Otherwise the balance holds, and the clamp at zero never acts.

## Model

| member | source | states |
|---|---|---|
| RetryStrategies.Create | src/domain/value-objects/retry-strategy.vo.ts:55-80 | the constructor accepts a configuration exactly when it is valid, and keeps it |
| RetryStrategies.DelayBounds | src/domain/value-objects/retry-strategy.vo.ts:112-133 | every exponential delay lies between the saturated unjittered delay and the maximum, and under twice its base |
| RetryStrategies.DelayOrdered | src/domain/value-objects/retry-strategy.vo.ts:112-133 | a later delay never undercuts an earlier one, for any two draws |
| RetryStrategies.FirstDelaysBounded | src/domain/value-objects/retry-strategy.vo.ts:112-133 | the first m delays sum to at most m times the maximum and to initial·(2^(m+1)-2) |
| RetryStrategies.BackoffIsNextDelay | src/domain/value-objects/retry-strategy.vo.ts:135-144 | calculateBackoff(n) is calculateDelay(n+1) from n = 2 on, and calculateDelay(1) below |
| RetryStrategies.LinearOrderedExactly | src/domain/value-objects/retry-strategy.vo.ts:112-133 | a LINEAR strategy is ordered at attempt n for all draws if and only if its longest delay does not pass the next unjittered one or that one is saturated |
| RetryStrategies.ExponentialInNumbers | src/domain/value-objects/retry-strategy.vo.ts:112-133 | an EXPONENTIAL delay is the jittered initial·2^(n-1), floored and capped, for every attempt number and draw |
| RetryStrategies.LinearInNumbers | src/domain/value-objects/retry-strategy.vo.ts:112-133 | a LINEAR delay is the jittered initial·n, floored and capped |
| RetryStrategies.FixedInNumbers | src/domain/value-objects/retry-strategy.vo.ts:112-133 | FIXED and unrecognised types give the initial delay, floored and capped, and take no jitter |
| DeliveryEntity.Delivery.MarkAsProcessing | src/domain/entities/delivery.entity.ts:110-117 | allowed from PENDING and SCHEDULED_RETRY only; otherwise nothing changes |
| DeliveryEntity.Delivery.MarkAsCompleted | src/domain/entities/delivery.entity.ts:127-136 | allowed from PROCESSING only; clears the retry time |
| DeliveryEntity.Delivery.MarkAsFailed | src/domain/entities/delivery.entity.ts:145-166 | counts the failure, then dead-letters or schedules by retryability, limit and strategy |
| DeliveryEntity.Delivery.MarkFailed | src/domain/entities/delivery.entity.ts:173-190 | the unguarded variant: lifts a count of 0 to 1 and sets no retry time |
| DeliveryEntity.Delivery.ScheduleRetryIn | src/domain/entities/delivery.entity.ts:195-199 | SCHEDULED_RETRY at now plus the delay, never in the past |
| DeliveryEntity.Delivery.MoveToDeadLetterQueue | src/domain/entities/delivery.entity.ts:212-219 | FAILED_DLQ without a retry time, keeping an earlier error |
| Lifecycle.LifecycleTerminates | src/domain/entities/delivery.entity.ts:110-166 | a fresh delivery accepts at most 2m guarded calls under limit m |
| Lifecycle.LifecycleBoundReached | src/domain/entities/delivery.entity.ts:110-166 | the bound 2m is reached |
| Lifecycle.FinishedAbsorbs | src/domain/entities/delivery.entity.ts:110-166 | every guarded call on a finished delivery throws |
| Lifecycle.LifecycleWaitsBounded | src/domain/entities/delivery.entity.ts:145-207 | the scheduled waits sum to at most (m-1)·max and initial·(2^m-2) |
| Lifecycle.StartInNumbers | src/domain/entities/delivery.entity.ts:110-117 | which states a delivery starts from, and every field it leaves |
| Lifecycle.CompletionInNumbers | src/domain/entities/delivery.entity.ts:127-136 | only PROCESSING completes, and what completion sets |
| Lifecycle.FailureInNumbers | src/domain/entities/delivery.entity.ts:145-207 | PERMANENT and UNKNOWN errors and the last allowed count dead-letter; every other failure is due after the strategy's delay or 1000·2^count ms |
| Lifecycle.MarkFailedInNumbers | src/domain/entities/delivery.entity.ts:173-190 | which failures markFailed schedules, by flag, strategy, count and limit |
| DeliveryStore.Select | src/infrastructure/database/PrismaDeliveryLogRepository.ts:107-126 | a finder returns the rows that match its condition and no other |
| DeliveryStore.SelectInOrder | src/infrastructure/database/PrismaDeliveryLogRepository.ts:107-126 | a finder keeps the table's order and multiplicity |
| DeliveryStore.SelectUnique | src/infrastructure/database/PrismaDeliveryLogRepository.ts:107-126 | no row and no pair is found twice |
| DeliveryStore.UpsertKeepsUnique | src/infrastructure/database/PrismaDeliveryLogRepository.ts:38-59 | an upsert stores its row, touches no other and keeps both constraints; it is refused exactly for a new id with a stored pair |
| DeliveryStore.JobQueue.EnqueueDelivery | src/infrastructure/queue/bullmq.service.ts:26-55 | adds one job with both ids and the attempt, delayed when asked |
| DeliveryStore.JoinedInjective | src/infrastructure/queue/bullmq.service.ts:32-32 | a colon-joined pair is read back unambiguously when the first id holds no colon |
| ProcessDelivery.ProcessDeliveryService.LoadDelivery | src/application/services/process-delivery.service.ts:58-67 | the row with the id, else the first row of the result with that id |
| ProcessDelivery.LoadedFirst | src/application/services/process-delivery.service.ts:58-67 | the lookup finds the first row with the id, and falls back to the result only when no row has it |
| ProcessDelivery.ProcessDeliveryService.ProcessDelivery | src/application/services/process-delivery.service.ts:83-213 | the row, the POSTs and the answer of one attempt, for every crash point and error, by delivery id or by result id |
| ProcessDelivery.AnswerDecides | src/application/services/process-delivery.service.ts:126-191 | in numbers: 200 to 299 completes; 500 and up, 0, 429 and 408 are retried after 1000·2^retryCount ms below five retries; everything else is dead-lettered; one POST, successful exactly in the first case |
| ProcessDelivery.StrandsRowExactly | src/application/services/process-delivery.service.ts:147-162 | an attempt leaves its row PROCESSING exactly when the worker died or recording threw, as for every status outside 100 to 599 and every job that names the delivery by its result |
| RecoverStaleJobs.RecoverStaleJobsService.RecoverStale | src/application/services/recover-stale-jobs.service.ts:41-129 | every stale row is requeued or dead-lettered as the sweep says, no other row changes, and the counters follow |
| RecoverStaleJobs.RecoveredInNumbers | src/application/services/recover-stale-jobs.service.ts:71-108 | a stale row counted at most 5 waits 1000·2^max(0, count-1) ms, any other is dead-lettered |
| RecoverStaleJobs.SweepAddsTheirJobs | src/application/services/recover-stale-jobs.service.ts:67-108 | every requeued row gets exactly one job, of its own result and destination, due with the row; no job is touched and recovered counts them |
| RecoverStaleJobs.SweepOverridesTheLimit | src/application/services/recover-stale-jobs.service.ts:79-79 | markFailed gives up from count 5, the sweep only above 5 |
| DelayedQueueProcessors.DelayedQueueProcessor.ProcessScheduledRetries | src/daemon/recovery/delayed-queue-processor.ts:75-152 | promotes overdue rows one by one up to the first error, counts all it found, and is a no-op while running or when the query throws |
| DelayedQueueProcessors.CleanPass | src/daemon/recovery/delayed-queue-processor.ts:75-152 | without errors, every overdue row becomes PENDING with one job and nothing else changes |
| DelayedQueueProcessors.PromotedInNumbers | src/daemon/recovery/delayed-queue-processor.ts:75-152 | after a clean pass a row is PENDING with a due job of its own pair exactly where it was overdue, and the same row everywhere else |
| SyncState.SyncStateService.Sync | src/application/services/sync-state.service.ts:42-134 | the two passes over table and queue, with discrepancies = synced + errors + failed removals |
| SyncCorrectness.SyncServesRow | src/application/services/sync-state.service.ts:42-134 | exactly which PENDING rows have a job of their own after a clean run |
| SyncCorrectness.EveryPendingRowServed | src/application/services/sync-state.service.ts:42-134 | with colon-free ids every PENDING row ends with a job |
| SyncCorrectness.EveryJobHasLiveRow | src/application/services/sync-state.service.ts:101-124 | every live job with both ids has a row that is not finished |
| SyncCorrectness.SyncIsIdempotent | src/application/services/sync-state.service.ts:42-134 | a second run reports zero and changes nothing, even with storage errors |
| SyncCorrectness.SyncAccounts | src/application/services/sync-state.service.ts:42-134 | every discrepancy of any run is synced, an error or a failed removal |
| SyncCorrectness.SyncAddsDueJob | src/application/services/sync-state.service.ts:64-99 | a PENDING row whose key is missing gets a job of its own pair, with the next attempt and without delay |
| SyncCorrectness.SyncCounts | src/application/services/sync-state.service.ts:64-124 | a clean run reports the PENDING rows without a job plus the jobs without a live row, all synced |
| SyncCorrectness.ColonsCollide | src/application/services/sync-state.service.ts:42-134 | ids with colons can leave a PENDING row without a job in a run without errors |
| DeliveryProtocol.RunContinues | src/application/services/process-delivery.service.ts:83-213 | over any run rows keep their identity, finished rows are frozen and due retry times stay set |
| DeliveryProtocol.RunBalance | src/application/services/process-delivery.service.ts:83-213 | successful POSTs = lost successes + 1 if the run completed the delivery |
| DeliveryProtocol.DuplicateJobsDeliverOnce | src/application/services/process-delivery.service.ts:83-213 | whatever jobs the queue repeats or invents, at most one success beyond those lost to crashes |
| DeliveryProtocol.FinishedNeverPosted | src/application/services/process-delivery.service.ts:83-213 | a finished delivery is never POSTed again |
| Convergence.CleanSteps | src/application/services/recover-stale-jobs.service.ts:41-129 | the sweeps of the convergence theorem are the protocol's own steps without errors |
| Convergence.RowSettles | src/application/services/recover-stale-jobs.service.ts:41-129 | each waiting row ends PENDING or finished after the first two sweeps |
| Convergence.CrashRepairConverges | src/application/services/sync-state.service.ts:42-134 | the three sweeps bring any table and queue back into agreement |
| Convergence.RunKeepsShape | src/infrastructure/queue/bullmq.service.ts:26-55 | every run from stores of the services' shape ends in such stores |
| Convergence.AnyRunThenRepair | src/daemon/recovery/delayed-queue-processor.ts:75-152 | the convergence theorem, clause by clause, after any run with crashes and storage errors from such stores |
| RebuildQueue.RebuildQueueService.Rebuild | src/application/services/rebuild-queue.service.ts:24-110 | the queue after the clean calls and the refill, and the counts returned, with a failure at any clean call, table query or enqueue |
| RebuildQueue.CleanRebuild | src/application/services/rebuild-queue.service.ts:24-110 | without errors: what the clean calls left, then one job per waiting row |
| RebuildQueue.RebuildIsExact | src/application/services/rebuild-queue.service.ts:24-110 | the live queue is exactly those jobs if and only if the clean calls reach every live job |
| RebuildQueue.RebuiltJobIsTimely | src/application/services/rebuild-queue.service.ts:64-97 | a PENDING row's job is immediate, a retry's is never due before its retry time, or after 5 seconds without one; each has the row's pair and next attempt |
| RebuildQueue.RebuildIsIdempotent | src/application/services/rebuild-queue.service.ts:24-110 | exactly when a second rebuild leaves the same live jobs |
| HandleFailure.HandleFailureService.Handle | src/application/services/handle-failure.service.ts:50-153 | the saved row and the error for every report; with an attempt repository the two-argument call throws, so nothing is ever saved |
| HandleFailure.BranchFollowsMarkFailed | src/application/services/handle-failure.service.ts:85-152 | a retry is scheduled exactly when markFailed chose one: a retryable failure counted at most four times |
| HandleFailure.HandledInNumbers | src/application/services/handle-failure.service.ts:60-152 | in numbers: a positive verdict, or without one status 500 and up, 0 or 429, is retried after 1000·2^count ms below five counted failures; everything else is dead-lettered |
| HandleFailure.ReopensFinished | src/application/services/handle-failure.service.ts:70-152 | exactly which calls reopen a finished delivery: retryable, below the limit, without an attempt repository or a publishing error |
| ScheduleRetry.ScheduleRetryService.Schedule | src/application/services/schedule-retry.service.ts:31-99 | the saved row, the job and the error for every request |
| ScheduleRetry.JobDueWithRow | src/application/services/schedule-retry.service.ts:43-75 | row and job agree on when the retry is due |
| ScheduleRetry.ScheduledInNumbers | src/application/services/schedule-retry.service.ts:36-75 | for every choice of limit and delay: the limit that dead-letters and the retry time that is set |
| ScheduleRetry.JobIsTheRows | src/application/services/schedule-retry.service.ts:73-96 | the job names the row's own result and destination, with the next attempt |
| ScheduleRetry.ReopensFinished | src/application/services/schedule-retry.service.ts:43-75 | a finished delivery stays finished exactly when its count is used up |
| SavedRows.EverySaveIsTimed | src/application/services/handle-failure.service.ts:85-152 | every saved SCHEDULED_RETRY has a time not in the past, every saved finished row has none |
| SavedRows.MarkFailedAloneMayBreakIt | src/domain/entities/delivery.entity.ts:173-190 | markFailed on its own can leave a scheduled retry without a time |
| OneShotUseCase.DeliverTaskResultUseCase.Execute | src/application/use-cases/DeliverTaskResultUseCase.ts:17-128 | the row saved, the POST sent and whether the attempt throws |
| OneShotUseCase.AttemptInNumbers | src/application/use-cases/DeliverTaskResultUseCase.ts:62-127 | 200 to 299 completes; otherwise the last attempt dead-letters and an earlier one is due in 5 seconds |
| OneShotUseCase.AttemptEffects | src/application/use-cases/DeliverTaskResultUseCase.ts:17-128 | when an attempt POSTs, when it saves and when it throws, by what it finds |
| OneShotUseCase.DeliverTaskResultUseCase.RunJob | src/infrastructure/queue/bullmq.worker.ts:23-42 | attempts are numbered from 1 and repeated while they throw, up to the limit |
| OneShotUseCase.WholeJobTrace | src/application/use-cases/DeliverTaskResultUseCase.ts:62-127 | scheduled retries, then COMPLETED at the first success or FAILED_DLQ at the limit, when the store takes every row |
| OneShotUseCase.AcceptsAsTheTable | src/infrastructure/database/PrismaDeliveryLogRepository.ts:38-59 | the log the use case is modelled on refuses a row exactly when the table's upsert does |
| OneShotUseCase.StoredRowBlocksEverySave | prisma/schema.prisma:84-84 | once the pair has a row, no attempt is saved and every attempt POSTs |
| OneShotUseCase.UniqueTraceExactly | prisma/schema.prisma:84-84 | under the constraint the promised trace holds exactly when one attempt is enough or allowed |
| LeaderElection.SafeStep | src/daemon/coordinator/leader-election.ts:40-113 | every Redis command and every tick keeps the lease invariant |
| LeaderElection.FlagStep | src/daemon/coordinator/leader-election.ts:149-166 | the flag is set exactly while the timer runs, except during a resign |
| LeaderElection.AtMostOneLeader | src/daemon/coordinator/leader-election.ts:40-113 | in every legal run at most one node acts as leader, and the live key holds its id |
| LeaderElection.FlagMatchesKey | src/daemon/coordinator/leader-election.ts:91-113 | a freshly flagged node holds the live key unless and only unless its own resign has deleted it |
| LeaseRetention.LeaderKeepsLease | src/daemon/coordinator/leader-election.ts:149-159 | a leader that refreshes in time leads, with the key alive in its name, until it resigns, also when it participates on its own account while a refresh is in flight |
| LeaseRaces.ExpiryDuringRefreshMakesTwoLeaders | src/daemon/coordinator/leader-election.ts:60-66 | an expiry between GET and PEXPIRE gives two leaders, in a run that keeps the other assumption |
| LeaseRaces.ExpiryDuringResignMakesTwoLeaders | src/daemon/coordinator/leader-election.ts:96-106 | so does an expiry between GET and DEL |
| LeaseRaces.ExpireGuardIsExact | src/daemon/coordinator/leader-election.ts:60-66 | from a safe state, PEXPIRE stays safe exactly when the key is still the caller's |
| LeaseRaces.ParticipateOverResignMakesTwoLeaders | src/daemon/coordinator/leader-election.ts:91-113 | a participate overlapping the node's own resign gives two leaders, in a run that keeps the other assumption |
| LeaseRaces.LeaseKeptExactly | src/daemon/coordinator/leader-election.ts:40-86 | refreshing leaders keep their lease if and only if twice the call time plus the timer's lateness is under 20 seconds and no node has two participates in flight before it leads |
| LeaseRaces.OverlapIsHarmful | src/daemon/coordinator/leader-election.ts:69-77 | two overlapping participates of a node that did not lead can make it drop the lease it has just won, with no delay at all |
| LeaseRaces.LateLeaderDropsFlag | src/daemon/coordinator/leader-election.ts:60-76 | outside that bound a leader alone in the cluster can drop its flag |
| LeaseRaces.ResignLeavesTwoFlags | src/daemon/coordinator/leader-election.ts:91-113 | between DEL and the end of resign two nodes can be freshly flagged in a legal run |
| LeaderElectionService.LeaderElectionNode.Participate | src/daemon/coordinator/leader-election.ts:40-86 | flag, timer, key and answer of one undisturbed call, for an error at any command |
| LeaderElectionService.LeaderElectionNode.Resign | src/daemon/coordinator/leader-election.ts:91-113 | the key goes only if the node led and holds it; flag and timer always go |
| LeaderElectionService.UndisturbedParticipate | src/daemon/coordinator/leader-election.ts:40-86 | the interleaving model's commands, run without a break, have the method's effect |
| LeaderElectionService.InterruptedParticipate | src/daemon/coordinator/leader-election.ts:80-86 | an error at any command the call issues leaves the node without flag and timer, and the key as it was |
| LeaderElectionService.UndisturbedResign | src/daemon/coordinator/leader-election.ts:91-113 | the same commands for a resign, with an error at any of them: the key goes exactly if the node led, holds it and the DEL was reached |
| IsoDate.CivilUnique | src/infrastructure/queue/job-serializer.ts:50-50 | a legal date is recovered from its day number, in every proleptic Gregorian year |
| IsoDate.MonthTable | src/infrastructure/queue/job-serializer.ts:50-50 | the legal days of each month are 31, 30, and 28 or 29 |
| IsoDate.EpochDay | src/infrastructure/queue/job-serializer.ts:50-50 | day 0 is the first of January 1970 |
| IsoDate.DaysFollow | src/infrastructure/queue/job-serializer.ts:50-50 | each day is followed by the next date of the calendar; with the epoch this fixes the date of every day |
| IsoDate.EpochText | src/infrastructure/queue/job-serializer.ts:50-50 | instant 0 prints as 1970-01-01T00:00:00.000Z |
| IsoDate.ShapedInCommonYears | src/infrastructure/queue/job-serializer.ts:66-68 | toISOString gives text of the recognised shape exactly for the years 0 to 9999 |
| IsoDate.ParseOfText | src/infrastructure/queue/job-serializer.ts:66-68 | reading the text of such an instant gives the instant back |
| IsoDate.TextOfParse | src/infrastructure/queue/job-serializer.ts:66-68 | a recognised string survives reading and printing exactly when every field is in range |
| JobSerializer.SerializeSucceeds | src/infrastructure/queue/job-serializer.ts:48-63 | serialize throws exactly when the tree holds an invalid instant |
| JobSerializer.SerializedIsDateFree | src/infrastructure/queue/job-serializer.ts:48-63 | nothing stored is an instant |
| JobSerializer.DeserializeSerialize | src/infrastructure/queue/job-serializer.ts:17-31 | deserialize after serialize is the identity exactly on trees without instant-shaped strings and with instants of common years |
| JobSerializer.SerializeDeserialize | src/infrastructure/queue/job-serializer.ts:17-31 | serialize after deserialize is the identity exactly on trees without instants whose instant-shaped strings are canonical |
| QueueManagers.Find | src/infrastructure/queue/queue-manager.ts:63-72 | the first queue in the order main, delayed, dead-letter that holds the id |
| QueueManagers.QueueManager.FindJob | src/infrastructure/queue/queue-manager.ts:63-72 | the loop finds that job |
| QueueManagers.QueueManager.EnqueueJob | src/infrastructure/queue/queue-manager.ts:77-95 | only valid, serializable data is added, to the main queue alone |
| QueueManagers.QueueManager.EnqueueDelayedJob | src/infrastructure/queue/queue-manager.ts:100-122 | the same for the delayed queue, with the delay |
| QueueManagers.AcceptExactly | src/infrastructure/queue/job-serializer.ts:36-46 | data is refused as invalid exactly without a non-blank deliveryId or a payload, and fails to serialize exactly with an invalid instant |
| QueueManagers.QueueManager.MoveToDelayed | src/infrastructure/queue/queue-manager.ts:170-179 | the three queues after the move, for an error before or after the removal |
| QueueManagers.QueueManager.MoveToDlq | src/infrastructure/queue/queue-manager.ts:184-197 | the same for the dead-letter queue, with its two extra keys, no validation, and errors passed on as they came |
| QueueManagers.MoveGoesWhere | src/infrastructure/queue/queue-manager.ts:170-197 | a successful move ends as the last job of the delayed queue with its delay, or of the dead-letter queue with none; its old queue has one job less and every other job stays in its queue |
| QueueManagers.DeadLetterSays | src/infrastructure/queue/queue-manager.ts:184-197 | the dead-lettered job carries the reason and the text of the instant it was moved |
| QueueManagers.MoveToDelayedConserves | src/infrastructure/queue/queue-manager.ts:170-179 | a faultless move keeps all job data exactly when the data survives reading; a failing one loses the job |
| QueueManagers.MoveToDlqConserves | src/infrastructure/queue/queue-manager.ts:184-197 | the same apart from dlqReason and dlqAt |
| QueueManagers.MovesConserveJobs | src/infrastructure/queue/queue-manager.ts:170-197 | over any run of faultless moves of sound jobs none is lost, duplicated or altered |
| Validation.EmailIdHasNoColon | src/domain/value-objects/email-id.vo.ts:14-19 | an accepted email id holds no colon, even untrimmed |
| Validation.AgentIdHasNoColon | src/domain/value-objects/agent-id.vo.ts:14-22 | an accepted agent id holds no colon, even untrimmed |
| Validation.KeyInjective | src/application/services/ingest-result.service.ts:40-40 | the cache key distinguishes exactly the (emailId, agentId, agentVersion) triples of accepted requests |
| Ingestion.MatchesEventFilter | src/domain/entities/destination.entity.ts:150-160 | true exactly when every filter entry strictly equals the event's value |
| Ingestion.MatchedIds | src/application/services/ingest-result.service.ts:66-84 | exactly the enabled destinations whose filters match |
| Ingestion.MatchedInOrder | src/application/services/ingest-result.service.ts:66-84 | in the order listed, each as often as it is listed |
| Ingestion.EventFields | src/application/services/ingest-result.service.ts:71-84 | the event that is matched: the payload's own fields win over trimmed email and agent and the confidence |
| Ingestion.IngestResultService.Ingest | src/application/services/ingest-result.service.ts:32-162 | the stores and the answer of one call, with a failure at any read or write |
| IngestionSafety.WritesTakeHold | src/application/services/ingest-result.service.ts:91-146 | what is stored after the first k writes |
| IngestionSafety.RunsAreCrashSafe | src/application/services/ingest-result.service.ts:62-146 | over any sequential run with failures, every cache entry is backed by its result, its deliveries and their jobs |
| IngestionSafety.CacheEntriesAreBacked | src/application/services/ingest-result.service.ts:62-146 | the count a hit returns is the number of deliveries stored for that result |
| IngestionSafety.IngestionDeduplicates | src/application/services/ingest-result.service.ts:40-60 | inside one cache window, one result per triple, and equal triples get equal answers |
| IngestionSafety.RepeatsWriteNothing | src/application/services/ingest-result.service.ts:40-60 | a repeat changes no store |
| IngestionSafety.ForgottenIsIngested | src/application/services/ingest-result.service.ts:40-60 | a key that is absent or expired is ingested anew under its own id and remembered for 24 hours |
| IngestionSafety.HitExactly | src/application/services/ingest-result.service.ts:40-60 | a faultless call leaves the stores alone exactly when its key is remembered |
| IngestionSafety.RepeatAfterWindow | src/infrastructure/cache/idempotency-cache.ts:15-39 | one triple twice, at least 24 hours apart, leaves two results and two different answers |
| IngestionSafety.StoredFields | src/application/services/ingest-result.service.ts:62-109 | the stored result has the trimmed ids, the version and the payload of its request |
| Worker.JobProcessor.Settle | src/worker/job-processor.ts:105-138 | how an answer, an exception or a throwing logger moves the counters |
| Worker.SettledInNumbers | src/worker/job-processor.ts:105-138 | successes, failures and latency added by an answer, an exception and a throwing logger |
| Worker.CountersBalance | src/worker/job-processor.ts:77-139 | when the counters balance, exactly, and that the clamp never acts |
| Worker.TicketsBalance | src/worker/delivery-executor.ts:105-232 | outstanding tickets are those of the executions between acquire and finally, exactly when no release threw |
| Worker.DeliveryExecutor.ExecuteWithResilience | src/worker/delivery-executor.ts:35-232 | every path gives its ticket back unless the release throws, and the caller sees an exception only from before the acquire or from the handler |
| Worker.UndisturbedExecution | src/worker/delivery-executor.ts:105-232 | the interleaving model's steps, run without a break, leave the tickets as the method does |
| FailureRanking.DlqMonitor.AnalyzeFailures | src/daemon/recovery/dlq-monitor.ts:107-147 | the three reports are the tops of the three histograms |
| FailureRanking.KeysOf | src/daemon/recovery/dlq-monitor.ts:122-131 | what each histogram counts: the reason, else the last error, else a fixed text; destination and agent or unknown |
| FailureRanking.TallyCounts | src/daemon/recovery/dlq-monitor.ts:118-131 | distinct keys, true counts, and a total equal to the list's length |
| FailureRanking.RankingIsRight | src/daemon/recovery/dlq-monitor.ts:133-143 | min(5, distinct) entries with true falling counts, and nothing omitted that is more frequent |
| Paging.HasMoreAgrees | src/application/dto/pagination.dto.ts:49-72 | the three forms of hasMore agree on every page from the first on |
| Paging.WalkVisitsAll | src/application/services/find-destinations.service.ts:21-64 | following hasMore ends and reads the whole list in order |
| Paging.WalkLength | src/application/services/find-destinations.service.ts:21-64 | the walk is pages 1, 2, … and every page but the last is full |

## Left out

- AtMostOneLeader: a node that has deleted the key keeps its flag until its resign returns, so it is not counted as acting in that window; FlagMatchesKey makes it the only one, and ResignLeavesTwoFlags shows it. The 30 seconds run from the write of the key, not from the return of the call that made it.
- DuplicateJobsDeliverOnce: covers processDelivery and the automatic sweeps; the one-shot use case POSTs without reading the row (see StoredRowBlocksEverySave).
- CrashRepairConverges: asks for jobs of the shape enqueueDelivery gives, with colon-free ids; ColonsCollide shows why, and RunKeepsShape that every run keeps the shape.
- IngestionDeduplicates: for calls one after the other; two concurrent calls with one key can both miss the cache.
- Concurrent load-then-save of one row: each service call is one step, with a crash allowed after each save or POST; the code has no lock or version check.
- Branches chosen by duck typing (other repository, queue or cache shapes): the shipped classes are the ones modelled.
- Leader election through setWithTtl, and without Redis operations, where the flag is set and no timer runs.
- `RedisOperations.set` as a source of SET NX PX: the key follows Redis, which that wrapper does not pass on.
- The clock during one sweep: each sweep takes one reading.
- Attempt lists, domain events, error texts, metrics, tracing, logging other than a logger that throws in the worker.
- The span that processScheduledRetries expects: assumed to exist.
- Object keys that JavaScript treats specially (`__proto__`, and the names of Object.prototype in a histogram), the order of integer-like keys, explicit undefined, NaN as a number, values that are neither JSON nor Date.
- Job names, which repeat the delivery id, and the backend's own retries of queue operations.
- LLM metadata checks and the measuring of the payload's JSON: a flag and a number of the request.
- Non-string values in fields the request type declares as strings.
- What the Date constructor makes of text whose fields are out of range: any function, since ECMA-262 leaves it open.
- Floating-point rounding of delays.
- `calculateBackoffWithJitter`, StateSyncDaemon, QueueReconstructor, TTLManager, configuration, HTTP routes, circuit breaker and rate limiting: they would add easy members, or repeat a service modelled here.
