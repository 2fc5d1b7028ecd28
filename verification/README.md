# A verified model of Atlas

Atlas takes research questions, works on them with claim-fenced workers, and reports every change of a job through a
transactional outbox, a Kafka topic and an inbox-deduplicating consumer. This project models the parts of it whose
correctness depends on several processes, clocks and tables at once, and proves what they promise.

`dafny verify dfyconfig.toml` checks everything.

## How it is built

Concurrent parts are step systems: a step is one transaction or one broker call, a step whose guard fails leaves the state
unchanged, and theorems are about all runs, that is, all sequences of steps. Clock readings, tokens and new ids are step
parameters without constraint unless a theorem says otherwise. Objects and loops of the source are classes and methods; a
method that talks to a database shares it with other callers, who may run any of their steps between any two of its own.

| file | what it models |
|---|---|
| `Events`, `Outbox`, `Relay`, `OutboxRelay` | the event catalogue, the outbox table, any number of relays, one relay run |
| `Consumer`, `Fakes`, `Timing`, `Wait`, `ConsumerRunner` | consumer sessions, the reference repositories, retry budget and deadline, one processed record and the poll loop |
| `Pipeline`, `World` | relays, topic and consumers together, and the world an imperative process shares with the others |
| `Lifecycle`, `Jobs`, `JobService` | the job entity, the job tables, and the submit, review and worker services |
| `Platform` | job tables and pipeline as one system |
| `ModelLedger`, `ModelService` | the model-invocation ledger and its service |
| `Evaluation`, `EvaluationService` | evaluation runs and their service |
| `Markdown`, `Chunking`, `RateLimit`, `Aggregation`, `Canonical`, `Headers` | self-contained algorithms |

The main line runs through `Relay.HandsInOrder`, `Pipeline.EndToEnd`, `Jobs.JobHistory` and `Platform.ExactlyOnceInOrder`:
relays publish in outbox order, so consumers apply a duplicate-free outbox prefix as long as no job has an event after its
terminal one, and the job tables never write such an event.

## Where code and documentation differ

The model follows the code.

- When offset-commit retries run out after an applied record, the error is re-raised as `TransientKafkaError` and the poll
  loop keeps polling (src/atlas/consumer/runner.py:319-322, src/atlas/consumer/__main__.py:237-247), although the module
  documentation says exhaustion terminates the process. No record is lost on that path (`ConsumerRunner.PollLoop`).
- The timing module says it mirrors the Settings formula exactly; the Settings copy leaves the jitter out
  (`Timing.SettingsGap`), and the start-up bound covers the apply loop only, not the commit after it
  (`Timing.DefaultsLeaveCommitUncovered`).
- An operator rejection fails the job without a `research_job.failed` event, so the read model keeps showing the job as
  unfinished (`Jobs.RejectionIsSilent`, `Jobs.RejectionHappens`, `Platform.RejectedNeverShownEnded`).
- Markdown normalization is documented to strip outer white space and to collapse three or more blank lines; the code strips
  outer newlines only and collapses two or more.
- `Retry-After` is documented to round up so that callers never retry before reset; a retry after exactly that wait meets the
  old window's last instant when the remaining time was a whole number of seconds (`RateLimit.RetryAfterReachesEnd`, `RateLimit.PunctualRetryDenied`).
- `to_result` reports only the hints `complete` and `terminal` and lists dimensions by name, so a verdict does not come back as
  it was written unless its hint is one of these and its dimensions were in name order, which the graders' own order is not
  (`Evaluation.VerdictRoundTripIff`, `Evaluation.GradedVerdictIsReordered`).
- A skipped hard dimension is stamped as passed while the overall verdict still reads its score
  (`Aggregation.PassAgreesIff`).

## Model

| member | source | states |
|---|---|---|
| `Events.AcceptIsIdentityIff` | src/atlas/persistence/repositories/research_job_projection.py:28-40 | a fail-closed projection refuses nothing of a history exactly when no job has an event after its terminal one |
| `Events.AcceptNext` | src/atlas/persistence/repositories/consumer_inbox.py:48-65 | deduplicating before applying and applying the first occurrences are the same: one more delivery adds its event unless it was applied or its job has ended |
| `Events.ProjectTerminalIff` | src/atlas/persistence/repositories/research_job_projection.py:36-56 | in an ordered history the projection row of a job is terminal exactly when the history holds a terminal event of it |
| `Outbox.SelectRun` | src/atlas/persistence/repositories/outbox.py:100-151 | the row-by-row selection takes the batch that is described on the rows alone: from the first unpublished row on, each next unpublished row that is neither locked nor under a running lease, until the size is reached or such a barrier comes |
| `Outbox.BatchTakes` | src/atlas/persistence/repositories/outbox.py:100-183 | a claim takes everything it may: a batch below its size ends where no unpublished row is left or the next one is locked or leased, and it is non-empty exactly if the size is positive and the first unpublished row is neither |
| `Outbox.TakesUnique` | src/atlas/persistence/repositories/outbox.py:100-183 | that description fits exactly one batch |
| `Outbox.ClaimRunClaimable` | src/atlas/persistence/repositories/outbox.py:176-183 | every claimed row was claimable and unlocked, and no more than the batch size is claimed |
| `Outbox.ClaimRunFollows` | src/atlas/persistence/repositories/outbox.py:73-95 | a claim starts at the head and skips published rows only: an unpublished row it cannot take is a barrier |
| `Outbox.ClaimFences` | src/atlas/persistence/repositories/outbox.py:153-183 | a claimed row is owned by its token, and unclaimable for all others, exactly while the lease runs |
| `Outbox.ReleaseUndoesClaim` | src/atlas/persistence/repositories/outbox.py:185-245 | a fenced release restores the row except for the attempt count and makes it claimable at once; a fenced mark makes it unclaimable for good |
| `Outbox.OutboxTable.Enqueue` | src/atlas/persistence/repositories/outbox.py:39-71 | a row is appended unpublished exactly when its event id is new |
| `Outbox.OutboxTable.ClaimBatch` | src/atlas/persistence/repositories/outbox.py:73-174 | size and lease are validated; otherwise the one batch that takes everything it may is stamped with token, lease and one more attempt, all other rows untouched |
| `Outbox.OutboxTable.MarkPublished` | src/atlas/persistence/repositories/outbox.py:185-212 | marks exactly if the row has the token, is unpublished and its lease still runs, and otherwise changes nothing |
| `Outbox.OutboxTable.ReleaseFailedClaim` | src/atlas/persistence/repositories/outbox.py:214-245 | releases exactly under the same condition, and otherwise changes nothing |
| `Relay.StepKeepsInv` | src/atlas/outbox/relay.py:110-274 | every step of any number of relays, crashes, late deliveries and foreign records keeps: published rows are a delivered prefix, everything handed over had all lower rows published, batches are contiguous, first occurrences follow the outbox |
| `Relay.HandsInOrder` | src/atlas/outbox/relay.py:124-229 | over every run: whenever a relay hands a position to the producer, every lower position is durably published and already in the topic |
| `Relay.LogFollowsOutbox` | src/atlas/outbox/relay.py:136-229 | over every run: first occurrences in the topic are a gap-free prefix of the outbox that covers every published row |
| `Relay.LateRowKeepsOrderIff` | src/atlas/persistence/repositories/outbox.py:100-137 | the assumption made exact: a row that becomes visible late keeps the topic an outbox prefix if and only if the topic has not reached its place |
| `Relay.LeaseProtects` | src/atlas/persistence/repositories/outbox.py:176-212 | over every run of the other processes within the lease: a claimed row stays claimed, so the owner's mark succeeds |
| `OutboxRelay.OutboxRelay.ReleaseRemaining` | src/atlas/outbox/relay.py:231-274 | every record still listed gets its own fenced release transaction, whatever others do in between |
| `OutboxRelay.OutboxRelay.PublishNext` | src/atlas/outbox/relay.py:136-229 | one record, with other processes acting before the hand-over, before the answer and before the fenced mark: published, or the rest listed for release; confirmed in time under a protected claim it is published |
| `OutboxRelay.OutboxRelay.PublishBatch` | src/atlas/outbox/relay.py:136-229 | records are published and marked in order up to the first failure or lost mark; the outcome says which, and the rest is released; under a protected claim with confirmed calls in time the whole batch is published |
| `OutboxRelay.OutboxRelay.Claim` | src/atlas/outbox/relay.py:120-136 | the claimed batch takes everything it may, is empty exactly if the first unpublished row is missing, locked or leased, and is under guard if nobody else has or draws the token or claims after the lease |
| `OutboxRelay.OutboxRelay.RunOnce` | src/atlas/outbox/relay.py:110-229 | refused without the lock; Empty exactly if the first unpublished row is missing, locked or leased; otherwise every row counted as published is durably published, the outcome names what the last producer call did, the rest is released and no work in progress is left behind; undisturbed and confirmed in time, the whole batch is published |
| `OutboxRelay.EmptyIff` | src/atlas/persistence/repositories/outbox.py:100-183 | nothing is claimed exactly if the first unpublished row is missing, locked or under a running lease |
| `OutboxRelay.GuardedRun` | src/atlas/persistence/repositories/outbox.py:176-212 | whatever the others do at one opportunity, short of drawing the token or claiming after the lease, every unfinished record of the batch stays claimed |
| `Consumer.StepKeepsInv` | src/atlas/persistence/repositories/consumer_inbox.py:37-67 | every consumer step, with overlapping sessions, lost acknowledgments and restarts, keeps the store a function of the settled part of the topic and every settled offset handled |
| `Pipeline.EndToEnd` | src/atlas/consumer/runner.py:165-295 | over every run of relays, topic and consumers, with no assumption on the history: the effects are what the projection accepts of an outbox prefix, in order, no event twice, and the projection is their last event per job |
| `Pipeline.ExactPrefixIff` | src/atlas/consumer/errors.py:176-197 | over every run: the effects are an exact outbox prefix if and only if that prefix keeps the lifecycle order |
| `Pipeline.NoLifecycleViolation` | src/atlas/consumer/errors.py:176-197 | over every run whose outbox has no event after a terminal one: the violation is never raised and only undecodable records are dead-lettered |
| `Pipeline.NoLostRecord` | src/atlas/consumer/runner.py:233-339 | over every run: each offset below the committed one, and below the position of any session about to poll, has an inbox row for its event or its own dead-letter row |
| `Pipeline.DrainedPipeline` | src/atlas/consumer/runner.py:165-420 | nothing is lost end to end: with all rows published and all offsets committed the whole outbox was accepted, and applied exactly if it keeps the lifecycle order |
| `Fakes.InMemoryInbox.RecordAndApply` | src/atlas/consumer/fakes.py:131-152 | a duplicate id and a raising effect change nothing; the effects stay the first occurrences of what was served |
| `Fakes.InMemoryDeadLetters.Put` | src/atlas/consumer/fakes.py:189-222 | one row per offset under its first id and first failure, counting every delivery as the consumer's own state does |
| `ConsumerRunner.ConsumerRunner.ApplyLoop` | src/atlas/consumer/runner.py:246-295 | the loop is the shared retry specification, and on success the record is settled or classified poison; an effect it reports as applied is new and the record's own |
| `ConsumerRunner.ConsumerRunner.CommitLoop` | src/atlas/consumer/runner.py:297-339 | the loop is the shared retry specification; on success the committed offset is the record's plus one and nothing is in hand |
| `ConsumerRunner.ConsumerRunner.DeadLetterAndCommit` | src/atlas/consumer/runner.py:341-420 | the offset is committed only after a durable dead-letter row, and commit exhaustion is terminal here |
| `ConsumerRunner.ConsumerRunner.CommitApplied` | src/atlas/consumer/runner.py:288-322 | commit exhaustion on the apply path leaves a settled record behind and is the one error after which polling goes on |
| `ConsumerRunner.ConsumerRunner.RunOnce` | src/atlas/consumer/runner.py:165-420 | the end follows from the poll and the calls and waits of the record's own loops, each as an equivalence: shutdown exactly if a wait was stopped, terminal exactly if the poll or a call was fatal, a deadline check failed or the tries ran out in the apply, dead-letter or post-dead-letter commit loop, under the error of that loop, and transient exactly if the poll was or the commit after apply used up its tries; at most three loops of at most max_attempts tries, over by the deadline; an applied, dead-lettered or duplicate record is committed; with working calls and time to spare it returns |
| `ConsumerRunner.ConsumerRunner.LegEndsIff` | src/atlas/consumer/runner.py:246-420 | each way a loop of the record can end, said of its calls, waits and deadline alone |
| `ConsumerRunner.ConsumerRunner.PollLoop` | src/atlas/consumer/__main__.py:202-259 | the rounds begin at the committed offset and follow one another record by record; the exit code is 1 exactly if a poll or a loop of some round failed, and the loop stops early only after such a failure or a stopped wait; however it ends, every offset below its last position and below the committed offset is durably dealt with |
| `Timing.EffectiveTimeouts` | src/atlas/config/timeout_math.py:41-61 | effective timeouts are never zero, never shorter than configured, and the least whole unit with that property |
| `Timing.AttemptBoundCovers` | src/atlas/consumer/timing.py:48-63 | the attempt bound covers a pool wait, a connect, the counted statements and the overhead, each within its own timeout, and is attained when each takes all of it |
| `Timing.ExponentialGrows` | src/atlas/consumer/timing.py:83-95 | delays without jitter never exceed the cap, start at the base, double while that stays below the cap and are the cap from then on |
| `Timing.SettingsGap` | src/atlas/config/settings.py:252-298 | the validator falls short of the runtime bound by exactly one jitter per retry, so its acceptance implies the bound for every interval if and only if there is no jitter or no retry |
| `Timing.RetryMeetsDeadline` | src/atlas/consumer/timing.py:98-130 | one retry loop ends by the deadline, or at once, after at most max_attempts tries, for every script of outcomes |
| `Timing.RetryExhausts` | src/atlas/consumer/runner.py:319-322 | giving up means the configured number of tries was used |
| `Timing.RetryEndsIff` | src/atlas/consumer/runner.py:246-295 | a retry loop succeeds, fails, gives up, is stopped or is late exactly if its n-th call and the times before it say so, for some n that all earlier calls and waits lead to |
| `Timing.ChainMeetsDeadline` | src/atlas/consumer/runner.py:246-420 | any number of loops under one deadline end by it, or at once |
| `Timing.EndsByDeadlineIff` | src/atlas/consumer/timing.py:106-120 | every outcome of every loop ends by the deadline if and only if the margin fits in the poll interval |
| `Timing.NeverLateIff` | src/atlas/consumer/timing.py:122-130 | n loops in a row never fail a deadline check, for all outcomes, if and only if n loop bounds plus the margin fit in the poll interval |
| `Timing.StaticBoundIsFirstLoop` | src/atlas/consumer/timing.py:48-95 | the start-up bound is exactly that condition for one loop |
| `Timing.DefaultsLeaveCommitUncovered` | src/atlas/config/settings.py:252-298 | with the default parameters the start-up check passes, the apply loop can never be late, and apply followed by commit can |
| `Wait.ShutdownAwareWait` | src/atlas/consumer/wait.py:36-62 | the wait lasts exactly as asked, or notices shutdown within one slice; it reports shutdown exactly if the flag was set by its end |
| `Lifecycle.StripTrims` | src/atlas/domain/research_job.py:23-29 | stripping trims both ends, empties exactly blank strings and changes exactly untrimmed ones |
| `Lifecycle.StripIdempotent` | src/atlas/domain/research_job.py:23-29 | stripping twice is stripping once |
| `Lifecycle.StripIsPart` | src/atlas/domain/research_job.py:23-29 | the result is a contiguous part of the string with only white space around it |
| `Lifecycle.CreateIff` | src/atlas/domain/research_job.py:84-108 | a job is created exactly for a non-blank id of at most 128 stripped characters, a non-blank question and an aware time, as a pending job with the stripped texts |
| `Lifecycle.StepIff` | src/atlas/domain/research_job.py:314-411 | a transition succeeds exactly from its own source status, with text where it stores one and a clock not behind the job |
| `Lifecycle.StepWrites` | src/atlas/domain/research_job.py:314-411 | which status, times and texts each transition writes |
| `Lifecycle.ReconstituteAcceptsIff` | src/atlas/domain/research_job.py:110-276 | columns are accepted exactly if the job they describe is well-formed, and yield that job |
| `Lifecycle.ReconstituteWf` | src/atlas/domain/research_job.py:110-276 | whatever columns it is given, rebuilding yields a well-formed job or an error |
| `Lifecycle.RunWf` | src/atlas/domain/research_job.py:314-411 | every transition sequence keeps created <= started <= finished <= updated, the status-field rules and clean text |
| `Lifecycle.ReconstituteIff` | src/atlas/domain/research_job.py:110-276 | rebuilding a job from its own columns returns the same job if and only if it is well-formed |
| `Lifecycle.RoundTrip` | src/atlas/domain/research_job.py:84-276 | every reachable job survives the round trip through its columns |
| `Lifecycle.ReachableIff` | src/atlas/domain/research_job.py:84-411 | the reachable jobs are exactly those that rebuilding accepts and whose updated_at is the creation or finishing time where it must be |
| `Lifecycle.TerminalAbsorbs` | src/atlas/domain/research_job.py:413-422 | completed and failed jobs refuse every transition, in every continuation |
| `Lifecycle.ResearchJob.Admit` | src/atlas/domain/research_job.py:41-53 | status, field and timestamp checks in the source's order, with its error |
| `Lifecycle.ResearchJob.Start` | src/atlas/domain/research_job.py:314-326 | the entity moves as the transition says or stays as it was |
| `Lifecycle.ResearchJob.ResumeFromPending` | src/atlas/domain/research_job.py:328-339 | likewise for a delayed pending job |
| `Lifecycle.ResearchJob.Complete` | src/atlas/domain/research_job.py:341-351 | likewise, storing the stripped result and clearing the failure |
| `Lifecycle.ResearchJob.Fail` | src/atlas/domain/research_job.py:353-363 | likewise, storing the stripped reason and clearing the result |
| `Lifecycle.ResearchJob.AwaitReview` | src/atlas/domain/research_job.py:365-373 | likewise |
| `Lifecycle.ResearchJob.ReturnToPending` | src/atlas/domain/research_job.py:375-387 | likewise, keeping started_at |
| `Lifecycle.ResearchJob.ApproveToPending` | src/atlas/domain/research_job.py:389-397 | likewise, keeping started_at |
| `Lifecycle.ResearchJob.FailFromReview` | src/atlas/domain/research_job.py:399-411 | likewise from review |
| `Jobs.JobHistory` | src/atlas/application/worker.py:412-523 | over every run: one created event per job and one job per key, one completed event exactly for completed jobs, one failed event or rejection exactly for failed ones, one retry event per counted retry, one review event per decision plus one while in review, nothing after a terminal event, and every job and execution row meets its CHECKs |
| `Jobs.TerminalForever` | src/atlas/persistence/repositories/research_job.py:285-327 | a finished job row never changes again, in any continuation |
| `Jobs.SupersededForever` | src/atlas/persistence/repositories/research_job.py:523-539 | a claim token that lost the job writes nothing in any continuation that does not draw it again |
| `Jobs.KeyForever` | src/atlas/application/research_jobs.py:55-96 | a job keeps its idempotency key and question in every continuation |
| `Jobs.CheckRefusesIff` | alembic/versions/20260809_0010_recovery_review_foundation.py:107-232 | the status, retry, key, actor and execution CHECKs refuse a transaction exactly for a pause without a bound execution, a third retry, a key or actor that is blank or longer than 128, and a clock behind the start of the execution it closes |
| `Jobs.SubmitEffect` | src/atlas/application/research_jobs.py:75-92 | a valid submission under a new id and key inserts row and created event together, exactly if the key fits its column and the event id is new |
| `Jobs.FinalizeIsAtomic` | src/atlas/application/worker.py:412-523 | terminal row with its stripped text and terminal event come together under a valid claim, or nothing changes |
| `Jobs.FinalizeSucceedsIff` | src/atlas/persistence/repositories/research_job.py:285-327 | finalization takes effect exactly for the current owner with non-blank text, a clock not behind the row and a new event id |
| `Jobs.ClaimThenOwns` | src/atlas/persistence/repositories/research_job.py:119-242 | a claim of a job that may be claimed owns it, for finalization, until its lease runs out |
| `Jobs.ClaimGranted` | src/atlas/persistence/repositories/research_job.py:119-242 | a running job whose lease lies before the clock, and a due pending job with a clock not behind it, are owned by the claiming token after the step, with their continuation handed over |
| `Jobs.ClaimRefused` | src/atlas/persistence/repositories/research_job.py:119-242 | every other claim changes nothing |
| `Jobs.LiveClaimStands` | src/atlas/persistence/repositories/research_job.py:119-242 | a running job whose lease is at or after the clock does not change under a claim |
| `Jobs.ClaimKeepsJob` | src/atlas/persistence/repositories/research_job.py:119-345 | over every run whose claims of a job read clocks not after its lease, its token stays until the job leaves Running |
| `Jobs.BindIff` | src/atlas/workflow/processor.py:554-572 | a new execution is bound exactly by the owner under a new id with a clock not behind the executions it abandons, and is then the only running one |
| `Jobs.PauseIff` | src/atlas/persistence/repositories/research_job.py:398-419 | a job pauses for review exactly for its owner with a bound execution, a clock not behind the row and a new event id |
| `Jobs.RetryIff` | src/atlas/persistence/repositories/research_job.py:347-396 | a retry is scheduled exactly for the owner with fewer than two retries so far, an execution it may abandon, a clock not behind the row and a new event id |
| `Jobs.RetryThenClaim` | src/atlas/persistence/repositories/research_job.py:119-242 | after a scheduled retry a claim takes the job exactly once it is due, and hands over the retry |
| `Jobs.ApproveThenClaim` | src/atlas/persistence/repositories/research_job.py:421-444 | after an approval a claim takes the job at once, with the execution under review still active and completion handed over |
| `Jobs.DecisionIsExit` | src/atlas/application/review.py:173-243 | every decision takes exactly its own job out of review, on the execution under review, and every exit is one decision |
| `Jobs.DecisionRecordedIff` | src/atlas/application/review.py:173-243 | the writing transaction records exactly when the job still awaits review on the same execution, the key is new, key and actor fit, the clock is not behind the job, and for a rejection the execution still runs and did not start later |
| `Jobs.OneDecisionPerStay` | src/atlas/application/review.py:92-254 | within one stay in review any number of competing calls create at most one decision, and one exactly if the stay ended |
| `Jobs.ReplayForever` | src/atlas/application/review.py:98-109 | the decision found under a key stays the same in every continuation, which is what later calls answer with |
| `Jobs.RejectionIsSilent` | src/atlas/application/review.py:226-243 | a failed job has a terminal event exactly if no operator rejected it |
| `Jobs.RejectedIsSilent` | src/atlas/application/review.py:226-243 | in every run a rejected job is failed and has no terminal event |
| `Jobs.RejectionHappens` | src/atlas/application/review.py:64-254 | a run of six transactions that ends in a rejected, failed job without a terminal event |
| `JobService.MoveRow` | src/atlas/persistence/repositories/research_job.py:285-327 | rebuilding the entity from a row, letting it make its transition and copying it back moves the row as the job tables say, and rebuilding never fails |
| `JobService.ResearchJobService.Submit` | src/atlas/application/research_jobs.py:55-96 | a new job with its created event last in the outbox, or the key's own job for the same question, or a conflict for another one; a used key with valid input and a new job id is always answered by one of the latter two; undisturbed new submissions are accepted |
| `JobService.ResearchJobService.ReplayOrConflict` | src/atlas/application/research_jobs.py:106-121 | after any interference the key's row is still there, so the missing-record branch is never taken |
| `JobService.ReviewService.SubmitDecision` | src/atlas/application/review.py:64-254 | a key that has a decision is always answered with the id first recorded for it or, for another request, a conflict; with arbitrary interference between the two transactions a recorded decision is the last one and took the job out of review; undisturbed, it records exactly if the job awaits review on a running execution of its own, the key is new, key and actor fit and the clock is not behind |
| `JobService.ReviewService.Write` | src/atlas/application/review.py:173-243 | the second transaction is exactly one step of the job tables and says whether it recorded |
| `JobService.Worker.RunOnce` | src/atlas/application/worker.py:176-350 | it claims exactly if it is not shutting down, no abandoned processor runs, and the job is due and pending or running under a lapsed lease; a finalized job is terminal with its event last in the outbox; undisturbed outcomes are finalized exactly when they have text to record |
| `JobService.Worker.Finalize` | src/atlas/application/worker.py:371-523 | it takes effect exactly for the owner under a running lease with text to record, a clock not behind the row and a new event id; then terminal row, stored text and event are written together |
| `Platform.ExactlyOnceInOrder` | src/atlas/application/worker.py:218-523 | job tables and pipeline together, over every run and with no assumption: effects are a duplicate-free outbox prefix and the lifecycle violation is never raised |
| `Platform.ProjectionNeverAhead` | src/atlas/persistence/repositories/research_job_projection.py:28-59 | over every run: a job the read model shows as completed or failed is so in the job table |
| `Platform.DrainedProjection` | src/atlas/application/review.py:226-243 | once drained, the read model shows exactly the completed and the failed, not rejected, jobs as ended |
| `Platform.RejectedNeverShownEnded` | src/atlas/persistence/repositories/research_job_projection.py:28-59 | in no run does the read model show a rejected job as ended |
| `Platform.RejectedJobExists` | src/atlas/application/review.py:226-243 | there is such a job: failed in the job table and rejected |
| `ModelLedger.FencesAgree` | src/atlas/persistence/repositories/model_invocation.py:254-428 | the attempt update and the invocation update of one transaction succeed together, exactly for the latest attempt of an invocation in progress |
| `ModelLedger.OneOpenAttempt` | src/atlas/models/service.py:264-505 | over every run: at most one open attempt per key, the latest one, open exactly while in progress; at most two malformed answers for an evaluate key |
| `ModelLedger.LateResultIgnored` | src/atlas/models/service.py:413-483 | a result of a superseded attempt changes nothing |
| `ModelLedger.AttemptsOnlyGrow` | src/atlas/persistence/repositories/model_invocation.py:188-215 | attempts are only added, so a superseded attempt stays superseded |
| `ModelLedger.SucceededForever` | src/atlas/models/service.py:292-310 | a succeeded key keeps its output, starts no further attempt and always replays, in every continuation |
| `ModelLedger.CapNeverUndoesReclaim` | src/atlas/models/service.py:312-347 | an in-progress key is refused exactly while its job's claim is valid or its latest attempt's deadline is to come; otherwise the begin always goes on to start the next attempt, so the cap never rolls the stale mark back |
| `ModelLedger.BeginIff` | src/atlas/models/service.py:264-411 | a begin starts exactly one attempt for a new key, a failed key below the cap, or a key in progress that may be taken over, and otherwise changes nothing |
| `ModelLedger.LiveAttemptStands` | src/atlas/models/service.py:507-523 | a key in progress does not change under a begin while its job's claim is valid, nor while its latest attempt's deadline is to come |
| `ModelLedger.AttemptKeepsKey` | src/atlas/models/service.py:507-523 | over every run of such begins and anything else, that attempt stays the owner until it ends itself |
| `ModelLedger.TakeOver` | src/atlas/models/service.py:312-347 | with the claim gone and the deadline passed, a begin marks the old attempt stale and adds exactly one |
| `ModelLedger.ResultWrites` | src/atlas/models/service.py:413-505 | what the owner's success and failure write, and that only malformed answers count towards the cap |
| `ModelLedger.ResultRefusedIff` | alembic/versions/20260809_0005_model_invocations.py:80-170 | the CHECKs refuse the owner's result exactly when the clock ran backwards past the attempt's start |
| `ModelService.ModelInvocationService.Execute` | src/atlas/models/service.py:264-505 | the provider is called exactly if the key is new, failed below the cap, or in progress with the job's claim gone and the latest deadline passed; a key that had succeeded on entry is replayed, or refused by the schema; a returned value is the durable output; undisturbed, the outcome is the provider's answer and is stored |
| `ModelService.ModelInvocationService.EvaluateSemantic` | src/atlas/models/service.py:193-262 | at most two provider calls, none for a key that had succeeded, and a value is the durable output; undisturbed, a first malformed answer leads to the outcome of the second call, and any other answer is the outcome |
| `Evaluation.AttemptsConserved` | src/atlas/evaluation/service.py:143-230 | over every run: the attempt counter is the number of rows and at most four, rows meet their CHECKs and uniqueness, only succeeded runs have dimension rows |
| `Evaluation.IdentityForever` | src/atlas/evaluation/repository.py:136-163 | a run keeps its job, slot and input fingerprint in every continuation |
| `Evaluation.SucceededForever` | src/atlas/evaluation/repository.py:198-255 | a succeeded run never changes again |
| `Evaluation.SpentForever` | src/atlas/evaluation/service.py:255-266 | a token that finalized or lost its run stays unable to finalize it while nobody draws it again |
| `Evaluation.SpentTokenWritesNothing` | src/atlas/evaluation/repository.py:198-255 | a spent or foreign token changes nothing |
| `Evaluation.FinalizeSpends` | src/atlas/evaluation/service.py:232-344 | a finalize that took effect was by the current owner and spends its token |
| `Evaluation.FinalizeRefusedIff` | alembic/versions/20260809_0009_evaluation_foundation.py:98-126 | the CHECKs refuse the owner's success exactly for a clock behind the start, a score out of range or bad dimensions, and its failure exactly for the clock |
| `Evaluation.ReclaimNeverRefused` | src/atlas/evaluation/repository.py:136-163 | a reclaim always meets the constraints and leaves every attempt counter alone |
| `Evaluation.LiveRunStands` | src/atlas/evaluation/service.py:156-180 | a run in progress does not change under a begin that reads a clock not after its deadline |
| `Evaluation.OwnerKeepsRun` | src/atlas/evaluation/service.py:156-344 | over every run of such begins and anything else, its owner keeps it until it finalizes |
| `Evaluation.TakeOver` | src/atlas/evaluation/service.py:156-192 | a begin by the holder of the job's claim with the same fingerprint, on a failed run or one past its deadline, makes the caller's token the owner of the reset row |
| `Evaluation.FreshRun` | src/atlas/evaluation/service.py:194-230 | below the cap, a begin on a slot without a run adds exactly its own row and counts it |
| `Evaluation.TurnedAwayIff` | src/atlas/evaluation/service.py:105-230 | every reason for which a begin is turned away, as an equivalence over the rows |
| `Evaluation.ReplayForever` | src/atlas/evaluation/service.py:143-147 | after a success every later begin for the slot replays the very result the finalizer returned for the same input and conflicts for any other |
| `Evaluation.VerdictRoundTripIff` | src/atlas/evaluation/repository.py:257-313 | score and pass come back from a row; the dimensions come back as their rearrangement in name order; the whole verdict comes back unchanged exactly if its hint is complete or terminal and its dimensions were in name order |
| `Evaluation.GradedVerdictIsReordered` | src/atlas/evaluation/runner.py:326-412 | in the order the graders write their seven dimensions, no verdict comes back as it was written |
| `Canonical.SortFixedIff` | src/atlas/evaluation/repository.py:263-269 | ordering rows by a key changes a list exactly if it was not in order |
| `EvaluationService.EvaluationService.BeginOrResume` | src/atlas/evaluation/service.py:105-230 | in progress, no claim, conflict and cap reached are each answered exactly on their condition over status, deadline, fingerprint, claim and count; otherwise replay, reclaim or create; only a create adds a row and a counted attempt, together or not at all |
| `EvaluationService.EvaluationService.ReplaceDimensions` | src/atlas/evaluation/repository.py:173-196 | the delete and insert loop leaves exactly the given dimensions |
| `EvaluationService.EvaluationService.FinalizeSuccess` | src/atlas/evaluation/service.py:232-299 | dimensions and status are written together by the current owner, after which no token owns the run, or all rolls back |
| `EvaluationService.EvaluationService.FinalizeFailure` | src/atlas/evaluation/service.py:301-344 | likewise for failure, without dimensions |
| `Markdown.CollapseLines` | src/atlas/evidence/normalize.py:123-157 | the loop keeps every line but the surplus ones: blank lines right after a blank line that no open fence precedes |
| `Markdown.NormalizeMarkdown` | src/atlas/evidence/normalize.py:123-157 | the whole function on text: the lines of the result are the lines of the unified text without the surplus ones |
| `Markdown.NormalizeIdempotent` | src/atlas/evidence/normalize.py:123-157 | normalizing twice is normalizing once |
| `Markdown.NormalizeNotLonger` | src/atlas/evidence/normalize.py:123-157 | the result is never longer than the input |
| `Markdown.NormalizeFixedIff` | src/atlas/evidence/normalize.py:123-157 | a text is already normal exactly when it has no carriage return, no outer newline and no surplus line |
| `Markdown.NormalizeKeepsContent` | src/atlas/evidence/normalize.py:123-157 | exactly the surplus lines go, every other line survives in order with its spacing, and no surplus line is left |
| `Markdown.FenceOpenIff` | src/atlas/evidence/normalize.py:123-157 | the fence the loop is in is the one the lines leave open: opened outside fences by three or more of one mark, and not yet met by a line with at least as many |
| `Markdown.UnifiedIsPart` | src/atlas/evidence/normalize.py:124-124 | unifying writes one newline per line break of any kind and removes nothing but newlines at both ends |
| `Markdown.CollapseCanonicalIff` | src/atlas/evidence/normalize.py:123-157 | two documents collapse to the same lines exactly when they have the same content and spacing |
| `Chunking.ChunkText` | src/atlas/evidence/chunk.py:25-74 | each error exactly on its condition; a text longer than a window is refused exactly when ceil((L-size)/step)+1 exceeds the limit; otherwise the windows |
| `Chunking.WindowsRebuild` | src/atlas/evidence/chunk.py:53-74 | adjacent windows share exactly the overlap, every later one adds a character, and together they rebuild the text |
| `RateLimit.WindowBound` | src/atlas/coordination/rate_limit.py:30-37 | each window allows at most the limit, and the lesser of its requests and the limit |
| `RateLimit.IntervalBound` | src/atlas/coordination/rate_limit.py:79-98 | in any half-open interval of window length at most twice the limit minus one is allowed |
| `RateLimit.BurstAttainsBound` | src/atlas/coordination/rate_limit.py:79-98 | that bound is attained for every limit and window |
| `RateLimit.RetryAfterReachesEnd` | src/atlas/coordination/rate_limit.py:40-51 | waiting as told (Retry-After, section 10.2.3 of RFC 9110) always reaches the end of the window; a lone retry then is allowed exactly unless the remaining time was a positive whole number of seconds |
| `RateLimit.PunctualRetryDenied` | src/atlas/coordination/rate_limit.py:40-51 | with one request per second, a request denied with 1000 ms left is told to wait one second and its lone retry then is denied |
| `RateLimit.RateLimiter.Check` | src/atlas/coordination/rate_limit.py:79-98 | the decision depends on the identity's own history only, and fails open when Redis does |
| `Aggregation.AggregateDimensions` | src/atlas/evaluation/aggregation.py:62-114 | the accumulation loop computes stamped dimensions, weighted mean and verdict, and the mean of uniquely named dimensions lies between the least and the greatest graded score |
| `Aggregation.WeightsSumToOne` | src/atlas/evaluation/aggregation.py:45-59 | the applicable weights are positive and sum to one, with and without semantics |
| `Aggregation.AggregateBetween` | src/atlas/evaluation/aggregation.py:62-95 | uniquely named dimensions with something graded have positive total weight, and their aggregate lies between any bounds on the graded scores |
| `Aggregation.AggregateWithin` | src/atlas/evaluation/aggregation.py:95-95 | the same of any stamped list with non-negative weights and a positive total |
| `Aggregation.OverallPassIff` | src/atlas/evaluation/aggregation.py:97-113 | the verdict holds exactly when every dimension but a skipped semantic one meets its threshold |
| `Aggregation.PassAgreesIff` | src/atlas/evaluation/aggregation.py:79-113 | the verdict agrees with the stamped dimensions exactly unless a skipped hard or soft dimension hides a failing score; with only semantics skippable it always does |
| `Aggregation.SkippedHardDimensionDisagrees` | src/atlas/evaluation/aggregation.py:79-82 | a skipped hard dimension is stamped as passed while the verdict fails |
| `Aggregation.PassImpliesFloor` | src/atlas/evaluation/aggregation.py:62-114 | a pass with all six base dimensions graded implies an aggregate of at least 0.85, or 0.92/1.1 with semantics |
| `Aggregation.FloorIsAttained` | src/atlas/evaluation/aggregation.py:62-114 | both floors are attained |
| `Aggregation.CompleteAggregate` | src/atlas/evaluation/aggregation.py:24-95 | the score of a complete report in any order: the base scores count 25, 10, 15, 15, 15 and 20 in a hundred, a graded semantic score ten more in a hundred and ten |
| `Canonical.SortCanonicalIff` | src/atlas/evaluation/fingerprint.py:28-59 | sorting by a total order is equal exactly for rearrangements |
| `Canonical.BuildClaims` | src/atlas/evaluation/fingerprint.py:28-38 | the loop and sort give the canonical claim rows |
| `Canonical.PayloadIsSorted` | src/atlas/evaluation/fingerprint.py:28-59 | claims, linked ids and tool rows of the payload are the snapshot's own, in order |
| `Canonical.ToolLeqIff` | src/atlas/evaluation/fingerprint.py:41-59 | tool rows are ordered by origin, node, tool and status, each by the code point where two strings first differ |
| `Canonical.RowLeqIff` | src/atlas/evaluation/fingerprint.py:37-37 | claim rows are ordered by digest, and those of one digest by their ids |
| `Canonical.PayloadEqualIff` | src/atlas/evaluation/fingerprint.py:95-140 | two skipped-mode payloads are equal exactly when the ordered inputs are equal and claims, cited ids, linked ids and tool rows are rearrangements |
| `Headers.HeadersAsMapping` | src/atlas/consumer/deserialize.py:88-139 | shape errors as the code raises them, and otherwise the scan of the pairs |
| `Headers.TraceParentIsNeutral` | src/atlas/consumer/deserialize.py:112-139 | one traceparent of any value anywhere never changes the required headers or the error |
| `Headers.SecondTraceParentFails` | src/atlas/consumer/deserialize.py:115-120 | a second traceparent is always an error, and the duplicate-key error if the headers were acceptable |
| `Headers.DecodedFineIff` | src/atlas/consumer/deserialize.py:112-139 | headers are accepted exactly when keys are distinct strings, required values are readable and the other keys are the three required ones |
| `Headers.DecodedErrorIff` | src/atlas/consumer/deserialize.py:114-139 | headers fail with the error of the first pair at fault, said of its key and value, or else exactly because the keys are not the required ones |
| `Headers.DecodedValues` | src/atlas/consumer/deserialize.py:67-139 | accepted headers carry exactly the texts their pairs spell, and a traceparent exactly if one can be read |
| `Headers.TraceParentNeverPoisons` | src/atlas/consumer/deserialize.py:142-189 | the decoded event or the error of a whole record is the same with and without a traceparent |
| `Headers.MessageAcceptedIff` | src/atlas/consumer/deserialize.py:160-189 | a record is accepted exactly when its headers are and say what its value says |
| `Headers.MessagePoisonedIff` | src/atlas/consumer/deserialize.py:142-189 | which record is refused with which error: the headers' own, then the value's, then the first of the three comparisons that fails |

## Left out

- Visibility order: outbox rows are taken to become visible in position order; `Relay.LateRowKeepsOrderIff` says exactly what
  a late row breaks.
- Topic: one partition, as the relay verifies at start-up; the advisory lock is not assumed to be exclusive, since the order
  does not need it. Retention, compaction and rebalancing callbacks of Kafka are not modelled; overlapping sessions are.
- Isolation: a transaction is one atomic step that commits or rolls back; row locks, session handling and isolation anomalies
  are not modelled.
- Numbers: floating-point scores and seconds are reals, timestamps are integers or reals, so rounding is not modelled.
- Hashing and formats: SHA-256 and JSON serialization are taken as injective; UTF-8 decoding, JSON parsing and schema
  validation are given as outcomes.
- Redis: a key is taken to exist up to and including its expiry instant. Redis errors fail open, and no bound holds across them.
- Fresh tokens: `Jobs.SupersededForever`, `Evaluation.SpentForever`, `Relay.LeaseProtects` and the full-batch promise of
  `OutboxRelay.OutboxRelay.RunOnce` ask that a token is not drawn twice; the other theorems do not.
- Collation: dimension names are ordered by code point; the seven names in use are ordered the same way by the usual
  collations, since no two of them first differ at an underscore.
- `Timing.RetryMeetsDeadline`, and all deadline results with it, take each attempt to last at most its worst-case bound and
  each wait to last as asked or be cut short by shutdown; admission control does not interrupt a running call.
- `OutboxRelay.OutboxRelay.RunOnce`: does not model the recorded publish error class, which no decision reads.
- `ConsumerRunner.ConsumerRunner.PollLoop`: runs until shutdown is noticed at some given check, for every such check; a loop
  that never ends is covered by its finite prefixes.
- `JobService.Worker.RunOnce`: takes the job the claim query picks as a parameter, so creation-time order and skipped locks of
  `claim_next`, and the binding of evaluation profiles, are not modelled.
- `JobService.ReviewService.SubmitDecision`: whether a failed evaluation run and a resumable checkpoint exist are parameters;
  the checks that the actor is non-blank and the decision known come before the model.
- `Chunking.ChunkText`: the content hash of a chunk is left out.
- Canonical payloads of fake and live semantic grading: only the skipped mode is modelled.
- `finalize_failure`'s sanitizing of error names, plain-text normalization, embeddings, retrieval and lexical graders: easy or
  float-bound members.
- Dead-letter replay service, retention tiers, recovery policy, workflow graph, tools, advisor package, HTTP layer, logging,
  metrics, tracing, heartbeats and all adapters to foreign libraries: not part of this model.
