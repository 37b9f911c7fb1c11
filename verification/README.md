# Verified model of the agent task system

The repository's backend runs agent tasks that must survive crashes, lost leases, repeated deliveries and
impatient users.  Its guarantees come from a handful of hand-written protocols and algorithms.  This project
models them in Dafny, with the same branches, constants and error paths, and proves what they are for.

| file | what it models |
|---|---|
| `TaskRows.dfy` | the task row: status table, fencing check, and the effect of every commit, as functions and as a class of mutable fields proved against them |
| `TaskProtocol.dfy` | all interleavings of claims, heartbeats, stalls, crashes, tool dispatches, retries, recovery and cancellation on one row |
| `TaskOutcomes.dfy` | what each step does to the row, told by its columns, and when tasks are claimed |
| `LocalJobs.dfy` | the registry of jobs inside one scheduler process |
| `ScheduleTimes.dfy` | daily runs over an abstract time zone, and interval grids |
| `Schedules.dfy` | dispatch, pause, resume and manual run of a schedule |
| `ScheduleRuns.dfy` | one schedule together with every task it queued, over all runs; built on `TaskProtocol` |
| `Memory.dfy` | incremental compaction of a conversation behind a durable cursor |
| `SearchChain.dfy` | the search-fetch queue split over a chain of stored approvals, and the approval record |
| `Chunking.dfy`, `HeadingContexts.dfy` | overlapping chunks and the section path of each |
| `RankFusion.dfy`, `DiverseSelection.dfy` | reciprocal rank fusion and greedy diverse selection |
| `ContextBudget.dfy`, `OutputBounds.dfy` | character budgets for prompts and for nested tool output |
| `EventStream.dfy`, `EventMessages.dfy` | the browser client's incremental reader of server-sent events, and the way from messages over the wire to events |
| `AuthLimits.dfy` | the fixed-window admission limiter and its cleanup |
| `Options.dfy` | nullable columns, error results and a few facts about sequences |

Code that changes state in place is a class whose methods state their whole new state as a function of the old
one; the protocol theorems are about those functions.  A commit under a row lock is one atomic step.  Times are
integers, tokens are numbers that are never issued twice, and a worker may stop between any two steps and go on
later.

Findings where the code and its own tables or comments differ, each proved below:

- `TASK_STATUS_TRANSITIONS` does not list running to queued.  A step leaves that table exactly when it is a retry by
  the token's owner, or a sweep, that finds no barrier, attempts left and time left
  (`TaskProtocol.StatusChangesFollowTable`); both kinds are reached (`TaskProtocol.TableIsLeft`).
- Ending an attempt checks the token but not the lease, so a late failure or retry is accepted until someone
  else took the token (`TaskProtocol.FinishAcceptedUntilTokenTaken`, reached in
  `TaskProtocol.FinishAfterLeaseAccepted`).
- A tool may physically be dispatched after its worker lost the row, exactly when a success, failure, retry, recovery
  or cancellation was committed after its barrier (`TaskProtocol.DispatchInTimeIff`, reached in
  `TaskProtocol.DispatchCanOutliveLease`).  A worker that dispatches before the end of the lease its barrier left, and
  has neither ended the attempt nor been cancelled, is never late (`TaskProtocol.DispatchGuard`).  What is kept is that all dispatches of a task carry one token
  (`TaskProtocol.OneTokenDispatches`).
- The limiter admits up to one less than twice the limit in a sliding window, and reaches that bound for every limit and
  every window of at least two time units; the plain limit holds in every sliding window exactly for limits up to
  one or windows up to one time unit (`AuthLimits.SlidingWindow`, `AuthLimits.SlidingWindowIsTight`,
  `AuthLimits.PlainLimitIff`).
- Under every cut into reads the stream reader delivers the events of one pass over the whole stream exactly for
  streams that have no carriage return directly before a carriage return and line feed pair
  (`EventStream.EventsOfOnePassIff`).  With such a triple between them, any two messages arrive as two events under
  one cut and as one joined text under another (`EventMessages.TripleJoinsMessages`).

## Model

| member | source | states |
|---|---|---|
| `TaskRows.TaskRecord.Claim` | backend/app/services/agent_task_runner.py:111-149 | a claim succeeds if and only if the row is queued, due, has a prompt, attempts and time left and no barrier, told by its columns; a queued row that is not due is untouched, one that fails another test is failed at once |
| `TaskRows.TaskRecord.Start` | backend/app/services/agent_task_runner.py:132-148 | the field updates of a claim give the running row, with the lease cut to the deadline and a stored conversation and first start kept |
| `TaskRows.TaskRecord.LockLease` | backend/app/services/task_lease.py:36-48 | the lock is granted exactly to the running row's own token and, for live checks, strictly before lease and deadline |
| `TaskRows.TaskRecord.BlockReplay` | backend/app/services/tool_executor.py:78-85 | the barrier is stored exactly for a live owner, and its first time is never overwritten |
| `TaskRows.TaskRecord.Heartbeat` | backend/app/services/agent_task_runner.py:271-280 | only a live owner renews, and never past the deadline |
| `TaskRows.TaskRecord.RecordEvent` | backend/app/services/agent_task_runner.py:219-231 | only a live owner records, progress never falls and events alone never pass 95 |
| `TaskRows.TaskRecord.Succeed` | backend/app/services/agent_task_runner.py:184-198 | only a live owner completes the task, giving up token and lease |
| `TaskRows.TaskRecord.FinishFailed` | backend/app/services/agent_task_runner.py:233-240 | a failed row keeps neither token, lease nor a further attempt |
| `TaskRows.TaskRecord.FinishOrRetry` | backend/app/services/agent_task_runner.py:242-269 | for the owner of the token, whatever its lease: a barrier or a retry that would not start before the deadline fails the task, else a retryable error with attempts left queues it again |
| `TaskRows.TaskRecord.Recover` | backend/app/services/task_scheduler.py:165-185 | exactly running rows without a live lease are taken; they are queued again only without a barrier, with attempts and time left, and are stale otherwise |
| `TaskRows.TaskRecord.Cancel` | backend/app/api/routes/tasks.py:202-225 | accepted exactly where the status table allows it; the token is taken away and an earlier end time kept |
| `TaskRows.TaskRecord.constructor` | backend/app/api/routes/tasks.py:110-125 | a new agent task is queued with no attempt made, no token and no barrier |
| `TaskProtocol.OneTokenDispatches` | backend/app/services/tool_executor.py:78-94 | in every interleaving all tools ever dispatched for a task, and all barriers and saved answers, carry one and the same execution token |
| `TaskProtocol.NoClaimAfterEffect` | backend/app/services/agent_task_runner.py:113-149 | after a dispatch, a barrier or a saved answer no continuation ever queues the task, makes another attempt or issues another token |
| `TaskProtocol.BlockedForever` | backend/app/services/task_scheduler.py:172-184 | the same from any state satisfying the invariant whose barrier is up: claim, retry and recovery all refuse it |
| `TaskProtocol.TokenBlocks` | backend/app/services/task_lease.py:36-48 | the commits made under one token are one contiguous block of the task's history that opens with the claim and ends at the first success, failure, retry, recovery or cancellation |
| `TaskProtocol.LiveWritesInTime` | backend/app/services/task_lease.py:40-47 | every commit that passed a live check came strictly before the lease its token held, and no lease ever stored reached past the deadline stored with it |
| `TaskProtocol.MessagesOnce` | backend/app/agent/runtime.py:1489-1510 | however many attempts run, a task stores at most one message per conversation and role |
| `TaskProtocol.ConversationReused` | backend/app/services/agent_task_runner.py:132-137 | once a conversation is stored, every later attempt uses that one |
| `TaskProtocol.BoundedLife` | backend/app/services/agent_task_runner.py:242-269 | a task with m permitted attempts is claimed at most m times and changes its status at most 2m times, in every run |
| `TaskProtocol.AttemptBudgetFixed` | backend/app/services/agent_task_runner.py:142 | no step ever changes the permitted number of attempts |
| `TaskProtocol.StatusChangesCost` | backend/app/services/task_scheduler.py:165-185 | every status change strictly lowers a nonnegative measure of attempts left and status, and terminal statuses are never left |
| `TaskProtocol.StatusChangesFollowTable` | backend/app/models/task.py:37-55 | a step leaves the published table if and only if, on the row before it, it is a retryable end by the token's owner or a sweep of an expired lease, with no barrier, attempts left and time left; it then takes a running task to queued |
| `TaskProtocol.TableIsLeft` | backend/app/services/agent_task_runner.py:252-258 | two reachable steps outside the table, a retry and a recovery |
| `TaskProtocol.RowsConsistent` | backend/app/services/agent_task_runner.py:114-149 | in every reachable state: running exactly while a token and a lease are stored, the lease within the deadline; queued only with attempts left, without barrier and due before the deadline |
| `TaskProtocol.StepKeepsInv` | backend/app/services/agent_task_runner.py:111-287 | the invariant behind these results is kept by every step of every worker, the sweep and the cancel endpoint |
| `TaskProtocol.ReachableInv` | backend/app/api/routes/tasks.py:110-125 | it holds in every state reachable from a row as the create paths insert it |
| `TaskProtocol.ToolEventCheckSuffices` | backend/app/services/tool_executor.py:434-439 | the weaker check before a tool event, which ignores the deadline, decides the same as the full fencing check in every reachable state |
| `TaskProtocol.FinishAcceptedUntilTokenTaken` | backend/app/services/agent_task_runner.py:242-269 | an end of attempt is accepted exactly while the row still stores its token, however long ago the lease ran out, and takes it away |
| `TaskProtocol.FinishAfterLeaseAccepted` | backend/app/services/agent_task_runner.py:243-258 | a legal run in which the lease has run out before the end of the attempt, which is accepted and queues the task |
| `TaskProtocol.DispatchInTimeIff` | backend/app/services/tool_executor.py:78-94 | in every reachable state a worker between its barrier and its dispatch still owns the row if and only if nothing that ends an attempt was committed after that barrier |
| `TaskProtocol.DispatchCanOutliveLease` | backend/app/services/tool_executor.py:85-94 | a concrete run in which a worker dispatches after the sweep has made its task stale |
| `TaskProtocol.SweepTakesExpiredLeases` | backend/app/services/task_scheduler.py:155-168 | over every run, each recovery directly follows a commit of the token it takes away and comes no earlier than the end of the lease that commit left |
| `TaskProtocol.DispatchGuard` | backend/app/services/tool_executor.py:78-94 | after a barrier its worker owns the row as long as no sweep ran at or after the end of the lease the barrier left and the attempt was neither ended nor cancelled; heartbeats only lengthen that lease |
| `TaskProtocol.RunKeepsOrder` | backend/app/services/agent_task_runner.py:271-280 | along every run only the running token writes until an exit, and its lease never shrinks |
| `TaskOutcomes.ClaimStartsIff` | backend/app/services/agent_task_runner.py:113-149 | a claim starts a task if and only if it is queued, has a prompt, is due, has time and attempts left and no barrier |
| `TaskOutcomes.ClaimFailsIff` | backend/app/services/agent_task_runner.py:118-131 | it fails the task if and only if it is queued without prompt, time or attempts or with a barrier; a task that is merely not due is left alone |
| `TaskOutcomes.ClaimColumns` | backend/app/services/agent_task_runner.py:132-148 | the columns of the claimed row: lease the earlier of its full length and the deadline, deadline 900 seconds by default, conversation and first start kept |
| `TaskOutcomes.LiveWriteAcceptedIff` | backend/app/services/task_lease.py:40-47 | a worker's write is accepted if and only if the task runs under its token with lease and deadline ahead, and changes nothing otherwise |
| `TaskOutcomes.LiveWriteColumns` | backend/app/services/agent_task_runner.py:184-198 | what heartbeat, event, barrier and success change, and that they change nothing else |
| `TaskOutcomes.SaveStores` | backend/app/agent/runtime.py:1489-1510 | an accepted message is stored exactly once, and only an answer raises the barrier |
| `TaskOutcomes.FinishOutcome` | backend/app/services/agent_task_runner.py:242-269 | a failed attempt is retried if and only if its token is the row's and there is no barrier, a retryable error, attempts left and the retry before the deadline; the owner fails the task otherwise, and nobody else changes it |
| `TaskOutcomes.RecoveryOutcome` | backend/app/services/task_scheduler.py:165-185 | the sweep touches exactly running tasks whose lease is over; they are queued again if and only if there is no barrier and attempts and time are left |
| `TaskOutcomes.CancelOutcome` | backend/app/api/routes/tasks.py:209-220 | exactly queued and running tasks are cancelled; the other ended ones keep every column |
| `TaskOutcomes.BackoffDoubles` | backend/app/services/agent_task_runner.py:246-247 | the back-off starts at the base, doubles with every attempt and stops at an hour |
| `TaskOutcomes.NotClaimedBeforeDue` | backend/app/services/agent_task_runner.py:130-131 | over every run the first claim comes no earlier than the inserted time, a claim behind a retry at least half of min(base * 2^(attempts - 1), 3600) later, and one behind a sweep not before it |
| `TaskOutcomes.ProgressMeaning` | backend/app/services/agent_task_runner.py:228 | over every run progress is 100 exactly for a task that succeeded and lies between 0 and 95 otherwise |
| `LocalJobs.Scheduler.constructor` | backend/app/services/task_scheduler.py:42-47 | the concurrency is at least one and the registry starts empty |
| `LocalJobs.Scheduler.Enqueue` | backend/app/services/task_scheduler.py:74-90 | a job is started exactly when the task has no live job and the registry has room; a refusal changes nothing |
| `LocalJobs.Scheduler.JobFinished` | backend/app/services/task_scheduler.py:134-136 | the callback of an ended job removes its own entry only; a newer job of the same task stays registered |
| `LocalJobs.LiveJobsBounded` | backend/app/services/task_scheduler.py:74-90 | no task ever has two live jobs and at most twice the concurrency are live at all |
| `ScheduleTimes.NextDailyRun` | backend/app/services/task_schedules.py:188-208 | the search over the next 370 local dates finds the first wall time that exists and lies ahead, or raises |
| `ScheduleTimes.NextDailyIsLeast` | backend/app/services/task_schedules.py:188-208 | over any zone of this kind, the next run is the least instant after now at which the local clock first shows the wall time on some date |
| `ScheduleTimes.NextDailyFails` | backend/app/services/task_schedules.py:199-208 | it raises if and only if no later daily occurrence lies within the next 370 local dates |
| `ScheduleTimes.ChangesAreFoldZero` | backend/app/services/task_schedules.py:200-204 | the hypotheses on zones hold for every zone given by any list of offset changes, forward or back, of which none sets the clock back behind where the one before had set it |
| `ScheduleTimes.IntervalCoalesces` | backend/app/services/task_schedules.py:63-73 | for a due interval schedule the dispatched occurrence is the greatest grid time up to now, the separately computed next run the least one after now, and they are one interval apart |
| `ScheduleTimes.NextFollowsLatest` | backend/app/services/task_schedules.py:138-144 | the two computations, written differently in the two places, always differ by one interval |
| `Schedules.LatestDueOccurrence` | backend/app/services/task_schedules.py:138-150 | the loop computes the coalesced occurrence, and raises for a bad interval, a missing time or no next run |
| `Schedules.LatestDueDaily` | backend/app/services/task_schedules.py:145-150 | a due daily schedule is dispatched for a daily occurrence between its stored run and now, with no daily occurrence of the last three days between it and now |
| `Schedules.DispatchMovesOn` | backend/app/services/task_schedules.py:98-124 | for every kind the dispatched occurrence lies between the stored run and now, and the next run after now; none exactly for a one-time schedule |
| `Schedules.IntervalDue` | backend/app/services/task_schedules.py:138-144 | a due interval schedule is dispatched for the greatest time of its grid up to now, however many were missed, and its next run is one interval after that |
| `Schedules.DailyNext` | backend/app/services/task_schedules.py:74-75 | the next run of a daily schedule is its least daily occurrence after now |
| `Schedules.NoTimesIff` | backend/app/services/task_schedules.py:59-76 | a schedule that is not daily has no times exactly for an interval missing or under a minute or an unknown kind; a one-time one is dispatched for its stored run and has no next |
| `Schedules.DispatchOutcome` | backend/app/services/task_schedules.py:98-124 | an occurrence is queued if and only if nothing is active and it is not later than the grace; when it counts as missed, skipped or invalid; the schedule moves on in every case but the invalid one, which is disabled where it stands |
| `Schedules.InitialRunMeaning` | backend/app/services/task_schedules.py:30-56 | the first run lies ahead: a one-time run only if it does, an interval's start if it does and else one interval from now, a daily one at its least occurrence |
| `Schedules.EnableMeaning` | backend/app/api/routes/task_schedules.py:92-108 | pausing changes only the flag; resuming keeps a run that lies ahead and recomputes one that has passed, refused exactly when there is none |
| `Schedules.ManualRunKeepsTimes` | backend/app/api/routes/task_schedules.py:126-134 | a manual run never changes when the schedule is due |
| `Schedules.ScheduleRecord.DispatchOne` | backend/app/services/task_schedules.py:98-124 | one row: an invalid one is disabled, a late one missed, an overlapping one skipped, and otherwise exactly its occurrence is queued and recorded |
| `Schedules.ScheduleRecord.SetEnabled` | backend/app/api/routes/task_schedules.py:92-108 | resuming with a passed run recomputes it or is refused with nothing stored; pausing keeps it |
| `Schedules.ScheduleRecord.MarkRun` | backend/app/api/routes/task_schedules.py:126-134 | a manual run leaves the next timed run and the enabled flag as they are |
| `Schedules.DispatchDueSchedules` | backend/app/services/task_schedules.py:96-127 | every schedule of a batch is decided as if it were alone, whatever happened to the others, and queues at most one occurrence |
| `Schedules.OthersUntouched` | backend/app/services/task_schedules.py:130-135 | queuing tasks for other schedules never makes a schedule look active |
| `ScheduleRuns.TimedOccurrencesIncrease` | backend/app/services/task_schedules.py:98-124 | over every run of ticks, pauses, resumes, manual runs and task steps the occurrences queued by the clock strictly increase, so idempotency keys never collide, and none lies in the future |
| `ScheduleRuns.OnceAtMostOnce` | backend/app/services/task_schedules.py:109-124 | a one-time schedule is queued by the clock at most once, at its stored time, however often it is paused and resumed |
| `ScheduleRuns.DailyOncePerDate` | backend/app/services/task_schedules.py:145-150 | a daily schedule is queued by the clock at most once per local date, always at its wall time |
| `ScheduleRuns.NoOverlap` | backend/app/services/task_schedules.py:115-135 | in every reachable state a schedule has at most one queued or running task, across timed dispatch, manual runs, retries, recovery and cancellation |
| `ScheduleRuns.NeverReactivated` | backend/app/models/task.py:51-54 | no step of any worker, the sweep or the cancel endpoint makes an ended task active again |
| `ScheduleRuns.TickQueuesIff` | backend/app/services/task_schedules.py:84-124 | a tick queues one task, due at the occurrence and living fifteen minutes, if and only if the schedule is enabled and due, its times are known, no task of it is active and the occurrence is within the grace; a paused one is left alone |
| `ScheduleRuns.ManualQueuesIff` | backend/app/api/routes/task_schedules.py:120-134 | a manual run queues one task due at once if and only if none is active, never as a timed occurrence |
| `ScheduleRuns.NeverBeforeItsTime` | backend/app/services/task_schedules.py:169-175 | over every run no task of a schedule is claimed before the time it was queued for |
| `Memory.TakeBatch` | backend/app/services/memory.py:147-169 | the loop takes the specified batch and cursor, resuming only the message the cursor stands on |
| `Memory.ConversationRecord.Update` | backend/app/services/memory.py:48-117 | cursor, summary and covered text change together or not at all; a failed or rejected answer changes nothing |
| `Memory.ConversationRecord.Disable` | backend/app/api/routes/memory.py:54-56 | disabling a summary sets its end once and leaves the cursor |
| `Memory.ConversationRecord.Delete` | backend/app/api/routes/memory.py:82-88 | deleting a summary leaves a stored cursor alone and otherwise stores a forget boundary |
| `Memory.SourceStartsAtCursor` | backend/app/services/memory.py:119-145 | the query returns a contiguous run of the eligible messages that starts exactly where the cursor stands |
| `Memory.BatchCovers` | backend/app/services/memory.py:147-169 | a batch continues the covered text without gap or repeat, stays within the limit, takes something if there is anything, and stops only at the limit or at the end of the page |
| `Memory.UpdateCovers` | backend/app/services/memory.py:59-117 | from any cursor, an update keeps exact coverage and moves the cursor on, never back; it changes something if and only if it is accepted and a message lies between the cursor and the recent ones; it takes one to `maxChars` characters, fewer than `maxChars` only when a page of fifty or all old messages were used, and nothing of the recent messages |
| `Memory.CoverageKept` | backend/app/services/memory.py:35-46 | exact coverage survives every run of appends, updates with any limits, failures, disables and deletes; the covered text only grows at its end, the stored count says where it ends, and the cursor is never behind where it was |
| `Memory.FirstUpdateCovers` | backend/app/services/memory.py:61-75 | without a cursor the first update starts right after the latest retirement or forget boundary, at the very first message if there is none |
| `Memory.ExactCoverage` | backend/app/services/memory.py:119-169 | over every run of a conversation without a position yet, with any legacy summaries or forget boundary, the concatenated batches are the text of the messages from right behind the boundary in force at the first successful update up to the cursor, in order, and the stored count is the number of messages consumed completely |
| `Memory.FromTheFirstMessage` | backend/app/services/memory.py:61-75 | for a conversation that starts without summaries that coverage begins at its very first message, whatever is disabled or deleted in between |
| `Memory.RecentNeverCompacted` | backend/app/services/memory.py:125-131 | over every run with a fixed number of recent messages, those newest messages are never compacted, not even in part |
| `Memory.EligibleMeaning` | backend/app/services/memory.py:120-124 | exactly the non-empty messages of users and assistants count, in order |
| `Memory.BoundaryMeaning` | backend/app/services/memory.py:61-74 | coverage without a position starts behind exactly the messages no later than the forget boundary or, without one, than the end of some retired summary |
| `Memory.UpdateKeepsSummaries` | backend/app/services/memory.py:81-113 | an update adds one active summary if there is none and otherwise none, and retires none |
| `SearchChain.SearchResultFetchTargets` | backend/app/agent/runtime.py:944-967 | the loop with its set of seen addresses chooses the specified targets |
| `SearchChain.ChosenTargets` | backend/app/agent/runtime.py:944-967 | the targets are distinct http pages of the results, at most three; with fewer than three every http page is among them up to letter case |
| `SearchChain.TargetsConserved` | backend/app/agent/runtime.py:744-795 | in every reachable state the pages handled, then the pending one, then the saved queue are the original target list in order, for a pending approval as for a working run |
| `SearchChain.EachPageAtMostOnce` | backend/app/agent/runtime.py:647-692 | over the whole chain of approvals each distinct page is executed at most once, and at most three in all |
| `SearchChain.ApprovalsConsumedOnce` | backend/app/services/tool_approvals.py:88-102 | no two runs consume the same approval, and at most one run or pending approval can continue the chain |
| `SearchChain.StatusesOnlyMoveForward` | backend/app/services/tool_approvals.py:111-140 | every step moves an approval only from pending to approved, cancelled or expired, and from approved to completed or interrupted; its content never changes |
| `SearchChain.RunStartsIff` | backend/app/services/tool_approvals.py:88-117 | a run starts if and only if a matching confirmation reaches a pending approval before it expires; it takes over what that approval stored and leaves it approved |
| `SearchChain.DecisionOutcome` | backend/app/services/tool_approvals.py:104-117 | a late confirmation or cancellation of a pending approval makes it expired and does nothing else; a mismatch or a decision on a decided one changes nothing |
| `SearchChain.LogGrowsIff` | backend/app/agent/runtime.py:744-795 | a page is handed to the tool exactly by the confirmed fetch of a resumed run or by a queued fetch that needs no confirmation |
| `SearchChain.FetchOutcome` | backend/app/services/tool_approvals.py:24-56 | a fetch that needs confirmation stops the run there, and a pending approval for exactly that page and the rest of the queue is stored |
| `SearchChain.EndOutcome` | backend/app/agent/runtime.py:269-293 | a finished run completes its approval; a failed one interrupts it if it was still approved and the cleanup got through |
| `SearchChain.ExecutesOnlyApproved` | backend/app/agent/runtime.py:227-268 | in every reachable state a confirmed page handed to the tool is the page of the approval that was approved for that run |
| `SearchChain.ChosenAreFirst` | backend/app/agent/runtime.py:944-967 | the targets are the first three results that are http pages and the first of their spelling, in order |
| `SearchChain.LoopIsChainSteps` | backend/app/agent/runtime.py:750-795 | the runtime's loop over the queue is a sequence of chain steps and leaves exactly the queue and calls the chain records |
| `SearchChain.ExecutionState.FetchSearchTargets` | backend/app/agent/runtime.py:750-795 | the loop pops and records pages until the queue is empty or one needs confirmation, which is recorded but not fetched |
| `SearchChain.ApprovalMessage.constructor` | backend/app/services/tool_approvals.py:24-56 | a new approval is pending and its own call says so |
| `SearchChain.ApprovalMessage.Finish` | backend/app/services/tool_approvals.py:119-131 | afterwards every recorded call of this approval mirrors its status, and all other calls are untouched |
| `SearchChain.ApprovalMessage.Claim` | backend/app/services/tool_approvals.py:88-117 | it succeeds if and only if the approval matches, is pending and has not expired; a matching late one becomes expired, and every other refusal leaves the status |
| `SearchChain.ApprovalMessage.Cancel` | backend/app/services/tool_approvals.py:104-117 | a pending approval is cancelled in time and expires when it is too late; cancelling twice is accepted, and a decided approval keeps its status |
| `SearchChain.ApprovalMessage.Interrupt` | backend/app/services/tool_approvals.py:133-140 | only an approved run is marked interrupted |
| `Chunking.SplitSpans` | backend/app/services/rag.py:466-490 | it raises exactly for bad sizes and otherwise gives the specified chunks |
| `Chunking.CollectSpans` | backend/app/services/rag.py:475-490 | the loop terminates with exactly those chunks for every text and all good sizes |
| `Chunking.SplitTilesAndRejoins` | backend/app/services/rag.py:475-490 | chunks are verbatim slices of at most `size` characters, consecutive ones overlap by exactly `overlap`, and dropping that overlap and concatenating gives the text back |
| `Chunking.CutIsBestBoundary` | backend/app/services/rag.py:479-485 | a chunk ends behind the last occurrence of the best separator that occurs in its window, or at the size limit if none does |
| `Chunking.ChunksEndWell` | backend/app/services/rag.py:475-488 | every chunk of a split ends behind the last occurrence of the best of the five separators in its window, at the size limit if the window has none, and at the end of the text exactly when the size reaches it |
| `Chunking.SplitInOrder` | backend/app/services/rag.py:477-489 | chunk starts strictly increase, as the pass over the headings relies on |
| `HeadingContexts.ChunkContexts` | backend/app/services/rag.py:543-559 | one pass with a cursor and a stack gives every chunk the same labels as recomputing them from scratch |
| `HeadingContexts.StackIsOpen` | backend/app/services/rag.py:546-551 | the stack built heading by heading is exactly the list of headings that no later one of equal or smaller level closes |
| `HeadingContexts.ContextMeaning` | backend/app/services/rag.py:545-557 | a chunk's sections are exactly the open headings at or before its start, with strictly increasing levels, followed by the contiguous run, in text order, of exactly the headings that start inside it |
| `HeadingContexts.LabelsMeaning` | backend/app/services/rag.py:552-557 | the labels of a chunk are the title, then the texts of the open sections, then those of the headings inside, in that order |
| `HeadingContexts.DistinctMeaning` | backend/app/services/rag.py:558 | every label is kept once, in the order of first appearance |
| `RankFusion.AddChannel` | backend/app/services/rag.py:497-521 | one channel adds to every chunk the reciprocal of its competition rank, each chunk once however often it is cited |
| `RankFusion.FuseBoth` | backend/app/services/rag.py:495-531 | the result is the best `limit` chunks of the union, each once, in fused order, with their scores and ranks; every chunk left out comes after all of them |
| `RankFusion.Fuse` | backend/app/services/rag.py:492-494 | when one list is empty the other is used unchanged up to the limit |
| `RankFusion.DominanceRespected` | backend/app/services/rag.py:518-531 | a chunk ranked no worse in both lists and strictly better in one always comes earlier |
| `RankFusion.SortSorts` | backend/app/services/rag.py:523-530 | the order by score, keyword rank and key is total and sorting by it loses nothing |
| `RankFusion.RankMeaning` | backend/app/services/rag.py:499-507 | a citation's rank is the place at which its run of neighbours with close scores begins |
| `RankFusion.CloseMeaning` | backend/app/services/rag.py:503-505 | close means a difference of at most a millionth of either score, or of 1e-8 |
| `RankFusion.ChannelRankMeaning` | backend/app/services/rag.py:508-511 | a chunk has the rank of its first citation in a list |
| `RankFusion.FusedNumbers` | backend/app/services/rag.py:518-521 | a fused score is the sum of 1 / (60 + rank) over the lists that hold the chunk |
| `RankFusion.OrderInNumbers` | backend/app/services/rag.py:523-530 | the fused order in numbers: score, then keyword rank with a missing one last, then document and chunk |
| `DiverseSelection.DiverseIndices` | backend/app/services/retrieval_reranker.py:97-128 | the indices are distinct, the best ranked item comes first, no two selected items of one context have similarity 0.95 or more, fewer than the limit are returned only when every item left out repeats a selected one, and each item was the best-scoring admissible one when chosen |
| `DiverseSelection.DiverseTexts` | backend/app/services/retrieval_reranker.py:87-128 | the same from the texts and contexts themselves; no two selected texts are equal after cleaning within one context |
| `DiverseSelection.GreedyIsUnique` | backend/app/services/retrieval_reranker.py:122-126 | the selection is determined: a shorter one, for a smaller limit, is the beginning of a longer one |
| `DiverseSelection.GreedyIsDiverse` | backend/app/services/retrieval_reranker.py:99-127 | the indices are distinct, the best ranked item comes first, and no two selected items of one context have similarity 0.95 or more |
| `DiverseSelection.RedundancyBounds` | backend/app/services/retrieval_reranker.py:102-109 | the greatest similarity reaches the threshold exactly when some selected item does |
| `DiverseSelection.EqualTextsRepeat` | backend/app/services/retrieval_reranker.py:93-96 | texts that are equal after cleaning always count as repetitions within one context, however short |
| `DiverseSelection.ShinglesMeaning` | backend/app/services/retrieval_reranker.py:93-96 | the shingles of a text are exactly its substrings of three characters, or the text itself if it is shorter |
| `DiverseSelection.SimilarityMeaning` | backend/app/services/retrieval_reranker.py:104-105 | similarity is the share of common shingles, 1 exactly for equal and 0 exactly for disjoint sets; the threshold is 19 of 20 |
| `DiverseSelection.RedundancyIsGreatest` | backend/app/services/retrieval_reranker.py:102-109 | redundancy is the greatest similarity with a selected item, 0 if nothing is selected |
| `DiverseSelection.ScoreMeaning` | backend/app/services/retrieval_reranker.py:121-122 | scores differ by seven tenths of the difference in rank share less three tenths of that in redundancy, so a lower redundancy always raises the score and rank decides between equals |
| `ContextBudget.FitContext` | backend/app/agent/context_budget.py:11-47 | it raises exactly for a prompt over the budget; otherwise the history kept is the longest recent run within half of the rest, or within all of it without context, the total stays within the budget, and the three statistics are exactly the characters and messages kept and left out |
| `ContextBudget.KeptIsLongest` | backend/app/agent/context_budget.py:19-25 | the kept history is the longest run of most recent messages within its share |
| `ContextBudget.TreatCutsOnce` | backend/app/agent/context_budget.py:30-41 | at most one text is cut, to fewer characters than it has, and all texts before it are left out |
| `ContextBudget.TreatFits` | backend/app/agent/context_budget.py:30-41 | the kept texts stay within what remained, and while anything is left no text left out would still have fitted |
| `ContextBudget.TreatMeaning` | backend/app/agent/context_budget.py:30-40 | every text is kept whole if it fits into what the later ones leave, cut to fill that if more than the marker's 47 characters are left, and omitted otherwise or when nothing is left |
| `OutputBounds.Limiter.Reduce` | backend/app/services/tool_executor.py:256-285 | the recursive procedure with its shared budget and flag computes the specified bounded value, remaining budget and flag |
| `OutputBounds.OutputWithinLimit` | backend/app/services/tool_executor.py:254-287 | for every nested value and limit the strings and keys kept have at most `limit` characters, nesting is at most seventeen deep, and an unflagged result equals the input with tuples as lists |
| `OutputBounds.KeptMeaning` | backend/app/services/tool_executor.py:254-287 | what is kept is a part of the output; an output nested at most sixteen deep that fits with sixteen characters to spare is kept whole, and a flagged one leaves fewer than sixteen characters and one key unspent |
| `OutputBounds.LimitMeaning` | backend/app/services/tool_executor.py:250-293 | a text becomes its longest prefix within the limit; any other output is unchanged up to tuples or carries the mark |
| `OutputBounds.LimitToolOutput` | backend/app/services/tool_executor.py:250-293 | text is cut to the limit, other output is bounded, and gets its markers exactly when the bound reports a loss |
| `OutputBounds.ErrorStatusKept` | backend/app/services/tool_executor.py:288-292 | limiting never turns a failed tool call into a successful one, nor the reverse |
| `EventStream.ReadEventStream` | frontend/src/api.ts:374-401 | the delivered events are those of normalising, splitting and parsing the whole stream at once, for every stream without the triple, and the reader fails exactly when none of them is terminal |
| `EventStream.CutsDoNotMatter` | frontend/src/api.ts:383-389 | for such streams the delivered pieces are the same however the stream is cut into reads |
| `EventStream.EventsOfOnePassIff` | frontend/src/api.ts:383-394 | and for no others: for every parser and under every cut the delivered events are those of one pass if and only if no carriage return stands directly before a pair |
| `EventStream.PiecesOfOnePassIff` | frontend/src/api.ts:383-389 | the same equivalence for the pieces handed to the parser |
| `EventStream.ReadContinues` | frontend/src/api.ts:386-389 | scanning the held-back piece with the next read continues the scan of everything read so far |
| `EventStream.SplitIsScan` | frontend/src/api.ts:388 | splitting at blank lines is a scan that can be continued |
| `EventStream.JoinSplit` | frontend/src/api.ts:388 | joining the pieces with blank lines gives the text back |
| `EventMessages.ParseSseChunk` | frontend/src/api.ts:403-425 | the last event line names the event, all data lines join to its data, and a piece without data or with data that does not decode gives no event |
| `EventMessages.BodyParses` | frontend/src/api.ts:403-420 | the parser recovers name and payload of every well-formed message |
| `EventMessages.MessagesArrive` | frontend/src/api.ts:374-425 | round trip: whatever the line ends and however the stream is cut, the reader delivers exactly the events of the messages sent, in order |
| `EventMessages.TripleJoinsMessages` | frontend/src/api.ts:383-425 | a family of streams whose events depend on the cut: two messages with a triple between them give both events when cut behind it, and only what their joined payloads decode to when read at once |
| `AuthLimits.RateTable.Count` | backend/app/services/auth_limits.py:25-38 | an open window counts on with its end unchanged, an ended or missing one starts anew; no other bucket changes, and a refusal asks to wait for the rest of the window, at least a second |
| `AuthLimits.RateTable.Admit` | backend/app/services/auth_limits.py:22-48 | a request is admitted if and only if both buckets have room, told by their rows; over the address limit it is not counted against the account |
| `AuthLimits.RateTable.Cleanup` | backend/app/services/auth_limits.py:40-44 | at most 100 rows vanish, all expired for more than an hour and locked by nobody; the rest is unchanged, none kept is older than one removed, and none is kept at all if fewer than 100 vanish |
| `AuthLimits.SlidingWindow` | backend/app/services/auth_limits.py:25-39 | over every run fewer than twice the limit of one bucket's requests are admitted in any half-open interval as long as the window |
| `AuthLimits.SlidingWindowIsTight` | backend/app/services/auth_limits.py:25-39 | for every limit and every window of at least two time units a run that reaches that bound |
| `AuthLimits.PlainLimitIff` | backend/app/services/auth_limits.py:25-39 | the plain limit holds in every sliding interval of every run if and only if it is at most one or the window is at most one time unit |
| `AuthLimits.TableSlidingWindow` | backend/app/services/auth_limits.py:22-45 | over every run of attempts and cleanups on the shared table, fewer than twice the account limit are admitted to one account, and fewer than twice the address limit from one address, in any such interval |
| `AuthLimits.CleanupIsSweep` | backend/app/services/auth_limits.py:40-44 | every cleanup is one of the deletions such runs allow |
| `AuthLimits.CleanupInvisible` | backend/app/services/auth_limits.py:25-44 | over every run on the shared table, deleting long-expired rows changes no admission decision of any attempt, which reads two buckets |

## Left out

- The database, the event loop, the graph library and HTTP: a commit under a row lock is one atomic step, and calls
  to models, tools and other servers are arbitrary inputs (`reply`, `outcomes`, `available`, `retryable`).
- Error texts, trace ids, result payloads and the list of the last 100 task events.
- Manual (non-agent) tasks and their status updates over the API; idempotency keys of agent tasks created by users.
- Tool audit rows: they are written outside the fencing check and no ordering is claimed for them.
- Summary texts: `Memory` models which text was compacted and when, not what the model wrote; a summary is its end
  time.  The input limit is positive, as the settings require it to be.
- Deletion of a conversation that a task or schedule points to; a message may be saved to any conversation.
- TaskProtocol.LiveWritesInTime: is about the time read under the lock; the commit itself may reach the database
  later, which the code does not guard against either.
- ScheduleRuns.NoOverlap: is about one schedule; schedules share nothing but the batch, which
  `Schedules.DispatchDueSchedules` covers.  The batch query itself (order, limit 100, skipping locked rows) is an
  arbitrary duplicate-free list.
- ScheduleTimes.NextDailyIsLeast: assumes that the local clock read with fold 0 gives the first reading of a wall time
  and that first readings come in the order of the wall times.  Zone data and the text form of the daily time are
  not modelled.
- LocalJobs: starting, cancelling and shutting down the event loop tasks, and the semaphore inside a job.
- Choosing a tool from the text of a request; the chain starts from a list of search results.
- SearchChain.LoopIsChainSteps: covers the loop with the fetch tool present; its absence is the `available` flag of
  the chain's `Fetch` action, which drops the queue.  Background tasks end instead of storing an approval.
- Finding an approval by its plan for old clients that send no approval id; `matches` stands for the comparison of
  the request with the stored plan.
- Cleaning texts before the algorithms run: line ends and outer blanks before chunking, letter case and blanks before
  shingling, trailing punctuation of addresses.
- The heading pattern, and the final cut and joining of labels at 120, 260 and 700 characters.
- DiverseSelection.DiverseIndices: scores are exact reals, so rounding in the last place is not modelled; the same
  holds for `RankFusion.FuseBoth`.  Document ids are integers there.
- OutputBounds.OutputWithinLimit: keys are strings, and mappings that are not dictionaries count as scalars.
- EventMessages.MessagesArrive: comment and ping lines of the stream, byte decoding and the JSON check of an event,
  which is the `decode` parameter.
- AuthLimits.RateTable.Count: one time for the whole statement; the database reads its clock more than once.
- Retrieval queries, vector search, the reranker service, sign-in itself, plugins and all screens.
