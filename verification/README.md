# Lease-based task runtime: a model and its proofs

The platform runs long agent tasks with a PostgreSQL database as the queue. Workers claim queued tasks under
a lease, extend it by heartbeats, write checkpoints and costs gated on it, and end a task by completing,
retrying, dead-lettering or pausing it. A reaper on every worker takes back expired leases, enforces timeouts,
resumes budget pauses and repairs cached counters. This project models those transactions as steps of one
state machine over the shared tables and proves properties of all its runs, together with the components that
share the state: the memory store, the checkpointer, cost accounting, tool routing, the worker's own
bookkeeping and the migration runner.

How it is laid out:

- `Tables`, `Ledger`, `Checkpoints`, `PendingWrites`: the tables and the statements on them.
- `Lifecycle`: the database as a value, every transaction as a step, runs and reachable states. A step whose
  guard fails changes nothing. API calls (submit, cancel, approve, respond, follow-up, resume, redrive, agent
  changes) are steps too, taken from the API service's SQL.
- `RowChanges`, `Outcomes`: who may change a task row, what each transaction writes in its columns, and what
  that leads to on whole runs. `Admission`: the tests of a claim.
- `Invariants`, `EventLog`, `Fencing`, `Leases`, `Deadlines`, `Retries`, `RunningCounts`, `RoundRobin`,
  `HourlyBudget`, `CostConservation`, `WritesOnRuns`, `CheckpointsOnRuns`, `CheckpointListing`: theorems about
  all runs.
- `StaleRetry`, `CountRuns`, `CostRuns`, `HourlyRuns`: concrete runs from an empty database in which a property
  fails.
- `Scans`, `Database`: the reaper's bulk statements, and the worker's transactions as methods of a class over
  mutable tables. Each method is proved to take its step of the state machine, so the theorems apply to it.
- `MemoryRows`, `MemoryStore`, `MemoryRace`: memory upsert and trim, alone, under concurrency, and without the
  lock.
- `Base64`, `Envelope`, `Reweave`, `ToolRouting`, `Usage`, `WorkerSlots`, `Heartbeats`, `Migrations`: the
  attached components.

Identifiers are numbers, times are microseconds, and integers are unbounded, as in Python; the integer columns
are not bounded here. The clock never runs backwards. A transaction is one atomic step except in `MemoryStore`
and `Migrations`, where the interleaving is the point.

## Where code, documentation and expectation differ

The model follows the code. What it then proves or refutes:

- `docs/design-docs/phase-2/track-3-scheduler-and-budgets.md:192-202` asks every path that ends a running task
  to decrement the running count. Cancelling a running task (`TaskRepository.java:231-271`) does not, so the
  count drifts up; the timeout scan decrements for queued tasks too (`reaper.py:84-101`, `264-273`), so it
  drifts down. `RunningCounts.RunStaysExactIff` shows that these are the only two causes. The limit is passed
  exactly when a claim is granted at the limit with the count below the truth (`RunStaysWithinLimitIff`), which
  takes a queued timeout (`LimitHoldsWithoutQueuedTimeouts`). `CountRuns` has a run for each failure.
- A retry uses the counters of its claim (`graph.py:4760-4763`) and the lease guard compares worker ids only.
  If a worker claims a task again beside its own earlier execution, that execution's late retry breaks retry
  accounting, and nothing else does: `Retries.AccountsInOrderIff` is the exact condition over runs,
  `ClaimsCountLosses` says by how much and when the claim bound is passed, `StaleRetry.StaleRetryBreaksAccounts`
  is a run. The same overlap defeats the heartbeat registry, which is keyed by task id (`Heartbeats`).
- Redriving resets the retry count but not the history (`StaleRetry.RedriveKeepsHistory`), so in general the
  history is at least, not exactly, as long as the count (`Retries.RetryCountBounded`).
- A recovery resumes any hourly-paused task of an agent once one of them is due (`reaper.py:348-356`,
  `401-417`); the window guard alone protects the others. The budget check reads the window sum and its oldest
  charge in two statements (`graph.py:4540`, `4563-4569`): when a charge ages out in between, the task is paused
  with a resume time although the window is already below the budget, and may be resumed before it:
  `HourlyRuns.AgingChargeEndsPauseEarly` is a run. `HourlyBudget.PauseHoldsBackIff` is the exact condition for any
  pause, `PromptPauseHoldsBackIff` for one taken at the second reading: that reading still sees the budget used
  up. `NeverSelectedIff` is the same condition for the agents a recovery pass selects.
- `set_cost_and_metadata` takes overwriting to be safe because nothing has accrued on the checkpoint yet
  (`checkpoint_repository.py:110-116`). The loop at `graph.py:3793-3815` overwrites the latest checkpoint once for
  each message of an event that cost something, so all but the last cost are lost: `CostConservation.EventConservesIff`
  is the exact condition, `CostRuns.SecondMessageLosesCost` a run.
- That write matches on checkpoint id and task without the namespace (`checkpoint_repository.py:45-59`), and the
  sandbox mirror on the id alone (`71-79`). `CostConservation.GapAfter` is exact for any number of matching rows,
  `OverwriteConservesIff` and `AdditiveWriteConserves` say when cost is conserved. A write that meets no row cannot
  come from the two callers, which write to a checkpoint they have just read (`ReadCheckpointStaysMatched`). One
  that meets two takes equal ids in two namespaces; nothing in the repository makes those, and
  `CostRuns.SharedIdCountsTwice` shows what the statement would do.
- A claim attempt that fails before it counted anything still lowers the active counter (`poller.py:399-402`), so
  a drain may report idle while a task runs (`WorkerSlots.DrainReportsIdleTooEarly`);
  `WorkerSlots.CounterStaysExactIff` is the exact condition.
- A memory row's creation time is its transaction's start, so "newest" is by start time and not by commit order;
  `MemoryRows.NewestIds` follows that, and the new row is kept whatever its time.

## Model
| member | source | states |
|---|---|---|
| Invariants.LeaseColumnsMeanRunning | services/worker-service/core/reaper.py:33-127 | in every reachable state a task has an owner and an expiry exactly while its status is running |
| Invariants.ExecutorStepsLeaveOnlyRunning | services/worker-service/executor/graph.py:4584-4605 | the budget pause and the human-input pause, which test only the owner, fire only from running under the caller's own lease, and no executor transition touches a task in any other status |
| Invariants.MovesAreLegal | services/worker-service/core/reaper.py:224-295 | every status change of every component raises the version by one, leaves for a different status, records only a true previous status, extends the retry history, and enters running only by claiming a queued task |
| Invariants.MoveEffects | services/worker-service/executor/graph.py:2857-2878 | a status-changing transaction rewrites one task row and appends its one status event, after at most one marker event |
| RowChanges.OnlyTheseChange | services/api-service/src/main/java/com/persistentagent/api/repository/TaskRepository.java:231-612 | status by status, the only steps that may change a task row |
| RowChanges.RowStays | services/api-service/src/main/java/com/persistentagent/api/repository/TaskRepository.java:231-612 | on every run a row stays as it is until one of the steps comes that its status allows to change it |
| RowChanges.RetryWrites | services/worker-service/executor/graph.py:4759-4822 | what a retry writes for any claim of the worker, column by column: the delay is 2, 4, 8, ... 256 and then 300 seconds |
| RowChanges.LeaseScansWrite | services/worker-service/core/reaper.py:33-81 | what the two lease scans write: requeueing with a delay that doubles, or a dead letter, and to which rows |
| RowChanges.DeadlineScansWrite | services/worker-service/core/reaper.py:84-127 | what the timeout and human-input scans write, and to which rows |
| RowChanges.ResumesWrite | services/api-service/src/main/java/com/persistentagent/api/repository/TaskRepository.java:474-527 | a paused task is resumed by a person within its task budget, or recovered by the window and slots when it was paused for the hour |
| RowChanges.AnswersWrite | services/api-service/src/main/java/com/persistentagent/api/repository/TaskRepository.java:277-401 | an approval answers only an approval request and a response only a request for input; both restart the time of the task |
| RowChanges.ReopeningsWrite | services/api-service/src/main/java/com/persistentagent/api/repository/TaskRepository.java:403-603 | what follow-up, redrive and cancellation write, and to which rows |
| RowChanges.SubmitWrites | services/api-service/src/main/java/com/persistentagent/api/repository/TaskRepository.java:55-100 | a submission creates a queued row with its settings and fresh counters if and only if the id is free and the agent active |
| RowChanges.PowersMultiply | services/worker-service/core/reaper.py:39 | the delay function is the power of two |
| Outcomes.CompletedTaskStays | services/worker-service/executor/graph.py:4131-4158 | a completed task keeps its row on every run without a follow-up |
| Outcomes.AbandonedTaskStays | services/worker-service/executor/graph.py:4950-5101 | a dead-lettered task keeps its reason and last worker on every run without a redrive |
| Outcomes.TaskBudgetPauseHolds | services/worker-service/executor/graph.py:4545-4592 | a task paused for its own budget stays so, with that reason, whatever the reaper does, until a person cancels it or resumes it, and a resumption succeeds if and only if its spend is within the budget of its active agent |
| Outcomes.HourlyPauseHolds | services/worker-service/executor/graph.py:4556-4592 | a task paused for the hour keeps reason and resume time until it is resumed, recovered or cancelled; a recovery takes it if and only if the agent is active, under its hourly budget and below its limit |
| Outcomes.InterruptWaitsForItsAnswer | services/worker-service/executor/graph.py:4671-4695 | an interrupt waits in the status of its kind for 86,400 seconds; the other kind of answer leaves it on every run, its own kind queues it |
| Outcomes.RetriedTaskClaimableIff | services/worker-service/executor/graph.py:4778-4802 | as long as nobody takes it, a retried task is startable for a poll if and only if it is of its pool and tenant, its agent is open, and more than 2, 4, ... 256, 300 seconds have passed |
| Outcomes.RequeuedTaskClaimableIff | services/worker-service/core/reaper.py:33-54 | the same for a requeued task, with a delay that doubles from one second |
| Outcomes.TimeoutVerdict | services/worker-service/core/reaper.py:84-101 | on every run that does not restart the time of a task, a timeout scan takes it if and only if it is queued or running and more than its timeout in microseconds has passed since its reference |
| Outcomes.SubmittedTaskTimesOut | services/worker-service/core/reaper.py:84-101 | the same counted from the submission |
| Outcomes.ReferenceIsLastStart | services/api-service/src/main/java/com/persistentagent/api/repository/TaskRepository.java:283-290 | approval, rejection, response, follow-up and redrive restart the time of the task |
| EventLog.EventLogReplaysToState | services/worker-service/core/reaper.py:523-549 | in every reachable state the last non-null status_after of a task's events is its status, every non-null status_before is the status replayed so far, and the version counts the status changes |
| EventLog.EventNamesItsCause | services/worker-service/core/reaper.py:523-549 | a step that changes a status logs exactly one event of its own type, last, with its worker and the statuses before and after, and just before it the memory it wrote; a step that changes none logs nothing |
| Fencing.StaleWorkerIsFenced | services/worker-service/checkpointer/postgres.py:34-42 | once a worker is not the owner, the whole run ends in the same database as the run without any of its gated steps on the task, until that worker id claims the task again |
| Fencing.EffectsLandInsideLease | services/worker-service/checkpointer/postgres.py:187-210 | a checkpoint, pending write, step cost, heartbeat or transition that has any effect happens while the sender holds the lease of a running task |
| Fencing.OwnershipNeedsClaim | services/worker-service/core/poller.py:77-86 | no step but the worker's own claim makes it the owner |
| Fencing.LosingTheLeaseEndsOwnership | services/worker-service/core/reaper.py:33-101 | any status change of an owned task ends its owner's ownership |
| Fencing.UngatedChargesAlwaysLand | services/worker-service/executor/graph.py:3725-3738 | sandbox charges are outside the fence: over any run, whoever owns the task when, all of them are billed to it |
| Leases.PunctualOwnerKeepsLease | services/worker-service/core/heartbeat.py:24-33 | if the owner's beats land no more than the lease duration apart, nothing but its own end, a timeout or a cancellation takes the task, whatever else runs |
| Leases.PunctualClaimantKeepsLease | services/worker-service/core/poller.py:77-86 | the same from the claim itself, which counts as the first beat |
| Leases.LeaseScanVerdict | services/worker-service/core/reaper.py:33-81 | the two lease statements take a row if and only if its lease has expired, and send it to exactly one of the queue and the dead letters |
| Leases.SilentOwnerIsReclaimed | services/worker-service/core/reaper.py:44-46 | once beats and claims stop, the first pass strictly later than the last beat plus the lease duration requeues the task with one more retry or dead-letters it |
| Retries.RetryCountBounded | services/worker-service/core/reaper.py:33-81 | in every reachable state the retry count is within max_retries and within the recorded history |
| Retries.LatestSnapshotEqualsRow | services/worker-service/executor/graph.py:4760-4763 | the counters of the latest claim equal the row's while its worker holds the lease |
| Retries.ClaimsAreBounded | services/worker-service/executor/graph.py:4760-4802 | without human, budget or redrive steps and without a stale retry taking effect, a task is claimed at most max_retries + 1 times and its history records exactly its retries |
| Retries.StepKeepsAccountsIff | services/worker-service/executor/graph.py:4780-4802 | a step keeps claims, retries and history in account if and only if it is not a retry, by the current lease holder, from a claim that a later claim has superseded |
| Retries.AccountsInOrderIff | services/worker-service/executor/graph.py:4760-4802 | over every run from a fresh database without outside help, the accounts are in order in every state if and only if no such stale retry takes effect |
| Retries.ClaimsCountLosses | services/worker-service/core/reaper.py:33-81 | on those runs the history is the retry count plus the net loss of stale writes, claims exceed max_retries + 1 by at most that, and a running task has passed that bound if and only if its count and the net loss together exceed max_retries |
| StaleRetry.RedriveKeepsHistory | services/api-service/src/main/java/com/persistentagent/api/repository/TaskRepository.java:566-585 | a concrete run from an empty database: after a redrive the history is longer than the retry count |
| StaleRetry.StaleRetryBreaksAccounts | services/worker-service/executor/graph.py:4760-4802 | a concrete run from an empty database: a worker claims a task again while its earlier execution is alive, whose late retry then makes the task claimed max_retries + 2 times with a history longer than its retry count |
| Deadlines.RequeuedTaskWaits | services/worker-service/core/reaper.py:39-46 | after the reaper requeued a task whose retry count was n, it is not running again before 2^n seconds have passed, unless redriven |
| Deadlines.RetriedTaskWaits | services/worker-service/executor/graph.py:4780-4782 | after a worker scheduled retry n, the task is not running again before the smaller of 2^n and 300 seconds have passed, unless redriven |
| Deadlines.DelayHolds | services/worker-service/core/poller.py:65-74 | nobody claims a task before its retry delay has passed, whatever else happens to it |
| Deadlines.HumanHasADay | services/worker-service/executor/graph.py:4671-4695 | an interrupted task waits at least 24 hours for a person: until then only an answer or a cancellation changes it |
| Deadlines.HumanWaitVerdict | services/worker-service/core/reaper.py:111-127 | over any run in which no person acts on an interrupted task and nobody redrives it, a human-input scan leaves it dead-lettered if and only if more than 24 hours have passed, and waiting otherwise |
| RunningCounts.StepKeepsCountExactIff | services/worker-service/core/agent_runtime_state_repository.py:33-42 | from an exact running count, a step leaves it exact if and only if it is neither the cancellation of a running task nor the timeout of a queued task while others run |
| RunningCounts.RunStaysExactIff | services/worker-service/core/reaper.py:84-101 | over whole runs the count is exact in every state if and only if no running task is cancelled and no queued task times out while others run |
| RunningCounts.DriftAfter | services/worker-service/core/reaper.py:264-273 | by how much each kind of step moves the cached count away from the number of running tasks |
| RunningCounts.DriftIsBounded | services/worker-service/core/reaper.py:84-101 | over any run the count exceeds the truth by at most the running cancellations and trails it by at most the queued timeouts |
| RunningCounts.CountIsExactWithoutDriftingSteps | services/worker-service/core/agent_runtime_state_repository.py:33-42 | from a fresh database the count is exact on every run without those two kinds of step |
| RunningCounts.ReconcileRepairsIff | services/worker-service/core/reaper.py:453-479 | which agents each of the two count statements repairs, in both directions |
| RunningCounts.ReconcileRestoresCount | services/worker-service/core/reaper.py:453-479 | both statements back to back make the count exact for every agent from any drift |
| RunningCounts.StepKeepsLimitIff | services/worker-service/core/poller.py:43-62 | with a fixed limit, a step pushes the running tasks over max_concurrent_tasks if and only if it is a claim granted while that many run, and such a claim is granted only with the cached count below the truth |
| RunningCounts.RunStaysWithinLimitIff | services/worker-service/core/poller.py:43-62 | over whole runs the limit is passed at some point if and only if some claim is granted at the limit with the cached count below the truth |
| RunningCounts.LimitHoldsWhileCountNotLow | services/worker-service/core/poller.py:43-62 | a run on which the cached count is never below the truth never passes the limit |
| RunningCounts.LimitHoldsWithoutQueuedTimeouts | services/worker-service/core/reaper.py:264-273 | from a count that is not below the truth, a run without queued timeouts of the agent never passes the limit |
| RunningCounts.ConcurrencyLimitHolds | services/worker-service/core/poller.py:43-62 | with a fixed limit, running tasks exceed max_concurrent_tasks by at most the queued timeouts on the way |
| CountRuns.QueuedTimeoutPassesLimit | services/worker-service/core/reaper.py:84-101 | a concrete run from an empty database: a queued timeout frees the running task's slot and two tasks run under a limit of one |
| CountRuns.CancellationBlocksAgent | services/api-service/src/main/java/com/persistentagent/api/repository/TaskRepository.java:231-271 | a concrete run from an empty database: after cancelling the only running task the count is one, the agent is not eligible in any pool, and a reconciliation repairs it |
| RoundRobin.WaitIsBounded | services/worker-service/core/poller.py:33-95 | while an eligible agent is passed over, each claim of its pool uses up one agent whose cursor is not above its own or one row inserted meanwhile |
| RoundRobin.EligibleAgentIsServed | services/worker-service/core/poller.py:316-352 | in every run with as many claims of its pool as there are runtime rows at its end, an agent that stays eligible is granted some claim |
| RoundRobin.NobodyServedTwice | services/worker-service/core/poller.py:89-95 | no other agent is chosen twice before an agent that stays eligible |
| RoundRobin.AheadGrowsByNewRows | services/worker-service/core/poller.py:33-41 | the measure: one step puts at most the newly inserted rows ahead of a waiting agent, and serving one ahead removes it |
| Admission.ClaimGrantedIff | services/worker-service/core/poller.py:43-84 | a claim gives a task to the worker, with its lease, if and only if the task is queued and past its delay, of the pool and tenant, its agent is active, below its limit and its hourly budget, no startable task belongs to an agent served longer ago, and none of the same agent is older |
| Admission.StartsOnlyByClaim | services/worker-service/core/poller.py:77-84 | on every step a task starts only by such a claim |
| Admission.OldestStartsFirst | services/worker-service/core/poller.py:66-74 | what starts is no younger than any task of its agent and pool that is queued and past its delay |
| Admission.OverBudgetAgentStartsNothing | services/worker-service/core/poller.py:50 | an agent whose cached hourly cost has reached its budget starts nothing on any run until its configuration or its cached cost is rewritten |
| Admission.InactiveAgentStartsNothing | services/worker-service/core/poller.py:46 | an inactive agent starts nothing on any run until its configuration changes |
| Admission.OtherPoolsStartNothing | services/worker-service/core/poller.py:47-57 | a task is not started on any run in which nobody claims for its own pool and tenant |
| Admission.CachedCostAfter | services/worker-service/core/agent_runtime_state_repository.py:22-61 | the exact effect of every step on the cached hourly cost |
| Admission.EmptyPollWrites | services/worker-service/core/poller.py:33-40 | an empty poll adds a zeroed runtime row for each agent of the tenant with queued work in the pool, and nothing else |
| Ledger.PruningKeepsWindows | services/worker-service/core/reaper.py:510-515 | deleting rows older than two hours changes neither the 60-minute sum nor its oldest timestamp, now or later |
| Ledger.PrunedRows | services/worker-service/core/reaper.py:510-515 | pruning drops every row older than two hours and keeps every other row as often as it was |
| Ledger.WindowHeldUntilStartExpires | services/worker-service/core/cost_ledger_repository.py:51-62 | until its oldest charge ages out, the window sum is at least what it was |
| Ledger.InsertAddsCost | services/worker-service/core/cost_ledger_repository.py:65-109 | an insert adds its cost to its own agent's last hour and its own task's total; it is ignored if and only if it is a compaction charge whose task, reference and turn are charged already |
| Ledger.WindowStartIsOldest | services/worker-service/core/cost_ledger_repository.py:58-62 | the window starts at the oldest charge of the agent in the last 3,600,000,000 microseconds |
| HourlyBudget.NoRecoveryBeforeResumeTime | services/worker-service/executor/graph.py:4534-4605 | a resume time read from the window, any steps, then the pause: if the reading saw the budget used up, no recovery resumes a task of the agent before that time on any run; for an agent that can be served it is so if and only if the charges left in the window just before that time use up the budget |
| HourlyBudget.PauseHoldsBackIff | services/worker-service/core/reaper.py:372-399 | for any resume time of a pause, no recovery of the agent on any run before it if and only if the charges then left in the window use up the budget |
| HourlyBudget.PromptPauseHoldsBackIff | services/worker-service/executor/graph.py:4560-4569 | paused at the reading of the oldest charge, no recovery on any run before the resume time if and only if the window at that reading still used up the budget |
| HourlyBudget.NeverSelectedIff | services/worker-service/core/reaper.py:347-386 | once one pause of the agent is due and a pass may select it, the same condition decides whether any pass before a given time finds the agent recoverable |
| HourlyBudget.SelectedIff | services/worker-service/core/reaper.py:348-356 | a recovery pass selects an agent if and only if one of its hourly pauses has reached its resume time |
| HourlyBudget.WindowStaysAsRead | services/worker-service/core/cost_ledger_repository.py:51-62 | from a reading of the window until its oldest charge ages out, the window is at least as high as read on every run |
| HourlyRuns.AgingChargeEndsPauseEarly | services/worker-service/executor/graph.py:4538-4569 | a concrete run from an empty database: the sum is read above the budget, a charge ages out before the oldest one is read, and with another pause of the agent due the new pause is resumed before its resume time |
| HourlyBudget.WindowBlocksRecovery | services/worker-service/core/reaper.py:372-382 | if that was at least the unchanged budget, no recovery of the agent changes anything until then, with or without a pause |
| HourlyBudget.WindowSurvivesRun | services/worker-service/core/cost_ledger_repository.py:51-62 | no run up to a time loses a charge that the window at that time will hold |
| HourlyBudget.ReconcileRestoresHourCost | services/worker-service/core/reaper.py:481-508 | after the two cost statements the cached hourly cost is the true window sum |
| CostConservation.BilledLessGapIsCarried | services/worker-service/core/checkpoint_repository.py:45-79 | on every run a task's checkpoints carry exactly everything ever billed to it less the sum of the steps' exact effects, however often the ledger was pruned |
| CostConservation.CheckpointsCarryWhatWasBilled | services/worker-service/core/checkpoint_repository.py:45-79 | on every clean run that is everything ever billed minus the ledger-only kinds |
| CostConservation.GapAfter | services/worker-service/executor/graph.py:2960-3033 | the exact effect of every step on the difference between billed and carried cost, for any number of matching checkpoint rows |
| CostConservation.LedgerAfter | services/worker-service/core/cost_ledger_repository.py:29-109 | the ledger after every step, charge by charge with agent, reference, kind and time |
| CostConservation.MemoryChargesRootCheckpoint | services/worker-service/core/checkpoint_repository.py:39-43 | memory costs are charged to the newest checkpoint of the root namespace |
| CostConservation.OverwriteConservesIff | services/worker-service/executor/graph.py:2327-2348 | an overwriting step write conserves cost if and only if the lease is lost, or its cost and what the matching rows carried together equal its cost once per matching row |
| CostConservation.OverwriteCases | services/worker-service/core/checkpoint_repository.py:45-51 | what that means for no matching row, for one, and for several that carry nothing |
| CostConservation.AdditiveWriteConserves | services/worker-service/executor/graph.py:2400-2417 | the additive supervisor write conserves cost if and only if the lease is lost, it is zero, or exactly one row matches, whatever that row carried |
| CostConservation.ReadCheckpointStaysMatched | services/worker-service/executor/graph.py:3807-3818 | a write to a checkpoint that was read as the latest meets at least one row, whatever happened in between |
| CostConservation.CallerOverwriteConservesIff | services/worker-service/executor/graph.py:3807-3819 | for such a write cost is conserved if and only if the matching rows carried its cost once per row beyond the first, so nothing for a single row |
| CostConservation.EventKeepsLastCost | services/worker-service/executor/graph.py:3793-3819 | the writes of one event bill every cost, leave each matching row with the last one, and lose the others and what the rows carried |
| CostConservation.EventConservesIff | services/worker-service/executor/graph.py:3793-3819 | on a single row an event whose messages all cost something conserves cost if and only if there is one such message and the row carried nothing |
| CostRuns.SharedIdCountsTwice | services/worker-service/core/checkpoint_repository.py:45-51 | what the statement does to one checkpoint id in two namespaces, on a run from an empty database: the checkpoints carry twice what was billed |
| CostRuns.SecondMessageLosesCost | services/worker-service/executor/graph.py:3793-3819 | a concrete run from an empty database: two messages of one event overwrite the same latest checkpoint, 7 is billed and 4 carried |
| Checkpoints.SetCostTotals | services/worker-service/core/checkpoint_repository.py:45-51 | an overwrite replaces what the matching rows carried, in every namespace of the task, and touches no other task |
| Checkpoints.AddCostTotals | services/worker-service/core/checkpoint_repository.py:53-59 | the additive update adds its delta once for each matching row |
| Checkpoints.MirrorCostTotals | services/worker-service/core/checkpoint_repository.py:71-79 | the sandbox mirror adds its delta to every row with the checkpoint id, whichever task owns it |
| Checkpoints.UpsertKeepsCosts | services/worker-service/checkpointer/postgres.py:44-80 | rewriting a checkpoint keeps the cost it carries |
| Checkpoints.CostUpdatesByRow | services/worker-service/core/checkpoint_repository.py:45-79 | row by row what the three cost updates meet and write |
| CheckpointsOnRuns.StoredCheckpointsAreLeaseHolders | services/worker-service/checkpointer/postgres.py:44-80 | on every run a checkpoint is present if and only if a lease holder sent it, and holds worker, parent and payload of the last one sent for its task, namespace and id and the time of the first |
| CheckpointsOnRuns.LookupReadsBack | services/worker-service/checkpointer/postgres.py:268-297 | a lookup by id at the end of any run answers with what a lease holder sent last, and finds nothing only if nothing was sent |
| PendingWrites.StoredWritesAreDecidedByHistory | services/worker-service/checkpointer/postgres.py:82-121 | after any history of calls a slot is filled if and only if some call offered it, and holds the last upsert offered for it, else the first insert |
| PendingWrites.ReplayingLastCallIsIdempotent | services/worker-service/checkpointer/postgres.py:231-266 | replaying the most recent call changes nothing |
| PendingWrites.OfferedByCall | services/worker-service/checkpointer/postgres.py:231-266 | the key, row and conflict clause of each write of a call: positions for named channels, fixed slots below zero for special ones, upsert if and only if all are special |
| WritesOnRuns.StoredWritesAreLeaseHolders | services/worker-service/checkpointer/postgres.py:250-266 | on every run the table holds for each slot the last upsert that a lease holder offered, else the first insert, and nothing else |
| CheckpointListing.ReachableKeysDistinct | services/worker-service/checkpointer/postgres.py:44-80 | in every reachable state no two checkpoints share task, namespace and id |
| CheckpointListing.CheckpointsNeverVanish | services/worker-service/checkpointer/postgres.py:44-80 | no run removes a checkpoint or moves it to another key |
| CheckpointListing.GetTuple | services/worker-service/checkpointer/postgres.py:268-297 | the lookup answers with the row asked for, or the one with the greatest id, or finds nothing because there is none |
| CheckpointListing.List | services/worker-service/checkpointer/postgres.py:299-347 | the listing with all its filters, the metadata filter as any test of a row, and its limit |
| CheckpointListing.ListedIff | services/worker-service/checkpointer/postgres.py:313-335 | a row is listed if and only if it is in the table and passes every filter given |
| CheckpointListing.ListingIsSorted | services/worker-service/checkpointer/postgres.py:336-347 | a listing holds each selected row as often as the table does, greatest id first |
| CheckpointListing.ThreadListingIsStrict | services/worker-service/checkpointer/postgres.py:339 | within one thread and namespace the listing is strictly descending |
| CheckpointListing.LatestIsHeadOfListing | services/worker-service/checkpointer/postgres.py:281-297 | the lookup without an id answers with the head of the listing of the same thread and namespace |
| CheckpointListing.PagesConcatenate | services/worker-service/checkpointer/postgres.py:327-341 | listing before the last id of a page continues exactly where the page stopped, under any metadata filter |
| CheckpointListing.ListingWithoutNamespaceMayRepeat | services/worker-service/checkpointer/postgres.py:317-321 | without a namespace filter ids may repeat: two rows for which the order is not strict |
| Base64.RoundTrip | services/worker-service/checkpointer/postgres.py:513-518 | decoding gives back every encoded byte string (section 4 of RFC 4648) |
| Base64.EncodingIsUnique | services/worker-service/checkpointer/postgres.py:545 | a text that decodes is the encoding of its bytes if and only if no ignored bit of its final group is set |
| Base64.AlphabetIsStandard | services/worker-service/checkpointer/postgres.py:516 | the alphabet of table 1 of RFC 4648 in ASCII |
| Base64.ThreeBytesAreFourSymbols | services/worker-service/checkpointer/postgres.py:516 | three bytes and their four symbols are the same number in base 256 and base 64 |
| Base64.LastBytes | services/worker-service/checkpointer/postgres.py:516 | the final one or two bytes with zero bits and padding added |
| Envelope.RoundTrip | services/worker-service/checkpointer/postgres.py:500-551 | decoding the encoded payload returns the original whenever no plain pending task carries the envelope key |
| Envelope.RoundTripNeedsUnusedKey | services/worker-service/checkpointer/postgres.py:528-551 | with a serializer that never loads such a dictionary, the round trip holds if and only if no plain pending task carries the envelope key |
| Envelope.EncodingIsJson | services/worker-service/checkpointer/postgres.py:521-526 | the encoded payload differs from the original in the task channel only and holds no Send there |
| Envelope.EncodedShape | services/worker-service/checkpointer/postgres.py:500-526 | the stored payload: each Send as an envelope of type and base64 text under the envelope key, every other task and field as it is |
| Envelope.OthersAreLeftAlone | services/worker-service/checkpointer/postgres.py:504-507 | a payload without a list of pending tasks is stored and loaded as it is |
| Envelope.Payload.EncodePregelTasks | services/worker-service/checkpointer/postgres.py:500-526 | the encoding loop computes the specified payload and leaves the live checkpoint alone |
| Envelope.Payload.DecodePregelTasks | services/worker-service/checkpointer/postgres.py:528-551 | the decoding loop overwrites the task channel in place, or leaves the payload untouched when an envelope is malformed |
| MemoryRows.NewestSize | services/worker-service/core/memory_repository.py:111-127 | the newest m rows by creation time and id are m rows, or all of them |
| MemoryRows.NewestAreNewer | services/worker-service/core/memory_repository.py:111-127 | every kept row is newer than every evicted one |
| MemoryRows.CapIsClamped | services/worker-service/executor/graph.py:2905-2952 | the cap: ten thousand by default, clamped between a hundred and a hundred thousand |
| MemoryRows.MemoryTable.UpsertMemoryEntry | services/worker-service/core/memory_repository.py:86-109 | the upsert inserts one row if and only if the task has none, and otherwise rewrites only body and version of its row |
| MemoryRows.MemoryTable.TrimOldest | services/worker-service/core/memory_repository.py:231-276 | the trim deletes exactly the agent's other rows past the newest cap - 1, never the kept one |
| MemoryRows.MemoryTable.CommitMemory | services/worker-service/executor/graph.py:2905-2952 | alone, an insert leaves the agent its new row and as many of the others as fit the cap, evicting older rows before newer ones and touching no other agent; an update rewrites its own task's body and raises its version |
| MemoryStore.InvOnRuns | services/worker-service/core/memory_repository.py:139-143 | for any interleaving of the statements of concurrent commits, each task has at most one row and at most one transaction per agent is past its lock |
| MemoryStore.InsertCommitKeepsNewest | services/worker-service/executor/graph.py:2942-2952 | on every run, an inserting commit leaves the agent the new row and the newest cap - 1 rows it saw less those deleted since, at most its cap, and touches no other agent |
| MemoryStore.InsertCommitIsSerial | services/worker-service/core/memory_repository.py:189-213 | on every run without deletions an inserting commit leaves the table as if its whole transaction had run alone at that moment |
| MemoryStore.SoloIsCommit | services/worker-service/executor/graph.py:2905-2952 | the statements of one transaction run alone come to the sequential commit and leave no transaction and no lock |
| MemoryStore.UpdateCommitKeepsRows | services/worker-service/core/memory_repository.py:97-108 | an updating commit keeps every row and rewrites only its own task's |
| MemoryStore.AgentStaysWithinCap | services/worker-service/core/memory_repository.py:261-276 | on every interleaving an agent never holds more committed rows than the largest cap its commits ran under |
| MemoryStore.WithoutLockCapIsPassed | services/worker-service/core/memory_repository.py:134-143 | two inserts of an agent open at one row below the cap both count the cap, both skip the trim, and the cap is passed |
| MemoryRace.UnlockedRacePassesCap | services/worker-service/core/memory_repository.py:134-143 | why the lock is needed: without it, for every configured cap, a run from an empty table in which two commits take turns ends one row above the cap |
| ToolRouting.SuperStepAnswersCalls | services/worker-service/executor/graph.py:1789-1847 | the super-step answers every call of the turn as often as it was made, except dispatch calls without an id, whatever the offload rewrites |
| ToolRouting.EveryCallAnsweredIff | services/worker-service/executor/graph.py:1917-1933 | every call is answered exactly once per call made if and only if no dispatch call lacks an id |
| ToolRouting.DistinctCallsAnsweredOnce | services/worker-service/executor/graph.py:1877-1904 | with distinct ids, all present, each id gets exactly one answer over both nodes together |
| ToolRouting.DispatchesGoOneLevelDown | services/worker-service/executor/graph.py:1811-1840 | one sub-agent per dispatch call, in order, one level below the parent, and the tool node runs if and only if it is shown a call |
| ToolRouting.TurnVerdict | services/worker-service/executor/graph.py:1789-1848 | where a turn goes, for every state and setting: end, memory write, sub-agents and tool node, each if and only if |
| ToolRouting.PartitionToolCalls | services/worker-service/executor/graph.py:1764-1777 | the loop splits a turn into its dispatch calls and whether any other call remains |
| Reweave.WeavePreservesOrder | services/worker-service/executor/graph.py:680-713 | each position keeps its call id and holds the tag or the rewrite of the very message it replaces |
| Reweave.FallbacksUnreachable | services/worker-service/executor/graph.py:705-712 | neither iterator runs out when the offload keeps the number of messages |
| Reweave.OthersAreTheRest | services/worker-service/executor/graph.py:2058-2071 | exactly the messages that answer no recall call are offloaded |
| Reweave.ReweaveMessages | services/worker-service/executor/graph.py:680-713 | the loop over the two iterators, and exactly when it falls back |
| Reweave.RewriteToolOutput | services/worker-service/executor/graph.py:2058-2101 | an answer to a recall_tool_result call keeps its body and is tagged in its place; every other message is replaced by its own rewrite, which answers the same call |
| WorkerSlots.PermitsAreConserved | services/worker-service/core/poller.py:298-337 | free permits, live executions and the attempt in progress add up to the limit as long as leaving the transaction on an early return never raises |
| WorkerSlots.PermitsAddUpIff | services/worker-service/core/poller.py:321-337 | on every run they add up to the limit if and only if no early return of an attempt in progress raised on leaving the transaction |
| WorkerSlots.CounterStaysExactIff | services/worker-service/core/poller.py:399-402 | over whole runs the counter equals the live executions in every state if and only if no attempt raises while something is counted |
| WorkerSlots.DrainReportsIdleTooEarly | services/worker-service/core/poller.py:164-173 | a concrete run: one execution live, an attempt beside it raises, and the counter that a drain waits for is zero |
| WorkerSlots.CounterTracksExecutions | services/worker-service/core/poller.py:371-402 | the active counter never exceeds the live executions and trails them by at most the attempts that raised |
| WorkerSlots.CounterWithinLimit | services/worker-service/core/poller.py:288-299 | on every run the counter and the attempt in progress stay within the limit, with or without an executor |
| WorkerSlots.DoubleReleaseExceedsLimit | services/worker-service/core/poller.py:320-402 | why the assumptions matter: a double release and a raising attempt let three executions run under a limit of two |
| WorkerSlots.TaskPoller.ReturnEmptyHanded | services/worker-service/core/poller.py:321-337 | an early return gives the permit back once, or twice when leaving the transaction raises |
| WorkerSlots.TaskPoller.LaunchClaimed | services/worker-service/core/poller.py:371-397 | the counter and the execution set, or the permit when there is no executor |
| WorkerSlots.TaskPoller.FinishExecution | services/worker-service/core/poller.py:423-434 | the cleanup returns the permit and lowers the counter, floored at zero |
| Heartbeats.SignalsReachTheirOwner | services/worker-service/core/heartbeat.py:122-182 | as long as no task is started beside its own earlier heartbeat, the handles told to cancel are exactly those whose own beat found the lease gone |
| Heartbeats.EventsMeetTheirLoop | services/worker-service/core/heartbeat.py:91-182 | without overlap a start adds its own loop, a stop ends the loop of its task, and a beat that finds no row ends and signals its own loop |
| Heartbeats.RegistryBreaksIff | services/worker-service/core/heartbeat.py:91-114 | registered and beating handles stop matching if and only if a heartbeat is started beside a live one of the same task |
| Heartbeats.OverlapLosesTheSignal | services/worker-service/core/heartbeat.py:110-114 | a concrete overlap after which a beat finds the lease gone and nobody is told |
| Heartbeats.HeartbeatManager.Beat | services/worker-service/core/heartbeat.py:128-175 | a beat finds no row if and only if the lease is not held, and then signals the handle registered for the task |
| Heartbeats.HeartbeatManager.StopAll | services/worker-service/core/heartbeat.py:116-120 | stopping all leaves no registered handle, and none beating when each was registered |
| Usage.MergeUsage | services/worker-service/executor/usage.py:60-75 | the item loop adds field by field and never changes its inputs |
| Usage.UsageFromMessages | services/worker-service/executor/usage.py:78-83 | the accumulation gives, name by name, the sum of what the messages report, nested cache counters winning over flat ones |
| Usage.PriceRoundsDown | services/worker-service/executor/graph.py:2569-2577 | the price is the four counters at their rates, rounded down to microdollars; a missing cache rate costs nothing |
| Usage.MergeIgnoresOrderAndGrouping | services/worker-service/executor/usage.py:60-83 | merging branch usages gives the same totals for every order and every grouping |
| Usage.SeparatePricesFallShort | services/worker-service/executor/graph.py:2569-2577 | pricing usages one by one never exceeds pricing their merge and falls short by at most one microdollar per further usage |
| Usage.ShortfallIsReached | services/worker-service/executor/graph.py:2574-2577 | the bound is reached for every number of usages up to a million |
| Migrations.AppliedAtMostOnce | infrastructure/cdk/lib/schema-bootstrap/handler.ts:90-120 | over any interleaving of runs that crash, fail, repeat or lose a commit reply, each filename's SQL commits at most once and the ledger records exactly what was committed |
| Migrations.TurnVerdict | infrastructure/cdk/lib/schema-bootstrap/handler.ts:90-120 | when a run moves on and when it stops, for every migration, snapshot and commit outcome |
| Migrations.FinishedRunsAreComplete | infrastructure/cdk/lib/schema-bootstrap/handler.ts:90-120 | whatever runs beside it, a run that reached the end leaves every migration of its list recorded under its own checksum |
| Migrations.SchemaDatabase.ApplyMigrations | infrastructure/cdk/lib/schema-bootstrap/handler.ts:90-120 | an undisturbed run leaves exactly a prefix of its pending list applied, the whole list when it succeeds, and never succeeds over a checksum mismatch |
| Migrations.RetryContinues | infrastructure/cdk/lib/schema-bootstrap/handler.ts:93-97 | the next run finds exactly the rest pending, in the same order |
| Migrations.RunsResume | infrastructure/cdk/lib/schema-bootstrap/handler.ts:90-120 | two runs in a row amount to one run that went as far as both together |
| Scans.InvPreserved | services/worker-service/core/reaper.py:203-341 | every step of every component keeps the global invariant that the methods below carry |
| Scans.ScanIsRun | services/worker-service/core/reaper.py:222-295 | a bulk UPDATE with the loop over its rows, in any order of rows, is the run of its single-row steps |
| Scans.PassVerdict | services/worker-service/core/reaper.py:222-262 | one pass takes every task with an expired lease exactly once, by requeueing or by dead-lettering, and leaves no expired lease |
| Scans.ScanStepsOutcome | services/worker-service/core/reaper.py:33-127 | which rows each of the four statements takes and what it writes to them, column by column |
| Scans.ReconcileMakesCachesExact | services/worker-service/core/reaper.py:453-508 | a reconciliation at one instant makes running count and hourly cost exact for every agent |
| Scans.ReconcileAcrossTime | services/worker-service/core/reaper.py:453-508 | a reconciliation whose statements run at different times makes every count exact and leaves every hourly cost between the window at its end and at its start |
| Database.TaskDatabase.TryClaim | services/worker-service/core/poller.py:288-367 | a claim takes the first startable task, in the tests written out in Admission, and leaves its row, runtime row and event as stated; nothing is claimed if and only if the row was lost to another worker or no task is startable, and then only the pre-claim upsert remains |
| Database.TaskDatabase.SendHeartbeat | services/worker-service/core/heartbeat.py:24-33 | one row is updated, with the expiry moved to the clock plus the lease, if and only if the worker holds the lease |
| Database.TaskDatabase.PutCheckpointRow | services/worker-service/checkpointer/postgres.py:172-210 | the gated upsert takes effect if and only if the lease is held, and the key then reads back with this worker, parent and payload |
| Database.TaskDatabase.PutPendingWrites | services/worker-service/checkpointer/postgres.py:220-266 | the gated row-by-row writes equal the specified fold; a call without writes succeeds without the lease |
| Database.TaskDatabase.RecordStepCost | services/worker-service/executor/graph.py:2293-2361 | gated cost write, ledger row and window increment in one transaction, column by column, returning the task's total and the agent's hourly cost |
| Database.TaskDatabase.RecordSupervisorStepCost | services/worker-service/executor/graph.py:2363-2425 | the same with the additive cost write and the same two totals |
| Database.TaskDatabase.CompleteTask | services/worker-service/executor/graph.py:4131-4158 | plain completion takes effect if and only if the lease is held, and leaves a completed, unowned row and its event |
| Database.TaskDatabase.CommitMemoryAndCompleteTask | services/worker-service/executor/graph.py:2857-3041 | completion with memory row and trim, marker event, memory costs and mirrored checkpoint cost in one transaction; without the lease neither database nor memory table changes |
| Database.TaskDatabase.HandleRetryableError | services/worker-service/executor/graph.py:4746-4822 | retry from the claim-time snapshot with its delay, or dead-lettering with its memory branch when the retries are used up, column by column, if and only if the lease is held |
| Database.TaskDatabase.HandleDeadLetter | services/worker-service/executor/graph.py:4950-5101 | dead-lettering with memory row, trim, event and cost, if and only if the lease is held; otherwise the memory table is unchanged too |
| Database.TaskDatabase.CheckBudgetAndPause | services/worker-service/executor/graph.py:4508-4632 | with time passing between its statements: true if and only if a limit was exceeded as read; the owner's row is then paused for the task budget without a resume time, or for the hour until an hour after the oldest charge of the window |
| Database.TaskDatabase.HandleInterrupt | services/worker-service/executor/graph.py:4655-4744 | the human-input pause takes effect if and only if the worker is the owner, in the status of its kind and for 24 hours |
| Database.TaskDatabase.Scan | services/worker-service/core/reaper.py:222-295 | each reaper statement takes exactly the rows its columns select, writes the stated columns, returns every row once, and acts as the run of its single-row steps |
| Database.TaskDatabase.RecoverAgent | services/worker-service/core/reaper.py:343-451 | one agent's recovery resumes its hourly pauses oldest first up to the free slots, refreshes the hourly cache, and does nothing unless the window is below the budget |
| Database.TaskDatabase.ReconcileRuntimeState | services/worker-service/core/reaper.py:453-508 | the four statements, each at its own time, leave every count exact and every hourly cost between the window at the end and at the start, exact when no time passes; when one raises, the ones before it stand |
| Database.TaskDatabase.PruneCostLedger | services/worker-service/core/reaper.py:510-521 | the pruning keeps exactly the rows not older than two hours and reports how many went |
| Database.TaskDatabase.RecoverHourlyBudgetPauses | services/worker-service/core/reaper.py:343-451 | only tasks of agents with a due pause are touched, and those are queued, also when a later agent's transaction raises |
| Database.TaskDatabase.RunOnce | services/worker-service/core/reaper.py:203-341 | a whole pass with time passing between its transactions and any of the three follow-up scans raising is a run of the state machine and leaves no lease that had expired when it began; without an exception in the scan concerned, exact counts, hourly costs within the window at its end and start, and no charge older than two hours |

## Left out

- Infrastructure and payloads: model calls, embeddings, HTTP, MCP sessions, sandboxes, S3, tracing and metrics; their
  outcomes are inputs. Columns that carry only payload (input, output, error text, prompts, human_response,
  notification of pools) are not modelled.
- PostgreSQL isolation: outside `MemoryStore` and `Migrations` each transaction is one atomic step. Lock waits,
  SKIP LOCKED and deadlocks are not modelled; that another worker took the row is an input of a claim attempt.
- Within one method of `TaskDatabase` that spans several transactions only time passes between them; what other
  workers do in between is covered by the theorems about runs, not by the method's contract.
- The sandbox charge and its mirror, and the four reconciliation statements, are separate steps because the code
  runs them outside a common transaction.
- Clocks: workers that compute a retry or human-input time from their own clock are taken to agree with the
  database clock.
- Tenant columns beside the agent's own key: the lease checks' tenant comparison always holds for a known task.
- The stale-worker registry, queue-depth metric, LISTEN/NOTIFY, poll backoff and reaper jitter: they decide when
  steps happen, and every theorem holds for any timing.
- Development controls of the API (forced lease expiry, forced dead letter) and deletion of threads, which no
  service calls; it is the only statement that removes checkpoints.
- API transactions and ungated ledger writes are steps of the state machine only, not methods of the class.
- Lifecycle.Recover: one task at a time and without the query that selects the agents due, so it allows more
  than the code does; `Database.TaskDatabase.RecoverHourlyBudgetPauses` has that query and the slot limit.
- Compaction, the offload's content rewriting, and LangGraph's scheduler: the tool node is assumed to answer each
  call it is shown once, and the offload to keep length, positions, kinds and call ids.
- Envelope.Decode: base64 text is decoded strictly; the library call also skips foreign characters, which the
  encoder never writes. The JSON text around the payload is taken as faithful for values without Send.
- CheckpointListing.List: the metadata filter is an arbitrary test of a row; JSON containment is not defined.
- Database.TaskDatabase.RunOnce: an exception in the first transaction of a pass rolls it back and ends the pass; such
  a call is not a call of the method.
- Checkpoint thread timestamps; a row's key, writer, parent, payload, cost and creation time are modelled.
- WorkerSlots.TaskPoller.TryBeginClaim: a claim that would wait for a permit is a claim not begun. Cancelling the
  poll loop or an execution before it starts is not modelled.
- Heartbeats.HeartbeatManager.StopHeartbeat: cancelling and awaiting the loop is one step.
- Usage.Price: takes the four token counters as extracted; the providers' own normalisation of cached tokens is
  not modelled.
- Memory reads, attachments and search; memory deletion by the API is a step of `MemoryStore`.
- Migrations.SchemaDatabase.ApplyMigrations: the Delete event and the loading and sorting of files are not modelled.
- The cached hourly cost between reconciliations: several paths insert ledger rows without it, so it is claimed
  only after a reconciliation.
