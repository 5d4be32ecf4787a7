/** Row types of the shared tables and the plain lookups that every other module uses.
    Identifiers are numbers: the runtime compares them only for equality, except checkpoint
    ids, which are also ordered. Times are microseconds since the epoch. */
module Tables {
  datatype Option<+T> = None | Some(value: T)

  type Time = int
  type TaskId = nat
  type WorkerId = nat
  type PoolId = nat
  type CheckpointId = nat

  const EPOCH: Time := 0
  const SECOND: Time := 1_000_000
  const HOUR: Time := 3600 * SECOND

  datatype AgentKey = AgentKey(tenant: nat, agent: nat)

  datatype Agent = Agent(active: bool, maxConcurrent: nat, budgetPerTask: nat, budgetPerHour: nat)

  /** One row of agent_runtime_state: the cached counters and the round-robin cursor. */
  datatype Runtime = Runtime(running: nat, hourCost: nat, cursor: Time)

  const FRESH_RUNTIME := Runtime(0, 0, EPOCH)

  datatype Status =
    | Queued
    | Running
    | Completed
    | DeadLetter
    | WaitingForApproval
    | WaitingForInput
    | Paused

  datatype PauseReason = BudgetPerTask | BudgetPerHour

  datatype DeadLetterReason =
    | RetriesExhausted
    | TaskTimeout
    | HumanInputTimeout
    | CancelledByUser
    | NonRetryableError
    | MaxStepsExceeded
    | ContextExceeded

  datatype Task = Task(
    agent: AgentKey,
    pool: PoolId,
    status: Status,
    owner: Option<WorkerId>,
    expiry: Option<Time>,
    version: nat,
    retryCount: nat,
    maxRetries: nat,
    retryAfter: Option<Time>,
    retryHistory: seq<Time>,
    createdAt: Time,
    timeoutFrom: Time,
    timeoutSeconds: nat,
    humanTimeoutAt: Option<Time>,
    pauseReason: Option<PauseReason>,
    resumeAt: Option<Time>,
    deadLetterReason: Option<DeadLetterReason>,
    lastWorker: Option<WorkerId>)

  datatype EventKind =
    | TaskSubmitted
    | TaskClaimed
    | TaskReclaimed
    | TaskDeadLettered
    | TaskCompleted
    | TaskRetryScheduled
    | TaskPaused
    | TaskResumed
    | TaskApprovalRequested
    | TaskInputRequested
    | TaskApproved
    | TaskRejected
    | TaskInputReceived
    | TaskFollowUp
    | TaskCancelled
    | TaskRedriven
    | MemoryWritten

  /** One row of task_events; marker events carry no status on either side. */
  datatype Event = Event(
    task: TaskId,
    kind: EventKind,
    before: Option<Status>,
    after: Option<Status>,
    worker: Option<WorkerId>)

  function Pow2(n: nat): (r: nat)
    ensures r >= 1
  {
    if n == 0 then 1 else 2 * Pow2(n - 1)
  }

  function Min(a: int, b: int): int { if a < b then a else b }

  function Max(a: int, b: int): int { if a < b then b else a }

  /** A subset is no larger, and smaller when something is missing. */
  lemma {:induction false} SubsetSize<T>(xs: set<T>, ys: set<T>)
    requires xs <= ys
    ensures |xs| <= |ys|
    ensures xs != ys ==> |xs| < |ys|
  {
    if xs == {} {
    } else {
      var x :| x in xs;
      SubsetSize(xs - {x}, ys - {x});
    }
  }
}
