/** The shared database as a state machine. Each step is one transaction (or one statement
    outside a transaction) of a poller, heartbeat, executor, reaper or API call. A step whose
    guard fails changes nothing, as an UPDATE that matches no row. */
module Lifecycle {
  import opened Tables
  import opened Ledger
  import C = Checkpoints
  import W = PendingWrites

  /** The columns of the claimed row that the executor keeps in memory (RETURNING *). */
  datatype Claim = Claim(task: TaskId, worker: WorkerId, retryCount: nat, maxRetries: nat)

  datatype Db = Db(
    now: Time,
    tasks: map<TaskId, Task>,
    agents: map<AgentKey, Agent>,
    runtime: map<AgentKey, Runtime>,
    events: seq<Event>,
    ledger: seq<Charge>,
    billed: seq<Charge>,            // every ledger row ever inserted, pruned or not
    checkpoints: seq<C.Row>,
    writes: W.Table,
    claims: seq<Claim>)             // every claim ever made, oldest first

  /** What a finished run writes to agent memory beside the task row. */
  datatype MemoryNote =
    | NoMemory
    | Memory(summarizer: nat, embedding: Option<nat>, checkpoint: Option<CheckpointId>)

  datatype Step =
    | Tick(d: nat)
      // poller and heartbeat; an empty poll found no agent, or lost the row to another worker
    | EmptyPoll(pool: PoolId, tenant: nat)
    | ClaimTask(worker: WorkerId, pool: PoolId, tenant: nat, lease: nat, agent: AgentKey, id: TaskId)
    | Heartbeat(worker: WorkerId, id: TaskId, lease: nat)
      // executor, gated on the lease
    | PutCheckpoint(worker: WorkerId, id: TaskId, row: C.Row)
    | PutWrites(worker: WorkerId, id: TaskId, call: W.Call)
    | StepCost(worker: WorkerId, id: TaskId, checkpoint: CheckpointId, cost: nat)
    | SupervisorCost(worker: WorkerId, id: TaskId, checkpoint: CheckpointId, cost: nat)
    | Complete(worker: WorkerId, id: TaskId, note: MemoryNote)
    | Retry(worker: WorkerId, id: TaskId, claim: nat)
    | Abandon(worker: WorkerId, id: TaskId, reason: DeadLetterReason, note: MemoryNote)
    | BudgetPause(worker: WorkerId, id: TaskId, limit: PauseReason, resumeAt: Option<Time>)
    | Interrupt(worker: WorkerId, id: TaskId, approval: bool)
      // executor, not gated
    | SandboxCharge(id: TaskId, cost: nat)
    | SandboxMirror(id: TaskId, cost: nat, checkpoint: CheckpointId)
    | CompactionCharge(id: TaskId, ref: CostRef, cost: nat, turn: Option<nat>)
      // reaper, one matching row at a time
    | Requeue(id: TaskId)
    | Expire(id: TaskId)
    | TimeOut(id: TaskId)
    | HumanTimeOut(id: TaskId)
    | Recover(id: TaskId)
    | CacheHourCost(agent: AgentKey)
    | ReconcileCounts
    | ZeroCounts
    | ReconcileCosts
    | ZeroCosts
    | Prune
      // API
    | SetAgent(agent: AgentKey, config: Agent)
    | Submit(id: TaskId, agent: AgentKey, pool: PoolId, maxRetries: nat, timeoutSeconds: nat)
    | Cancel(id: TaskId)
    | Approve(id: TaskId, approved: bool)
    | Respond(id: TaskId)
    | FollowUp(id: TaskId)
    | Resume(id: TaskId)
    | Redrive(id: TaskId)

  datatype Role = Poller | Executor | Reaper | Api

  function Actor(step: Step): Role
  {
    if step.Tick? || step.EmptyPoll? || step.ClaimTask? || step.Heartbeat? then Poller
    else if step.PutCheckpoint? || step.PutWrites? || step.StepCost? || step.SupervisorCost?
            || step.Complete? || step.Retry? || step.Abandon? || step.BudgetPause? || step.Interrupt?
            || step.SandboxCharge? || step.SandboxMirror? || step.CompactionCharge? then Executor
    else if step.Requeue? || step.Expire? || step.TimeOut? || step.HumanTimeOut? || step.Recover?
            || step.CacheHourCost? || step.ReconcileCounts? || step.ZeroCounts?
            || step.ReconcileCosts? || step.ZeroCosts? || step.Prune? then Reaper
    else Api
  }

  // ---- Guards ----------------------------------------------------------------------------

  predicate Owns(db: Db, w: WorkerId, id: TaskId)
  {
    id in db.tasks && db.tasks[id].owner == Some(w)
  }

  predicate HoldsLease(db: Db, w: WorkerId, id: TaskId)
  {
    Owns(db, w, id) && db.tasks[id].status == Running
  }

  /** Queued and past its retry delay. */
  predicate Ready(t: Task, now: Time)
  {
    t.status == Queued && (t.retryAfter.None? || t.retryAfter.value < now)
  }

  predicate Candidate(db: Db, id: TaskId, a: AgentKey, pool: PoolId)
  {
    id in db.tasks && db.tasks[id].agent == a && db.tasks[id].pool == pool && Ready(db.tasks[id], db.now)
  }

  ghost predicate Eligible(db: Db, pool: PoolId, tenant: nat, a: AgentKey)
  {
    && a in db.runtime && a in db.agents && a.tenant == tenant
    && db.agents[a].active
    && db.runtime[a].running < db.agents[a].maxConcurrent
    && db.runtime[a].hourCost < db.agents[a].budgetPerHour
    && exists id :: Candidate(db, id, a, pool)
  }

  /** An eligible agent with the oldest scheduler cursor. */
  ghost predicate NextAgent(db: Db, pool: PoolId, tenant: nat, a: AgentKey)
  {
    && Eligible(db, pool, tenant, a)
    && forall b :: Eligible(db, pool, tenant, b) ==> db.runtime[a].cursor <= db.runtime[b].cursor
  }

  /** That agent's oldest ready task in the pool. */
  ghost predicate NextTask(db: Db, a: AgentKey, pool: PoolId, id: TaskId)
  {
    && Candidate(db, id, a, pool)
    && forall other :: Candidate(db, other, a, pool) ==> db.tasks[id].createdAt <= db.tasks[other].createdAt
  }

  function QueuedAgents(db: Db, pool: PoolId, tenant: nat): set<AgentKey>
  {
    set id | id in db.tasks && db.tasks[id].pool == pool && db.tasks[id].agent.tenant == tenant
             && db.tasks[id].status == Queued :: db.tasks[id].agent
  }

  /** The pre-claim upsert: every agent with queued work in the pool gets a runtime row. */
  function EnsureRuntime(db: Db, pool: PoolId, tenant: nat): Db
  {
    db.(runtime := map a | a in db.runtime.Keys + QueuedAgents(db, pool, tenant) ::
                     if a in db.runtime then db.runtime[a] else FRESH_RUNTIME)
  }

  predicate LeaseExpired(t: Task, now: Time)
  {
    t.status == Running && t.expiry.Some? && t.expiry.value < now
  }

  predicate Overdue(t: Task, now: Time)
  {
    (t.status == Running || t.status == Queued) && t.timeoutFrom + t.timeoutSeconds * SECOND < now
  }

  predicate HumanOverdue(t: Task, now: Time)
  {
    (t.status == WaitingForApproval || t.status == WaitingForInput)
    && t.humanTimeoutAt.Some? && t.humanTimeoutAt.value < now
  }

  predicate HourlyPaused(t: Task)
  {
    t.status == Paused && t.pauseReason == Some(BudgetPerHour)
  }

  /** Selects the agents of a recovery pass. */
  predicate PauseDue(t: Task, now: Time)
  {
    HourlyPaused(t) && t.resumeAt.Some? && t.resumeAt.value <= now
  }

  /** The hourly recovery of an agent may resume tasks at all. */
  predicate MayRecover(db: Db, a: AgentKey)
  {
    && a in db.agents && db.agents[a].active
    && WindowSum(db.ledger, a, db.now) < db.agents[a].budgetPerHour
    && CountOf(db.runtime, a) < db.agents[a].maxConcurrent
  }

  function CountOf(runtime: map<AgentKey, Runtime>, a: AgentKey): nat
  {
    if a in runtime then runtime[a].running else 0
  }

  ghost predicate NoteFits(db: Db, id: TaskId, note: MemoryNote)
  {
    note.NoMemory? ||
    (if note.checkpoint.Some?
     then C.IsLatest(db.checkpoints, id, true, note.checkpoint.value)
     else !C.HasCheckpoint(db.checkpoints, id, true))
  }

  predicate ClaimFits(db: Db, w: WorkerId, id: TaskId, claim: nat)
  {
    claim < |db.claims| && db.claims[claim].worker == w && db.claims[claim].task == id
  }

  // ---- SET lists of the UPDATE statements ---------------------------------------------------

  function Released(t: Task, status: Status): Task
  {
    t.(status := status, owner := None, expiry := None, version := t.version + 1)
  }

  function Claimed(t: Task, w: WorkerId, expiry: Time): Task
  {
    t.(status := Running, owner := Some(w), expiry := Some(expiry), version := t.version + 1)
  }

  function Requeued(t: Task, now: Time): Task
  {
    Released(t, Queued).(retryCount := t.retryCount + 1,
                         retryAfter := Some(now + Pow2(t.retryCount) * SECOND),
                         retryHistory := t.retryHistory + [now])
  }

  function DeadLettered(t: Task, reason: DeadLetterReason, lastWorker: Option<WorkerId>): Task
  {
    Released(t, DeadLetter).(deadLetterReason := Some(reason), lastWorker := lastWorker)
  }

  function HumanTimedOut(t: Task): Task
  {
    t.(status := DeadLetter, deadLetterReason := Some(HumanInputTimeout), humanTimeoutAt := None,
       version := t.version + 1)
  }

  function Resumed(t: Task): Task
  {
    t.(status := Queued, pauseReason := None, resumeAt := None, version := t.version + 1)
  }

  /** The executor's retry writes counters computed from its claim, not from the row. */
  function RetryScheduled(t: Task, c: Claim, now: Time): Task
  {
    Released(t, Queued).(retryCount := c.retryCount + 1,
                         retryAfter := Some(now + Min(300, Pow2(c.retryCount + 1)) * SECOND),
                         retryHistory := t.retryHistory + [now])
  }

  function PausedFor(t: Task, reason: PauseReason, resumeAt: Option<Time>): Task
  {
    Released(t, Paused).(pauseReason := Some(reason), resumeAt := resumeAt)
  }

  function Answered(t: Task, now: Time): Task
  {
    Released(t, Queued).(humanTimeoutAt := None, timeoutFrom := now)
  }

  function Redriven(t: Task, now: Time): Task
  {
    Released(t, Queued).(retryCount := 0, retryAfter := None, lastWorker := None,
                         deadLetterReason := None, timeoutFrom := now)
  }

  function NewTask(a: AgentKey, pool: PoolId, maxRetries: nat, timeoutSeconds: nat, now: Time): Task
  {
    Task(a, pool, Queued, None, None, 1, 0, maxRetries, None, [], now, now, timeoutSeconds,
         None, None, None, None, None)
  }

  // ---- Lifecycle moves ------------------------------------------------------------------------

  /** A status change: the new row, the event logged with it, and whether the transaction
      decrements the agent's running count. */
  datatype Move = Move(
    id: TaskId, row: Task, kind: EventKind, before: Option<Status>, worker: Option<WorkerId>, release: bool)

  function InterruptMove(t: Task, w: WorkerId, id: TaskId, approval: bool, now: Time): Move
  {
    var status := if approval then WaitingForApproval else WaitingForInput;
    Move(id, Released(t, status).(humanTimeoutAt := Some(now + 24 * HOUR)),
         if approval then TaskApprovalRequested else TaskInputRequested, Some(Running), Some(w), true)
  }

  function RetryMove(db: Db, w: WorkerId, id: TaskId, claim: nat): Option<Move>
  {
    if !(ClaimFits(db, w, id, claim) && HoldsLease(db, w, id)) then None
    else
      var t, c := db.tasks[id], db.claims[claim];
      if c.retryCount >= c.maxRetries
      then Some(Move(id, DeadLettered(t, RetriesExhausted, Some(w)), TaskDeadLettered, Some(Running), Some(w), true))
      else Some(Move(id, RetryScheduled(t, c, db.now), TaskRetryScheduled, Some(Running), Some(w), true))
  }

  ghost function PollerMove(db: Db, step: Step): Option<Move>
  {
    match step
    case ClaimTask(w, pool, tenant, lease, a, id) =>
      var ready := EnsureRuntime(db, pool, tenant);
      if NextAgent(ready, pool, tenant, a) && NextTask(ready, a, pool, id)
      then Some(Move(id, Claimed(db.tasks[id], w, db.now + lease), TaskClaimed, Some(Queued), Some(w), false))
      else None
    case _ => None
  }

  ghost function ExecutorMove(db: Db, step: Step): Option<Move>
  {
    match step
    case Complete(w, id, note) =>
      if HoldsLease(db, w, id) && NoteFits(db, id, note)
      then Some(Move(id, Released(db.tasks[id], Completed), TaskCompleted, Some(Running), Some(w), true))
      else None
    case Retry(w, id, claim) => RetryMove(db, w, id, claim)
    case Abandon(w, id, reason, note) =>
      if HoldsLease(db, w, id) && NoteFits(db, id, note)
      then Some(Move(id, DeadLettered(db.tasks[id], reason, Some(w)), TaskDeadLettered, Some(Running), Some(w), true))
      else None
    case BudgetPause(w, id, limit, resumeAt) =>
      if Owns(db, w, id)
      then Some(Move(id, PausedFor(db.tasks[id], limit, resumeAt), TaskPaused, Some(Running), Some(w), true))
      else None
    case Interrupt(w, id, approval) =>
      if Owns(db, w, id) then Some(InterruptMove(db.tasks[id], w, id, approval, db.now)) else None
    case _ => None
  }

  function ReaperMove(db: Db, step: Step): Option<Move>
  {
    match step
    case Requeue(id) =>
      if id in db.tasks && LeaseExpired(db.tasks[id], db.now) && db.tasks[id].retryCount < db.tasks[id].maxRetries
      then Some(Move(id, Requeued(db.tasks[id], db.now), TaskReclaimed, Some(Running), None, true))
      else None
    case Expire(id) =>
      if id in db.tasks && LeaseExpired(db.tasks[id], db.now) && db.tasks[id].retryCount >= db.tasks[id].maxRetries
      then Some(Move(id, DeadLettered(db.tasks[id], RetriesExhausted, db.tasks[id].owner),
                     TaskDeadLettered, Some(Running), None, true))
      else None
    case TimeOut(id) =>
      if id in db.tasks && Overdue(db.tasks[id], db.now)
      then Some(Move(id, DeadLettered(db.tasks[id], TaskTimeout, db.tasks[id].owner),
                     TaskDeadLettered, None, None, true))
      else None
    case HumanTimeOut(id) =>
      if id in db.tasks && HumanOverdue(db.tasks[id], db.now)
      then Some(Move(id, HumanTimedOut(db.tasks[id]), TaskDeadLettered, None, None, false))
      else None
    case Recover(id) =>
      if id in db.tasks && HourlyPaused(db.tasks[id]) && MayRecover(db, db.tasks[id].agent)
      then Some(Move(id, Resumed(db.tasks[id]), TaskResumed, Some(Paused), None, false))
      else None
    case _ => None
  }

  function ApiMove(db: Db, step: Step): Option<Move>
  {
    match step
    case Submit(id, a, pool, maxRetries, timeoutSeconds) =>
      if id !in db.tasks && a in db.agents && db.agents[a].active
      then Some(Move(id, NewTask(a, pool, maxRetries, timeoutSeconds, db.now), TaskSubmitted, None, None, false))
      else None
    case Cancel(id) =>
      if id in db.tasks && db.tasks[id].status !in {Completed, DeadLetter}
      then Some(Move(id, DeadLettered(db.tasks[id], CancelledByUser, db.tasks[id].owner).(humanTimeoutAt := None),
                     TaskCancelled, Some(db.tasks[id].status), None, false))
      else None
    case Approve(id, approved) =>
      if id in db.tasks && db.tasks[id].status == WaitingForApproval
      then Some(Move(id, Answered(db.tasks[id], db.now), if approved then TaskApproved else TaskRejected,
                     Some(WaitingForApproval), None, false))
      else None
    case Respond(id) =>
      if id in db.tasks && db.tasks[id].status == WaitingForInput
      then Some(Move(id, Answered(db.tasks[id], db.now), TaskInputReceived, Some(WaitingForInput), None, false))
      else None
    case FollowUp(id) =>
      if id in db.tasks && db.tasks[id].status == Completed
      then Some(Move(id, Released(db.tasks[id], Queued).(timeoutFrom := db.now),
                     TaskFollowUp, Some(Completed), None, false))
      else None
    case Resume(id) =>
      if id in db.tasks && db.tasks[id].status == Paused && db.tasks[id].agent in db.agents
         && TaskSum(db.ledger, id) <= db.agents[db.tasks[id].agent].budgetPerTask
         && db.agents[db.tasks[id].agent].active
      then Some(Move(id, Resumed(db.tasks[id]), TaskResumed, Some(Paused), None, false))
      else None
    case Redrive(id) =>
      if id in db.tasks && db.tasks[id].status == DeadLetter
      then Some(Move(id, Redriven(db.tasks[id], db.now), TaskRedriven, Some(DeadLetter), None, false))
      else None
    case _ => None
  }

  /** The status change a step makes in `db`, if its guard holds. */
  ghost function MoveOf(db: Db, step: Step): Option<Move>
  {
    match Actor(step)
    case Poller => PollerMove(db, step)
    case Executor => ExecutorMove(db, step)
    case Reaper => ReaperMove(db, step)
    case Api => ApiMove(db, step)
  }

  /** Decrement floored at zero; an agent without a row gets a fresh one. */
  function Decremented(runtime: map<AgentKey, Runtime>, a: AgentKey): map<AgentKey, Runtime>
  {
    if a in runtime then runtime[a := runtime[a].(running := Max(runtime[a].running - 1, 0))]
    else runtime[a := FRESH_RUNTIME]
  }

  function HourCostAdded(runtime: map<AgentKey, Runtime>, a: AgentKey, delta: nat): map<AgentKey, Runtime>
  {
    if a in runtime then runtime[a := runtime[a].(hourCost := runtime[a].hourCost + delta)]
    else runtime[a := FRESH_RUNTIME.(hourCost := delta)]
  }

  /** The task update, its event and the count decrement, as one transaction. */
  function Enact(db: Db, m: Move): Db
  {
    db.(tasks := db.tasks[m.id := m.row],
        events := db.events + [Event(m.id, m.kind, m.before, Some(m.row.status), m.worker)],
        runtime := if m.release then Decremented(db.runtime, m.row.agent) else db.runtime)
  }

  function Billed(db: Db, c: Charge): Db
  {
    if Accepts(db.ledger, c) then db.(ledger := db.ledger + [c], billed := db.billed + [c]) else db
  }

  function SpendOf(db: Db, id: TaskId, ref: CostRef, cost: nat): Charge
    requires id in db.tasks
  {
    Charge(db.tasks[id].agent, id, ref, cost, ModelTokenSpend, None, db.now)
  }

  /** The summarizer's ledger row and its share of the hourly window. */
  function Summarized(db: Db, id: TaskId, ref: CostRef, cost: nat): Db
    requires id in db.tasks
  {
    if cost > 0 then
      Billed(db, SpendOf(db, id, ref, cost)).(runtime := HourCostAdded(db.runtime, db.tasks[id].agent, cost))
    else db
  }

  /** The embedding's ledger row, written whenever an embedding was computed. */
  function Embedded(db: Db, id: TaskId, ref: CostRef, cost: Option<nat>): Db
    requires id in db.tasks
  {
    if cost.Some? then Billed(db, SpendOf(db, id, ref, cost.value)) else db
  }

  function NoteCost(note: MemoryNote): nat
  {
    if note.NoMemory? then 0
    else note.summarizer + if note.embedding.Some? then note.embedding.value else 0
  }

  /** The memory branch of a terminal transaction: a marker event and the memory costs. Only a
      completion bills the summarizer and mirrors the cost onto the checkpoint. */
  function Noted(db: Db, w: WorkerId, id: TaskId, note: MemoryNote, completed: bool): Db
    requires id in db.tasks
  {
    if note.NoMemory? then db
    else
      var marked := db.(events := db.events + [Event(id, MemoryWritten, None, None, Some(w))]);
      if note.checkpoint.None? then marked
      else
        var ref := AtCheckpoint(note.checkpoint.value);
        if completed then
          var billed := Embedded(Summarized(marked, id, ref, note.summarizer), id, ref, note.embedding);
          billed.(checkpoints := C.AddCost(billed.checkpoints, id, note.checkpoint.value, NoteCost(note)))
        else Embedded(marked, id, ref, note.embedding)
  }

  /** Effects of a moving step besides the move itself. */
  function Prepared(db: Db, step: Step): Db
  {
    match step
    case ClaimTask(w, pool, tenant, lease, a, id) => EnsureRuntime(db, pool, tenant)
    case Complete(w, id, note) => if id in db.tasks then Noted(db, w, id, note, true) else db
    case Abandon(w, id, reason, note) => if id in db.tasks then Noted(db, w, id, note, false) else db
    case _ => db
  }

  function Finished(db: Db, step: Step): Db
  {
    match step
    case ClaimTask(w, pool, tenant, lease, a, id) =>
      if id in db.tasks && a in db.runtime then
        db.(runtime := db.runtime[a := db.runtime[a].(running := db.runtime[a].running + 1, cursor := db.now)],
            claims := db.claims + [Claim(id, w, db.tasks[id].retryCount, db.tasks[id].maxRetries)])
      else db
    case _ => db
  }

  // ---- Steps that change no status -----------------------------------------------------------

  /** The running tasks of an agent. */
  function RunningSet(tasks: map<TaskId, Task>, a: AgentKey): set<TaskId>
  {
    set id | id in tasks && tasks[id].agent == a && tasks[id].status == Running
  }

  function StepCharged(db: Db, id: TaskId, checkpoint: CheckpointId, cost: nat): Db
    requires id in db.tasks
  {
    Billed(db, SpendOf(db, id, AtCheckpoint(checkpoint), cost)).(
      runtime := HourCostAdded(db.runtime, db.tasks[id].agent, cost))
  }

  /** Agents with a charge inside the rolling window. */
  predicate SpentThisHour(ledger: seq<Charge>, a: AgentKey, now: Time)
  {
    exists c | c in ledger :: InWindow(c, a, now)
  }

  ghost function PollerQuiet(db: Db, step: Step): Db
  {
    match step
    case Tick(d) => db.(now := db.now + d)
    case EmptyPoll(pool, tenant) => EnsureRuntime(db, pool, tenant)
    case Heartbeat(w, id, lease) =>
      if HoldsLease(db, w, id)
      then db.(tasks := db.tasks[id := db.tasks[id].(expiry := Some(db.now + lease))])
      else db
    case _ => db
  }

  ghost function ExecutorQuiet(db: Db, step: Step): Db
  {
    match step
    case PutCheckpoint(w, id, row) =>
      if HoldsLease(db, w, id)
      then db.(checkpoints := C.Upsert(db.checkpoints, row.(task := id, worker := w, cost := 0, createdAt := db.now)))
      else db
    case PutWrites(w, id, call) =>
      if HoldsLease(db, w, id) then db.(writes := W.Put(db.writes, call.(task := id))) else db
    case StepCost(w, id, checkpoint, cost) =>
      if HoldsLease(db, w, id)
      then StepCharged(db, id, checkpoint, cost).(checkpoints := C.SetCost(db.checkpoints, id, checkpoint, cost))
      else db
    case SupervisorCost(w, id, checkpoint, cost) =>
      if HoldsLease(db, w, id)
      then StepCharged(db, id, checkpoint, cost).(checkpoints := C.AddCost(db.checkpoints, id, checkpoint, cost))
      else db
    case SandboxCharge(id, cost) =>
      if id in db.tasks then Billed(db, SpendOf(db, id, AtSandbox, cost)) else db
    case SandboxMirror(id, cost, checkpoint) =>
      if C.IsLatest(db.checkpoints, id, true, checkpoint)
      then db.(checkpoints := C.MirrorCost(db.checkpoints, checkpoint, cost))
      else db
    case CompactionCharge(id, ref, cost, turn) =>
      if id in db.tasks
      then Billed(db, Charge(db.tasks[id].agent, id, ref, cost, CompactionTier3, turn, db.now))
      else db
    case _ => db
  }

  ghost function ReaperQuiet(db: Db, step: Step): Db
  {
    match step
    case CacheHourCost(a) =>
      if a in db.runtime
      then db.(runtime := db.runtime[a := db.runtime[a].(hourCost := WindowSum(db.ledger, a, db.now))])
      else db
    case ReconcileCounts =>
      db.(runtime := map a | a in db.runtime ::
            if RunningSet(db.tasks, a) != {}
            then db.runtime[a].(running := |RunningSet(db.tasks, a)|) else db.runtime[a])
    case ZeroCounts =>
      db.(runtime := map a | a in db.runtime ::
            if RunningSet(db.tasks, a) == {} then db.runtime[a].(running := 0) else db.runtime[a])
    case ReconcileCosts =>
      db.(runtime := map a | a in db.runtime ::
            if SpentThisHour(db.ledger, a, db.now)
            then db.runtime[a].(hourCost := WindowSum(db.ledger, a, db.now)) else db.runtime[a])
    case ZeroCosts =>
      db.(runtime := map a | a in db.runtime ::
            if !SpentThisHour(db.ledger, a, db.now) && db.runtime[a].hourCost > 0
            then db.runtime[a].(hourCost := 0) else db.runtime[a])
    case Prune => db.(ledger := Pruned(db.ledger, db.now))
    case _ => db
  }

  function ApiQuiet(db: Db, step: Step): Db
  {
    match step
    case SetAgent(a, config) =>
      db.(agents := db.agents[a := config],
          runtime := if a in db.agents || a in db.runtime then db.runtime else db.runtime[a := FRESH_RUNTIME])
    case _ => db
  }

  ghost function Quiet(db: Db, step: Step): Db
  {
    match Actor(step)
    case Poller => PollerQuiet(db, step)
    case Executor => ExecutorQuiet(db, step)
    case Reaper => ReaperQuiet(db, step)
    case Api => ApiQuiet(db, step)
  }

  // ---- Runs -----------------------------------------------------------------------------------

  ghost function Apply(db: Db, step: Step): Db
  {
    var m := MoveOf(db, step);
    if m.Some? then Finished(Enact(Prepared(db, step), m.value), step) else Quiet(db, step)
  }

  ghost function Run(db: Db, steps: seq<Step>): Db
    decreases |steps|
  {
    if steps == [] then db else Run(Apply(db, steps[0]), steps[1..])
  }

  /** A freshly migrated database. */
  predicate Initial(db: Db)
  {
    && db.now > EPOCH
    && db.tasks == map[] && db.agents == map[] && db.runtime == map[]
    && db.events == [] && db.ledger == [] && db.billed == []
    && db.checkpoints == [] && db.writes == map[] && db.claims == []
  }

  function EmptyDb(): (db: Db)
    ensures Initial(db)
  {
    Db(1, map[], map[], map[], [], [], [], [], map[], [])
  }

  ghost predicate Reachable(db: Db)
  {
    exists start, steps: seq<Step> :: Initial(start) && Run(start, steps) == db
  }

  lemma {:induction false} RunConcat(db: Db, xs: seq<Step>, ys: seq<Step>)
    ensures Run(db, xs + ys) == Run(Run(db, xs), ys)
    decreases |xs|
  {
    if xs == [] {
      assert xs + ys == ys;
    } else {
      assert (xs + ys)[1..] == xs[1..] + ys;
      RunConcat(Apply(db, xs[0]), xs[1..], ys);
    }
  }

  lemma TickResult(db: Db, d: nat)
    ensures Apply(db, Tick(d)) == db.(now := db.now + d)
  {
    hide ExecutorMove, ReaperMove, ApiMove;
  }

  lemma EmptyRun(db: Db)
    ensures Run(db, []) == db
  {
  }

  lemma RunCons(db: Db, step: Step, rest: seq<Step>)
    ensures Run(db, [step] + rest) == Run(Apply(db, step), rest)
  {
    hide Apply;
    assert ([step] + rest)[1..] == rest;
  }

  lemma SingleRun(db: Db, step: Step)
    ensures Run(db, [step]) == Apply(db, step)
  {
    hide Apply;
    assert [step][1..] == [];
  }
}
