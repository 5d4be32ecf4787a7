/** Shapes of a step, and the invariants that hold in every reachable state. */
module Invariants {
  import opened Tables
  import opened Ledger
  import opened Lifecycle
  import C = Checkpoints
  import W = PendingWrites

  /** A task has an owner and an expiry exactly while it is running. */
  predicate LeaseAgrees(t: Task)
  {
    (t.status == Running <==> t.owner.Some?) && (t.status == Running <==> t.expiry.Some?)
  }

  predicate LeasesAgree(db: Db)
  {
    forall id | id in db.tasks :: LeaseAgrees(db.tasks[id])
  }

  /** What every status change has in common. */
  predicate LegalMove(db: Db, m: Move)
  {
    LeaseAgrees(m.row) &&
    if m.id in db.tasks then
      var t := db.tasks[m.id];
      && m.row.agent == t.agent && m.row.pool == t.pool
      && m.row.createdAt == t.createdAt && m.row.maxRetries == t.maxRetries
      && m.row.version == t.version + 1
      && m.row.status != t.status
      && (m.before.None? || m.before.value == t.status)
      && t.retryHistory <= m.row.retryHistory
      && (m.row.status == Running <==> m.kind == TaskClaimed)
      && (m.row.status == Running ==> t.status == Queued && !m.release)
      && (m.release ==> t.status == Running || (t.status == Queued && m.row.status == DeadLetter))
    else
      && m.row.version == 1 && m.row.status == Queued && m.before.None? && !m.release
      && m.row.retryCount == 0 && m.row.retryHistory == []
  }

  lemma ExecutorMovesAreLegal(db: Db, step: Step)
    requires LeasesAgree(db)
    ensures ExecutorMove(db, step).Some? ==> LegalMove(db, ExecutorMove(db, step).value)
  {
  }

  lemma ReaperMovesAreLegal(db: Db, step: Step)
    requires LeasesAgree(db)
    ensures ReaperMove(db, step).Some? ==> LegalMove(db, ReaperMove(db, step).value)
  {
  }

  lemma ApiMovesAreLegal(db: Db, step: Step)
    requires LeasesAgree(db)
    ensures ApiMove(db, step).Some? ==> LegalMove(db, ApiMove(db, step).value)
  {
  }

  lemma MovesAreLegal(db: Db, step: Step)
    requires LeasesAgree(db)
    requires MoveOf(db, step).Some?
    ensures LegalMove(db, MoveOf(db, step).value)
  {
    match Actor(step)
    case Poller =>
    case Executor => ExecutorMovesAreLegal(db, step);
    case Reaper => ReaperMovesAreLegal(db, step);
    case Api => ApiMovesAreLegal(db, step);
  }

  /** The runtime table may gain zeroed rows and hourly cost, but no count or cursor moves. */
  ghost predicate CountsKept(before: map<AgentKey, Runtime>, after: map<AgentKey, Runtime>)
  {
    && before.Keys <= after.Keys
    && (forall a | a in before :: after[a].running == before[a].running && after[a].cursor == before[a].cursor)
    && (forall a | a in after && a !in before :: after[a].running == 0 && after[a].cursor == EPOCH)
  }

  /** Only the cost tables and the runtime table's hourly cost differ. */
  ghost predicate OnlyCosts(db: Db, after: Db)
  {
    && after == db.(runtime := after.runtime, ledger := after.ledger, billed := after.billed,
                    checkpoints := after.checkpoints)
    && CountsKept(db.runtime, after.runtime)
  }

  lemma BillingFrame(db: Db, id: TaskId, ref: CostRef, cost: nat, embedding: Option<nat>)
    requires id in db.tasks
    ensures OnlyCosts(db, Summarized(db, id, ref, cost))
    ensures OnlyCosts(db, Embedded(db, id, ref, embedding))
  {
  }

  lemma NotedFrame(db: Db, w: WorkerId, id: TaskId, note: MemoryNote, completed: bool)
    requires id in db.tasks
    ensures var marked := db.(events := db.events +
              (if note.NoMemory? then [] else [Event(id, MemoryWritten, None, None, Some(w))]));
            OnlyCosts(marked, Noted(db, w, id, note, completed))
  {
    if note.NoMemory? {
      assert db.events + [] == db.events;
    } else if note.checkpoint.Some? {
      var marked := db.(events := db.events + [Event(id, MemoryWritten, None, None, Some(w))]);
      var ref := AtCheckpoint(note.checkpoint.value);
      BillingFrame(marked, id, ref, note.summarizer, note.embedding);
      if completed {
        BillingFrame(Summarized(marked, id, ref, note.summarizer), id, ref, note.summarizer, note.embedding);
      }
    }
  }

  lemma BillingGrows(db: Db, id: TaskId, ref: CostRef, cost: nat, embedding: Option<nat>)
    requires id in db.tasks
    ensures var after := Summarized(db, id, ref, cost); db.ledger <= after.ledger && db.billed <= after.billed
    ensures var after := Embedded(db, id, ref, embedding); db.ledger <= after.ledger && db.billed <= after.billed
    ensures id in Summarized(db, id, ref, cost).tasks
  {
    hide Accepts, HourCostAdded;
  }

  /** A memory note only ever adds to the ledger. */
  lemma NotedGrows(db: Db, w: WorkerId, id: TaskId, note: MemoryNote, completed: bool)
    requires id in db.tasks
    ensures var after := Noted(db, w, id, note, completed); db.ledger <= after.ledger && db.billed <= after.billed
  {
    hide Summarized, Embedded, C.AddCost;
    if note.Memory? && note.checkpoint.Some? {
      var marked := db.(events := db.events + [Event(id, MemoryWritten, None, None, Some(w))]);
      var ref := AtCheckpoint(note.checkpoint.value);
      BillingGrows(marked, id, ref, note.summarizer, note.embedding);
      if completed {
        BillingGrows(Summarized(marked, id, ref, note.summarizer), id, ref, note.summarizer, note.embedding);
      }
    }
  }

  /** The marker event a moving step may log before its status event. */
  function Marker(step: Step): seq<Event>
  {
    match step
    case Complete(w, id, note) =>
      if note.NoMemory? then [] else [Event(id, MemoryWritten, None, None, Some(w))]
    case Abandon(w, id, reason, note) =>
      if note.NoMemory? then [] else [Event(id, MemoryWritten, None, None, Some(w))]
    case _ => []
  }

  function StatusEvent(m: Move): Event
  {
    Event(m.id, m.kind, m.before, Some(m.row.status), m.worker)
  }

  lemma MarkedTaskExists(db: Db, step: Step)
    requires MoveOf(db, step).Some? && (step.Complete? || step.Abandon?)
    ensures step.id in db.tasks
  {
  }

  lemma PreparedFrame(db: Db, step: Step)
    requires MoveOf(db, step).Some?
    ensures OnlyCosts(db.(events := db.events + Marker(step)), Prepared(db, step))
  {
    hide MoveOf, Noted;
    assert db.events + [] == db.events;
    if step.Complete? {
      MarkedTaskExists(db, step);
      NotedFrame(db, step.worker, step.id, step.note, true);
    } else if step.Abandon? {
      MarkedTaskExists(db, step);
      NotedFrame(db, step.worker, step.id, step.note, false);
    }
  }

  lemma OnlyClaimsClaim(db: Db, step: Step)
    ensures ExecutorMove(db, step).Some? ==> ExecutorMove(db, step).value.kind != TaskClaimed
    ensures ReaperMove(db, step).Some? ==> ReaperMove(db, step).value.kind != TaskClaimed
    ensures ApiMove(db, step).Some? ==> ApiMove(db, step).value.kind != TaskClaimed
    ensures step.SetAgent? ==> ApiMove(db, step).None?
  {
    hide NoteFits, WindowSum, WindowStart, MayRecover, TaskSum;
  }

  /** Only a claim logs a claim event, and it needs its task and its agent's runtime row. */
  lemma ClaimMove(db: Db, step: Step)
    requires MoveOf(db, step).Some?
    ensures MoveOf(db, step).value.kind == TaskClaimed <==> step.ClaimTask?
    ensures !step.Tick? && !step.Heartbeat? && !step.SetAgent?
    ensures step.ClaimTask? ==>
              && MoveOf(db, step).value.id == step.id && step.id in db.tasks && !MoveOf(db, step).value.release
              && MoveOf(db, step).value.row == Claimed(db.tasks[step.id], step.worker, db.now + step.lease)
              && step.agent in EnsureRuntime(db, step.pool, step.tenant).runtime
              && db.tasks[step.id].agent == step.agent
  {
    hide ExecutorMove, ReaperMove, ApiMove;
    OnlyClaimsClaim(db, step);
  }

  lemma EnsuredIsPrepared(db: Db, step: Step)
    ensures step.ClaimTask? ==> Prepared(db, step) == EnsureRuntime(db, step.pool, step.tenant)
  {
  }

  /** A moving step changes one task row and logs one status event. */
  lemma MoveEffects(db: Db, step: Step)
    requires MoveOf(db, step).Some?
    ensures !step.Tick? && !step.Heartbeat? && !step.SetAgent?
    ensures var m, after := MoveOf(db, step).value, Apply(db, step);
      && after.tasks == db.tasks[m.id := m.row]
      && after.events == db.events + Marker(step) + [StatusEvent(m)]
      && after.now == db.now && after.agents == db.agents && after.writes == db.writes
      && after.claims == db.claims +
           (if step.ClaimTask?
            then [Claim(m.id, step.worker, m.row.retryCount, m.row.maxRetries)] else [])
  {
    hide MoveOf, Prepared, EnsureRuntime, Decremented, Quiet;
    PreparedFrame(db, step);
    ClaimMove(db, step);
    EnsuredIsPrepared(db, step);
    assert db.claims + [] == db.claims;
  }

  lemma ChargeFrame(db: Db, id: TaskId, checkpoint: CheckpointId, cost: nat)
    requires id in db.tasks
    ensures OnlyCosts(db, StepCharged(db, id, checkpoint, cost))
  {
  }

  /** The executor's quiet steps touch only costs, checkpoints and pending writes. */
  lemma QuietExecutor(db: Db, step: Step)
    ensures var after := ExecutorQuiet(db, step);
      after == db.(runtime := after.runtime, ledger := after.ledger, billed := after.billed,
                   checkpoints := after.checkpoints, writes := after.writes)
      && CountsKept(db.runtime, after.runtime)
  {
    hide StepCharged, C.Upsert, C.SetCost, C.AddCost, C.MirrorCost, C.IsLatest, W.Put;
    if (step.StepCost? || step.SupervisorCost?) && step.id in db.tasks {
      ChargeFrame(db, step.id, step.checkpoint, step.cost);
    }
  }

  /** The reaper's quiet steps touch only the runtime table and the ledger. */
  lemma QuietReaper(db: Db, step: Step)
    ensures var after := ReaperQuiet(db, step);
      && after == db.(runtime := after.runtime, ledger := after.ledger)
      && after.runtime.Keys == db.runtime.Keys
      && forall a | a in db.runtime :: after.runtime[a].cursor == db.runtime[a].cursor
  {
    hide WindowSum, SpentThisHour, RunningSet;
  }

  /** Statuses, events and claims are untouched. */
  predicate SameStory(db: Db, after: Db)
  {
    after.tasks == db.tasks && after.events == db.events && after.claims == db.claims
  }

  /** A heartbeat moves one expiry. */
  function Beaten(db: Db, step: Step): map<TaskId, Task>
  {
    if step.Heartbeat? && HoldsLease(db, step.worker, step.id)
    then db.tasks[step.id := db.tasks[step.id].(expiry := Some(db.now + step.lease))]
    else db.tasks
  }

  /** What every step without a move leaves alone, or changes in a known way. */
  predicate QuietFrame(db: Db, step: Step, after: Db)
  {
    && SameStory(db.(tasks := Beaten(db, step)), after)
    && after.now == db.now + (if step.Tick? then step.d else 0)
    && after.agents == if step.SetAgent? then db.agents[step.agent := step.config] else db.agents
  }

  lemma QuietPoller(db: Db, step: Step)
    requires Actor(step) == Poller
    ensures QuietFrame(db, step, PollerQuiet(db, step))
  {
    hide Eligible;
  }

  lemma QuietApi(db: Db, step: Step)
    requires Actor(step) == Api
    ensures QuietFrame(db, step, ApiQuiet(db, step))
  {
  }

  /** A step that makes no move leaves statuses, events and claims alone. */
  lemma QuietEffects(db: Db, step: Step)
    requires MoveOf(db, step).None?
    ensures QuietFrame(db, step, Apply(db, step))
  {
    hide MoveOf, PollerQuiet, ExecutorQuiet, ReaperQuiet, ApiQuiet;
    match Actor(step)
    case Poller => QuietPoller(db, step);
    case Executor => QuietExecutor(db, step);
    case Reaper => QuietReaper(db, step);
    case Api => QuietApi(db, step);
  }

  lemma LeasesStayAgreed(db: Db, step: Step)
    requires LeasesAgree(db)
    ensures LeasesAgree(Apply(db, step))
  {
    if MoveOf(db, step).Some? {
      MovesAreLegal(db, step);
      MoveEffects(db, step);
    } else {
      QuietEffects(db, step);
    }
  }

  lemma {:induction false} LeasesAgreeOnRuns(db: Db, steps: seq<Step>)
    requires LeasesAgree(db)
    ensures LeasesAgree(Run(db, steps))
    decreases |steps|
  {
    if steps == [] {
    } else {
      LeasesStayAgreed(db, steps[0]);
      LeasesAgreeOnRuns(Apply(db, steps[0]), steps[1..]);
    }
  }

  /** In every reachable state the lease columns are set exactly on running tasks. */
  lemma LeaseColumnsMeanRunning(db: Db)
    requires Reachable(db)
    ensures LeasesAgree(db)
  {
    var start, steps: seq<Step> :| Initial(start) && Run(start, steps) == db;
    LeasesAgreeOnRuns(start, steps);
  }

  /** The budget pause and the human-input pause test only the owner, yet in a reachable state
      they fire only from running, and no executor step leaves a terminal status. */
  lemma ExecutorStepsLeaveOnlyRunning(db: Db, step: Step)
    requires Reachable(db)
    requires step.Complete? || step.Retry? || step.Abandon? || step.BudgetPause? || step.Interrupt?
    ensures MoveOf(db, step).Some? ==>
              HoldsLease(db, step.worker, step.id) && MoveOf(db, step).value.before == Some(Running)
    ensures step.id in db.tasks && db.tasks[step.id].status != Running ==> Apply(db, step) == db
  {
    LeaseColumnsMeanRunning(db);
  }
}
