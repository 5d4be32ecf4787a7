/** The transactions of the workers as methods over the shared tables, each tied to the step of
    the state machine it takes, and each keeping the global invariant. */
module Database {
  import opened Tables
  import opened Ledger
  import opened Lifecycle
  import opened Scans
  import C = Checkpoints
  import W = PendingWrites
  import M = MemoryRows
  import H = HourlyBudget
  import A = Admission
  import X = RowChanges
  import P = CheckpointsOnRuns

  /** The exceptions of a reaper pass: how many transactions the first two follow-up scans commit
      before one raises, if any, and whether the pruning raises. */
  datatype PassFailures = PassFailures(recover: Option<nat>, reconcile: Option<nat>, prune: bool)

  /** What the statements of a claim leave, once an agent and a task are chosen. */
  function Taken(db: Db, worker: WorkerId, lease: nat, a: AgentKey, id: TaskId): Db
    requires id in db.tasks && a in db.runtime
  {
    db.(tasks := db.tasks[id := Claimed(db.tasks[id], worker, db.now + lease)],
        runtime := db.runtime[a := db.runtime[a].(running := db.runtime[a].running + 1, cursor := db.now)],
        events := db.events + [Event(id, TaskClaimed, Some(Queued), Some(Running), Some(worker))],
        claims := db.claims + [Claim(id, worker, db.tasks[id].retryCount, db.tasks[id].maxRetries)])
  }

  lemma ClaimResult(db: Db, worker: WorkerId, pool: PoolId, tenant: nat, lease: nat, a: AgentKey, id: TaskId)
    requires var ready := EnsureRuntime(db, pool, tenant);
      NextAgent(ready, pool, tenant, a) && NextTask(ready, a, pool, id)
    ensures var ready := EnsureRuntime(db, pool, tenant); var step := ClaimTask(worker, pool, tenant, lease, a, id);
      && MoveOf(db, step).Some? && id in ready.tasks && a in ready.runtime
      && Apply(db, step) == Taken(ready, worker, lease, a, id)
  {
    hide ExecutorMove, ReaperMove, ApiMove, Quiet, QueuedAgents;
  }

  lemma TakenColumns(db: Db, worker: WorkerId, lease: nat, a: AgentKey, id: TaskId)
    requires id in db.tasks && a in db.runtime
    ensures var t, after := db.tasks[id], Taken(db, worker, lease, a, id);
      && after.tasks == db.tasks[id := t.(status := Running, owner := Some(worker), expiry := Some(db.now + lease),
                                          version := t.version + 1)]
      && after.runtime == db.runtime[a := Runtime(db.runtime[a].running + 1, db.runtime[a].hourCost, db.now)]
      && after.events == db.events + [Event(id, TaskClaimed, Some(Queued), Some(Running), Some(worker))]
      && after.now == db.now
  {
  }

  lemma EmptyPollResult(db: Db, pool: PoolId, tenant: nat)
    ensures Apply(db, EmptyPoll(pool, tenant)) == EnsureRuntime(db, pool, tenant)
  {
    hide ExecutorMove, ReaperMove, ApiMove, EnsureRuntime;
  }

  lemma ChosenIsEligible(db: Db, pool: PoolId, tenant: nat, a: AgentKey)
    requires NextAgent(db, pool, tenant, a)
    ensures Eligible(db, pool, tenant, a)
  {
  }

  /** An event and a count decrement do not depend on rows the statement has already updated. */
  lemma EnactApart(db: Db, m: Move, updated: map<TaskId, Task>)
    requires m.id in updated && updated[m.id] == m.row
    ensures Enact(db.(tasks := updated), m) == Enact(db, m).(tasks := updated)
  {
    assert updated[m.id := m.row] == updated;
  }

  /** The memory table after a terminal transaction that took effect. */
  ghost predicate MemoryAfter(before: M.Rows, after: M.Rows, a: AgentKey, id: TaskId, note: MemoryNote,
                              draft: M.Draft, at: Time)
  {
    if note.Memory? then M.Committed(before, after, a, id, draft, at) else after == before
  }

  lemma ChargeIgnoresCheckpoints(db: Db, rows: seq<C.Row>, id: TaskId, checkpoint: CheckpointId, cost: nat)
    requires id in db.tasks
    ensures StepCharged(db.(checkpoints := rows), id, checkpoint, cost)
         == StepCharged(db, id, checkpoint, cost).(checkpoints := rows)
  {
  }

  /** A task of the agent that the hourly budget paused. */
  predicate PausedOf(tasks: map<TaskId, Task>, id: TaskId, a: AgentKey)
  {
    id in tasks && HourlyPaused(tasks[id]) && tasks[id].agent == a
  }

  /** The listed hourly pauses of the agent, each once, are resumed and no other row changes. */
  ghost predicate ResumedOnly(before: map<TaskId, Task>, after: map<TaskId, Task>, rows: seq<TaskId>, a: AgentKey)
  {
    && Distinct(rows) && after.Keys == before.Keys
    && (forall id | id in rows :: PausedOf(before, id, a))
    && forall id | id in before :: after[id] == if id in rows then Resumed(before[id]) else before[id]
  }

  /** A pause is left behind only when the slots are used up by pauses at least as old. */
  ghost predicate OldestFirst(before: map<TaskId, Task>, rows: seq<TaskId>, a: AgentKey, slots: int)
  {
    && |rows| <= slots
    && forall other | PausedOf(before, other, a) && other !in rows ::
         |rows| == slots && forall id | id in rows && id in before :: before[id].createdAt <= before[other].createdAt
  }

  /** One more resumed row. */
  lemma ResumedMore(before: map<TaskId, Task>, tasks: map<TaskId, Task>, rows: seq<TaskId>, id: TaskId, a: AgentKey)
    requires ResumedOnly(before, tasks, rows, a) && PausedOf(tasks, id, a)
    ensures id in before && before[id].createdAt == tasks[id].createdAt && PausedOf(before, id, a)
    ensures ResumedOnly(before, tasks[id := Resumed(tasks[id])], rows + [id], a)
    ensures forall other | PausedOf(tasks[id := Resumed(tasks[id])], other, a) ::
              other != id && PausedOf(tasks, other, a)
  {
  }

  lemma NoneResumed(tasks: map<TaskId, Task>, a: AgentKey)
    ensures ResumedOnly(tasks, tasks, [], a)
  {
  }

  /** Pauses that were not resumed are still there, as old as they were. */
  lemma StillPaused(before: map<TaskId, Task>, tasks: map<TaskId, Task>, rows: seq<TaskId>, a: AgentKey)
    requires ResumedOnly(before, tasks, rows, a)
    ensures forall other | PausedOf(before, other, a) && other !in rows :: PausedOf(tasks, other, a)
    ensures forall other | PausedOf(tasks, other, a) ::
              other in tasks && other in before && before[other].createdAt == tasks[other].createdAt
  {
  }

  lemma DueIsSelected(db: Db)
    ensures forall id | id in db.tasks && PauseDue(db.tasks[id], db.now) :: H.Selected(db, db.tasks[id].agent)
  {
  }

  lemma NoSteps(db: Db)
    ensures Run(db, []) == db && RecoverSteps([]) == []
  {
  }

  /** Resuming tasks touches nothing that the recovery's guard reads. */
  lemma RecoverStaysAllowed(db: Db, tasks: map<TaskId, Task>, events: seq<Event>, a: AgentKey)
    requires MayRecover(db, a)
    ensures MayRecover(db.(tasks := tasks, events := events), a)
  {
  }

  lemma CacheHourCostResult(db: Db, a: AgentKey)
    ensures Apply(db, CacheHourCost(a)) ==
              if a in db.runtime
              then db.(runtime := db.runtime[a := db.runtime[a].(hourCost := WindowSum(db.ledger, a, db.now))])
              else db
  {
    hide PollerMove, ExecutorMove, ApiMove, WindowSum;
  }

  lemma PrunedMembers(rows: seq<Charge>, now: Time)
    ensures forall c :: c in Pruned(rows, now) <==> c in rows && c.at >= now - 2 * HOUR
  {
    forall c
      ensures c in Pruned(rows, now) <==> c in rows && c.at >= now - 2 * HOUR
    {
      PrunedRows(rows, now, c);
      assert c in Pruned(rows, now) <==> c in multiset(Pruned(rows, now));
      assert c in rows <==> c in multiset(rows);
    }
  }

  class TaskDatabase {
    var now: Time
    var tasks: map<TaskId, Task>
    var agents: map<AgentKey, Agent>
    var runtime: map<AgentKey, Runtime>
    var events: seq<Event>
    var ledger: seq<Charge>
    var checkpoints: seq<C.Row>
    var writes: W.Table
    ghost var billed: seq<Charge>
    ghost var claims: seq<Claim>

    ghost function View(): Db
      reads this
    {
      Db(now, tasks, agents, runtime, events, ledger, billed, checkpoints, writes, claims)
    }

    ghost predicate Valid()
      reads this
    {
      Inv(View())
    }

    constructor (clock: Time)
      requires clock > EPOCH
      ensures Initial(View()) && Valid()
    {
      now := clock;
      tasks, agents, runtime, events, ledger := map[], map[], map[], [], [];
      checkpoints, writes, billed, claims := [], map[], [], [];
      new;
      InitialIsSound(View());
    }

    // ---- Statements shared by the transactions -------------------------------------------------

    method InsertTaskEvent(id: TaskId, kind: EventKind, before: Option<Status>, after: Option<Status>,
                           worker: Option<WorkerId>)
      modifies this`events
      ensures events == old(events) + [Event(id, kind, before, after, worker)]
    {
      events := events + [Event(id, kind, before, after, worker)];
    }

    method DecrementRunningCount(a: AgentKey)
      modifies this`runtime
      ensures runtime == Decremented(old(runtime), a)
    {
      if a in runtime {
        var r := runtime[a];
        runtime := runtime[a := r.(running := Max(r.running - 1, 0))];
      } else {
        runtime := runtime[a := FRESH_RUNTIME];
      }
    }

    method InsertCostRow(c: Charge)
      modifies this`ledger, this`billed
      ensures View() == Billed(old(View()), c)
    {
      var conflict := false;
      var i := 0;
      while i < |ledger|
        invariant 0 <= i <= |ledger|
        invariant conflict <==> exists j :: 0 <= j < i && Conflicts(c, ledger[j])
      {
        if Conflicts(c, ledger[i]) {
          conflict := true;
        }
        i := i + 1;
      }
      assert conflict <==> !Accepts(ledger, c);
      if !conflict {
        ledger := ledger + [c];
        billed := billed + [c];
      }
    }

    method IncrementHourWindowCost(a: AgentKey, delta: nat)
      modifies this`runtime
      ensures runtime == HourCostAdded(old(runtime), a, delta)
    {
      if a in runtime {
        runtime := runtime[a := runtime[a].(hourCost := runtime[a].hourCost + delta)];
      } else {
        runtime := runtime[a := Runtime(0, delta, EPOCH)];
      }
    }

    /** The row update, count decrement and event that end a worker's hold on a task. */
    method Release(m: Move)
      requires m.release
      modifies this
      ensures View() == Enact(old(View()), m)
    {
      tasks := tasks[m.id := m.row];
      DecrementRunningCount(m.row.agent);
      InsertTaskEvent(m.id, m.kind, m.before, Some(m.row.status), m.worker);
    }

    // ---- Poller ---------------------------------------------------------------------------------

    /** Some ready task of the agent in the pool, the oldest one. */
    method FindAgentTask(a: AgentKey, pool: PoolId) returns (found: Option<TaskId>)
      ensures found.Some? ==> NextTask(View(), a, pool, found.value)
      ensures found.None? ==> forall id :: !Candidate(View(), id, a, pool)
    {
      found := None;
      var rest := tasks.Keys;
      while rest != {}
        invariant rest <= tasks.Keys
        invariant found.Some? ==> Candidate(View(), found.value, a, pool)
        invariant forall id | id in tasks.Keys - rest :: Candidate(View(), id, a, pool) ==>
                    found.Some? && tasks[found.value].createdAt <= tasks[id].createdAt
        decreases |rest|
      {
        var id :| id in rest;
        rest := rest - {id};
        var t := tasks[id];
        if t.agent == a && t.pool == pool && t.status == Queued
           && (t.retryAfter.None? || t.retryAfter.value < now)
           && (found.None? || t.createdAt < tasks[found.value].createdAt) {
          found := Some(id);
        }
      }
    }

    /** The eligible agent with the oldest cursor, with its oldest ready task. */
    method FindEligibleAgent(pool: PoolId, tenant: nat) returns (found: Option<(AgentKey, TaskId)>)
      ensures found.Some? ==> NextAgent(View(), pool, tenant, found.value.0)
                              && NextTask(View(), found.value.0, pool, found.value.1)
      ensures found.None? ==> forall a :: !Eligible(View(), pool, tenant, a)
    {
      found := None;
      var rest := runtime.Keys;
      while rest != {}
        invariant rest <= runtime.Keys
        invariant found.Some? ==> Eligible(View(), pool, tenant, found.value.0)
                                  && NextTask(View(), found.value.0, pool, found.value.1)
        invariant forall a | a in runtime.Keys - rest :: Eligible(View(), pool, tenant, a) ==>
                    found.Some? && runtime[found.value.0].cursor <= runtime[a].cursor
        decreases |rest|
      {
        var a :| a in rest;
        rest := rest - {a};
        if a in agents && agents[a].active && a.tenant == tenant
           && runtime[a].running < agents[a].maxConcurrent && runtime[a].hourCost < agents[a].budgetPerHour
           && (found.None? || runtime[a].cursor < runtime[found.value.0].cursor) {
          var task := FindAgentTask(a, pool);
          if task.Some? {
            found := Some((a, task.value));
          }
        }
      }
    }

    /** The pre-claim upsert. */
    method EnsureRuntimeRows(pool: PoolId, tenant: nat)
      modifies this`runtime
      ensures View() == EnsureRuntime(old(View()), pool, tenant)
    {
      var queued := set id | id in tasks && tasks[id].pool == pool && tasks[id].agent.tenant == tenant
                             && tasks[id].status == Queued :: tasks[id].agent;
      runtime := map a | a in runtime.Keys + queued :: if a in runtime then runtime[a] else FRESH_RUNTIME;
    }

    /** The UPDATE of the chosen row, the runtime row and the event. */
    method TakeTask(worker: WorkerId, lease: nat, a: AgentKey, id: TaskId)
      requires id in tasks && a in runtime
      modifies this
      ensures View() == Taken(old(View()), worker, lease, a, id)
    {
      claims := claims + [Claim(id, worker, tasks[id].retryCount, tasks[id].maxRetries)];
      tasks := tasks[id := Claimed(tasks[id], worker, now + lease)];
      runtime := runtime[a := runtime[a].(running := runtime[a].running + 1, cursor := now)];
      InsertTaskEvent(id, TaskClaimed, Some(Queued), Some(Running), Some(worker));
    }

    /** One claim attempt. Only the pre-claim upsert remains when no agent is eligible, or when
        another worker took the chosen row first (`lost`). */
    method TryClaim(worker: WorkerId, pool: PoolId, tenant: nat, lease: nat, lost: bool)
      returns (claimed: Option<(AgentKey, TaskId)>)
      requires Valid()
      modifies this
      ensures Valid()
      ensures claimed.Some? ==>
                && MoveOf(old(View()), ClaimTask(worker, pool, tenant, lease, claimed.value.0, claimed.value.1)).Some?
                && View() == Apply(old(View()),
                                    ClaimTask(worker, pool, tenant, lease, claimed.value.0, claimed.value.1))
      ensures claimed.None? ==> View() == Apply(old(View()), EmptyPoll(pool, tenant)) && tasks == old(tasks)
      ensures claimed.None? <==> lost || forall id :: !A.Startable(old(View()), pool, tenant, id)
      ensures claimed.Some? ==> var (a, id) := claimed.value;
                && A.Startable(old(View()), pool, tenant, id) && A.FirstInLine(old(View()), pool, tenant, id)
                && old(tasks)[id].agent == a
                && tasks == old(tasks)[id := old(tasks)[id].(status := Running, owner := Some(worker),
                                                             expiry := Some(now + lease),
                                                             version := old(tasks)[id].version + 1)]
                && a in runtime && runtime[a].running == CountOf(old(runtime), a) + 1 && runtime[a].cursor == now
                && runtime[a].hourCost == A.CachedCost(old(View()), a)
                && events == old(events) + [Event(id, TaskClaimed, Some(Queued), Some(Running), Some(worker))]
    {
      hide Apply, MoveOf, Inv, Eligible, NextAgent, NextTask, EnsureRuntime, Taken, A.Startable, A.FirstInLine;
      ghost var before := View();
      A.NobodyIff(before, pool, tenant);
      A.EnsureFrame(before, pool, tenant);
      EnsureRuntimeRows(pool, tenant);
      ghost var ready := View();
      claimed := FindEligibleAgent(pool, tenant);
      assert View() == ready;
      if claimed.None? || lost {
        claimed := None;
        EmptyPollResult(before, pool, tenant);
        InvPreserved(before, EmptyPoll(pool, tenant));
      } else {
        var (a, id) := claimed.value;
        ChosenIsEligible(ready, pool, tenant, a);
        ClaimResult(before, worker, pool, tenant, lease, a, id);
        TakenColumns(ready, worker, lease, a, id);
        A.EnsuredRow(before, pool, tenant, a);
        A.ChosenIsFirst(before, pool, tenant, a, id);
        InvPreserved(before, ClaimTask(worker, pool, tenant, lease, a, id));
        TakeTask(worker, lease, a, id);
      }
    }

    // ---- Heartbeat and lease-gated writes -----------------------------------------------------

    /** Number of rows updated; zero tells the worker that its lease was revoked. */
    method SendHeartbeat(worker: WorkerId, id: TaskId, lease: nat) returns (rows: nat)
      requires Valid()
      modifies this
      ensures Valid() && View() == Apply(old(View()), Heartbeat(worker, id, lease))
      ensures var held := id in old(tasks) && old(tasks)[id].owner == Some(worker) && old(tasks)[id].status == Running;
        && rows == (if held then 1 else 0)
        && tasks == (if held then old(tasks)[id := old(tasks)[id].(expiry := Some(now + lease))] else old(tasks))
    {
      hide Inv, ExecutorMove, ReaperMove, ApiMove, ExecutorQuiet, ReaperQuiet, ApiQuiet;
      ghost var before := View();
      rows := 0;
      if id in tasks && tasks[id].owner == Some(worker) && tasks[id].status == Running {
        tasks := tasks[id := tasks[id].(expiry := Some(now + lease))];
        rows := 1;
      }
      InvPreserved(before, Heartbeat(worker, id, lease));
    }

    /** SELECT ... FOR UPDATE of the lease; a false answer is the lease-revoked exception. */
    method ValidateLease(worker: WorkerId, id: TaskId) returns (ok: bool)
      ensures ok <==> HoldsLease(View(), worker, id)
      ensures ok <==> id in tasks && tasks[id].owner == Some(worker) && tasks[id].status == Running
    {
      ok := id in tasks && tasks[id].status == Running && tasks[id].owner == Some(worker);
    }

    method PutCheckpointRow(worker: WorkerId, id: TaskId, row: C.Row) returns (ok: bool)
      requires Valid()
      modifies this
      ensures Valid() && View() == Apply(old(View()), PutCheckpoint(worker, id, row))
      ensures ok <==> HoldsLease(old(View()), worker, id)
      ensures ok ==> P.ReadsBack(checkpoints, P.Key(id, row.ns, row.id), worker, row.parent, row.payload)
      ensures !ok ==> checkpoints == old(checkpoints)
    {
      hide Inv, PollerMove, ReaperMove, ApiMove, PollerQuiet, ReaperQuiet, ApiQuiet;
      ghost var before := View();
      ok := ValidateLease(worker, id);
      if ok {
        P.UpsertReadsBack(checkpoints, P.Sent(id, row.ns, row.id, worker, row.parent, row.payload, now));
        checkpoints := C.Upsert(checkpoints, row.(task := id, worker := worker, cost := 0, createdAt := now));
      }
      InvPreserved(before, PutCheckpoint(worker, id, row));
    }

    /** The writes of one call, row by row inside one transaction; a call without writes returns
        before it asks for the lease. */
    method PutPendingWrites(worker: WorkerId, id: TaskId, call: W.Call) returns (ok: bool)
      requires Valid() && call.task == id
      modifies this
      ensures Valid() && View() == Apply(old(View()), PutWrites(worker, id, call))
      ensures ok <==> call.writes == [] || HoldsLease(old(View()), worker, id)
    {
      hide Inv, PollerMove, ReaperMove, ApiMove, PollerQuiet, ReaperQuiet, ApiQuiet;
      ghost var before := View();
      InvPreserved(before, PutWrites(worker, id, call));
      assert call.(task := id) == call;
      if call.writes == [] {
        return true;
      }
      ok := ValidateLease(worker, id);
      if ok {
        var offers := W.Offers(call);
        var i := 0;
        while i < |offers|
          invariant 0 <= i <= |offers|
          invariant View() == before.(writes := W.TakeAll(before.writes, offers[..i]))
        {
          var o := offers[i];
          if o.upsert || o.key !in writes {
            writes := writes[o.key := o.row];
          }
          assert offers[..i + 1][..i] == offers[..i];
          i := i + 1;
        }
        assert offers[..i] == offers;
      }
    }

    /** The ledger row of a step and its share of the hourly window; the totals read back are the
        task's spend and the agent's cached hourly cost, each grown by this cost. */
    method ChargeStep(id: TaskId, checkpoint: CheckpointId, cost: nat) returns (taskTotal: nat, hourly: nat)
      requires id in tasks
      modifies this`ledger, this`billed, this`runtime
      ensures View() == StepCharged(old(View()), id, checkpoint, cost)
      ensures ledger == old(ledger) +
                [Charge(tasks[id].agent, id, AtCheckpoint(checkpoint), cost, ModelTokenSpend, None, now)]
      ensures taskTotal == TaskSum(ledger, id) == TaskSum(old(ledger), id) + cost
      ensures var a := tasks[id].agent;
        a in runtime && hourly == runtime[a].hourCost
        && hourly == (if a in old(runtime) then old(runtime)[a].hourCost else 0) + cost
    {
      var a := tasks[id].agent;
      InsertAddsCost(ledger, SpendOf(View(), id, AtCheckpoint(checkpoint), cost), a, id, now);
      InsertCostRow(Charge(a, id, AtCheckpoint(checkpoint), cost, ModelTokenSpend, None, now));
      IncrementHourWindowCost(a, cost);
      taskTotal, hourly := TaskSum(ledger, id), runtime[a].hourCost;
    }

    method RecordStepCost(worker: WorkerId, id: TaskId, checkpoint: CheckpointId, cost: nat)
      returns (ok: bool, taskTotal: nat, hourly: nat)
      requires Valid()
      modifies this
      ensures Valid() && View() == Apply(old(View()), StepCost(worker, id, checkpoint, cost))
      ensures ok <==> HoldsLease(old(View()), worker, id)
      ensures ok ==> taskTotal == TaskSum(ledger, id) == TaskSum(old(ledger), id) + cost
      ensures ok ==> var a := tasks[id].agent;
                && a in runtime && hourly == runtime[a].hourCost == A.CachedCost(old(View()), a) + cost
                && ledger == old(ledger) + [Charge(a, id, AtCheckpoint(checkpoint), cost, ModelTokenSpend, None, now)]
      ensures ok ==> |checkpoints| == |old(checkpoints)| && forall i :: 0 <= i < |checkpoints| ==>
                var r := old(checkpoints)[i];
                checkpoints[i] == if r.task == id && r.id == checkpoint then r.(cost := cost) else r
    {
      hide Inv, PollerMove, ReaperMove, ApiMove, PollerQuiet, ReaperQuiet, ApiQuiet, StepCharged, TaskSum;
      ghost var before := View();
      taskTotal, hourly := 0, 0;
      ok := ValidateLease(worker, id);
      InvPreserved(before, StepCost(worker, id, checkpoint, cost));
      if ok {
        C.CostUpdatesByRow(checkpoints, id, checkpoint, cost);
        checkpoints := C.SetCost(checkpoints, id, checkpoint, cost);
        taskTotal, hourly := ChargeStep(id, checkpoint, cost);
        ChargeIgnoresCheckpoints(before, checkpoints, id, checkpoint, cost);
      }
    }

    method RecordSupervisorStepCost(worker: WorkerId, id: TaskId, checkpoint: CheckpointId, cost: nat)
      returns (ok: bool, taskTotal: nat, hourly: nat)
      requires Valid()
      modifies this
      ensures Valid() && View() == Apply(old(View()), SupervisorCost(worker, id, checkpoint, cost))
      ensures ok <==> HoldsLease(old(View()), worker, id)
      ensures ok ==> taskTotal == TaskSum(ledger, id) == TaskSum(old(ledger), id) + cost
      ensures ok ==> var a := tasks[id].agent;
                && a in runtime && hourly == runtime[a].hourCost == A.CachedCost(old(View()), a) + cost
                && ledger == old(ledger) + [Charge(a, id, AtCheckpoint(checkpoint), cost, ModelTokenSpend, None, now)]
      ensures ok ==> |checkpoints| == |old(checkpoints)| && forall i :: 0 <= i < |checkpoints| ==>
                var r := old(checkpoints)[i];
                checkpoints[i] == if r.task == id && r.id == checkpoint then r.(cost := r.cost + cost) else r
    {
      hide Inv, PollerMove, ReaperMove, ApiMove, PollerQuiet, ReaperQuiet, ApiQuiet, StepCharged, TaskSum;
      ghost var before := View();
      taskTotal, hourly := 0, 0;
      ok := ValidateLease(worker, id);
      InvPreserved(before, SupervisorCost(worker, id, checkpoint, cost));
      if ok {
        C.CostUpdatesByRow(checkpoints, id, checkpoint, cost);
        checkpoints := C.AddCost(checkpoints, id, checkpoint, cost);
        taskTotal, hourly := ChargeStep(id, checkpoint, cost);
        ChargeIgnoresCheckpoints(before, checkpoints, id, checkpoint, cost);
      }
    }

    // ---- Executor transitions -------------------------------------------------------------------

    method CompleteTask(worker: WorkerId, id: TaskId) returns (ok: bool)
      requires Valid()
      modifies this
      ensures Valid() && View() == Apply(old(View()), Complete(worker, id, NoMemory))
      ensures ok <==> HoldsLease(old(View()), worker, id)
      ensures ok ==> tasks == old(tasks)[id := X.Free(old(tasks)[id]).(status := Completed)]
      ensures ok ==> events == old(events) + [Event(id, TaskCompleted, Some(Running), Some(Completed), Some(worker))]
    {
      hide Inv, PollerMove, ReaperMove, ApiMove, PollerQuiet, ReaperQuiet, ApiQuiet;
      ghost var before := View();
      ok := ValidateLease(worker, id);
      if ok {
        Release(Move(id, Released(tasks[id], Completed), TaskCompleted, Some(Running), Some(worker), true));
      }
      InvPreserved(before, Complete(worker, id, NoMemory));
    }

    /** The summarizer's ledger row and window increment, skipped when it cost nothing. */
    method ChargeSummarizer(id: TaskId, ref: CostRef, cost: nat)
      requires id in tasks
      modifies this`ledger, this`billed, this`runtime
      ensures View() == Summarized(old(View()), id, ref, cost)
    {
      if cost > 0 {
        InsertCostRow(Charge(tasks[id].agent, id, ref, cost, ModelTokenSpend, None, now));
        IncrementHourWindowCost(tasks[id].agent, cost);
      }
    }

    method ChargeEmbedding(id: TaskId, ref: CostRef, cost: Option<nat>)
      requires id in tasks
      modifies this`ledger, this`billed, this`runtime
      ensures View() == Embedded(old(View()), id, ref, cost)
    {
      if cost.Some? {
        InsertCostRow(Charge(tasks[id].agent, id, ref, cost.value, ModelTokenSpend, None, now));
      }
    }

    /** Marker event and costs of the memory branch of the two terminal transactions. */
    method ChargeMemory(worker: WorkerId, id: TaskId, note: MemoryNote, completed: bool)
      requires id in tasks
      modifies this`events, this`ledger, this`billed, this`runtime, this`checkpoints
      ensures View() == Noted(old(View()), worker, id, note, completed)
    {
      hide Billed, HourCostAdded;
      if note.Memory? {
        InsertTaskEvent(id, MemoryWritten, None, None, Some(worker));
        if note.checkpoint.Some? {
          var ref := AtCheckpoint(note.checkpoint.value);
          if completed {
            ChargeSummarizer(id, ref, note.summarizer);
          }
          ChargeEmbedding(id, ref, note.embedding);
          if completed {
            checkpoints := C.AddCost(checkpoints, id, note.checkpoint.value, NoteCost(note));
          }
        }
      }
    }

    /** The memory branch: the row of the memory table with its trim, then event and costs. */
    method WriteMemory(worker: WorkerId, id: TaskId, note: MemoryNote, completed: bool,
                       memory: M.MemoryTable, draft: M.Draft)
      requires id in tasks && M.WellKeyed(memory.rows) && draft.newId !in memory.rows
      modifies this`events, this`ledger, this`billed, this`runtime, this`checkpoints, memory
      ensures View() == Noted(old(View()), worker, id, note, completed)
      ensures M.WellKeyed(memory.rows)
      ensures MemoryAfter(old(memory.rows), memory.rows, tasks[id].agent, id, note, draft, now)
    {
      hide Noted;
      if note.Memory? {
        var cap := M.MaxEntries(draft.configured);
        var entry, inserted, evicted := memory.CommitMemory(tasks[id].agent, id, draft.body, draft.newId, now, cap);
      }
      ChargeMemory(worker, id, note, completed);
    }

    /** Completion together with the memory branch, as one transaction: without the lease neither
        the task nor the memory table changes. */
    method CommitMemoryAndCompleteTask(worker: WorkerId, id: TaskId, note: MemoryNote,
                                       memory: M.MemoryTable, draft: M.Draft) returns (ok: bool)
      requires Valid() && NoteFits(View(), id, note)
      requires M.WellKeyed(memory.rows) && draft.newId !in memory.rows
      modifies this, memory
      ensures Valid() && View() == Apply(old(View()), Complete(worker, id, note))
      ensures ok <==> HoldsLease(old(View()), worker, id)
      ensures ok ==> tasks == old(tasks)[id := X.Free(old(tasks)[id]).(status := Completed)]
      ensures M.WellKeyed(memory.rows)
      ensures if ok then MemoryAfter(old(memory.rows), memory.rows, old(tasks)[id].agent, id, note, draft, now)
              else memory.rows == old(memory.rows)
    {
      hide Inv, PollerMove, ReaperMove, ApiMove, PollerQuiet, ReaperQuiet, ApiQuiet, Noted, NoteFits, MemoryAfter;
      ghost var before := View();
      ok := ValidateLease(worker, id);
      InvPreserved(before, Complete(worker, id, note));
      if ok {
        X.CompleteWrites(before, worker, id, note);
        WriteMemory(worker, id, note, true, memory, draft);
        Release(Move(id, Released(tasks[id], Completed), TaskCompleted, Some(Running), Some(worker), true));
      }
    }

    /** Dead-lettering, with the memory branch when the task leaves a memory behind. */
    method HandleDeadLetter(worker: WorkerId, id: TaskId, reason: DeadLetterReason, note: MemoryNote,
                            memory: M.MemoryTable, draft: M.Draft) returns (ok: bool)
      requires Valid() && NoteFits(View(), id, note)
      requires M.WellKeyed(memory.rows) && draft.newId !in memory.rows
      modifies this, memory
      ensures Valid() && View() == Apply(old(View()), Abandon(worker, id, reason, note))
      ensures ok <==> HoldsLease(old(View()), worker, id)
      ensures !ok ==> tasks == old(tasks)
      ensures ok ==> tasks == old(tasks)[id := X.Free(old(tasks)[id]).(status := DeadLetter,
                                                     deadLetterReason := Some(reason), lastWorker := Some(worker))]
      ensures M.WellKeyed(memory.rows)
      ensures if ok then MemoryAfter(old(memory.rows), memory.rows, old(tasks)[id].agent, id, note, draft, now)
              else memory.rows == old(memory.rows)
    {
      hide Inv, PollerMove, ReaperMove, ApiMove, PollerQuiet, ReaperQuiet, ApiQuiet, Noted, NoteFits, MemoryAfter;
      ghost var before := View();
      ok := ValidateLease(worker, id);
      InvPreserved(before, Abandon(worker, id, reason, note));
      if ok {
        X.AbandonWrites(before, worker, id, reason, note);
        WriteMemory(worker, id, note, false, memory, draft);
        Release(Move(id, DeadLettered(tasks[id], reason, Some(worker)), TaskDeadLettered,
                     Some(Running), Some(worker), true));
      }
    }

    /** The requeueing half of the retry handler, from the counters of the claim. */
    method RequeueForRetry(worker: WorkerId, id: TaskId, ghost claim: nat, snapshot: Claim) returns (ok: bool)
      requires Valid() && snapshot.retryCount < snapshot.maxRetries
      requires ClaimFits(View(), worker, id, claim) && claims[claim] == snapshot
      modifies this
      ensures Valid() && View() == Apply(old(View()), Retry(worker, id, claim))
      ensures ok <==> HoldsLease(old(View()), worker, id)
      ensures !ok ==> tasks == old(tasks)
      ensures ok ==> var n := snapshot.retryCount + 1;
                tasks == old(tasks)[id := X.Free(old(tasks)[id]).(status := Queued, retryCount := n,
                                            retryAfter := Some(now + X.RetrySeconds(n) * 1_000_000),
                                            retryHistory := old(tasks)[id].retryHistory + [now])]
    {
      hide Inv, PollerMove, ReaperMove, ApiMove, PollerQuiet, ReaperQuiet, ApiQuiet;
      ghost var before := View();
      ok := ValidateLease(worker, id);
      InvPreserved(before, Retry(worker, id, claim));
      if ok {
        X.RetryWrites(before, worker, id, claim);
        var t := tasks[id];
        var retries := snapshot.retryCount + 1;
        var backoff := Min(300, Pow2(retries));
        var row := t.(status := Queued, retryCount := retries, retryAfter := Some(now + backoff * SECOND),
                      retryHistory := t.retryHistory + [now], version := t.version + 1,
                      owner := None, expiry := None);
        Release(Move(id, row, TaskRetryScheduled, Some(Running), Some(worker), true));
      }
    }

    /** The claim is what the worker remembers from RETURNING *; the row may have moved on. Exhausted
        retries go through the dead-letter handler, memory branch included. */
    method HandleRetryableError(worker: WorkerId, id: TaskId, ghost claim: nat, snapshot: Claim, note: MemoryNote,
                                memory: M.MemoryTable, draft: M.Draft) returns (ok: bool)
      requires Valid() && NoteFits(View(), id, note)
      requires ClaimFits(View(), worker, id, claim) && claims[claim] == snapshot
      requires M.WellKeyed(memory.rows) && draft.newId !in memory.rows
      modifies this, memory
      ensures Valid()
      ensures var exhausted := snapshot.retryCount >= snapshot.maxRetries;
        && View() == Apply(old(View()), if exhausted then Abandon(worker, id, RetriesExhausted, note)
                                        else Retry(worker, id, claim))
        && (ok <==> HoldsLease(old(View()), worker, id))
        && M.WellKeyed(memory.rows)
        && if ok && exhausted
           then MemoryAfter(old(memory.rows), memory.rows, old(tasks)[id].agent, id, note, draft, now)
           else memory.rows == old(memory.rows)
      ensures ok ==> var t, n := old(tasks)[id], snapshot.retryCount + 1;
                tasks == old(tasks)[id :=
                  if n > snapshot.maxRetries
                  then X.Free(t).(status := DeadLetter, deadLetterReason := Some(RetriesExhausted),
                                  lastWorker := Some(worker))
                  else X.Free(t).(status := Queued, retryCount := n, retryHistory := t.retryHistory + [now],
                                  retryAfter := Some(now + X.RetrySeconds(n) * 1_000_000))]
      ensures !ok ==> tasks == old(tasks)
    {
      hide Inv, Apply, NoteFits, MemoryAfter;
      if snapshot.retryCount >= snapshot.maxRetries {
        ok := HandleDeadLetter(worker, id, RetriesExhausted, note, memory, draft);
      } else {
        ok := RequeueForRetry(worker, id, claim, snapshot);
      }
    }

    /** Any amount of time, possibly none, passes between two statements. */
    method Elapse() returns (ghost d: nat)
      requires Valid()
      modifies this`now
      ensures Valid() && View() == Apply(old(View()), Tick(d)) && now == old(now) + d
    {
      hide Inv, Apply;
      ghost var before := View();
      d := Pass();
      InvPreserved(before, Tick(d));
    }

    /** The same without the invariant, for use between statements. */
    method Pass() returns (ghost d: nat)
      modifies this`now
      ensures View() == Apply(old(View()), Tick(d)) && now == old(now) + d
    {
      var k: nat := *;
      TickResult(View(), k);
      now := now + k;
      d := k;
    }

    /** The pausing transaction, gated on the owner alone. */
    method ExecuteBudgetPause(worker: WorkerId, id: TaskId, limit: PauseReason, resumeAt: Option<Time>)
      returns (ok: bool)
      requires Valid()
      modifies this
      ensures Valid() && View() == Apply(old(View()), BudgetPause(worker, id, limit, resumeAt)) && now == old(now)
      ensures ok <==> Owns(old(View()), worker, id)
      ensures ok ==> tasks == old(tasks)[id := X.Free(old(tasks)[id]).(status := Paused, pauseReason := Some(limit),
                                                                       resumeAt := resumeAt)]
      ensures !ok ==> tasks == old(tasks)
    {
      hide Inv, PollerMove, ReaperMove, ApiMove, PollerQuiet, ReaperQuiet, ApiQuiet;
      ghost var before := View();
      ok := id in tasks && tasks[id].owner == Some(worker);
      InvPreserved(before, BudgetPause(worker, id, limit, resumeAt));
      if ok {
        X.PauseWrites(before, worker, id, limit, resumeAt);
        Release(Move(id, PausedFor(tasks[id], limit, resumeAt), TaskPaused, Some(Running), Some(worker), true));
      }
    }

    /** The budget check: agent, window sum and oldest charge are read one after the other, then the
        pause is taken. True when a limit was exceeded, even if the lease was lost and nothing
        changed; `summedAt` and `oldestAt` are the times of the two readings. */
    method CheckBudgetAndPause(worker: WorkerId, id: TaskId, observed: nat)
      returns (exceeded: bool, ghost summedAt: Time, ghost oldestAt: Time, ghost steps: seq<Step>)
      requires Valid() && id in tasks
      modifies this
      ensures Valid() && View() == Run(old(View()), steps) && old(now) <= summedAt <= oldestAt <= now
      ensures var a := old(tasks)[id].agent;
        exceeded <==> a in old(agents) && (observed > old(agents)[a].budgetPerTask
                        || WindowSum(old(ledger), a, summedAt) > old(agents)[a].budgetPerHour)
      ensures var t := old(tasks)[id]; var oldest := WindowStart(old(ledger), t.agent, oldestAt);
        if !exceeded || t.owner != Some(worker) then tasks == old(tasks)
        else if observed > old(agents)[t.agent].budgetPerTask
        then tasks == old(tasks)[id := X.Free(t).(status := Paused, pauseReason := Some(BudgetPerTask),
                                                  resumeAt := None)]
        else tasks == old(tasks)[id := X.Free(t).(status := Paused, pauseReason := Some(BudgetPerHour),
                                                  resumeAt := if oldest.None? then None
                                                              else Some(oldest.value + 3_600_000_000))]
    {
      hide Inv, Apply, Run, WindowSum, WindowStart;
      ghost var before := View();
      var a := tasks[id].agent;
      exceeded, summedAt, oldestAt, steps := false, now, now, [];
      NoSteps(before);
      if a in agents {
        var limits := agents[a];
        ghost var d1 := Elapse();
        TickResult(before, d1);
        summedAt, oldestAt := now, now;
        RunSnoc(before, steps, Tick(d1));
        steps := steps + [Tick(d1)];
        exceeded := observed > limits.budgetPerTask || WindowSum(ledger, a, now) > limits.budgetPerHour;
        if exceeded {
          var limit, resumeAt := BudgetPerTask, None;
          if observed <= limits.budgetPerTask {
            ghost var summed := View();
            ghost var d2 := Elapse();
            TickResult(summed, d2);
            oldestAt := now;
            RunSnoc(before, steps, Tick(d2));
            steps := steps + [Tick(d2)];
            var oldest := WindowStart(ledger, a, now);
            limit := BudgetPerHour;
            resumeAt := if oldest.Some? then Some(oldest.value + HOUR) else None;
          }
          ghost var pause := BudgetPause(worker, id, limit, resumeAt);
          var ok := ExecuteBudgetPause(worker, id, limit, resumeAt);
          RunSnoc(before, steps, pause);
          steps := steps + [pause];
        }
      }
    }

    method HandleInterrupt(worker: WorkerId, id: TaskId, approval: bool) returns (ok: bool)
      requires Valid()
      modifies this
      ensures Valid() && View() == Apply(old(View()), Interrupt(worker, id, approval))
      ensures ok <==> Owns(old(View()), worker, id)
      ensures ok ==> tasks == old(tasks)[id := X.Free(old(tasks)[id]).(
                                status := if approval then WaitingForApproval else WaitingForInput,
                                humanTimeoutAt := Some(now + 86_400_000_000))]
      ensures !ok ==> tasks == old(tasks)
    {
      hide Inv, PollerMove, ReaperMove, ApiMove, PollerQuiet, ReaperQuiet, ApiQuiet;
      ghost var before := View();
      ok := id in tasks && tasks[id].owner == Some(worker);
      if ok {
        X.InterruptWrites(before, worker, id, approval);
        var status := if approval then WaitingForApproval else WaitingForInput;
        var kind := if approval then TaskApprovalRequested else TaskInputRequested;
        var row := Released(tasks[id], status).(humanTimeoutAt := Some(now + 24 * HOUR));
        Release(Move(id, row, kind, Some(Running), Some(worker), true));
      }
      InvPreserved(before, Interrupt(worker, id, approval));
    }

    // ---- Reaper ---------------------------------------------------------------------------------

    /** The work done per returned row; the row itself is already updated. */
    method LogScanned(kind: ScanKind, id: TaskId, ghost m: Move)
      requires id in tasks && m.id == id && m.row == tasks[id] && m.worker.None?
      requires m.kind == EventKindOf(kind) && m.before == BeforeOf(kind) && m.release == Decrements(kind)
      modifies this`runtime, this`events
      ensures View() == Enact(old(View()), m)
    {
      if Decrements(kind) {
        DecrementRunningCount(tasks[id].agent);
      }
      InsertTaskEvent(id, EventKindOf(kind), BeforeOf(kind), Some(tasks[id].status), None);
      assert tasks[id := m.row] == tasks;
    }

    /** The bulk UPDATE: every new row is computed from the rows before the statement. */
    method UpdateMatching(kind: ScanKind) returns (matching: set<TaskId>)
      modifies this`tasks
      ensures matching == set id | id in old(tasks) && Matches(kind, old(tasks)[id], now)
      ensures tasks.Keys == old(tasks).Keys
      ensures forall id | id in tasks ::
                tasks[id] == if id in matching then ScanMove(kind, id, old(tasks)[id], now).row else old(tasks)[id]
    {
      hide Matches, ScanMove;
      matching := set id | id in tasks && Matches(kind, tasks[id], now);
      var clock := now;
      tasks := map id | id in tasks ::
                 if id in matching then ScanMove(kind, id, tasks[id], clock).row else tasks[id];
    }

    /** The loop over the returned rows, in whatever order they come. */
    method LogMatching(kind: ScanKind, matching: set<TaskId>, ghost before: Db) returns (rows: seq<TaskId>)
      requires View() == before.(tasks := tasks)
      requires forall id | id in matching :: id in before.tasks && id in tasks
                 && tasks[id] == ScanMove(kind, id, before.tasks[id], before.now).row
      modifies this`runtime, this`events
      ensures View() == ScanResult(before, kind, rows).(tasks := tasks)
      ensures Distinct(rows) && forall id :: id in rows <==> id in matching
    {
      hide ScanMove, ScanResult, Enact, Distinct;
      var rest := matching;
      rows := [];
      ScanNothing(before, kind);
      while rest != {}
        invariant rest <= matching
        invariant View() == ScanResult(before, kind, rows).(tasks := tasks)
        invariant Distinct(rows) && forall id :: id in rows <==> id in matching - rest
        decreases |rest|
      {
        var id :| id in rest;
        rest := rest - {id};
        ghost var m := ScanMove(kind, id, before.tasks[id], before.now);
        ScanMoveShape(kind, id, before.tasks[id], before.now);
        LogScanned(kind, id, m);
        EnactApart(ScanResult(before, kind, rows), m, tasks);
        ScanExtends(before, kind, rows, id);
        DistinctAppend(rows, id);
        rows := rows + [id];
      }
    }

    /** One UPDATE ... RETURNING of the reaper and the loop over its rows. */
    method Scan(kind: ScanKind) returns (rows: seq<TaskId>)
      requires Valid()
      modifies this`tasks, this`runtime, this`events
      ensures Valid() && View() == Run(old(View()), ScanSteps(kind, rows))
      ensures Listed(old(View()), kind, rows)
      ensures ScanOutcome(kind, old(tasks), rows, tasks, now)
    {
      hide Inv, Run, Matches, ScanMove, ScanResult, ScanSteps, ScanOutcome, Distinct;
      ghost var before := View();
      var matching := UpdateMatching(kind);
      rows := LogMatching(kind, matching, before);
      ScanUpdates(before, kind, rows, tasks);
      ScanIsRun(before, kind, rows);
      InvOnRuns(before, ScanSteps(kind, rows));
      ScanLeaves(kind, before.tasks, rows, tasks, now);
    }

    /** The lease, timeout and human-input scans, in the order of the code and under one clock. */
    method ScanTasksTable() returns (requeued: seq<TaskId>, expired: seq<TaskId>, timedOut: seq<TaskId>,
                                     humanTimedOut: seq<TaskId>)
      requires Valid()
      modifies this`tasks, this`runtime, this`events
      ensures Valid()
      ensures View() == Run(old(View()), PassSteps(requeued, expired, timedOut, humanTimedOut))
      ensures now == old(now) && ledger == old(ledger)
      ensures Distinct(requeued) && Distinct(expired)
      ensures forall id :: id in requeued || id in expired <==>
                             id in old(tasks) && LeaseExpired(old(tasks)[id], old(now))
      ensures forall id | id in requeued :: id !in expired
      ensures forall id | id in tasks :: !LeaseExpired(tasks[id], now)
    {
      hide Inv, Run, Matches, ScanSteps, PassSteps, LeaseExpired;
      ghost var start := View();
      requeued := Scan(RequeueScan);
      expired := Scan(ExpireScan);
      timedOut := Scan(TimeOutScan);
      humanTimedOut := Scan(HumanScan);
      PassIsRun(start, requeued, expired, timedOut, humanTimedOut);
      PassVerdict(start, requeued, expired, timedOut, humanTimedOut);
    }

    /** The oldest task of the agent that the hourly budget paused. */
    method OldestHourlyPaused(a: AgentKey) returns (found: Option<TaskId>)
      ensures found.Some? ==> PausedOf(tasks, found.value, a)
      ensures found.Some? ==> forall id | PausedOf(tasks, id, a) :: tasks[found.value].createdAt <= tasks[id].createdAt
      ensures found.None? ==> forall id :: !PausedOf(tasks, id, a)
    {
      found := None;
      var rest := tasks.Keys;
      while rest != {}
        invariant rest <= tasks.Keys
        invariant found.Some? ==> PausedOf(tasks, found.value, a)
        invariant forall id | id in tasks.Keys - rest :: PausedOf(tasks, id, a) ==>
                    found.Some? && tasks[found.value].createdAt <= tasks[id].createdAt
        decreases |rest|
      {
        var id :| id in rest;
        rest := rest - {id};
        if PausedOf(tasks, id, a) && (found.None? || tasks[id].createdAt < tasks[found.value].createdAt) {
          found := Some(id);
        }
      }
    }

    method ResumeTask(id: TaskId)
      requires id in tasks
      modifies this`tasks, this`events
      ensures View() == Enact(old(View()), ResumeMove(id, old(tasks)[id]))
    {
      tasks := tasks[id := Resumed(tasks[id])];
      InsertTaskEvent(id, TaskResumed, Some(Paused), Some(Queued), None);
    }

    /** The resuming UPDATE of one agent's recovery, oldest pauses first, up to the free slots. */
    method ResumeOldest(a: AgentKey, slots: nat) returns (resumed: seq<TaskId>)
      requires MayRecover(View(), a)
      modifies this`tasks, this`events
      ensures View() == Run(old(View()), RecoverSteps(resumed))
      ensures |resumed| <= slots && ResumedOnly(old(tasks), tasks, resumed, a)
      ensures OldestFirst(old(tasks), resumed, a, slots)
    {
      hide Run, RecoverSteps, MayRecover, ResumedOnly, Resumed, PausedOf;
      ghost var before := View();
      resumed := [];
      NoSteps(before);
      NoneResumed(tasks, a);
      while |resumed| < slots
        invariant View() == Run(before, RecoverSteps(resumed))
        invariant View() == before.(tasks := tasks, events := events)
        invariant |resumed| <= slots && ResumedOnly(before.tasks, tasks, resumed, a)
        invariant forall id, other |
                    id in resumed && id in before.tasks && PausedOf(tasks, other, a) && other in tasks ::
                    before.tasks[id].createdAt <= tasks[other].createdAt
        decreases slots - |resumed|
      {
        var next := OldestHourlyPaused(a);
        if next.None? {
          break;
        }
        var id := next.value;
        ResumedMore(before.tasks, tasks, resumed, id, a);
        RecoverStaysAllowed(before, tasks, events, a);
        RecoverExtends(before, resumed, id);
        ResumeTask(id);
        resumed := resumed + [id];
      }
      StillPaused(before.tasks, tasks, resumed, a);
    }

    /** The recovery transaction of one agent. */
    method RecoverAgent(a: AgentKey) returns (resumed: seq<TaskId>, ghost steps: seq<Step>)
      requires Valid()
      modifies this
      ensures Valid() && View() == Run(old(View()), steps)
      ensures steps == if MayRecover(old(View()), a) then RecoverSteps(resumed) + [CacheHourCost(a)] else []
      ensures now == old(now) && ledger == old(ledger) && ResumedOnly(old(tasks), tasks, resumed, a)
      ensures MayRecover(old(View()), a) ==>
                OldestFirst(old(tasks), resumed, a, old(agents)[a].maxConcurrent - CountOf(old(runtime), a))
    {
      hide Run, RecoverSteps, Inv, OldestFirst;
      ghost var before := View();
      NoSteps(before);
      resumed, steps := [], [];
      if a in agents && agents[a].active {
        var hourCost := WindowSum(ledger, a, now);
        var count := if a in runtime then runtime[a].running else 0;
        if hourCost < agents[a].budgetPerHour && count < agents[a].maxConcurrent {
          resumed := ResumeOldest(a, agents[a].maxConcurrent - count);
          ghost var mid := View();
          CacheHourCostResult(mid, a);
          if a in runtime {
            runtime := runtime[a := runtime[a].(hourCost := hourCost)];
          }
          RunSnoc(before, RecoverSteps(resumed), CacheHourCost(a));
          steps := RecoverSteps(resumed) + [CacheHourCost(a)];
        }
      }
      InvOnRuns(before, steps);
    }

    /** One recovery transaction for every agent that has a pause due for resumption, or for the first
        `raisesAfter` of them when the next one raises. */
    method RecoverHourlyBudgetPauses(raisesAfter: Option<nat>) returns (ghost steps: seq<Step>)
      requires Valid()
      modifies this
      ensures Valid() && View() == Run(old(View()), steps) && now >= old(now) && ledger == old(ledger)
      ensures forall id :: id in tasks <==> id in old(tasks)
      ensures forall id | id in tasks :: tasks[id] == old(tasks)[id]
                || (tasks[id].status == Queued && H.Selected(old(View()), old(tasks)[id].agent))
    {
      hide Run, Inv, Apply, MayRecover, RecoverSteps, OldestFirst, H.Selected, PauseDue, HourlyPaused, Distinct;
      ghost var before := View();
      steps := [];
      NoSteps(before);
      var due := set id | id in tasks && PauseDue(tasks[id], now) :: tasks[id].agent;
      assert forall a | a in due :: H.Selected(before, a) by {
        DueIsSelected(before);
      }
      var done := 0;
      while due != {} && (raisesAfter.None? || done < raisesAfter.value)
        invariant Valid() && View() == Run(before, steps) && now >= before.now && ledger == before.ledger
        invariant forall a | a in due :: H.Selected(before, a)
        invariant tasks.Keys == before.tasks.Keys
        invariant forall id | id in tasks :: tasks[id] == before.tasks[id]
                    || (tasks[id].status == Queued && H.Selected(before, before.tasks[id].agent))
        decreases |due|
      {
        var a :| a in due;
        due := due - {a};
        ghost var mid := View();
        ghost var d := Elapse();
        TickResult(mid, d);
        RunSnoc(before, steps, Tick(d));
        steps := steps + [Tick(d)];
        var resumed, more := RecoverAgent(a);
        RunConcat(before, steps, more);
        steps := steps + more;
        done := done + 1;
      }
    }

    method SetRunningCounts()
      modifies this`runtime
      ensures View() == Apply(old(View()), ReconcileCounts)
    {
      hide PollerMove, ExecutorMove, ApiMove, WindowSum, RunningSet;
      runtime := map a | a in runtime ::
        if RunningSet(tasks, a) != {} then runtime[a].(running := |RunningSet(tasks, a)|) else runtime[a];
    }

    method ZeroRunningCounts()
      modifies this`runtime
      ensures View() == Apply(old(View()), ZeroCounts)
    {
      hide PollerMove, ExecutorMove, ApiMove, WindowSum, RunningSet;
      runtime := map a | a in runtime ::
        if RunningSet(tasks, a) == {} then runtime[a].(running := 0) else runtime[a];
    }

    method SetHourCosts()
      modifies this`runtime
      ensures View() == Apply(old(View()), ReconcileCosts)
    {
      hide PollerMove, ExecutorMove, ApiMove, WindowSum, RunningSet, SpentThisHour;
      var clock := now;
      runtime := map a | a in runtime ::
        if SpentThisHour(ledger, a, clock)
        then runtime[a].(hourCost := WindowSum(ledger, a, clock)) else runtime[a];
    }

    method ZeroHourCosts()
      modifies this`runtime
      ensures View() == Apply(old(View()), ZeroCosts)
    {
      hide PollerMove, ExecutorMove, ApiMove, WindowSum, RunningSet, SpentThisHour;
      var clock := now;
      runtime := map a | a in runtime ::
        if !SpentThisHour(ledger, a, clock) && runtime[a].hourCost > 0
        then runtime[a].(hourCost := 0) else runtime[a];
    }

    /** The four reconciliation statements, each its own transaction at its own time, or the first
        `raisesAfter` of them when the next one raises. */
    method ReconcileRuntimeState(raisesAfter: Option<nat>) returns (ghost steps: seq<Step>)
      requires Valid()
      modifies this
      ensures Valid() && View() == Run(old(View()), steps) && tasks == old(tasks) && now >= old(now)
      ensures ledger == old(ledger)
      ensures raisesAfter.None? ==> CachesWithin(View(), old(ledger), old(now))
      ensures raisesAfter.None? && now == old(now) ==> CachesExact(View())
    {
      hide Inv, Run, Apply, CacheWithin, CachesExact;
      ghost var before := View();
      steps := [];
      NoSteps(before);
      if raisesAfter == Some(0) {
        return;
      }
      SetRunningCounts();
      RunSnoc(before, steps, ReconcileCounts);
      steps := steps + [ReconcileCounts];
      InvOnRuns(before, steps);
      if raisesAfter == Some(1) {
        return;
      }
      ghost var d1 := Pass();
      ZeroRunningCounts();
      RunTwo(before, steps, Tick(d1), ZeroCounts);
      steps := steps + [Tick(d1), ZeroCounts];
      InvOnRuns(before, steps);
      if raisesAfter == Some(2) {
        return;
      }
      ghost var d2 := Pass();
      SetHourCosts();
      RunTwo(before, steps, Tick(d2), ReconcileCosts);
      steps := steps + [Tick(d2), ReconcileCosts];
      InvOnRuns(before, steps);
      if raisesAfter == Some(3) {
        return;
      }
      ghost var d3 := Pass();
      ZeroHourCosts();
      RunTwo(before, steps, Tick(d3), ZeroCosts);
      steps := steps + [Tick(d3), ZeroCosts];
      assert steps == ReconcileAcross(d1, d2, d3);
      InvOnRuns(before, steps);
      ReconcileAcrossTime(before, d1, d2, d3);
      if now == before.now {
        CachesWithinIsExact(View());
      }
    }

    method PruneCostLedger() returns (pruned: nat)
      requires Valid()
      modifies this`ledger
      ensures Valid() && View() == Apply(old(View()), Prune) && tasks == old(tasks) && now == old(now)
      ensures pruned == |old(ledger)| - |ledger|
      ensures forall c :: c in ledger <==> c in old(ledger) && c.at >= now - 7_200_000_000
    {
      hide Inv, PollerMove, ExecutorMove, ApiMove, PollerQuiet, ExecutorQuiet, ApiQuiet;
      ghost var before := View();
      var kept: seq<Charge> := [];
      var i := 0;
      pruned := 0;
      while i < |ledger|
        invariant 0 <= i <= |ledger|
        invariant kept == Pruned(ledger[..i], now) && pruned + |kept| == i
      {
        assert ledger[..i + 1][..i] == ledger[..i];
        if ledger[i].at < now - 2 * HOUR {
          pruned := pruned + 1;
        } else {
          kept := kept + [ledger[i]];
        }
        i := i + 1;
      }
      assert ledger[..i] == ledger;
      PrunedMembers(ledger, now);
      ledger := kept;
      InvPreserved(before, Prune);
    }

    /** A whole reaper pass that no other step interrupts, with time passing between its
        transactions. Each of the three follow-up scans may raise, which the pass survives. It is a
        run of the state machine and leaves no lease that had expired when it began; a reconciliation
        that did not raise leaves every count exact and every hourly cost between the window at the
        end of the pass and at its start, and a pruning that did not raise no charge older than two
        hours. */
    method RunOnce(failures: PassFailures) returns (ghost steps: seq<Step>)
      requires Valid()
      modifies this
      ensures Valid() && View() == Run(old(View()), steps) && now >= old(now)
      ensures forall id | id in tasks && tasks[id].status == Running ::
                tasks[id].expiry.Some? ==> tasks[id].expiry.value >= old(now)
      ensures failures.reconcile.None? ==> CachesWithin(View(), old(ledger), old(now))
      ensures !failures.prune ==> forall c | c in ledger :: c.at >= now - 7_200_000_000
      ensures failures.prune ==> ledger == old(ledger)
    {
      hide Inv, Run, Apply, CacheWithin, ScanSteps, PassSteps;
      ghost var before := View();
      var requeued, expired, timedOut, humanTimedOut := ScanTasksTable();
      steps := PassSteps(requeued, expired, timedOut, humanTimedOut);
      ghost var more := RecoverHourlyBudgetPauses(failures.recover);
      RunConcat(before, steps, more);
      steps := steps + more;
      ghost var mid := View();
      more := ReconcileRuntimeState(failures.reconcile);
      RunConcat(before, steps, more);
      steps := steps + more;
      ghost var reconciled := View();
      ghost var d := Elapse();
      TickResult(reconciled, d);
      RunSnoc(before, steps, Tick(d));
      steps := steps + [Tick(d)];
      if failures.reconcile.None? {
        EarlierCaches(reconciled, before.ledger, before.now, mid.now);
        TickKeepsCaches(reconciled, d, before.ledger, before.now);
      }
      if !failures.prune {
        ghost var waited := View();
        var pruned := PruneCostLedger();
        if failures.reconcile.None? {
          PruneKeepsCaches(waited, before.ledger, before.now);
        }
        RunSnoc(before, steps, Prune);
        steps := steps + [Prune];
      }
    }
  }
}
