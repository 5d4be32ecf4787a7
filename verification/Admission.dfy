/** Who gets work: the tests of a claim in the columns they read, and whom they keep out over
    whole runs. */
module Admission {
  import opened Tables
  import opened Ledger
  import opened Lifecycle
  import opened Invariants
  import N = RunningCounts
  import C = Checkpoints
  import W = PendingWrites

  /** The cached hourly cost of an agent; one without a runtime row has spent nothing. */
  function CachedCost(db: Db, a: AgentKey): nat
  {
    if a in db.runtime then db.runtime[a].hourCost else 0
  }

  function CursorOf(db: Db, a: AgentKey): Time
  {
    if a in db.runtime then db.runtime[a].cursor else 0
  }

  /** Below both limits of an active agent, as far as the cached counters tell. */
  predicate Open(db: Db, a: AgentKey)
  {
    && a in db.agents && db.agents[a].active
    && CountOf(db.runtime, a) < db.agents[a].maxConcurrent
    && CachedCost(db, a) < db.agents[a].budgetPerHour
  }

  /** A poll of the pool and tenant may start the task. */
  predicate Startable(db: Db, pool: PoolId, tenant: nat, id: TaskId)
  {
    && id in db.tasks && db.tasks[id].pool == pool && db.tasks[id].agent.tenant == tenant
    && db.tasks[id].status == Queued
    && (db.tasks[id].retryAfter.Some? ==> db.now > db.tasks[id].retryAfter.value)
    && Open(db, db.tasks[id].agent)
  }

  /** No startable task belongs to an agent served longer ago, or is an older one of the same agent. */
  ghost predicate FirstInLine(db: Db, pool: PoolId, tenant: nat, id: TaskId)
    requires id in db.tasks
  {
    forall j | Startable(db, pool, tenant, j) ::
      && CursorOf(db, db.tasks[id].agent) <= CursorOf(db, db.tasks[j].agent)
      && (db.tasks[j].agent == db.tasks[id].agent ==> db.tasks[id].createdAt <= db.tasks[j].createdAt)
  }

  lemma ReadyRuntime(db: Db, pool: PoolId, tenant: nat, id: TaskId)
    requires id in db.tasks && db.tasks[id].pool == pool && db.tasks[id].agent.tenant == tenant
    requires db.tasks[id].status == Queued
    ensures var a, ready := db.tasks[id].agent, EnsureRuntime(db, pool, tenant);
      && a in ready.runtime && ready.tasks == db.tasks && ready.agents == db.agents && ready.now == db.now
      && ready.runtime[a] == Runtime(CountOf(db.runtime, a), CachedCost(db, a), CursorOf(db, a))
  {
    assert db.tasks[id].agent in QueuedAgents(db, pool, tenant);
  }

  lemma StartableIsEligible(db: Db, pool: PoolId, tenant: nat, id: TaskId)
    requires id in db.tasks
    ensures var ready, a := EnsureRuntime(db, pool, tenant), db.tasks[id].agent;
      Startable(db, pool, tenant, id) <==> Eligible(ready, pool, tenant, a) && Candidate(ready, id, a, pool)
  {
    hide EnsureRuntime;
    EnsureFrame(db, pool, tenant);
    var ready, a := EnsureRuntime(db, pool, tenant), db.tasks[id].agent;
    if Candidate(ready, id, a, pool) && a.tenant == tenant {
      ReadyRuntime(db, pool, tenant, id);
    }
  }

  lemma EnsureFrame(db: Db, pool: PoolId, tenant: nat)
    ensures var ready := EnsureRuntime(db, pool, tenant);
      ready == db.(runtime := ready.runtime)
  {
  }

  lemma EligibleHasTask(db: Db, pool: PoolId, tenant: nat, a: AgentKey)
    requires Eligible(EnsureRuntime(db, pool, tenant), pool, tenant, a)
    ensures exists id :: Startable(db, pool, tenant, id) && db.tasks[id].agent == a
  {
    hide EnsureRuntime;
    EnsureFrame(db, pool, tenant);
    var id :| Candidate(EnsureRuntime(db, pool, tenant), id, a, pool);
    StartableIsEligible(db, pool, tenant, id);
  }

  /** An agent is eligible if and only if it has a startable task. */
  lemma EligibleIff(db: Db, pool: PoolId, tenant: nat)
    ensures forall a :: Eligible(EnsureRuntime(db, pool, tenant), pool, tenant, a)
              <==> exists id :: Startable(db, pool, tenant, id) && db.tasks[id].agent == a
  {
    hide EnsureRuntime, Eligible;
    forall a
      ensures Eligible(EnsureRuntime(db, pool, tenant), pool, tenant, a)
         <==> exists id :: Startable(db, pool, tenant, id) && db.tasks[id].agent == a
    {
      if Eligible(EnsureRuntime(db, pool, tenant), pool, tenant, a) {
        EligibleHasTask(db, pool, tenant, a);
      }
      if id :| Startable(db, pool, tenant, id) && db.tasks[id].agent == a {
        StartableIsEligible(db, pool, tenant, id);
      }
    }
  }

  /** A claim gives the task to the worker if and only if it is startable and first in line, and
      changes no task otherwise. */
  lemma ClaimGrantedIff(db: Db, w: WorkerId, pool: PoolId, tenant: nat, lease: nat, id: TaskId)
    requires id in db.tasks
    ensures var step := ClaimTask(w, pool, tenant, lease, db.tasks[id].agent, id);
      Apply(db, step).tasks ==
        if Startable(db, pool, tenant, id) && FirstInLine(db, pool, tenant, id)
        then db.tasks[id := db.tasks[id].(status := Running, owner := Some(w), expiry := Some(db.now + lease),
                                          version := db.tasks[id].version + 1)]
        else db.tasks
  {
    hide Apply, MoveOf, EnsureRuntime, NextAgent, NextTask;
    var step := ClaimTask(w, pool, tenant, lease, db.tasks[id].agent, id);
    ClaimTests(db, w, pool, tenant, lease, id);
    LineIff(db, pool, tenant, id);
    if MoveOf(db, step).Some? {
      MoveEffects(db, step);
      ClaimMove(db, step);
    } else {
      QuietEffects(db, step);
    }
  }

  lemma ClaimTests(db: Db, w: WorkerId, pool: PoolId, tenant: nat, lease: nat, id: TaskId)
    requires id in db.tasks
    ensures var step := ClaimTask(w, pool, tenant, lease, db.tasks[id].agent, id);
      var ready := EnsureRuntime(db, pool, tenant);
      var first := NextAgent(ready, pool, tenant, db.tasks[id].agent) && NextTask(ready, db.tasks[id].agent, pool, id);
      MoveOf(db, step).Some? <==> first
  {
    hide NextAgent, NextTask, EnsureRuntime;
  }

  lemma EnsuredRow(db: Db, pool: PoolId, tenant: nat, a: AgentKey)
    requires a in EnsureRuntime(db, pool, tenant).runtime
    ensures EnsureRuntime(db, pool, tenant).runtime[a]
         == Runtime(CountOf(db.runtime, a), CachedCost(db, a), CursorOf(db, a))
  {
  }

  lemma LineSuffices(db: Db, pool: PoolId, tenant: nat, id: TaskId)
    requires Startable(db, pool, tenant, id) && FirstInLine(db, pool, tenant, id)
    ensures var ready, a := EnsureRuntime(db, pool, tenant), db.tasks[id].agent;
      NextAgent(ready, pool, tenant, a) && NextTask(ready, a, pool, id)
  {
    hide EnsureRuntime, Open;
    var ready, a := EnsureRuntime(db, pool, tenant), db.tasks[id].agent;
    EnsureFrame(db, pool, tenant);
    StartableIsEligible(db, pool, tenant, id);
    EnsuredRow(db, pool, tenant, a);
    forall b | Eligible(ready, pool, tenant, b)
      ensures ready.runtime[a].cursor <= ready.runtime[b].cursor
    {
      EnsuredRow(db, pool, tenant, b);
      EligibleHasTask(db, pool, tenant, b);
    }
    forall j | Candidate(ready, j, a, pool)
      ensures db.tasks[id].createdAt <= db.tasks[j].createdAt
    {
      StartableIsEligible(db, pool, tenant, j);
    }
  }

  lemma LineNeeded(db: Db, pool: PoolId, tenant: nat, id: TaskId)
    requires id in db.tasks
    requires var ready, a := EnsureRuntime(db, pool, tenant), db.tasks[id].agent;
      NextAgent(ready, pool, tenant, a) && NextTask(ready, a, pool, id)
    ensures Startable(db, pool, tenant, id) && FirstInLine(db, pool, tenant, id)
  {
    hide EnsureRuntime, Open;
    var ready, a := EnsureRuntime(db, pool, tenant), db.tasks[id].agent;
    EnsureFrame(db, pool, tenant);
    StartableIsEligible(db, pool, tenant, id);
    EnsuredRow(db, pool, tenant, a);
    forall j | Startable(db, pool, tenant, j)
      ensures CursorOf(db, a) <= CursorOf(db, db.tasks[j].agent)
      ensures db.tasks[j].agent == a ==> db.tasks[id].createdAt <= db.tasks[j].createdAt
    {
      StartableIsEligible(db, pool, tenant, j);
      EnsuredRow(db, pool, tenant, db.tasks[j].agent);
    }
  }

  lemma LineIff(db: Db, pool: PoolId, tenant: nat, id: TaskId)
    requires id in db.tasks
    ensures var ready, a := EnsureRuntime(db, pool, tenant), db.tasks[id].agent;
      var first := NextAgent(ready, pool, tenant, a) && NextTask(ready, a, pool, id);
      first <==> Startable(db, pool, tenant, id) && FirstInLine(db, pool, tenant, id)
  {
    hide EnsureRuntime, Eligible, Candidate, Startable;
    var ready, a := EnsureRuntime(db, pool, tenant), db.tasks[id].agent;
    EnsureFrame(db, pool, tenant);
    StartableIsEligible(db, pool, tenant, id);
    if Startable(db, pool, tenant, id) && FirstInLine(db, pool, tenant, id) {
      LineSuffices(db, pool, tenant, id);
    }
    if NextAgent(ready, pool, tenant, a) && NextTask(ready, a, pool, id) {
      LineNeeded(db, pool, tenant, id);
    }
  }

  /** A poll that claims nothing adds a zeroed runtime row for each agent of the tenant with queued work
      in the pool that had none, and changes nothing else. */
  lemma EmptyPollWrites(db: Db, pool: PoolId, tenant: nat)
    ensures var after := Apply(db, EmptyPoll(pool, tenant));
      && after == db.(runtime := after.runtime)
      && (forall a :: a in after.runtime <==> a in db.runtime || exists id | id in db.tasks ::
            db.tasks[id].agent == a && db.tasks[id].status == Queued
            && db.tasks[id].pool == pool && a.tenant == tenant)
      && forall a | a in after.runtime ::
           after.runtime[a] == if a in db.runtime then db.runtime[a] else Runtime(0, 0, 0)
  {
    hide ExecutorMove, ReaperMove, ApiMove;
  }

  /** The configuration of an agent: it is written whole, and a new agent gets a zeroed runtime row. */
  lemma SetAgentWrites(db: Db, a: AgentKey, config: Agent)
    ensures Apply(db, SetAgent(a, config)) ==
              db.(agents := db.agents[a := config],
                  runtime := if a in db.agents || a in db.runtime then db.runtime
                             else db.runtime[a := Runtime(0, 0, 0)])
  {
    hide PollerMove, ExecutorMove, ReaperMove;
  }

  /** Nobody is eligible if and only if no task is startable. */
  lemma NobodyIff(db: Db, pool: PoolId, tenant: nat)
    ensures (forall a :: !Eligible(EnsureRuntime(db, pool, tenant), pool, tenant, a))
       <==> forall id :: !Startable(db, pool, tenant, id)
  {
    hide EnsureRuntime, Eligible;
    EligibleIff(db, pool, tenant);
    forall id | Startable(db, pool, tenant, id)
      ensures Eligible(EnsureRuntime(db, pool, tenant), pool, tenant, db.tasks[id].agent)
    {
      StartableIsEligible(db, pool, tenant, id);
    }
  }

  lemma ChosenIsFirst(db: Db, pool: PoolId, tenant: nat, a: AgentKey, id: TaskId)
    requires var ready := EnsureRuntime(db, pool, tenant);
      NextAgent(ready, pool, tenant, a) && NextTask(ready, a, pool, id)
    ensures id in db.tasks && db.tasks[id].agent == a
    ensures Startable(db, pool, tenant, id) && FirstInLine(db, pool, tenant, id)
    ensures a in EnsureRuntime(db, pool, tenant).runtime
  {
    hide EnsureRuntime, Startable, FirstInLine;
    EnsureFrame(db, pool, tenant);
    assert Candidate(EnsureRuntime(db, pool, tenant), id, a, pool);
    LineIff(db, pool, tenant, id);
  }

  // ---- Over whole runs ---------------------------------------------------------------------------

  predicate Runs(tasks: map<TaskId, Task>, id: TaskId)
  {
    id in tasks && tasks[id].status == Running
  }

  /** A task starts only by a claim of its own pool and tenant that finds it startable and first in
      line. */
  lemma StartsOnlyByClaim(db: Db, step: Step, id: TaskId)
    requires LeasesAgree(db) && Runs(Apply(db, step).tasks, id) && !Runs(db.tasks, id)
    ensures step.ClaimTask? && step.id == id
    ensures Startable(db, step.pool, step.tenant, id) && FirstInLine(db, step.pool, step.tenant, id)
    ensures Apply(db, step).tasks[id].agent == db.tasks[id].agent
    ensures Apply(db, step).tasks[id].owner == Some(step.worker)
  {
    hide Apply, MoveOf, EnsureRuntime, Startable, FirstInLine;
    if MoveOf(db, step).Some? {
      MovesAreLegal(db, step);
      MoveEffects(db, step);
      ClaimMove(db, step);
      ClaimedAgent(db, step);
      ClaimGrantedIff(db, step.worker, step.pool, step.tenant, step.lease, id);
    } else {
      QuietEffects(db, step);
    }
  }

  lemma ClaimedAgent(db: Db, step: Step)
    requires step.ClaimTask? && MoveOf(db, step).Some?
    ensures step.id in db.tasks && db.tasks[step.id].agent == step.agent
  {
    hide EnsureRuntime;
    EnsureFrame(db, step.pool, step.tenant);
  }

  lemma AgentKept(db: Db, step: Step, id: TaskId)
    requires LeasesAgree(db) && id in db.tasks
    ensures var after := Apply(db, step).tasks;
      id in after && after[id].agent == db.tasks[id].agent && after[id].pool == db.tasks[id].pool
  {
    hide Apply, MoveOf;
    if MoveOf(db, step).Some? {
      MovesAreLegal(db, step);
      MoveEffects(db, step);
    } else {
      QuietEffects(db, step);
    }
  }

  /** No step starts a task of an agent that is not open. */
  lemma ShutStep(db: Db, step: Step, a: AgentKey)
    requires LeasesAgree(db) && !Open(db, a)
    ensures RunningSet(Apply(db, step).tasks, a) <= RunningSet(db.tasks, a)
  {
    hide Apply, Open, LeasesAgree;
    var after := Apply(db, step);
    forall id | id in RunningSet(after.tasks, a)
      ensures id in RunningSet(db.tasks, a)
    {
      if Runs(db.tasks, id) {
        AgentKept(db, step, id);
      } else {
        StartsOnlyByClaim(db, step, id);
      }
    }
  }

  /** An inactive agent starts nothing until its configuration is changed. */
  lemma {:induction false} InactiveAgentStartsNothing(db: Db, steps: seq<Step>, a: AgentKey)
    requires LeasesAgree(db) && a in db.agents && !db.agents[a].active
    requires forall s | s in steps :: !(s.SetAgent? && s.agent == a)
    ensures RunningSet(Run(db, steps).tasks, a) <= RunningSet(db.tasks, a)
    decreases |steps|
  {
    hide Apply, LeasesAgree, RunningSet;
    if steps == [] {
    } else {
      ShutStep(db, steps[0], a);
      N.AgentsFixed(db, steps[0], a);
      LeasesStayAgreed(db, steps[0]);
      InactiveAgentStartsNothing(Apply(db, steps[0]), steps[1..], a);
    }
  }

  /** Tasks of one agent in one pool start oldest first: what starts is no younger than any task of the
      agent that waits there, queued and past its delay. */
  lemma OldestStartsFirst(db: Db, step: Step, id: TaskId, other: TaskId)
    requires LeasesAgree(db) && Runs(Apply(db, step).tasks, id) && !Runs(db.tasks, id)
    requires other in db.tasks && db.tasks[other].status == Queued
    requires db.tasks[other].retryAfter.None? || db.tasks[other].retryAfter.value < db.now
    requires id in db.tasks && db.tasks[other].agent == db.tasks[id].agent && db.tasks[other].pool == db.tasks[id].pool
    ensures db.tasks[id].createdAt <= db.tasks[other].createdAt
  {
    hide Apply, Open;
    StartsOnlyByClaim(db, step, id);
  }

  /** What each step does to the cached hourly cost. */
  ghost function CostChange(db: Db, step: Step, a: AgentKey): int
  {
    match step
    case StepCost(w, id, checkpoint, cost) =>
      if HoldsLease(db, w, id) && db.tasks[id].agent == a then cost else 0
    case SupervisorCost(w, id, checkpoint, cost) =>
      if HoldsLease(db, w, id) && db.tasks[id].agent == a then cost else 0
    case Complete(w, id, note) =>
      if HoldsLease(db, w, id) && NoteFits(db, id, note) && db.tasks[id].agent == a
         && note.Memory? && note.checkpoint.Some?
      then note.summarizer else 0
    case CacheHourCost(b) =>
      if b == a && a in db.runtime then WindowSum(db.ledger, a, db.now) - CachedCost(db, a) else 0
    case ReconcileCosts =>
      if a in db.runtime && SpentThisHour(db.ledger, a, db.now)
      then WindowSum(db.ledger, a, db.now) - CachedCost(db, a) else 0
    case ZeroCosts => if SpentThisHour(db.ledger, a, db.now) then 0 else 0 - CachedCost(db, a)
    case _ => 0
  }

  lemma HourCostAddedTo(runtime: map<AgentKey, Runtime>, b: AgentKey, delta: nat, a: AgentKey)
    ensures var after, before := HourCostAdded(runtime, b, delta), runtime;
      (if a in after then after[a].hourCost else 0)
        == (if a in before then before[a].hourCost else 0) + if a == b then delta else 0
  {
  }

  lemma NotedCache(db: Db, w: WorkerId, id: TaskId, note: MemoryNote, completed: bool, a: AgentKey)
    requires id in db.tasks
    ensures var spent := completed && note.Memory? && note.checkpoint.Some? && db.tasks[id].agent == a;
      CachedCost(Noted(db, w, id, note, completed), a) == CachedCost(db, a) + if spent then note.summarizer else 0
  {
    hide HourCostAdded, Accepts, C.AddCost;
    if note.Memory? {
      HourCostAddedTo(db.runtime, db.tasks[id].agent, note.summarizer, a);
    }
  }

  lemma FinishedCache(db: Db, step: Step, m: Move, a: AgentKey)
    ensures CachedCost(Finished(Enact(db, m), step), a) == CachedCost(db, a)
  {
  }

  lemma PreparedCache(db: Db, step: Step, a: AgentKey)
    requires MoveOf(db, step).Some?
    ensures CachedCost(Prepared(db, step), a) == CachedCost(db, a) + CostChange(db, step, a)
  {
    hide MoveOf, Noted, NoteFits, HoldsLease, WindowSum, SpentThisHour, EnsureRuntime;
    if step.Complete? {
      CompleteGuard(db, step);
      MarkedTaskExists(db, step);
      NotedCache(db, step.worker, step.id, step.note, true, a);
    } else if step.Abandon? {
      MarkedTaskExists(db, step);
      NotedCache(db, step.worker, step.id, step.note, false, a);
    } else if step.ClaimTask? {
      EnsureCache(db, step.pool, step.tenant, a);
    } else {
      ChargesMoveNothing(db, step);
    }
  }

  lemma CompleteGuard(db: Db, step: Step)
    requires step.Complete?
    ensures MoveOf(db, step).Some? <==> HoldsLease(db, step.worker, step.id) && NoteFits(db, step.id, step.note)
  {
    hide PollerMove, ReaperMove, ApiMove, NoteFits;
  }

  lemma EnsureCache(db: Db, pool: PoolId, tenant: nat, a: AgentKey)
    ensures CachedCost(EnsureRuntime(db, pool, tenant), a) == CachedCost(db, a)
  {
  }

  lemma ChargesMoveNothing(db: Db, step: Step)
    requires MoveOf(db, step).Some?
    ensures !step.StepCost? && !step.SupervisorCost?
    ensures !step.CacheHourCost? && !step.ReconcileCosts? && !step.ZeroCosts?
  {
    hide NoteFits, MayRecover, NextAgent, NextTask, EnsureRuntime;
  }

  lemma ExecutorCache(db: Db, step: Step, a: AgentKey)
    requires Actor(step) == Executor && (step.Complete? ==> MoveOf(db, step).None?)
    ensures CachedCost(ExecutorQuiet(db, step), a) == CachedCost(db, a) + CostChange(db, step, a)
  {
    hide MoveOf, HourCostAdded, Accepts, NoteFits, C.Upsert, C.SetCost, C.AddCost, C.MirrorCost, C.IsLatest, W.Put;
    if step.Complete? {
      CompleteGuard(db, step);
    }
    if (step.StepCost? || step.SupervisorCost?) && step.id in db.tasks {
      HourCostAddedTo(db.runtime, db.tasks[step.id].agent, step.cost, a);
    }
  }

  lemma OthersCache(db: Db, step: Step, a: AgentKey)
    ensures var cached := CachedCost(db, a) + CostChange(db, step, a);
      && (Actor(step) == Poller ==> CachedCost(PollerQuiet(db, step), a) == cached)
      && (Actor(step) == Reaper ==> CachedCost(ReaperQuiet(db, step), a) == cached)
      && (Actor(step) == Api ==> CachedCost(ApiQuiet(db, step), a) == cached)
  {
    hide WindowSum, SpentThisHour, RunningSet, Pruned, Eligible;
  }

  /** The cached hourly cost after every step, exactly: it grows by step costs and by the summarizer
      of a completion, and is overwritten by the reaper; no other charge reaches it. */
  lemma CachedCostAfter(db: Db, step: Step, a: AgentKey)
    ensures CachedCost(Apply(db, step), a) == CachedCost(db, a) + CostChange(db, step, a)
  {
    hide MoveOf, PollerQuiet, ExecutorQuiet, ReaperQuiet, ApiQuiet, Prepared, Enact, Finished, CostChange, CachedCost;
    if MoveOf(db, step).Some? {
      PreparedCache(db, step, a);
      FinishedCache(Prepared(db, step), step, MoveOf(db, step).value, a);
    } else {
      match Actor(step)
      case Executor => ExecutorCache(db, step, a);
      case _ => OthersCache(db, step, a);
    }
  }

  /** The steps that may lower the cached hourly cost or change the budget. */
  predicate Reopens(step: Step, a: AgentKey)
  {
    (step.SetAgent? && step.agent == a) || (step.CacheHourCost? && step.agent == a)
    || step.ReconcileCosts? || step.ZeroCosts?
  }

  /** An agent whose cached hourly cost has reached its budget starts nothing, until its configuration
      is changed or the reaper writes the cached cost. */
  lemma {:induction false} OverBudgetAgentStartsNothing(db: Db, steps: seq<Step>, a: AgentKey)
    requires LeasesAgree(db) && a in db.agents && CachedCost(db, a) >= db.agents[a].budgetPerHour
    requires forall s | s in steps :: !Reopens(s, a)
    ensures RunningSet(Run(db, steps).tasks, a) <= RunningSet(db.tasks, a)
    decreases |steps|
  {
    hide Apply, LeasesAgree, RunningSet, CachedCost, WindowSum, SpentThisHour, NoteFits;
    if steps == [] {
    } else {
      assert !Reopens(steps[0], a);
      ShutStep(db, steps[0], a);
      N.AgentsFixed(db, steps[0], a);
      LeasesStayAgreed(db, steps[0]);
      CachedCostAfter(db, steps[0], a);
      OverBudgetAgentStartsNothing(Apply(db, steps[0]), steps[1..], a);
    }
  }

  /** A task is not started as long as no worker of its own pool and tenant claims. */
  lemma {:induction false} OtherPoolsStartNothing(db: Db, steps: seq<Step>, id: TaskId)
    requires LeasesAgree(db) && id in db.tasks && !Runs(db.tasks, id)
    requires forall s | s in steps ::
               s.ClaimTask? ==> s.pool != db.tasks[id].pool || s.tenant != db.tasks[id].agent.tenant
    ensures !Runs(Run(db, steps).tasks, id)
    decreases |steps|
  {
    hide Apply, LeasesAgree, Open;
    if steps == [] {
    } else {
      LeasesStayAgreed(db, steps[0]);
      AgentKept(db, steps[0], id);
      if Runs(Apply(db, steps[0]).tasks, id) {
        StartsOnlyByClaim(db, steps[0], id);
      }
      OtherPoolsStartNothing(Apply(db, steps[0]), steps[1..], id);
    }
  }
}
