/** Concrete runs from a fresh database in which the cached running count goes wrong: a queued
    timeout lets an agent pass its limit, and a cancellation blocks it. */
module CountRuns {
  import opened Tables
  import opened Lifecycle
  import opened Invariants
  import opened RunningCounts

  const SOLE := AgentKey(0, 0)
  const ONE_AT_A_TIME := Agent(true, 1, 10, 10)
  const LEASE: nat := 60 * SECOND

  /** A database of one agent: what the steps below read and write. */
  predicate Shape(db: Db, now: Time, tasks: map<TaskId, Task>, count: nat)
  {
    && db.now == now && db.tasks == tasks && db.agents == map[SOLE := ONE_AT_A_TIME]
    && db.runtime.Keys == {SOLE} && db.runtime[SOLE].running == count && db.runtime[SOLE].hourCost == 0
  }

  function Fresh(timeout: nat): Task
  {
    NewTask(SOLE, 0, 1, timeout, 1)
  }

  lemma Configure()
    ensures Initial(EmptyDb()) && Shape(Apply(EmptyDb(), SetAgent(SOLE, ONE_AT_A_TIME)), 1, map[], 0)
  {
    hide PollerMove, ExecutorMove, ReaperMove;
  }

  lemma SubmitShape(db: Db, tasks: map<TaskId, Task>, id: TaskId, timeout: nat)
    requires Shape(db, 1, tasks, 0) && id !in tasks
    ensures Shape(Apply(db, Submit(id, SOLE, 0, 1, timeout)), 1, tasks[id := Fresh(timeout)], 0)
  {
    hide PollerMove, ExecutorMove, ReaperMove;
  }

  lemma TickShape(db: Db, now: Time, tasks: map<TaskId, Task>, count: nat, d: nat)
    requires Shape(db, now, tasks, count)
    ensures Shape(Apply(db, Tick(d)), now + d, tasks, count)
  {
    hide ExecutorMove, ReaperMove, ApiMove;
  }

  predicate Oldest(tasks: map<TaskId, Task>, id: TaskId, now: Time)
  {
    id in tasks && tasks[id].agent == SOLE && tasks[id].pool == 0 && Ready(tasks[id], now)
    && forall i | i in tasks && Ready(tasks[i], now) :: tasks[id].createdAt <= tasks[i].createdAt
  }

  lemma ClaimShape(db: Db, now: Time, tasks: map<TaskId, Task>, id: TaskId)
    requires Shape(db, now, tasks, 0) && Oldest(tasks, id, now)
    requires forall i | i in tasks :: tasks[i].agent == SOLE
    ensures Shape(Apply(db, ClaimTask(7, 0, 0, LEASE, SOLE, id)), now,
                  tasks[id := Claimed(tasks[id], 7, now + LEASE)], 1)
  {
    hide ExecutorMove, ReaperMove, ApiMove, Quiet;
    var ready := EnsureRuntime(db, 0, 0);
    assert ready.runtime == db.runtime;
    assert Candidate(ready, id, SOLE, 0);
  }

  lemma TimeOutShape(db: Db, now: Time, tasks: map<TaskId, Task>, id: TaskId)
    requires Shape(db, now, tasks, 1) && id in tasks && tasks[id].agent == SOLE && Overdue(tasks[id], now)
    ensures Shape(Apply(db, TimeOut(id)), now, tasks[id := DeadLettered(tasks[id], TaskTimeout, tasks[id].owner)], 0)
  {
    hide PollerMove, ExecutorMove, ApiMove, Quiet;
  }

  lemma CancelShape(db: Db, now: Time, tasks: map<TaskId, Task>, count: nat, id: TaskId)
    requires Shape(db, now, tasks, count) && id in tasks && tasks[id].status == Running
    ensures Shape(Apply(db, Cancel(id)), now,
                  tasks[id := DeadLettered(tasks[id], CancelledByUser, tasks[id].owner).(humanTimeoutAt := None)],
                  count)
  {
    hide PollerMove, ExecutorMove, ReaperMove, Quiet;
  }

  /** The agent, three tasks of which the second times out after one second, and a claim. */
  function Opening(): seq<Step>
  {
    [SetAgent(SOLE, ONE_AT_A_TIME)] + ([Submit(0, SOLE, 0, 1, 3600)] + ([Submit(1, SOLE, 0, 1, 1)] +
      ([Submit(2, SOLE, 0, 1, 3600)] + ([ClaimTask(7, 0, 0, LEASE, SOLE, 0)] + []))))
  }

  function OpeningTasks(): map<TaskId, Task>
  {
    map[0 := Claimed(Fresh(3600), 7, 1 + LEASE), 1 := Fresh(1), 2 := Fresh(3600)]
  }

  lemma OpeningShape()
    ensures Shape(Run(EmptyDb(), Opening()), 1, OpeningTasks(), 1)
  {
    hide Apply, Run, Shape;
    var s := Opening();
    var s1, s2 := SetAgent(SOLE, ONE_AT_A_TIME), Submit(0, SOLE, 0, 1, 3600);
    var s3, s4, s5 := Submit(1, SOLE, 0, 1, 1), Submit(2, SOLE, 0, 1, 3600), ClaimTask(7, 0, 0, LEASE, SOLE, 0);
    RunCons(EmptyDb(), s1, [s2] + ([s3] + ([s4] + ([s5] + []))));
    Configure();
    var d1 := Apply(EmptyDb(), s1);
    RunCons(d1, s2, [s3] + ([s4] + ([s5] + [])));
    SubmitShape(d1, map[], 0, 3600);
    var d2 := Apply(d1, s2);
    RunCons(d2, s3, [s4] + ([s5] + []));
    SubmitShape(d2, map[][0 := Fresh(3600)], 1, 1);
    var d3 := Apply(d2, s3);
    RunCons(d3, s4, [s5] + []);
    SubmitShape(d3, map[][0 := Fresh(3600)][1 := Fresh(1)], 2, 3600);
    var d4 := Apply(d3, s4);
    var tasks := map[][0 := Fresh(3600)][1 := Fresh(1)][2 := Fresh(3600)];
    RunCons(d4, s5, []);
    ClaimShape(d4, 1, tasks, 0);
    EmptyRun(Apply(d4, s5));
    assert tasks[0 := Claimed(tasks[0], 7, 1 + LEASE)] == OpeningTasks();
  }

  function AfterTimeout(): seq<Step>
  {
    [Tick(2 * SECOND)] + ([TimeOut(1)] + ([ClaimTask(7, 0, 0, LEASE, SOLE, 2)] + []))
  }

  function TimedOutTasks(): map<TaskId, Task>
  {
    OpeningTasks()[1 := DeadLettered(Fresh(1), TaskTimeout, None)]
  }

  lemma TimeoutFreesSlot(db: Db)
    requires Shape(db, 1, OpeningTasks(), 1)
    ensures Shape(Run(db, AfterTimeout()), 1 + 2 * SECOND,
                  TimedOutTasks()[2 := Claimed(Fresh(3600), 7, 1 + 2 * SECOND + LEASE)], 1)
  {
    hide Apply, Run, Shape;
    var s1, s2, s3 := Tick(2 * SECOND), TimeOut(1), ClaimTask(7, 0, 0, LEASE, SOLE, 2);
    var now := 1 + 2 * SECOND;
    RunCons(db, s1, [s2] + ([s3] + []));
    TickShape(db, 1, OpeningTasks(), 1, 2 * SECOND);
    var d1 := Apply(db, s1);
    RunCons(d1, s2, [s3] + []);
    TimeOutShape(d1, now, OpeningTasks(), 1);
    var d2 := Apply(d1, s2);
    RunCons(d2, s3, []);
    ClaimShape(d2, now, TimedOutTasks(), 2);
    EmptyRun(Apply(d2, s3));
  }

  /** A queued task that times out gives back the running task's slot, and the next claim puts two
      tasks on an agent whose limit is one. */
  lemma QueuedTimeoutPassesLimit()
    ensures Initial(EmptyDb())
    ensures var db := Run(EmptyDb(), Opening() + AfterTimeout());
      SOLE in db.agents && db.agents[SOLE].maxConcurrent == 1 && RunningNow(db, SOLE) == 2
  {
    hide Apply, Run, Opening, AfterTimeout;
    OpeningShape();
    RunConcat(EmptyDb(), Opening(), AfterTimeout());
    TimeoutFreesSlot(Run(EmptyDb(), Opening()));
    var db := Run(Run(EmptyDb(), Opening()), AfterTimeout());
    assert RunningSet(db.tasks, SOLE) == {0, 2};
  }

  /** A cancelled task keeps its slot: nothing runs, the count says one, and with a limit of one the
      agent cannot be served until the count is reconciled. */
  lemma CancellationBlocksAgent(pool: PoolId, tenant: nat)
    ensures var db := Run(EmptyDb(), Opening() + ([Cancel(0)] + []));
      && RunningNow(db, SOLE) == 0 && CountOf(db.runtime, SOLE) == 1
      && Candidate(db, 2, SOLE, 0) && !Eligible(EnsureRuntime(db, pool, tenant), pool, tenant, SOLE)
      && CountOf(Apply(Apply(db, ReconcileCounts), ZeroCounts).runtime, SOLE) == 0
  {
    hide Apply, Run;
    OpeningShape();
    RunConcat(EmptyDb(), Opening(), [Cancel(0)] + []);
    var d0 := Run(EmptyDb(), Opening());
    RunCons(d0, Cancel(0), []);
    CancelShape(d0, 1, OpeningTasks(), 1, 0);
    var db := Apply(d0, Cancel(0));
    EmptyRun(db);
    assert RunningSet(db.tasks, SOLE) == {};
    assert Sound(db) by {
      assert forall id | id in db.tasks :: LeaseAgrees(db.tasks[id]);
    }
    ReconcileRestoresCount(db, SOLE);
    QuietReconcile(db, SOLE);
    ZeroKeepsRunning(Apply(db, ReconcileCounts), SOLE);
  }

  lemma ZeroKeepsRunning(db: Db, a: AgentKey)
    ensures RunningNow(Apply(db, ZeroCounts), a) == RunningNow(db, a)
  {
    hide PollerMove, ExecutorMove, ApiMove;
  }
}
