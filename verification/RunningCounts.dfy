/** The cached running_task_count against the number of running tasks. */
module RunningCounts {
  import opened Tables
  import opened Lifecycle
  import opened Invariants

  function RunningNow(db: Db, a: AgentKey): nat
  {
    |RunningSet(db.tasks, a)|
  }

  /** How far the cached count is above (or below, if negative) the true number. */
  function Drift(db: Db, a: AgentKey): int
  {
    CountOf(db.runtime, a) - RunningNow(db, a)
  }

  predicate RunsFor(tasks: map<TaskId, Task>, id: TaskId, a: AgentKey)
  {
    id in tasks && tasks[id].agent == a && tasks[id].status == Running
  }

  /** Every agent with a running task has a runtime row. */
  ghost predicate RowsPresent(db: Db)
  {
    forall id | id in db.tasks && db.tasks[id].status == Running :: db.tasks[id].agent in db.runtime
  }

  ghost predicate Sound(db: Db)
  {
    LeasesAgree(db) && RowsPresent(db)
  }

  lemma RunningAfterUpdate(tasks: map<TaskId, Task>, id: TaskId, row: Task, a: AgentKey)
    ensures |RunningSet(tasks[id := row], a)|
         == |RunningSet(tasks, a)|
            + (if row.agent == a && row.status == Running then 1 else 0)
            - (if RunsFor(tasks, id, a) then 1 else 0)
  {
    var before, after := RunningSet(tasks, a), RunningSet(tasks[id := row], a);
    var rest := before - {id};
    assert after == rest || after == rest + {id};
  }

  // ---- What each step does to the count ------------------------------------------------------

  /** A queued task that times out gives back a slot it never took. */
  predicate QueuedTimeout(db: Db, step: Step, a: AgentKey)
  {
    step.TimeOut? && step.id in db.tasks && db.tasks[step.id].agent == a
    && db.tasks[step.id].status == Queued && Overdue(db.tasks[step.id], db.now)
  }

  /** A running task that is cancelled keeps the slot it took. */
  predicate RunningCancel(db: Db, step: Step, a: AgentKey)
  {
    step.Cancel? && RunsFor(db.tasks, step.id, a)
  }

  /** A transaction decrements exactly when its task was running, except that cancellation
      never does and a queued timeout does. */
  predicate ReleaseRule(db: Db, step: Step, m: Move)
  {
    m.id in db.tasks ==>
      (m.release <==>
         || (db.tasks[m.id].status == Running && !step.Cancel?)
         || (step.TimeOut? && db.tasks[m.id].status == Queued))
  }

  lemma ExecutorReleases(db: Db, step: Step)
    requires LeasesAgree(db)
    ensures ExecutorMove(db, step).Some? ==> ReleaseRule(db, step, ExecutorMove(db, step).value)
  {
    hide Ledger.WindowSum, Ledger.WindowStart, NoteFits;
  }

  lemma ReaperReleases(db: Db, step: Step)
    ensures ReaperMove(db, step).Some? ==> ReleaseRule(db, step, ReaperMove(db, step).value)
  {
    hide MayRecover;
  }

  lemma ApiReleases(db: Db, step: Step)
    ensures ApiMove(db, step).Some? ==> ReleaseRule(db, step, ApiMove(db, step).value)
  {
  }

  lemma Releases(db: Db, step: Step)
    requires LeasesAgree(db) && MoveOf(db, step).Some?
    ensures ReleaseRule(db, step, MoveOf(db, step).value)
    ensures step.TimeOut? || step.Cancel? ==> MoveOf(db, step).value.id == step.id
    ensures step.TimeOut? ==> step.id in db.tasks && Overdue(db.tasks[step.id], db.now)
  {
    hide ExecutorMove;
    match Actor(step)
    case Poller =>
    case Executor => ExecutorReleases(db, step);
    case Reaper => ReaperReleases(db, step);
    case Api => ApiReleases(db, step);
  }

  /** The count a move leaves: one more for a claim, one less (never below zero) for a
      transaction that decrements. */
  function CountAfter(n: nat, step: Step, m: Move, a: AgentKey): nat
  {
    if m.row.agent != a then n
    else if step.ClaimTask? then n + 1
    else if m.release then Max(n - 1, 0)
    else n
  }

  lemma DecrementCounts(runtime: map<AgentKey, Runtime>, b: AgentKey, a: AgentKey)
    ensures CountOf(Decremented(runtime, b), a)
         == if a == b then Max(CountOf(runtime, a) - 1, 0) else CountOf(runtime, a)
    ensures runtime.Keys <= Decremented(runtime, b).Keys
  {
  }

  lemma FinishCounts(db: Db, step: Step, a: AgentKey)
    ensures !step.ClaimTask? ==> Finished(db, step) == db
    ensures step.ClaimTask? && step.id in db.tasks && step.agent in db.runtime ==>
              && Finished(db, step).runtime.Keys == db.runtime.Keys
              && CountOf(Finished(db, step).runtime, a) == CountOf(db.runtime, a) + if a == step.agent then 1 else 0
  {
  }

  lemma MoveCounts(db: Db, step: Step, a: AgentKey)
    requires LeasesAgree(db) && MoveOf(db, step).Some?
    ensures CountOf(Apply(db, step).runtime, a)
         == CountAfter(CountOf(db.runtime, a), step, MoveOf(db, step).value, a)
    ensures db.runtime.Keys <= Apply(db, step).runtime.Keys
    ensures step.ClaimTask? ==> MoveOf(db, step).value.row.agent in Apply(db, step).runtime
  {
    hide MoveOf, Prepared, EnsureRuntime, Decremented, Finished, Quiet, Released, LeasesAgree;
    var m := MoveOf(db, step).value;
    PreparedFrame(db, step);
    ClaimMove(db, step);
    DecrementCounts(Prepared(db, step).runtime, m.row.agent, a);
    FinishCounts(Enact(Prepared(db, step), m), step, a);
    EnsuredIsPrepared(db, step);
  }

  /** The count a step leaves that moves no task. */
  function QuietCount(db: Db, step: Step, a: AgentKey): nat
  {
    if step.ReconcileCounts? && a in db.runtime && RunningNow(db, a) > 0 then RunningNow(db, a)
    else if step.ZeroCounts? && RunningNow(db, a) == 0 then 0
    else CountOf(db.runtime, a)
  }

  lemma ReaperCounts(db: Db, step: Step, a: AgentKey)
    ensures db.runtime.Keys <= ReaperQuiet(db, step).runtime.Keys
    ensures CountOf(ReaperQuiet(db, step).runtime, a) == QuietCount(db, step, a)
  {
    hide Ledger.WindowSum, SpentThisHour;
    assert RunningNow(db, a) == 0 <==> RunningSet(db.tasks, a) == {};
  }

  lemma BeatKeepsRunning(db: Db, step: Step, a: AgentKey)
    ensures RunningSet(Beaten(db, step), a) == RunningSet(db.tasks, a)
  {
  }

  lemma PollerCounts(db: Db, step: Step, a: AgentKey)
    ensures db.runtime.Keys <= PollerQuiet(db, step).runtime.Keys
    ensures CountOf(PollerQuiet(db, step).runtime, a) == CountOf(db.runtime, a)
    ensures db.runtime.Keys <= ApiQuiet(db, step).runtime.Keys
    ensures CountOf(ApiQuiet(db, step).runtime, a) == CountOf(db.runtime, a)
  {
    hide QueuedAgents, Eligible;
  }

  lemma OnlyReaperCounts(db: Db, step: Step, a: AgentKey)
    ensures Actor(step) != Reaper ==> QuietCount(db, step, a) == CountOf(db.runtime, a)
  {
    hide RunningSet;
  }

  lemma QuietCounts(db: Db, step: Step, a: AgentKey)
    requires MoveOf(db, step).None?
    ensures RunningSet(Apply(db, step).tasks, a) == RunningSet(db.tasks, a)
    ensures db.runtime.Keys <= Apply(db, step).runtime.Keys
    ensures CountOf(Apply(db, step).runtime, a) == QuietCount(db, step, a)
  {
    hide MoveOf, PollerQuiet, ExecutorQuiet, ReaperQuiet, ApiQuiet, RunningSet, QuietCount, Actor;
    QuietEffects(db, step);
    OnlyReaperCounts(db, step, a);
    BeatKeepsRunning(db, step, a);
    match Actor(step)
    case Poller => PollerCounts(db, step, a);
    case Executor => QuietExecutor(db, step);
    case Reaper => ReaperCounts(db, step, a);
    case Api => PollerCounts(db, step, a);
  }

  lemma RowsStayPresent(db: Db, step: Step)
    requires Sound(db)
    ensures Sound(Apply(db, step))
  {
    hide Apply, MoveOf;
    LeasesStayAgreed(db, step);
    if MoveOf(db, step).Some? {
      MovesAreLegal(db, step);
      MoveEffects(db, step);
      ClaimMove(db, step);
      MoveCounts(db, step, MoveOf(db, step).value.row.agent);
    } else {
      QuietEffects(db, step);
      QuietCounts(db, step, AgentKey(0, 0));
    }
  }

  /** The drift a step adds: nothing but queued timeouts and running cancellations move it away
      from zero, and only an already low count or a reconciliation moves it back. */
  lemma DriftAfter(db: Db, step: Step, a: AgentKey)
    requires Sound(db)
    ensures var d, e := Drift(db, a), Drift(Apply(db, step), a);
      if RunningCancel(db, step, a) then e == d + 1
      else if QueuedTimeout(db, step, a) then e == if CountOf(db.runtime, a) > 0 then d - 1 else d
      else if step.ReconcileCounts? then e == if RunningNow(db, a) > 0 then 0 else d
      else if step.ZeroCounts? then e == if RunningNow(db, a) > 0 then d else 0
      else e == d || (d < 0 && e == d + 1)
  {
    hide Apply, MoveOf, RunningSet;
    if MoveOf(db, step).Some? {
      var m := MoveOf(db, step).value;
      MovesAreLegal(db, step);
      MoveEffects(db, step);
      ClaimMove(db, step);
      MoveCounts(db, step, a);
      Releases(db, step);
      RunningAfterUpdate(db.tasks, m.id, m.row, a);
      if RunsFor(db.tasks, m.id, a) {
        RunningPositive(db, m.id, a);
      }
      CancelMoves(db, step);
    } else {
      QuietCounts(db, step, a);
      CancelMoves(db, step);
      if RunningNow(db, a) > 0 {
        RunningHasRow(db, a);
      }
    }
  }

  lemma RunningPositive(db: Db, id: TaskId, a: AgentKey)
    requires RunsFor(db.tasks, id, a)
    ensures RunningNow(db, a) > 0
  {
    assert id in RunningSet(db.tasks, a);
  }

  lemma RunningHasRow(db: Db, a: AgentKey)
    requires RowsPresent(db) && RunningNow(db, a) > 0
    ensures a in db.runtime
  {
    var id :| id in RunningSet(db.tasks, a);
  }

  lemma CancelMoves(db: Db, step: Step)
    ensures forall a :: RunningCancel(db, step, a) || QueuedTimeout(db, step, a) ==> MoveOf(db, step).Some?
    ensures step.ReconcileCounts? || step.ZeroCounts? ==> MoveOf(db, step).None?
  {
    hide PollerMove, ExecutorMove;
  }

  // ---- Theorems -------------------------------------------------------------------------------

  /** From an exact count, a step leaves the count exact if and only if it is neither the
      cancellation of a running task nor the timeout of a queued one while others run. */
  lemma StepKeepsCountExactIff(db: Db, step: Step, a: AgentKey)
    requires Sound(db) && Drift(db, a) == 0
    ensures Drift(Apply(db, step), a) == 0 <==>
              !RunningCancel(db, step, a) && !(QueuedTimeout(db, step, a) && RunningNow(db, a) > 0)
  {
    hide Apply;
    DriftAfter(db, step, a);
  }

  /** The two steps that make an exact count inexact. */
  predicate Drifts(db: Db, step: Step, a: AgentKey)
  {
    RunningCancel(db, step, a) || (QueuedTimeout(db, step, a) && RunningNow(db, a) > 0)
  }

  ghost predicate StaysExact(db: Db, steps: seq<Step>, a: AgentKey)
    decreases |steps|
  {
    Drift(db, a) == 0 && (steps == [] || StaysExact(Apply(db, steps[0]), steps[1..], a))
  }

  ghost predicate DriftsOn(db: Db, steps: seq<Step>, a: AgentKey)
    decreases |steps|
  {
    steps != [] && (Drifts(db, steps[0], a) || DriftsOn(Apply(db, steps[0]), steps[1..], a))
  }

  /** Over whole runs from an exact count: it is exact in every state if and only if neither kind of
      step happens. */
  lemma {:induction false} RunStaysExactIff(db: Db, steps: seq<Step>, a: AgentKey)
    requires Sound(db) && Drift(db, a) == 0
    ensures StaysExact(db, steps, a) <==> !DriftsOn(db, steps, a)
    decreases |steps|
  {
    hide Apply, RunningCancel, QueuedTimeout, Drift;
    if steps == [] {
    } else {
      StepKeepsCountExactIff(db, steps[0], a);
      RowsStayPresent(db, steps[0]);
      if Drift(Apply(db, steps[0]), a) == 0 {
        RunStaysExactIff(Apply(db, steps[0]), steps[1..], a);
      } else {
        assert !StaysExact(Apply(db, steps[0]), steps[1..], a);
      }
    }
  }

  ghost function QueuedTimeouts(db: Db, steps: seq<Step>, a: AgentKey): nat
    decreases |steps|
  {
    if steps == [] then 0
    else (if QueuedTimeout(db, steps[0], a) then 1 else 0) + QueuedTimeouts(Apply(db, steps[0]), steps[1..], a)
  }

  ghost function RunningCancels(db: Db, steps: seq<Step>, a: AgentKey): nat
    decreases |steps|
  {
    if steps == [] then 0
    else (if RunningCancel(db, steps[0], a) then 1 else 0) + RunningCancels(Apply(db, steps[0]), steps[1..], a)
  }

  /** On every run the count is above the truth by at most the running tasks cancelled on the
      way, and below it by at most the queued tasks timed out on the way. */
  lemma {:induction false} DriftIsBounded(db: Db, steps: seq<Step>, a: AgentKey, low: nat, high: nat)
    requires Sound(db) && 0 <= Drift(db, a) + low && Drift(db, a) <= high
    ensures Sound(Run(db, steps))
    ensures 0 <= Drift(Run(db, steps), a) + low + QueuedTimeouts(db, steps, a)
    ensures Drift(Run(db, steps), a) <= high + RunningCancels(db, steps, a)
    decreases |steps|
  {
    hide Apply, QueuedTimeout, RunningCancel;
    if steps == [] {
    } else {
      var step := steps[0];
      RowsStayPresent(db, step);
      DriftAfter(db, step, a);
      DriftIsBounded(Apply(db, step), steps[1..], a,
                     low + if QueuedTimeout(db, step, a) then 1 else 0,
                     high + if RunningCancel(db, step, a) then 1 else 0);
    }
  }

  /** From a fresh database: exact on every run without the two drifting steps. */
  lemma CountIsExactWithoutDriftingSteps(start: Db, steps: seq<Step>, a: AgentKey)
    requires Initial(start)
    requires QueuedTimeouts(start, steps, a) == 0 && RunningCancels(start, steps, a) == 0
    ensures CountOf(Run(start, steps).runtime, a) == RunningNow(Run(start, steps), a)
  {
    assert RunningSet(start.tasks, a) == {};
    DriftIsBounded(start, steps, a, 0, 0);
  }

  /** The two count statements of a reconciliation each repair one kind of agent... */
  lemma ReconcileRepairsIff(db: Db, a: AgentKey)
    requires Sound(db)
    ensures Drift(Apply(db, ReconcileCounts), a) == 0 <==> RunningNow(db, a) > 0 || Drift(db, a) == 0
    ensures Drift(Apply(db, ZeroCounts), a) == 0 <==> RunningNow(db, a) == 0 || Drift(db, a) == 0
  {
    hide Apply;
    DriftAfter(db, ReconcileCounts, a);
    DriftAfter(db, ZeroCounts, a);
  }

  /** ... and together, back to back, every agent, whatever the drift was. */
  lemma ReconcileRestoresCount(db: Db, a: AgentKey)
    requires Sound(db)
    ensures Drift(Apply(Apply(db, ReconcileCounts), ZeroCounts), a) == 0
  {
    hide Apply;
    var mid := Apply(db, ReconcileCounts);
    RowsStayPresent(db, ReconcileCounts);
    DriftAfter(db, ReconcileCounts, a);
    DriftAfter(mid, ZeroCounts, a);
    QuietReconcile(db, a);
  }

  lemma QuietReconcile(db: Db, a: AgentKey)
    ensures RunningNow(Apply(db, ReconcileCounts), a) == RunningNow(db, a)
  {
  }

  // ---- The concurrency limit ----------------------------------------------------------------

  predicate ChangesLimit(step: Step, a: AgentKey)
  {
    step.SetAgent? && step.agent == a
  }

  lemma ClaimUnderLimit(db: Db, step: Step)
    requires step.ClaimTask? && MoveOf(db, step).Some?
    ensures step.agent in db.agents && CountOf(db.runtime, step.agent) < db.agents[step.agent].maxConcurrent
  {
  }

  lemma AgentsFixed(db: Db, step: Step, a: AgentKey)
    requires !ChangesLimit(step, a)
    ensures a in db.agents <==> a in Apply(db, step).agents
    ensures a in db.agents ==> Apply(db, step).agents[a] == db.agents[a]
  {
    hide MoveOf, Apply;
    if MoveOf(db, step).Some? {
      MoveEffects(db, step);
    } else {
      QuietEffects(db, step);
    }
  }

  /** More running tasks appear only through a claim, which saw a count below the limit. */
  lemma RunningGrowsByClaim(db: Db, step: Step, a: AgentKey)
    requires LeasesAgree(db)
    ensures RunningNow(Apply(db, step), a) <= RunningNow(db, a)
         || (step.ClaimTask? && step.agent == a && MoveOf(db, step).Some?
             && RunningNow(Apply(db, step), a) == RunningNow(db, a) + 1)
  {
    hide Apply, MoveOf;
    if MoveOf(db, step).Some? {
      var m := MoveOf(db, step).value;
      MovesAreLegal(db, step);
      MoveEffects(db, step);
      ClaimMove(db, step);
      RunningAfterUpdate(db.tasks, m.id, m.row, a);
    } else {
      QuietCounts(db, step, a);
    }
  }

  /** With a fixed limit, running tasks exceed it by at most the number of queued tasks that
      timed out on the way; cancellations never lift it. */
  lemma {:induction false} ConcurrencyLimitHolds(db: Db, steps: seq<Step>, a: AgentKey, low: nat, limit: nat)
    requires Sound(db) && a in db.agents && db.agents[a].maxConcurrent == limit
    requires 0 <= Drift(db, a) + low && RunningNow(db, a) <= limit + low
    requires forall s | s in steps :: !ChangesLimit(s, a)
    ensures RunningNow(Run(db, steps), a) <= limit + low + QueuedTimeouts(db, steps, a)
    decreases |steps|
  {
    hide Apply, QueuedTimeout, RunningCancel, RunningSet, MoveOf;
    if steps == [] {
    } else {
      var step := steps[0];
      var more := if QueuedTimeout(db, step, a) then 1 else 0;
      RowsStayPresent(db, step);
      DriftAfter(db, step, a);
      AgentsFixed(db, step, a);
      RunningGrowsByClaim(db, step, a);
      if step.ClaimTask? && step.agent == a && MoveOf(db, step).Some? {
        ClaimUnderLimit(db, step);
      }
      ConcurrencyLimitHolds(Apply(db, step), steps[1..], a, low + more, limit);
    }
  }

  /** A claim granted to the agent while as many of its tasks run as its limit allows, because the
      cached count is below the truth. */
  ghost predicate ClaimAtLimit(db: Db, step: Step, a: AgentKey, limit: nat)
  {
    step.ClaimTask? && step.agent == a && MoveOf(db, step).Some? && RunningNow(db, a) == limit && Drift(db, a) < 0
  }

  /** With a fixed limit, a step pushes the running tasks over it if and only if it is such a claim; a
      claim granted at the limit always is. */
  lemma StepKeepsLimitIff(db: Db, step: Step, a: AgentKey, limit: nat)
    requires Sound(db) && a in db.agents && db.agents[a].maxConcurrent == limit
    requires RunningNow(db, a) <= limit && !ChangesLimit(step, a)
    ensures RunningNow(Apply(db, step), a) <= limit <==> !ClaimAtLimit(db, step, a, limit)
    ensures RunningNow(Apply(db, step), a) > limit
       <==> step.ClaimTask? && step.agent == a && MoveOf(db, step).Some? && RunningNow(db, a) == limit
  {
    hide Apply, MoveOf, RunningSet;
    RunningGrowsByClaim(db, step, a);
    if step.ClaimTask? && step.agent == a && MoveOf(db, step).Some? {
      ClaimUnderLimit(db, step);
      ClaimAddsRunning(db, step);
    }
  }

  lemma ClaimAddsRunning(db: Db, step: Step)
    requires LeasesAgree(db) && step.ClaimTask? && MoveOf(db, step).Some?
    ensures RunningNow(Apply(db, step), step.agent) == RunningNow(db, step.agent) + 1
  {
    hide Apply, MoveOf;
    var m := MoveOf(db, step).value;
    MovesAreLegal(db, step);
    MoveEffects(db, step);
    ClaimMove(db, step);
    RunningAfterUpdate(db.tasks, m.id, m.row, step.agent);
  }

  /** The agent stays within `limit` in every state of the run. */
  ghost predicate StaysWithin(db: Db, steps: seq<Step>, a: AgentKey, limit: nat)
    decreases |steps|
  {
    RunningNow(db, a) <= limit && (steps == [] || StaysWithin(Apply(db, steps[0]), steps[1..], a, limit))
  }

  /** Somewhere in the run a claim is granted at the limit. */
  ghost predicate ClaimsAtLimit(db: Db, steps: seq<Step>, a: AgentKey, limit: nat)
    decreases |steps|
  {
    steps != [] &&
    (ClaimAtLimit(db, steps[0], a, limit) || ClaimsAtLimit(Apply(db, steps[0]), steps[1..], a, limit))
  }

  /** Over whole runs with a fixed limit: the running tasks exceed it at some point if and only if
      some claim is granted at the limit with the cached count below the truth. */
  lemma {:induction false} RunStaysWithinLimitIff(db: Db, steps: seq<Step>, a: AgentKey, limit: nat)
    requires Sound(db) && a in db.agents && db.agents[a].maxConcurrent == limit
    requires RunningNow(db, a) <= limit && forall s | s in steps :: !ChangesLimit(s, a)
    ensures StaysWithin(db, steps, a, limit) <==> !ClaimsAtLimit(db, steps, a, limit)
    decreases |steps|
  {
    hide Apply, ClaimAtLimit, RunningSet;
    if steps == [] {
    } else {
      StepKeepsLimitIff(db, steps[0], a, limit);
      RowsStayPresent(db, steps[0]);
      AgentsFixed(db, steps[0], a);
      if RunningNow(Apply(db, steps[0]), a) <= limit {
        RunStaysWithinLimitIff(Apply(db, steps[0]), steps[1..], a, limit);
      } else {
        OverLimit(Apply(db, steps[0]), steps[1..], a, limit);
      }
    }
  }

  lemma OverLimit(db: Db, steps: seq<Step>, a: AgentKey, limit: nat)
    requires RunningNow(db, a) > limit
    ensures !StaysWithin(db, steps, a, limit)
  {
  }

  /** The cached count is not below the truth in any state of the run. */
  ghost predicate NeverLow(db: Db, steps: seq<Step>, a: AgentKey)
    decreases |steps|
  {
    Drift(db, a) >= 0 && (steps == [] || NeverLow(Apply(db, steps[0]), steps[1..], a))
  }

  /** As long as the count is never below the truth the limit holds, however often it is above. */
  lemma {:induction false} LimitHoldsWhileCountNotLow(db: Db, steps: seq<Step>, a: AgentKey, limit: nat)
    requires Sound(db) && a in db.agents && db.agents[a].maxConcurrent == limit
    requires RunningNow(db, a) <= limit && NeverLow(db, steps, a)
    requires forall s | s in steps :: !ChangesLimit(s, a)
    ensures StaysWithin(db, steps, a, limit)
    decreases |steps|
  {
    hide Apply, RunningSet, Drift;
    if steps == [] {
    } else {
      StepKeepsLimitIff(db, steps[0], a, limit);
      RowsStayPresent(db, steps[0]);
      AgentsFixed(db, steps[0], a);
      LimitHoldsWhileCountNotLow(Apply(db, steps[0]), steps[1..], a, limit);
    }
  }

  /** From a count that is not below the truth, no run without a queued timeout of the agent ever
      has it below the truth, and so none ever exceeds the limit. */
  lemma LimitHoldsWithoutQueuedTimeouts(db: Db, steps: seq<Step>, a: AgentKey, limit: nat)
    requires Sound(db) && a in db.agents && db.agents[a].maxConcurrent == limit
    requires RunningNow(db, a) <= limit && Drift(db, a) >= 0
    requires forall s | s in steps :: !ChangesLimit(s, a)
    requires QueuedTimeouts(db, steps, a) == 0
    ensures StaysWithin(db, steps, a, limit)
  {
    hide Sound, StaysWithin, NeverLow, QueuedTimeouts;
    OnlyQueuedTimeoutsLower(db, steps, a);
    LimitHoldsWhileCountNotLow(db, steps, a, limit);
  }

  lemma {:induction false} OnlyQueuedTimeoutsLower(db: Db, steps: seq<Step>, a: AgentKey)
    requires Sound(db) && Drift(db, a) >= 0 && QueuedTimeouts(db, steps, a) == 0
    ensures NeverLow(db, steps, a)
    decreases |steps|
  {
    hide Apply, QueuedTimeout, RunningCancel, RunningSet;
    if steps == [] {
    } else {
      RowsStayPresent(db, steps[0]);
      DriftAfter(db, steps[0], a);
      OnlyQueuedTimeoutsLower(Apply(db, steps[0]), steps[1..], a);
    }
  }
}
