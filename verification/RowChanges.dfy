/** Who may change a task row in each status, and what the transactions write, over whole runs. */
module RowChanges {
  import opened Tables
  import opened Ledger
  import opened Lifecycle
  import opened Invariants

  /** The steps that may change the row of the task as it stands. */
  predicate MayChange(t: Task, step: Step, id: TaskId)
  {
    match t.status
    case Queued => (step.ClaimTask? && step.id == id) || step == TimeOut(id) || step == Cancel(id)
    case Running => ByOwner(t, step, id) || step in {Requeue(id), Expire(id), TimeOut(id), Cancel(id)}
    case Completed => step == FollowUp(id)
    case DeadLetter => step == Redrive(id)
    case WaitingForApproval => (step.Approve? && step.id == id) || step in {Cancel(id), HumanTimeOut(id)}
    case WaitingForInput => step in {Respond(id), Cancel(id), HumanTimeOut(id)}
    case Paused => step in {Resume(id), Cancel(id)} || (t.pauseReason == Some(BudgetPerHour) && step == Recover(id))
  }

  predicate ByOwner(t: Task, step: Step, id: TaskId)
  {
    match step
    case Heartbeat(w, i, lease) => i == id && t.owner == Some(w)
    case Complete(w, i, note) => i == id && t.owner == Some(w)
    case Retry(w, i, claim) => i == id && t.owner == Some(w)
    case Abandon(w, i, reason, note) => i == id && t.owner == Some(w)
    case BudgetPause(w, i, limit, resumeAt) => i == id && t.owner == Some(w)
    case Interrupt(w, i, approval) => i == id && t.owner == Some(w)
    case _ => false
  }

  lemma ExecutorChanges(db: Db, step: Step, id: TaskId)
    requires LeasesAgree(db) && id in db.tasks
    ensures ExecutorMove(db, step).Some? && ExecutorMove(db, step).value.id == id ==> MayChange(db.tasks[id], step, id)
  {
    hide NoteFits, DeadLettered, RetryScheduled;
  }

  lemma ReaperChanges(db: Db, step: Step, id: TaskId)
    requires id in db.tasks
    ensures ReaperMove(db, step).Some? && ReaperMove(db, step).value.id == id ==> MayChange(db.tasks[id], step, id)
  {
    hide MayRecover, Requeued, DeadLettered;
  }

  lemma ApiChanges(db: Db, step: Step, id: TaskId)
    requires id in db.tasks
    ensures ApiMove(db, step).Some? && ApiMove(db, step).value.id == id ==> MayChange(db.tasks[id], step, id)
  {
    hide TaskSum;
  }

  lemma PollerChanges(db: Db, step: Step, id: TaskId)
    requires id in db.tasks
    ensures PollerMove(db, step).Some? && PollerMove(db, step).value.id == id ==> MayChange(db.tasks[id], step, id)
  {
    hide Eligible;
  }

  /** No other step changes the row. */
  lemma OnlyTheseChange(db: Db, step: Step, id: TaskId)
    requires LeasesAgree(db) && id in db.tasks && !MayChange(db.tasks[id], step, id)
    ensures id in Apply(db, step).tasks && Apply(db, step).tasks[id] == db.tasks[id]
  {
    hide Apply, PollerMove, ExecutorMove, ReaperMove, ApiMove;
    ExecutorChanges(db, step, id);
    ReaperChanges(db, step, id);
    ApiChanges(db, step, id);
    PollerChanges(db, step, id);
    if MoveOf(db, step).Some? {
      MoveEffects(db, step);
    } else {
      QuietEffects(db, step);
    }
  }

  /** Over whole runs: a row stays as it is as long as none of the steps comes that may change it. */
  lemma {:induction false} RowStays(db: Db, steps: seq<Step>, id: TaskId)
    requires LeasesAgree(db) && id in db.tasks
    requires forall s | s in steps :: !MayChange(db.tasks[id], s, id)
    ensures LeasesAgree(Run(db, steps)) && id in Run(db, steps).tasks && Run(db, steps).tasks[id] == db.tasks[id]
    decreases |steps|
  {
    hide Apply, LeasesAgree, MayChange;
    if steps == [] {
    } else {
      OnlyTheseChange(db, steps[0], id);
      LeasesStayAgreed(db, steps[0]);
      RowStays(Apply(db, steps[0]), steps[1..], id);
    }
  }

  // ---- What the transactions write ---------------------------------------------------------------

  /** Released: no owner, no lease, one version on. */
  function Free(t: Task): Task
  {
    t.(owner := None, expiry := None, version := t.version + 1)
  }

  lemma CompleteWrites(db: Db, w: WorkerId, id: TaskId, note: MemoryNote)
    requires id in db.tasks && NoteFits(db, id, note)
    ensures var t := db.tasks[id]; var held := t.owner == Some(w) && t.status == Running;
      Apply(db, Complete(w, id, note)).tasks == if held then db.tasks[id := Free(t).(status := Completed)] else db.tasks
  {
    hide Apply, NoteFits, PollerMove, ReaperMove, ApiMove;
    Written(db, Complete(w, id, note));
  }

  lemma AbandonWrites(db: Db, w: WorkerId, id: TaskId, reason: DeadLetterReason, note: MemoryNote)
    requires id in db.tasks && NoteFits(db, id, note)
    ensures var t := db.tasks[id]; var held := t.owner == Some(w) && t.status == Running;
      Apply(db, Abandon(w, id, reason, note)).tasks ==
        if !held then db.tasks
        else db.tasks[id := Free(t).(status := DeadLetter, deadLetterReason := Some(reason), lastWorker := Some(w))]
  {
    hide Apply, NoteFits, PollerMove, ReaperMove, ApiMove;
    Written(db, Abandon(w, id, reason, note));
  }

  /** Seconds before retry n may start. */
  function RetrySeconds(n: nat): nat
  {
    if n <= 8 then [1, 2, 4, 8, 16, 32, 64, 128, 256][n] else 300
  }

  lemma {:induction false} PowersGrow(m: nat, n: nat)
    requires m <= n
    ensures Pow2(m) <= Pow2(n)
  {
    if m == n {
    } else {
      PowersGrow(m, n - 1);
    }
  }

  lemma RetryDelay(n: nat)
    ensures Min(300, Pow2(n)) == RetrySeconds(n)
  {
    assert Pow2(4) == 16 && Pow2(8) == 16 * Pow2(4);
    if n >= 9 {
      assert Pow2(9) == 512;
      PowersGrow(9, n);
    }
  }

  /** The requeue delay doubles with every retry: Pow2 is the power of two. */
  lemma {:induction false} PowersMultiply(m: nat, n: nat)
    ensures Pow2(m + n) == Pow2(m) * Pow2(n) && Pow2(1) == 2
  {
    if n == 0 {
    } else {
      PowersMultiply(m, n - 1);
    }
  }

  /** A retry goes by a claim of the same worker and task, whichever of them it was. */
  lemma RetryWrites(db: Db, w: WorkerId, id: TaskId, claim: nat)
    requires id in db.tasks
    ensures var t := db.tasks[id]; var held := t.owner == Some(w) && t.status == Running;
      Apply(db, Retry(w, id, claim)).tasks ==
        if !held || claim >= |db.claims| || db.claims[claim].worker != w || db.claims[claim].task != id then db.tasks
        else if db.claims[claim].retryCount >= db.claims[claim].maxRetries
        then db.tasks[id := Free(t).(status := DeadLetter, deadLetterReason := Some(RetriesExhausted),
                                     lastWorker := Some(w))]
        else var n := db.claims[claim].retryCount + 1;
             db.tasks[id := Free(t).(status := Queued, retryCount := n,
                                     retryAfter := Some(db.now + RetrySeconds(n) * 1_000_000),
                                     retryHistory := t.retryHistory + [db.now])]
  {
    hide Apply, PollerMove, ReaperMove, ApiMove, RetrySeconds, Pow2, Min;
    if claim < |db.claims| {
      RetryDelay(db.claims[claim].retryCount + 1);
    }
    Written(db, Retry(w, id, claim));
  }

  lemma PauseWrites(db: Db, w: WorkerId, id: TaskId, limit: PauseReason, resumeAt: Option<Time>)
    requires id in db.tasks
    ensures var t := db.tasks[id];
      Apply(db, BudgetPause(w, id, limit, resumeAt)).tasks ==
        if t.owner == Some(w)
        then db.tasks[id := Free(t).(status := Paused, pauseReason := Some(limit), resumeAt := resumeAt)]
        else db.tasks
  {
    hide Apply, PollerMove, ReaperMove, ApiMove;
    Written(db, BudgetPause(w, id, limit, resumeAt));
  }

  lemma InterruptWrites(db: Db, w: WorkerId, id: TaskId, approval: bool)
    requires id in db.tasks
    ensures var t := db.tasks[id];
      Apply(db, Interrupt(w, id, approval)).tasks ==
        if t.owner == Some(w)
        then db.tasks[id := Free(t).(status := if approval then WaitingForApproval else WaitingForInput,
                                     humanTimeoutAt := Some(db.now + 86_400_000_000))]
        else db.tasks
  {
    hide Apply, PollerMove, ReaperMove, ApiMove;
    Written(db, Interrupt(w, id, approval));
  }

  /** The tasks after a step are those of its move, and those before it when it makes none. */
  lemma Written(db: Db, step: Step)
    requires !step.Heartbeat?
    ensures var m := MoveOf(db, step);
      Apply(db, step).tasks == if m.Some? then db.tasks[m.value.id := m.value.row] else db.tasks
  {
    hide Apply, MoveOf;
    if MoveOf(db, step).Some? {
      MoveEffects(db, step);
    } else {
      QuietEffects(db, step);
    }
  }

  function After(tasks: map<TaskId, Task>, m: Option<Move>): map<TaskId, Task>
  {
    if m.Some? then tasks[m.value.id := m.value.row] else tasks
  }

  lemma WrittenByReaper(db: Db, step: Step)
    requires Actor(step) == Reaper
    ensures Apply(db, step).tasks == After(db.tasks, ReaperMove(db, step))
  {
    hide Apply, PollerMove, ExecutorMove, ReaperMove, ApiMove;
    Written(db, step);
  }

  lemma WrittenByApi(db: Db, step: Step)
    requires Actor(step) == Api
    ensures Apply(db, step).tasks == After(db.tasks, ApiMove(db, step))
  {
    hide Apply, PollerMove, ExecutorMove, ReaperMove, ApiMove;
    Written(db, step);
  }

  /** A lease that ran out is requeued while retries are left, with a delay that doubles each time, and
      dead-lettered otherwise. */
  lemma LeaseScansWrite(db: Db, id: TaskId)
    requires id in db.tasks
    ensures var t, now := db.tasks[id], db.now;
      var lost := t.status == Running && t.expiry.Some? && now > t.expiry.value;
      && Apply(db, Requeue(id)).tasks ==
           (if lost && t.retryCount < t.maxRetries
            then db.tasks[id := Free(t).(status := Queued, retryCount := t.retryCount + 1,
                                         retryAfter := Some(now + Pow2(t.retryCount) * 1_000_000),
                                         retryHistory := t.retryHistory + [now])]
            else db.tasks)
      && Apply(db, Expire(id)).tasks ==
           (if lost && t.retryCount >= t.maxRetries
            then db.tasks[id := Free(t).(status := DeadLetter, deadLetterReason := Some(RetriesExhausted),
                                         lastWorker := t.owner)]
            else db.tasks)
  {
    hide Apply, Pow2;
    WrittenByReaper(db, Requeue(id));
    WrittenByReaper(db, Expire(id));
  }

  /** A queued or running task ends when its time is up, a waiting one when nobody answered in time. */
  lemma DeadlineScansWrite(db: Db, id: TaskId)
    requires id in db.tasks
    ensures var t, now := db.tasks[id], db.now;
      var overdue := t.status in {Queued, Running} && now > t.timeoutFrom + t.timeoutSeconds * 1_000_000;
      var unanswered := t.status in {WaitingForApproval, WaitingForInput}
                        && t.humanTimeoutAt.Some? && now > t.humanTimeoutAt.value;
      && Apply(db, TimeOut(id)).tasks ==
           (if overdue
            then db.tasks[id := Free(t).(status := DeadLetter, deadLetterReason := Some(TaskTimeout),
                                         lastWorker := t.owner)]
            else db.tasks)
      && Apply(db, HumanTimeOut(id)).tasks ==
           (if unanswered
            then db.tasks[id := t.(status := DeadLetter, deadLetterReason := Some(HumanInputTimeout),
                                   humanTimeoutAt := None, version := t.version + 1)]
            else db.tasks)
  {
    hide Apply;
    WrittenByReaper(db, TimeOut(id));
    WrittenByReaper(db, HumanTimeOut(id));
  }

  /** A paused task goes back to the queue by a person when its spend is within the task budget, and
      by itself when it was paused for the hour and the agent's window and slots allow. */
  lemma ResumesWrite(db: Db, id: TaskId)
    requires id in db.tasks
    ensures var t := db.tasks[id]; var a := t.agent;
      var row := t.(status := Queued, pauseReason := None, resumeAt := None, version := t.version + 1);
      var configured := a in db.agents && db.agents[a].active;
      && Apply(db, Resume(id)).tasks ==
           (if t.status == Paused && configured && TaskSum(db.ledger, id) <= db.agents[a].budgetPerTask
            then db.tasks[id := row] else db.tasks)
      && Apply(db, Recover(id)).tasks ==
           (if t.status == Paused && t.pauseReason == Some(BudgetPerHour) && configured
               && WindowSum(db.ledger, a, db.now) < db.agents[a].budgetPerHour
               && CountOf(db.runtime, a) < db.agents[a].maxConcurrent
            then db.tasks[id := row] else db.tasks)
  {
    hide Apply, WindowSum, TaskSum;
    WrittenByApi(db, Resume(id));
    WrittenByReaper(db, Recover(id));
  }

  /** An approval answers only an approval request and a response only a request for input; both
      restart the time of the task. */
  lemma AnswersWrite(db: Db, id: TaskId, approved: bool)
    requires id in db.tasks
    ensures var t := db.tasks[id];
      var queued := Free(t).(status := Queued, timeoutFrom := db.now, humanTimeoutAt := None);
      && Apply(db, Approve(id, approved)).tasks ==
           (if t.status == WaitingForApproval then db.tasks[id := queued] else db.tasks)
      && Apply(db, Respond(id)).tasks == (if t.status == WaitingForInput then db.tasks[id := queued] else db.tasks)
  {
    hide Apply;
    WrittenByApi(db, Approve(id, approved));
    WrittenByApi(db, Respond(id));
  }

  /** A follow-up reopens only a completed task and a redrive only a dead letter, and both restart its
      time; a cancellation ends anything that has not ended. */
  lemma ReopeningsWrite(db: Db, id: TaskId)
    requires id in db.tasks
    ensures var t := db.tasks[id];
      var queued := Free(t).(status := Queued, timeoutFrom := db.now);
      && Apply(db, FollowUp(id)).tasks == (if t.status == Completed then db.tasks[id := queued] else db.tasks)
      && Apply(db, Redrive(id)).tasks ==
           (if t.status == DeadLetter
            then db.tasks[id := queued.(retryCount := 0, retryAfter := None, lastWorker := None,
                                        deadLetterReason := None)]
            else db.tasks)
      && Apply(db, Cancel(id)).tasks ==
           (if t.status in {Completed, DeadLetter} then db.tasks
            else db.tasks[id := Free(t).(status := DeadLetter, deadLetterReason := Some(CancelledByUser),
                                         lastWorker := t.owner, humanTimeoutAt := None)])
  {
    hide Apply;
    WrittenByApi(db, FollowUp(id));
    WrittenByApi(db, Redrive(id));
    WrittenByApi(db, Cancel(id));
  }

  /** A submission needs a free id and an active agent. */
  lemma SubmitWrites(db: Db, id: TaskId, a: AgentKey, pool: PoolId, maxRetries: nat, seconds: nat)
    ensures var after := Apply(db, Submit(id, a, pool, maxRetries, seconds)).tasks;
      if id !in db.tasks && a in db.agents && db.agents[a].active
      then && id in after && after == db.tasks[id := after[id]]
           && var t := after[id];
              && t.agent == a && t.pool == pool && t.status == Queued && t.version == 1
              && t.maxRetries == maxRetries && t.retryCount == 0 && t.retryHistory == []
              && t.createdAt == db.now && t.timeoutFrom == db.now && t.timeoutSeconds == seconds
              && t.owner.None? && t.expiry.None? && t.retryAfter.None? && t.humanTimeoutAt.None?
              && t.pauseReason.None? && t.resumeAt.None? && t.deadLetterReason.None? && t.lastWorker.None?
      else after == db.tasks
  {
    hide Apply;
    WrittenByApi(db, Submit(id, a, pool, maxRetries, seconds));
  }
}
