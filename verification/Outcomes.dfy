/** What the end of an execution leads to, over whole runs: how long a retry waits, what ends a
    pause or a wait, when a task runs out of time, and that ended tasks stay as they are. */
module Outcomes {
  import opened Tables
  import opened Ledger
  import opened Lifecycle
  import opened Invariants
  import opened RowChanges
  import A = Admission

  // ---- Ended tasks -------------------------------------------------------------------------------

  /** A completed task is left alone by everything but a follow-up. */
  lemma CompletedTaskStays(db: Db, w: WorkerId, id: TaskId, note: MemoryNote, steps: seq<Step>)
    requires LeasesAgree(db) && Owns(db, w, id) && NoteFits(db, id, note) && FollowUp(id) !in steps
    ensures var end := Run(Apply(db, Complete(w, id, note)), steps).tasks;
      id in end && end[id] == db.tasks[id].(status := Completed, owner := None, expiry := None,
                                            version := db.tasks[id].version + 1)
  {
    hide Apply, Run, NoteFits;
    CompleteWrites(db, w, id, note);
    LeasesStayAgreed(db, Complete(w, id, note));
    RowStays(Apply(db, Complete(w, id, note)), steps, id);
  }

  /** A task that a worker gave up keeps its reason and its last worker until it is redriven. */
  lemma AbandonedTaskStays(
    db: Db, w: WorkerId, id: TaskId, reason: DeadLetterReason, note: MemoryNote, steps: seq<Step>)
    requires LeasesAgree(db) && Owns(db, w, id) && NoteFits(db, id, note) && Redrive(id) !in steps
    ensures var end := Run(Apply(db, Abandon(w, id, reason, note)), steps).tasks;
      id in end && end[id] == db.tasks[id].(status := DeadLetter, deadLetterReason := Some(reason),
                                            lastWorker := Some(w), owner := None, expiry := None,
                                            version := db.tasks[id].version + 1)
  {
    hide Apply, Run, NoteFits;
    AbandonWrites(db, w, id, reason, note);
    LeasesStayAgreed(db, Abandon(w, id, reason, note));
    RowStays(Apply(db, Abandon(w, id, reason, note)), steps, id);
  }

  // ---- Budget pauses -----------------------------------------------------------------------------

  /** A task paused for its own budget stays paused for that reason whatever the reaper does; only a
      person ends it, by cancelling it, or by resuming it once its spend is within the budget of its
      active agent. */
  lemma TaskBudgetPauseHolds(db: Db, w: WorkerId, id: TaskId, steps: seq<Step>)
    requires LeasesAgree(db) && Owns(db, w, id) && Resume(id) !in steps && Cancel(id) !in steps
    ensures var end := Run(Apply(db, BudgetPause(w, id, BudgetPerTask, None)), steps);
      && id in end.tasks
      && end.tasks[id] == db.tasks[id].(status := Paused, pauseReason := Some(BudgetPerTask), resumeAt := None,
                                        owner := None, expiry := None, version := db.tasks[id].version + 1)
      && var a := db.tasks[id].agent; var resumed := Apply(end, Resume(id)).tasks;
         var within := a in end.agents && end.agents[a].active
                       && TaskSum(end.ledger, id) <= end.agents[a].budgetPerTask;
         id in resumed && (resumed[id].status == Queued <==> within)
  {
    hide Apply, Run, TaskSum;
    var pause := BudgetPause(w, id, BudgetPerTask, None);
    PauseWrites(db, w, id, BudgetPerTask, None);
    LeasesStayAgreed(db, pause);
    RowStays(Apply(db, pause), steps, id);
    ResumesWrite(Run(Apply(db, pause), steps), id);
  }

  /** A task paused for the hour keeps its reason and its resume time until it is resumed, recovered or
      cancelled; a recovery takes it exactly when its agent is active, spent less than its budget in
      the last hour, and has a free slot. */
  lemma HourlyPauseHolds(db: Db, w: WorkerId, id: TaskId, resumeAt: Option<Time>, steps: seq<Step>)
    requires LeasesAgree(db) && Owns(db, w, id)
    requires forall s | s in steps :: s !in {Resume(id), Cancel(id), Recover(id)}
    ensures var end := Run(Apply(db, BudgetPause(w, id, BudgetPerHour, resumeAt)), steps);
      && id in end.tasks
      && end.tasks[id] == db.tasks[id].(status := Paused, pauseReason := Some(BudgetPerHour), resumeAt := resumeAt,
                                        owner := None, expiry := None, version := db.tasks[id].version + 1)
      && var a := db.tasks[id].agent; var recovered := Apply(end, Recover(id)).tasks;
         var free := a in end.agents && end.agents[a].active
                     && WindowSum(end.ledger, a, end.now) < end.agents[a].budgetPerHour
                     && CountOf(end.runtime, a) < end.agents[a].maxConcurrent;
         id in recovered && (recovered[id].status == Queued <==> free)
  {
    hide Apply, Run, WindowSum;
    var pause := BudgetPause(w, id, BudgetPerHour, resumeAt);
    PauseWrites(db, w, id, BudgetPerHour, resumeAt);
    LeasesStayAgreed(db, pause);
    RowStays(Apply(db, pause), steps, id);
    ResumesWrite(Run(Apply(db, pause), steps), id);
  }

  // ---- Human waits -------------------------------------------------------------------------------

  /** An interrupt for approval is answered by an approval only, one for input by a response only: the
      other kind of answer, and everything else but a cancellation and the human timeout, leaves it. */
  lemma InterruptWaitsForItsAnswer(
    db: Db, w: WorkerId, id: TaskId, approval: bool, steps: seq<Step>, approved: bool)
    requires LeasesAgree(db) && Owns(db, w, id)
    requires forall s | s in steps :: s !in {Cancel(id), HumanTimeOut(id)}
               && (approval ==> !(s.Approve? && s.id == id)) && (!approval ==> s != Respond(id))
    ensures var end := Run(Apply(db, Interrupt(w, id, approval)), steps);
      && id in end.tasks
      && end.tasks[id] == db.tasks[id].(status := if approval then WaitingForApproval else WaitingForInput,
                                        humanTimeoutAt := Some(db.now + 86_400_000_000),
                                        owner := None, expiry := None, version := db.tasks[id].version + 1)
      && var after := Apply(end, if approval then Approve(id, approved) else Respond(id)).tasks;
         id in after && after[id].status == Queued && after[id].humanTimeoutAt.None? && after[id].timeoutFrom == end.now
  {
    hide Apply, Run;
    var step := Interrupt(w, id, approval);
    InterruptWrites(db, w, id, approval);
    LeasesStayAgreed(db, step);
    RowStays(Apply(db, step), steps, id);
    AnswersWrite(Run(Apply(db, step), steps), id, approved);
  }

  // ---- Retries -----------------------------------------------------------------------------------

  /** As long as nobody takes a retried task, a poll of its pool and tenant may start it if and only if
      its agent is open and more than the delay has passed: 2, 4, 8, ... 256 and then 300 seconds. */
  lemma RetriedTaskClaimableIff(
    db: Db, w: WorkerId, id: TaskId, claim: nat, steps: seq<Step>, pool: PoolId, tenant: nat)
    requires LeasesAgree(db) && Owns(db, w, id) && claim < |db.claims|
    requires var c := db.claims[claim]; c.worker == w && c.task == id && c.retryCount < c.maxRetries
    requires forall s | s in steps :: !(s.ClaimTask? && s.id == id) && s !in {TimeOut(id), Cancel(id)}
    ensures var end := Run(Apply(db, Retry(w, id, claim)), steps);
      var t, n := db.tasks[id], db.claims[claim].retryCount + 1;
      && id in end.tasks && end.tasks[id].status == Queued && end.tasks[id].retryCount == n
      && var due := end.now > db.now + RetrySeconds(n) * 1_000_000;
         A.Startable(end, pool, tenant, id) <==>
           pool == t.pool && tenant == t.agent.tenant && A.Open(end, t.agent) && due
  {
    hide Apply, Run, A.Open, RetrySeconds;
    var step := Retry(w, id, claim);
    RetryWrites(db, w, id, claim);
    LeasesStayAgreed(db, step);
    RowStays(Apply(db, step), steps, id);
  }

  /** The same for a task that the reaper requeued, with a delay of one second that doubles with every
      retry. */
  lemma RequeuedTaskClaimableIff(db: Db, id: TaskId, steps: seq<Step>, pool: PoolId, tenant: nat)
    requires LeasesAgree(db) && id in db.tasks && db.tasks[id].status == Running
    requires db.tasks[id].expiry.Some? && db.tasks[id].expiry.value < db.now
    requires db.tasks[id].retryCount < db.tasks[id].maxRetries
    requires forall s | s in steps :: !(s.ClaimTask? && s.id == id) && s !in {TimeOut(id), Cancel(id)}
    ensures var end := Run(Apply(db, Requeue(id)), steps);
      var t := db.tasks[id];
      && id in end.tasks && end.tasks[id].status == Queued && end.tasks[id].retryCount == t.retryCount + 1
      && var due := end.now > db.now + Pow2(t.retryCount) * 1_000_000;
         A.Startable(end, pool, tenant, id) <==>
           pool == t.pool && tenant == t.agent.tenant && A.Open(end, t.agent) && due
  {
    hide Apply, Run, A.Open, Pow2;
    LeaseScansWrite(db, id);
    LeasesStayAgreed(db, Requeue(id));
    RowStays(Apply(db, Requeue(id)), steps, id);
  }

  // ---- Task timeouts -----------------------------------------------------------------------------

  /** The steps that restart the time of a task. */
  predicate Restarts(step: Step, id: TaskId)
  {
    (step.Approve? && step.id == id) || step in {Respond(id), FollowUp(id), Redrive(id)}
  }

  predicate SameTime(t: Task, u: Task)
  {
    u.timeoutFrom == t.timeoutFrom && u.timeoutSeconds == t.timeoutSeconds
  }

  lemma WorkersKeepTime(db: Db, step: Step, id: TaskId)
    requires id in db.tasks
    ensures ExecutorMove(db, step).Some? && ExecutorMove(db, step).value.id == id ==>
              SameTime(db.tasks[id], ExecutorMove(db, step).value.row)
    ensures PollerMove(db, step).Some? && PollerMove(db, step).value.id == id ==>
              SameTime(db.tasks[id], PollerMove(db, step).value.row)
  {
    hide NoteFits, NextAgent, NextTask, EnsureRuntime, Pow2;
  }

  lemma OthersKeepTime(db: Db, step: Step, id: TaskId)
    requires id in db.tasks && !Restarts(step, id)
    ensures ReaperMove(db, step).Some? && ReaperMove(db, step).value.id == id ==>
              SameTime(db.tasks[id], ReaperMove(db, step).value.row)
    ensures ApiMove(db, step).Some? && ApiMove(db, step).value.id == id ==>
              SameTime(db.tasks[id], ApiMove(db, step).value.row)
  {
    hide MayRecover, LeaseExpired, Overdue, HumanOverdue, TaskSum, Pow2;
  }

  lemma StepKeepsTime(db: Db, step: Step, id: TaskId)
    requires id in db.tasks && !Restarts(step, id)
    ensures id in Apply(db, step).tasks && SameTime(db.tasks[id], Apply(db, step).tasks[id])
  {
    hide Apply, PollerMove, ExecutorMove, ReaperMove, ApiMove;
    WorkersKeepTime(db, step, id);
    OthersKeepTime(db, step, id);
    if MoveOf(db, step).Some? {
      MoveEffects(db, step);
    } else {
      QuietEffects(db, step);
    }
  }

  lemma {:induction false} TimeKept(db: Db, steps: seq<Step>, id: TaskId)
    requires id in db.tasks && forall s | s in steps :: !Restarts(s, id)
    ensures id in Run(db, steps).tasks && SameTime(db.tasks[id], Run(db, steps).tasks[id])
    decreases |steps|
  {
    hide Apply, Restarts;
    if steps == [] {
    } else {
      StepKeepsTime(db, steps[0], id);
      TimeKept(Apply(db, steps[0]), steps[1..], id);
    }
  }

  /** Over every run that does not restart the time of a task, a timeout scan at its end takes the task
      if and only if it is queued or running and more than its seconds have passed since its reference. */
  lemma TimeoutVerdict(db: Db, steps: seq<Step>, id: TaskId)
    requires id in db.tasks && forall s | s in steps :: !Restarts(s, id)
    ensures var end := Run(db, steps); var after := Apply(end, TimeOut(id)).tasks;
      && id in end.tasks
      && var t := end.tasks[id];
         after == if t.status in {Queued, Running}
                     && end.now > db.tasks[id].timeoutFrom + db.tasks[id].timeoutSeconds * 1_000_000
                  then end.tasks[id := t.(status := DeadLetter, deadLetterReason := Some(TaskTimeout),
                                          lastWorker := t.owner, owner := None, expiry := None,
                                          version := t.version + 1)]
                  else end.tasks
  {
    hide Apply, Run;
    TimeKept(db, steps, id);
    DeadlineScansWrite(Run(db, steps), id);
  }

  /** The reference is the time of the submission, or of the last step that restarted the task. */
  lemma ReferenceIsLastStart(db: Db, step: Step, id: TaskId)
    requires Restarts(step, id) && id in db.tasks && Apply(db, step).tasks != db.tasks
    ensures id in Apply(db, step).tasks && Apply(db, step).tasks[id].timeoutFrom == db.now
    ensures Apply(db, step).tasks[id].timeoutSeconds == db.tasks[id].timeoutSeconds
  {
    hide Apply;
    AnswersWrite(db, id, step.Approve? && step.approved);
    ReopeningsWrite(db, id);
  }

  /** A submitted task: its time runs from the submission. */
  lemma SubmittedTaskTimesOut(
    db: Db, id: TaskId, a: AgentKey, pool: PoolId, retries: nat, seconds: nat, steps: seq<Step>)
    requires id !in db.tasks && a in db.agents && db.agents[a].active
    requires forall s | s in steps :: !Restarts(s, id)
    ensures var end := Run(Apply(db, Submit(id, a, pool, retries, seconds)), steps);
      && id in end.tasks
      && var t, after := end.tasks[id], Apply(end, TimeOut(id)).tasks;
         after != end.tasks <==> t.status in {Queued, Running} && end.now > db.now + seconds * 1_000_000
  {
    hide Apply, Run;
    var first := Apply(db, Submit(id, a, pool, retries, seconds));
    SubmitWrites(db, id, a, pool, retries, seconds);
    TimeoutVerdict(first, steps, id);
    var end := Run(first, steps);
    assert id in end.tasks;
    ghost var t := end.tasks[id];
    assert t.version + 1 != t.version;
  }
}
