/** Retry delays and human-input deadlines over whole runs. */
module Deadlines {
  import opened Tables
  import opened Ledger
  import opened Lifecycle
  import opened Invariants
  import H = HourlyBudget

  /** Off the workers' hands with a retry delay until `until`. */
  predicate Delayed(db: Db, id: TaskId, until: Time)
  {
    id in db.tasks && db.tasks[id].status != Running && db.tasks[id].retryAfter == Some(until)
  }

  lemma IdleExecutor(db: Db, step: Step, id: TaskId)
    requires LeasesAgree(db) && id in db.tasks && db.tasks[id].status != Running
    ensures ExecutorMove(db, step).Some? ==> ExecutorMove(db, step).value.id != id
  {
    hide RetryScheduled, DeadLettered, WindowSum, WindowStart, NoteFits;
  }

  lemma DelayedReaper(db: Db, step: Step, id: TaskId, until: Time)
    requires Delayed(db, id, until)
    ensures ReaperMove(db, step).Some? && ReaperMove(db, step).value.id == id ==>
              ReaperMove(db, step).value.row.retryAfter == Some(until)
  {
    hide MayRecover;
  }

  lemma DelayedApi(db: Db, step: Step, id: TaskId, until: Time)
    requires Delayed(db, id, until) && step != Redrive(id)
    ensures ApiMove(db, step).Some? && ApiMove(db, step).value.id == id ==>
              ApiMove(db, step).value.row.retryAfter == Some(until)
  {
  }

  lemma DelayedPoller(db: Db, step: Step, id: TaskId, until: Time)
    requires Delayed(db, id, until) && db.now <= until
    ensures PollerMove(db, step).Some? ==> PollerMove(db, step).value.id != id
  {
    hide Eligible;
  }

  lemma DelayStep(db: Db, step: Step, id: TaskId, until: Time)
    requires LeasesAgree(db) && Delayed(db, id, until) && db.now <= until && step != Redrive(id)
    ensures Delayed(Apply(db, step), id, until)
  {
    hide Apply, MoveOf, PollerMove, ExecutorMove, ReaperMove, ApiMove;
    if MoveOf(db, step).Some? {
      MovesAreLegal(db, step);
      MoveEffects(db, step);
      if MoveOf(db, step).value.id == id {
        DelayedMove(db, step, id, until);
      }
    } else {
      QuietEffects(db, step);
    }
  }

  lemma DelayedMove(db: Db, step: Step, id: TaskId, until: Time)
    requires LeasesAgree(db) && Delayed(db, id, until) && db.now <= until && step != Redrive(id)
    requires MoveOf(db, step).Some? && MoveOf(db, step).value.id == id
    ensures MoveOf(db, step).value.kind != TaskClaimed
    ensures MoveOf(db, step).value.row.retryAfter == Some(until)
  {
    hide PollerMove, ExecutorMove, ReaperMove, ApiMove, Delayed;
    OnlyClaimsClaim(db, step);
    DelayedPoller(db, step, id, until);
    DelayedReaper(db, step, id, until);
    DelayedApi(db, step, id, until);
    NotRunning(db, id, until);
    IdleExecutor(db, step, id);
  }

  lemma NotRunning(db: Db, id: TaskId, until: Time)
    requires Delayed(db, id, until)
    ensures id in db.tasks && db.tasks[id].status != Running
  {
  }

  /** Nobody claims a task before its retry delay has passed, whatever else happens to it. */
  lemma {:induction false} DelayHolds(db: Db, steps: seq<Step>, id: TaskId, until: Time)
    requires LeasesAgree(db) && Delayed(db, id, until)
    requires Run(db, steps).now <= until && Redrive(id) !in steps
    ensures Delayed(Run(db, steps), id, until)
    decreases |steps|
  {
    hide Apply, LeasesAgree, Delayed;
    if steps == [] {
    } else {
      H.WindowSurvivesRun(db, steps, AgentKey(0, 0), until);
      DelayStep(db, steps[0], id, until);
      LeasesStayAgreed(db, steps[0]);
      DelayHolds(Apply(db, steps[0]), steps[1..], id, until);
    }
  }

  /** After the reaper requeued a task for the n-th time, it is not running again before 2^(n-1)
      seconds have passed. */
  lemma RequeuedTaskWaits(db: Db, id: TaskId, steps: seq<Step>)
    requires LeasesAgree(db) && MoveOf(db, Requeue(id)).Some? && Redrive(id) !in steps
    ensures var end := Run(Apply(db, Requeue(id)), steps);
      var until := db.now + Pow2(db.tasks[id].retryCount) * SECOND;
      end.now <= until ==> id in end.tasks && end.tasks[id].status != Running
  {
    hide Apply, LeasesAgree, Run;
    var until := db.now + Pow2(db.tasks[id].retryCount) * SECOND;
    MoveEffects(db, Requeue(id));
    LeasesStayAgreed(db, Requeue(id));
    if Run(Apply(db, Requeue(id)), steps).now <= until {
      DelayHolds(Apply(db, Requeue(id)), steps, id, until);
    }
  }

  /** After a worker scheduled retry n of a task, it is not running again before the smaller of
      2^n and 300 seconds have passed. */
  lemma RetriedTaskWaits(db: Db, w: WorkerId, id: TaskId, claim: nat, steps: seq<Step>)
    requires LeasesAgree(db) && MoveOf(db, Retry(w, id, claim)).Some? && Redrive(id) !in steps
    requires db.claims[claim].retryCount < db.claims[claim].maxRetries
    ensures var end := Run(Apply(db, Retry(w, id, claim)), steps);
      var until := db.now + Min(300, Pow2(db.claims[claim].retryCount + 1)) * SECOND;
      end.now <= until ==> id in end.tasks && end.tasks[id].status != Running
  {
    hide Apply, LeasesAgree, Run;
    var until := db.now + Min(300, Pow2(db.claims[claim].retryCount + 1)) * SECOND;
    MoveEffects(db, Retry(w, id, claim));
    LeasesStayAgreed(db, Retry(w, id, claim));
    if Run(Apply(db, Retry(w, id, claim)), steps).now <= until {
      DelayHolds(Apply(db, Retry(w, id, claim)), steps, id, until);
    }
  }

  // ---- Human input ---------------------------------------------------------------------------------

  predicate AwaitsHuman(db: Db, id: TaskId, until: Time)
  {
    id in db.tasks && db.tasks[id].status in {WaitingForApproval, WaitingForInput}
    && db.tasks[id].humanTimeoutAt == Some(until)
  }

  /** A person acts on the task. */
  predicate HumanActs(step: Step, id: TaskId)
  {
    match step
    case Approve(i, approved) => i == id
    case Respond(i) => i == id
    case Cancel(i) => i == id
    case _ => false
  }

  lemma AwaitingReaper(db: Db, step: Step, id: TaskId, until: Time)
    requires AwaitsHuman(db, id, until) && db.now <= until
    ensures ReaperMove(db, step).Some? ==> ReaperMove(db, step).value.id != id
  {
    hide MayRecover;
  }

  lemma AwaitingApi(db: Db, step: Step, id: TaskId, until: Time)
    requires AwaitsHuman(db, id, until) && !HumanActs(step, id)
    ensures ApiMove(db, step).Some? ==> ApiMove(db, step).value.id != id
  {
  }

  lemma AwaitingPoller(db: Db, step: Step, id: TaskId, until: Time)
    requires AwaitsHuman(db, id, until)
    ensures id in db.tasks && db.tasks[id].status != Running
    ensures PollerMove(db, step).Some? ==> PollerMove(db, step).value.id != id
  {
    hide Eligible;
  }

  lemma AwaitingStep(db: Db, step: Step, id: TaskId, until: Time)
    requires LeasesAgree(db) && AwaitsHuman(db, id, until) && db.now <= until && !HumanActs(step, id)
    ensures AwaitsHuman(Apply(db, step), id, until)
  {
    hide Apply, PollerMove, ExecutorMove, ReaperMove, ApiMove, HumanActs;
    AwaitingPoller(db, step, id, until);
    AwaitingReaper(db, step, id, until);
    AwaitingApi(db, step, id, until);
    IdleExecutor(db, step, id);
    if MoveOf(db, step).Some? {
      MoveEffects(db, step);
    } else {
      QuietEffects(db, step);
    }
  }

  /** Nothing but a person takes a task out of its human wait before the deadline. */
  lemma {:induction false} HumanWaitHolds(db: Db, steps: seq<Step>, id: TaskId, until: Time)
    requires LeasesAgree(db) && AwaitsHuman(db, id, until)
    requires Run(db, steps).now <= until && forall s | s in steps :: !HumanActs(s, id)
    ensures AwaitsHuman(Run(db, steps), id, until)
    decreases |steps|
  {
    hide Apply, LeasesAgree, AwaitsHuman, HumanActs;
    if steps == [] {
    } else {
      H.WindowSurvivesRun(db, steps, AgentKey(0, 0), until);
      AwaitingStep(db, steps[0], id, until);
      LeasesStayAgreed(db, steps[0]);
      HumanWaitHolds(Apply(db, steps[0]), steps[1..], id, until);
    }
  }

  /** An interrupted task waits for a person for 24 hours, and the human-input scan takes it exactly
      when that time has passed. */
  lemma HumanHasADay(db: Db, w: WorkerId, id: TaskId, approval: bool, steps: seq<Step>)
    requires LeasesAgree(db) && Owns(db, w, id) && forall s | s in steps :: !HumanActs(s, id)
    ensures var end := Run(Apply(db, Interrupt(w, id, approval)), steps);
      end.now <= db.now + 24 * HOUR ==> AwaitsHuman(end, id, db.now + 24 * HOUR) && Apply(end, HumanTimeOut(id)) == end
  {
    hide Apply, LeasesAgree, Run, HumanActs;
    var step, until := Interrupt(w, id, approval), db.now + 24 * HOUR;
    MoveEffects(db, step);
    LeasesStayAgreed(db, step);
    var end := Run(Apply(db, step), steps);
    if end.now <= until {
      HumanWaitHolds(Apply(db, step), steps, id, until);
      HumanScanVerdict(end, id, until);
    }
  }

  lemma HumanScanVerdict(db: Db, id: TaskId, until: Time)
    requires AwaitsHuman(db, id, until)
    ensures db.now <= until ==> Apply(db, HumanTimeOut(id)) == db
    ensures db.now > until ==> Apply(db, HumanTimeOut(id)).tasks == db.tasks[id := HumanTimedOut(db.tasks[id])]
  {
    hide PollerMove, ExecutorMove, ApiMove, HumanTimedOut;
  }

  /** Waiting with its deadline, or already timed out. */
  predicate WaitsOrTimedOut(db: Db, id: TaskId, until: Time)
  {
    AwaitsHuman(db, id, until)
    || (id in db.tasks && db.tasks[id].status == DeadLetter && db.tasks[id].deadLetterReason == Some(HumanInputTimeout)
        && until < db.now)
  }

  lemma TimedOutStep(db: Db, step: Step, id: TaskId, until: Time)
    requires LeasesAgree(db) && WaitsOrTimedOut(db, id, until) && !AwaitsHuman(db, id, until)
    requires !HumanActs(step, id) && step != Redrive(id)
    ensures WaitsOrTimedOut(Apply(db, step), id, until)
  {
    hide Apply, MoveOf, HumanActs;
    H.ClockNeverTurnsBack(db, step);
    if MoveOf(db, step).Some? {
      MoveEffects(db, step);
      DeadStays(db, step, id);
    } else {
      QuietEffects(db, step);
    }
  }

  lemma DeadStays(db: Db, step: Step, id: TaskId)
    requires LeasesAgree(db) && id in db.tasks && db.tasks[id].status == DeadLetter && step != Redrive(id)
    requires MoveOf(db, step).Some?
    ensures MoveOf(db, step).value.id != id
  {
    hide ExecutorMove, WindowSum, TaskSum, Eligible;
    IdleExecutor(db, step, id);
  }

  /** A human-input scan after the deadline takes the task; nothing else does. */
  lemma LateStep(db: Db, step: Step, id: TaskId, until: Time)
    requires LeasesAgree(db) && AwaitsHuman(db, id, until) && until < db.now && !HumanActs(step, id)
    ensures WaitsOrTimedOut(Apply(db, step), id, until)
  {
    hide Apply, PollerMove, ExecutorMove, ReaperMove, ApiMove, HumanActs;
    H.ClockNeverTurnsBack(db, step);
    AwaitingPoller(db, step, id, until);
    LateReaper(db, step, id, until);
    AwaitingApi(db, step, id, until);
    IdleExecutor(db, step, id);
    if MoveOf(db, step).Some? {
      MoveEffects(db, step);
    } else {
      QuietEffects(db, step);
    }
  }

  lemma LateReaper(db: Db, step: Step, id: TaskId, until: Time)
    requires AwaitsHuman(db, id, until)
    ensures ReaperMove(db, step).Some? && ReaperMove(db, step).value.id == id ==>
              ReaperMove(db, step).value.row == HumanTimedOut(db.tasks[id])
  {
    hide MayRecover;
  }

  lemma {:induction false} WaitEndsByTimeout(db: Db, steps: seq<Step>, id: TaskId, until: Time)
    requires LeasesAgree(db) && WaitsOrTimedOut(db, id, until)
    requires Redrive(id) !in steps && forall s | s in steps :: !HumanActs(s, id)
    ensures WaitsOrTimedOut(Run(db, steps), id, until)
    decreases |steps|
  {
    hide Apply, LeasesAgree, AwaitsHuman, HumanActs, WaitsOrTimedOut;
    if steps == [] {
    } else {
      LeasesStayAgreed(db, steps[0]);
      OneWaitStep(db, steps[0], id, until);
      WaitEndsByTimeout(Apply(db, steps[0]), steps[1..], id, until);
    }
  }

  lemma OneWaitStep(db: Db, step: Step, id: TaskId, until: Time)
    requires LeasesAgree(db) && WaitsOrTimedOut(db, id, until)
    requires !HumanActs(step, id) && step != Redrive(id)
    ensures WaitsOrTimedOut(Apply(db, step), id, until)
  {
    hide Apply, LeasesAgree, AwaitsHuman, HumanActs;
    if !AwaitsHuman(db, id, until) {
      TimedOutStep(db, step, id, until);
    } else if db.now <= until {
      AwaitingStep(db, step, id, until);
    } else {
      LateStep(db, step, id, until);
    }
  }

  /** Over every run in which no person acts on an interrupted task and nobody redrives it: at its end
      a human-input scan leaves the task dead-lettered for the timeout if and only if more than 24
      hours have passed since the interrupt, and otherwise leaves it waiting. */
  lemma HumanWaitVerdict(db: Db, w: WorkerId, id: TaskId, approval: bool, steps: seq<Step>)
    requires LeasesAgree(db) && Owns(db, w, id)
    requires Redrive(id) !in steps && forall s | s in steps :: !HumanActs(s, id)
    ensures var end := Run(Apply(db, Interrupt(w, id, approval)), steps);
      var scanned := Apply(end, HumanTimeOut(id)).tasks;
      && id in scanned
      && (scanned[id].status == DeadLetter <==> end.now > db.now + 24 * HOUR)
      && (scanned[id].status == DeadLetter ==> scanned[id].deadLetterReason == Some(HumanInputTimeout))
      && (scanned[id].status != DeadLetter ==> AwaitsHuman(end, id, db.now + 24 * HOUR))
  {
    hide Apply, LeasesAgree, Run, HumanActs;
    var step, until := Interrupt(w, id, approval), db.now + 24 * HOUR;
    MoveEffects(db, step);
    LeasesStayAgreed(db, step);
    WaitEndsByTimeout(Apply(db, step), steps, id, until);
    var end := Run(Apply(db, step), steps);
    if AwaitsHuman(end, id, until) {
      HumanScanVerdict(end, id, until);
    } else {
      DeadScan(end, id);
    }
  }

  lemma DeadScan(db: Db, id: TaskId)
    requires id in db.tasks && db.tasks[id].status == DeadLetter
    ensures Apply(db, HumanTimeOut(id)) == db
  {
    hide PollerMove, ExecutorMove, ApiMove;
  }
}
