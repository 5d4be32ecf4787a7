/** Timed lease safety and recovery. */
module Leases {
  import opened Tables
  import opened Ledger
  import opened Lifecycle
  import opened Invariants

  function ClockAfter(now: Time, step: Step): Time
  {
    now + if step.Tick? then step.d else 0
  }

  predicate Beats(step: Step, w: WorkerId, id: TaskId)
  {
    step.Heartbeat? && step.worker == w && step.id == id
  }

  /** Read off the schedule alone: the clock never runs more than `lease` past the last beat. */
  predicate Punctual(now: Time, beat: Time, steps: seq<Step>, w: WorkerId, id: TaskId, lease: nat)
    decreases |steps|
  {
    now <= beat + lease &&
    (steps != [] ==>
       Punctual(ClockAfter(now, steps[0]), if Beats(steps[0], w, id) then now else beat,
                steps[1..], w, id, lease))
  }

  /** Steps that may end a running task for a reason other than lease expiry. */
  predicate EndsRun(step: Step, w: WorkerId, id: TaskId)
  {
    match step
    case Complete(v, i, note) => v == w && i == id
    case Retry(v, i, claim) => v == w && i == id
    case Abandon(v, i, reason, note) => v == w && i == id
    case BudgetPause(v, i, reason, resumeAt) => v == w && i == id
    case Interrupt(v, i, approval) => v == w && i == id
    case TimeOut(i) => i == id
    case Cancel(i) => i == id
    case _ => false
  }

  /** The owner's lease runs until `lease` after its last beat. */
  predicate LeasedUntil(db: Db, w: WorkerId, id: TaskId, until: Time)
  {
    HoldsLease(db, w, id) && db.tasks[id].expiry == Some(until)
  }

  lemma LeaseHeld(db: Db, w: WorkerId, id: TaskId, until: Time)
    requires LeasedUntil(db, w, id, until)
    ensures HoldsLease(db, w, id)
  {
  }

  lemma LeaseMove(db: Db, step: Step, w: WorkerId, id: TaskId, until: Time)
    requires LeasesAgree(db) && LeasedUntil(db, w, id, until) && db.now <= until
    requires !EndsRun(step, w, id) && MoveOf(db, step).Some?
    ensures LeasedUntil(Apply(db, step), w, id, until) && Apply(db, step).now == db.now
    ensures !Beats(step, w, id) && !step.Tick?
  {
    hide MoveOf, Apply, LeasesAgree, EndsRun, LegalMove;
    MoveEffects(db, step);
    OtherTaskMoves(db, step, w, id);
  }

  lemma LeaseStep(db: Db, step: Step, w: WorkerId, id: TaskId, lease: nat, beat: Time)
    requires LeasesAgree(db) && LeasedUntil(db, w, id, beat + lease)
    requires db.now <= beat + lease && !EndsRun(step, w, id)
    requires Beats(step, w, id) ==> step.lease == lease
    ensures LeasedUntil(Apply(db, step), w, id, (if Beats(step, w, id) then db.now else beat) + lease)
    ensures Apply(db, step).now == ClockAfter(db.now, step)
  {
    hide MoveOf, Apply, LeasesAgree, LeasedUntil, EndsRun;
    if MoveOf(db, step).Some? {
      LeaseMove(db, step, w, id, beat + lease);
    } else {
      LeaseQuiet(db, step, w, id, lease, beat);
    }
  }

  lemma LeaseQuiet(db: Db, step: Step, w: WorkerId, id: TaskId, lease: nat, beat: Time)
    requires LeasedUntil(db, w, id, beat + lease) && MoveOf(db, step).None?
    requires Beats(step, w, id) ==> step.lease == lease
    ensures LeasedUntil(Apply(db, step), w, id, (if Beats(step, w, id) then db.now else beat) + lease)
    ensures Apply(db, step).now == ClockAfter(db.now, step)
  {
    hide MoveOf, Apply, Beaten;
    QuietEffects(db, step);
    BeatenLease(db, step, w, id, lease, beat);
  }

  lemma BeatenLease(db: Db, step: Step, w: WorkerId, id: TaskId, lease: nat, beat: Time)
    requires LeasedUntil(db, w, id, beat + lease) && (Beats(step, w, id) ==> step.lease == lease)
    ensures id in Beaten(db, step)
    ensures var t := Beaten(db, step)[id];
      t.owner == Some(w) && t.status == Running
      && t.expiry == Some((if Beats(step, w, id) then db.now else beat) + lease)
  {
  }

  lemma OthersCannotMoveExecutor(db: Db, step: Step, w: WorkerId, id: TaskId)
    requires LeasesAgree(db) && HoldsLease(db, w, id) && !EndsRun(step, w, id)
    ensures ExecutorMove(db, step).Some? ==> ExecutorMove(db, step).value.id != id
  {
    hide RetryScheduled, DeadLettered, Released, WindowSum, WindowStart, NoteFits;
  }

  lemma OthersCannotMoveReaper(db: Db, step: Step, w: WorkerId, id: TaskId)
    requires HoldsLease(db, w, id) && !LeaseExpired(db.tasks[id], db.now) && !EndsRun(step, w, id)
    ensures ReaperMove(db, step).Some? ==> ReaperMove(db, step).value.id != id
  {
    hide Requeued, DeadLettered, HumanTimedOut, Resumed, MayRecover;
  }

  lemma OthersCannotMoveApi(db: Db, step: Step, w: WorkerId, id: TaskId)
    requires HoldsLease(db, w, id) && !EndsRun(step, w, id)
    ensures ApiMove(db, step).Some? ==> ApiMove(db, step).value.id != id
  {
    hide Answered, Redriven, Resumed, Released, NewTask;
  }

  /** An unexpired running task is moved only by its owner, a timeout or a cancellation. */
  lemma OtherTaskMoves(db: Db, step: Step, w: WorkerId, id: TaskId)
    requires LeasesAgree(db) && HoldsLease(db, w, id) && !LeaseExpired(db.tasks[id], db.now)
    requires MoveOf(db, step).Some? && !EndsRun(step, w, id)
    ensures MoveOf(db, step).value.id != id
  {
    hide ExecutorMove, ReaperMove, ApiMove;
    match Actor(step)
    case Poller =>
    case Executor => OthersCannotMoveExecutor(db, step, w, id);
    case Reaper => OthersCannotMoveReaper(db, step, w, id);
    case Api => OthersCannotMoveApi(db, step, w, id);
  }

  /** If the owner's beats land no more than the lease duration apart, no reaper pass at any
      time takes the task: whatever runs beside it, the owner keeps the lease. */
  lemma {:induction false} PunctualOwnerKeepsLease(
    db: Db, steps: seq<Step>, w: WorkerId, id: TaskId, lease: nat, beat: Time)
    requires LeasesAgree(db) && LeasedUntil(db, w, id, beat + lease)
    requires Punctual(db.now, beat, steps, w, id, lease)
    requires forall s | s in steps :: !EndsRun(s, w, id) && (Beats(s, w, id) ==> s.lease == lease)
    ensures HoldsLease(Run(db, steps), w, id)
    decreases |steps|
  {
    hide Apply, MoveOf, LeasesAgree, LeasedUntil;
    if steps == [] {
      LeaseHeld(db, w, id, beat + lease);
    } else {
      LeaseStep(db, steps[0], w, id, lease, beat);
      LeasesStayAgreed(db, steps[0]);
      PunctualOwnerKeepsLease(Apply(db, steps[0]), steps[1..], w, id, lease,
                              if Beats(steps[0], w, id) then db.now else beat);
    }
  }

  /** The claim is the first beat. */
  lemma PunctualClaimantKeepsLease(db: Db, claim: Step, steps: seq<Step>)
    requires LeasesAgree(db) && claim.ClaimTask? && MoveOf(db, claim).Some?
    requires Punctual(db.now, db.now, steps, claim.worker, claim.id, claim.lease)
    requires forall s | s in steps :: !EndsRun(s, claim.worker, claim.id)
               && (Beats(s, claim.worker, claim.id) ==> s.lease == claim.lease)
    ensures HoldsLease(Run(db, [claim] + steps), claim.worker, claim.id)
  {
    hide MoveOf, Apply;
    ClaimMove(db, claim);
    MoveEffects(db, claim);
    LeasesStayAgreed(db, claim);
    assert ([claim] + steps)[1..] == steps;
    PunctualOwnerKeepsLease(Apply(db, claim), steps, claim.worker, claim.id, claim.lease, db.now);
  }

  /** While nobody claims or beats, a task that is still running keeps its old expiry. */
  lemma {:induction false} SilenceKeepsExpiry(db: Db, steps: seq<Step>, id: TaskId, expiry: Time)
    requires LeasesAgree(db) && id in db.tasks
    requires db.tasks[id].status == Running ==> db.tasks[id].expiry == Some(expiry)
    requires forall s | s in steps :: !((s.ClaimTask? || s.Heartbeat?) && s.id == id)
    ensures var s := Run(db, steps);
      LeasesAgree(s) && id in s.tasks && (s.tasks[id].status == Running ==> s.tasks[id].expiry == Some(expiry))
    decreases |steps|
  {
    if steps == [] {
    } else {
      var step := steps[0];
      LeasesStayAgreed(db, step);
      if MoveOf(db, step).Some? {
        MovesAreLegal(db, step);
        MoveEffects(db, step);
        ClaimMove(db, step);
      } else {
        QuietEffects(db, step);
      }
      SilenceKeepsExpiry(Apply(db, step), steps[1..], id, expiry);
    }
  }

  /** The reaper's two lease statements applied to a single row. */
  ghost function LeaseScan(db: Db, id: TaskId): Db
  {
    Apply(Apply(db, Requeue(id)), Expire(id))
  }

  /** Where an expired lease sends its task. */
  function Reclaimed(t: Task, now: Time): Task
  {
    if t.retryCount < t.maxRetries then Requeued(t, now) else DeadLettered(t, RetriesExhausted, t.owner)
  }

  /** The two lease statements take a row exactly when its lease has expired, and send it to
      exactly one of the queue and the dead letters. */
  lemma LeaseScanVerdict(db: Db, id: TaskId)
    requires id in db.tasks
    ensures LeaseScan(db, id).tasks ==
              if LeaseExpired(db.tasks[id], db.now) then db.tasks[id := Reclaimed(db.tasks[id], db.now)]
              else db.tasks
  {
    hide Apply, Quiet, PollerMove, ExecutorMove, ApiMove;
    var first, second := Requeue(id), Expire(id);
    if MoveOf(db, first).Some? { MoveEffects(db, first); } else { QuietEffects(db, first); }
    var mid := Apply(db, first);
    if MoveOf(mid, second).Some? { MoveEffects(mid, second); } else { QuietEffects(mid, second); }
  }

  /** Once the owner falls silent, the first pass strictly later than its last beat plus the
      lease duration takes the task: it is requeued with one more retry, or dead-lettered. */
  lemma SilentOwnerIsReclaimed(db: Db, steps: seq<Step>, w: WorkerId, id: TaskId, until: Time)
    requires LeasesAgree(db) && LeasedUntil(db, w, id, until)
    requires forall s | s in steps :: !((s.ClaimTask? || s.Heartbeat?) && s.id == id)
    requires until < Run(db, steps).now
    ensures var s := Run(db, steps); var after := LeaseScan(s, id);
      && id in s.tasks && id in after.tasks && after.tasks[id].status != Running
      && (s.tasks[id].status == Running ==> after.tasks[id] == Reclaimed(s.tasks[id], s.now))
  {
    hide Apply, Run, LeaseScan;
    SilenceKeepsExpiry(db, steps, id, until);
    LeaseScanVerdict(Run(db, steps), id);
  }
}
