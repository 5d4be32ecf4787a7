/** The event log replays to the task table. */
module EventLog {
  import opened Tables
  import opened Lifecycle
  import opened Invariants
  import Ledger

  /** The status a reader of the log ends up with: the last non-null status_after. */
  function Replay(events: seq<Event>, id: TaskId): Option<Status>
  {
    if events == [] then None
    else
      var e := events[|events| - 1];
      if e.task == id && e.after.Some? then e.after else Replay(events[..|events| - 1], id)
  }

  /** Every non-null status_before is the status replayed from the events before it. */
  predicate Consistent(events: seq<Event>, id: TaskId)
  {
    events == [] ||
    var e := events[|events| - 1];
    && Consistent(events[..|events| - 1], id)
    && (e.task == id && e.before.Some? ==> e.before == Replay(events[..|events| - 1], id))
  }

  /** Number of status-changing events of a task; its submission is the first. */
  function Changes(events: seq<Event>, id: TaskId): nat
  {
    if events == [] then 0
    else
      var e := events[|events| - 1];
      Changes(events[..|events| - 1], id) + if e.task == id && e.after.Some? then 1 else 0
  }

  /** The log of task `id` is consistent, ends in `status` and records `version` changes. */
  predicate ReplaysTo(events: seq<Event>, id: TaskId, status: Option<Status>, version: nat)
  {
    Consistent(events, id) && Replay(events, id) == status && Changes(events, id) == version
  }

  predicate Replays(db: Db, id: TaskId)
  {
    if id in db.tasks then ReplaysTo(db.events, id, Some(db.tasks[id].status), db.tasks[id].version)
    else ReplaysTo(db.events, id, None, 0)
  }

  /** An event of another task, or a marker, is invisible to the replay. */
  lemma UnrelatedEvent(events: seq<Event>, e: Event, id: TaskId, status: Option<Status>, version: nat)
    requires ReplaysTo(events, id, status, version)
    requires e.task != id || (e.before.None? && e.after.None?)
    ensures ReplaysTo(events + [e], id, status, version)
  {
    assert (events + [e])[..|events|] == events;
  }

  lemma StatusChange(events: seq<Event>, e: Event, status: Option<Status>, version: nat)
    requires ReplaysTo(events, e.task, status, version)
    requires e.after.Some? && (e.before.None? || e.before == status)
    ensures ReplaysTo(events + [e], e.task, e.after, version + 1)
  {
    assert (events + [e])[..|events|] == events;
  }

  lemma MarkersUnseen(events: seq<Event>, marker: seq<Event>, id: TaskId, status: Option<Status>, version: nat)
    requires ReplaysTo(events, id, status, version)
    requires |marker| <= 1 && forall e | e in marker :: e.before.None? && e.after.None?
    ensures ReplaysTo(events + marker, id, status, version)
  {
    if marker == [] {
      assert events + marker == events;
    } else {
      assert events + marker == events + [marker[0]];
      UnrelatedEvent(events, marker[0], id, status, version);
    }
  }

  /** A legal move's event continues the log of its task and leaves every other log alone. */
  lemma MoveContinuesLog(db: Db, m: Move, marked: seq<Event>, id: TaskId)
    requires LegalMove(db, m)
    requires Replays(db.(events := marked), id)
    ensures Replays(db.(tasks := db.tasks[m.id := m.row], events := marked + [StatusEvent(m)]), id)
  {
    var e := StatusEvent(m);
    if m.id != id {
      if id in db.tasks {
        UnrelatedEvent(marked, e, id, Some(db.tasks[id].status), db.tasks[id].version);
      } else {
        UnrelatedEvent(marked, e, id, None, 0);
      }
    } else if id in db.tasks {
      StatusChange(marked, e, Some(db.tasks[id].status), db.tasks[id].version);
    } else {
      StatusChange(marked, e, None, 0);
    }
  }

  lemma ReplaysPreserved(db: Db, step: Step, id: TaskId)
    requires LeasesAgree(db) && Replays(db, id)
    ensures Replays(Apply(db, step), id)
  {
    if MoveOf(db, step).Some? {
      MovesAreLegal(db, step);
      MoveEffects(db, step);
      var m, marker := MoveOf(db, step).value, Marker(step);
      if id in db.tasks {
        MarkersUnseen(db.events, marker, id, Some(db.tasks[id].status), db.tasks[id].version);
      } else {
        MarkersUnseen(db.events, marker, id, None, 0);
      }
      MoveContinuesLog(db, m, db.events + marker, id);
    } else {
      QuietEffects(db, step);
    }
  }

  lemma {:induction false} ReplaysOnRuns(db: Db, steps: seq<Step>, id: TaskId)
    requires LeasesAgree(db) && Replays(db, id)
    ensures Replays(Run(db, steps), id)
    decreases |steps|
  {
    if steps == [] {
    } else {
      LeasesStayAgreed(db, steps[0]);
      ReplaysPreserved(db, steps[0], id);
      ReplaysOnRuns(Apply(db, steps[0]), steps[1..], id);
    }
  }

  /** In every reachable state, replaying a task's events gives its status, every recorded
      status_before is the status replayed so far, and the version counts the status changes. */
  lemma EventLogReplaysToState(db: Db, id: TaskId)
    requires Reachable(db)
    ensures Replays(db, id)
  {
    var start, steps: seq<Step> :| Initial(start) && Run(start, steps) == db;
    ReplaysOnRuns(start, steps, id);
  }

  // ---- What an event tells -------------------------------------------------------------------------

  /** The event type of each transaction; a retry that finds its retries used up logs a dead letter. */
  function CauseOf(step: Step, after: Status): EventKind
  {
    match step
    case ClaimTask(w, pool, tenant, lease, a, id) => TaskClaimed
    case Complete(w, id, note) => TaskCompleted
    case Retry(w, id, claim) => if after == Queued then TaskRetryScheduled else TaskDeadLettered
    case BudgetPause(w, id, limit, resumeAt) => TaskPaused
    case Interrupt(w, id, approval) => if after == WaitingForApproval then TaskApprovalRequested else TaskInputRequested
    case Requeue(id) => TaskReclaimed
    case Recover(id) => TaskResumed
    case Submit(id, a, pool, maxRetries, timeoutSeconds) => TaskSubmitted
    case Cancel(id) => TaskCancelled
    case Approve(id, approved) => if approved then TaskApproved else TaskRejected
    case Respond(id) => TaskInputReceived
    case FollowUp(id) => TaskFollowUp
    case Resume(id) => TaskResumed
    case Redrive(id) => TaskRedriven
    case _ => TaskDeadLettered
  }

  /** Workers sign their events; the reaper and the API do not. */
  function SignedBy(step: Step): Option<WorkerId>
  {
    match step
    case ClaimTask(w, pool, tenant, lease, a, id) => Some(w)
    case Complete(w, id, note) => Some(w)
    case Retry(w, id, claim) => Some(w)
    case Abandon(w, id, reason, note) => Some(w)
    case BudgetPause(w, id, limit, resumeAt) => Some(w)
    case Interrupt(w, id, approval) => Some(w)
    case _ => None
  }

  /** The three statements that do not know the status they change, or have none to change. */
  predicate LeavesBeforeOpen(step: Step)
  {
    step.TimeOut? || step.HumanTimeOut? || step.Submit?
  }

  predicate Tells(step: Step, m: Move)
  {
    m.kind == CauseOf(step, m.row.status) && m.worker == SignedBy(step) && (m.before.None? <==> LeavesBeforeOpen(step))
  }

  lemma PollerTells(db: Db, step: Step)
    ensures PollerMove(db, step).Some? ==> Tells(step, PollerMove(db, step).value)
  {
    hide NextAgent, NextTask, EnsureRuntime;
  }

  lemma ExecutorTells(db: Db, step: Step)
    ensures ExecutorMove(db, step).Some? ==> Tells(step, ExecutorMove(db, step).value)
  {
    hide NoteFits;
  }

  lemma ReaperTells(db: Db, step: Step)
    ensures ReaperMove(db, step).Some? ==> Tells(step, ReaperMove(db, step).value)
  {
    hide MayRecover, LeaseExpired, Overdue, HumanOverdue;
  }

  lemma ApiTells(db: Db, step: Step)
    ensures ApiMove(db, step).Some? ==> Tells(step, ApiMove(db, step).value)
  {
    hide Ledger.TaskSum;
  }

  /** Status by status: a step that changes the status of a task logs its own kind of event last, with
      its worker and the statuses before and after; a memory written with it is logged just before;
      and a step that changes no status logs nothing. */
  lemma EventNamesItsCause(db: Db, step: Step)
    requires LeasesAgree(db)
    ensures var after := Apply(db, step);
      if exists id :: StatusChanged(db, after, id)
      then exists id :: StatusChanged(db, after, id) && after.events == db.events + Remembers(step) +
             [Event(id, CauseOf(step, after.tasks[id].status), BeforeOf(db, step, id), Some(after.tasks[id].status),
                    SignedBy(step))]
      else after.events == db.events
  {
    hide Apply, MoveOf, CauseOf, SignedBy, LeavesBeforeOpen;
    var after := Apply(db, step);
    if MoveOf(db, step).Some? {
      var m := MoveOf(db, step).value;
      MovesAreLegal(db, step);
      MoveEffects(db, step);
      MoveTells(db, step);
      assert StatusChanged(db, after, m.id);
    } else {
      QuietEffects(db, step);
    }
  }

  lemma MoveTells(db: Db, step: Step)
    requires MoveOf(db, step).Some?
    ensures Tells(step, MoveOf(db, step).value)
    ensures Marker(step) == Remembers(step)
  {
    hide PollerMove, ExecutorMove, ReaperMove, ApiMove, Tells;
    PollerTells(db, step);
    ExecutorTells(db, step);
    ReaperTells(db, step);
    ApiTells(db, step);
  }

  predicate StatusChanged(db: Db, after: Db, id: TaskId)
  {
    id in after.tasks && (id in db.tasks ==> db.tasks[id].status != after.tasks[id].status)
  }

  function BeforeOf(db: Db, step: Step, id: TaskId): Option<Status>
  {
    if LeavesBeforeOpen(step) || id !in db.tasks then None else Some(db.tasks[id].status)
  }

  function Remembers(step: Step): seq<Event>
  {
    if (step.Complete? || step.Abandon?) && step.note.Memory?
    then [Event(step.id, MemoryWritten, None, None, Some(step.worker))] else []
  }
}
