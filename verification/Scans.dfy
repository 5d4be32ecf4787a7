/** The global invariant, and the reaper's bulk statements as runs of single-row steps. */
module Scans {
  import opened Tables
  import Ledger
  import opened Lifecycle
  import opened Invariants
  import E = EventLog
  import R = Retries
  import N = RunningCounts
  import H = HourlyBudget
  import X = RowChanges

  /** Everything that holds in every reachable state. */
  ghost predicate Inv(db: Db)
  {
    R.RetriesSound(db) && N.Sound(db) && forall id :: E.Replays(db, id)
  }

  lemma InitialIsSound(db: Db)
    requires Initial(db)
    ensures Inv(db)
  {
  }

  lemma InvPreserved(db: Db, step: Step)
    requires Inv(db)
    ensures Inv(Apply(db, step))
  {
    hide Apply, R.RetriesSound, N.RowsPresent, E.Replays;
    assert LeasesAgree(db);
    R.RetriesStaySound(db, step);
    N.RowsStayPresent(db, step);
    forall id
      ensures E.Replays(Apply(db, step), id)
    {
      E.ReplaysPreserved(db, step, id);
    }
  }

  lemma {:induction false} InvOnRuns(db: Db, steps: seq<Step>)
    requires Inv(db)
    ensures Inv(Run(db, steps))
    decreases |steps|
  {
    hide Apply, Inv;
    if steps == [] {
    } else {
      InvPreserved(db, steps[0]);
      InvOnRuns(Apply(db, steps[0]), steps[1..]);
    }
  }

  // ---- Bulk statements -----------------------------------------------------------------------

  datatype ScanKind = RequeueScan | ExpireScan | TimeOutScan | HumanScan

  predicate Matches(kind: ScanKind, t: Task, now: Time)
  {
    match kind
    case RequeueScan => LeaseExpired(t, now) && t.retryCount < t.maxRetries
    case ExpireScan => LeaseExpired(t, now) && t.retryCount >= t.maxRetries
    case TimeOutScan => Overdue(t, now)
    case HumanScan => HumanOverdue(t, now)
  }

  function EventKindOf(kind: ScanKind): EventKind
  {
    if kind == RequeueScan then TaskReclaimed else TaskDeadLettered
  }

  function BeforeOf(kind: ScanKind): Option<Status>
  {
    if kind == RequeueScan || kind == ExpireScan then Some(Running) else None
  }

  predicate Decrements(kind: ScanKind)
  {
    kind != HumanScan
  }

  function ScanMove(kind: ScanKind, id: TaskId, t: Task, now: Time): Move
  {
    var row :=
      match kind
      case RequeueScan => Requeued(t, now)
      case ExpireScan => DeadLettered(t, RetriesExhausted, t.owner)
      case TimeOutScan => DeadLettered(t, TaskTimeout, t.owner)
      case HumanScan => HumanTimedOut(t);
    Move(id, row, EventKindOf(kind), BeforeOf(kind), None, Decrements(kind))
  }

  /** Which rows each statement takes, and what it leaves of the table, in its columns. */
  ghost predicate ScanOutcome(
    kind: ScanKind, before: map<TaskId, Task>, rows: seq<TaskId>, after: map<TaskId, Task>, now: Time)
  {
    && after.Keys == before.Keys
    && (forall id :: id in rows <==> id in before && var t := before[id];
          match kind
          case RequeueScan => t.status == Running && t.expiry.Some? && now > t.expiry.value
                              && t.retryCount < t.maxRetries
          case ExpireScan => t.status == Running && t.expiry.Some? && now > t.expiry.value
                             && t.retryCount >= t.maxRetries
          case TimeOutScan => t.status in {Queued, Running} && now > t.timeoutFrom + t.timeoutSeconds * 1_000_000
          case HumanScan => t.status in {WaitingForApproval, WaitingForInput}
                            && t.humanTimeoutAt.Some? && now > t.humanTimeoutAt.value)
    && forall id | id in before :: var t := before[id];
         after[id] ==
           if id !in rows then t
           else
             match kind
             case RequeueScan => X.Free(t).(status := Queued, retryCount := t.retryCount + 1,
                                            retryAfter := Some(now + Pow2(t.retryCount) * 1_000_000),
                                            retryHistory := t.retryHistory + [now])
             case ExpireScan => X.Free(t).(status := DeadLetter, deadLetterReason := Some(RetriesExhausted),
                                           lastWorker := t.owner)
             case TimeOutScan => X.Free(t).(status := DeadLetter, deadLetterReason := Some(TaskTimeout),
                                            lastWorker := t.owner)
             case HumanScan => t.(status := DeadLetter, deadLetterReason := Some(HumanInputTimeout),
                                  humanTimeoutAt := None, version := t.version + 1)
  }

  lemma ScanLeaves(kind: ScanKind, before: map<TaskId, Task>, rows: seq<TaskId>, after: map<TaskId, Task>, now: Time)
    requires after.Keys == before.Keys
    requires forall id :: id in rows <==> id in before && Matches(kind, before[id], now)
    requires forall id | id in before ::
               after[id] == if id in rows then ScanMove(kind, id, before[id], now).row else before[id]
    ensures ScanOutcome(kind, before, rows, after, now)
  {
  }

  /** The run of the single-row steps of a statement takes and leaves just that. */
  lemma ScanStepsOutcome(db: Db, kind: ScanKind, rows: seq<TaskId>)
    requires Listed(db, kind, rows)
    ensures ScanOutcome(kind, db.tasks, rows, Run(db, ScanSteps(kind, rows)).tasks, db.now)
  {
    hide Run, Matches, ScanMove, ScanOutcome;
    ScanFrame(db, kind, rows);
    ScanLeaves(kind, db.tasks, rows, Run(db, ScanSteps(kind, rows)).tasks, db.now);
  }

  function StepOf(kind: ScanKind, id: TaskId): Step
  {
    match kind
    case RequeueScan => Requeue(id)
    case ExpireScan => Expire(id)
    case TimeOutScan => TimeOut(id)
    case HumanScan => HumanTimeOut(id)
  }

  function ScanSteps(kind: ScanKind, rows: seq<TaskId>): seq<Step>
  {
    if rows == [] then [] else ScanSteps(kind, rows[..|rows| - 1]) + [StepOf(kind, rows[|rows| - 1])]
  }

  predicate Distinct(rows: seq<TaskId>)
  {
    forall i, j :: 0 <= i < j < |rows| ==> rows[i] != rows[j]
  }

  lemma DistinctAppend(rows: seq<TaskId>, id: TaskId)
    requires Distinct(rows) && id !in rows
    ensures Distinct(rows + [id])
  {
  }

  /** The rows a statement returns: every matching task exactly once, in any order. */
  ghost predicate Listed(db: Db, kind: ScanKind, rows: seq<TaskId>)
  {
    && Distinct(rows)
    && forall id :: id in rows <==> id in db.tasks && Matches(kind, db.tasks[id], db.now)
  }

  /** Bulk semantics: every new row is computed from the rows before the statement. */
  function ScanResult(db: Db, kind: ScanKind, rows: seq<TaskId>): Db
  {
    if rows == [] then db
    else
      var id := rows[|rows| - 1];
      var rest := ScanResult(db, kind, rows[..|rows| - 1]);
      if id in db.tasks then Enact(rest, ScanMove(kind, id, db.tasks[id], db.now)) else rest
  }

  lemma ScanNothing(db: Db, kind: ScanKind)
    ensures ScanResult(db, kind, []) == db && Distinct([])
  {
  }

  lemma ScanMoveShape(kind: ScanKind, id: TaskId, t: Task, now: Time)
    ensures var m := ScanMove(kind, id, t, now);
      && m.id == id && m.kind == EventKindOf(kind) && m.before == BeforeOf(kind)
      && m.worker.None? && m.release == Decrements(kind)
  {
  }

  lemma ScanExtends(db: Db, kind: ScanKind, rows: seq<TaskId>, id: TaskId)
    requires id in db.tasks
    ensures ScanResult(db, kind, rows + [id])
         == Enact(ScanResult(db, kind, rows), ScanMove(kind, id, db.tasks[id], db.now))
  {
    assert (rows + [id])[..|rows|] == rows;
  }

  lemma {:induction false} ScanTasks(db: Db, kind: ScanKind, rows: seq<TaskId>)
    ensures var after := ScanResult(db, kind, rows);
      && after.now == db.now && after.tasks.Keys == db.tasks.Keys
      && forall id | id in db.tasks ::
           after.tasks[id] == if id in rows then ScanMove(kind, id, db.tasks[id], db.now).row else db.tasks[id]
  {
    if rows == [] {
    } else {
      ScanTasks(db, kind, rows[..|rows| - 1]);
    }
  }

  lemma ScanUpdates(db: Db, kind: ScanKind, rows: seq<TaskId>, updated: map<TaskId, Task>)
    requires updated.Keys == db.tasks.Keys
    requires forall id | id in updated ::
               updated[id] == if id in rows then ScanMove(kind, id, db.tasks[id], db.now).row else db.tasks[id]
    ensures updated == ScanResult(db, kind, rows).tasks
  {
    hide ScanMove, ScanResult;
    ScanTasks(db, kind, rows);
  }

  /** A matching row's step makes exactly the move of the bulk statement. */
  lemma ScanStep(db: Db, kind: ScanKind, id: TaskId)
    requires id in db.tasks && Matches(kind, db.tasks[id], db.now)
    ensures Apply(db, StepOf(kind, id)) == Enact(db, ScanMove(kind, id, db.tasks[id], db.now))
  {
    hide PollerMove, ExecutorMove, ApiMove, Quiet, Enact;
  }

  /** The bulk UPDATE followed by the loop over its rows is the run of single-row steps, so
      everything proved of steps holds of the statement. */
  lemma {:induction false} ScanIsRun(db: Db, kind: ScanKind, rows: seq<TaskId>)
    requires Distinct(rows)
    requires forall id | id in rows :: id in db.tasks && Matches(kind, db.tasks[id], db.now)
    ensures Run(db, ScanSteps(kind, rows)) == ScanResult(db, kind, rows)
  {
    hide Apply, Enact, Matches, ScanMove;
    if rows == [] {
    } else {
      var n := |rows| - 1;
      var init, id := rows[..n], rows[n];
      ScanIsRun(db, kind, init);
      ScanTasks(db, kind, init);
      assert id !in init;
      var mid := ScanResult(db, kind, init);
      RunConcat(db, ScanSteps(kind, init), [StepOf(kind, id)]);
      assert [StepOf(kind, id)][1..] == [];
      ScanStep(mid, kind, id);
    }
  }

  function PassSteps(requeued: seq<TaskId>, expired: seq<TaskId>, timedOut: seq<TaskId>, human: seq<TaskId>): seq<Step>
  {
    ScanSteps(RequeueScan, requeued) + ScanSteps(ExpireScan, expired)
    + ScanSteps(TimeOutScan, timedOut) + ScanSteps(HumanScan, human)
  }

  lemma PassIsRun(db: Db, requeued: seq<TaskId>, expired: seq<TaskId>, timedOut: seq<TaskId>, human: seq<TaskId>)
    ensures Run(db, PassSteps(requeued, expired, timedOut, human))
         == Run(Run(Run(Run(db, ScanSteps(RequeueScan, requeued)), ScanSteps(ExpireScan, expired)),
                    ScanSteps(TimeOutScan, timedOut)), ScanSteps(HumanScan, human))
  {
    hide Run, ScanSteps;
    var a, b := ScanSteps(RequeueScan, requeued), ScanSteps(ExpireScan, expired);
    var c, d := ScanSteps(TimeOutScan, timedOut), ScanSteps(HumanScan, human);
    RunConcat(db, a + b + c, d);
    RunConcat(db, a + b, c);
    RunConcat(db, a, b);
  }

  /** A statement leaves every other row, and the clock, alone. */
  lemma ScanFrame(db: Db, kind: ScanKind, rows: seq<TaskId>)
    requires Listed(db, kind, rows)
    ensures var after := Run(db, ScanSteps(kind, rows));
      && after.now == db.now && after.tasks.Keys == db.tasks.Keys
      && forall id | id in db.tasks ::
           after.tasks[id] == if Matches(kind, db.tasks[id], db.now)
                              then ScanMove(kind, id, db.tasks[id], db.now).row else db.tasks[id]
  {
    hide Run, Matches, ScanMove;
    ScanIsRun(db, kind, rows);
    ScanTasks(db, kind, rows);
  }

  /** What each statement leaves of the expired leases among its input rows. */
  lemma ScanVerdict(kind: ScanKind, id: TaskId, t: Task, now: Time)
    ensures Matches(kind, t, now) ==> !LeaseExpired(ScanMove(kind, id, t, now).row, now)
    ensures LeaseExpired(t, now) ==> (Matches(RequeueScan, t, now) <==> !Matches(ExpireScan, t, now))
    ensures Matches(RequeueScan, t, now) || Matches(ExpireScan, t, now) ==> LeaseExpired(t, now)
  {
  }

  /** One pass takes every task with an expired lease exactly once, by requeueing or by dead
      lettering, and leaves no expired lease behind. */
  lemma PassVerdict(db: Db, requeued: seq<TaskId>, expired: seq<TaskId>, timedOut: seq<TaskId>, human: seq<TaskId>)
    requires Listed(db, RequeueScan, requeued)
    requires var s1 := Run(db, ScanSteps(RequeueScan, requeued));
      && Listed(s1, ExpireScan, expired)
      && var s2 := Run(s1, ScanSteps(ExpireScan, expired));
      && Listed(s2, TimeOutScan, timedOut)
      && Listed(Run(s2, ScanSteps(TimeOutScan, timedOut)), HumanScan, human)
    ensures forall id :: id in requeued || id in expired <==> id in db.tasks && LeaseExpired(db.tasks[id], db.now)
    ensures forall id | id in requeued :: id !in expired
    ensures var end := Run(db, PassSteps(requeued, expired, timedOut, human));
      end.now == db.now && forall id | id in end.tasks :: !LeaseExpired(end.tasks[id], end.now)
  {
    hide Run, ScanSteps, PassSteps, Matches, ScanMove, LeaseExpired;
    PassIsRun(db, requeued, expired, timedOut, human);
    var s1 := Run(db, ScanSteps(RequeueScan, requeued));
    var s2 := Run(s1, ScanSteps(ExpireScan, expired));
    var s3 := Run(s2, ScanSteps(TimeOutScan, timedOut));
    ScanFrame(db, RequeueScan, requeued);
    ScanFrame(s1, ExpireScan, expired);
    ScanFrame(s2, TimeOutScan, timedOut);
    ScanFrame(s3, HumanScan, human);
    forall id | id in db.tasks
      ensures id in requeued || id in expired <==> LeaseExpired(db.tasks[id], db.now)
      ensures id in requeued ==> id !in expired
      ensures id in s2.tasks && !LeaseExpired(s2.tasks[id], db.now)
    {
      ScanVerdict(RequeueScan, id, db.tasks[id], db.now);
      ScanVerdict(ExpireScan, id, s1.tasks[id], db.now);
    }
    var end := Run(db, PassSteps(requeued, expired, timedOut, human));
    forall id | id in end.tasks
      ensures !LeaseExpired(end.tasks[id], db.now)
    {
      ScanVerdict(TimeOutScan, id, s2.tasks[id], db.now);
      ScanVerdict(HumanScan, id, s3.tasks[id], db.now);
    }
  }

  // ---- Hourly budget recovery --------------------------------------------------------------------

  function RecoverSteps(rows: seq<TaskId>): seq<Step>
  {
    if rows == [] then [] else RecoverSteps(rows[..|rows| - 1]) + [Recover(rows[|rows| - 1])]
  }

  function ResumeMove(id: TaskId, t: Task): Move
  {
    Move(id, Resumed(t), TaskResumed, Some(Paused), None, false)
  }

  lemma RunSnoc(db: Db, steps: seq<Step>, step: Step)
    ensures Run(db, steps + [step]) == Apply(Run(db, steps), step)
  {
    hide Apply;
    RunConcat(db, steps, [step]);
    assert [step][1..] == [];
  }

  lemma RunTwo(db: Db, steps: seq<Step>, first: Step, second: Step)
    ensures Run(db, steps + [first, second]) == Apply(Apply(Run(db, steps), first), second)
  {
    hide Apply;
    RunSnoc(db, steps, first);
    RunSnoc(db, steps + [first], second);
    assert steps + [first] + [second] == steps + [first, second];
  }

  /** Resuming one more task is one more step of the run. */
  lemma RecoverExtends(start: Db, rows: seq<TaskId>, id: TaskId)
    requires var db := Run(start, RecoverSteps(rows));
      id in db.tasks && HourlyPaused(db.tasks[id]) && MayRecover(db, db.tasks[id].agent)
    ensures var db := Run(start, RecoverSteps(rows));
      Run(start, RecoverSteps(rows + [id])) == Enact(db, ResumeMove(id, db.tasks[id]))
  {
    hide Run, Enact, MayRecover, PollerMove, ExecutorMove, ApiMove, Quiet;
    assert (rows + [id])[..|rows|] == rows;
    RunSnoc(start, RecoverSteps(rows), Recover(id));
  }

  function ReconcileSteps(): seq<Step>
  {
    [ReconcileCounts, ZeroCounts, ReconcileCosts, ZeroCosts]
  }

  /** A pass of the four reconciliation statements that nothing interrupts. */
  lemma ReconcileRun(db: Db)
    ensures Run(db, ReconcileSteps())
         == Apply(Apply(Apply(Apply(db, ReconcileCounts), ZeroCounts), ReconcileCosts), ZeroCosts)
  {
    hide Apply;
    var s := ReconcileSteps();
    assert s[1..] == [ZeroCounts, ReconcileCosts, ZeroCosts];
    assert s[1..][1..] == [ReconcileCosts, ZeroCosts];
    assert s[1..][1..][1..] == [ZeroCosts];
    assert s[1..][1..][1..][1..] == [];
  }

  /** Every cached counter tells the truth. */
  ghost predicate CachesExact(db: Db)
  {
    forall a :: CacheExact(db, a)
  }

  ghost predicate CacheExact(db: Db, a: AgentKey)
  {
    N.Drift(db, a) == 0
    && (a in db.runtime ==> db.runtime[a].hourCost == Ledger.WindowSum(db.ledger, a, db.now))
  }

  /** From any state, an uninterrupted reconciliation makes both caches exact for every agent. */
  lemma ReconcileMakesCachesExact(db: Db)
    requires Inv(db)
    ensures CachesExact(Run(db, ReconcileSteps()))
  {
    hide Apply, Run, Inv;
    ReconcileRun(db);
    forall a
      ensures CacheExact(Run(db, ReconcileSteps()), a)
    {
      ReconcileMakesCacheExact(db, a);
    }
  }

  lemma ReconcileMakesCacheExact(db: Db, a: AgentKey)
    requires Inv(db)
    ensures CacheExact(Apply(Apply(Apply(Apply(db, ReconcileCounts), ZeroCounts), ReconcileCosts), ZeroCosts), a)
  {
    hide Apply, N.Drift, N.RowsPresent, R.RetriesSound, E.Replays;
    var s1 := Apply(db, ReconcileCounts);
    var s2 := Apply(s1, ZeroCounts);
    var s3 := Apply(s2, ReconcileCosts);
    InvPreserved(db, ReconcileCounts);
    InvPreserved(s1, ZeroCounts);
    InvPreserved(s2, ReconcileCosts);
    N.ReconcileRestoresCount(db, a);
    N.DriftAfter(s2, ReconcileCosts, a);
    N.DriftAfter(s3, ZeroCosts, a);
    CostStatementsKeepLedger(s2);
    if a in s2.runtime {
      H.ReconcileRestoresHourCost(s2, a);
    }
  }

  lemma CostStatementsKeepLedger(db: Db)
    ensures var after := Apply(Apply(db, ReconcileCosts), ZeroCosts);
      after.ledger == db.ledger && after.now == db.now && after.runtime.Keys == db.runtime.Keys
  {
    hide PollerMove, ExecutorMove, ApiMove, Ledger.WindowSum, SpentThisHour;
  }

  /** The counts are exact, and the hourly costs lie between the window now and the window as it
      stood in the ledger `seen` at time `since`. */
  ghost predicate CacheWithin(db: Db, seen: seq<Ledger.Charge>, since: Time, a: AgentKey)
  {
    N.Drift(db, a) == 0
    && (a in db.runtime ==>
          Ledger.WindowSum(db.ledger, a, db.now) <= db.runtime[a].hourCost <= Ledger.WindowSum(seen, a, since))
  }

  ghost predicate CachesWithin(db: Db, seen: seq<Ledger.Charge>, since: Time)
  {
    forall a :: CacheWithin(db, seen, since, a)
  }

  /** The two count statements with time passing between them. */
  lemma CountsAcrossTime(db: Db, d: nat, a: AgentKey)
    requires Inv(db)
    ensures var end := Apply(Apply(Apply(db, ReconcileCounts), Tick(d)), ZeroCounts);
      Inv(end) && N.Drift(end, a) == 0 && end.ledger == db.ledger && end.now == db.now + d
  {
    hide Apply, N.RowsPresent, R.RetriesSound, E.Replays, RunningSet;
    var s1 := Apply(db, ReconcileCounts);
    var s2 := Apply(s1, Tick(d));
    InvPreserved(db, ReconcileCounts);
    InvPreserved(s1, Tick(d));
    InvPreserved(s2, ZeroCounts);
    N.DriftAfter(db, ReconcileCounts, a);
    N.DriftAfter(s1, Tick(d), a);
    N.DriftAfter(s2, ZeroCounts, a);
    N.QuietReconcile(db, a);
    TickResult(s1, d);
    CountStatementsKeepLedger(db);
    CountStatementsKeepLedger(s2);
  }

  lemma CountStatementsKeepLedger(db: Db)
    ensures Apply(db, ReconcileCounts).ledger == db.ledger && Apply(db, ReconcileCounts).now == db.now
    ensures Apply(db, ZeroCounts).ledger == db.ledger && Apply(db, ZeroCounts).now == db.now
  {
    hide PollerMove, ExecutorMove, ApiMove, Ledger.WindowSum, RunningSet;
  }

  /** The two cost statements with time passing between them. */
  lemma CostsAcrossTime(db: Db, d: nat, a: AgentKey)
    requires a in db.runtime
    ensures var end := Apply(Apply(Apply(db, ReconcileCosts), Tick(d)), ZeroCosts);
      a in end.runtime
      && Ledger.WindowSum(db.ledger, a, db.now + d) <= end.runtime[a].hourCost <= Ledger.WindowSum(db.ledger, a, db.now)
  {
    hide PollerMove, ExecutorMove, ApiMove, Ledger.WindowSum, SpentThisHour;
    TickResult(Apply(db, ReconcileCosts), d);
    H.EarlierWindowIsWider(db.ledger, a, db.now, db.now + d);
    LaterSpending(db.ledger, a, db.now, d);
    SilentNow(db.ledger, a, db.now + d);
  }

  lemma LaterSpending(ledger: seq<Ledger.Charge>, a: AgentKey, now: Time, d: nat)
    ensures SpentThisHour(ledger, a, now + d) ==> SpentThisHour(ledger, a, now)
  {
    if SpentThisHour(ledger, a, now + d) {
      var c :| c in ledger && Ledger.InWindow(c, a, now + d);
      assert Ledger.InWindow(c, a, now);
    }
  }

  lemma SilentNow(ledger: seq<Ledger.Charge>, a: AgentKey, now: Time)
    ensures !SpentThisHour(ledger, a, now) ==> Ledger.WindowSum(ledger, a, now) == 0
  {
    if !SpentThisHour(ledger, a, now) {
      H.SilentHour(ledger, a, now);
    }
  }

  lemma CostStatementFrame(db: Db)
    ensures var after := Apply(db, ReconcileCosts);
      after.ledger == db.ledger && after.now == db.now && after.runtime.Keys == db.runtime.Keys
    ensures var after := Apply(db, ZeroCosts);
      after.ledger == db.ledger && after.now == db.now && after.runtime.Keys == db.runtime.Keys
  {
    hide PollerMove, ExecutorMove, ApiMove, Ledger.WindowSum, SpentThisHour;
  }

  /** The four statements with time passing between them. */
  function ReconcileAcross(d1: nat, d2: nat, d3: nat): seq<Step>
  {
    [ReconcileCounts, Tick(d1), ZeroCounts, Tick(d2), ReconcileCosts, Tick(d3), ZeroCosts]
  }

  lemma ReconcileAcrossRun(db: Db, d1: nat, d2: nat, d3: nat)
    ensures Run(db, ReconcileAcross(d1, d2, d3))
         == var counted := Apply(Apply(Apply(db, ReconcileCounts), Tick(d1)), ZeroCounts);
            Apply(Apply(Apply(Apply(counted, Tick(d2)), ReconcileCosts), Tick(d3)), ZeroCosts)
  {
    hide Apply;
    var s := ReconcileAcross(d1, d2, d3);
    assert s == [s[0]] + ([s[1]] + ([s[2]] + ([s[3]] + ([s[4]] + ([s[5]] + [s[6]])))));
    RunCons(db, s[0], [s[1]] + ([s[2]] + ([s[3]] + ([s[4]] + ([s[5]] + [s[6]])))));
    var s1 := Apply(db, s[0]);
    RunCons(s1, s[1], [s[2]] + ([s[3]] + ([s[4]] + ([s[5]] + [s[6]]))));
    var s2 := Apply(s1, s[1]);
    RunCons(s2, s[2], [s[3]] + ([s[4]] + ([s[5]] + [s[6]])));
    var s3 := Apply(s2, s[2]);
    RunCons(s3, s[3], [s[4]] + ([s[5]] + [s[6]]));
    var s4 := Apply(s3, s[3]);
    RunCons(s4, s[4], [s[5]] + [s[6]]);
    var s5 := Apply(s4, s[4]);
    RunCons(s5, s[5], [s[6]]);
    SingleRun(Apply(s5, s[5]), s[6]);
  }

  /** However long the statements take, a reconciliation that no other step interrupts leaves every
      count exact and every hourly cost between the window at its end and at its start. */
  lemma ReconcileAcrossTime(db: Db, d1: nat, d2: nat, d3: nat)
    requires Inv(db)
    ensures CachesWithin(Run(db, ReconcileAcross(d1, d2, d3)), db.ledger, db.now)
    ensures Run(db, ReconcileAcross(d1, d2, d3)).ledger == db.ledger
  {
    hide Apply, Run, Inv, CacheWithin;
    ReconcileAcrossRun(db, d1, d2, d3);
    forall a
      ensures CacheWithin(Run(db, ReconcileAcross(d1, d2, d3)), db.ledger, db.now, a)
      ensures Run(db, ReconcileAcross(d1, d2, d3)).ledger == db.ledger
    {
      CacheAcrossTime(db, d1, d2, d3, a);
    }
    CacheAcrossTime(db, d1, d2, d3, AgentKey(0, 0));
  }

  lemma CacheAcrossTime(db: Db, d1: nat, d2: nat, d3: nat, a: AgentKey)
    requires Inv(db)
    ensures var counted := Apply(Apply(Apply(db, ReconcileCounts), Tick(d1)), ZeroCounts);
      var end := Apply(Apply(Apply(Apply(counted, Tick(d2)), ReconcileCosts), Tick(d3)), ZeroCosts);
      CacheWithin(end, db.ledger, db.now, a) && end.ledger == db.ledger
  {
    hide Apply, N.Drift, N.RowsPresent, R.RetriesSound, E.Replays, Ledger.WindowSum;
    CountsAcrossTime(db, d1, a);
    var s3 := Apply(Apply(Apply(db, ReconcileCounts), Tick(d1)), ZeroCounts);
    var s4 := Apply(s3, Tick(d2));
    var s5 := Apply(s4, ReconcileCosts);
    var s6 := Apply(s5, Tick(d3));
    InvPreserved(s3, Tick(d2));
    InvPreserved(s4, ReconcileCosts);
    InvPreserved(s5, Tick(d3));
    N.DriftAfter(s3, Tick(d2), a);
    N.DriftAfter(s4, ReconcileCosts, a);
    N.DriftAfter(s5, Tick(d3), a);
    N.DriftAfter(s6, ZeroCosts, a);
    TickResult(s3, d2);
    TickResult(s5, d3);
    CostStatementFrame(s4);
    CostStatementFrame(s6);
    H.EarlierWindowIsWider(db.ledger, a, db.now, s4.now);
    if a in s4.runtime {
      CostsAcrossTime(s4, d3, a);
    }
  }

  /** Pruning is invisible to both caches. */
  lemma PruneKeepsCaches(db: Db, seen: seq<Ledger.Charge>, since: Time)
    requires CachesWithin(db, seen, since)
    ensures CachesWithin(Apply(db, Prune), seen, since)
  {
    hide PollerMove, ExecutorMove, ApiMove, Ledger.WindowSum, Ledger.Pruned;
    var after := Apply(db, Prune);
    forall a
      ensures CacheWithin(after, seen, since, a)
    {
      assert CacheWithin(db, seen, since, a);
      Ledger.PruningKeepsWindows(db.ledger, a, db.now, db.now);
    }
  }

  /** Time passing can only shrink the windows. */
  lemma TickKeepsCaches(db: Db, d: nat, seen: seq<Ledger.Charge>, since: Time)
    requires CachesWithin(db, seen, since)
    ensures CachesWithin(Apply(db, Tick(d)), seen, since)
  {
    hide Apply, Ledger.WindowSum;
    TickResult(db, d);
    forall a
      ensures CacheWithin(Apply(db, Tick(d)), seen, since, a)
    {
      assert CacheWithin(db, seen, since, a);
      H.EarlierWindowIsWider(db.ledger, a, db.now, db.now + d);
    }
  }

  lemma CachesWithinIsExact(db: Db)
    requires CachesWithin(db, db.ledger, db.now)
    ensures CachesExact(db)
  {
    forall a
      ensures CacheExact(db, a)
    {
      assert CacheWithin(db, db.ledger, db.now, a);
    }
  }

  /** A reading of the windows at an earlier time was at least as high. */
  lemma EarlierCaches(db: Db, seen: seq<Ledger.Charge>, earlier: Time, since: Time)
    requires CachesWithin(db, seen, since) && earlier <= since
    ensures CachesWithin(db, seen, earlier)
  {
    forall a
      ensures CacheWithin(db, seen, earlier, a)
    {
      assert CacheWithin(db, seen, since, a);
      H.EarlierWindowIsWider(seen, a, earlier, since);
    }
  }
}
