/** The rolling hourly budget over whole runs. */
module HourlyBudget {
  import opened Tables
  import opened Ledger
  import opened Lifecycle
  import opened Invariants
  import C = Checkpoints
  import W = PendingWrites
  import RC = RunningCounts

  /** The ledger after a step: it was pruned at the clock, or rows were appended. */
  ghost predicate LedgerStep(db: Db, after: Db)
  {
    after.ledger == Pruned(db.ledger, db.now) || db.ledger <= after.ledger
  }

  lemma MoveLedger(db: Db, step: Step)
    requires MoveOf(db, step).Some?
    ensures db.ledger <= Apply(db, step).ledger
  {
    hide MoveOf, Noted;
    if step.Complete? {
      MarkedTaskExists(db, step);
      NotedGrows(db, step.worker, step.id, step.note, true);
    } else if step.Abandon? {
      MarkedTaskExists(db, step);
      NotedGrows(db, step.worker, step.id, step.note, false);
    }
  }

  lemma ExecutorLedger(db: Db, step: Step)
    ensures db.ledger <= ExecutorQuiet(db, step).ledger
  {
    hide C.Upsert, C.SetCost, C.AddCost, C.MirrorCost, C.IsLatest, W.Put, Accepts;
  }

  lemma OtherLedger(db: Db, step: Step)
    ensures PollerQuiet(db, step).ledger == db.ledger && ApiQuiet(db, step).ledger == db.ledger
    ensures LedgerStep(db, ReaperQuiet(db, step))
  {
    hide Pruned, WindowSum, SpentThisHour, RunningSet, Eligible, QueuedAgents;
  }

  lemma QuietLedger(db: Db, step: Step)
    requires MoveOf(db, step).None?
    ensures LedgerStep(db, Apply(db, step))
  {
    hide MoveOf, PollerQuiet, ExecutorQuiet, ReaperQuiet, ApiQuiet, Pruned;
    ExecutorLedger(db, step);
    OtherLedger(db, step);
  }

  lemma StepLedger(db: Db, step: Step)
    ensures LedgerStep(db, Apply(db, step))
  {
    hide Apply, MoveOf;
    if MoveOf(db, step).Some? {
      MoveLedger(db, step);
    } else {
      QuietLedger(db, step);
    }
  }

  /** Appending rows never lowers a window sum. */
  lemma {:induction false} AppendedWindow(ledger: seq<Charge>, longer: seq<Charge>, a: AgentKey, now: Time)
    requires ledger <= longer
    ensures WindowSum(ledger, a, now) <= WindowSum(longer, a, now)
  {
    if ledger == longer {
    } else {
      var n := |longer| - 1;
      assert ledger <= longer[..n];
      AppendedWindow(ledger, longer[..n], a, now);
    }
  }

  /** An earlier window contains every later one. */
  lemma {:induction false} EarlierWindowIsWider(ledger: seq<Charge>, a: AgentKey, now: Time, later: Time)
    requires now <= later
    ensures WindowSum(ledger, a, later) <= WindowSum(ledger, a, now)
  {
    if ledger == [] {
    } else {
      EarlierWindowIsWider(ledger[..|ledger| - 1], a, now, later);
    }
  }

  /** Whatever is charged or pruned up to `until`, the window as it will stand at `until` never
      loses a charge it already holds. */
  lemma {:induction false} WindowSurvivesRun(db: Db, steps: seq<Step>, a: AgentKey, until: Time)
    requires Run(db, steps).now <= until
    ensures db.now <= Run(db, steps).now
    ensures WindowSum(db.ledger, a, until) <= WindowSum(Run(db, steps).ledger, a, until)
    decreases |steps|
  {
    hide Apply, WindowSum, Pruned;
    if steps == [] {
    } else {
      var after := Apply(db, steps[0]);
      ClockNeverTurnsBack(db, steps[0]);
      WindowSurvivesRun(after, steps[1..], a, until);
      StepLedger(db, steps[0]);
      if after.ledger == Pruned(db.ledger, db.now) {
        PruningKeepsWindows(db.ledger, a, db.now, until);
      } else {
        AppendedWindow(db.ledger, after.ledger, a, until);
      }
    }
  }

  lemma ClockNeverTurnsBack(db: Db, step: Step)
    ensures db.now <= Apply(db, step).now
  {
    hide Apply, MoveOf;
    if MoveOf(db, step).Some? { MoveEffects(db, step); } else { QuietEffects(db, step); }
  }

  lemma {:induction false} BudgetFixedOnRun(db: Db, steps: seq<Step>, a: AgentKey)
    requires forall s | s in steps :: !RC.ChangesLimit(s, a)
    ensures a in db.agents <==> a in Run(db, steps).agents
    ensures a in db.agents ==> Run(db, steps).agents[a] == db.agents[a]
    decreases |steps|
  {
    hide Apply;
    if steps == [] {
    } else {
      RC.AgentsFixed(db, steps[0], a);
      BudgetFixedOnRun(Apply(db, steps[0]), steps[1..], a);
    }
  }

  /** From a reading of the window until its oldest charge ages out, the window sum never drops
      below what was read, whatever is charged or pruned. */
  lemma WindowStaysAsRead(db: Db, steps: seq<Step>, a: AgentKey, resumeAt: Time)
    requires WindowStart(db.ledger, a, db.now) == Some(resumeAt - HOUR)
    requires Run(db, steps).now < resumeAt
    ensures var end := Run(db, steps);
      WindowSum(end.ledger, a, end.now) >= WindowSum(db.ledger, a, db.now)
  {
    hide Run, Apply, WindowSum, WindowStart;
    var end, until := Run(db, steps), resumeAt - 1;
    EmptyWindow(db.ledger, a, db.now);
    WindowSurvivesRun(db, steps, a, until);
    WindowHeldUntilStartExpires(db.ledger, a, db.now, until);
    EarlierWindowIsWider(end.ledger, a, end.now, until);
  }

  /** If that was at least the unchanged budget, no recovery of the agent changes anything. */
  lemma WindowBlocksRecovery(db: Db, steps: seq<Step>, a: AgentKey, resumeAt: Time)
    requires a in db.agents && WindowSum(db.ledger, a, db.now) >= db.agents[a].budgetPerHour
    requires WindowStart(db.ledger, a, db.now) == Some(resumeAt - HOUR)
    requires forall s | s in steps :: !RC.ChangesLimit(s, a)
    requires Run(db, steps).now < resumeAt
    ensures var end := Run(db, steps);
      && WindowSum(end.ledger, a, end.now) >= WindowSum(db.ledger, a, db.now)
      && !MayRecover(end, a)
      && forall i | i in end.tasks && end.tasks[i].agent == a :: Apply(end, Recover(i)) == end
  {
    hide Run, Apply, WindowSum, WindowStart;
    var end := Run(db, steps);
    WindowStaysAsRead(db, steps, a, resumeAt);
    BudgetFixedOnRun(db, steps, a);
    forall i | i in end.tasks && end.tasks[i].agent == a
      ensures Apply(end, Recover(i)) == end
    {
      BlockedRecovery(end, i);
    }
  }

  /** Before `until`, on every run that leaves the agent's configuration alone, no recovery resumes
      a task of the agent. */
  ghost predicate NoneRecovered(db: Db, a: AgentKey, until: Time)
  {
    forall steps: seq<Step> |
      (forall s | s in steps :: !RC.ChangesLimit(s, a)) && Run(db, steps).now < until ::
      HoldsBack(Run(db, steps), a)
  }

  ghost predicate HoldsBack(db: Db, a: AgentKey)
  {
    forall i | i in db.tasks && db.tasks[i].agent == a :: Apply(db, Recover(i)) == db
  }

  /** An active agent with a free slot and a task paused for the hour: no recovery resumes anything
      before `until` if and only if the charges that will still be in the window at the last moment
      before it use up the budget. */
  lemma NoneRecoveredIff(db: Db, id: TaskId, until: Time)
    requires id in db.tasks && HourlyPaused(db.tasks[id]) && db.now < until
    requires var a := db.tasks[id].agent;
      a in db.agents && db.agents[a].active && CountOf(db.runtime, a) < db.agents[a].maxConcurrent
    ensures var a := db.tasks[id].agent;
      NoneRecovered(db, a, until) <==> WindowSum(db.ledger, a, until - 1) >= db.agents[a].budgetPerHour
  {
    hide Apply, Run, WindowSum, NoneRecovered, MayRecover;
    var a := db.tasks[id].agent;
    if WindowSum(db.ledger, a, until - 1) >= db.agents[a].budgetPerHour {
      FullWindowHoldsBack(db, a, until);
    } else {
      LastMomentRecovers(db, id, until);
    }
  }

  lemma FullWindowOnRun(db: Db, steps: seq<Step>, a: AgentKey, until: Time)
    requires a in db.agents && WindowSum(db.ledger, a, until - 1) >= db.agents[a].budgetPerHour
    requires (forall s | s in steps :: !RC.ChangesLimit(s, a)) && Run(db, steps).now < until
    ensures !MayRecover(Run(db, steps), a)
  {
    hide Apply, Run, WindowSum;
    var end := Run(db, steps);
    WindowSurvivesRun(db, steps, a, until - 1);
    EarlierWindowIsWider(end.ledger, a, end.now, until - 1);
    BudgetFixedOnRun(db, steps, a);
  }

  lemma FullWindowHoldsBack(db: Db, a: AgentKey, until: Time)
    requires a in db.agents && WindowSum(db.ledger, a, until - 1) >= db.agents[a].budgetPerHour
    ensures NoneRecovered(db, a, until)
  {
    hide Apply, Run, WindowSum, MayRecover;
    forall steps: seq<Step> |
      (forall s | s in steps :: !RC.ChangesLimit(s, a)) && Run(db, steps).now < until
      ensures HoldsBack(Run(db, steps), a)
    {
      var end := Run(db, steps);
      FullWindowOnRun(db, steps, a, until);
      forall i | i in end.tasks && end.tasks[i].agent == a
        ensures Apply(end, Recover(i)) == end
      {
        BlockedRecovery(end, i);
      }
    }
  }

  lemma LastMomentRecovers(db: Db, id: TaskId, until: Time)
    requires id in db.tasks && HourlyPaused(db.tasks[id]) && db.now < until
    requires var a := db.tasks[id].agent;
      && a in db.agents && db.agents[a].active && CountOf(db.runtime, a) < db.agents[a].maxConcurrent
      && WindowSum(db.ledger, a, until - 1) < db.agents[a].budgetPerHour
    ensures !NoneRecovered(db, db.tasks[id].agent, until)
  {
    hide Apply, Run, WindowSum;
    var wait := Tick(until - 1 - db.now);
    SingleRun(db, wait);
    TickResult(db, until - 1 - db.now);
    var end := db.(now := until - 1);
    ResumesPaused(end, id);
    assert !HoldsBack(Run(db, [wait]), db.tasks[id].agent);
  }

  lemma ResumesPaused(db: Db, id: TaskId)
    requires id in db.tasks && HourlyPaused(db.tasks[id]) && MayRecover(db, db.tasks[id].agent)
    ensures var after := Apply(db, Recover(id));
      after == Enact(db, Move(id, Resumed(db.tasks[id]), TaskResumed, Some(Paused), None, false)) && after != db
  {
    hide MayRecover, PollerMove, ExecutorMove, ApiMove;
    assert Resumed(db.tasks[id]).status == Queued;
  }

  /** A recovery pass selects the agent only when one of its pauses is due. */
  ghost predicate Selected(db: Db, a: AgentKey)
  {
    exists i | i in db.tasks :: db.tasks[i].agent == a && PauseDue(db.tasks[i], db.now)
  }

  lemma SelectedIff(db: Db, a: AgentKey)
    ensures Selected(db, a) <==> exists t | t in db.tasks.Values ::
              && t.agent == a && t.status == Paused && t.pauseReason == Some(BudgetPerHour)
              && t.resumeAt.Some? && db.now >= t.resumeAt.value
  {
    if Selected(db, a) {
      var i :| i in db.tasks && db.tasks[i].agent == a && PauseDue(db.tasks[i], db.now);
      assert db.tasks[i] in db.tasks.Values;
    }
  }

  ghost predicate NeverSelected(db: Db, a: AgentKey, until: Time)
  {
    forall steps: seq<Step> |
      (forall s | s in steps :: !RC.ChangesLimit(s, a)) && Run(db, steps).now < until ::
      !(Selected(Run(db, steps), a) && MayRecover(Run(db, steps), a))
  }

  /** With one pause of the agent due, passes too leave its tasks alone until `until` on that very
      condition: the due pause lets a pass select the agent, and the window alone protects the others. */
  lemma NeverSelectedIff(db: Db, due: TaskId, until: Time)
    requires due in db.tasks && PauseDue(db.tasks[due], db.now) && db.now < until
    requires var a := db.tasks[due].agent;
      a in db.agents && db.agents[a].active && CountOf(db.runtime, a) < db.agents[a].maxConcurrent
    ensures var a := db.tasks[due].agent;
      NeverSelected(db, a, until) <==> WindowSum(db.ledger, a, until - 1) >= db.agents[a].budgetPerHour
  {
    hide Apply, Run, WindowSum;
    var a, wait := db.tasks[due].agent, Tick(until - 1 - db.now);
    if WindowSum(db.ledger, a, until - 1) >= db.agents[a].budgetPerHour {
      forall steps: seq<Step> |
        (forall s | s in steps :: !RC.ChangesLimit(s, a)) && Run(db, steps).now < until
        ensures !MayRecover(Run(db, steps), a)
      {
        FullWindowOnRun(db, steps, a, until);
      }
    } else {
      SingleRun(db, wait);
      TickResult(db, until - 1 - db.now);
      var end := Run(db, [wait]);
      assert PauseDue(end.tasks[due], end.now);
      assert Selected(end, a) && MayRecover(end, a);
    }
  }

  /** The agent may be served: active, with a positive limit that its count does not exceed. */
  predicate Serves(db: Db, a: AgentKey)
  {
    a in db.agents && db.agents[a].active && 0 < db.agents[a].maxConcurrent
    && CountOf(db.runtime, a) <= db.agents[a].maxConcurrent
  }

  /** An hourly pause, whatever its resume time: no recovery of the agent before it if and only if
      the charges that the window will still hold just before it use up the budget. */
  lemma PauseHoldsBackIff(db: Db, w: WorkerId, id: TaskId, resumeAt: Time)
    requires Owns(db, w, id) && Serves(db, db.tasks[id].agent) && db.now < resumeAt
    ensures var a := db.tasks[id].agent;
      var held := NoneRecovered(Apply(db, BudgetPause(w, id, BudgetPerHour, Some(resumeAt))), a, resumeAt);
      held <==> WindowSum(db.ledger, a, resumeAt - 1) >= db.agents[a].budgetPerHour
  {
    hide Apply, WindowSum, NoneRecovered;
    PauseResult(db, w, id, resumeAt);
    NoneRecoveredIff(Apply(db, BudgetPause(w, id, BudgetPerHour, Some(resumeAt))), id, resumeAt);
  }

  lemma PauseResult(db: Db, w: WorkerId, id: TaskId, resumeAt: Time)
    requires Owns(db, w, id)
    ensures var p := Apply(db, BudgetPause(w, id, BudgetPerHour, Some(resumeAt))); var a := db.tasks[id].agent;
      && p.tasks == db.tasks[id := PausedFor(db.tasks[id], BudgetPerHour, Some(resumeAt))]
      && p.now == db.now && p.ledger == db.ledger && p.agents == db.agents
      && CountOf(p.runtime, a) == Max(CountOf(db.runtime, a) - 1, 0)
  {
    hide PollerMove, ReaperMove, ApiMove, Quiet;
  }

  /** Paused at the moment its resume time was computed, with `WindowStart` the oldest charge: that
      is so if and only if the window then still used up the budget. */
  lemma PromptPauseHoldsBackIff(db: Db, w: WorkerId, id: TaskId, resumeAt: Time)
    requires Owns(db, w, id) && Serves(db, db.tasks[id].agent)
    requires WindowStart(db.ledger, db.tasks[id].agent, db.now) == Some(resumeAt - HOUR)
    ensures var a := db.tasks[id].agent;
      var held := NoneRecovered(Apply(db, BudgetPause(w, id, BudgetPerHour, Some(resumeAt))), a, resumeAt);
      held <==> WindowSum(db.ledger, a, db.now) >= db.agents[a].budgetPerHour
  {
    hide Apply, WindowSum, WindowStart, NoneRecovered;
    var a := db.tasks[id].agent;
    EmptyWindow(db.ledger, a, db.now);
    PauseHoldsBackIff(db, w, id, resumeAt);
    WindowHeldUntilStartExpires(db.ledger, a, db.now, resumeAt - 1);
    EarlierWindowIsWider(db.ledger, a, db.now, resumeAt - 1);
  }

  /** An hourly pause whose resume time was computed from the window as read in `db`, with any
      steps of anybody between the reading and the pause. If the reading still saw the budget used
      up, no recovery of the agent resumes anything before the resume time; in general that is so
      if and only if the charges left in the window at its last moment use up the budget. */
  lemma NoRecoveryBeforeResumeTime(db: Db, between: seq<Step>, w: WorkerId, id: TaskId, resumeAt: Time)
    requires Owns(Run(db, between), w, id) && Run(db, between).now < resumeAt
    requires var a := Run(db, between).tasks[id].agent;
      && a in db.agents && WindowStart(db.ledger, a, db.now) == Some(resumeAt - HOUR)
      && forall s | s in between :: !RC.ChangesLimit(s, a)
    ensures var mid := Run(db, between); var a := mid.tasks[id].agent;
      var paused := Apply(mid, BudgetPause(w, id, BudgetPerHour, Some(resumeAt)));
      var held, budget := NoneRecovered(paused, a, resumeAt), db.agents[a].budgetPerHour;
      && id in paused.tasks && HourlyPaused(paused.tasks[id]) && paused.tasks[id].resumeAt == Some(resumeAt)
      && (WindowSum(db.ledger, a, db.now) >= budget ==> held)
      && (Serves(mid, a) ==> (held <==> WindowSum(mid.ledger, a, resumeAt - 1) >= budget))
  {
    hide Run, Apply, WindowSum, WindowStart, NoneRecovered;
    var mid := Run(db, between);
    var a := mid.tasks[id].agent;
    PauseResult(mid, w, id, resumeAt);
    BudgetFixedOnRun(db, between, a);
    if Serves(mid, a) {
      PauseHoldsBackIff(mid, w, id, resumeAt);
    }
    if WindowSum(db.ledger, a, db.now) >= db.agents[a].budgetPerHour {
      WindowSurvivesRun(db, between, a, resumeAt - 1);
      WindowHeldUntilStartExpires(db.ledger, a, db.now, resumeAt - 1);
      FullWindowHoldsBack(Apply(mid, BudgetPause(w, id, BudgetPerHour, Some(resumeAt))), a, resumeAt);
    }
  }

  lemma BlockedRecovery(db: Db, id: TaskId)
    requires id in db.tasks && !MayRecover(db, db.tasks[id].agent)
    ensures Apply(db, Recover(id)) == db
  {
    hide MayRecover, Enact, Prepared, Finished, PollerMove, ExecutorMove, ApiMove;
  }

  /** After the reconciliation of costs the cached hourly cost is the true window sum, for
      every agent that has a runtime row. */
  lemma ReconcileRestoresHourCost(db: Db, a: AgentKey)
    requires a in db.runtime
    ensures var end := Apply(Apply(db, ReconcileCosts), ZeroCosts);
      a in end.runtime && end.runtime[a].hourCost == WindowSum(db.ledger, a, db.now)
  {
    hide WindowSum, PollerMove, ExecutorMove, ApiMove;
    if !SpentThisHour(db.ledger, a, db.now) {
      SilentHour(db.ledger, a, db.now);
    }
  }

  lemma {:induction false} SilentHour(ledger: seq<Charge>, a: AgentKey, now: Time)
    requires forall c | c in ledger :: !InWindow(c, a, now)
    ensures WindowSum(ledger, a, now) == 0
  {
    if ledger == [] {
    } else {
      SilentHour(ledger[..|ledger| - 1], a, now);
    }
  }
}
