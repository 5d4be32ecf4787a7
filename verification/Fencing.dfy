/** Lease fencing over whole runs, per worker id. */
module Fencing {
  import opened Tables
  import opened Ledger
  import opened Lifecycle
  import opened Invariants
  import C = Checkpoints
  import G = CostConservation
  import W = PendingWrites

  /** The steps of worker `w` on task `id` that the lease is meant to gate. */
  predicate GatedStep(step: Step, w: WorkerId, id: TaskId)
  {
    match step
    case Heartbeat(v, i, lease) => v == w && i == id
    case PutCheckpoint(v, i, row) => v == w && i == id
    case PutWrites(v, i, call) => v == w && i == id
    case StepCost(v, i, checkpoint, cost) => v == w && i == id
    case SupervisorCost(v, i, checkpoint, cost) => v == w && i == id
    case Complete(v, i, note) => v == w && i == id
    case Retry(v, i, claim) => v == w && i == id
    case Abandon(v, i, reason, note) => v == w && i == id
    case BudgetPause(v, i, reason, resumeAt) => v == w && i == id
    case Interrupt(v, i, approval) => v == w && i == id
    case _ => false
  }

  predicate ClaimsFor(step: Step, w: WorkerId, id: TaskId)
  {
    step.ClaimTask? && step.worker == w && step.id == id
  }

  /** The run with every gated step of `w` on `id` removed. */
  function Without(steps: seq<Step>, w: WorkerId, id: TaskId): seq<Step>
  {
    if steps == [] then []
    else
      var rest := Without(steps[1..], w, id);
      if GatedStep(steps[0], w, id) then rest else [steps[0]] + rest
  }

  /** A gated step that has any effect runs inside the worker's own lease on a running task. */
  lemma EffectsLandInsideLease(db: Db, step: Step, w: WorkerId, id: TaskId)
    requires Reachable(db)
    requires GatedStep(step, w, id) && Apply(db, step) != db
    ensures HoldsLease(db, w, id)
  {
    LeaseColumnsMeanRunning(db);
  }

  lemma NoOwnerNoEffect(db: Db, step: Step, w: WorkerId, id: TaskId)
    requires GatedStep(step, w, id) && !Owns(db, w, id)
    ensures Apply(db, step) == db
  {
  }

  /** Ownership is gained only by claiming. */
  lemma OwnershipNeedsClaim(db: Db, step: Step, w: WorkerId, id: TaskId)
    requires LeasesAgree(db)
    requires !Owns(db, w, id) && !ClaimsFor(step, w, id)
    ensures !Owns(Apply(db, step), w, id)
  {
    if MoveOf(db, step).Some? {
      MovesAreLegal(db, step);
      MoveEffects(db, step);
      ClaimMove(db, step);
    } else {
      QuietEffects(db, step);
    }
  }

  /** Once worker `w` is not the owner, nothing it still sends for the task matters until it
      claims the task again: the run ends in the same database as the run in which `w` had
      fallen silent, whatever every other worker, reaper and caller does. */
  lemma {:induction false} StaleWorkerIsFenced(db: Db, steps: seq<Step>, w: WorkerId, id: TaskId)
    requires LeasesAgree(db) && !Owns(db, w, id)
    requires forall s | s in steps :: !ClaimsFor(s, w, id)
    ensures Run(db, steps) == Run(db, Without(steps, w, id))
    ensures !Owns(Run(db, steps), w, id)
    decreases |steps|
  {
    if steps == [] {
    } else {
      var after := Apply(db, steps[0]);
      LeasesStayAgreed(db, steps[0]);
      OwnershipNeedsClaim(db, steps[0], w, id);
      StaleWorkerIsFenced(after, steps[1..], w, id);
      if GatedStep(steps[0], w, id) {
        NoOwnerNoEffect(db, steps[0], w, id);
      } else {
        var rest := Without(steps[1..], w, id);
        assert ([steps[0]] + rest)[1..] == rest;
      }
    }
  }

  /** The reaper's and the caller's transitions end the ownership that fencing starts from. */
  lemma LosingTheLeaseEndsOwnership(db: Db, step: Step, w: WorkerId, id: TaskId)
    requires LeasesAgree(db) && Owns(db, w, id)
    requires MoveOf(db, step).Some? && MoveOf(db, step).value.id == id
    ensures !Owns(Apply(db, step), w, id)
  {
    MovesAreLegal(db, step);
    MoveEffects(db, step);
  }

  // ---- Outside the fence --------------------------------------------------------------------------

  /** Sandbox costs charged to the task in the run. */
  function SandboxSpend(steps: seq<Step>, id: TaskId): nat
    decreases |steps|
  {
    if steps == [] then 0
    else (if steps[0].SandboxCharge? && steps[0].id == id then steps[0].cost else 0) + SandboxSpend(steps[1..], id)
  }

  lemma {:induction false} LongerLedgerCostsMore(ledger: seq<Charge>, longer: seq<Charge>, id: TaskId)
    requires ledger <= longer
    ensures TaskSum(ledger, id) <= TaskSum(longer, id)
  {
    if ledger == longer {
    } else {
      assert ledger <= longer[..|longer| - 1];
      LongerLedgerCostsMore(ledger, longer[..|longer| - 1], id);
    }
  }

  lemma MoveBills(db: Db, step: Step)
    requires MoveOf(db, step).Some?
    ensures db.billed <= Apply(db, step).billed && !step.SandboxCharge?
  {
    hide MoveOf, Noted;
    ChargesMoveNothing(db, step);
    if step.Complete? {
      MarkedTaskExists(db, step);
      NotedGrows(db, step.worker, step.id, step.note, true);
    } else if step.Abandon? {
      MarkedTaskExists(db, step);
      NotedGrows(db, step.worker, step.id, step.note, false);
    }
  }

  lemma ChargesMoveNothing(db: Db, step: Step)
    ensures step.SandboxCharge? ==> MoveOf(db, step).None?
  {
    hide PollerMove, ReaperMove, ApiMove;
  }

  lemma ExecutorBills(db: Db, step: Step, id: TaskId)
    requires id in db.tasks
    ensures TaskSum(ExecutorQuiet(db, step).billed, id) >= TaskSum(db.billed, id) + SandboxSpend([step], id)
  {
    hide C.Upsert, C.SetCost, C.AddCost, C.MirrorCost, C.IsLatest, W.Put, TaskSum;
    assert [step][1..] == [];
    if step.SandboxCharge? && step.id == id {
      G.BilledTotals(db, SpendOf(db, id, AtSandbox, step.cost), id);
    } else {
      LongerLedgerCostsMore(db.billed, ExecutorQuiet(db, step).billed, id);
    }
  }

  lemma OthersBillNothing(db: Db, step: Step)
    ensures PollerQuiet(db, step).billed == db.billed
    ensures ReaperQuiet(db, step).billed == db.billed && ApiQuiet(db, step).billed == db.billed
  {
    hide QueuedAgents, SpentThisHour, RunningSet, WindowSum, Pruned;
  }

  lemma StepBills(db: Db, step: Step, id: TaskId)
    requires id in db.tasks
    ensures TaskSum(Apply(db, step).billed, id) >= TaskSum(db.billed, id) + SandboxSpend([step], id)
    ensures id in Apply(db, step).tasks
  {
    hide MoveOf, PollerQuiet, ExecutorQuiet, ReaperQuiet, ApiQuiet, Prepared, Enact, Finished, TaskSum;
    assert [step][1..] == [];
    if MoveOf(db, step).Some? {
      MoveBills(db, step);
      MoveEffects(db, step);
      LongerLedgerCostsMore(db.billed, Apply(db, step).billed, id);
    } else {
      QuietEffects(db, step);
      ExecutorBills(db, step, id);
      OthersBillNothing(db, step);
      OnlyExecutorsCharge(step, id);
    }
  }

  lemma OnlyExecutorsCharge(step: Step, id: TaskId)
    ensures Actor(step) != Executor ==> SandboxSpend([step], id) == 0
  {
  }

  /** Sandbox charges are outside the fence: over any run, whoever owns the task when, all of them
      are billed to it. */
  lemma {:induction false} UngatedChargesAlwaysLand(db: Db, steps: seq<Step>, id: TaskId)
    requires id in db.tasks
    ensures TaskSum(Run(db, steps).billed, id) >= TaskSum(db.billed, id) + SandboxSpend(steps, id)
    decreases |steps|
  {
    hide Apply, TaskSum;
    if steps == [] {
    } else {
      StepBills(db, steps[0], id);
      UngatedChargesAlwaysLand(Apply(db, steps[0]), steps[1..], id);
      assert [steps[0]][1..] == [];
    }
  }
}
