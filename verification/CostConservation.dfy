/** Checkpoint costs against everything ever billed to a task. */
module CostConservation {
  import opened Tables
  import opened Ledger
  import opened Lifecycle
  import opened Invariants
  import C = Checkpoints
  import L = CheckpointListing
  import W = PendingWrites

  /** Billed to the task, pruned or not, but not carried by any of its checkpoints. */
  function Gap(db: Db, id: TaskId): int
  {
    TaskSum(db.billed, id) - C.TaskCost(db.checkpoints, id)
  }

  /** How a step changes the gap: what it bills to the task, less what its cost update adds to the
      matching rows of the task. */
  ghost function GapChange(db: Db, step: Step, id: TaskId): int
  {
    match step
    case StepCost(w, i, checkpoint, cost) =>
      if i == id && HoldsLease(db, w, i)
      then cost + C.MatchCost(db.checkpoints, i, checkpoint) - C.MatchCount(db.checkpoints, i, checkpoint) * cost
      else 0
    case SupervisorCost(w, i, checkpoint, cost) =>
      if i == id && HoldsLease(db, w, i) then cost - C.MatchCount(db.checkpoints, i, checkpoint) * cost else 0
    case Complete(w, i, note) =>
      if i == id && MoveOf(db, step).Some? && note.Memory? && note.checkpoint.Some?
      then NoteCost(note) - C.MatchCount(db.checkpoints, i, note.checkpoint.value) * NoteCost(note)
      else 0
    case Abandon(w, i, reason, note) =>
      if i == id && MoveOf(db, step).Some? && note.Memory? && note.checkpoint.Some? && note.embedding.Some?
      then note.embedding.value else 0
    case SandboxCharge(i, cost) => if i == id && i in db.tasks then cost else 0
    case SandboxMirror(i, cost, checkpoint) =>
      if C.IsLatest(db.checkpoints, i, true, checkpoint)
      then 0 - C.MatchCount(db.checkpoints, id, checkpoint) * cost else 0
    case CompactionCharge(i, ref, cost, turn) =>
      if i == id && i in db.tasks
         && Accepts(db.ledger, Charge(db.tasks[i].agent, i, ref, cost, CompactionTier3, turn, db.now))
      then cost else 0
    case _ => 0
  }

  /** Exactly one row of the task carries the checkpoint id. */
  predicate OneRow(db: Db, id: TaskId, checkpoint: CheckpointId)
  {
    C.MatchCount(db.checkpoints, id, checkpoint) == 1
  }

  /** Every cost update meets exactly one row, and an overwrite meets a row that carries nothing
      yet. Checkpoint ids are unique across tasks where the sandbox mirror looks them up. */
  predicate Clean(db: Db, step: Step, id: TaskId)
  {
    match step
    case StepCost(w, i, checkpoint, cost) =>
      i == id ==> OneRow(db, id, checkpoint) && C.MatchCost(db.checkpoints, id, checkpoint) == 0
    case SupervisorCost(w, i, checkpoint, cost) => i == id ==> OneRow(db, id, checkpoint)
    case Complete(w, i, note) =>
      i == id && note.Memory? && note.checkpoint.Some? ==> OneRow(db, id, note.checkpoint.value)
    case SandboxMirror(i, cost, checkpoint) =>
      if i == id then OneRow(db, id, checkpoint) else C.MatchCount(db.checkpoints, id, checkpoint) == 0
    case _ => true
  }

  /** The kinds of cost that live in the ledger only, less the sandbox costs mirrored. */
  ghost function LedgerOnly(db: Db, step: Step, id: TaskId): int
  {
    match step
    case SandboxCharge(i, cost) => GapChange(db, step, id)
    case SandboxMirror(i, cost, checkpoint) =>
      if i == id && C.IsLatest(db.checkpoints, i, true, checkpoint) then 0 - cost else 0
    case CompactionCharge(i, ref, cost, turn) => GapChange(db, step, id)
    case Abandon(w, i, reason, note) => GapChange(db, step, id)
    case _ => 0
  }

  /** On a clean step only the ledger-only kinds move the gap. */
  lemma CleanStepsAreLedgerOnly(db: Db, step: Step, id: TaskId)
    requires Clean(db, step, id)
    ensures GapChange(db, step, id) == LedgerOnly(db, step, id)
  {
    hide MoveOf, C.IsLatest, Accepts, C.MatchCount, C.MatchCost;
  }

  lemma BilledTotals(db: Db, c: Charge, id: TaskId)
    ensures TaskSum(Billed(db, c).billed, id)
         == TaskSum(db.billed, id) + if Accepts(db.ledger, c) && c.task == id then c.cost else 0
    ensures Billed(db, c).checkpoints == db.checkpoints && Billed(db, c).tasks == db.tasks
    ensures c.op == ModelTokenSpend ==> Accepts(db.ledger, c)
  {
    assert (db.billed + [c])[..|db.billed|] == db.billed;
  }

  lemma NotedCost(db: Db, w: WorkerId, i: TaskId, note: MemoryNote, completed: bool, id: TaskId)
    requires i in db.tasks
    ensures var after := Noted(db, w, i, note, completed);
      if note.NoMemory? || note.checkpoint.None? || i != id then Gap(after, id) == Gap(db, id)
      else if !completed then
        Gap(after, id) == Gap(db, id) + if note.embedding.Some? then note.embedding.value else 0
      else
        Gap(after, id) == Gap(db, id) + NoteCost(note)
                          - C.MatchCount(db.checkpoints, id, note.checkpoint.value) * NoteCost(note)
  {
    hide Billed, Accepts, TaskSum, HourCostAdded, C.AddCost, C.TaskCost, C.MatchCount;
    if note.Memory? && note.checkpoint.Some? {
      var marked := db.(events := db.events + [Event(i, MemoryWritten, None, None, Some(w))]);
      var ref := AtCheckpoint(note.checkpoint.value);
      var first := if completed then Summarized(marked, i, ref, note.summarizer) else marked;
      BilledTotals(marked, SpendOf(marked, i, ref, note.summarizer), id);
      if note.embedding.Some? {
        BilledTotals(first, SpendOf(first, i, ref, note.embedding.value), id);
      }
      C.AddCostTotals(db.checkpoints, i, note.checkpoint.value, NoteCost(note), id);
    }
  }

  lemma FinishedCost(db: Db, step: Step, m: Move, id: TaskId)
    ensures Gap(Finished(Enact(db, m), step), id) == Gap(db, id)
  {
  }

  lemma PreparedCost(db: Db, step: Step, id: TaskId)
    requires MoveOf(db, step).Some?
    ensures Gap(Prepared(db, step), id) == Gap(db, id) + GapChange(db, step, id)
  {
    hide MoveOf, Noted, Gap, EnsureRuntime, C.MatchCount, C.MatchCost;
    if step.Complete? {
      MarkedTaskExists(db, step);
      NotedCost(db, step.worker, step.id, step.note, true, id);
    } else if step.Abandon? {
      MarkedTaskExists(db, step);
      NotedCost(db, step.worker, step.id, step.note, false, id);
    } else if step.ClaimTask? {
      EnsuredGap(db, step.pool, step.tenant, id);
    } else {
      MovesBillNothing(db, step, id);
    }
  }

  lemma EnsuredGap(db: Db, pool: PoolId, tenant: nat, id: TaskId)
    ensures Gap(EnsureRuntime(db, pool, tenant), id) == Gap(db, id)
  {
  }

  lemma MovesBillNothing(db: Db, step: Step, id: TaskId)
    requires MoveOf(db, step).Some? && !step.Abandon? && !step.Complete?
    ensures GapChange(db, step, id) == 0
  {
    hide C.MatchCount, C.MatchCost, C.IsLatest, Accepts;
  }

  lemma StepChargedCost(db: Db, i: TaskId, checkpoint: CheckpointId, cost: nat, id: TaskId)
    requires i in db.tasks
    ensures var after := StepCharged(db, i, checkpoint, cost);
      && TaskSum(after.billed, id) == TaskSum(db.billed, id) + (if i == id then cost else 0)
      && after.checkpoints == db.checkpoints
  {
    BilledTotals(db, SpendOf(db, i, AtCheckpoint(checkpoint), cost), id);
  }

  lemma ChargedStepCost(db: Db, step: Step, id: TaskId)
    requires step.StepCost? || step.SupervisorCost?
    ensures Gap(ExecutorQuiet(db, step), id) == Gap(db, id) + GapChange(db, step, id)
  {
    hide StepCharged, TaskSum, C.SetCost, C.AddCost, C.TaskCost, C.MatchCount, C.MatchCost;
    if step.id in db.tasks {
      StepChargedCost(db, step.id, step.checkpoint, step.cost, id);
    }
    if step.StepCost? {
      C.SetCostTotals(db.checkpoints, step.id, step.checkpoint, step.cost, id);
    } else {
      C.AddCostTotals(db.checkpoints, step.id, step.checkpoint, step.cost, id);
    }
  }

  lemma SandboxCost(db: Db, step: Step, id: TaskId)
    requires step.SandboxCharge? || step.SandboxMirror? || step.CompactionCharge?
    ensures Gap(ExecutorQuiet(db, step), id) == Gap(db, id) + GapChange(db, step, id)
  {
    hide Billed, Accepts, TaskSum, C.MirrorCost, C.TaskCost, C.MatchCount, C.MatchCost, C.IsLatest;
    match step
    case SandboxCharge(i, cost) =>
      if i in db.tasks { BilledTotals(db, SpendOf(db, i, AtSandbox, cost), id); }
    case SandboxMirror(i, cost, checkpoint) =>
      C.MirrorCostTotals(db.checkpoints, checkpoint, cost, id);
    case CompactionCharge(i, ref, cost, turn) =>
      if i in db.tasks {
        BilledTotals(db, Charge(db.tasks[i].agent, i, ref, cost, CompactionTier3, turn, db.now), id);
      }
  }

  lemma ExecutorCost(db: Db, step: Step, id: TaskId)
    requires MoveOf(db, step).None?
    ensures Gap(ExecutorQuiet(db, step), id) == Gap(db, id) + GapChange(db, step, id)
  {
    hide MoveOf, HoldsLease, StepCharged, Billed, Accepts, TaskSum, NoteCost, C.Upsert, C.SetCost, C.AddCost,
         C.MirrorCost, C.TaskCost, C.MatchCount, C.MatchCost, C.IsLatest, W.Put;
    if step.StepCost? || step.SupervisorCost? {
      ChargedStepCost(db, step, id);
    } else if step.SandboxCharge? || step.SandboxMirror? || step.CompactionCharge? {
      SandboxCost(db, step, id);
    } else if step.PutCheckpoint? {
      var row := step.row.(task := step.id, worker := step.worker, cost := 0, createdAt := db.now);
      C.UpsertKeepsCosts(db.checkpoints, row, id);
    }
  }

  lemma OtherQuietCost(db: Db, step: Step, id: TaskId)
    ensures Actor(step) != Executor ==> GapChange(db, step, id) == 0
    ensures Gap(PollerQuiet(db, step), id) == Gap(db, id)
    ensures Gap(ReaperQuiet(db, step), id) == Gap(db, id)
    ensures Gap(ApiQuiet(db, step), id) == Gap(db, id)
  {
    hide MoveOf, Eligible, Pruned, WindowSum, SpentThisHour, RunningSet, TaskSum, C.TaskCost;
  }

  /** The exact effect of every step on the gap between what was billed and what the checkpoints
      carry. */
  lemma GapAfter(db: Db, step: Step, id: TaskId)
    ensures Gap(Apply(db, step), id) == Gap(db, id) + GapChange(db, step, id)
  {
    hide MoveOf, PollerQuiet, ExecutorQuiet, ReaperQuiet, ApiQuiet, Prepared, Enact, Finished, Gap, GapChange;
    if MoveOf(db, step).Some? {
      PreparedCost(db, step, id);
      FinishedCost(Prepared(db, step), step, MoveOf(db, step).value, id);
    } else {
      OtherQuietCost(db, step, id);
      ExecutorCost(db, step, id);
    }
  }

  /** The memory branch of a terminal transaction charges the newest checkpoint of the root namespace,
      and no checkpoint only if there is none. */
  lemma MemoryChargesRootCheckpoint(db: Db, step: Step)
    requires (step.Complete? || step.Abandon?) && step.note.Memory? && MoveOf(db, step).Some?
    ensures var roots := set r | r in db.checkpoints && r.task == step.id && r.ns == 0;
      if step.note.checkpoint.None? then roots == {}
      else exists r :: r in roots && r.id == step.note.checkpoint.value
             && forall s | s in roots :: s.createdAt <= r.createdAt
  {
    hide PollerMove, ReaperMove, ApiMove;
    assert NoteFits(db, step.id, step.note);
  }

  // ---- The ledger, charge by charge --------------------------------------------------------------

  /** The charges a step adds. Step costs and memory costs are charged to their checkpoint, a sandbox
      to the task, a compaction to the reference it was given unless its turn is charged already; a
      summarizer that cost nothing is not charged, and a dead letter charges its embedding only. */
  ghost function Charges(db: Db, step: Step): seq<Charge>
  {
    match step
    case StepCost(w, id, checkpoint, cost) =>
      if HoldsLease(db, w, id)
      then [Charge(db.tasks[id].agent, id, AtCheckpoint(checkpoint), cost, ModelTokenSpend, None, db.now)] else []
    case SupervisorCost(w, id, checkpoint, cost) =>
      if HoldsLease(db, w, id)
      then [Charge(db.tasks[id].agent, id, AtCheckpoint(checkpoint), cost, ModelTokenSpend, None, db.now)] else []
    case Complete(w, id, note) =>
      if HoldsLease(db, w, id) && NoteFits(db, id, note) && note.Memory? && note.checkpoint.Some?
      then MemoryCharges(db, id, note, note.summarizer) else []
    case Abandon(w, id, reason, note) =>
      if HoldsLease(db, w, id) && NoteFits(db, id, note) && note.Memory? && note.checkpoint.Some?
      then MemoryCharges(db, id, note, 0) else []
    case SandboxCharge(id, cost) =>
      if id in db.tasks then [Charge(db.tasks[id].agent, id, AtSandbox, cost, ModelTokenSpend, None, db.now)] else []
    case CompactionCharge(id, ref, cost, turn) =>
      if id in db.tasks && !(turn.Some? && exists d | d in db.ledger ::
             d.op == CompactionTier3 && d.turn == turn && d.ref == ref && d.task == id
             && d.agent.tenant == db.tasks[id].agent.tenant)
      then [Charge(db.tasks[id].agent, id, ref, cost, CompactionTier3, turn, db.now)] else []
    case _ => []
  }

  function MemoryCharges(db: Db, id: TaskId, note: MemoryNote, summarizer: nat): seq<Charge>
    requires id in db.tasks && note.Memory? && note.checkpoint.Some?
  {
    var a, ref := db.tasks[id].agent, AtCheckpoint(note.checkpoint.value);
    (if summarizer > 0 then [Charge(a, id, ref, summarizer, ModelTokenSpend, None, db.now)] else [])
    + (if note.embedding.Some? then [Charge(a, id, ref, note.embedding.value, ModelTokenSpend, None, db.now)] else [])
  }

  lemma NotedCharges(db: Db, w: WorkerId, id: TaskId, note: MemoryNote, completed: bool)
    requires id in db.tasks
    ensures Noted(db, w, id, note, completed).ledger == db.ledger +
              if note.Memory? && note.checkpoint.Some?
              then MemoryCharges(db, id, note, if completed then note.summarizer else 0) else []
  {
    hide C.AddCost, HourCostAdded, Accepts;
    if note.Memory? && note.checkpoint.Some? {
      var ref := AtCheckpoint(note.checkpoint.value);
      SpendIsAccepted(db.ledger, SpendOf(db, id, ref, note.summarizer));
      var spend := SpendOf(db, id, ref, note.summarizer);
      var first := if completed && note.summarizer > 0 then db.ledger + [spend] else db.ledger;
      if note.embedding.Some? {
        SpendIsAccepted(first, SpendOf(db, id, ref, note.embedding.value));
      }
    }
  }

  lemma SpendIsAccepted(ledger: seq<Charge>, c: Charge)
    ensures c.op == ModelTokenSpend ==> Accepts(ledger, c)
  {
  }

  lemma MoveCharges(db: Db, step: Step)
    requires MoveOf(db, step).Some?
    ensures Apply(db, step).ledger == db.ledger + Charges(db, step)
  {
    hide MoveOf, Noted, NoteFits, HoldsLease, Quiet, QueuedAgents, MemoryCharges;
    MoversHold(db, step);
    assert db.ledger + [] == db.ledger;
    if step.Complete? {
      NotedCharges(db, step.worker, step.id, step.note, true);
    } else if step.Abandon? {
      NotedCharges(db, step.worker, step.id, step.note, false);
    }
  }

  /** Which of the charging steps move a task, and when. */
  lemma MoversHold(db: Db, step: Step)
    ensures step.StepCost? || step.SupervisorCost? || step.SandboxCharge? || step.CompactionCharge? ==>
              MoveOf(db, step).None?
    ensures step.Complete? || step.Abandon? ==>
              (MoveOf(db, step).Some? <==> HoldsLease(db, step.worker, step.id) && NoteFits(db, step.id, step.note))
    ensures (step.Complete? || step.Abandon?) && MoveOf(db, step).Some? ==> step.id in db.tasks
  {
    hide PollerMove, ReaperMove, ApiMove, NoteFits;
  }

  lemma ExecutorCharges(db: Db, step: Step)
    requires MoveOf(db, step).None?
    ensures ExecutorQuiet(db, step).ledger == db.ledger + Charges(db, step)
  {
    hide MoveOf, NoteFits, HourCostAdded, C.Upsert, C.SetCost, C.AddCost, C.MirrorCost, C.IsLatest, W.Put;
    MoversHold(db, step);
    assert db.ledger + [] == db.ledger;
  }

  lemma OtherCharges(db: Db, step: Step)
    ensures Actor(step) != Executor ==> Charges(db, step) == []
    ensures PollerQuiet(db, step).ledger == db.ledger && ApiQuiet(db, step).ledger == db.ledger
    ensures ReaperQuiet(db, step).ledger == if step.Prune? then Pruned(db.ledger, db.now) else db.ledger
  {
    hide WindowSum, SpentThisHour, RunningSet, Eligible, QueuedAgents, Pruned, NoteFits, HoldsLease;
  }

  /** The ledger after every step, row by row. */
  lemma LedgerAfter(db: Db, step: Step)
    ensures Apply(db, step).ledger == if step.Prune? then Pruned(db.ledger, db.now) else db.ledger + Charges(db, step)
  {
    hide MoveOf, PollerQuiet, ExecutorQuiet, ReaperQuiet, ApiQuiet, Prepared, Enact, Finished, Charges, Pruned;
    OtherCharges(db, step);
    if MoveOf(db, step).Some? {
      PruneMovesNothing(db, step);
      MoveCharges(db, step);
    } else {
      ExecutorCharges(db, step);
      assert db.ledger + [] == db.ledger;
    }
  }

  lemma PruneMovesNothing(db: Db, step: Step)
    ensures step.Prune? ==> MoveOf(db, step).None?
  {
    hide PollerMove, ExecutorMove, ApiMove;
  }

  ghost function GapTotal(db: Db, steps: seq<Step>, id: TaskId): int
    decreases |steps|
  {
    if steps == [] then 0
    else GapChange(db, steps[0], id) + GapTotal(Apply(db, steps[0]), steps[1..], id)
  }

  lemma {:induction false} GapOnRuns(db: Db, steps: seq<Step>, id: TaskId)
    ensures Gap(Run(db, steps), id) == Gap(db, id) + GapTotal(db, steps, id)
    decreases |steps|
  {
    hide Apply, Gap, GapChange;
    if steps == [] {
    } else {
      GapAfter(db, steps[0], id);
      GapOnRuns(Apply(db, steps[0]), steps[1..], id);
    }
  }

  ghost predicate CleanRun(db: Db, steps: seq<Step>, id: TaskId)
    decreases |steps|
  {
    steps == [] || (Clean(db, steps[0], id) && CleanRun(Apply(db, steps[0]), steps[1..], id))
  }

  ghost function LedgerOnlyTotal(db: Db, steps: seq<Step>, id: TaskId): int
    decreases |steps|
  {
    if steps == [] then 0
    else LedgerOnly(db, steps[0], id) + LedgerOnlyTotal(Apply(db, steps[0]), steps[1..], id)
  }

  lemma {:induction false} CleanRunsAreLedgerOnly(db: Db, steps: seq<Step>, id: TaskId)
    requires CleanRun(db, steps, id)
    ensures GapTotal(db, steps, id) == LedgerOnlyTotal(db, steps, id)
    decreases |steps|
  {
    hide Apply, GapChange, LedgerOnly, Clean;
    if steps == [] {
    } else {
      CleanStepsAreLedgerOnly(db, steps[0], id);
      CleanRunsAreLedgerOnly(Apply(db, steps[0]), steps[1..], id);
    }
  }

  /** On every run from a fresh database, a task's checkpoints carry everything ever billed to it less
      the changes of the gap on the way, however often the ledger was pruned. */
  lemma BilledLessGapIsCarried(start: Db, steps: seq<Step>, id: TaskId)
    requires Initial(start)
    ensures var db := Run(start, steps);
      C.TaskCost(db.checkpoints, id) == TaskSum(db.billed, id) - GapTotal(start, steps, id)
  {
    hide Apply, GapTotal, Run;
    GapOnRuns(start, steps, id);
  }

  /** On every clean run from a fresh database, that is everything but the ledger-only kinds. */
  lemma CheckpointsCarryWhatWasBilled(start: Db, steps: seq<Step>, id: TaskId)
    requires Initial(start) && CleanRun(start, steps, id)
    ensures var db := Run(start, steps);
      C.TaskCost(db.checkpoints, id) == TaskSum(db.billed, id) - LedgerOnlyTotal(start, steps, id)
  {
    hide Apply, LedgerOnlyTotal, GapTotal, CleanRun, Run;
    BilledLessGapIsCarried(start, steps, id);
    CleanRunsAreLedgerOnly(start, steps, id);
  }

  /** An overwriting step write conserves cost if and only if it does not take effect, or its cost
      together with what the matching rows carried equals its cost once for each of those rows. */
  lemma OverwriteConservesIff(db: Db, w: WorkerId, id: TaskId, checkpoint: CheckpointId, cost: nat)
    ensures var copies := C.MatchCount(db.checkpoints, id, checkpoint) * cost;
      var balanced := cost + C.MatchCost(db.checkpoints, id, checkpoint) == copies;
      Gap(Apply(db, StepCost(w, id, checkpoint, cost)), id) == Gap(db, id) <==> !HoldsLease(db, w, id) || balanced
  {
    hide Apply, MoveOf, Gap, C.MatchCost, C.MatchCount;
    GapAfter(db, StepCost(w, id, checkpoint, cost), id);
  }

  /** For a write of the lease holder: with no matching row nothing may be charged, a single row must
      carry nothing yet, and several rows that carry nothing conserve only a cost of zero. */
  lemma OverwriteCases(db: Db, w: WorkerId, id: TaskId, checkpoint: CheckpointId, cost: nat)
    requires HoldsLease(db, w, id)
    ensures var k, carried := C.MatchCount(db.checkpoints, id, checkpoint), C.MatchCost(db.checkpoints, id, checkpoint);
      var conserved := Gap(Apply(db, StepCost(w, id, checkpoint, cost)), id) == Gap(db, id);
      && (k == 0 ==> (conserved <==> cost == 0))
      && (k == 1 ==> (conserved <==> carried == 0))
      && (k >= 2 && carried == 0 ==> (conserved <==> cost == 0))
  {
    hide Apply, MoveOf, Gap;
    OverwriteConservesIff(db, w, id, checkpoint, cost);
    NoRowsNoCost(db.checkpoints, id, checkpoint);
    CopiesExceed(C.MatchCount(db.checkpoints, id, checkpoint), cost);
  }

  lemma {:induction false} NoRowsNoCost(rows: seq<C.Row>, id: TaskId, checkpoint: CheckpointId)
    ensures C.MatchCount(rows, id, checkpoint) == 0 ==> C.MatchCost(rows, id, checkpoint) == 0
  {
    if rows == [] {
    } else {
      NoRowsNoCost(rows[..|rows| - 1], id, checkpoint);
    }
  }

  lemma CopiesExceed(k: nat, cost: nat)
    ensures k == 0 ==> k * cost == 0
    ensures k == 1 ==> k * cost == cost
    ensures k >= 2 && cost > 0 ==> k * cost > cost
    ensures cost == 0 ==> k * cost == 0
  {
    if k >= 2 && cost > 0 {
      assert k * cost == cost + (k - 1) * cost;
      assert (k - 1) * cost >= 1 * cost;
    }
  }

  /** The additive supervisor write conserves cost if and only if it does not take effect, is zero, or
      meets exactly one row, whatever that row carried. */
  lemma AdditiveWriteConserves(db: Db, w: WorkerId, id: TaskId, checkpoint: CheckpointId, cost: nat)
    ensures Gap(Apply(db, SupervisorCost(w, id, checkpoint, cost)), id) == Gap(db, id)
       <==> !HoldsLease(db, w, id) || cost == 0 || OneRow(db, id, checkpoint)
  {
    hide Apply, MoveOf, Gap, C.MatchCount;
    GapAfter(db, SupervisorCost(w, id, checkpoint, cost), id);
    CopiesExceed(C.MatchCount(db.checkpoints, id, checkpoint), cost);
  }

  // ---- What the callers do -----------------------------------------------------------------------

  /** Both callers read the task's latest checkpoint and then write to it. Whatever happens in
      between, the write meets at least one row. */
  lemma ReadCheckpointStaysMatched(db: Db, steps: seq<Step>, id: TaskId, checkpoint: CheckpointId)
    requires C.IsLatest(db.checkpoints, id, false, checkpoint)
    ensures C.MatchCount(Run(db, steps).checkpoints, id, checkpoint) >= 1
  {
    hide Run, C.MatchCount;
    var rows, after := db.checkpoints, Run(db, steps).checkpoints;
    L.CheckpointsNeverVanish(db, steps);
    var r :| r in rows && r.task == id && r.id == checkpoint;
    var i :| 0 <= i < |rows| && rows[i] == r;
    assert C.SameKey(rows[i], after[i]) && after[i] in after;
    assert C.Matches(after[i], id, checkpoint);
    C.MatchedIffPresent(after, id, checkpoint);
  }

  /** So for the calls the program makes, an overwrite conserves cost if and only if what the matching
      rows carried is its cost once for each row beyond the first: nothing, for a single row. */
  lemma CallerOverwriteConservesIff(
    db: Db, between: seq<Step>, w: WorkerId, id: TaskId, checkpoint: CheckpointId, cost: nat)
    requires C.IsLatest(db.checkpoints, id, false, checkpoint) && HoldsLease(Run(db, between), w, id)
    ensures var mid := Run(db, between);
      var k, carried := C.MatchCount(mid.checkpoints, id, checkpoint), C.MatchCost(mid.checkpoints, id, checkpoint);
      k >= 1 && (Gap(Apply(mid, StepCost(w, id, checkpoint, cost)), id) == Gap(mid, id) <==> carried == (k - 1) * cost)
  {
    hide Run, Apply, Gap, C.MatchCount, C.MatchCost;
    ReadCheckpointStaysMatched(db, between, id, checkpoint);
    OverwriteConservesIff(Run(db, between), w, id, checkpoint, cost);
    C.MulSucc(C.MatchCount(Run(db, between).checkpoints, id, checkpoint) - 1, cost);
  }

  function Total(costs: seq<nat>): nat
  {
    if costs == [] then 0 else Total(costs[..|costs| - 1]) + costs[|costs| - 1]
  }

  /** The cost loop of one event: one overwrite for each message that cost something, each on the
      checkpoint that is latest at that moment. */
  function EventWrites(w: WorkerId, id: TaskId, checkpoint: CheckpointId, costs: seq<nat>): seq<Step>
  {
    if costs == [] then []
    else EventWrites(w, id, checkpoint, costs[..|costs| - 1]) + [StepCost(w, id, checkpoint, costs[|costs| - 1])]
  }

  lemma StepCostResult(db: Db, w: WorkerId, id: TaskId, checkpoint: CheckpointId, cost: nat)
    requires HoldsLease(db, w, id)
    ensures var after := Apply(db, StepCost(w, id, checkpoint, cost));
      after.tasks == db.tasks && after.checkpoints == C.SetCost(db.checkpoints, id, checkpoint, cost)
  {
    hide PollerMove, ReaperMove, ApiMove, PollerQuiet, ReaperQuiet, ApiQuiet, C.SetCost, Accepts;
  }

  /** The writes of an event bill every cost, and the rows end up with the last one: the costs before
      it, and whatever the rows carried, are lost. The checkpoint read stays the latest throughout. */
  lemma {:induction false} EventKeepsLastCost(
    db: Db, w: WorkerId, id: TaskId, checkpoint: CheckpointId, costs: seq<nat>)
    requires HoldsLease(db, w, id) && costs != []
    ensures var end := Run(db, EventWrites(w, id, checkpoint, costs));
      var k, carried := C.MatchCount(db.checkpoints, id, checkpoint), C.MatchCost(db.checkpoints, id, checkpoint);
      && HoldsLease(end, w, id) && C.MatchCount(end.checkpoints, id, checkpoint) == k
      && C.MatchCost(end.checkpoints, id, checkpoint) == k * costs[|costs| - 1]
      && (C.IsLatest(db.checkpoints, id, false, checkpoint) ==> C.IsLatest(end.checkpoints, id, false, checkpoint))
      && Gap(end, id) == Gap(db, id) + Total(costs) + carried - k * costs[|costs| - 1]
    decreases |costs|
  {
    hide Run, Apply, Gap, C.MatchCount, C.MatchCost, C.SetCost, C.IsLatest;
    var n := |costs| - 1;
    var init := EventWrites(w, id, checkpoint, costs[..n]);
    var last := StepCost(w, id, checkpoint, costs[n]);
    var mid := Run(db, init);
    RunConcat(db, init, [last]);
    SingleRun(mid, last);
    if n == 0 {
      EmptyRun(db);
    } else {
      EventKeepsLastCost(db, w, id, checkpoint, costs[..n]);
    }
    StepCostResult(mid, w, id, checkpoint, costs[n]);
    GapAfter(mid, last, id);
    C.SetCostMatches(mid.checkpoints, id, checkpoint, costs[n]);
    if C.IsLatest(mid.checkpoints, id, false, checkpoint) {
      C.SetCostKeepsLatest(mid.checkpoints, id, checkpoint, costs[n], false, checkpoint);
    }
  }

  /** An event whose messages all cost something conserves cost on a single row if and only if there
      is one such message and the row carried nothing yet. */
  lemma EventConservesIff(db: Db, w: WorkerId, id: TaskId, checkpoint: CheckpointId, costs: seq<nat>)
    requires HoldsLease(db, w, id) && OneRow(db, id, checkpoint)
    requires costs != [] && forall c | c in costs :: c > 0
    ensures var end := Run(db, EventWrites(w, id, checkpoint, costs));
      Gap(end, id) == Gap(db, id) <==> |costs| == 1 && C.MatchCost(db.checkpoints, id, checkpoint) == 0
  {
    hide Run, Gap, C.MatchCost, C.MatchCount;
    EventKeepsLastCost(db, w, id, checkpoint, costs);
    var init := costs[..|costs| - 1];
    if init != [] {
      assert init[|init| - 1] in costs;
    }
  }
}
