/** The pending-writes table of the running system: which calls reach it, and what they leave. */
module WritesOnRuns {
  import opened Tables
  import opened Lifecycle
  import opened Invariants
  import W = PendingWrites

  /** The calls that reach the table, in order: those sent by the holder of the lease. */
  ghost function LandedCalls(db: Db, steps: seq<Step>): seq<W.Call>
    decreases |steps|
  {
    if steps == [] then []
    else
      var step := steps[0];
      (if step.PutWrites? && HoldsLease(db, step.worker, step.id) then [step.call.(task := step.id)] else [])
      + LandedCalls(Apply(db, step), steps[1..])
  }

  function PutFrom(t: W.Table, calls: seq<W.Call>): W.Table
    decreases |calls|
  {
    if calls == [] then t else PutFrom(W.Put(t, calls[0]), calls[1..])
  }

  lemma WritesAfter(db: Db, step: Step)
    ensures Apply(db, step).writes
         == if step.PutWrites? && HoldsLease(db, step.worker, step.id)
            then W.Put(db.writes, step.call.(task := step.id)) else db.writes
  {
    hide Apply, MoveOf;
    if MoveOf(db, step).Some? {
      MoveEffects(db, step);
      PutWritesMovesNothing(db, step);
    } else {
      QuietWrites(db, step);
    }
  }

  lemma PutWritesMovesNothing(db: Db, step: Step)
    ensures step.PutWrites? ==> MoveOf(db, step).None?
  {
    hide PollerMove, ReaperMove, ApiMove;
  }

  lemma QuietWrites(db: Db, step: Step)
    requires MoveOf(db, step).None?
    ensures Apply(db, step).writes
         == if step.PutWrites? && HoldsLease(db, step.worker, step.id)
            then W.Put(db.writes, step.call.(task := step.id)) else db.writes
  {
    hide MoveOf, PollerQuiet, ExecutorQuiet, ReaperQuiet, ApiQuiet, W.Put;
    ExecutorWrites(db, step);
    OtherWrites(db, step);
    QuietReaper(db, step);
  }

  lemma ExecutorWrites(db: Db, step: Step)
    ensures ExecutorQuiet(db, step).writes
         == if step.PutWrites? && HoldsLease(db, step.worker, step.id)
            then W.Put(db.writes, step.call.(task := step.id)) else db.writes
  {
    hide StepCharged, Billed, W.Put;
    if (step.StepCost? || step.SupervisorCost?) && step.id in db.tasks {
      ChargeFrame(db, step.id, step.checkpoint, step.cost);
    } else if step.SandboxCharge? && step.id in db.tasks {
      BilledWrites(db, SpendOf(db, step.id, Ledger.AtSandbox, step.cost));
    } else if step.CompactionCharge? && step.id in db.tasks {
      BilledWrites(db, Ledger.Charge(db.tasks[step.id].agent, step.id, step.ref, step.cost,
                                     Ledger.CompactionTier3, step.turn, db.now));
    }
  }

  lemma BilledWrites(db: Db, c: Ledger.Charge)
    ensures Billed(db, c).writes == db.writes
  {
  }

  lemma OtherWrites(db: Db, step: Step)
    ensures PollerQuiet(db, step).writes == db.writes && ApiQuiet(db, step).writes == db.writes
  {
    hide QueuedAgents;
  }

  lemma {:induction false} WritesOnRun(db: Db, steps: seq<Step>)
    ensures Run(db, steps).writes == PutFrom(db.writes, LandedCalls(db, steps))
    decreases |steps|
  {
    hide Apply, W.Put;
    if steps == [] {
    } else {
      WritesAfter(db, steps[0]);
      WritesOnRun(Apply(db, steps[0]), steps[1..]);
      var rest := LandedCalls(Apply(db, steps[0]), steps[1..]);
      if steps[0].PutWrites? && HoldsLease(db, steps[0].worker, steps[0].id) {
        assert LandedCalls(db, steps)[1..] == rest;
      } else {
        assert [] + rest == rest;
      }
    }
  }

  lemma {:induction false} PutFromIsPutAll(calls: seq<W.Call>, more: seq<W.Call>)
    ensures PutFrom(W.PutAll(map[], calls), more) == W.PutAll(map[], calls + more)
    decreases |more|
  {
    hide W.Put;
    if more == [] {
      assert calls + more == calls;
    } else {
      var next := calls + [more[0]];
      assert next[..|next| - 1] == calls;
      PutFromIsPutAll(next, more[1..]);
      assert next + more[1..] == calls + more;
    }
  }

  /** On every run from a fresh database a slot of the pending-writes table is filled if and only if a
      lease holder offered it, and it holds the last upsert that a lease holder offered for it, else
      the first insert. */
  lemma StoredWritesAreLeaseHolders(start: Db, steps: seq<Step>, k: W.Key)
    requires Initial(start)
    ensures var stored, offers := Run(start, steps).writes, W.History(LandedCalls(start, steps));
      && (k in stored <==> exists i :: 0 <= i < |offers| && offers[i].key == k)
      && (forall i :: W.Wins(offers, k, i) ==> k in stored && stored[k] == offers[i].row)
      && (k in stored ==> exists i :: W.Wins(offers, k, i))
  {
    hide Apply, Run, LandedCalls, W.Put, W.Wins, W.History;
    var calls := LandedCalls(start, steps);
    WritesOnRun(start, steps);
    PutFromIsPutAll([], calls);
    assert [] + calls == calls;
    W.StoredWritesAreDecidedByHistory(calls, k);
  }
}
