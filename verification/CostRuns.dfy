/** Concrete runs from a fresh database in which an overwriting cost write loses or repeats cost. */
module CostRuns {
  import opened Tables
  import opened Ledger
  import opened Lifecycle
  import C = Checkpoints
  import G = CostConservation
  import S = StaleRetry

  function Saved(ns: C.Namespace): C.Row
  {
    C.Row(0, ns, 5, 7, None, 0, 0, 1)
  }

  lemma SaveAt(db: Db, ns: C.Namespace)
    requires HoldsLease(db, 7, 0) && db.now == 1 && !C.HasKey(db.checkpoints, Saved(ns))
    ensures Apply(db, PutCheckpoint(7, 0, Saved(ns))) == db.(checkpoints := db.checkpoints + [Saved(ns)])
  {
    hide PollerMove, ReaperMove, ApiMove, PollerQuiet, ReaperQuiet, ApiQuiet;
  }

  lemma ChargeAt(db: Db, cost: nat)
    requires HoldsLease(db, 7, 0)
    ensures var after := Apply(db, StepCost(7, 0, 5, cost));
      after.checkpoints == C.SetCost(db.checkpoints, 0, 5, cost)
      && TaskSum(after.billed, 0) == TaskSum(db.billed, 0) + cost
  {
    hide PollerMove, ReaperMove, ApiMove, PollerQuiet, ReaperQuiet, ApiQuiet, StepCharged, TaskSum, C.SetCost;
    G.StepChargedCost(db, 0, 5, cost, 0);
  }

  lemma HeldAfterClaim()
    ensures var db := S.AfterClaim();
      HoldsLease(db, 7, 0) && db.now == 1 && db.checkpoints == [] && db.billed == [] && TaskSum(db.billed, 0) == 0
  {
  }

  function TwoNamespaces(): seq<Step>
  {
    [PutCheckpoint(7, 0, Saved(0))] + ([PutCheckpoint(7, 0, Saved(1))] + ([StepCost(7, 0, 5, 3)] + []))
  }

  /** The statement has no test of the namespace. If two namespaces of a task ever hold the same
      checkpoint id, one write lands on both rows, and the checkpoints carry twice what was billed. */
  lemma SharedIdCountsTwice()
    ensures Initial(EmptyDb())
    ensures var db := Run(EmptyDb(), S.Opening() + TwoNamespaces());
      TaskSum(db.billed, 0) == 3 && C.TaskCost(db.checkpoints, 0) == 6
  {
    hide Apply, Run, S.Opening, S.AfterClaim;
    S.OpeningRun();
    HeldAfterClaim();
    RunConcat(EmptyDb(), S.Opening(), TwoNamespaces());
    var d0 := S.AfterClaim();
    RunCons(d0, PutCheckpoint(7, 0, Saved(0)), [PutCheckpoint(7, 0, Saved(1))] + ([StepCost(7, 0, 5, 3)] + []));
    SaveAt(d0, 0);
    var d1 := d0.(checkpoints := [Saved(0)]);
    assert [] + [Saved(0)] == [Saved(0)];
    RunCons(d1, PutCheckpoint(7, 0, Saved(1)), [StepCost(7, 0, 5, 3)] + []);
    SaveAt(d1, 1);
    var d2 := d1.(checkpoints := [Saved(0)] + [Saved(1)]);
    RunCons(d2, StepCost(7, 0, 5, 3), []);
    ChargeAt(d2, 3);
    EmptyRun(Apply(d2, StepCost(7, 0, 5, 3)));
    TwoRows();
  }

  lemma TwoRows()
    ensures C.TaskCost(C.SetCost([Saved(0)] + [Saved(1)], 0, 5, 3), 0) == 6
  {
    var rows := [Saved(0)] + [Saved(1)];
    assert rows[..1] == [Saved(0)] && [Saved(0)][..0] == [];
    C.SetCostTotals(rows, 0, 5, 3, 1);
    assert C.MatchCount(rows, 0, 5) == 2 && C.MatchCost(rows, 0, 5) == 0 && C.TaskCost(rows, 0) == 0;
  }

  function TwoMessages(): seq<Step>
  {
    [PutCheckpoint(7, 0, Saved(0))] + ([StepCost(7, 0, 5, 3)] + ([StepCost(7, 0, 5, 4)] + []))
  }

  /** One step of the main graph with two messages that cost 3 and 4. Each write goes to the latest
      checkpoint, which is the same row both times: 7 is billed, and the checkpoint carries 4. */
  lemma SecondMessageLosesCost()
    ensures Initial(EmptyDb())
    ensures var saved := Run(EmptyDb(), S.Opening() + ([PutCheckpoint(7, 0, Saved(0))] + []));
      C.IsLatest(saved.checkpoints, 0, false, 5)
    ensures var db := Run(EmptyDb(), S.Opening() + TwoMessages());
      TaskSum(db.billed, 0) == 7 && C.TaskCost(db.checkpoints, 0) == 4 && C.IsLatest(db.checkpoints, 0, false, 5)
  {
    hide Apply, Run, S.Opening, S.AfterClaim, C.SetCost, C.TaskCost, C.IsLatest, TaskSum;
    S.OpeningRun();
    HeldAfterClaim();
    OneRowTwice();
    var d0, put := S.AfterClaim(), PutCheckpoint(7, 0, Saved(0));
    var d1 := d0.(checkpoints := [Saved(0)]);
    RunConcat(EmptyDb(), S.Opening(), [put] + []);
    RunConcat(EmptyDb(), S.Opening(), TwoMessages());
    RunCons(d0, put, []);
    RunCons(d0, put, [StepCost(7, 0, 5, 3)] + ([StepCost(7, 0, 5, 4)] + []));
    SaveAt(d0, 0);
    assert [] + [Saved(0)] == [Saved(0)];
    EmptyRun(d1);
    RunCons(d1, StepCost(7, 0, 5, 3), [StepCost(7, 0, 5, 4)] + []);
    ChargeAt(d1, 3);
    var d2 := Apply(d1, StepCost(7, 0, 5, 3));
    G.StepCostResult(d1, 7, 0, 5, 3);
    RunCons(d2, StepCost(7, 0, 5, 4), []);
    ChargeAt(d2, 4);
    EmptyRun(Apply(d2, StepCost(7, 0, 5, 4)));
  }

  lemma OneRowTwice()
    ensures C.IsLatest([Saved(0)], 0, false, 5)
    ensures var rows := C.SetCost(C.SetCost([Saved(0)], 0, 5, 3), 0, 5, 4);
      C.TaskCost(rows, 0) == 4 && C.IsLatest(rows, 0, false, 5)
  {
    var once, twice := Saved(0).(cost := 3), Saved(0).(cost := 4);
    assert C.SetCost([Saved(0)], 0, 5, 3) == [once] && C.SetCost([once], 0, 5, 4) == [twice];
    assert Saved(0) in [Saved(0)] && twice in [twice] && [twice][..0] == [];
    assert C.Newest([Saved(0)], 0, false, Saved(0)) && C.Newest([twice], 0, false, twice);
  }
}
