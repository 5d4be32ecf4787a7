/** A concrete run from a fresh database in which an hourly pause is resumed before its resume
    time: a charge ages out between the two readings of the budget check. */
module HourlyRuns {
  import opened Tables
  import opened Ledger
  import opened Lifecycle
  import H = HourlyBudget
  import C = Checkpoints

  const SOLE := AgentKey(0, 0)
  const CONFIG := Agent(true, 2, 100, 10)
  const LEASE: nat := 2 * HOUR

  /** A database of one agent: what the steps below read and write. */
  predicate Shape(db: Db, now: Time, tasks: map<TaskId, Task>, ledger: seq<Charge>, count: nat)
  {
    && db.now == now && db.tasks == tasks && db.agents == map[SOLE := CONFIG] && db.ledger == ledger
    && db.runtime.Keys == {SOLE} && db.runtime[SOLE].running == count
    && (ledger == [] ==> db.runtime[SOLE].hourCost == 0)
  }

  function Fresh(): Task
  {
    NewTask(SOLE, 0, 1, 7200, 1)
  }

  function Working(): Task
  {
    Claimed(Fresh(), 7, 1 + LEASE)
  }

  function Spent(id: TaskId, checkpoint: CheckpointId, cost: nat, at: Time): Charge
  {
    Charge(SOLE, id, AtCheckpoint(checkpoint), cost, ModelTokenSpend, None, at)
  }

  // ---- One step at a time -----------------------------------------------------------------------

  lemma Configure()
    ensures Initial(EmptyDb()) && Shape(Apply(EmptyDb(), SetAgent(SOLE, CONFIG)), 1, map[], [], 0)
  {
    hide PollerMove, ExecutorMove, ReaperMove;
  }

  lemma SubmitShape(db: Db, tasks: map<TaskId, Task>, id: TaskId)
    requires Shape(db, 1, tasks, [], 0) && id !in tasks
    ensures Shape(Apply(db, Submit(id, SOLE, 0, 1, 7200)), 1, tasks[id := Fresh()], [], 0)
  {
    hide PollerMove, ExecutorMove, ReaperMove;
  }

  lemma ClaimShape(db: Db, tasks: map<TaskId, Task>, count: nat, id: TaskId)
    requires Shape(db, 1, tasks, [], count) && count < 2 && id in tasks && tasks[id] == Fresh()
    requires forall i | i in tasks :: tasks[i] in {Fresh(), Working()}
    ensures Shape(Apply(db, ClaimTask(7, 0, 0, LEASE, SOLE, id)), 1, tasks[id := Working()], [], count + 1)
  {
    hide ExecutorMove, ReaperMove, ApiMove, Quiet;
    var ready := EnsureRuntime(db, 0, 0);
    assert ready.runtime == db.runtime;
    assert Candidate(ready, id, SOLE, 0);
  }

  lemma TickShape(db: Db, now: Time, tasks: map<TaskId, Task>, ledger: seq<Charge>, count: nat, d: nat)
    requires Shape(db, now, tasks, ledger, count)
    ensures Shape(Apply(db, Tick(d)), now + d, tasks, ledger, count)
  {
    TickResult(db, d);
  }

  function Bill(id: TaskId, checkpoint: CheckpointId, cost: nat): seq<Step>
  {
    [PutCheckpoint(7, id, C.Row(id, 0, checkpoint, 7, None, 0, 0, 1))] + ([StepCost(7, id, checkpoint, cost)] + [])
  }

  lemma PutShape(db: Db, now: Time, tasks: map<TaskId, Task>, ledger: seq<Charge>, count: nat, id: TaskId, r: C.Row)
    requires Shape(db, now, tasks, ledger, count)
    ensures Shape(Apply(db, PutCheckpoint(7, id, r)), now, tasks, ledger, count)
  {
    hide PollerMove, ReaperMove, ApiMove, C.Upsert;
  }

  lemma CostShape(db: Db, now: Time, tasks: map<TaskId, Task>, ledger: seq<Charge>, count: nat,
                  id: TaskId, checkpoint: CheckpointId, cost: nat)
    requires Shape(db, now, tasks, ledger, count) && id in tasks && tasks[id] == Working()
    ensures Shape(Apply(db, StepCost(7, id, checkpoint, cost)), now, tasks,
                  ledger + [Spent(id, checkpoint, cost, now)], count)
  {
    hide PollerMove, ReaperMove, ApiMove, C.SetCost;
  }

  /** A step of the task: its checkpoint, then the step's cost. */
  lemma BillShape(db: Db, now: Time, tasks: map<TaskId, Task>, ledger: seq<Charge>, count: nat,
                  id: TaskId, checkpoint: CheckpointId, cost: nat)
    requires Shape(db, now, tasks, ledger, count) && id in tasks && tasks[id] == Working()
    ensures Shape(Run(db, Bill(id, checkpoint, cost)), now, tasks, ledger + [Spent(id, checkpoint, cost, now)], count)
  {
    hide Apply, Run, Shape;
    var r := C.Row(id, 0, checkpoint, 7, None, 0, 0, 1);
    RunCons(db, PutCheckpoint(7, id, r), [StepCost(7, id, checkpoint, cost)] + []);
    PutShape(db, now, tasks, ledger, count, id, r);
    var saved := Apply(db, PutCheckpoint(7, id, r));
    RunCons(saved, StepCost(7, id, checkpoint, cost), []);
    CostShape(saved, now, tasks, ledger, count, id, checkpoint, cost);
    EmptyRun(Apply(saved, StepCost(7, id, checkpoint, cost)));
  }

  lemma PauseShape(db: Db, now: Time, tasks: map<TaskId, Task>, ledger: seq<Charge>, count: nat, id: TaskId, at: Time)
    requires Shape(db, now, tasks, ledger, count) && ledger != [] && count > 0
    requires id in tasks && tasks[id] == Working()
    ensures Shape(Apply(db, BudgetPause(7, id, BudgetPerHour, Some(at))), now,
                  tasks[id := PausedFor(tasks[id], BudgetPerHour, Some(at))], ledger, count - 1)
  {
    hide PollerMove, ReaperMove, ApiMove, Quiet;
  }

  // ---- The run -----------------------------------------------------------------------------------

  /** Two tasks of one agent, both claimed. */
  function Opening(): seq<Step>
  {
    [SetAgent(SOLE, CONFIG)] + ([Submit(0, SOLE, 0, 1, 7200)] + ([Submit(1, SOLE, 0, 1, 7200)] +
      ([ClaimTask(7, 0, 0, LEASE, SOLE, 0)] + ([ClaimTask(7, 0, 0, LEASE, SOLE, 1)] + []))))
  }

  lemma OpeningShape()
    ensures Shape(Run(EmptyDb(), Opening()), 1, map[0 := Working(), 1 := Working()], [], 2)
  {
    hide Apply, Run, Shape;
    var s1, s2, s3 := SetAgent(SOLE, CONFIG), Submit(0, SOLE, 0, 1, 7200), Submit(1, SOLE, 0, 1, 7200);
    var s4, s5 := ClaimTask(7, 0, 0, LEASE, SOLE, 0), ClaimTask(7, 0, 0, LEASE, SOLE, 1);
    RunCons(EmptyDb(), s1, [s2] + ([s3] + ([s4] + ([s5] + []))));
    Configure();
    var d1 := Apply(EmptyDb(), s1);
    RunCons(d1, s2, [s3] + ([s4] + ([s5] + [])));
    SubmitShape(d1, map[], 0);
    var d2 := Apply(d1, s2);
    RunCons(d2, s3, [s4] + ([s5] + []));
    SubmitShape(d2, map[][0 := Fresh()], 1);
    var d3 := Apply(d2, s3);
    RunCons(d3, s4, [s5] + []);
    var tasks := map[][0 := Fresh()][1 := Fresh()];
    ClaimShape(d3, tasks, 0, 0);
    var d4 := Apply(d3, s4);
    RunCons(d4, s5, []);
    ClaimShape(d4, tasks[0 := Working()], 1, 1);
    EmptyRun(Apply(d4, s5));
    assert tasks[0 := Working()][1 := Working()] == map[0 := Working(), 1 := Working()];
  }

  /** Task 0 spends 6, and a second later task 1 spends 6: its budget check reads 12 against a budget
      of 10 and pauses it until the first charge is an hour old. */
  function FirstPause(): seq<Step>
  {
    Bill(0, 5, 6) + ([Tick(SECOND)] + (Bill(1, 6, 6) + ([BudgetPause(7, 1, BudgetPerHour, Some(1 + HOUR))] + [])))
  }

  function EarlySpending(): seq<Charge>
  {
    [Spent(0, 5, 6, 1), Spent(1, 6, 6, 1 + SECOND)]
  }

  function DuePause(): Task
  {
    PausedFor(Working(), BudgetPerHour, Some(1 + HOUR))
  }

  lemma FirstPauseShape(db: Db)
    requires Shape(db, 1, map[0 := Working(), 1 := Working()], [], 2)
    ensures Shape(Run(db, FirstPause()), 1 + SECOND, map[0 := Working(), 1 := DuePause()], EarlySpending(), 1)
  {
    hide Apply, Run, Shape, Bill;
    var tasks := map[0 := Working(), 1 := Working()];
    var pause := BudgetPause(7, 1, BudgetPerHour, Some(1 + HOUR));
    RunConcat(db, Bill(0, 5, 6), [Tick(SECOND)] + (Bill(1, 6, 6) + ([pause] + [])));
    BillShape(db, 1, tasks, [], 2, 0, 5, 6);
    var d1 := Run(db, Bill(0, 5, 6));
    assert [] + [Spent(0, 5, 6, 1)] == [Spent(0, 5, 6, 1)];
    RunCons(d1, Tick(SECOND), Bill(1, 6, 6) + ([pause] + []));
    TickShape(d1, 1, tasks, [Spent(0, 5, 6, 1)], 2, SECOND);
    var d2 := Apply(d1, Tick(SECOND));
    RunConcat(d2, Bill(1, 6, 6), [pause] + []);
    BillShape(d2, 1 + SECOND, tasks, [Spent(0, 5, 6, 1)], 2, 1, 6, 6);
    var d3 := Run(d2, Bill(1, 6, 6));
    assert [Spent(0, 5, 6, 1)] + [Spent(1, 6, 6, 1 + SECOND)] == EarlySpending();
    RunCons(d3, pause, []);
    PauseShape(d3, 1 + SECOND, tasks, EarlySpending(), 2, 1, 1 + HOUR);
    EmptyRun(Apply(d3, pause));
    assert tasks[1 := DuePause()] == map[0 := Working(), 1 := DuePause()];
  }

  /** Almost an hour later task 0 spends 1, and its budget check reads the window sum. */
  function LateSpending(): seq<Step>
  {
    [Tick(HOUR - 1 - SECOND)] + Bill(0, 8, 1)
  }

  function AllSpending(): seq<Charge>
  {
    EarlySpending() + [Spent(0, 8, 1, HOUR)]
  }

  lemma LateSpendingShape(db: Db)
    requires Shape(db, 1 + SECOND, map[0 := Working(), 1 := DuePause()], EarlySpending(), 1)
    ensures Shape(Run(db, LateSpending()), HOUR, map[0 := Working(), 1 := DuePause()], AllSpending(), 1)
  {
    hide Apply, Run, Shape, Bill;
    var tasks := map[0 := Working(), 1 := DuePause()];
    RunCons(db, Tick(HOUR - 1 - SECOND), Bill(0, 8, 1));
    TickShape(db, 1 + SECOND, tasks, EarlySpending(), 1, HOUR - 1 - SECOND);
    BillShape(Apply(db, Tick(HOUR - 1 - SECOND)), HOUR, tasks, EarlySpending(), 1, 0, 8, 1);
  }

  /** The state in which the check reads the sum. */
  ghost function AtSum(): Db
  {
    Run(EmptyDb(), Opening() + (FirstPause() + LateSpending()))
  }

  lemma AtSumShape()
    ensures Initial(EmptyDb()) && Shape(AtSum(), HOUR, map[0 := Working(), 1 := DuePause()], AllSpending(), 1)
  {
    hide Apply, Run, Shape, Opening, FirstPause, LateSpending;
    Configure();
    OpeningShape();
    RunConcat(EmptyDb(), Opening(), FirstPause() + LateSpending());
    var begun := Run(EmptyDb(), Opening());
    FirstPauseShape(begun);
    RunConcat(begun, FirstPause(), LateSpending());
    LateSpendingShape(Run(begun, FirstPause()));
  }

  lemma ReadAppended(ledger: seq<Charge>, c: Charge, now: Time)
    ensures var more := ledger + [c];
      && WindowSum(more, SOLE, now) == WindowSum(ledger, SOLE, now) + (if InWindow(c, SOLE, now) then c.cost else 0)
      && var start := WindowStart(ledger, SOLE, now);
         WindowStart(more, SOLE, now) ==
           if !InWindow(c, SOLE, now) then start
           else if start.Some? then Some(Min(start.value, c.at)) else Some(c.at)
  {
    assert (ledger + [c])[..|ledger|] == ledger;
  }

  /** All that the budget checks of the two tasks read. */
  lemma Readings()
    ensures WindowSum(EarlySpending(), SOLE, 1 + SECOND) == 12
    ensures WindowStart(EarlySpending(), SOLE, 1 + SECOND) == Some(1)
    ensures WindowSum(AllSpending(), SOLE, HOUR) == 13
    ensures WindowSum(AllSpending(), SOLE, HOUR + 1) == 7
    ensures WindowStart(AllSpending(), SOLE, HOUR + 1) == Some(1 + SECOND)
  {
    assert EarlySpending() == [] + [Spent(0, 5, 6, 1)] + [Spent(1, 6, 6, 1 + SECOND)];
    ReadAppended([], Spent(0, 5, 6, 1), 1 + SECOND);
    ReadAppended([] + [Spent(0, 5, 6, 1)], Spent(1, 6, 6, 1 + SECOND), 1 + SECOND);
    ReadAll(HOUR);
    ReadAll(HOUR + 1);
  }

  lemma ReadAll(now: Time)
    requires now == HOUR || now == HOUR + 1
    ensures WindowSum(AllSpending(), SOLE, now) == if now == HOUR then 13 else 7
    ensures WindowStart(AllSpending(), SOLE, now) == Some(if now == HOUR then 1 else 1 + SECOND)
  {
    assert EarlySpending() == [] + [Spent(0, 5, 6, 1)] + [Spent(1, 6, 6, 1 + SECOND)];
    ReadAppended([], Spent(0, 5, 6, 1), now);
    ReadAppended([] + [Spent(0, 5, 6, 1)], Spent(1, 6, 6, 1 + SECOND), now);
    ReadAppended(EarlySpending(), Spent(0, 8, 1, HOUR), now);
  }

  /** One tick passes between the reading of the sum and that of the oldest charge; the pause follows. */
  function LatePause(): seq<Step>
  {
    [Tick(1)] + ([BudgetPause(7, 0, BudgetPerHour, Some(1 + SECOND + HOUR))] + [])
  }

  /** The sum read is 13 against a budget of 10; a tick later the window holds 7 and starts at the
      second charge, whose age sets the resume time. The agent's other pause is due, so a recovery
      pass selects the agent, its window is under the budget, and the pause just taken is resumed
      almost a second before its resume time. */
  lemma AgingChargeEndsPauseEarly()
    ensures Initial(EmptyDb())
    ensures var read, paused := AtSum(), Run(AtSum(), LatePause()); var after := Apply(paused, Recover(0));
      && SOLE in read.agents && WindowSum(read.ledger, SOLE, read.now) > read.agents[SOLE].budgetPerHour
      && 0 in paused.tasks && HourlyPaused(paused.tasks[0])
      && WindowStart(paused.ledger, SOLE, paused.now) == Some(1 + SECOND)
      && paused.tasks[0].resumeAt == Some(1 + SECOND + HOUR)
      && H.Selected(paused, SOLE) && MayRecover(paused, SOLE)
      && 0 in after.tasks && after.tasks[0].status == Queued && after.now < 1 + SECOND + HOUR
  {
    hide Apply, Run, H.Selected, WindowSum, WindowStart;
    AtSumShape();
    Readings();
    var read, pause := AtSum(), BudgetPause(7, 0, BudgetPerHour, Some(1 + SECOND + HOUR));
    var tasks := map[0 := Working(), 1 := DuePause()];
    RunCons(read, Tick(1), [pause] + []);
    TickShape(read, HOUR, tasks, AllSpending(), 1, 1);
    var waited := Apply(read, Tick(1));
    RunCons(waited, pause, []);
    PauseShape(waited, HOUR + 1, tasks, AllSpending(), 1, 0, 1 + SECOND + HOUR);
    EmptyRun(Apply(waited, pause));
    ResumedNow(Run(read, LatePause()));
  }

  lemma ResumedNow(db: Db)
    requires 0 in db.tasks && db.tasks[0].agent == SOLE && HourlyPaused(db.tasks[0])
    requires 1 in db.tasks && db.tasks[1].agent == SOLE && PauseDue(db.tasks[1], db.now) && MayRecover(db, SOLE)
    ensures H.Selected(db, SOLE)
    ensures var after := Apply(db, Recover(0));
      0 in after.tasks && after.tasks[0].status == Queued && after.now == db.now
  {
    hide Apply, MayRecover;
    H.ResumesPaused(db, 0);
  }
}
