/** What the advisory lock prevents: the same statements run without it, from an empty table. */
module MemoryRace {
  import opened Tables
  import opened MemoryRows
  import opened MemoryStore

  /** The store without the lock: asking for it always succeeds at once. */
  function NextFree(s: Store, step: Step): Store
  {
    if step.Lock? && Started(s, step.t, Begun)
    then s.(open := s.open[step.t := s.open[step.t].(phase := Locked)])
    else if step.Lock? then s
    else Next(s, step)
  }

  function RunFree(s: Store, steps: seq<Step>): Store
    decreases |steps|
  {
    if steps == [] then s else RunFree(NextFree(s, steps[0]), steps[1..])
  }

  const SOLE := AgentKey(0, 0)

  /** Row `i` of task `i`, for the first `n` tasks. */
  function RowsUpTo(n: nat): Rows
  {
    map i: nat | i < n :: Row(i, SOLE, i, 0, 1, 1)
  }

  function TasksUpTo(m: nat): map<TaskId, AgentKey>
  {
    map i | i in RowsUpTo(m) :: RowsUpTo(m)[i].agent
  }

  function Filled(n: nat, m: nat): Store
  {
    Store(1, TasksUpTo(m), RowsUpTo(n), map[], map[])
  }

  /** One transaction from its beginning to its commit. */
  function One(i: nat, configured: Option<int>): seq<Step>
  {
    [Begin(0, i, 0, configured)] + ([Lock(0)] + ([Upsert(0, i)] + ([Count(0)] + ([Commit(0)] + []))))
  }

  function Fill(n: nat, configured: Option<int>): seq<Step>
  {
    if n == 0 then [] else Fill(n - 1, configured) + One(n - 1, configured)
  }

  lemma RunFreeCons(s: Store, step: Step, rest: seq<Step>)
    ensures RunFree(s, [step] + rest) == RunFree(NextFree(s, step), rest)
  {
    hide NextFree;
    assert ([step] + rest)[1..] == rest;
  }

  lemma {:induction false} RunFreeConcat(s: Store, xs: seq<Step>, ys: seq<Step>)
    ensures RunFree(s, xs + ys) == RunFree(RunFree(s, xs), ys)
    decreases |xs|
  {
    hide NextFree;
    if xs == [] {
      assert xs + ys == ys;
    } else {
      assert (xs + ys)[1..] == xs[1..] + ys;
      RunFreeConcat(NextFree(s, xs[0]), xs[1..], ys);
    }
  }

  lemma RunFreeNone(s: Store)
    ensures RunFree(s, []) == s
  {
  }

  function Opened(i: nat, configured: Option<int>): Tx
  {
    Tx(i, 0, MaxEntries(configured), 1, Begun, None, false, false, {}, map[])
  }

  function Inserted(i: nat, configured: Option<int>): Tx
  {
    Opened(i, configured).(phase := Upserted, mine := Some(Row(i, SOLE, i, 0, 1, 1)), inserted := true)
  }

  lemma NewTask(n: nat, i: nat)
    requires i >= n
    ensures Inserts(RowsUpTo(n), i) && i !in RowsUpTo(n)
    ensures OfAgent(RowsUpTo(n), SOLE) == RowsUpTo(n) && |RowsUpTo(n)| == n
  {
    Size(n);
  }

  lemma {:induction false} Size(n: nat)
    ensures |RowsUpTo(n)| == n
  {
    if n == 0 {
      assert RowsUpTo(0) == map[];
    } else {
      Size(n - 1);
      assert RowsUpTo(n) == RowsUpTo(n - 1)[n - 1 := Row(n - 1, SOLE, n - 1, 0, 1, 1)];
    }
  }

  lemma TaskKnown(i: nat, m: nat)
    requires i < m
    ensures i in TasksUpTo(m) && TasksUpTo(m)[i] == SOLE
  {
  }

  lemma BeginAndLock(n: nat, m: nat, configured: Option<int>)
    requires n < m
    ensures NextFree(NextFree(Filled(n, m), Begin(0, n, 0, configured)), Lock(0))
         == Filled(n, m).(open := map[0 := Opened(n, configured).(phase := Locked)])
  {
    TaskKnown(n, m);
    hide MaxEntries, RowsUpTo, TasksUpTo;
  }

  lemma UpsertOne(n: nat, m: nat, configured: Option<int>)
    requires n < m
    ensures NextFree(Filled(n, m).(open := map[0 := Opened(n, configured).(phase := Locked)]), Upsert(0, n))
         == Filled(n, m).(open := map[0 := Inserted(n, configured)])
  {
    NewTask(n, n);
    TaskKnown(n, m);
    hide MaxEntries, RowsUpTo, TasksUpTo, Inserts;
  }

  lemma CountOne(n: nat, m: nat, configured: Option<int>)
    requires n < m && n < MaxEntries(configured)
    ensures NextFree(Filled(n, m).(open := map[0 := Inserted(n, configured)]), Count(0))
         == Filled(n, m).(open := map[0 := Inserted(n, configured).(phase := Counted, seen := RowsUpTo(n))])
  {
    NewTask(n, n);
    TaskKnown(n, m);
    assert RowsUpTo(n) - {} == RowsUpTo(n);
    InsertGrowsAgent(RowsUpTo(n), RowsUpTo(n)[n := Row(n, SOLE, n, 0, 1, 1)], n, SOLE);
    hide MaxEntries, RowsUpTo, TasksUpTo, OfAgent;
  }

  lemma CommitOne(n: nat, m: nat, x: Tx)
    requires n < m && x.task == n && x.phase == Counted && !x.over && x.evicted == {}
    requires x.mine == Some(Row(n, SOLE, n, 0, 1, 1))
    ensures NextFree(Filled(n, m).(open := map[0 := x]), Commit(0)) == Filled(n + 1, m)
  {
    TaskKnown(n, m);
    assert RowsUpTo(n + 1) == RowsUpTo(n)[n := Row(n, SOLE, n, 0, 1, 1)];
    assert RowsUpTo(n) - {} == RowsUpTo(n);
    hide RowsUpTo, TasksUpTo;
    var s := Filled(n, m).(open := map[0 := x]);
    assert s.open - {0} == map[];
    assert Closed(s, 0).locks.Keys <= s.locks.Keys;
  }

  lemma CountAndCommit(n: nat, m: nat, configured: Option<int>)
    requires n < m && n < MaxEntries(configured)
    ensures NextFree(NextFree(Filled(n, m).(open := map[0 := Inserted(n, configured)]), Count(0)), Commit(0))
         == Filled(n + 1, m)
  {
    hide NextFree, MaxEntries, RowsUpTo, TasksUpTo;
    CountOne(n, m, configured);
    CommitOne(n, m, Inserted(n, configured).(phase := Counted, seen := RowsUpTo(n)));
  }

  /** A transaction that runs alone below the cap adds its row. */
  lemma OneMore(n: nat, m: nat, configured: Option<int>)
    requires n < m && n < MaxEntries(configured)
    ensures RunFree(Filled(n, m), One(n, configured)) == Filled(n + 1, m)
  {
    hide NextFree, RunFree, Filled, Inserted, Opened, MaxEntries;
    var s := Filled(n, m);
    RunFreeCons(s, Begin(0, n, 0, configured), [Lock(0)] + ([Upsert(0, n)] + ([Count(0)] + ([Commit(0)] + []))));
    var s1 := NextFree(s, Begin(0, n, 0, configured));
    RunFreeCons(s1, Lock(0), [Upsert(0, n)] + ([Count(0)] + ([Commit(0)] + [])));
    BeginAndLock(n, m, configured);
    var s2 := NextFree(s1, Lock(0));
    RunFreeCons(s2, Upsert(0, n), [Count(0)] + ([Commit(0)] + []));
    UpsertOne(n, m, configured);
    var s3 := NextFree(s2, Upsert(0, n));
    RunFreeCons(s3, Count(0), [Commit(0)] + []);
    var s4 := NextFree(s3, Count(0));
    RunFreeCons(s4, Commit(0), []);
    CountAndCommit(n, m, configured);
    RunFreeNone(NextFree(s4, Commit(0)));
  }

  lemma {:induction false} FillRun(n: nat, m: nat, configured: Option<int>)
    requires n <= m && n <= MaxEntries(configured)
    ensures RunFree(Filled(0, m), Fill(n, configured)) == Filled(n, m)
  {
    hide NextFree, Filled, One, MaxEntries;
    if n == 0 {
    } else {
      FillRun(n - 1, m, configured);
      RunFreeConcat(Filled(0, m), Fill(n - 1, configured), One(n - 1, configured));
      OneMore(n - 1, m, configured);
    }
  }

  /** Two transactions of different tasks, statement by statement in turn. */
  function RaceStart(n: nat, configured: Option<int>): seq<Step>
  {
    [Begin(0, n, 0, configured)] + ([Begin(1, n + 1, 0, configured)] + ([Lock(0)] + ([Lock(1)] +
      ([Upsert(0, n)] + ([Upsert(1, n + 1)] + [])))))
  }

  function RaceEnd(): seq<Step>
  {
    [Count(0)] + ([Count(1)] + ([Commit(0)] + ([Commit(1)] + [])))
  }

  function Racing(n: nat, m: nat, x: Tx, y: Tx): Store
  {
    Filled(n, m).(open := map[0 := x, 1 := y])
  }

  lemma BothBegin(n: nat, m: nat, configured: Option<int>)
    requires n + 1 < m
    ensures NextFree(NextFree(Filled(n, m), Begin(0, n, 0, configured)), Begin(1, n + 1, 0, configured))
         == Racing(n, m, Opened(n, configured), Opened(n + 1, configured))
  {
    TaskKnown(n, m);
    TaskKnown(n + 1, m);
    hide MaxEntries, RowsUpTo, TasksUpTo;
  }

  lemma BothLock(n: nat, m: nat, configured: Option<int>)
    requires n + 1 < m
    ensures var s := Racing(n, m, Opened(n, configured), Opened(n + 1, configured));
      NextFree(NextFree(s, Lock(0)), Lock(1))
        == Racing(n, m, Opened(n, configured).(phase := Locked), Opened(n + 1, configured).(phase := Locked))
  {
    TaskKnown(n, m);
    TaskKnown(n + 1, m);
    hide MaxEntries, RowsUpTo, TasksUpTo;
    var x, y := Opened(n, configured), Opened(n + 1, configured);
    assert map[0 := x, 1 := y][0 := x.(phase := Locked)][1 := y.(phase := Locked)]
        == map[0 := x.(phase := Locked), 1 := y.(phase := Locked)];
  }

  lemma BothUpsert(n: nat, m: nat, configured: Option<int>)
    requires n + 1 < m
    ensures var s := Racing(n, m, Opened(n, configured).(phase := Locked), Opened(n + 1, configured).(phase := Locked));
      NextFree(NextFree(s, Upsert(0, n)), Upsert(1, n + 1))
        == Racing(n, m, Inserted(n, configured), Inserted(n + 1, configured))
  {
    NewTask(n, n);
    NewTask(n, n + 1);
    TaskKnown(n, m);
    TaskKnown(n + 1, m);
    hide MaxEntries, RowsUpTo, TasksUpTo, Inserts;
    var x, y := Opened(n, configured).(phase := Locked), Opened(n + 1, configured).(phase := Locked);
    assert map[0 := x, 1 := y][0 := Inserted(n, configured)][1 := Inserted(n + 1, configured)]
        == map[0 := Inserted(n, configured), 1 := Inserted(n + 1, configured)];
  }

  lemma RaceStartRun(n: nat, m: nat, configured: Option<int>)
    requires n + 1 < m
    ensures RunFree(Filled(n, m), RaceStart(n, configured))
         == Racing(n, m, Inserted(n, configured), Inserted(n + 1, configured))
  {
    hide NextFree, RunFree, Filled, Inserted, Opened, MaxEntries;
    var b0, b1, u0, u1 := Begin(0, n, 0, configured), Begin(1, n + 1, 0, configured), Upsert(0, n), Upsert(1, n + 1);
    var s := Filled(n, m);
    RunFreeCons(s, b0, [b1] + ([Lock(0)] + ([Lock(1)] + ([u0] + ([u1] + [])))));
    RunFreeCons(NextFree(s, b0), b1, [Lock(0)] + ([Lock(1)] + ([u0] + ([u1] + []))));
    BothBegin(n, m, configured);
    var s1 := Racing(n, m, Opened(n, configured), Opened(n + 1, configured));
    RunFreeCons(s1, Lock(0), [Lock(1)] + ([u0] + ([u1] + [])));
    RunFreeCons(NextFree(s1, Lock(0)), Lock(1), [u0] + ([u1] + []));
    BothLock(n, m, configured);
    var s2 := NextFree(NextFree(s1, Lock(0)), Lock(1));
    RunFreeCons(s2, u0, [u1] + []);
    RunFreeCons(NextFree(s2, u0), u1, []);
    BothUpsert(n, m, configured);
    RunFreeNone(NextFree(NextFree(s2, u0), u1));
  }

  lemma RaceEndRun(s: Store)
    ensures RunFree(s, RaceEnd()) == Run(s, [Count(0), Count(1), Commit(0), Commit(1)])
  {
    hide Next;
    FourSteps(s, Count(0), Count(1), Commit(0), Commit(1));
    RunFreeCons(s, Count(0), [Count(1)] + ([Commit(0)] + ([Commit(1)] + [])));
    var s1 := Next(s, Count(0));
    RunFreeCons(s1, Count(1), [Commit(0)] + ([Commit(1)] + []));
    var s2 := Next(s1, Count(1));
    RunFreeCons(s2, Commit(0), [Commit(1)] + []);
    RunFreeCons(Next(s2, Commit(0)), Commit(1), []);
    RunFreeNone(Next(Next(s2, Commit(0)), Commit(1)));
  }

  /** Without the lock every configured cap can be passed, from an empty table on: fill the agent to
      one row below the cap, then let two commits take turns. */
  lemma UnlockedRacePassesCap(configured: Option<int>)
    ensures var cap := MaxEntries(configured);
      var steps := Fill(cap - 1, configured) + (RaceStart(cap - 1, configured) + RaceEnd());
      Initial(Filled(0, cap + 1)) && |OfAgent(RunFree(Filled(0, cap + 1), steps).rows, SOLE)| == cap + 1
  {
    var cap := MaxEntries(configured);
    var n, m := cap - 1, cap + 1;
    assert RowsUpTo(0) == map[];
    var raced := Racing(n, m, Inserted(n, configured), Inserted(n + 1, configured));
    NewTask(n, n);
    NewTask(n, n + 1);
    TaskKnown(n, m);
    TaskKnown(n + 1, m);
    assert Uncounted(raced, 0, SOLE) && Uncounted(raced, 1, SOLE);
    hide NextFree, RunFree, Fill, RaceStart, RaceEnd, MaxEntries, Next, Run, OfAgent, RowsUpTo;
    FillRun(n, m, configured);
    RaceStartRun(n, m, configured);
    RaceEndRun(raced);
    RunFreeConcat(Filled(0, m), Fill(n, configured), RaceStart(n, configured) + RaceEnd());
    RunFreeConcat(Filled(n, m), RaceStart(n, configured), RaceEnd());
    WithoutLockCapIsPassed(raced, 0, 1, SOLE);
  }
}
