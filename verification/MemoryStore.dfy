/** Memory commits of concurrent workers: each statement is its own step, sees the committed rows
    and its transaction's own changes (READ COMMITTED), and takes the agent's advisory lock first. */
module MemoryStore {
  import opened Tables
  import opened MemoryRows

  type TxId = nat

  datatype Phase = Begun | Locked | Upserted | Counted | Trimmed

  /** An open transaction. `seen` records the agent's committed rows at its last statement. */
  datatype Tx = Tx(
    task: TaskId, body: nat, cap: int, startedAt: Time,
    phase: Phase, mine: Option<Row>, inserted: bool, over: bool, evicted: set<MemoryId>, seen: Rows)

  datatype Store = Store(
    now: Time,
    agentOf: map<TaskId, AgentKey>,
    rows: Rows,
    open: map<TxId, Tx>,
    locks: map<AgentKey, TxId>)

  datatype Step =
    | Tick(d: nat)
    | Begin(t: TxId, task: TaskId, body: nat, configured: Option<int>)
    | Lock(t: TxId)
    | Upsert(t: TxId, id: MemoryId)
    | Count(t: TxId)
    | Trim(t: TxId)
    | Commit(t: TxId)
    | Rollback(t: TxId)
    | Delete(id: MemoryId)

  function AgentIn(s: Store, t: TxId): (a: AgentKey)
    requires t in s.open && s.open[t].task in s.agentOf
  {
    s.agentOf[s.open[t].task]
  }

  /** The table as a transaction sees it. */
  function View(rows: Rows, x: Tx): Rows
  {
    if x.mine.Some? then (rows - x.evicted)[x.mine.value.id := x.mine.value] else rows - x.evicted
  }

  predicate Touches(x: Tx, id: MemoryId)
  {
    id in x.evicted || (x.mine.Some? && x.mine.value.id == id)
  }

  predicate Started(s: Store, t: TxId, phase: Phase)
  {
    t in s.open && s.open[t].phase == phase && s.open[t].task in s.agentOf
  }

  /** Past its last statement: the trim runs only after an insert that made too many rows. */
  predicate MayCommit(s: Store, t: TxId)
  {
    t in s.open && s.open[t].task in s.agentOf && s.open[t].mine.Some? &&
    var x := s.open[t];
    || (x.phase == Upserted && !x.inserted)
    || (x.phase == Counted && !x.over)
    || x.phase == Trimmed
  }

  function Closed(s: Store, t: TxId): Store
  {
    s.(open := s.open - {t}, locks := map a | a in s.locks && s.locks[a] != t :: s.locks[a])
  }

  /** The id the upsert may use: the task's row, or a new id when there is none. */
  predicate UpsertsAt(s: Store, t: TxId, id: MemoryId)
    requires t in s.open
  {
    if Inserts(s.rows, s.open[t].task)
    then id !in s.rows && forall u | u in s.open :: !Touches(s.open[u], id)
    else id in OfTask(s.rows, s.open[t].task)
  }

  function Next(s: Store, step: Step): Store
  {
    match step
    case Tick(d) => s.(now := s.now + d)
    case Begin(t, task, body, configured) =>
      if t !in s.open && task in s.agentOf
      then s.(open := s.open[t := Tx(task, body, MaxEntries(configured), s.now, Begun, None, false, false, {}, map[])])
      else s
    case Lock(t) =>
      if Started(s, t, Begun) && AgentIn(s, t) !in s.locks
      then s.(open := s.open[t := s.open[t].(phase := Locked)], locks := s.locks[AgentIn(s, t) := t])
      else s
    case Upsert(t, id) =>
      if Started(s, t, Locked) && UpsertsAt(s, t, id) then
        var x := s.open[t];
        if Inserts(s.rows, x.task) then
          var r := Row(id, AgentIn(s, t), x.task, x.body, 1, x.startedAt);
          s.(open := s.open[t := x.(phase := Upserted, mine := Some(r), inserted := true)])
        else
          var r := Rewritten(s.rows, id, x.body)[id];
          s.(open := s.open[t := x.(phase := Upserted, mine := Some(r), inserted := false)])
      else s
    case Count(t) =>
      if Started(s, t, Upserted) && s.open[t].inserted then
        var x := s.open[t];
        s.(open := s.open[t := x.(phase := Counted, seen := OfAgent(s.rows, AgentIn(s, t)),
                                  over := |OfAgent(View(s.rows, x), AgentIn(s, t))| > x.cap)])
      else s
    case Trim(t) =>
      if Started(s, t, Counted) && s.open[t].over && s.open[t].mine.Some? then
        var x := s.open[t];
        s.(open := s.open[t := x.(phase := Trimmed, seen := OfAgent(s.rows, AgentIn(s, t)),
                                  evicted := Excess(View(s.rows, x), AgentIn(s, t), x.mine.value.id, x.cap))])
      else s
    case Commit(t) => if MayCommit(s, t) then Closed(s.(rows := View(s.rows, s.open[t])), t) else s
    case Rollback(t) => Closed(s, t)
    case Delete(id) =>
      if forall u | u in s.open :: !Touches(s.open[u], id) then s.(rows := s.rows - {id}) else s
  }

  function Run(s: Store, steps: seq<Step>): Store
    decreases |steps|
  {
    if steps == [] then s else Run(Next(s, steps[0]), steps[1..])
  }

  predicate Initial(s: Store)
  {
    s.rows == map[] && s.open == map[] && s.locks == map[]
  }

  // ---- Invariant -----------------------------------------------------------------------------

  /** Rows belong to the agents of their tasks. */
  predicate Filed(rows: Rows, agentOf: map<TaskId, AgentKey>)
  {
    forall i | i in rows :: rows[i].task in agentOf && rows[i].agent == agentOf[rows[i].task]
  }

  predicate Within(small: Rows, big: Rows)
  {
    forall i | i in small :: i in big && big[i] == small[i]
  }

  /** The update branch writes its task's row as it would now, and only the body differs. */
  predicate Rewrites(rows: Rows, r: Row, body: nat)
  {
    r.id in rows && r == Rewritten(rows, r.id, body)[r.id]
  }

  /** The agent's rows are among those recorded, which fit the cap unless they were too many. */
  predicate Saw(rows: Rows, x: Tx, a: AgentKey)
  {
    && WellKeyed(x.seen) && x.mine.Some? && x.mine.value.id !in x.seen
    && Within(OfAgent(rows, a), x.seen)
    && (x.phase == Counted && !x.over ==> |x.seen| < x.cap)
  }

  /** An open transaction of agent `a` against the committed rows. */
  predicate TxFits(rows: Rows, x: Tx, a: AgentKey)
  {
    && (x.mine.Some? <==> x.phase in {Upserted, Counted, Trimmed})
    && (x.mine.Some? ==> x.mine.value.task == x.task && x.mine.value.agent == a)
    && (x.mine.Some? && x.inserted ==> x.mine.value.id !in rows && Inserts(rows, x.task))
    && (x.mine.Some? && !x.inserted ==> x.phase == Upserted && Rewrites(rows, x.mine.value, x.body))
    && (x.phase in {Counted, Trimmed} ==> x.inserted && Saw(rows, x, a))
    && x.evicted == (if x.phase == Trimmed then x.seen.Keys - NewestIds(x.seen, NonKeepCap(x.cap)) else {})
    && x.evicted <= OfAgent(rows, a).Keys
  }

  predicate TxSound(s: Store, t: TxId)
    requires t in s.open
  {
    var x := s.open[t];
    && x.task in s.agentOf
    && TxFits(s.rows, x, s.agentOf[x.task])
    && (x.phase != Begun ==> s.agentOf[x.task] in s.locks && s.locks[s.agentOf[x.task]] == t)
  }

  predicate Apart(s: Store, t: TxId, u: TxId)
    requires t in s.open && u in s.open
  {
    s.open[t].mine.Some? && s.open[u].mine.Some? ==> s.open[t].mine.value.id != s.open[u].mine.value.id
  }

  predicate Inv(s: Store)
  {
    && WellKeyed(s.rows) && Filed(s.rows, s.agentOf)
    && (forall t | t in s.open :: TxSound(s, t))
    && forall t, u | t in s.open && u in s.open && t != u :: Apart(s, t, u)
  }

  /** Every recorded view of the agent's rows is still current. */
  predicate SeenIsCurrent(s: Store)
  {
    forall t | t in s.open && s.open[t].task in s.agentOf && s.open[t].phase in {Counted, Trimmed} ::
      s.open[t].seen == OfAgent(s.rows, AgentIn(s, t))
  }

  /** A transaction's view under the lock: the agent's committed rows and its own. */
  lemma ViewOfInsert(rows: Rows, x: Tx, a: AgentKey)
    requires WellKeyed(rows) && TxFits(rows, x, a) && x.mine.Some? && x.inserted && x.evicted == {}
    ensures var r := x.mine.value;
      && View(rows, x) == rows[r.id := r]
      && OfAgent(View(rows, x), a) - {r.id} == OfAgent(rows, a)
      && |OfAgent(View(rows, x), a)| == |OfAgent(rows, a)| + 1
      && WellKeyed(OfAgent(rows, a))
  {
    var r := x.mine.value;
    assert rows - {} == rows;
    InsertGrowsAgent(rows, rows[r.id := r], r.id, a);
    AgentKeyed(rows, a);
  }

  lemma CountStep(s: Store, t: TxId)
    requires Inv(s)
    ensures Inv(Next(s, Count(t)))
  {
    hide NewestIds;
    if Started(s, t, Upserted) && s.open[t].inserted {
      assert TxSound(s, t);
      ViewOfInsert(s.rows, s.open[t], AgentIn(s, t));
      OthersKept(s, Next(s, Count(t)), t);
    }
  }

  lemma TrimmedFits(rows: Rows, x: Tx, a: AgentKey)
    requires WellKeyed(rows) && TxFits(rows, x, a) && x.phase == Counted && x.mine.Some?
    ensures TxFits(rows, x.(phase := Trimmed, seen := OfAgent(rows, a),
                            evicted := Excess(View(rows, x), a, x.mine.value.id, x.cap)), a)
  {
    hide NewestIds;
    ViewOfInsert(rows, x, a);
  }

  lemma TrimStep(s: Store, t: TxId)
    requires Inv(s)
    ensures Inv(Next(s, Trim(t)))
  {
    hide NewestIds, TxFits, Excess, OfAgent;
    if Started(s, t, Counted) && s.open[t].over && s.open[t].mine.Some? {
      assert TxSound(s, t);
      TrimmedFits(s.rows, s.open[t], AgentIn(s, t));
      OthersKept(s, Next(s, Trim(t)), t);
    }
  }

  lemma UpsertStep(s: Store, t: TxId, id: MemoryId)
    requires Inv(s)
    ensures Inv(Next(s, Upsert(t, id)))
  {
    hide NewestIds;
    if Started(s, t, Locked) && UpsertsAt(s, t, id) {
      assert TxSound(s, t);
      forall u | u in s.open && u != t
        ensures s.open[u].mine.Some? ==> s.open[u].mine.value.id != id
      {
        UpsertApart(s, t, id, u);
      }
      OthersStay(s, Next(s, Upsert(t, id)), t);
    }
  }

  /** Replacing one transaction whose row, if any, is still apart from the others'. */
  lemma OthersStay(s: Store, after: Store, t: TxId)
    requires Inv(s) && t in s.open && t in after.open
    requires after == s.(open := s.open[t := after.open[t]])
    requires after.open[t].mine.Some? ==>
               forall u | u in s.open && u != t && s.open[u].mine.Some? ::
                 s.open[u].mine.value.id != after.open[t].mine.value.id
    ensures forall u | u in after.open && u != t :: TxSound(after, u)
    ensures forall u, v | u in after.open && v in after.open && u != v :: Apart(after, u, v)
  {
    hide TxFits;
    forall u | u in after.open && u != t
      ensures TxSound(after, u)
    {
      assert TxSound(s, u);
    }
    forall u, v | u in after.open && v in after.open && u != v
      ensures Apart(after, u, v)
    {
      assert Apart(s, u, v);
    }
  }

  lemma OthersKept(s: Store, after: Store, t: TxId)
    requires Inv(s) && t in s.open && t in after.open
    requires after == s.(open := s.open[t := after.open[t]]) && after.open[t].mine == s.open[t].mine
    ensures forall u | u in after.open && u != t :: TxSound(after, u)
    ensures forall u, v | u in after.open && v in after.open && u != v :: Apart(after, u, v)
  {
    hide TxFits;
    forall u | u in s.open && u != t
      ensures Apart(s, t, u)
    {
    }
    OthersStay(s, after, t);
  }

  /** Two transactions past their lock belong to different agents. */
  lemma LockExcludes(s: Store, t: TxId, u: TxId)
    requires Inv(s) && t in s.open && u in s.open && t != u
    requires s.open[t].phase != Begun && s.open[u].phase != Begun
    ensures s.open[t].task in s.agentOf && s.open[u].task in s.agentOf && AgentIn(s, t) != AgentIn(s, u)
  {
    hide TxFits;
    assert TxSound(s, t) && TxSound(s, u);
  }

  lemma UpsertApart(s: Store, t: TxId, id: MemoryId, u: TxId)
    requires Inv(s) && Started(s, t, Locked) && UpsertsAt(s, t, id) && u in s.open && u != t
    ensures s.open[u].mine.Some? ==> s.open[u].mine.value.id != id
  {
    hide NewestIds;
    assert TxSound(s, u);
    if s.open[u].mine.Some? {
      LockExcludes(s, t, u);
      assert !Touches(s.open[u], id) || id in OfTask(s.rows, s.open[t].task);
    }
  }

  // ---- Steps that open, lock and close ------------------------------------------------------

  lemma BeginStep(s: Store, step: Step)
    requires Inv(s) && (step.Begin? || step.Lock? || step.Tick?)
    ensures Inv(Next(s, step))
  {
    hide NewestIds, Saw, Rewrites, OfAgent;
    var after := Next(s, step);
    forall u | u in after.open
      ensures TxSound(after, u)
    {
      assert u in s.open ==> TxSound(s, u);
    }
    forall u, v | u in after.open && v in after.open && u != v
      ensures Apart(after, u, v)
    {
      assert u in s.open && v in s.open ==> Apart(s, u, v);
    }
  }

  /** Rows of other agents, and deletions of rows it does not touch, leave a transaction sound. */
  lemma FitsStill(rows: Rows, after: Rows, x: Tx, a: AgentKey)
    requires TxFits(rows, x, a)
    requires Within(OfAgent(after, a), OfAgent(rows, a))
    requires forall i | i in OfAgent(rows, a) && Touches(x, i) :: i in after && after[i] == rows[i]
    requires x.mine.Some? && x.inserted ==> x.mine.value.id !in after && Inserts(after, x.task)
    ensures TxFits(after, x, a)
  {
    hide NewestIds;
    if x.mine.Some? && !x.inserted {
      assert x.mine.value.id in OfAgent(rows, a);
    }
  }

  lemma DeleteStep(s: Store, id: MemoryId)
    requires Inv(s)
    ensures Inv(Next(s, Delete(id)))
  {
    hide NewestIds, TxFits, Touches;
    if forall u | u in s.open :: !Touches(s.open[u], id) {
      var after := Next(s, Delete(id));
      forall t | t in after.open
        ensures TxSound(after, t)
      {
        assert TxSound(s, t);
        DeletedFits(s.rows, id, s.open[t], AgentIn(s, t));
      }
      forall u, v | u in after.open && v in after.open && u != v
        ensures Apart(after, u, v)
      {
        assert Apart(s, u, v);
      }
    }
  }

  lemma DeletedFits(rows: Rows, id: MemoryId, x: Tx, a: AgentKey)
    requires TxFits(rows, x, a) && !Touches(x, id)
    ensures TxFits(rows - {id}, x, a)
  {
    FitsStill(rows, rows - {id}, x, a);
  }

  lemma RollbackStep(s: Store, t: TxId)
    requires Inv(s)
    ensures Inv(Next(s, Rollback(t)))
  {
    hide TxFits;
    var after := Next(s, Rollback(t));
    forall u | u in after.open
      ensures TxSound(after, u)
    {
      assert TxSound(s, u);
    }
    forall u, v | u in after.open && v in after.open && u != v
      ensures Apart(after, u, v)
    {
      assert Apart(s, u, v);
    }
  }

  /** A commit changes rows of its own agent only. */
  lemma ViewTouchesAgent(rows: Rows, agentOf: map<TaskId, AgentKey>, x: Tx, a: AgentKey)
    requires WellKeyed(rows) && Filed(rows, agentOf) && TxFits(rows, x, a) && x.mine.Some?
    requires x.task in agentOf && agentOf[x.task] == a
    ensures var after := View(rows, x);
      && WellKeyed(after) && Filed(after, agentOf)
      && (forall b | b != a :: OfAgent(after, b) == OfAgent(rows, b))
      && (forall task | task != x.task :: OfTask(after, task) <= OfTask(rows, task))
  {
    hide NewestIds, Saw;
    var after, r := View(rows, x), x.mine.value;
    assert forall i | i in after && i != r.id :: i in rows && after[i] == rows[i];
    if !x.inserted {
      assert rows[r.id].task == x.task;
    } else {
      assert forall i | i in rows :: i in OfTask(rows, x.task) <==> rows[i].task == x.task;
    }
    forall b | b != a
      ensures OfAgent(after, b) == OfAgent(rows, b)
    {
      ViewKeepsOthers(rows, x, a, b);
    }
  }

  lemma ViewKeepsOthers(rows: Rows, x: Tx, a: AgentKey, b: AgentKey)
    requires x.mine.Some? && x.mine.value.agent == a && b != a && x.evicted <= OfAgent(rows, a).Keys
    requires x.mine.value.id in rows ==> rows[x.mine.value.id].agent == a
    ensures OfAgent(View(rows, x), b) == OfAgent(rows, b)
  {
    assert forall i | i in OfAgent(rows, b) :: i !in x.evicted && i != x.mine.value.id;
  }

  lemma CommitStep(s: Store, t: TxId)
    requires Inv(s)
    ensures Inv(Next(s, Commit(t)))
  {
    hide NewestIds, TxFits, WellKeyed, Filed;
    if MayCommit(s, t) {
      var after := Next(s, Commit(t));
      assert TxSound(s, t);
      MineMeansLocked(s, t);
      ViewTouchesAgent(s.rows, s.agentOf, s.open[t], AgentIn(s, t));
      forall u | u in after.open
        ensures TxSound(after, u)
      {
        assert TxSound(s, u) && Apart(s, t, u);
        CommitKeeps(s, t, u);
      }
      forall u, v | u in after.open && v in after.open && u != v
        ensures Apart(after, u, v)
      {
        assert Apart(s, u, v);
      }
    }
  }

  lemma MineMeansLocked(s: Store, t: TxId)
    requires Inv(s) && t in s.open && s.open[t].mine.Some?
    ensures s.open[t].phase != Begun
  {
    assert TxSound(s, t);
  }

  lemma CommitKeeps(s: Store, t: TxId, u: TxId)
    requires Inv(s) && MayCommit(s, t) && u in s.open && u != t
    requires s.open[u].task in s.agentOf
    ensures TxFits(View(s.rows, s.open[t]), s.open[u], AgentIn(s, u))
  {
    hide NewestIds, Saw, Rewrites, Filed, WellKeyed;
    assert TxSound(s, t) && TxSound(s, u) && Apart(s, t, u);
    MineMeansLocked(s, t);
    var x, y, after := s.open[t], s.open[u], View(s.rows, s.open[t]);
    ViewTouchesAgent(s.rows, s.agentOf, x, AgentIn(s, t));
    if y.phase != Begun {
      LockExcludes(s, t, u);
      FitsStill(s.rows, after, y, AgentIn(s, u));
    }
  }

  // ---- Theorems --------------------------------------------------------------------------------

  lemma InvKept(s: Store, step: Step)
    requires Inv(s)
    ensures Inv(Next(s, step))
  {
    hide Inv, Next;
    match step
    case Tick(d) => BeginStep(s, step);
    case Begin(t, task, body, configured) => BeginStep(s, step);
    case Lock(t) => BeginStep(s, step);
    case Upsert(t, id) => UpsertStep(s, t, id);
    case Count(t) => CountStep(s, t);
    case Trim(t) => TrimStep(s, t);
    case Commit(t) => CommitStep(s, t);
    case Rollback(t) => RollbackStep(s, t);
    case Delete(id) => DeleteStep(s, id);
  }

  /** Whatever the interleaving, rows stay keyed by id, no task has two rows, and each open
      transaction holds its agent's lock from its upsert on. */
  lemma {:induction false} InvOnRuns(s: Store, steps: seq<Step>)
    requires Inv(s)
    ensures Inv(Run(s, steps))
    decreases |steps|
  {
    hide Inv, Next;
    if steps == [] {
    } else {
      InvKept(s, steps[0]);
      InvOnRuns(Next(s, steps[0]), steps[1..]);
    }
  }

  lemma KeptAmongSeen(before: Rows, x: Tx, kept: set<MemoryId>)
    requires x.mine.Some? && WellKeyed(x.seen) && Within(before, x.seen) && x.mine.value.id !in x.seen
    requires kept == {x.mine.value.id} + NewestIds(x.seen, NonKeepCap(x.cap)) * before.Keys
    ensures |kept| <= Max(x.cap, 1)
  {
    hide NewestIds;
    var newest := NewestIds(x.seen, NonKeepCap(x.cap));
    NewestSize(x.seen, NonKeepCap(x.cap));
    SubsetSize(newest * before.Keys, newest);
  }

  lemma ViewKeys(rows: Rows, x: Tx, a: AgentKey)
    requires x.mine.Some? && x.mine.value.agent == a
    ensures OfAgent(View(rows, x), a).Keys == {x.mine.value.id} + (OfAgent(rows, a).Keys - x.evicted)
  {
  }

  lemma ViewKeepsNewest(rows: Rows, x: Tx, a: AgentKey)
    requires TxFits(rows, x, a) && x.mine.Some? && x.inserted
    requires x.phase == Trimmed || (x.phase == Counted && !x.over)
    ensures OfAgent(View(rows, x), a).Keys
         == {x.mine.value.id} + NewestIds(x.seen, NonKeepCap(x.cap)) * OfAgent(rows, a).Keys
    ensures |OfAgent(View(rows, x), a)| <= Max(x.cap, 1)
  {
    ViewKeys(rows, x, a);
    if x.phase == Counted {
      AllAreNewest(x.seen, NonKeepCap(x.cap));
    }
    hide NewestIds, OfAgent, View, WellKeyed;
    var before := OfAgent(rows, a);
    assert before.Keys - x.evicted == NewestIds(x.seen, NonKeepCap(x.cap)) * before.Keys;
    KeptAmongSeen(before, x, OfAgent(View(rows, x), a).Keys);
    assert |OfAgent(View(rows, x), a)| == |OfAgent(View(rows, x), a).Keys|;
  }

  lemma TxPhases(rows: Rows, x: Tx, a: AgentKey)
    requires TxFits(rows, x, a)
    ensures x.phase in {Counted, Trimmed} ==> x.mine.Some? && x.inserted
    ensures x.phase in {Counted, Trimmed} ==> Within(OfAgent(rows, a), x.seen)
    ensures x.mine.Some? ==> x.mine.value.agent == a && (x.inserted ==> x.mine.value.id !in rows)
  {
    hide Rewrites, NewestIds, OfAgent;
  }

  lemma CommitKeepsNewest(s: Store, t: TxId)
    requires Inv(s) && MayCommit(s, t) && s.open[t].inserted
    ensures var x, a := s.open[t], AgentIn(s, t); var after := Next(s, Commit(t)).rows;
      && Within(OfAgent(s.rows, a), x.seen) && x.mine.value.id !in s.rows
      && OfAgent(after, a).Keys
           == {x.mine.value.id} + NewestIds(x.seen, NonKeepCap(x.cap)) * OfAgent(s.rows, a).Keys
      && |OfAgent(after, a)| <= Max(x.cap, 1)
      && forall b | b != a :: OfAgent(after, b) == OfAgent(s.rows, b)
  {
    hide NewestIds, OfAgent, View, WellKeyed, Filed, TxFits;
    assert TxSound(s, t);
    TxPhases(s.rows, s.open[t], AgentIn(s, t));
    ViewTouchesAgent(s.rows, s.agentOf, s.open[t], AgentIn(s, t));
    ViewKeepsNewest(s.rows, s.open[t], AgentIn(s, t));
  }

  /** After the commit of an inserting transaction, on any run, the agent holds the new row and
      those of the newest `cap - 1` rows it saw that have not been deleted since: never more than
      its cap. */
  lemma InsertCommitKeepsNewest(start: Store, steps: seq<Step>, t: TxId)
    requires Initial(start)
    requires MayCommit(Run(start, steps), t) && Run(start, steps).open[t].inserted
    ensures var s := Run(start, steps); var x, a := s.open[t], AgentIn(s, t); var after := Next(s, Commit(t)).rows;
      && Within(OfAgent(s.rows, a), x.seen) && x.mine.value.id !in s.rows
      && OfAgent(after, a).Keys
           == {x.mine.value.id} + NewestIds(x.seen, NonKeepCap(x.cap)) * OfAgent(s.rows, a).Keys
      && |OfAgent(after, a)| <= Max(x.cap, 1)
      && forall b | b != a :: OfAgent(after, b) == OfAgent(s.rows, b)
  {
    hide Run, Next, NewestIds, OfAgent;
    InvOnRuns(start, steps);
    CommitKeepsNewest(Run(start, steps), t);
  }

  /** The commit of an updating transaction keeps every row and rewrites its own task's body. */
  lemma UpdateCommitKeepsRows(s: Store, t: TxId)
    requires Inv(s) && MayCommit(s, t) && !s.open[t].inserted
    ensures var x := s.open[t]; var after := Next(s, Commit(t)).rows;
      && x.mine.value.id in s.rows && s.rows[x.mine.value.id].task == x.task
      && after.Keys == s.rows.Keys && after == Rewritten(s.rows, x.mine.value.id, x.body)
  {
    hide NewestIds, OfAgent, WellKeyed, Filed, Saw, Inserts;
    assert TxSound(s, t);
    assert s.rows - {} == s.rows;
  }

  lemma SeenStaysCurrent(s: Store, step: Step)
    requires Inv(s) && SeenIsCurrent(s) && !step.Delete?
    ensures SeenIsCurrent(Next(s, step))
  {
    hide Inv, View, NewestIds, OfAgent, Excess, MaxEntries, Rewritten, Inserts, UpsertsAt;
    var after := Next(s, step);
    forall u | u in after.open && after.open[u].task in after.agentOf && after.open[u].phase in {Counted, Trimmed}
      ensures after.open[u].seen == OfAgent(after.rows, AgentIn(after, u))
    {
      if step.Commit? && MayCommit(s, step.t) {
        CommitApart(s, step.t, u);
      }
    }
  }

  lemma CommitApart(s: Store, t: TxId, u: TxId)
    requires Inv(s) && MayCommit(s, t) && u in s.open && u != t && s.open[u].phase != Begun
    ensures s.open[u].task in s.agentOf
    ensures OfAgent(View(s.rows, s.open[t]), AgentIn(s, u)) == OfAgent(s.rows, AgentIn(s, u))
  {
    hide NewestIds;
    assert TxSound(s, t) && TxSound(s, u);
    LockExcludes(s, t, u);
    ViewTouchesAgent(s.rows, s.agentOf, s.open[t], AgentIn(s, t));
  }

  lemma {:induction false} SeenOnRuns(s: Store, steps: seq<Step>)
    requires Inv(s) && SeenIsCurrent(s)
    requires forall step | step in steps :: !step.Delete?
    ensures Inv(Run(s, steps)) && SeenIsCurrent(Run(s, steps))
    decreases |steps|
  {
    hide Inv, Next, SeenIsCurrent;
    if steps == [] {
    } else {
      InvKept(s, steps[0]);
      SeenStaysCurrent(s, steps[0]);
      SeenOnRuns(Next(s, steps[0]), steps[1..]);
    }
  }

  /** Serializability under the lock: on every run without deletions, an inserting commit leaves
      the table as if its whole transaction had run alone at that moment, so the agent holds
      exactly the new row and the newest `cap - 1` of the others. */
  lemma InsertCommitIsSerial(start: Store, steps: seq<Step>, t: TxId)
    requires Initial(start) && forall step | step in steps :: !step.Delete?
    requires MayCommit(Run(start, steps), t) && Run(start, steps).open[t].inserted
    ensures var s := Run(start, steps); var x, a := s.open[t], AgentIn(s, t); var after := Next(s, Commit(t)).rows;
      && after == InsertedAlone(s.rows, x.mine.value, x.cap)
      && OfAgent(after, a).Keys == {x.mine.value.id} + NewestIds(OfAgent(s.rows, a), NonKeepCap(x.cap))
  {
    hide Run, Next;
    SeenOnRuns(start, steps);
    SerialCommit(Run(start, steps), t);
  }

  lemma SerialCommit(s: Store, t: TxId)
    requires Inv(s) && SeenIsCurrent(s) && MayCommit(s, t) && s.open[t].inserted
    ensures var x, a := s.open[t], AgentIn(s, t); var after := Next(s, Commit(t)).rows;
      && after == InsertedAlone(s.rows, x.mine.value, x.cap)
      && OfAgent(after, a).Keys == {x.mine.value.id} + NewestIds(OfAgent(s.rows, a), NonKeepCap(x.cap))
  {
    hide TxFits, NewestIds, View, WellKeyed, Filed, OfAgent, InsertedAlone;
    assert TxSound(s, t);
    TxPhases(s.rows, s.open[t], AgentIn(s, t));
    CommitIsAlone(s.rows, s.open[t], AgentIn(s, t));
  }

  lemma EvictsExcess(rows: Rows, x: Tx, a: AgentKey)
    requires TxFits(rows, x, a) && x.mine.Some? && x.inserted && x.seen == OfAgent(rows, a)
    requires x.phase == Trimmed || (x.phase == Counted && !x.over)
    ensures x.evicted == Excess(rows[x.mine.value.id := x.mine.value], a, x.mine.value.id, x.cap)
    ensures x.mine.value.id !in x.evicted && x.mine.value.id !in rows && x.mine.value.agent == a
  {
    var r := x.mine.value;
    InsertGrowsAgent(rows, rows[r.id := r], r.id, a);
    if x.phase == Counted {
      AllAreNewest(x.seen, NonKeepCap(x.cap));
    }
  }

  lemma CommitIsAlone(rows: Rows, x: Tx, a: AgentKey)
    requires WellKeyed(rows) && TxFits(rows, x, a) && x.mine.Some? && x.inserted
    requires x.phase == Trimmed || (x.phase == Counted && !x.over)
    requires x.seen == OfAgent(rows, a)
    ensures View(rows, x) == InsertedAlone(rows, x.mine.value, x.cap)
    ensures OfAgent(View(rows, x), a).Keys
         == {x.mine.value.id} + NewestIds(OfAgent(rows, a), NonKeepCap(x.cap))
  {
    hide NewestIds, OfAgent, WellKeyed, Excess, TxFits;
    var r := x.mine.value;
    EvictsExcess(rows, x, a);
    InsertThenTrim(rows, rows[r.id := r], r.id, a, x.cap);
    RemoveAndPut(rows, x.evicted, r);
  }

  lemma RemoveAndPut(rows: Rows, gone: set<MemoryId>, r: Row)
    requires r.id !in gone
    ensures (rows - gone)[r.id := r] == rows[r.id := r] - gone
  {
  }

  /** Transactions of the agent work under caps of at most `limit`. */
  predicate CapsWithin(s: Store, a: AgentKey, limit: nat)
  {
    forall t | t in s.open && s.open[t].task in s.agentOf && AgentIn(s, t) == a :: s.open[t].cap <= limit
  }

  predicate ConfiguredWithin(agentOf: map<TaskId, AgentKey>, step: Step, a: AgentKey, limit: nat)
  {
    step.Begin? && step.task in agentOf && agentOf[step.task] == a ==> MaxEntries(step.configured) <= limit
  }

  lemma CapKept(s: Store, step: Step, a: AgentKey, limit: nat)
    requires Inv(s) && CapsWithin(s, a, limit) && |OfAgent(s.rows, a)| <= limit && limit >= 1
    requires ConfiguredWithin(s.agentOf, step, a, limit)
    ensures CapsWithin(Next(s, step), a, limit) && |OfAgent(Next(s, step).rows, a)| <= limit
    ensures Next(s, step).agentOf == s.agentOf
  {
    hide Inv, View, NewestIds, OfAgent, MaxEntries;
    if step.Commit? && MayCommit(s, step.t) {
      CommitWithinCap(s, step.t, a, limit);
    } else if step.Delete? {
      DeleteShrinks(s.rows, step.id, a);
    }
  }

  /** The agent holds at most `limit` rows, and a transaction of its own works under such a cap. */
  predicate CapFits(x: Tx, owner: AgentKey, held: Rows, a: AgentKey, limit: nat)
  {
    |held| <= limit && limit >= 1 && (owner == a ==> x.cap <= limit)
  }

  lemma CommitWithinCap(s: Store, t: TxId, a: AgentKey, limit: nat)
    requires Inv(s) && MayCommit(s, t)
    requires CapFits(s.open[t], AgentIn(s, t), OfAgent(s.rows, a), a, limit)
    ensures |OfAgent(Next(s, Commit(t)).rows, a)| <= limit
  {
    hide Inv, View, NewestIds, OfAgent, Next;
    if s.open[t].inserted {
      CommitKeepsNewest(s, t);
    } else {
      UpdateCommitKeepsRows(s, t);
      RewriteKeepsSize(s.rows, s.open[t].mine.value.id, s.open[t].body, a);
    }
  }

  lemma RewriteKeepsSize(rows: Rows, id: MemoryId, body: nat, a: AgentKey)
    ensures |OfAgent(Rewritten(rows, id, body), a)| == |OfAgent(rows, a)|
  {
    var before, after := OfAgent(rows, a), OfAgent(Rewritten(rows, id, body), a);
    assert after.Keys == before.Keys;
    assert |after| == |after.Keys| && |before| == |before.Keys|;
  }

  lemma DeleteShrinks(rows: Rows, id: MemoryId, a: AgentKey)
    ensures |OfAgent(rows - {id}, a)| <= |OfAgent(rows, a)|
  {
    var before, after := OfAgent(rows, a), OfAgent(rows - {id}, a);
    SubsetSize(after.Keys, before.Keys);
    assert |after| == |after.Keys| && |before| == |before.Keys|;
  }

  lemma {:induction false} CapOnRuns(s: Store, steps: seq<Step>, a: AgentKey, limit: nat)
    requires Inv(s) && CapsWithin(s, a, limit) && |OfAgent(s.rows, a)| <= limit && limit >= 1
    requires forall step | step in steps :: ConfiguredWithin(s.agentOf, step, a, limit)
    ensures |OfAgent(Run(s, steps).rows, a)| <= limit
    decreases |steps|
  {
    hide Inv, Next, CapsWithin, OfAgent;
    if steps == [] {
    } else {
      InvKept(s, steps[0]);
      CapKept(s, steps[0], a, limit);
      CapOnRuns(Next(s, steps[0]), steps[1..], a, limit);
    }
  }

  /** On every interleaving, deletions included, an agent whose configured caps never exceed
      `limit` never holds more committed rows than that. */
  lemma AgentStaysWithinCap(start: Store, steps: seq<Step>, a: AgentKey, limit: nat)
    requires Initial(start) && limit >= 1
    requires forall step | step in steps :: ConfiguredWithin(start.agentOf, step, a, limit)
    ensures |OfAgent(Run(start, steps).rows, a)| <= limit
  {
    assert OfAgent(start.rows, a) == map[];
    CapOnRuns(start, steps, a, limit);
  }

  /** An upsert of the agent that has not counted yet. */
  predicate Uncounted(s: Store, t: TxId, a: AgentKey)
  {
    Started(s, t, Upserted) && s.open[t].inserted && s.open[t].evicted == {} && AgentIn(s, t) == a
    && s.open[t].mine.Some? && s.open[t].mine.value.agent == a && s.open[t].mine.value.id !in s.rows
  }

  /** Why the lock is there: if two inserts of one agent could both be open at one row below the
      cap, each would count exactly the cap, both would skip the trim, and the cap is passed. */
  lemma WithoutLockCapIsPassed(s: Store, t: TxId, u: TxId, a: AgentKey)
    requires t != u && Uncounted(s, t, a) && Uncounted(s, u, a)
    requires s.open[t].mine.value.id != s.open[u].mine.value.id
    requires s.open[t].cap == s.open[u].cap == |OfAgent(s.rows, a)| + 1
    ensures |OfAgent(Run(s, [Count(t), Count(u), Commit(t), Commit(u)]).rows, a)| == s.open[t].cap + 1
  {
    hide NewestIds, Excess, OfAgent, Run;
    var r, q := s.open[t].mine.value, s.open[u].mine.value;
    var s1 := Next(s, Count(t));
    var s2 := Next(s1, Count(u));
    var s3 := Next(s2, Commit(t));
    var s4 := Next(s3, Commit(u));
    FourSteps(s, Count(t), Count(u), Commit(t), Commit(u));
    assert s.rows - {} == s.rows;
    InsertGrowsAgent(s.rows, s.rows[r.id := r], r.id, a);
    InsertGrowsAgent(s.rows, s.rows[q.id := q], q.id, a);
    assert s3.rows == s.rows[r.id := r];
    assert s3.rows - {} == s3.rows;
    InsertGrowsAgent(s3.rows, s3.rows[q.id := q], q.id, a);
  }

  lemma FourSteps(s: Store, a: Step, b: Step, c: Step, d: Step)
    ensures Run(s, [a, b, c, d]) == Next(Next(Next(Next(s, a), b), c), d)
  {
    hide Next;
    assert [a, b, c, d][1..] == [b, c, d] && [b, c, d][1..] == [c, d] && [c, d][1..] == [d] && [d][1..] == [];
    var s2 := Next(Next(s, a), b);
    assert Run(s, [a, b, c, d]) == Run(Next(s, a), [b, c, d]) == Run(s2, [c, d]);
    assert Run(s2, [c, d]) == Run(Next(s2, c), [d]) == Run(Next(Next(s2, c), d), []);
  }

  // ---- One transaction alone -----------------------------------------------------------------------

  /** A transaction from its beginning to its commit; a count or a trim that does not apply is skipped. */
  function Solo(t: TxId, task: TaskId, d: Draft): seq<Step>
  {
    [Begin(t, task, d.body, d.configured), Lock(t), Upsert(t, d.newId), Count(t), Trim(t), Commit(t)]
  }

  predicate Idle(s: Store)
  {
    s.open == map[] && s.locks == map[]
  }

  function Holding(s: Store, t: TxId, x: Tx): Store
    requires x.task in s.agentOf
  {
    s.(open := map[t := x], locks := map[s.agentOf[x.task] := t])
  }

  function Ready(s: Store, task: TaskId, d: Draft): Tx
  {
    Tx(task, d.body, MaxEntries(d.configured), s.now, Locked, None, false, false, {}, map[])
  }

  lemma SoloLocks(s: Store, t: TxId, task: TaskId, d: Draft)
    requires Idle(s) && task in s.agentOf
    ensures Next(Next(s, Begin(t, task, d.body, d.configured)), Lock(t)) == Holding(s, t, Ready(s, task, d))
  {
    hide MaxEntries;
  }

  lemma SoloCommits(s: Store, t: TxId, x: Tx)
    requires Idle(s) && x.task in s.agentOf && x.mine.Some?
    requires x.phase == Trimmed || (x.phase == Counted && !x.over) || (x.phase == Upserted && !x.inserted)
    ensures Next(Holding(s, t, x), Commit(t)) == s.(rows := View(s.rows, x))
  {
    hide View;
    var h := Holding(s, t, x);
    assert h.open - {t} == map[];
    assert Closed(h, t).locks == map[];
  }

  lemma SoloUpdates(s: Store, t: TxId, task: TaskId, d: Draft)
    requires Idle(s) && WellKeyed(s.rows) && task in s.agentOf && d.newId in OfTask(s.rows, task)
    ensures Run(Holding(s, t, Ready(s, task, d)), [Upsert(t, d.newId), Count(t), Trim(t), Commit(t)])
         == s.(rows := Rewritten(s.rows, d.newId, d.body))
  {
    hide MaxEntries;
    var h, x := Holding(s, t, Ready(s, task, d)), Ready(s, task, d);
    FourSteps(h, Upsert(t, d.newId), Count(t), Trim(t), Commit(t));
    var y := x.(phase := Upserted, mine := Some(Rewritten(s.rows, d.newId, d.body)[d.newId]), inserted := false);
    assert Next(h, Upsert(t, d.newId)) == Holding(s, t, y);
    SoloCommits(s, t, y);
    assert s.rows - {} == s.rows;
  }

  function NewRow(s: Store, task: TaskId, d: Draft): Row
    requires task in s.agentOf
  {
    Row(d.newId, s.agentOf[task], task, d.body, 1, s.now)
  }

  /** The transaction after it counted. */
  function Tallied(s: Store, task: TaskId, d: Draft): Tx
    requires task in s.agentOf
  {
    var r := NewRow(s, task, d);
    Ready(s, task, d).(phase := Counted, mine := Some(r), inserted := true, seen := OfAgent(s.rows, r.agent),
                       over := |OfAgent(s.rows[r.id := r], r.agent)| > MaxEntries(d.configured))
  }

  lemma SoloCounts(s: Store, t: TxId, task: TaskId, d: Draft)
    requires Idle(s) && task in s.agentOf && Inserts(s.rows, task) && d.newId !in s.rows
    ensures Next(Next(Holding(s, t, Ready(s, task, d)), Upsert(t, d.newId)), Count(t))
         == Holding(s, t, Tallied(s, task, d))
  {
    hide MaxEntries, Inserts, OfAgent;
    var y := Ready(s, task, d).(phase := Upserted, mine := Some(NewRow(s, task, d)), inserted := true);
    assert Next(Holding(s, t, Ready(s, task, d)), Upsert(t, d.newId)) == Holding(s, t, y);
    assert s.rows - {} == s.rows;
  }

  lemma SoloTrims(s: Store, t: TxId, task: TaskId, d: Draft)
    requires Idle(s) && task in s.agentOf && d.newId !in s.rows && Tallied(s, task, d).over
    ensures Next(Next(Holding(s, t, Tallied(s, task, d)), Trim(t)), Commit(t))
         == s.(rows := InsertedAlone(s.rows, NewRow(s, task, d), MaxEntries(d.configured)))
  {
    hide MaxEntries, OfAgent, Excess;
    var z, r := Tallied(s, task, d), NewRow(s, task, d);
    var all := s.rows[r.id := r];
    assert s.rows - {} == s.rows;
    var w := z.(phase := Trimmed, evicted := Excess(all, r.agent, r.id, z.cap));
    assert Next(Holding(s, t, z), Trim(t)) == Holding(s, t, w);
    SoloCommits(s, t, w);
    OwnRowStays(s.rows, all, r.agent, r, z.cap);
  }

  lemma SoloFits(s: Store, t: TxId, task: TaskId, d: Draft)
    requires Idle(s) && WellKeyed(s.rows) && Inserts(s.rows, task)
    requires task in s.agentOf && d.newId !in s.rows && !Tallied(s, task, d).over
    ensures Next(Next(Holding(s, t, Tallied(s, task, d)), Trim(t)), Commit(t))
         == s.(rows := InsertedAlone(s.rows, NewRow(s, task, d), MaxEntries(d.configured)))
  {
    hide MaxEntries, OfAgent, Excess, Inserts, WellKeyed;
    var z, r := Tallied(s, task, d), NewRow(s, task, d);
    var all := s.rows[r.id := r];
    assert Next(Holding(s, t, z), Trim(t)) == Holding(s, t, z);
    SoloCommits(s, t, z);
    InsertKeepsKeys(s.rows, r);
    AgentRow(all, r.id);
    NoExcess(all, r.agent, r.id, z.cap);
    assert s.rows - {} == s.rows && all - {} == all;
  }

  lemma SoloInserts(s: Store, t: TxId, task: TaskId, d: Draft)
    requires Idle(s) && WellKeyed(s.rows) && task in s.agentOf && Inserts(s.rows, task) && d.newId !in s.rows
    ensures Run(Holding(s, t, Ready(s, task, d)), [Upsert(t, d.newId), Count(t), Trim(t), Commit(t)])
         == s.(rows := InsertedAlone(s.rows, NewRow(s, task, d), MaxEntries(d.configured)))
  {
    hide Next, MaxEntries, WellKeyed, Inserts, InsertedAlone;
    FourSteps(Holding(s, t, Ready(s, task, d)), Upsert(t, d.newId), Count(t), Trim(t), Commit(t));
    SoloCounts(s, t, task, d);
    if Tallied(s, task, d).over {
      SoloTrims(s, t, task, d);
    } else {
      SoloFits(s, t, task, d);
    }
  }

  lemma OwnRowStays(rows: Rows, all: Rows, a: AgentKey, r: Row, cap: int)
    requires r.id !in rows && all == rows[r.id := r]
    ensures (rows - Excess(all, a, r.id, cap))[r.id := r] == all - Excess(all, a, r.id, cap)
  {
    hide NewestIds;
  }

  lemma InsertKeepsKeys(rows: Rows, r: Row)
    requires WellKeyed(rows) && Inserts(rows, r.task) && r.id !in rows
    ensures WellKeyed(rows[r.id := r])
  {
    assert forall i | i in rows :: i in OfTask(rows, r.task) <==> rows[i].task == r.task;
  }

  /** Run alone, the statements of a transaction come to the sequential commit: a new row with the trim
      when the task had none, else its own row rewritten; and they leave no transaction and no lock. */
  lemma SoloIsCommit(s: Store, t: TxId, task: TaskId, d: Draft)
    requires Idle(s) && WellKeyed(s.rows) && task in s.agentOf
    requires if Inserts(s.rows, task) then d.newId !in s.rows else d.newId in OfTask(s.rows, task)
    ensures var end := Run(s, Solo(t, task, d));
      end == s.(rows := end.rows) && Committed(s.rows, end.rows, s.agentOf[task], task, d, s.now)
  {
    hide Next, WellKeyed, MaxEntries, InsertedAlone, Rewritten;
    var steps := Solo(t, task, d);
    var rest := [Upsert(t, d.newId), Count(t), Trim(t), Commit(t)];
    assert steps[1..][1..] == rest;
    assert Run(s, steps) == Run(Next(Next(s, steps[0]), steps[1]), rest);
    SoloLocks(s, t, task, d);
    if Inserts(s.rows, task) {
      SoloInserts(s, t, task, d);
    } else {
      SoloUpdates(s, t, task, d);
      OnlyRowOfTask(s.rows, task, d.newId);
    }
  }

  lemma OnlyRowOfTask(rows: Rows, task: TaskId, id: MemoryId)
    requires WellKeyed(rows) && id in OfTask(rows, task)
    ensures OfTask(rows, task) == {id}
  {
  }
}
