/** The agent cost ledger: conflict-ignoring inserts, the two aggregates the budget check
    reads, and the two-hour pruning. */
module Ledger {
  import opened Tables

  datatype Operation = ModelTokenSpend | CompactionTier3

  /** What a charge is attributed to: a checkpoint row, the per-task sandbox, or a compaction
      that ran before any checkpoint existed. */
  datatype CostRef = AtCheckpoint(id: CheckpointId) | AtSandbox | AtCompaction(turn: Option<nat>)

  datatype Charge = Charge(
    agent: AgentKey,
    task: TaskId,
    ref: CostRef,
    cost: nat,
    op: Operation,
    turn: Option<nat>,
    at: Time)

  /** The partial unique index covers compaction rows only, and SQL nulls never collide. */
  predicate Conflicts(c: Charge, d: Charge)
  {
    c.op == CompactionTier3 && d.op == CompactionTier3 && c.turn.Some? && c.turn == d.turn
    && c.agent.tenant == d.agent.tenant && c.task == d.task && c.ref == d.ref
  }

  predicate Accepts(ledger: seq<Charge>, c: Charge)
  {
    forall d | d in ledger :: !Conflicts(c, d)
  }

  function Insert(ledger: seq<Charge>, c: Charge): seq<Charge>
  {
    if Accepts(ledger, c) then ledger + [c] else ledger
  }

  predicate InWindow(c: Charge, a: AgentKey, now: Time)
  {
    c.agent == a && c.at > now - HOUR
  }

  /** Rolling 60-minute spend of an agent. */
  function WindowSum(ledger: seq<Charge>, a: AgentKey, now: Time): nat
  {
    if ledger == [] then 0
    else
      var c := ledger[|ledger| - 1];
      WindowSum(ledger[..|ledger| - 1], a, now) + if InWindow(c, a, now) then c.cost else 0
  }

  /** Oldest timestamp inside the rolling window. */
  function WindowStart(ledger: seq<Charge>, a: AgentKey, now: Time): Option<Time>
  {
    if ledger == [] then None
    else
      var c := ledger[|ledger| - 1];
      var rest := WindowStart(ledger[..|ledger| - 1], a, now);
      if !InWindow(c, a, now) then rest
      else if rest.Some? then Some(Min(rest.value, c.at))
      else Some(c.at)
  }

  function TaskSum(ledger: seq<Charge>, id: TaskId): nat
  {
    if ledger == [] then 0
    else
      var c := ledger[|ledger| - 1];
      TaskSum(ledger[..|ledger| - 1], id) + if c.task == id then c.cost else 0
  }

  /** DELETE of every row older than two hours. */
  function Pruned(ledger: seq<Charge>, now: Time): seq<Charge>
  {
    if ledger == [] then []
    else
      var c := ledger[|ledger| - 1];
      var rest := Pruned(ledger[..|ledger| - 1], now);
      if c.at < now - 2 * HOUR then rest else rest + [c]
  }

  /** Pruning drops every row older than two hours and keeps every other row as often as it was. */
  lemma {:induction false} PrunedRows(ledger: seq<Charge>, now: Time, c: Charge)
    ensures multiset(Pruned(ledger, now))[c] == if c.at < now - 7_200_000_000 then 0 else multiset(ledger)[c]
  {
    if ledger == [] {
    } else {
      var n := |ledger| - 1;
      PrunedRows(ledger[..n], now, c);
      assert ledger == ledger[..n] + [ledger[n]];
    }
  }

  /** Pruning is invisible to every window read made at the time of pruning or later. */
  lemma {:induction false} PruningKeepsWindows(ledger: seq<Charge>, a: AgentKey, prunedAt: Time, now: Time)
    requires prunedAt <= now
    ensures WindowSum(Pruned(ledger, prunedAt), a, now) == WindowSum(ledger, a, now)
    ensures WindowStart(Pruned(ledger, prunedAt), a, now) == WindowStart(ledger, a, now)
  {
    if ledger == [] {
    } else {
      var n := |ledger| - 1;
      PruningKeepsWindows(ledger[..n], a, prunedAt, now);
      var rest := Pruned(ledger[..n], prunedAt);
      assert (rest + [ledger[n]])[..|rest|] == rest;
    }
  }

  /** Inserting a row adds its cost to its own agent's last hour and to its own task's total. It is
      ignored only when it is a compaction charge with a turn that the same task of the tenant already
      holds for the same reference and turn. */
  lemma InsertAddsCost(ledger: seq<Charge>, c: Charge, a: AgentKey, id: TaskId, now: Time)
    ensures var known := c.op == CompactionTier3 && c.turn.Some? && exists d | d in ledger ::
              d.op == CompactionTier3 && d.turn == c.turn && d.ref == c.ref && d.task == c.task
              && d.agent.tenant == c.agent.tenant;
      && Insert(ledger, c) == (if known then ledger else ledger + [c])
      && WindowSum(Insert(ledger, c), a, now)
           == WindowSum(ledger, a, now)
              + (if !known && c.agent == a && c.at > now - 3_600_000_000 then c.cost else 0)
      && TaskSum(Insert(ledger, c), id)
           == TaskSum(ledger, id) + (if !known && c.task == id then c.cost else 0)
  {
    assert (ledger + [c])[..|ledger|] == ledger;
  }

  /** The window starts at the oldest charge of the last hour, if there is any. */
  lemma {:induction false} WindowStartIsOldest(ledger: seq<Charge>, a: AgentKey, now: Time)
    ensures var start := WindowStart(ledger, a, now);
      && (forall c | c in ledger && c.agent == a && c.at > now - 3_600_000_000 :: start.Some? && start.value <= c.at)
      && (start.Some? ==> exists c | c in ledger ::
                            c.agent == a && c.at == start.value && c.at > now - 3_600_000_000)
  {
    if ledger == [] {
    } else {
      var n := |ledger| - 1;
      WindowStartIsOldest(ledger[..n], a, now);
      assert ledger == ledger[..n] + [ledger[n]] && ledger[n] in ledger;
    }
  }

  /** Until the oldest charge of the window at `t0` ages out, no charge of that window has
      left it: the later sum is at least the sum seen at `t0`. */
  lemma {:induction false} WindowHeldUntilStartExpires(
    ledger: seq<Charge>, a: AgentKey, t0: Time, t: Time)
    requires t0 <= t
    requires WindowStart(ledger, a, t0).Some?
    requires t < WindowStart(ledger, a, t0).value + HOUR
    ensures WindowSum(ledger, a, t) >= WindowSum(ledger, a, t0)
  {
    var n := |ledger| - 1;
    if WindowStart(ledger[..n], a, t0).Some? {
      WindowHeldUntilStartExpires(ledger[..n], a, t0, t);
    } else {
      EmptyWindow(ledger[..n], a, t0);
    }
  }

  lemma {:induction false} EmptyWindow(ledger: seq<Charge>, a: AgentKey, now: Time)
    ensures WindowStart(ledger, a, now).None? ==> WindowSum(ledger, a, now) == 0
    ensures WindowStart(ledger, a, now).Some? ==> WindowStart(ledger, a, now).value > now - HOUR
  {
    if ledger == [] {
    } else {
      EmptyWindow(ledger[..|ledger| - 1], a, now);
    }
  }
}
