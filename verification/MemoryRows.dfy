/** The rows of agent_memory_entries: the recency order, the FIFO trim, and the repository's
    statements as methods over a table. */
module MemoryRows {
  import opened Tables

  type MemoryId = nat

  datatype Row = Row(id: MemoryId, agent: AgentKey, task: TaskId, body: nat, version: nat, createdAt: Time)

  type Rows = map<MemoryId, Row>

  const DEFAULT_MAX_ENTRIES: nat := 10_000
  const MIN_MAX_ENTRIES: nat := 100
  const MAX_MAX_ENTRIES: nat := 100_000

  /** The configured cap; anything but an integer counts as missing. */
  function MaxEntries(configured: Option<int>): nat
  {
    if configured.None? then DEFAULT_MAX_ENTRIES
    else Max(MIN_MAX_ENTRIES, Min(configured.value, MAX_MAX_ENTRIES))
  }

  /** Ten thousand by default, else the configured number between a hundred and a hundred thousand. */
  lemma CapIsClamped(n: int)
    ensures MaxEntries(None) == 10_000
    ensures MaxEntries(Some(n)) == if n < 100 then 100 else if n > 100_000 then 100_000 else n
  {
  }

  /** Each row is filed under its own id, and no task has two rows. */
  predicate WellKeyed(rows: Rows)
  {
    && (forall i | i in rows :: rows[i].id == i)
    && forall i, j | i in rows && j in rows && i != j :: rows[i].task != rows[j].task
  }

  function OfAgent(rows: Rows, a: AgentKey): Rows
  {
    map i | i in rows && rows[i].agent == a :: rows[i]
  }

  function OfTask(rows: Rows, task: TaskId): set<MemoryId>
  {
    set i | i in rows && rows[i].task == task
  }

  /** ORDER BY created_at DESC, memory_id DESC. */
  predicate Newer(r: Row, s: Row)
  {
    r.createdAt > s.createdAt || (r.createdAt == s.createdAt && r.id > s.id)
  }

  function NewerIds(rows: Rows, r: Row): set<MemoryId>
  {
    set i | i in rows && Newer(rows[i], r)
  }

  /** The first `m` rows in that order: those with fewer than `m` rows newer than them. */
  function NewestIds(rows: Rows, m: nat): set<MemoryId>
  {
    set i | i in rows && |NewerIds(rows, rows[i])| < m
  }

  lemma {:induction false} OldestExists(rows: Rows) returns (o: MemoryId)
    requires WellKeyed(rows) && rows != map[]
    ensures o in rows && forall i | i in rows && i != o :: Newer(rows[i], rows[o])
    decreases |rows|
  {
    var x :| x in rows;
    var rest := rows - {x};
    assert rows.Keys == rest.Keys + {x};
    if rest == map[] {
      o := x;
    } else {
      var y := OldestExists(rest);
      o := if Newer(rows[y], rows[x]) then x else y;
      forall i | i in rows && i != o
        ensures Newer(rows[i], rows[o])
      {
        assert i == x || i == y || Newer(rest[i], rest[y]);
      }
    }
  }

  lemma WithoutOldest(rows: Rows, o: MemoryId)
    requires WellKeyed(rows) && o in rows
    requires forall i | i in rows && i != o :: Newer(rows[i], rows[o])
    ensures var rest := rows - {o};
      && WellKeyed(rest) && rest.Keys + {o} == rows.Keys && |rest| + 1 == |rows|
      && NewerIds(rows, rows[o]) == rest.Keys
      && forall i | i in rest :: rest[i] == rows[i] && NewerIds(rest, rows[i]) == NewerIds(rows, rows[i])
  {
    var rest := rows - {o};
    assert rows.Keys == rest.Keys + {o};
    assert |rest| == |rest.Keys| && |rows| == |rows.Keys|;
  }

  /** The `m` newest rows are `m` rows, or all of them if there are fewer. */
  lemma {:induction false} NewestSize(rows: Rows, m: nat)
    requires WellKeyed(rows)
    ensures |NewestIds(rows, m)| == Min(m, |rows|)
    decreases |rows|
  {
    if rows == map[] {
      assert NewestIds(rows, m) == {};
    } else {
      var o := OldestExists(rows);
      var rest := rows - {o};
      WithoutOldest(rows, o);
      hide NewerIds, Newer, WellKeyed;
      NewestSize(rest, m);
      assert |rest| == |rest.Keys|;
      if |rest| < m {
        assert NewestIds(rows, m) == NewestIds(rest, m) + {o};
      } else {
        assert NewestIds(rows, m) == NewestIds(rest, m);
      }
    }
  }

  lemma NewerChains(rows: Rows, i: MemoryId, j: MemoryId)
    requires i in rows && j in rows && Newer(rows[i], rows[j])
    ensures |NewerIds(rows, rows[i])| < |NewerIds(rows, rows[j])|
  {
    assert i in NewerIds(rows, rows[j]) && i !in NewerIds(rows, rows[i]);
    SubsetSize(NewerIds(rows, rows[i]), NewerIds(rows, rows[j]));
  }

  /** Every row among the newest is newer than every row that is not. */
  lemma NewestAreNewer(rows: Rows, m: nat, kept: MemoryId, dropped: MemoryId)
    requires WellKeyed(rows) && kept in NewestIds(rows, m) && dropped in rows && dropped !in NewestIds(rows, m)
    ensures Newer(rows[kept], rows[dropped])
  {
    if Newer(rows[dropped], rows[kept]) {
      NewerChains(rows, dropped, kept);
    }
  }

  lemma AllAreNewest(rows: Rows, m: nat)
    requires WellKeyed(rows) && |rows| <= m
    ensures NewestIds(rows, m) == rows.Keys
  {
    NewestSize(rows, m);
    SubsetOfSameSize(NewestIds(rows, m), rows.Keys);
  }

  lemma SubsetOfSameSize(xs: set<MemoryId>, ys: set<MemoryId>)
    requires xs <= ys && |xs| >= |ys|
    ensures xs == ys
  {
    if xs != ys {
      SubsetSize(xs, ys);
    }
  }

  /** The newest row outside the newest `m` makes them the newest `m + 1`. */
  lemma NextNewest(rows: Rows, m: nat, x: MemoryId)
    requires WellKeyed(rows) && x in rows && x !in NewestIds(rows, m)
    requires forall j | j in rows && j !in NewestIds(rows, m) && j != x :: Newer(rows[x], rows[j])
    ensures NewestIds(rows, m + 1) == NewestIds(rows, m) + {x}
  {
    NewestSize(rows, m + 1);
    NewestSize(rows, m);
    forall j | j in rows && j !in NewestIds(rows, m)
      ensures NewestIds(rows, m) <= NewerIds(rows, rows[j])
    {
      forall k | k in NewestIds(rows, m)
        ensures k in NewerIds(rows, rows[j])
      {
        NewestAreNewer(rows, m, k, j);
      }
    }
    assert NewerIds(rows, rows[x]) == NewestIds(rows, m);
    SubsetSize(NewestIds(rows, m) + {x}, rows.Keys);
    forall j | j in rows && j !in NewestIds(rows, m) + {x}
      ensures j !in NewestIds(rows, m + 1)
    {
      NewerChains(rows, x, j);
    }
  }

  // ---- The statements ------------------------------------------------------------------------

  predicate Inserts(rows: Rows, task: TaskId)
  {
    OfTask(rows, task) == {}
  }

  /** What the trim leaves of the other rows counts beside the kept one. */
  function NonKeepCap(cap: int): nat
  {
    Max(0, cap - 1)
  }

  /** The rows the trim deletes: the agent's other rows past the newest `cap - 1`. */
  function Excess(rows: Rows, a: AgentKey, keep: MemoryId, cap: int): set<MemoryId>
  {
    var others := OfAgent(rows, a) - {keep};
    others.Keys - NewestIds(others, NonKeepCap(cap))
  }

  /** The update branch keeps id, agent, task and creation time. */
  function Rewritten(rows: Rows, id: MemoryId, body: nat): Rows
  {
    if id in rows then rows[id := rows[id].(body := body, version := rows[id].version + 1)] else rows
  }

  lemma NewestBounds(rows: Rows, m: nat)
    ensures NewestIds(rows, m) <= rows.Keys && NewestIds(rows, 0) == {}
  {
  }

  /** Skipping ran out of rows: nothing is in excess. */
  lemma NothingLeft(rows: Rows, skipped: nat, m: nat)
    requires WellKeyed(rows) && skipped <= m && rows.Keys - NewestIds(rows, skipped) == {}
    ensures rows.Keys - NewestIds(rows, m) == {}
  {
    NewestBounds(rows, skipped);
    NewestSize(rows, skipped);
    hide NewestIds, WellKeyed;
    forall i | i in rows.Keys
      ensures i in NewestIds(rows, skipped)
    {
      assert i !in rows.Keys - NewestIds(rows, skipped);
    }
    assert NewestIds(rows, skipped) == rows.Keys;
    assert |rows| == |rows.Keys|;
    AllAreNewest(rows, m);
  }

  lemma InsertGrowsAgent(before: Rows, after: Rows, id: MemoryId, a: AgentKey)
    requires id !in before && id in after && after[id].agent == a && after == before[id := after[id]]
    ensures OfAgent(after, a) - {id} == OfAgent(before, a)
    ensures |OfAgent(after, a)| == |OfAgent(before, a)| + 1
    ensures forall b | b != a :: OfAgent(after, b) == OfAgent(before, b)
  {
    assert OfAgent(after, a) == OfAgent(before, a)[id := after[id]];
  }

  /** The trim touches only the agent's own other rows. */
  lemma TrimTouches(rows: Rows, a: AgentKey, keep: MemoryId, cap: int)
    requires keep in rows && rows[keep].agent == a
    ensures var kept := rows - Excess(rows, a, keep, cap); var others := OfAgent(rows, a) - {keep};
      && keep in kept && kept[keep] == rows[keep]
      && OfAgent(kept, a).Keys == {keep} + NewestIds(others, NonKeepCap(cap))
      && forall b | b != a :: OfAgent(kept, b) == OfAgent(rows, b)
  {
    var others := OfAgent(rows, a) - {keep};
    NewestBounds(others, NonKeepCap(cap));
    hide NewestIds;
    var kept := rows - Excess(rows, a, keep, cap);
    assert OfAgent(kept, a).Keys == {keep} + NewestIds(others, NonKeepCap(cap));
  }

  /** After inserting `id` for the agent and trimming, the agent holds the new row and the newest
      others, and no other agent is touched. */
  lemma InsertThenTrim(before: Rows, after: Rows, id: MemoryId, a: AgentKey, cap: int)
    requires WellKeyed(before) && id !in before && id in after && after[id].agent == a
    requires after == before[id := after[id]]
    ensures var kept := after - Excess(after, a, id, cap);
      && id in kept && kept[id] == after[id]
      && OfAgent(kept, a).Keys == {id} + NewestIds(OfAgent(before, a), NonKeepCap(cap))
      && |OfAgent(kept, a)| == Min(|OfAgent(before, a)| + 1, Max(cap, 1))
      && forall b | b != a :: OfAgent(kept, b) == OfAgent(before, b)
  {
    InsertGrowsAgent(before, after, id, a);
    TrimTouches(after, a, id, cap);
    AgentKeyed(before, a);
    hide NewestIds, OfAgent, Excess;
    NewestSize(OfAgent(before, a), NonKeepCap(cap));
    var kept := OfAgent(after - Excess(after, a, id, cap), a);
    assert |kept| == |kept.Keys|;
  }

  /** Whatever the agent lost was created before, or at the same time under a smaller id than, each of
      its older rows that are left. */
  ghost predicate EvictsOldest(before: Rows, after: Rows, a: AgentKey)
  {
    forall i, j | i in before && i in after && j in before && j !in after && before[i].agent == a ::
      && before[j].agent == a
      && (before[i].createdAt > before[j].createdAt || (before[i].createdAt == before[j].createdAt && i > j))
  }

  lemma TrimEvictsOldest(before: Rows, after: Rows, id: MemoryId, a: AgentKey, cap: int)
    requires WellKeyed(before) && id !in before && id in after && after[id].agent == a
    requires after == before[id := after[id]]
    ensures EvictsOldest(before, after - Excess(after, a, id, cap), a)
  {
    InsertGrowsAgent(before, after, id, a);
    AgentKeyed(before, a);
    hide NewestIds;
    var mine, kept := OfAgent(before, a), after - Excess(after, a, id, cap);
    forall i, j | i in before && i in kept && j in before && j !in kept && before[i].agent == a
      ensures before[j].agent == a
      ensures before[i].createdAt > before[j].createdAt || (before[i].createdAt == before[j].createdAt && i > j)
    {
      assert i in mine && j in mine;
      NewestAreNewer(mine, NonKeepCap(cap), i, j);
    }
  }

  lemma OthersKeyed(rows: Rows, a: AgentKey, keep: MemoryId)
    requires WellKeyed(rows)
    ensures var others := OfAgent(rows, a) - {keep};
      WellKeyed(others) && others.Keys <= rows.Keys && forall i | i in others :: others[i] == rows[i]
  {
  }

  lemma AgentKeyed(rows: Rows, a: AgentKey)
    requires WellKeyed(rows)
    ensures WellKeyed(OfAgent(rows, a))
  {
  }

  /** A table within the cap has nothing in excess. */
  lemma NoExcess(rows: Rows, a: AgentKey, keep: MemoryId, cap: int)
    requires WellKeyed(rows) && keep in OfAgent(rows, a) && |OfAgent(rows, a)| <= cap
    ensures Excess(rows, a, keep, cap) == {}
  {
    var others := OfAgent(rows, a) - {keep};
    assert OfAgent(rows, a).Keys == others.Keys + {keep};
    assert |others| == |others.Keys|;
    AllAreNewest(others, NonKeepCap(cap));
  }

  /** What a terminal transaction brings to the table; the cap comes from the agent's settings. */
  datatype Draft = Draft(body: nat, newId: MemoryId, configured: Option<int>)

  /** The table after the memory part of a transaction: a new row and the trim when the task had
      none, else its own row rewritten. */
  ghost predicate Committed(before: Rows, after: Rows, a: AgentKey, task: TaskId, d: Draft, at: Time)
  {
    if Inserts(before, task)
    then after == InsertedAlone(before, Row(d.newId, a, task, d.body, 1, at), MaxEntries(d.configured))
    else exists id :: OfTask(before, task) == {id} && after == Rewritten(before, id, d.body)
  }

  lemma AgentRow(rows: Rows, id: MemoryId)
    requires id in rows
    ensures id in OfAgent(rows, rows[id].agent)
  {
  }

  /** What an inserting transaction leaves when nothing runs beside it. */
  function InsertedAlone(rows: Rows, r: Row, cap: int): Rows
  {
    rows[r.id := r] - Excess(rows[r.id := r], r.agent, r.id, cap)
  }

  class MemoryTable {
    var rows: Rows

    constructor ()
      ensures rows == map[] && WellKeyed(rows)
    {
      rows := map[];
    }

    method FindByTask(task: TaskId) returns (found: Option<MemoryId>)
      requires WellKeyed(rows)
      ensures found.Some? ==> OfTask(rows, task) == {found.value}
      ensures found.None? ==> Inserts(rows, task)
    {
      found := None;
      var rest := rows.Keys;
      while rest != {}
        invariant rest <= rows.Keys
        invariant found.Some? ==> found.value in rows && rows[found.value].task == task
        invariant found.None? ==> forall i | i in rows.Keys - rest :: rows[i].task != task
        decreases |rest|
      {
        var i :| i in rest;
        rest := rest - {i};
        if rows[i].task == task {
          found := Some(i);
        }
      }
    }

    /** INSERT ... ON CONFLICT (task_id) DO UPDATE; an update keeps id, agent and creation time. */
    method UpsertMemoryEntry(a: AgentKey, task: TaskId, body: nat, newId: MemoryId, now: Time)
      returns (id: MemoryId, inserted: bool)
      requires WellKeyed(rows) && newId !in rows
      modifies this
      ensures WellKeyed(rows)
      ensures inserted <==> Inserts(old(rows), task)
      ensures inserted ==> id == newId && rows == old(rows)[id := Row(id, a, task, body, 1, now)]
      ensures !inserted ==> OfTask(old(rows), task) == {id} && rows == Rewritten(old(rows), id, body)
    {
      var found := FindByTask(task);
      inserted := found.None?;
      if inserted {
        id := newId;
        assert forall i | i in rows :: i in OfTask(rows, task) <==> rows[i].task == task;
        rows := rows[id := Row(id, a, task, body, 1, now)];
      } else {
        id := found.value;
        assert id in OfTask(rows, task);
        rows := rows[id := rows[id].(body := body, version := rows[id].version + 1)];
      }
    }

    method CountEntriesForAgent(a: AgentKey) returns (n: nat)
      ensures n == |OfAgent(rows, a)|
    {
      n := 0;
      var rest := rows.Keys;
      ghost var seen: set<MemoryId> := {};
      while rest != {}
        invariant rest <= rows.Keys && n == |seen|
        invariant seen == set i | i in rows.Keys - rest && rows[i].agent == a
        decreases |rest|
      {
        var i :| i in rest;
        rest := rest - {i};
        if rows[i].agent == a {
          n := n + 1;
          seen := seen + {i};
        }
      }
      assert seen == OfAgent(rows, a).Keys;
    }

    /** The newest of some rows. */
    method Newest(candidates: set<MemoryId>) returns (x: MemoryId)
      requires WellKeyed(rows) && candidates <= rows.Keys && candidates != {}
      ensures x in candidates && forall j | j in candidates && j != x :: Newer(rows[x], rows[j])
    {
      x :| x in candidates;
      var rest := candidates - {x};
      while rest != {}
        invariant rest <= candidates && x in candidates && x !in rest
        invariant forall j | j in candidates - rest && j != x :: Newer(rows[x], rows[j])
        decreases |rest|
      {
        var i :| i in rest;
        rest := rest - {i};
        if Newer(rows[i], rows[x]) {
          x := i;
        }
      }
    }

    method OthersOf(a: AgentKey, keep: MemoryId) returns (ids: set<MemoryId>)
      ensures ids == (OfAgent(rows, a) - {keep}).Keys
    {
      ids := set i | i in rows && rows[i].agent == a && i != keep;
    }

    /** What is left of some rows after skipping the newest `n` of them, one by one. */
    method PastNewest(all: set<MemoryId>, n: nat, ghost others: Rows) returns (rest: set<MemoryId>)
      requires WellKeyed(rows) && WellKeyed(others) && others.Keys == all <= rows.Keys
      requires forall i | i in others :: others[i] == rows[i]
      ensures rest == all - NewestIds(others, n)
    {
      NewestBounds(others, 0);
      hide NewestIds, Newer, WellKeyed;
      rest := all;
      var skipped := 0;
      while skipped < n && rest != {}
        invariant 0 <= skipped <= n
        invariant rest == all - NewestIds(others, skipped)
        decreases n - skipped
      {
        var x := Newest(rest);
        forall j | j in others && j !in NewestIds(others, skipped) && j != x
          ensures Newer(others[x], others[j])
        {
          assert j in rest;
        }
        NextNewest(others, skipped, x);
        rest := rest - {x};
        skipped := skipped + 1;
      }
      if rest == {} {
        NothingLeft(others, skipped, n);
      }
    }

    /** Deletes the agent's oldest rows beyond the cap, never the kept one. */
    method TrimOldest(a: AgentKey, cap: int, keep: MemoryId) returns (evicted: nat)
      requires WellKeyed(rows)
      modifies this
      ensures rows == old(rows) - Excess(old(rows), a, keep, cap)
      ensures evicted == |Excess(old(rows), a, keep, cap)|
    {
      ghost var others := OfAgent(rows, a) - {keep};
      OthersKeyed(rows, a, keep);
      hide NewestIds, OfAgent, WellKeyed;
      var all := OthersOf(a, keep);
      var excess := PastNewest(all, NonKeepCap(cap), others);
      evicted := |excess|;
      rows := rows - excess;
    }

    /** The memory part of a terminal transaction run alone: an update keeps the set of rows, an
        insert leaves the agent exactly the new row and the newest `cap - 1` of the others. */
    method CommitMemory(a: AgentKey, task: TaskId, body: nat, newId: MemoryId, now: Time, cap: int)
      returns (id: MemoryId, inserted: bool, evicted: nat)
      requires WellKeyed(rows) && newId !in rows
      modifies this
      ensures WellKeyed(rows) && id in rows && rows[id].body == body
      ensures inserted <==> Inserts(old(rows), task)
      ensures !inserted ==> rows.Keys == old(rows).Keys && evicted == 0
      ensures !inserted ==> OfTask(old(rows), task) == {id} && rows == Rewritten(old(rows), id, body)
      ensures inserted ==> id == newId
      ensures inserted ==> rows == InsertedAlone(old(rows), Row(id, a, task, body, 1, now), cap)
      ensures inserted ==> OfAgent(rows, a).Keys == {id} + NewestIds(OfAgent(old(rows), a), NonKeepCap(cap))
      ensures inserted ==> |OfAgent(rows, a)| == Min(|OfAgent(old(rows), a)| + 1, Max(cap, 1))
      ensures inserted ==> EvictsOldest(old(rows), rows, a)
      ensures forall b | b != a && inserted :: OfAgent(rows, b) == OfAgent(old(rows), b)
      ensures inserted <==> forall i | i in old(rows) :: old(rows)[i].task != task
      ensures inserted ==> rows[id] == Row(id, a, task, body, 1, now)
      ensures !inserted ==> id in old(rows) && old(rows)[id].task == task
                            && rows[id] == old(rows)[id].(body := body, version := old(rows)[id].version + 1)
    {
      hide NewestIds, OfAgent, Excess, EvictsOldest;
      ghost var before := rows;
      id, inserted := UpsertMemoryEntry(a, task, body, newId, now);
      evicted := 0;
      assert forall i | i in before :: i in OfTask(before, task) <==> before[i].task == task;
      if inserted {
        InsertThenTrim(before, rows, id, a, cap);
        TrimEvictsOldest(before, rows, id, a, cap);
        var count := CountEntriesForAgent(a);
        if count > cap {
          evicted := TrimOldest(a, cap, id);
        } else {
          AgentRow(rows, id);
          NoExcess(rows, a, id, cap);
          assert rows - {} == rows;
        }
      }
    }
  }
}
