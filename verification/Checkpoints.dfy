/** The checkpoints table: the upsert that keeps a row's cost, the overwriting and the additive
    cost updates, and the total cost of a task. */
module Checkpoints {
  import opened Tables

  type Namespace = nat
  const ROOT: Namespace := 0

  datatype Row = Row(
    task: TaskId,
    ns: Namespace,
    id: CheckpointId,
    worker: WorkerId,
    parent: Option<CheckpointId>,
    payload: nat,
    cost: nat,
    createdAt: Time)

  predicate SameKey(r: Row, s: Row)
  {
    r.task == s.task && r.ns == s.ns && r.id == s.id
  }

  predicate HasKey(rows: seq<Row>, r: Row)
  {
    exists s | s in rows :: SameKey(s, r)
  }

  /** ON CONFLICT DO UPDATE lists every column but the cost and the creation time. */
  function Refreshed(kept: Row, r: Row): Row
  {
    kept.(worker := r.worker, parent := r.parent, payload := r.payload)
  }

  function Refresh(rows: seq<Row>, r: Row): seq<Row>
  {
    if rows == [] then []
    else
      var s := rows[|rows| - 1];
      Refresh(rows[..|rows| - 1], r) + [if SameKey(s, r) then Refreshed(s, r) else s]
  }

  function Upsert(rows: seq<Row>, r: Row): seq<Row>
  {
    if HasKey(rows, r) then Refresh(rows, r) else rows + [r]
  }

  /** The two cost updates match on checkpoint id and task, not on the namespace. */
  predicate Matches(r: Row, task: TaskId, id: CheckpointId)
  {
    r.task == task && r.id == id
  }

  function SetCost(rows: seq<Row>, task: TaskId, id: CheckpointId, cost: nat): seq<Row>
  {
    if rows == [] then []
    else
      var r := rows[|rows| - 1];
      SetCost(rows[..|rows| - 1], task, id, cost)
      + [if Matches(r, task, id) then r.(cost := cost) else r]
  }

  function AddCost(rows: seq<Row>, task: TaskId, id: CheckpointId, delta: nat): seq<Row>
  {
    if rows == [] then []
    else
      var r := rows[|rows| - 1];
      AddCost(rows[..|rows| - 1], task, id, delta)
      + [if Matches(r, task, id) then r.(cost := r.cost + delta) else r]
  }

  /** The mirror of the final sandbox charge matches on the checkpoint id alone. */
  function MirrorCost(rows: seq<Row>, id: CheckpointId, delta: nat): seq<Row>
  {
    if rows == [] then []
    else
      var r := rows[|rows| - 1];
      MirrorCost(rows[..|rows| - 1], id, delta)
      + [if r.id == id then r.(cost := r.cost + delta) else r]
  }

  function TaskCost(rows: seq<Row>, task: TaskId): nat
  {
    if rows == [] then 0
    else
      var r := rows[|rows| - 1];
      TaskCost(rows[..|rows| - 1], task) + if r.task == task then r.cost else 0
  }

  /** Number of rows, and the cost they carry now, that a cost update of (task, id) touches. */
  function MatchCount(rows: seq<Row>, task: TaskId, id: CheckpointId): nat
  {
    if rows == [] then 0
    else
      MatchCount(rows[..|rows| - 1], task, id)
      + if Matches(rows[|rows| - 1], task, id) then 1 else 0
  }

  function MatchCost(rows: seq<Row>, task: TaskId, id: CheckpointId): nat
  {
    if rows == [] then 0
    else
      MatchCost(rows[..|rows| - 1], task, id)
      + if Matches(rows[|rows| - 1], task, id) then rows[|rows| - 1].cost else 0
  }

  /** No row of the task is newer, over all namespaces or over the root namespace only. */
  ghost predicate Newest(rows: seq<Row>, task: TaskId, rootOnly: bool, r: Row)
  {
    && r in rows && r.task == task && (rootOnly ==> r.ns == ROOT)
    && forall s | s in rows && s.task == task && (rootOnly ==> s.ns == ROOT) :: s.createdAt <= r.createdAt
  }

  /** `id` is what ORDER BY created_at DESC LIMIT 1 may return for the task. */
  ghost predicate IsLatest(rows: seq<Row>, task: TaskId, rootOnly: bool, id: CheckpointId)
  {
    exists r | r in rows :: r.id == id && Newest(rows, task, rootOnly, r)
  }

  ghost predicate HasCheckpoint(rows: seq<Row>, task: TaskId, rootOnly: bool)
  {
    exists r | r in rows :: r.task == task && (rootOnly ==> r.ns == ROOT)
  }

  lemma {:induction false} UpsertKeepsCosts(rows: seq<Row>, r: Row, task: TaskId)
    requires r.cost == 0
    ensures TaskCost(Upsert(rows, r), task) == TaskCost(rows, task)
  {
    if HasKey(rows, r) {
      RefreshKeepsCosts(rows, r, task);
    } else {
      assert (rows + [r])[..|rows|] == rows;
    }
  }

  lemma {:induction false} RefreshKeepsCosts(rows: seq<Row>, r: Row, task: TaskId)
    ensures TaskCost(Refresh(rows, r), task) == TaskCost(rows, task)
  {
    if rows == [] {
    } else {
      var n := |rows| - 1;
      RefreshKeepsCosts(rows[..n], r, task);
      AppendCost(Refresh(rows[..n], r), if SameKey(rows[n], r) then Refreshed(rows[n], r) else rows[n], task);
    }
  }

  lemma AppendCost(rows: seq<Row>, r: Row, task: TaskId)
    ensures TaskCost(rows + [r], task) == TaskCost(rows, task) + if r.task == task then r.cost else 0
  {
    assert (rows + [r])[..|rows|] == rows;
  }

  /** An overwrite replaces whatever the matching rows carried before. */
  lemma {:induction false} SetCostTotals(
    rows: seq<Row>, task: TaskId, id: CheckpointId, cost: nat, other: TaskId)
    ensures TaskCost(SetCost(rows, task, id, cost), task)
         == TaskCost(rows, task) - MatchCost(rows, task, id) + MatchCount(rows, task, id) * cost
    ensures other != task ==> TaskCost(SetCost(rows, task, id, cost), other) == TaskCost(rows, other)
  {
    if rows == [] {
    } else {
      var n := |rows| - 1;
      SetCostTotals(rows[..n], task, id, cost, other);
      var r := if Matches(rows[n], task, id) then rows[n].(cost := cost) else rows[n];
      AppendCost(SetCost(rows[..n], task, id, cost), r, task);
      AppendCost(SetCost(rows[..n], task, id, cost), r, other);
      MulSucc(MatchCount(rows[..n], task, id), cost);
    }
  }

  lemma MulSucc(k: nat, c: nat)
    ensures (k + 1) * c == k * c + c
  {
  }

  lemma {:induction false} AddCostTotals(
    rows: seq<Row>, task: TaskId, id: CheckpointId, delta: nat, other: TaskId)
    ensures TaskCost(AddCost(rows, task, id, delta), task)
         == TaskCost(rows, task) + MatchCount(rows, task, id) * delta
    ensures other != task ==> TaskCost(AddCost(rows, task, id, delta), other) == TaskCost(rows, other)
  {
    if rows == [] {
    } else {
      var n := |rows| - 1;
      AddCostTotals(rows[..n], task, id, delta, other);
      var r := if Matches(rows[n], task, id) then rows[n].(cost := rows[n].cost + delta) else rows[n];
      AppendCost(AddCost(rows[..n], task, id, delta), r, task);
      AppendCost(AddCost(rows[..n], task, id, delta), r, other);
      MulSucc(MatchCount(rows[..n], task, id), delta);
    }
  }

  lemma {:induction false} MirrorCostTotals(rows: seq<Row>, id: CheckpointId, delta: nat, task: TaskId)
    ensures TaskCost(MirrorCost(rows, id, delta), task)
         == TaskCost(rows, task) + MatchCount(rows, task, id) * delta
  {
    if rows == [] {
    } else {
      var n := |rows| - 1;
      MirrorCostTotals(rows[..n], id, delta, task);
      var r := if rows[n].id == id then rows[n].(cost := rows[n].cost + delta) else rows[n];
      AppendCost(MirrorCost(rows[..n], id, delta), r, task);
      MulSucc(MatchCount(rows[..n], task, id), delta);
    }
  }

  lemma AppendMatch(rows: seq<Row>, r: Row, task: TaskId, id: CheckpointId)
    ensures MatchCount(rows + [r], task, id) == MatchCount(rows, task, id) + if Matches(r, task, id) then 1 else 0
    ensures MatchCost(rows + [r], task, id) == MatchCost(rows, task, id) + if Matches(r, task, id) then r.cost else 0
  {
    assert (rows + [r])[..|rows|] == rows;
  }

  /** An overwrite leaves every matching row with its cost. */
  lemma {:induction false} SetCostMatches(rows: seq<Row>, task: TaskId, id: CheckpointId, cost: nat)
    ensures var after := SetCost(rows, task, id, cost);
      && MatchCount(after, task, id) == MatchCount(rows, task, id)
      && MatchCost(after, task, id) == MatchCount(rows, task, id) * cost
  {
    if rows == [] {
    } else {
      var n := |rows| - 1;
      SetCostMatches(rows[..n], task, id, cost);
      var r := if Matches(rows[n], task, id) then rows[n].(cost := cost) else rows[n];
      AppendMatch(SetCost(rows[..n], task, id, cost), r, task, id);
      MulSucc(MatchCount(rows[..n], task, id), cost);
    }
  }

  /** Row by row: an overwrite and an addition meet the rows of the task with the id, in whatever
      namespace; the mirror meets every row with the id; nothing else changes. */
  lemma {:induction false} CostUpdatesByRow(rows: seq<Row>, task: TaskId, id: CheckpointId, cost: nat)
    ensures var over, more := SetCost(rows, task, id, cost), AddCost(rows, task, id, cost);
      var mirrored := MirrorCost(rows, id, cost);
      && |over| == |more| == |mirrored| == |rows|
      && forall i :: 0 <= i < |rows| ==>
           var r := rows[i]; var met := r.task == task && r.id == id;
           && over[i] == r.(cost := if met then cost else r.cost)
           && more[i] == r.(cost := if met then r.cost + cost else r.cost)
           && mirrored[i] == r.(cost := if r.id == id then r.cost + cost else r.cost)
  {
    if rows == [] {
    } else {
      CostUpdatesByRow(rows[..|rows| - 1], task, id, cost);
    }
  }

  /** Reading the latest checkpoint again after an overwrite gives the same one. */
  lemma SetCostKeepsLatest(
    rows: seq<Row>, task: TaskId, id: CheckpointId, cost: nat, rootOnly: bool, latest: CheckpointId)
    requires IsLatest(rows, task, rootOnly, latest)
    ensures IsLatest(SetCost(rows, task, id, cost), task, rootOnly, latest)
  {
    hide SetCost;
    CostUpdatesByRow(rows, task, id, cost);
    var after := SetCost(rows, task, id, cost);
    var r :| r in rows && r.id == latest && Newest(rows, task, rootOnly, r);
    var i :| 0 <= i < |rows| && rows[i] == r;
    NewestStays(rows, after, task, rootOnly, i);
    assert after[i] in after;
  }

  lemma NewestStays(rows: seq<Row>, after: seq<Row>, task: TaskId, rootOnly: bool, i: nat)
    requires |after| == |rows| && forall j :: 0 <= j < |rows| ==> after[j] == rows[j].(cost := after[j].cost)
    requires i < |rows| && Newest(rows, task, rootOnly, rows[i])
    ensures Newest(after, task, rootOnly, after[i])
  {
    forall s | s in after && s.task == task && (rootOnly ==> s.ns == ROOT)
      ensures s.createdAt <= after[i].createdAt
    {
      var j :| 0 <= j < |after| && after[j] == s;
      assert rows[j] in rows;
    }
  }

  lemma {:induction false} MatchedIffPresent(rows: seq<Row>, task: TaskId, id: CheckpointId)
    ensures MatchCount(rows, task, id) >= 1 <==> exists r | r in rows :: Matches(r, task, id)
  {
    if rows == [] {
    } else {
      var n := |rows| - 1;
      MatchedIffPresent(rows[..n], task, id);
      assert rows == rows[..n] + [rows[n]];
    }
  }
}
