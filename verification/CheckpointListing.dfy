/** Reading checkpoints back: the latest checkpoint of a thread, the descending listing, and
    paging through it. */
module CheckpointListing {
  import opened Tables
  import opened Lifecycle
  import opened Invariants
  import C = Checkpoints

  // ---- The primary key ---------------------------------------------------------------------------

  predicate DistinctKeys(rows: seq<C.Row>)
  {
    forall i, j :: 0 <= i < j < |rows| ==> !C.SameKey(rows[i], rows[j])
  }

  /** Same rows up to the columns that are not part of the key. */
  predicate SameKeys(rows: seq<C.Row>, after: seq<C.Row>)
  {
    |after| == |rows| && forall i :: 0 <= i < |rows| ==> C.SameKey(rows[i], after[i])
  }

  lemma {:induction false} CostsKeepKeys(rows: seq<C.Row>, task: TaskId, id: CheckpointId, cost: nat)
    ensures SameKeys(rows, C.SetCost(rows, task, id, cost))
    ensures SameKeys(rows, C.AddCost(rows, task, id, cost))
    ensures SameKeys(rows, C.MirrorCost(rows, id, cost))
  {
    if rows == [] {
    } else {
      CostsKeepKeys(rows[..|rows| - 1], task, id, cost);
    }
  }

  lemma {:induction false} RefreshKeepsKeys(rows: seq<C.Row>, r: C.Row)
    ensures SameKeys(rows, C.Refresh(rows, r))
  {
    if rows == [] {
    } else {
      RefreshKeepsKeys(rows[..|rows| - 1], r);
    }
  }

  lemma UpsertKeepsKeysDistinct(rows: seq<C.Row>, r: C.Row)
    requires DistinctKeys(rows)
    ensures DistinctKeys(C.Upsert(rows, r))
  {
    RefreshKeepsKeys(rows, r);
  }

  lemma NotedKeepsKeys(db: Db, w: WorkerId, id: TaskId, note: MemoryNote, completed: bool)
    requires id in db.tasks && DistinctKeys(db.checkpoints)
    ensures DistinctKeys(Noted(db, w, id, note, completed).checkpoints)
  {
    hide C.AddCost, Ledger.Accepts, HourCostAdded;
    if note.Memory? && note.checkpoint.Some? {
      CostsKeepKeys(db.checkpoints, id, note.checkpoint.value, NoteCost(note));
    }
  }

  lemma MovesKeepKeys(db: Db, step: Step)
    requires MoveOf(db, step).Some? && DistinctKeys(db.checkpoints)
    ensures DistinctKeys(Apply(db, step).checkpoints)
  {
    hide MoveOf, Noted, DistinctKeys;
    if step.Complete? {
      MarkedTaskExists(db, step);
      NotedKeepsKeys(db, step.worker, step.id, step.note, true);
    } else if step.Abandon? {
      MarkedTaskExists(db, step);
      NotedKeepsKeys(db, step.worker, step.id, step.note, false);
    }
  }

  lemma ExecutorKeepsKeys(db: Db, step: Step)
    requires DistinctKeys(db.checkpoints)
    ensures DistinctKeys(ExecutorQuiet(db, step).checkpoints)
  {
    hide C.Upsert, C.SetCost, C.AddCost, C.MirrorCost, C.IsLatest, Ledger.Accepts;
    match step
    case PutCheckpoint(w, id, row) =>
      UpsertKeepsKeysDistinct(db.checkpoints, row.(task := id, worker := w, cost := 0, createdAt := db.now));
    case StepCost(w, id, checkpoint, cost) => CostsKeepKeys(db.checkpoints, id, checkpoint, cost);
    case SupervisorCost(w, id, checkpoint, cost) => CostsKeepKeys(db.checkpoints, id, checkpoint, cost);
    case SandboxMirror(id, cost, checkpoint) => CostsKeepKeys(db.checkpoints, id, checkpoint, cost);
    case _ =>
  }

  lemma OthersKeepKeys(db: Db, step: Step)
    ensures PollerQuiet(db, step).checkpoints == db.checkpoints
    ensures ReaperQuiet(db, step).checkpoints == db.checkpoints
    ensures ApiQuiet(db, step).checkpoints == db.checkpoints
  {
    hide Eligible, Ledger.WindowSum, SpentThisHour, RunningSet;
  }

  lemma {:induction false} KeysDistinctOnRuns(db: Db, steps: seq<Step>)
    requires DistinctKeys(db.checkpoints)
    ensures DistinctKeys(Run(db, steps).checkpoints)
    decreases |steps|
  {
    hide MoveOf, PollerQuiet, ExecutorQuiet, ReaperQuiet, ApiQuiet, Prepared, Enact, Finished, DistinctKeys;
    if steps == [] {
    } else {
      if MoveOf(db, steps[0]).Some? {
        MovesKeepKeys(db, steps[0]);
      } else {
        ExecutorKeepsKeys(db, steps[0]);
        OthersKeepKeys(db, steps[0]);
      }
      KeysDistinctOnRuns(Apply(db, steps[0]), steps[1..]);
    }
  }

  /** In every reachable database no two checkpoint rows share task, namespace and id. */
  lemma ReachableKeysDistinct(db: Db)
    requires Reachable(db)
    ensures DistinctKeys(db.checkpoints)
  {
    var start, steps: seq<Step> :| Initial(start) && Run(start, steps) == db;
    KeysDistinctOnRuns(start, steps);
  }

  /** Every row is still there, in its place and with its key. */
  predicate KeysKept(rows: seq<C.Row>, after: seq<C.Row>)
  {
    |rows| <= |after| && forall i :: 0 <= i < |rows| ==> C.SameKey(rows[i], after[i])
  }

  lemma NotedKeepsRows(db: Db, w: WorkerId, id: TaskId, note: MemoryNote, completed: bool)
    requires id in db.tasks
    ensures KeysKept(db.checkpoints, Noted(db, w, id, note, completed).checkpoints)
  {
    hide C.AddCost, Ledger.Accepts, HourCostAdded;
    if note.Memory? && note.checkpoint.Some? {
      CostsKeepKeys(db.checkpoints, id, note.checkpoint.value, NoteCost(note));
    }
  }

  lemma StatementsKeepRows(rows: seq<C.Row>, r: C.Row, task: TaskId, id: CheckpointId, cost: nat)
    ensures KeysKept(rows, rows) && KeysKept(rows, C.Upsert(rows, r)) && KeysKept(rows, C.SetCost(rows, task, id, cost))
    ensures KeysKept(rows, C.AddCost(rows, task, id, cost)) && KeysKept(rows, C.MirrorCost(rows, id, cost))
  {
    CostsKeepKeys(rows, task, id, cost);
    RefreshKeepsKeys(rows, r);
  }

  lemma ExecutorKeepsRows(db: Db, step: Step)
    ensures KeysKept(db.checkpoints, ExecutorQuiet(db, step).checkpoints)
  {
    hide KeysKept, HoldsLease, C.Upsert, C.SetCost, C.AddCost, C.MirrorCost, C.IsLatest, Ledger.Accepts;
    var rows, any := db.checkpoints, C.Row(0, 0, 0, 0, None, 0, 0, 0);
    StatementsKeepRows(rows, any, 0, 0, 0);
    match step
    case PutCheckpoint(w, id, row) =>
      StatementsKeepRows(rows, row.(task := id, worker := w, cost := 0, createdAt := db.now), 0, 0, 0);
    case StepCost(w, id, checkpoint, cost) => StatementsKeepRows(rows, any, id, checkpoint, cost);
    case SupervisorCost(w, id, checkpoint, cost) => StatementsKeepRows(rows, any, id, checkpoint, cost);
    case SandboxMirror(id, cost, checkpoint) => StatementsKeepRows(rows, any, id, checkpoint, cost);
    case _ =>
  }

  lemma StepKeepsRows(db: Db, step: Step)
    ensures KeysKept(db.checkpoints, Apply(db, step).checkpoints)
  {
    hide MoveOf, Noted, PollerQuiet, ExecutorQuiet, ReaperQuiet, ApiQuiet, KeysKept, C.Upsert, C.SetCost, C.AddCost,
         C.MirrorCost;
    StatementsKeepRows(db.checkpoints, C.Row(0, 0, 0, 0, None, 0, 0, 0), 0, 0, 0);
    if MoveOf(db, step).None? {
      ExecutorKeepsRows(db, step);
      OthersKeepKeys(db, step);
    } else if step.Complete? {
      MarkedTaskExists(db, step);
      NotedKeepsRows(db, step.worker, step.id, step.note, true);
    } else if step.Abandon? {
      MarkedTaskExists(db, step);
      NotedKeepsRows(db, step.worker, step.id, step.note, false);
    }
  }

  /** No run ever removes a checkpoint or moves it to another key. */
  lemma {:induction false} CheckpointsNeverVanish(db: Db, steps: seq<Step>)
    ensures KeysKept(db.checkpoints, Run(db, steps).checkpoints)
    decreases |steps|
  {
    hide Apply;
    if steps == [] {
    } else {
      StepKeepsRows(db, steps[0]);
      CheckpointsNeverVanish(Apply(db, steps[0]), steps[1..]);
    }
  }

  // ---- The queries -------------------------------------------------------------------------------

  /** The optional filters of a listing; an absent one filters nothing. The metadata filter is any
      test of a row, which is all that the containment test of the source is used as. */
  datatype Query = Query(
    task: Option<TaskId>, ns: Option<C.Namespace>, id: Option<CheckpointId>, before: Option<CheckpointId>,
    filter: C.Row -> bool)

  const NO_FILTER: C.Row -> bool := r => true

  predicate Selects(q: Query, r: C.Row)
  {
    && (q.task.Some? ==> r.task == q.task.value)
    && (q.ns.Some? ==> r.ns == q.ns.value)
    && (q.id.Some? ==> r.id == q.id.value)
    && (q.before.Some? ==> r.id < q.before.value)
    && q.filter(r)
  }

  predicate Descending(rows: seq<C.Row>)
  {
    forall i, j :: 0 <= i < j < |rows| ==> rows[i].id >= rows[j].id
  }

  predicate StrictlyDescending(rows: seq<C.Row>)
  {
    forall i, j :: 0 <= i < j < |rows| ==> rows[i].id > rows[j].id
  }

  /** Insert into a descending sequence, before the first row with a smaller id. */
  function InsertDescending(rows: seq<C.Row>, r: C.Row): seq<C.Row>
  {
    if rows == [] || rows[0].id < r.id then [r] + rows
    else [rows[0]] + InsertDescending(rows[1..], r)
  }

  /** The whole listing of a query, without its limit. */
  function Listing(rows: seq<C.Row>, q: Query): seq<C.Row>
  {
    if rows == [] then []
    else
      var r := rows[|rows| - 1];
      var rest := Listing(rows[..|rows| - 1], q);
      if Selects(q, r) then InsertDescending(rest, r) else rest
  }

  function Limited(rows: seq<C.Row>, limit: Option<nat>): seq<C.Row>
  {
    if limit.Some? && limit.value < |rows| then rows[..limit.value] else rows
  }

  method List(rows: seq<C.Row>, q: Query, limit: Option<nat>) returns (out: seq<C.Row>)
    ensures out == Limited(Listing(rows, q), limit)
  {
    out := [];
    var i := 0;
    while i < |rows|
      invariant 0 <= i <= |rows| && out == Listing(rows[..i], q)
    {
      assert rows[..i + 1][..i] == rows[..i];
      if Selects(q, rows[i]) {
        out := InsertDescending(out, rows[i]);
      }
      i := i + 1;
    }
    assert rows[..i] == rows;
    if limit.Some? && limit.value < |out| {
      out := out[..limit.value];
    }
  }

  predicate Asked(r: C.Row, task: TaskId, ns: C.Namespace, id: Option<CheckpointId>)
  {
    r.task == task && r.ns == ns && (id.None? || id == Some(r.id))
  }

  /** `found` answers a lookup: the row with the id asked for, or the row with the greatest id. */
  predicate Answers(rows: seq<C.Row>, task: TaskId, ns: C.Namespace, id: Option<CheckpointId>, found: Option<C.Row>)
  {
    if found.None? then forall r | r in rows :: !Asked(r, task, ns, id)
    else found.value in rows && Asked(found.value, task, ns, id)
         && forall r | r in rows && Asked(r, task, ns, id) :: r.id <= found.value.id
  }

  method GetTuple(rows: seq<C.Row>, task: TaskId, ns: C.Namespace, id: Option<CheckpointId>)
    returns (found: Option<C.Row>)
    ensures Answers(rows, task, ns, id, found)
  {
    found := None;
    var q := Query(Some(task), Some(ns), id, None, NO_FILTER);
    var i := 0;
    while i < |rows|
      invariant 0 <= i <= |rows| && Answers(rows[..i], task, ns, id, found)
    {
      if Selects(q, rows[i]) && (found.None? || found.value.id < rows[i].id) {
        found := Some(rows[i]);
      }
      i := i + 1;
    }
    assert rows[..i] == rows;
  }

  lemma {:induction false} InsertAddsRow(rows: seq<C.Row>, r: C.Row)
    ensures multiset(InsertDescending(rows, r)) == multiset(rows) + multiset{r}
  {
    if rows == [] || rows[0].id < r.id {
    } else {
      InsertAddsRow(rows[1..], r);
      assert rows == [rows[0]] + rows[1..];
    }
  }

  lemma {:induction false} InsertKeepsOrder(rows: seq<C.Row>, r: C.Row)
    requires Descending(rows)
    ensures Descending(InsertDescending(rows, r))
  {
    if rows == [] || rows[0].id < r.id {
    } else {
      InsertKeepsOrder(rows[1..], r);
      InsertAddsRow(rows[1..], r);
      var rest := InsertDescending(rows[1..], r);
      forall i | 0 <= i < |rest|
        ensures rest[i].id <= rows[0].id
      {
        assert rest[i] in multiset(rest);
        assert rest[i] in rows[1..] || rest[i] == r;
      }
    }
  }

  /** The rows a query asks for, as a plain selection. */
  function Selected(rows: seq<C.Row>, q: Query): multiset<C.Row>
  {
    if rows == [] then multiset{}
    else
      var r := rows[|rows| - 1];
      Selected(rows[..|rows| - 1], q) + if Selects(q, r) then multiset{r} else multiset{}
  }

  /** A listing holds each selected row as often as the table does, greatest id first. */
  lemma {:induction false} ListingIsSorted(rows: seq<C.Row>, q: Query)
    ensures Descending(Listing(rows, q)) && multiset(Listing(rows, q)) == Selected(rows, q)
  {
    if rows == [] {
    } else {
      var n := |rows| - 1;
      ListingIsSorted(rows[..n], q);
      InsertKeepsOrder(Listing(rows[..n], q), rows[n]);
      InsertAddsRow(Listing(rows[..n], q), rows[n]);
    }
  }

  lemma {:induction false} SelectedRows(rows: seq<C.Row>, q: Query, r: C.Row)
    ensures r in Selected(rows, q) <==> r in rows && Selects(q, r)
    ensures DistinctKeys(rows) ==> Selected(rows, q)[r] <= 1
  {
    if rows == [] {
    } else {
      var n := |rows| - 1;
      SelectedRows(rows[..n], q, r);
      assert rows == rows[..n] + [rows[n]];
      if DistinctKeys(rows) && rows[n] == r {
        assert forall i :: 0 <= i < n ==> rows[i] != r;
      }
    }
  }

  lemma ListedRows(rows: seq<C.Row>, q: Query)
    ensures forall r :: r in Listing(rows, q) <==> r in rows && Selects(q, r)
  {
    ListingIsSorted(rows, q);
    forall r
      ensures r in Listing(rows, q) <==> r in rows && Selects(q, r)
    {
      SelectedRows(rows, q, r);
      assert r in Listing(rows, q) <==> r in multiset(Listing(rows, q));
    }
  }

  /** A row is listed if and only if it is in the table and passes every filter that was given. */
  lemma ListedIff(rows: seq<C.Row>, q: Query, r: C.Row)
    ensures r in Listing(rows, q) <==>
              && r in rows && q.filter(r)
              && q.task in {None, Some(r.task)} && q.ns in {None, Some(r.ns)} && q.id in {None, Some(r.id)}
              && (q.before.None? || r.id < q.before.value)
  {
    ListedRows(rows, q);
  }

  lemma RepeatCounts(rows: seq<C.Row>, i: nat, j: nat)
    requires i < j < |rows| && rows[i] == rows[j]
    ensures multiset(rows)[rows[i]] >= 2
  {
    assert rows == rows[..j] + rows[j..];
    assert rows[i] in multiset(rows[..j]) && rows[j] in multiset(rows[j..]);
  }

  /** Within one thread and namespace the listing is strictly descending by checkpoint id. */
  lemma ThreadListingIsStrict(rows: seq<C.Row>, q: Query)
    requires DistinctKeys(rows) && q.task.Some? && q.ns.Some?
    ensures StrictlyDescending(Listing(rows, q))
  {
    var list := Listing(rows, q);
    ListingIsSorted(rows, q);
    ListedRows(rows, q);
    forall i, j | 0 <= i < j < |list|
      ensures list[i].id > list[j].id
    {
      if list[i].id == list[j].id {
        assert list[i] in list && list[j] in list;
        var a :| 0 <= a < |rows| && rows[a] == list[i];
        var b :| 0 <= b < |rows| && rows[b] == list[j];
        assert C.SameKey(rows[a], rows[b]);
        SelectedRows(rows, q, list[i]);
        RepeatCounts(list, i, j);
      }
    }
  }

  /** The lookup without an id answers with the head of the listing of the same thread and
      namespace, and finds nothing exactly when the listing is empty. */
  lemma LatestIsHeadOfListing(rows: seq<C.Row>, task: TaskId, ns: C.Namespace, found: Option<C.Row>)
    requires DistinctKeys(rows) && Answers(rows, task, ns, None, found)
    ensures var list := Listing(rows, Query(Some(task), Some(ns), None, None, NO_FILTER));
      found == if list == [] then None else Some(list[0])
  {
    var q := Query(Some(task), Some(ns), None, None, NO_FILTER);
    var list := Listing(rows, q);
    ListedRows(rows, q);
    ThreadListingIsStrict(rows, q);
    if list != [] {
      assert list[0] in list;
      if found.Some? {
        var k :| 0 <= k < |list| && list[k] == found.value;
      }
    }
  }

  lemma {:induction false} StrictOrderIsUnique(xs: seq<C.Row>, ys: seq<C.Row>)
    requires StrictlyDescending(xs) && StrictlyDescending(ys)
    requires forall r :: r in xs <==> r in ys
    ensures xs == ys
    decreases |xs|
  {
    assert ys == [] || ys[0] in ys;
    if xs == [] {
    } else {
      assert xs[0] in ys;
      assert ys[0] in xs;
      assert xs[0] == ys[0];
      forall r
        ensures r in xs[1..] <==> r in ys[1..]
      {
        assert r in xs[1..] <==> r in xs && r != xs[0];
        assert r in ys[1..] <==> r in ys && r != ys[0];
      }
      StrictOrderIsUnique(xs[1..], ys[1..]);
      assert xs == [xs[0]] + xs[1..];
      assert ys == [ys[0]] + ys[1..];
    }
  }

  /** Paging: listing before the last id of a page continues exactly where the page stopped, so
      the pages of a thread concatenate to its whole listing, under any metadata filter. */
  lemma PagesConcatenate(rows: seq<C.Row>, task: TaskId, ns: C.Namespace, before: Option<CheckpointId>,
                         filter: C.Row -> bool, limit: nat)
    requires DistinctKeys(rows) && limit > 0
    requires var whole := Listing(rows, Query(Some(task), Some(ns), None, before, filter)); limit <= |whole|
    ensures var whole := Listing(rows, Query(Some(task), Some(ns), None, before, filter));
      var page := Limited(whole, Some(limit));
      page + Listing(rows, Query(Some(task), Some(ns), None, Some(page[|page| - 1].id), filter)) == whole
  {
    var q := Query(Some(task), Some(ns), None, before, filter);
    var whole := Listing(rows, q);
    var next := Query(Some(task), Some(ns), None, Some(whole[limit - 1].id), filter);
    ThreadListingIsStrict(rows, q);
    ThreadListingIsStrict(rows, next);
    ListedRows(rows, q);
    ListedRows(rows, next);
    var tail := whole[limit..];
    forall r
      ensures r in tail <==> r in Listing(rows, next)
    {
      TailRows(whole, limit, r);
      assert whole[limit - 1] in whole;
    }
    StrictOrderIsUnique(tail, Listing(rows, next));
    assert whole == whole[..limit] + tail;
  }

  lemma TailRows(whole: seq<C.Row>, limit: nat, r: C.Row)
    requires StrictlyDescending(whole) && 0 < limit <= |whole|
    ensures r in whole[limit..] <==> r in whole && r.id < whole[limit - 1].id
  {
    if r in whole[limit..] {
      var k :| 0 <= k < |whole[limit..]| && whole[limit..][k] == r;
      assert whole[limit + k] == r;
    }
    if r in whole && r.id < whole[limit - 1].id {
      var k :| 0 <= k < |whole| && whole[k] == r;
      assert whole[limit..][k - limit] == r;
    }
  }

  /** Across namespaces ids may repeat, and the listing is then descending but not strictly. */
  lemma ListingWithoutNamespaceMayRepeat()
    ensures var r, s := C.Row(0, 0, 5, 0, None, 0, 0, 0), C.Row(0, 1, 5, 0, None, 0, 0, 0);
      DistinctKeys([r, s]) && !StrictlyDescending(Listing([r, s], Query(Some(0), None, None, None, NO_FILTER)))
  {
    var r, s := C.Row(0, 0, 5, 0, None, 0, 0, 0), C.Row(0, 1, 5, 0, None, 0, 0, 0);
    var q := Query(Some(0), None, None, None, NO_FILTER);
    assert [r, s][..1] == [r] && [r][..0] == [];
    assert Listing([r], q) == [r];
    assert Listing([r, s], q) == InsertDescending([r], s);
    assert InsertDescending([r], s)[0].id == InsertDescending([r], s)[1].id;
  }
}
