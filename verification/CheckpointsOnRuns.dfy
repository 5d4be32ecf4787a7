/** The checkpoints table of the running system: what was put is what is read back. */
module CheckpointsOnRuns {
  import opened Tables
  import opened Lifecycle
  import opened Invariants
  import Ledger
  import C = Checkpoints
  import L = CheckpointListing

  /** A checkpoint as its writer sent it, with the time at which it arrived. */
  datatype Sent = Sent(
    task: TaskId, ns: C.Namespace, id: CheckpointId, worker: WorkerId, parent: Option<CheckpointId>,
    payload: nat, at: Time)

  /** The checkpoints sent by lease holders, in order of arrival. */
  ghost function Landed(db: Db, steps: seq<Step>): seq<Sent>
    decreases |steps|
  {
    if steps == [] then [] else LandedNow(db, steps[0]) + Landed(Apply(db, steps[0]), steps[1..])
  }

  function LandedNow(db: Db, step: Step): seq<Sent>
  {
    match step
    case PutCheckpoint(w, id, row) =>
      if id in db.tasks && db.tasks[id].owner == Some(w) && db.tasks[id].status == Running
      then [Sent(id, row.ns, row.id, w, row.parent, row.payload, db.now)] else []
    case _ => []
  }

  datatype Key = Key(task: TaskId, ns: C.Namespace, id: CheckpointId)

  function KeyOf(r: C.Row): Key
  {
    Key(r.task, r.ns, r.id)
  }

  predicate For(s: Sent, k: Key)
  {
    s.task == k.task && s.ns == k.ns && s.id == k.id
  }

  function LastOf(sent: seq<Sent>, k: Key): Option<Sent>
  {
    if sent == [] then None
    else if For(sent[|sent| - 1], k) then Some(sent[|sent| - 1])
    else LastOf(sent[..|sent| - 1], k)
  }

  function FirstOf(sent: seq<Sent>, k: Key): Option<Sent>
  {
    if sent == [] then None
    else if FirstOf(sent[..|sent| - 1], k).Some? then FirstOf(sent[..|sent| - 1], k)
    else if For(sent[|sent| - 1], k) then Some(sent[|sent| - 1]) else None
  }

  /** The row holds what was sent last for its key, and the time of what was sent first. */
  predicate Holds(sent: seq<Sent>, r: C.Row)
  {
    var last, first := LastOf(sent, KeyOf(r)), FirstOf(sent, KeyOf(r));
    && last.Some? && first.Some?
    && r.worker == last.value.worker && r.parent == last.value.parent && r.payload == last.value.payload
    && r.createdAt == first.value.at
  }

  ghost predicate Present(rows: seq<C.Row>, k: Key)
  {
    exists r | r in rows :: KeyOf(r) == k
  }

  ghost predicate Reflects(rows: seq<C.Row>, sent: seq<Sent>)
  {
    && (forall r | r in rows :: Holds(sent, r))
    && (forall k :: LastOf(sent, k).Some? ==> Present(rows, k))
  }

  /** The rows are the same but for their costs. */
  predicate SameButCost(rows: seq<C.Row>, after: seq<C.Row>)
  {
    |after| == |rows| && forall i :: 0 <= i < |rows| ==> after[i] == rows[i].(cost := after[i].cost)
  }

  lemma CostWritesOnlyCost(rows: seq<C.Row>, task: TaskId, id: CheckpointId, cost: nat)
    ensures SameButCost(rows, C.SetCost(rows, task, id, cost))
    ensures SameButCost(rows, C.AddCost(rows, task, id, cost))
    ensures SameButCost(rows, C.MirrorCost(rows, id, cost))
  {
    hide C.SetCost, C.AddCost, C.MirrorCost;
    C.CostUpdatesByRow(rows, task, id, cost);
  }

  lemma {:induction false} RefreshRows(rows: seq<C.Row>, r: C.Row)
    ensures var after := C.Refresh(rows, r);
      |after| == |rows| && forall i :: 0 <= i < |rows| ==>
        after[i] == if C.SameKey(rows[i], r)
                    then rows[i].(worker := r.worker, parent := r.parent, payload := r.payload) else rows[i]
  {
    if rows == [] {
    } else {
      RefreshRows(rows[..|rows| - 1], r);
    }
  }

  lemma {:induction false} OfAppended(sent: seq<Sent>, s: Sent, k: Key)
    ensures LastOf(sent + [s], k) == if For(s, k) then Some(s) else LastOf(sent, k)
    ensures FirstOf(sent + [s], k) ==
              if FirstOf(sent, k).Some? then FirstOf(sent, k) else if For(s, k) then Some(s) else None
  {
    assert (sent + [s])[..|sent|] == sent;
  }

  lemma {:induction false} FirstWhenLast(sent: seq<Sent>, k: Key)
    ensures FirstOf(sent, k).Some? <==> LastOf(sent, k).Some?
  {
    if sent == [] {
    } else {
      FirstWhenLast(sent[..|sent| - 1], k);
    }
  }

  lemma CostsKeepReflection(rows: seq<C.Row>, after: seq<C.Row>, sent: seq<Sent>)
    requires Reflects(rows, sent) && SameButCost(rows, after)
    ensures Reflects(after, sent)
  {
    hide LastOf, FirstOf;
    forall r | r in after
      ensures Holds(sent, r)
    {
      var i :| 0 <= i < |after| && after[i] == r;
      assert rows[i] in rows && r == rows[i].(cost := r.cost);
      assert Holds(sent, rows[i]);
    }
    forall k | LastOf(sent, k).Some?
      ensures Present(after, k)
    {
      var r :| r in rows && KeyOf(r) == k;
      var i :| 0 <= i < |rows| && rows[i] == r;
      assert after[i] in after && KeyOf(after[i]) == k;
    }
  }

  function RowOf(s: Sent): C.Row
  {
    C.Row(s.task, s.ns, s.id, s.worker, s.parent, s.payload, 0, s.at)
  }

  lemma RefreshedHolds(sent: seq<Sent>, s: Sent, r: C.Row)
    requires Holds(sent, r)
    ensures Holds(sent + [s], if C.SameKey(r, RowOf(s))
                              then r.(worker := s.worker, parent := s.parent, payload := s.payload) else r)
  {
    OfAppended(sent, s, KeyOf(r));
  }

  lemma NewHolds(rows: seq<C.Row>, sent: seq<Sent>, s: Sent)
    requires Reflects(rows, sent) && !C.HasKey(rows, RowOf(s))
    ensures Holds(sent + [s], RowOf(s))
  {
    hide LastOf, FirstOf;
    var k := KeyOf(RowOf(s));
    OfAppended(sent, s, k);
    FirstWhenLast(sent, k);
    PresentHasKey(rows, RowOf(s));
  }

  lemma PresentHasKey(rows: seq<C.Row>, r: C.Row)
    ensures Present(rows, KeyOf(r)) ==> C.HasKey(rows, r)
  {
    if Present(rows, KeyOf(r)) {
      var u :| u in rows && KeyOf(u) == KeyOf(r);
      assert C.SameKey(u, r);
    }
  }

  lemma PresentStays(rows: seq<C.Row>, after: seq<C.Row>, k: Key)
    requires Present(rows, k) && L.KeysKept(rows, after)
    ensures Present(after, k)
  {
    var r :| r in rows && KeyOf(r) == k;
    var i :| 0 <= i < |rows| && rows[i] == r;
    assert C.SameKey(rows[i], after[i]) && after[i] in after;
    assert KeyOf(after[i]) == k;
  }

  lemma SentIsPresent(rows: seq<C.Row>, s: Sent)
    ensures Present(C.Upsert(rows, RowOf(s)), KeyOf(RowOf(s)))
  {
    var r := RowOf(s);
    RefreshRows(rows, r);
    if C.HasKey(rows, r) {
      var u :| u in rows && C.SameKey(u, r);
      var i :| 0 <= i < |rows| && rows[i] == u;
      assert C.Refresh(rows, r)[i] in C.Refresh(rows, r) && KeyOf(C.Refresh(rows, r)[i]) == KeyOf(r);
    } else {
      assert r in rows + [r];
    }
  }

  lemma PutReflects(rows: seq<C.Row>, sent: seq<Sent>, s: Sent)
    requires Reflects(rows, sent)
    ensures Reflects(C.Upsert(rows, RowOf(s)), sent + [s])
  {
    hide LastOf, FirstOf, Holds, Present, C.Refresh;
    var r, after := RowOf(s), C.Upsert(rows, RowOf(s));
    RefreshRows(rows, r);
    forall u | u in after
      ensures Holds(sent + [s], u)
    {
      var i :| 0 <= i < |after| && after[i] == u;
      if i < |rows| {
        assert rows[i] in rows;
        RefreshedHolds(sent, s, rows[i]);
        UntouchedWithoutKey(rows, r, i);
      } else {
        NewHolds(rows, sent, s);
      }
    }
    L.StatementsKeepRows(rows, r, 0, 0, 0);
    SentIsPresent(rows, s);
    forall k | LastOf(sent + [s], k).Some?
      ensures Present(after, k)
    {
      OfAppended(sent, s, k);
      if For(s, k) {
        assert k == KeyOf(r);
      } else {
        PresentStays(rows, after, k);
      }
    }
  }

  lemma UntouchedWithoutKey(rows: seq<C.Row>, r: C.Row, i: nat)
    requires i < |rows|
    ensures !C.HasKey(rows, r) ==> !C.SameKey(rows[i], r)
  {
    assert rows[i] in rows;
  }

  /** The key has a row, and every row of it carries these columns. */
  ghost predicate ReadsBack(
    rows: seq<C.Row>, k: Key, worker: WorkerId, parent: Option<CheckpointId>, payload: nat)
  {
    && Present(rows, k)
    && forall r | r in rows && KeyOf(r) == k :: r.worker == worker && r.parent == parent && r.payload == payload
  }

  lemma UpsertReadsBack(rows: seq<C.Row>, s: Sent)
    ensures ReadsBack(C.Upsert(rows, RowOf(s)), Key(s.task, s.ns, s.id), s.worker, s.parent, s.payload)
  {
    hide C.Refresh;
    var r, after := RowOf(s), C.Upsert(rows, RowOf(s));
    RefreshRows(rows, r);
    SentIsPresent(rows, s);
    forall u | u in after && KeyOf(u) == KeyOf(r)
      ensures u.worker == s.worker && u.parent == s.parent && u.payload == s.payload
    {
      var i :| 0 <= i < |after| && after[i] == u;
      if i < |rows| {
        UntouchedWithoutKey(rows, r, i);
      }
    }
  }

  // ---- Steps and runs ------------------------------------------------------------------------------

  lemma SameRows(rows: seq<C.Row>)
    ensures SameButCost(rows, rows)
  {
  }

  lemma NotedRows(db: Db, w: WorkerId, id: TaskId, note: MemoryNote, completed: bool)
    requires id in db.tasks
    ensures SameButCost(db.checkpoints, Noted(db, w, id, note, completed).checkpoints)
  {
    hide C.AddCost, SameButCost, Ledger.Accepts, HourCostAdded;
    SameRows(db.checkpoints);
    if note.Memory? && note.checkpoint.Some? {
      CostWritesOnlyCost(db.checkpoints, id, note.checkpoint.value, NoteCost(note));
    }
  }

  lemma MoveRows(db: Db, step: Step)
    requires MoveOf(db, step).Some?
    ensures SameButCost(db.checkpoints, Apply(db, step).checkpoints)
  {
    hide MoveOf, Noted, Quiet, SameButCost;
    SameRows(db.checkpoints);
    if step.Complete? {
      MarkedTaskExists(db, step);
      NotedRows(db, step.worker, step.id, step.note, true);
    } else if step.Abandon? {
      MarkedTaskExists(db, step);
      NotedRows(db, step.worker, step.id, step.note, false);
    }
  }

  lemma ExecutorRows(db: Db, step: Step)
    requires !step.PutCheckpoint?
    ensures SameButCost(db.checkpoints, ExecutorQuiet(db, step).checkpoints)
  {
    hide SameButCost, HoldsLease, C.Upsert, C.SetCost, C.AddCost, C.MirrorCost, C.IsLatest, Ledger.Accepts;
    SameRows(db.checkpoints);
    match step
    case StepCost(w, id, checkpoint, cost) => CostWritesOnlyCost(db.checkpoints, id, checkpoint, cost);
    case SupervisorCost(w, id, checkpoint, cost) => CostWritesOnlyCost(db.checkpoints, id, checkpoint, cost);
    case SandboxMirror(id, cost, checkpoint) => CostWritesOnlyCost(db.checkpoints, id, checkpoint, cost);
    case _ =>
  }

  lemma PutRows(db: Db, step: Step)
    requires step.PutCheckpoint?
    ensures MoveOf(db, step).None?
    ensures var sent := LandedNow(db, step);
      Apply(db, step).checkpoints
        == if sent == [] then db.checkpoints else C.Upsert(db.checkpoints, RowOf(sent[0]))
    ensures |LandedNow(db, step)| <= 1
  {
    hide PollerMove, ReaperMove, ApiMove, PollerQuiet, ReaperQuiet, ApiQuiet, C.Upsert;
  }

  lemma OtherRows(db: Db, step: Step)
    requires !step.PutCheckpoint?
    ensures SameButCost(db.checkpoints, Apply(db, step).checkpoints)
  {
    hide MoveOf, PollerQuiet, ExecutorQuiet, ReaperQuiet, ApiQuiet, Prepared, Enact, Finished, SameButCost;
    SameRows(db.checkpoints);
    if MoveOf(db, step).Some? {
      MoveRows(db, step);
    } else {
      ExecutorRows(db, step);
      L.OthersKeepKeys(db, step);
    }
  }

  lemma StepReflects(db: Db, step: Step, sent: seq<Sent>)
    requires Reflects(db.checkpoints, sent)
    ensures Reflects(Apply(db, step).checkpoints, sent + LandedNow(db, step))
  {
    hide Apply, MoveOf, Reflects, C.Upsert;
    assert sent + [] == sent;
    if step.PutCheckpoint? {
      PutRows(db, step);
      var now := LandedNow(db, step);
      if now != [] {
        assert now == [now[0]];
        PutReflects(db.checkpoints, sent, now[0]);
      }
    } else {
      OtherRows(db, step);
      CostsKeepReflection(db.checkpoints, Apply(db, step).checkpoints, sent);
    }
  }

  lemma NothingSent()
    ensures Reflects([], [])
  {
  }

  lemma {:induction false} RunReflects(db: Db, steps: seq<Step>, sent: seq<Sent>)
    requires Reflects(db.checkpoints, sent)
    ensures Reflects(Run(db, steps).checkpoints, sent + Landed(db, steps))
    decreases |steps|
  {
    hide Apply, Reflects, LandedNow;
    if steps == [] {
      assert sent + [] == sent;
    } else {
      var now, rest := LandedNow(db, steps[0]), Landed(Apply(db, steps[0]), steps[1..]);
      StepReflects(db, steps[0], sent);
      RunReflects(Apply(db, steps[0]), steps[1..], sent + now);
      assert sent + now + rest == sent + (now + rest);
    }
  }

  /** On every run from a fresh database a checkpoint is present if and only if a lease holder sent it,
      and its row holds the worker, the parent and the payload that a lease holder sent last for its
      task, namespace and id, and the time at which the first one arrived. */
  lemma StoredCheckpointsAreLeaseHolders(start: Db, steps: seq<Step>, k: Key)
    requires Initial(start)
    ensures var rows, sent := Run(start, steps).checkpoints, Landed(start, steps);
      && (Present(rows, k) <==> exists i :: 0 <= i < |sent| && For(sent[i], k))
      && forall r | r in rows && KeyOf(r) == k ::
           var last, first := LastOf(sent, k), FirstOf(sent, k);
           && last.Some? && first.Some?
           && r.worker == last.value.worker && r.parent == last.value.parent && r.payload == last.value.payload
           && r.createdAt == first.value.at
  {
    hide Apply, Run, Landed, LastOf, FirstOf;
    NothingSent();
    RunReflects(start, steps, []);
    var rows, sent := Run(start, steps).checkpoints, Landed(start, steps);
    assert [] + sent == sent;
    LastOfIsLast(sent, k);
  }

  ghost predicate LastAt(sent: seq<Sent>, k: Key, i: int)
  {
    0 <= i < |sent| && For(sent[i], k) && forall j :: i < j < |sent| ==> !For(sent[j], k)
  }

  ghost predicate FirstAt(sent: seq<Sent>, k: Key, i: int)
  {
    0 <= i < |sent| && For(sent[i], k) && forall j :: 0 <= j < i ==> !For(sent[j], k)
  }

  /** `LastOf` is the last entry for the key, `FirstOf` the first. */
  lemma {:induction false} LastOfIsLast(sent: seq<Sent>, k: Key)
    ensures LastOf(sent, k).Some? <==> exists i :: 0 <= i < |sent| && For(sent[i], k)
    ensures LastOf(sent, k).Some? ==> exists i :: LastAt(sent, k, i) && LastOf(sent, k) == Some(sent[i])
  {
    if sent == [] {
    } else {
      var n := |sent| - 1;
      var init := sent[..n];
      LastOfIsLast(init, k);
      assert forall j :: 0 <= j < n ==> init[j] == sent[j];
      if For(sent[n], k) {
        assert LastAt(sent, k, n);
      } else if LastOf(init, k).Some? {
        var i :| LastAt(init, k, i) && LastOf(init, k) == Some(init[i]);
        assert LastAt(sent, k, i);
      }
    }
  }

  lemma {:induction false} FirstOfIsFirst(sent: seq<Sent>, k: Key)
    ensures FirstOf(sent, k).None? ==> forall i :: 0 <= i < |sent| ==> !For(sent[i], k)
    ensures FirstOf(sent, k).Some? ==> exists i :: FirstAt(sent, k, i) && FirstOf(sent, k) == Some(sent[i])
  {
    if sent == [] {
    } else {
      var n := |sent| - 1;
      var init := sent[..n];
      FirstOfIsFirst(init, k);
      assert forall j :: 0 <= j < n ==> init[j] == sent[j];
      if FirstOf(init, k).Some? {
        var i :| FirstAt(init, k, i) && FirstOf(init, k) == Some(init[i]);
        assert FirstAt(sent, k, i);
      } else if For(sent[n], k) {
        assert FirstAt(sent, k, n);
      }
    }
  }

  lemma FindsPresent(rows: seq<C.Row>, k: Key, found: Option<C.Row>)
    requires L.Answers(rows, k.task, k.ns, Some(k.id), found)
    ensures Present(rows, k) ==> found.Some?
  {
    if Present(rows, k) {
      var r :| r in rows && KeyOf(r) == k;
    }
  }

  /** Read-back: a lookup of a checkpoint by its id, at the end of any run, answers with what a lease
      holder sent last for it, and finds nothing only if nothing was sent. */
  lemma LookupReadsBack(
    start: Db, steps: seq<Step>, task: TaskId, ns: C.Namespace, id: CheckpointId, found: Option<C.Row>)
    requires Initial(start) && L.Answers(Run(start, steps).checkpoints, task, ns, Some(id), found)
    ensures var last := LastOf(Landed(start, steps), Key(task, ns, id));
      && (found.None? <==> last.None?)
      && (found.Some? ==> found.value.task == task && found.value.ns == ns && found.value.id == id
                          && found.value.worker == last.value.worker && found.value.parent == last.value.parent
                          && found.value.payload == last.value.payload)
  {
    hide Apply, Run, Landed, LastOf, FirstOf;
    var rows, k := Run(start, steps).checkpoints, Key(task, ns, id);
    StoredCheckpointsAreLeaseHolders(start, steps, k);
    LastOfIsLast(Landed(start, steps), k);
    FindsPresent(rows, k, found);
  }
}
