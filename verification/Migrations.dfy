/** The migration runner: at-most-once application under crashed, repeated and concurrent runs. */
module Migrations {
  type Filename = nat
  type Checksum = nat

  const NO_CHECKSUM: Checksum := 0

  datatype Migration = Migration(filename: Filename, checksum: Checksum)

  /** What becomes of one migration's transaction; the reply to a commit may be lost. */
  datatype Outcome = Commits | RollsBack | CommitsUnheard

  /** `history` is every migration whose SQL was ever committed, oldest first. */
  datatype Schema = Schema(ledger: map<Filename, Checksum>, history: seq<Migration>)

  /** A run reads the ledger once, then works through its list. */
  datatype Runner = Runner(migrations: seq<Migration>, snapshot: map<Filename, Checksum>, at: nat, failed: bool)

  /** An empty checksum counts as no entry. */
  predicate Recorded(snapshot: map<Filename, Checksum>, m: Migration)
  {
    m.filename in snapshot && snapshot[m.filename] != NO_CHECKSUM
  }

  predicate Mismatch(snapshot: map<Filename, Checksum>, m: Migration)
  {
    Recorded(snapshot, m) && snapshot[m.filename] != m.checksum
  }

  /** The ledger's primary key refuses a second entry, and the transaction with it. */
  predicate Lands(s: Schema, m: Migration, o: Outcome)
  {
    o != RollsBack && m.filename !in s.ledger
  }

  function Applied(s: Schema, m: Migration): Schema
  {
    Schema(s.ledger[m.filename := m.checksum], s.history + [m])
  }

  /** One turn of the loop. */
  function Turn(s: Schema, r: Runner, o: Outcome): (Schema, Runner)
  {
    if r.failed || r.at >= |r.migrations| then (s, r)
    else
      var m := r.migrations[r.at];
      if Mismatch(r.snapshot, m) then (s, r.(failed := true))
      else if Recorded(r.snapshot, m) then (s, r.(at := r.at + 1))
      else if Lands(s, m, o) then
        (Applied(s, m), if o == Commits then r.(at := r.at + 1) else r.(failed := true))
      else (s, r.(failed := true))
  }

  /** A turn either moves on, with the migration recorded under its own checksum, or stops the run: on a
      checksum that differs from the one read at the start, on a commit that was not heard to succeed,
      and on a name that is taken by now. An empty checksum counts as unread. */
  lemma TurnVerdict(s: Schema, r: Runner, o: Outcome)
    requires !r.failed && r.at < |r.migrations|
    ensures var (t, q) := Turn(s, r, o); var m := r.migrations[r.at];
      var read := m.filename in r.snapshot && r.snapshot[m.filename] != 0;
      && (q.failed <==> if read then r.snapshot[m.filename] != m.checksum else o != Commits || m.filename in s.ledger)
      && q.at == (if q.failed then r.at else r.at + 1)
      && q.migrations == r.migrations && q.snapshot == r.snapshot
      && t == (if !read && m.filename !in s.ledger && o in {Commits, CommitsUnheard}
               then Schema(s.ledger[m.filename := m.checksum], s.history + [m]) else s)
  {
  }

  // ---- Concurrent runs -----------------------------------------------------------------------------

  datatype System = System(schema: Schema, runners: map<nat, Runner>)

  datatype Event = StartRun(id: nat, migrations: seq<Migration>) | TakeTurn(id: nat, outcome: Outcome)

  function Next(y: System, ev: Event): System
  {
    match ev
    case StartRun(id, ms) =>
      if id in y.runners then y else y.(runners := y.runners[id := Runner(ms, y.schema.ledger, 0, false)])
    case TakeTurn(id, o) =>
      if id !in y.runners then y
      else
        var (s, r) := Turn(y.schema, y.runners[id], o);
        System(s, y.runners[id := r])
  }

  function Run(y: System, evs: seq<Event>): System
    decreases |evs|
  {
    if evs == [] then y else Run(Next(y, evs[0]), evs[1..])
  }

  predicate DistinctNames(ms: seq<Migration>)
  {
    forall i, j :: 0 <= i < j < |ms| ==> ms[i].filename != ms[j].filename
  }

  /** The ledger is exactly the history, and nothing was applied twice. */
  predicate Agrees(s: Schema)
  {
    && DistinctNames(s.history)
    && (forall i :: 0 <= i < |s.history| ==>
          s.history[i].filename in s.ledger && s.ledger[s.history[i].filename] == s.history[i].checksum)
    && forall f | f in s.ledger :: exists i :: 0 <= i < |s.history| && s.history[i].filename == f
  }

  lemma AppliedAgrees(s: Schema, m: Migration)
    requires Agrees(s) && m.filename !in s.ledger
    ensures Agrees(Applied(s, m))
  {
    var t := Applied(s, m);
    forall f | f in t.ledger
      ensures exists i :: 0 <= i < |t.history| && t.history[i].filename == f
    {
      if f == m.filename {
        assert t.history[|s.history|] == m;
      } else {
        var i :| 0 <= i < |s.history| && s.history[i].filename == f;
        assert t.history[i] == s.history[i];
      }
    }
  }

  lemma TurnAgrees(s: Schema, r: Runner, o: Outcome)
    requires Agrees(s)
    ensures Agrees(Turn(s, r, o).0)
  {
    hide Agrees;
    if !r.failed && r.at < |r.migrations| && Lands(s, r.migrations[r.at], o) {
      AppliedAgrees(s, r.migrations[r.at]);
    }
  }

  /** Over any interleaving of runs that crash, fail and repeat, each filename's SQL commits at
      most once, and the ledger records exactly what was committed. */
  lemma {:induction false} AppliedAtMostOnce(y: System, evs: seq<Event>)
    requires Agrees(y.schema)
    ensures Agrees(Run(y, evs).schema)
    decreases |evs|
  {
    hide Agrees, Turn;
    if evs == [] {
    } else {
      if evs[0].TakeTurn? && evs[0].id in y.runners {
        TurnAgrees(y.schema, y.runners[evs[0].id], evs[0].outcome);
      }
      AppliedAtMostOnce(Next(y, evs[0]), evs[1..]);
    }
  }

  lemma NoMismatch(snapshot: map<Filename, Checksum>, m: Migration)
    requires m.filename in snapshot && !Mismatch(snapshot, m)
    ensures snapshot[m.filename] in {0, m.checksum}
  {
  }

  /** The run's list is recorded up to where the run is, and what it read at the start still stands. */
  predicate Recording(s: Schema, r: Runner)
  {
    && r.at <= |r.migrations|
    && (forall f | f in r.snapshot :: f in s.ledger && s.ledger[f] == r.snapshot[f])
    && forall i :: 0 <= i < r.at ==>
         r.migrations[i].filename in s.ledger && s.ledger[r.migrations[i].filename] == r.migrations[i].checksum
  }

  lemma TurnRecords(s: Schema, r: Runner, o: Outcome)
    requires Recording(s, r)
    ensures Recording(Turn(s, r, o).0, Turn(s, r, o).1)
  {
  }

  /** A turn of one run leaves what another has recorded. */
  lemma OthersRecord(s: Schema, r: Runner, o: Outcome, q: Runner)
    requires Recording(s, q)
    ensures Recording(Turn(s, r, o).0, q)
  {
  }

  lemma {:induction false} RunsRecord(y: System, evs: seq<Event>)
    requires forall id | id in y.runners :: Recording(y.schema, y.runners[id])
    ensures var z := Run(y, evs); forall id | id in z.runners :: Recording(z.schema, z.runners[id])
    decreases |evs|
  {
    hide Turn, Recording;
    if evs == [] {
    } else {
      var z := Next(y, evs[0]);
      forall id | id in z.runners
        ensures Recording(z.schema, z.runners[id])
      {
        if evs[0].StartRun? && id !in y.runners {
          FreshRunner(y.schema, evs[0].migrations);
        } else if evs[0].TakeTurn? && evs[0].id in y.runners {
          var r := y.runners[evs[0].id];
          TurnRecords(y.schema, r, evs[0].outcome);
          OthersRecord(y.schema, r, evs[0].outcome, y.runners[id]);
        }
      }
      RunsRecord(z, evs[1..]);
      assert Run(y, evs) == Run(z, evs[1..]);
    }
  }

  lemma FreshRunner(s: Schema, ms: seq<Migration>)
    ensures Recording(s, Runner(ms, s.ledger, 0, false))
  {
  }

  /** Whatever other runs do beside it, a run that reached the end of its list leaves every migration of
      the list in the ledger under its own checksum. */
  lemma FinishedRunsAreComplete(schema: Schema, evs: seq<Event>, id: nat, i: nat)
    requires var y := Run(System(schema, map[]), evs);
      id in y.runners && y.runners[id].at >= |y.runners[id].migrations| && i < |y.runners[id].migrations|
    ensures var y := Run(System(schema, map[]), evs); var m := y.runners[id].migrations[i];
      m.filename in y.schema.ledger && y.schema.ledger[m.filename] == m.checksum
  {
    hide Run;
    RunsRecord(System(schema, map[]), evs);
  }

  // ---- One run at a time ---------------------------------------------------------------------------

  /** Not in the ledger yet, in the order of the list. */
  function Pending(ledger: map<Filename, Checksum>, ms: seq<Migration>): seq<Migration>
  {
    if ms == [] then []
    else
      var m := ms[|ms| - 1];
      Pending(ledger, ms[..|ms| - 1]) + if m.filename in ledger then [] else [m]
  }

  function AppliedAll(s: Schema, ms: seq<Migration>): Schema
  {
    if ms == [] then s else Applied(AppliedAll(s, ms[..|ms| - 1]), ms[|ms| - 1])
  }

  lemma {:induction false} AppliedAllNames(s: Schema, ms: seq<Migration>)
    ensures AppliedAll(s, ms).history == s.history + ms
    ensures forall f :: f in AppliedAll(s, ms).ledger <==>
              f in s.ledger || exists i :: 0 <= i < |ms| && ms[i].filename == f
  {
    if ms == [] {
    } else {
      var n := |ms| - 1;
      AppliedAllNames(s, ms[..n]);
      assert s.history + ms == s.history + ms[..n] + [ms[n]];
      assert forall i :: 0 <= i < n ==> ms[..n][i] == ms[i];
    }
  }

  lemma {:induction false} PendingPrefix(ledger: map<Filename, Checksum>, ms: seq<Migration>, i: nat)
    requires i <= |ms|
    ensures Pending(ledger, ms[..i]) <= Pending(ledger, ms)
  {
    if i == |ms| {
      assert ms[..i] == ms;
    } else {
      PendingPrefix(ledger, ms[..|ms| - 1], i);
      assert ms[..|ms| - 1][..i] == ms[..i];
    }
  }

  lemma PendingStep(ledger: map<Filename, Checksum>, ms: seq<Migration>, i: nat)
    requires i < |ms|
    ensures var done, pending := Pending(ledger, ms[..i]), Pending(ledger, ms);
      var next := Pending(ledger, ms[..i + 1]);
      && |done| <= |pending| && pending[..|done|] == done
      && |next| <= |pending| && pending[..|next|] == next
      && next == done + if ms[i].filename in ledger then [] else [ms[i]]
  {
    PendingPrefix(ledger, ms, i);
    PendingPrefix(ledger, ms, i + 1);
    assert ms[..i + 1][..i] == ms[..i];
  }

  /** Exactly the first `applied` pending migrations have been applied, and the ledger says so. */
  predicate Partly(before: Schema, ms: seq<Migration>, applied: nat, now: Schema)
  {
    && applied <= |Pending(before.ledger, ms)| && Agrees(now)
    && now == AppliedAll(before, Pending(before.ledger, ms)[..applied])
  }

  /** The first `i` migrations are dealt with, and the first `applied` pending ones applied. */
  predicate Progress(before: Schema, ms: seq<Migration>, i: nat, applied: nat, now: Schema)
  {
    && i <= |ms| && Agrees(now) && before.ledger.Keys <= now.ledger.Keys
    && applied <= |Pending(before.ledger, ms)|
    && Pending(before.ledger, ms)[..applied] == Pending(before.ledger, ms[..i])
    && now == AppliedAll(before, Pending(before.ledger, ms)[..applied])
  }

  lemma ProgressSkip(before: Schema, ms: seq<Migration>, i: nat, applied: nat, now: Schema)
    requires i < |ms| && Progress(before, ms, i, applied, now) && Recorded(before.ledger, ms[i])
    ensures Progress(before, ms, i + 1, applied, now)
  {
    hide Agrees, AppliedAll, Pending;
    PendingStep(before.ledger, ms, i);
    assert Pending(before.ledger, ms[..i]) + [] == Pending(before.ledger, ms[..i]);
  }

  lemma ProgressApply(before: Schema, ms: seq<Migration>, i: nat, applied: nat, now: Schema, o: Outcome)
    requires i < |ms| && Progress(before, ms, i, applied, now) && Lands(now, ms[i], o)
    ensures Progress(before, ms, i + 1, applied + 1, Applied(now, ms[i]))
  {
    PendingStep(before.ledger, ms, i);
    AppliedAgrees(now, ms[i]);
    hide Agrees, Pending;
    var pending := Pending(before.ledger, ms);
    assert pending[..applied + 1][..applied] == pending[..applied];
  }

  lemma ProgressStarts(before: Schema, ms: seq<Migration>)
    requires Agrees(before)
    ensures Progress(before, ms, 0, 0, before)
  {
    hide Agrees;
    assert Pending(before.ledger, ms)[..0] == [] && ms[..0] == [];
  }

  lemma ProgressMeans(before: Schema, ms: seq<Migration>, i: nat, applied: nat, now: Schema)
    requires Progress(before, ms, i, applied, now)
    ensures Partly(before, ms, applied, now)
  {
    hide Agrees, Pending, AppliedAll;
  }

  lemma ProgressEnds(before: Schema, ms: seq<Migration>, applied: nat, now: Schema)
    requires Progress(before, ms, |ms|, applied, now)
    ensures applied == |Pending(before.ledger, ms)|
  {
    assert ms[..|ms|] == ms;
  }

  class SchemaDatabase {
    var ledger: map<Filename, Checksum>
    ghost var history: seq<Migration>

    ghost function View(): Schema
      reads this
    {
      Schema(ledger, history)
    }

    constructor ()
      ensures ledger == map[] && history == [] && Agrees(View())
    {
      ledger, history := map[], [];
    }

    /** One migration's transaction. */
    method Attempt(m: Migration, o: Outcome) returns (ok: bool)
      modifies this
      ensures View() == if Lands(old(View()), m, o) then Applied(old(View()), m) else old(View())
      ensures ok <==> Lands(old(View()), m, o) && o == Commits
    {
      ok := false;
      if o != RollsBack && m.filename !in ledger {
        ledger := ledger[m.filename := m.checksum];
        history := history + [m];
        ok := o == Commits;
      }
    }

    /** One turn of the loop; a failure leaves what was applied before, or one migration more when
        only the reply to the commit was lost. */
    method ApplyOne(migrations: seq<Migration>, i: nat, snapshot: map<Filename, Checksum>, o: Outcome,
                    ghost before: Schema, ghost done: nat) returns (ok: bool, ghost applied: nat)
      requires i < |migrations| && snapshot == before.ledger && Progress(before, migrations, i, done, View())
      modifies this
      ensures Partly(before, migrations, applied, View())
      ensures ok ==> Progress(before, migrations, i + 1, applied, View()) && !Mismatch(snapshot, migrations[i])
    {
      var m := migrations[i];
      ghost var was := View();
      applied := done;
      ProgressMeans(before, migrations, i, done, was);
      if Mismatch(snapshot, m) {
        ok := false;
      } else if Recorded(snapshot, m) {
        ok := true;
        ProgressSkip(before, migrations, i, done, was);
      } else {
        ok := Attempt(m, o);
        if Lands(was, m, o) {
          applied := done + 1;
          ProgressApply(before, migrations, i, done, was, o);
          ProgressMeans(before, migrations, i + 1, applied, View());
        }
      }
    }

    /** A run that no other run overlaps leaves exactly the first `applied` of its pending
        migrations applied, in order, and all of them when it succeeds. */
    method ApplyMigrations(migrations: seq<Migration>, outcomes: seq<Outcome>) returns (ok: bool, ghost applied: nat)
      requires Agrees(View()) && |outcomes| == |migrations|
      modifies this
      ensures Partly(old(View()), migrations, applied, View())
      ensures ok ==> applied == |Pending(old(ledger), migrations)|
      ensures ok ==> forall i :: 0 <= i < |migrations| && migrations[i].filename in old(ledger) ==>
                old(ledger)[migrations[i].filename] in {0, migrations[i].checksum}
    {
      hide Progress, Partly, Mismatch;
      var snapshot := ledger;
      ghost var before := View();
      ok, applied := true, 0;
      ProgressStarts(before, migrations);
      for i := 0 to |migrations|
        invariant ok && Progress(before, migrations, i, applied, View())
        invariant forall j :: 0 <= j < i ==> !Mismatch(snapshot, migrations[j])
      {
        ok, applied := ApplyOne(migrations, i, snapshot, outcomes[i], before, applied);
        if !ok {
          return;
        }
      }
      ProgressMeans(before, migrations, |migrations|, applied, View());
      ProgressEnds(before, migrations, applied, View());
      forall i | 0 <= i < |migrations| && migrations[i].filename in snapshot
        ensures snapshot[migrations[i].filename] in {0, migrations[i].checksum}
      {
        NoMismatch(snapshot, migrations[i]);
      }
    }
  }

  lemma {:induction false} PendingByNames(
    one: map<Filename, Checksum>, two: map<Filename, Checksum>, ms: seq<Migration>)
    requires forall i :: 0 <= i < |ms| ==> (ms[i].filename in one <==> ms[i].filename in two)
    ensures Pending(one, ms) == Pending(two, ms)
  {
    if ms == [] {
    } else {
      PendingByNames(one, two, ms[..|ms| - 1]);
    }
  }

  lemma {:induction false} PendingMembers(ledger: map<Filename, Checksum>, ms: seq<Migration>, m: Migration)
    requires m in Pending(ledger, ms)
    ensures exists i :: 0 <= i < |ms| && ms[i] == m
  {
    var n := |ms| - 1;
    if m == ms[n] {
    } else {
      PendingMembers(ledger, ms[..n], m);
      var i :| 0 <= i < n && ms[..n][i] == m;
      assert ms[i] == m;
    }
  }

  lemma {:induction false} PendingNone(ledger: map<Filename, Checksum>, ms: seq<Migration>)
    requires forall i :: 0 <= i < |ms| ==> ms[i].filename in ledger
    ensures Pending(ledger, ms) == []
  {
    if ms == [] {
    } else {
      PendingNone(ledger, ms[..|ms| - 1]);
    }
  }

  /** A name outside the list does not matter to what is pending. */
  lemma PendingUnlisted(s: Schema, init: seq<Migration>, p: seq<Migration>, m: Migration)
    requires forall i :: 0 <= i < |init| ==> init[i].filename != m.filename
    ensures Pending(AppliedAll(s, p + [m]).ledger, init) == Pending(AppliedAll(s, p).ledger, init)
  {
    assert (p + [m])[..|p|] == p;
    PendingByNames(AppliedAll(s, p + [m]).ledger, AppliedAll(s, p).ledger, init);
  }

  /** After a run that applied the first `k` pending migrations, the next run finds exactly the
      rest pending, in the same order. */
  lemma {:induction false} RetryContinues(s: Schema, ms: seq<Migration>, k: nat)
    requires DistinctNames(ms) && k <= |Pending(s.ledger, ms)|
    ensures Pending(AppliedAll(s, Pending(s.ledger, ms)[..k]).ledger, ms) == Pending(s.ledger, ms)[k..]
  {
    hide DistinctNames, AppliedAll, Pending;
    if ms == [] {
      PendingLast(s.ledger, ms);
      PendingLast(AppliedAll(s, Pending(s.ledger, ms)[..k]).ledger, ms);
    } else {
      var n := |ms| - 1;
      var init, m := ms[..n], ms[n];
      var p, pending := Pending(s.ledger, init), Pending(s.ledger, ms);
      var j := if k <= |p| then k else |p|;
      InitDistinct(ms);
      PendingLast(s.ledger, ms);
      LastNameIsNew(s.ledger, ms);
      RetryContinues(s, init, j);
      PendingLast(AppliedAll(s, pending[..k]).ledger, ms);
      if k <= |p| {
        assert pending[..k] == p[..k];
        NamesAfter(s, p[..k], m);
      } else {
        assert pending[..k] == p + [m] && p[..j] == p;
        PendingUnlisted(s, init, p, m);
        NameApplied(s, p, m);
      }
    }
  }

  lemma InitDistinct(ms: seq<Migration>)
    requires ms != [] && DistinctNames(ms)
    ensures DistinctNames(ms[..|ms| - 1])
  {
  }

  lemma PendingLast(ledger: map<Filename, Checksum>, ms: seq<Migration>)
    ensures ms == [] ==> Pending(ledger, ms) == []
    ensures ms != [] ==>
              var n := |ms| - 1;
              Pending(ledger, ms) == Pending(ledger, ms[..n]) + if ms[n].filename in ledger then [] else [ms[n]]
  {
  }

  lemma NameApplied(s: Schema, p: seq<Migration>, m: Migration)
    ensures m.filename in AppliedAll(s, p + [m]).ledger
  {
    assert (p + [m])[..|p|] == p;
  }

  lemma NamesAfter(s: Schema, p: seq<Migration>, m: Migration)
    requires forall i :: 0 <= i < |p| ==> p[i].filename != m.filename
    ensures m.filename in s.ledger <==> m.filename in AppliedAll(s, p).ledger
  {
    AppliedAllNames(s, p);
  }

  lemma LastNameIsNew(ledger: map<Filename, Checksum>, ms: seq<Migration>)
    requires ms != [] && DistinctNames(ms)
    ensures var n := |ms| - 1; var p := Pending(ledger, ms[..n]);
      && (forall i :: 0 <= i < |p| ==> p[i].filename != ms[n].filename)
      && (forall i :: 0 <= i < n ==> ms[..n][i].filename != ms[n].filename)
  {
    var n := |ms| - 1;
    var p := Pending(ledger, ms[..n]);
    forall i | 0 <= i < |p|
      ensures p[i].filename != ms[n].filename
    {
      PendingMembers(ledger, ms[..n], p[i]);
      var l :| 0 <= l < n && ms[..n][l] == p[i];
      assert ms[l] == p[i];
    }
  }

  lemma {:induction false} AppliedAllConcat(s: Schema, xs: seq<Migration>, ys: seq<Migration>)
    ensures AppliedAll(AppliedAll(s, xs), ys) == AppliedAll(s, xs + ys)
  {
    if ys == [] {
      assert xs + ys == xs;
    } else {
      var n := |ys| - 1;
      AppliedAllConcat(s, xs, ys[..n]);
      assert (xs + ys)[..|xs + ys| - 1] == xs + ys[..n];
    }
  }

  /** Two runs one after the other amount to one run that went as far as both together. */
  lemma RunsResume(s: Schema, ms: seq<Migration>, k: nat, j: nat)
    requires DistinctNames(ms) && k + j <= |Pending(s.ledger, ms)|
    ensures var mid := AppliedAll(s, Pending(s.ledger, ms)[..k]);
      && j <= |Pending(mid.ledger, ms)|
      && AppliedAll(mid, Pending(mid.ledger, ms)[..j]) == AppliedAll(s, Pending(s.ledger, ms)[..k + j])
  {
    var pending := Pending(s.ledger, ms);
    RetryContinues(s, ms, k);
    assert pending[..k] + pending[k..][..j] == pending[..k + j];
    AppliedAllConcat(s, pending[..k], pending[k..][..j]);
  }
}
