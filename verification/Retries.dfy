/** Retry accounting: the row's counters, the claim-time snapshot the executor works from, and
    the bound on how often a task is claimed. */
module Retries {
  import opened Tables
  import opened Lifecycle
  import opened Invariants

  /** Index of the most recent claim of a task. */
  function LastClaim(claims: seq<Claim>, id: TaskId): Option<nat>
  {
    if claims == [] then None
    else
      var n := |claims| - 1;
      if claims[n].task == id then Some(n) else LastClaim(claims[..n], id)
  }

  function ClaimCount(claims: seq<Claim>, id: TaskId): nat
  {
    if claims == [] then 0
    else ClaimCount(claims[..|claims| - 1], id) + if claims[|claims| - 1].task == id then 1 else 0
  }

  predicate TaskCounters(t: Task)
  {
    t.retryCount <= t.maxRetries && t.retryCount <= |t.retryHistory|
  }

  /** A snapshot was the row once: its limit is the row's, its count never beyond either bound. */
  predicate SnapshotFits(c: Claim, tasks: map<TaskId, Task>)
  {
    && c.task in tasks && c.maxRetries == tasks[c.task].maxRetries
    && c.retryCount <= c.maxRetries && c.retryCount <= |tasks[c.task].retryHistory|
  }

  /** While a task runs, its most recent claim was made by the owner and saw today's counters. */
  predicate SnapshotCurrent(db: Db, id: TaskId)
  {
    id in db.tasks && db.tasks[id].status == Running ==>
      var k := LastClaim(db.claims, id);
      && k.Some? && k.value < |db.claims|
      && db.claims[k.value] == Claim(id, db.claims[k.value].worker, db.tasks[id].retryCount, db.tasks[id].maxRetries)
      && db.tasks[id].owner == Some(db.claims[k.value].worker)
  }

  ghost predicate RetriesSound(db: Db)
  {
    && LeasesAgree(db)
    && (forall id | id in db.tasks :: TaskCounters(db.tasks[id]))
    && (forall c | c in db.claims :: SnapshotFits(c, db.tasks))
    && (forall id | id in db.tasks :: SnapshotCurrent(db, id))
  }

  lemma ClaimAppended(claims: seq<Claim>, c: Claim, id: TaskId)
    ensures LastClaim(claims + [c], id) == if c.task == id then Some(|claims|) else LastClaim(claims, id)
    ensures ClaimCount(claims + [c], id) == ClaimCount(claims, id) + if c.task == id then 1 else 0
  {
    assert (claims + [c])[..|claims|] == claims;
  }

  lemma {:induction false} LastClaimInRange(claims: seq<Claim>, id: TaskId)
    ensures LastClaim(claims, id).Some? ==>
              LastClaim(claims, id).value < |claims| && claims[LastClaim(claims, id).value].task == id
  {
    if claims == [] {
    } else {
      LastClaimInRange(claims[..|claims| - 1], id);
    }
  }

  /** How a move treats the retry columns of an existing row. */
  predicate RetryMoveFits(db: Db, m: Move)
  {
    if m.id !in db.tasks then TaskCounters(m.row)
    else
      var t := db.tasks[m.id];
      || (m.row.retryCount == t.retryCount && m.row.retryHistory == t.retryHistory)
      || (m.row.retryCount == 0 && m.row.retryHistory == t.retryHistory && t.status == DeadLetter)
      || (t.status == Running && m.row.status == Queued
          && |m.row.retryHistory| == |t.retryHistory| + 1 && TaskCounters(m.row))
  }

  lemma ExecutorRetryColumns(db: Db, step: Step)
    requires forall c | c in db.claims :: SnapshotFits(c, db.tasks)
    ensures ExecutorMove(db, step).Some? ==> RetryMoveFits(db, ExecutorMove(db, step).value)
  {
    hide Ledger.WindowSum, Ledger.WindowStart, NoteFits;
    if step.Retry? && ClaimFits(db, step.worker, step.id, step.claim) {
      assert db.claims[step.claim] in db.claims;
    }
  }

  lemma ReaperRetryColumns(db: Db, step: Step)
    requires forall id | id in db.tasks :: TaskCounters(db.tasks[id])
    ensures ReaperMove(db, step).Some? ==> RetryMoveFits(db, ReaperMove(db, step).value)
  {
    hide MayRecover;
    if step.Requeue? && step.id in db.tasks {
      assert TaskCounters(db.tasks[step.id]);
    }
  }

  lemma ApiRetryColumns(db: Db, step: Step)
    ensures ApiMove(db, step).Some? ==> RetryMoveFits(db, ApiMove(db, step).value)
  {
  }

  lemma RetryColumns(db: Db, step: Step)
    requires forall id | id in db.tasks :: TaskCounters(db.tasks[id])
    requires forall c | c in db.claims :: SnapshotFits(c, db.tasks)
    requires MoveOf(db, step).Some?
    ensures RetryMoveFits(db, MoveOf(db, step).value)
  {
    hide ExecutorMove, ReaperMove, ApiMove;
    match Actor(step)
    case Poller =>
    case Executor => ExecutorRetryColumns(db, step);
    case Reaper => ReaperRetryColumns(db, step);
    case Api => ApiRetryColumns(db, step);
  }

  lemma RetriesStaySound(db: Db, step: Step)
    requires RetriesSound(db)
    ensures RetriesSound(Apply(db, step))
  {
    hide Apply, MoveOf;
    LeasesStayAgreed(db, step);
    if MoveOf(db, step).Some? {
      var m := MoveOf(db, step).value;
      MovesAreLegal(db, step);
      MoveEffects(db, step);
      ClaimMove(db, step);
      RetryColumns(db, step);
      SoundAfterMove(db, Apply(db, step), m, if step.ClaimTask? then Some(step.worker) else None);
    } else {
      QuietEffects(db, step);
      var after := Apply(db, step);
      forall id | id in after.tasks
        ensures SnapshotCurrent(after, id)
      {
        assert SnapshotCurrent(db, id);
      }
    }
  }

  lemma SoundAfterMove(db: Db, after: Db, m: Move, claimant: Option<WorkerId>)
    requires RetriesSound(db) && LegalMove(db, m) && RetryMoveFits(db, m) && LeasesAgree(after)
    requires after.tasks == db.tasks[m.id := m.row]
    requires m.row.status == Running <==> claimant.Some?
    requires claimant.Some? ==>
               && m.row.owner == claimant && m.id in db.tasks
               && after.claims == db.claims + [Claim(m.id, claimant.value, m.row.retryCount, m.row.maxRetries)]
    requires claimant.None? ==> after.claims == db.claims
    ensures RetriesSound(after)
  {
    forall c | c in after.claims
      ensures SnapshotFits(c, after.tasks)
    {
      if c in db.claims {
        assert SnapshotFits(c, db.tasks);
      }
    }
    forall id | id in after.tasks
      ensures SnapshotCurrent(after, id)
    {
      if claimant.Some? {
        ClaimAppended(db.claims, Claim(m.id, claimant.value, m.row.retryCount, m.row.maxRetries), id);
      }
      if id != m.id {
        assert SnapshotCurrent(db, id);
      }
    }
  }

  lemma {:induction false} RetriesSoundOnRuns(db: Db, steps: seq<Step>)
    requires RetriesSound(db)
    ensures RetriesSound(Run(db, steps))
    decreases |steps|
  {
    if steps == [] {
    } else {
      RetriesStaySound(db, steps[0]);
      RetriesSoundOnRuns(Apply(db, steps[0]), steps[1..]);
    }
  }

  lemma ReachableRetriesSound(db: Db)
    requires Reachable(db)
    ensures RetriesSound(db)
  {
    var start, steps: seq<Step> :| Initial(start) && Run(start, steps) == db;
    RetriesSoundOnRuns(start, steps);
  }

  /** In every reachable state the retry count stays within its limit and within the recorded
      history, redriven or not. */
  lemma RetryCountBounded(db: Db, id: TaskId)
    requires Reachable(db) && id in db.tasks
    ensures db.tasks[id].retryCount <= db.tasks[id].maxRetries
    ensures db.tasks[id].retryCount <= |db.tasks[id].retryHistory|
  {
    hide Reachable;
    ReachableRetriesSound(db);
    assert TaskCounters(db.tasks[id]);
  }

  /** The snapshot a worker acts on equals the row while it holds the lease, provided it acts
      on the latest claim of the task, that is, it has not claimed the task again meanwhile. */
  lemma LatestSnapshotEqualsRow(db: Db, w: WorkerId, id: TaskId)
    requires Reachable(db) && HoldsLease(db, w, id)
    ensures var k := LastClaim(db.claims, id);
      && k.Some? && ClaimFits(db, w, id, k.value)
      && db.claims[k.value].retryCount == db.tasks[id].retryCount
      && db.claims[k.value].maxRetries == db.tasks[id].maxRetries
  {
    hide Reachable;
    ReachableRetriesSound(db);
    assert SnapshotCurrent(db, id);
  }

  // ---- Runs without outside help --------------------------------------------------------------

  /** Steps by which a caller, or the budget recovery, puts the task back into the queue. */
  predicate OutsideHelp(step: Step, id: TaskId)
  {
    match step
    case Recover(i) => i == id
    case Approve(i, approved) => i == id
    case Respond(i) => i == id
    case FollowUp(i) => i == id
    case Resume(i) => i == id
    case Redrive(i) => i == id
    case _ => false
  }

  /** A retry that takes effect although a later claim has superseded the one it works from. */
  predicate StaleRetry(db: Db, step: Step, id: TaskId)
  {
    && step.Retry? && step.id == id && LastClaim(db.claims, id) != Some(step.claim)
    && ClaimFits(db, step.worker, id, step.claim) && HoldsLease(db, step.worker, id)
  }

  /** How many retries the row's counter loses in a step: a retry that takes effect writes its
      claim's count plus one, whatever the row's count was. */
  function Loss(db: Db, step: Step, id: TaskId): int
  {
    if step.Retry? && step.id == id && ClaimFits(db, step.worker, id, step.claim) && HoldsLease(db, step.worker, id)
       && db.claims[step.claim].retryCount < db.claims[step.claim].maxRetries
    then db.tasks[id].retryCount - db.claims[step.claim].retryCount
    else 0
  }

  /** Every claim but the one in progress has cost the task one retry, and each retry is in the
      history; `lost` of them are missing from the counter. */
  predicate AccountedWith(db: Db, id: TaskId, lost: int)
  {
    if id !in db.tasks then ClaimCount(db.claims, id) == 0 && lost == 0
    else
      var t, n := db.tasks[id], ClaimCount(db.claims, id);
      && |t.retryHistory| == t.retryCount + lost
      && (t.status == Queued ==> n == t.retryCount + lost)
      && (t.status == Running ==> n == t.retryCount + 1 + lost)
      && n <= t.retryCount + 1 + lost
  }

  predicate Accounted(db: Db, id: TaskId)
  {
    AccountedWith(db, id, 0)
  }

  /** What a step without outside help may do to the accounts of a task. */
  predicate AccountMove(t: Task, u: Task, loss: int)
  {
    || (u.retryCount == t.retryCount && u.retryHistory == t.retryHistory && u.status != Queued && loss == 0)
    || (t.status == Running && u.status == Queued && u.retryCount == t.retryCount + 1 - loss
        && |u.retryHistory| == |t.retryHistory| + 1)
  }

  lemma UnaidedExecutor(db: Db, step: Step, id: TaskId)
    requires id in db.tasks && LeaseAgrees(db.tasks[id])
    ensures ExecutorMove(db, step).Some? && ExecutorMove(db, step).value.id == id ==>
              AccountMove(db.tasks[id], ExecutorMove(db, step).value.row, Loss(db, step, id))
  {
    hide NoteFits;
  }

  lemma UnaidedReaper(db: Db, step: Step, id: TaskId)
    requires id in db.tasks && !OutsideHelp(step, id)
    ensures ReaperMove(db, step).Some? && ReaperMove(db, step).value.id == id ==>
              AccountMove(db.tasks[id], ReaperMove(db, step).value.row, 0)
  {
    hide MayRecover;
  }

  lemma UnaidedApi(db: Db, step: Step, id: TaskId)
    requires id in db.tasks && !OutsideHelp(step, id)
    ensures ApiMove(db, step).Some? && ApiMove(db, step).value.id == id ==>
              AccountMove(db.tasks[id], ApiMove(db, step).value.row, 0)
  {
  }

  lemma OnlyRetriesLose(db: Db, step: Step, id: TaskId)
    ensures Loss(db, step, id) != 0 ==>
              step.Retry? && MoveOf(db, step).Some? && MoveOf(db, step).value.id == id && id in db.tasks
    ensures Actor(step) != Executor ==> Loss(db, step, id) == 0
  {
    hide PollerMove, ReaperMove, ApiMove;
  }

  lemma UnaidedMove(db: Db, step: Step, id: TaskId)
    requires RetriesSound(db) && id in db.tasks && !OutsideHelp(step, id)
    requires MoveOf(db, step).Some? && MoveOf(db, step).value.id == id
    ensures AccountMove(db.tasks[id], MoveOf(db, step).value.row, Loss(db, step, id))
  {
    hide ExecutorMove, ReaperMove, ApiMove, Loss;
    OnlyRetriesLose(db, step, id);
    match Actor(step)
    case Poller =>
    case Executor => UnaidedExecutor(db, step, id);
    case Reaper => UnaidedReaper(db, step, id);
    case Api => UnaidedApi(db, step, id);
  }

  /** The exact effect of a step on the accounts. */
  lemma AccountsAfter(db: Db, step: Step, id: TaskId, lost: int)
    requires RetriesSound(db) && AccountedWith(db, id, lost) && !OutsideHelp(step, id)
    ensures AccountedWith(Apply(db, step), id, lost + Loss(db, step, id))
  {
    hide Apply, MoveOf, Loss;
    OnlyRetriesLose(db, step, id);
    if MoveOf(db, step).Some? {
      var m := MoveOf(db, step).value;
      MovesAreLegal(db, step);
      MoveEffects(db, step);
      ClaimMove(db, step);
      if step.ClaimTask? {
        ClaimAppended(db.claims, Claim(m.id, step.worker, m.row.retryCount, m.row.maxRetries), id);
      } else {
        assert Apply(db, step).claims == db.claims;
      }
      if m.id == id && id in db.tasks {
        UnaidedMove(db, step, id);
      }
    } else {
      QuietEffects(db, step);
    }
  }

  /** Claims are numbered by their counts: while the task runs every claim but the latest, and while
      it is queued every claim, has seen fewer retries than the row now shows. */
  predicate Older(db: Db, id: TaskId)
  {
    id in db.tasks ==>
      forall k :: 0 <= k < |db.claims| && db.claims[k].task == id ==>
        && (db.tasks[id].status == Running && LastClaim(db.claims, id) != Some(k) ==>
              db.claims[k].retryCount < db.tasks[id].retryCount)
        && (db.tasks[id].status == Queued ==> db.claims[k].retryCount < db.tasks[id].retryCount)
  }

  /** Retries lose something exactly when they are stale. */
  lemma StaleRetriesLose(db: Db, step: Step, id: TaskId)
    requires RetriesSound(db) && Older(db, id)
    ensures Loss(db, step, id) >= 0
    ensures Loss(db, step, id) > 0 <==> StaleRetry(db, step, id)
  {
    if step.Retry? && step.id == id && ClaimFits(db, step.worker, id, step.claim) && HoldsLease(db, step.worker, id) {
      assert SnapshotCurrent(db, id) && TaskCounters(db.tasks[id]);
      assert SnapshotFits(db.claims[step.claim], db.tasks);
    }
  }

  /** A claim of `id` becomes its latest; every earlier one has seen fewer retries. */
  lemma OlderAfterClaim(db: Db, after: Db, id: TaskId, c: Claim)
    requires Older(db, id) && id in db.tasks && id in after.tasks && c.task == id
    requires db.tasks[id].status == Queued && after.tasks[id].status == Running
    requires after.tasks[id].retryCount == db.tasks[id].retryCount && after.claims == db.claims + [c]
    ensures Older(after, id)
  {
    ClaimAppended(db.claims, c, id);
  }

  lemma OlderAfterOtherClaim(db: Db, after: Db, id: TaskId, c: Claim)
    requires Older(db, id) && c.task != id && after.claims == db.claims + [c]
    requires id in after.tasks <==> id in db.tasks
    requires id in db.tasks ==> after.tasks[id] == db.tasks[id]
    ensures Older(after, id)
  {
    ClaimAppended(db.claims, c, id);
  }

  /** A fresh retry or a requeue counts one more than the latest claim saw. */
  lemma OlderAfterRequeue(db: Db, after: Db, id: TaskId, t: Task)
    requires RetriesSound(db) && Older(db, id) && id in db.tasks && after.claims == db.claims
    requires after.tasks == db.tasks[id := t] && t.status != Running
    requires AccountMove(db.tasks[id], t, 0)
    ensures Older(after, id)
  {
    assert SnapshotCurrent(db, id);
    LastClaimInRange(db.claims, id);
  }

  lemma OlderAfterMove(db: Db, step: Step, id: TaskId)
    requires RetriesSound(db) && Older(db, id) && (id in db.tasks || ClaimCount(db.claims, id) == 0)
    requires !OutsideHelp(step, id) && !StaleRetry(db, step, id) && MoveOf(db, step).Some?
    ensures Older(Apply(db, step), id)
  {
    hide Apply, MoveOf, Loss, OutsideHelp, StaleRetry, RetriesSound, Older;
    var m, after := MoveOf(db, step).value, Apply(db, step);
    SoundAgrees(db);
    MovesAreLegal(db, step);
    MoveEffects(db, step);
    ClaimMove(db, step);
    if step.ClaimTask? {
      var c := Claim(m.id, step.worker, m.row.retryCount, m.row.maxRetries);
      if m.id == id {
        OlderAfterClaim(db, after, id, c);
      } else {
        OlderAfterOtherClaim(db, after, id, c);
      }
    } else if m.id == id && id in db.tasks {
      StaleRetriesLose(db, step, id);
      UnaidedMove(db, step, id);
      assert after.claims == db.claims;
      OlderAfterRequeue(db, after, id, m.row);
    } else {
      assert after.claims == db.claims;
      NoClaims(db.claims, id);
      OlderElsewhere(db, after, id);
    }
  }

  lemma SoundAgrees(db: Db)
    requires RetriesSound(db)
    ensures LeasesAgree(db)
  {
  }

  lemma OlderElsewhere(db: Db, after: Db, id: TaskId)
    requires Older(db, id) && after.claims == db.claims
    requires (forall c | c in db.claims :: c.task != id)
             || (id in db.tasks && id in after.tasks && after.tasks[id].status == db.tasks[id].status
                 && after.tasks[id].retryCount == db.tasks[id].retryCount)
    ensures Older(after, id)
  {
  }

  lemma OlderKept(db: Db, step: Step, id: TaskId)
    requires RetriesSound(db) && Older(db, id) && (id in db.tasks || ClaimCount(db.claims, id) == 0)
    requires !OutsideHelp(step, id) && !StaleRetry(db, step, id)
    ensures Older(Apply(db, step), id)
  {
    hide Apply, MoveOf, Older, OutsideHelp, StaleRetry, RetriesSound;
    if MoveOf(db, step).Some? {
      OlderAfterMove(db, step, id);
    } else {
      QuietEffects(db, step);
      NoClaims(db.claims, id);
      OlderElsewhere(db, Apply(db, step), id);
    }
  }

  lemma {:induction false} NoClaims(claims: seq<Claim>, id: TaskId)
    ensures ClaimCount(claims, id) == 0 ==> forall c | c in claims :: c.task != id
  {
    if claims == [] {
    } else {
      NoClaims(claims[..|claims| - 1], id);
    }
  }

  /** One step without outside help keeps the accounts in order if and only if it is not a stale
      retry that takes effect. */
  lemma StepKeepsAccountsIff(db: Db, step: Step, id: TaskId)
    requires RetriesSound(db) && Accounted(db, id) && Older(db, id) && !OutsideHelp(step, id)
    ensures Accounted(Apply(db, step), id) <==> !StaleRetry(db, step, id)
  {
    hide Apply, Loss, StaleRetry, OutsideHelp, Older;
    AccountsAfter(db, step, id, 0);
    StaleRetriesLose(db, step, id);
    StillThere(db, step, id);
    if Loss(db, step, id) != 0 {
      OnlyRetriesLose(db, step, id);
    }
  }

  lemma StillThere(db: Db, step: Step, id: TaskId)
    ensures id in db.tasks ==> id in Apply(db, step).tasks
  {
    hide Apply, MoveOf;
    if MoveOf(db, step).Some? { MoveEffects(db, step); } else { QuietEffects(db, step); }
  }

  /** The net loss of a run: one stale retry may also lift the count. */
  ghost function Losses(db: Db, steps: seq<Step>, id: TaskId): int
    decreases |steps|
  {
    if steps == [] then 0
    else Loss(db, steps[0], id) + Losses(Apply(db, steps[0]), steps[1..], id)
  }

  /** A stale retry takes effect somewhere in the run. */
  ghost predicate StaleOn(db: Db, steps: seq<Step>, id: TaskId)
    decreases |steps|
  {
    steps != [] && (StaleRetry(db, steps[0], id) || StaleOn(Apply(db, steps[0]), steps[1..], id))
  }

  ghost predicate StaysAccounted(db: Db, steps: seq<Step>, id: TaskId)
    decreases |steps|
  {
    Accounted(db, id) && (steps == [] || StaysAccounted(Apply(db, steps[0]), steps[1..], id))
  }

  lemma {:induction false} AccountsOnRuns(db: Db, steps: seq<Step>, id: TaskId, lost: int)
    requires RetriesSound(db) && AccountedWith(db, id, lost)
    requires forall s | s in steps :: !OutsideHelp(s, id)
    ensures RetriesSound(Run(db, steps)) && AccountedWith(Run(db, steps), id, lost + Losses(db, steps, id))
    decreases |steps|
  {
    hide Apply, Loss, OutsideHelp, AccountedWith;
    if steps == [] {
    } else {
      RetriesStaySound(db, steps[0]);
      AccountsAfter(db, steps[0], id, lost);
      AccountsOnRuns(Apply(db, steps[0]), steps[1..], id, lost + Loss(db, steps[0], id));
    }
  }

  lemma {:induction false} AccountsStayIff(db: Db, steps: seq<Step>, id: TaskId)
    requires RetriesSound(db) && Accounted(db, id) && Older(db, id)
    requires forall s | s in steps :: !OutsideHelp(s, id)
    ensures StaysAccounted(db, steps, id) <==> !StaleOn(db, steps, id)
    ensures !StaleOn(db, steps, id) ==> Losses(db, steps, id) == 0
    decreases |steps|
  {
    hide Apply, Loss, OutsideHelp, StaleRetry, Older;
    if steps == [] {
    } else {
      RetriesStaySound(db, steps[0]);
      StepKeepsAccountsIff(db, steps[0], id);
      StaleRetriesLose(db, steps[0], id);
      if !StaleRetry(db, steps[0], id) {
        OlderKept(db, steps[0], id);
        AccountsStayIff(Apply(db, steps[0]), steps[1..], id);
      } else {
        assert !StaysAccounted(Apply(db, steps[0]), steps[1..], id);
      }
    }
  }

  lemma FreshAccounts(start: Db, id: TaskId)
    requires Initial(start)
    ensures RetriesSound(start) && Accounted(start, id) && Older(start, id)
  {
  }

  /** On every run without human, budget or redrive steps on the task: its history is its retry count
      plus the retries lost to stale writes, and it is claimed at most max_retries + 1 times plus
      those; a running task has been claimed more often than max_retries + 1 if and only if its
      count and the lost retries together exceed max_retries. */
  lemma ClaimsCountLosses(start: Db, steps: seq<Step>, id: TaskId)
    requires Initial(start) && forall s | s in steps :: !OutsideHelp(s, id)
    ensures var db := Run(start, steps); var lost := Losses(start, steps, id);
      id in db.tasks ==>
        && |db.tasks[id].retryHistory| == db.tasks[id].retryCount + lost
        && ClaimCount(db.claims, id) <= db.tasks[id].maxRetries + 1 + lost
        && var pastBound := ClaimCount(db.claims, id) > db.tasks[id].maxRetries + 1;
           (db.tasks[id].status == Running ==>
             (pastBound <==> db.tasks[id].retryCount + lost > db.tasks[id].maxRetries))
  {
    hide Apply, Loss;
    FreshAccounts(start, id);
    AccountsOnRuns(start, steps, id, 0);
    var db := Run(start, steps);
    if id in db.tasks {
      assert TaskCounters(db.tasks[id]);
    }
  }

  /** On those runs the accounts are in order in every state (the history as long as the count, every
      claim but the one in progress paid for by a retry) if and only if no stale retry takes effect. */
  lemma AccountsInOrderIff(start: Db, steps: seq<Step>, id: TaskId)
    requires Initial(start) && forall s | s in steps :: !OutsideHelp(s, id)
    ensures StaysAccounted(start, steps, id) <==> !StaleOn(start, steps, id)
  {
    FreshAccounts(start, id);
    AccountsStayIff(start, steps, id);
  }

  /** Without stale retries a task is claimed at most max_retries + 1 times over its whole life, and
      its history records exactly its retries. */
  lemma ClaimsAreBounded(start: Db, steps: seq<Step>, id: TaskId)
    requires Initial(start) && (forall s | s in steps :: !OutsideHelp(s, id)) && !StaleOn(start, steps, id)
    ensures var db := Run(start, steps);
      id in db.tasks ==>
        && ClaimCount(db.claims, id) <= db.tasks[id].maxRetries + 1
        && |db.tasks[id].retryHistory| == db.tasks[id].retryCount
  {
    hide Apply, Loss, StaleOn, Losses;
    FreshAccounts(start, id);
    AccountsStayIff(start, steps, id);
    ClaimsCountLosses(start, steps, id);
  }
}
