/** A concrete run in which a worker reclaims a task while an earlier execution of its own is
    still in flight, and the retry of that execution breaks the accounts. */
module StaleRetry {
  import opened Tables
  import opened Lifecycle
  import opened Invariants
  import R = Retries

  const SOLE := AgentKey(0, 0)
  const CONFIG := Agent(true, 5, 10, 10)
  const LEASE: nat := 60 * SECOND

  /** A database with one agent and one task. */
  function At(now: Time, t: Task, r: Runtime, events: seq<Event>, claims: seq<Claim>): Db
  {
    Db(now, map[0 := t], map[SOLE := CONFIG], map[SOLE := r], events, [], [], [], map[], claims)
  }

  function Waiting(now: Time, created: Time, retries: nat, after: Option<Time>, history: seq<Time>, version: nat): Task
  {
    Task(SOLE, 0, Queued, None, None, version, retries, 1, after, history, created, created, 3600,
         None, None, None, None, None)
  }

  lemma ConfigureAt()
    ensures Apply(EmptyDb(), SetAgent(SOLE, CONFIG))
         == Db(1, map[], map[SOLE := CONFIG], map[SOLE := FRESH_RUNTIME], [], [], [], [], map[], [])
  {
    hide PollerMove, ExecutorMove, ReaperMove;
  }

  lemma SubmitAt()
    ensures var db := Db(1, map[], map[SOLE := CONFIG], map[SOLE := FRESH_RUNTIME], [], [], [], [], map[], []);
      Apply(db, Submit(0, SOLE, 0, 1, 3600))
         == At(1, Waiting(1, 1, 0, None, [], 1), FRESH_RUNTIME, [Event(0, TaskSubmitted, None, Some(Queued), None)], [])
  {
    hide PollerMove, ExecutorMove, ReaperMove, Quiet;
  }

  lemma ClaimAt(now: Time, t: Task, r: Runtime, events: seq<Event>, claims: seq<Claim>)
    requires t.agent == SOLE && t.pool == 0 && Ready(t, now) && r.running == 0 && r.hourCost == 0
    ensures Apply(At(now, t, r, events, claims), ClaimTask(7, 0, 0, LEASE, SOLE, 0))
         == At(now, Claimed(t, 7, now + LEASE), Runtime(1, 0, now),
               events + [Event(0, TaskClaimed, Some(Queued), Some(Running), Some(7))],
               claims + [Claim(0, 7, t.retryCount, t.maxRetries)])
  {
    hide ExecutorMove, ReaperMove, ApiMove, Quiet;
    var db := At(now, t, r, events, claims);
    var ready := EnsureRuntime(db, 0, 0);
    assert ready.runtime == db.runtime;
    assert Candidate(ready, 0, SOLE, 0);
  }

  lemma RequeueAt(now: Time, t: Task, cursor: Time, events: seq<Event>, claims: seq<Claim>)
    requires t.agent == SOLE && LeaseExpired(t, now) && t.retryCount < t.maxRetries
    ensures Apply(At(now, t, Runtime(1, 0, cursor), events, claims), Requeue(0))
         == At(now, Requeued(t, now), Runtime(0, 0, cursor),
               events + [Event(0, TaskReclaimed, Some(Running), Some(Queued), None)], claims)
  {
    hide ExecutorMove, PollerMove, ApiMove, Quiet;
  }

  lemma RetryAt(now: Time, t: Task, cursor: Time, events: seq<Event>, claims: seq<Claim>)
    requires t.agent == SOLE && t.status == Running && t.owner == Some(7)
    requires |claims| > 0 && claims[0] == Claim(0, 7, 0, 1)
    ensures Apply(At(now, t, Runtime(1, 0, cursor), events, claims), Retry(7, 0, 0))
         == At(now, RetryScheduled(t, claims[0], now), Runtime(0, 0, cursor),
               events + [Event(0, TaskRetryScheduled, Some(Running), Some(Queued), Some(7))], claims)
  {
    hide ReaperMove, PollerMove, ApiMove, Quiet;
  }

  // ---- The common beginning ----------------------------------------------------------------------

  const CLAIM := ClaimTask(7, 0, 0, LEASE, SOLE, 0)
  const LOG_START := [Event(0, TaskSubmitted, None, Some(Queued), None),
                      Event(0, TaskClaimed, Some(Queued), Some(Running), Some(7))]
  const FIRST_CLAIM := [Claim(0, 7, 0, 1)]

  /** One task with one retry, claimed by worker 7. */
  function Opening(): seq<Step>
  {
    [SetAgent(SOLE, CONFIG)] + ([Submit(0, SOLE, 0, 1, 3600)] + ([CLAIM] + []))
  }

  function AfterClaim(): Db
  {
    At(1, Claimed(Waiting(1, 1, 0, None, [], 1), 7, 1 + LEASE), Runtime(1, 0, 1), LOG_START, FIRST_CLAIM)
  }

  lemma OpeningRun()
    ensures Initial(EmptyDb()) && Run(EmptyDb(), Opening()) == AfterClaim()
  {
    hide Apply, Run;
    var s1, s2 := SetAgent(SOLE, CONFIG), Submit(0, SOLE, 0, 1, 3600);
    var t, log := Waiting(1, 1, 0, None, [], 1), [Event(0, TaskSubmitted, None, Some(Queued), None)];
    RunCons(EmptyDb(), s1, [s2] + ([CLAIM] + []));
    RunCons(Apply(EmptyDb(), s1), s2, [CLAIM] + []);
    ConfigureAt();
    SubmitAt();
    var d := At(1, t, FRESH_RUNTIME, log, []);
    RunCons(d, CLAIM, []);
    ClaimAt(1, t, FRESH_RUNTIME, log, []);
    EmptyRun(Apply(d, CLAIM));
    assert log + [Event(0, TaskClaimed, Some(Queued), Some(Running), Some(7))] == LOG_START;
    assert [] + FIRST_CLAIM == FIRST_CLAIM;
  }

  /** The lease runs out and the reaper requeues the task. */
  function LeaseLost(): seq<Step>
  {
    [Tick(61 * SECOND)] + ([Requeue(0)] + [])
  }

  function AfterRequeue(): Db
  {
    At(1 + 61 * SECOND, Requeued(Claimed(Waiting(1, 1, 0, None, [], 1), 7, 1 + LEASE), 1 + 61 * SECOND),
       Runtime(0, 0, 1), LOG_START + [Event(0, TaskReclaimed, Some(Running), Some(Queued), None)], FIRST_CLAIM)
  }

  lemma LeaseLostRun()
    ensures Run(AfterClaim(), LeaseLost()) == AfterRequeue()
  {
    hide Apply, Run;
    var d := AfterClaim();
    var t, now := d.tasks[0], 1 + 61 * SECOND;
    RunCons(d, Tick(61 * SECOND), [Requeue(0)] + []);
    TickResult(d, 61 * SECOND);
    var waited := At(now, t, Runtime(1, 0, 1), LOG_START, FIRST_CLAIM);
    RunCons(waited, Requeue(0), []);
    RequeueAt(now, t, 1, LOG_START, FIRST_CLAIM);
    EmptyRun(Apply(waited, Requeue(0)));
  }

  // ---- A stale retry -----------------------------------------------------------------------------

  /** Worker 7 claims the task again while its earlier execution is still alive... */
  function Reclaim(): seq<Step>
  {
    [Tick(2 * SECOND)] + ([CLAIM] + [])
  }

  function Superseded(): Db
  {
    var now := 1 + 63 * SECOND;
    At(now, Claimed(AfterRequeue().tasks[0], 7, now + LEASE), Runtime(1, 0, now),
       AfterRequeue().events + [Event(0, TaskClaimed, Some(Queued), Some(Running), Some(7))],
       FIRST_CLAIM + [Claim(0, 7, 1, 1)])
  }

  lemma ReclaimRun()
    ensures Run(AfterRequeue(), Reclaim()) == Superseded()
  {
    hide Apply, Run;
    var d := AfterRequeue();
    var t, now := d.tasks[0], 1 + 63 * SECOND;
    RunCons(d, Tick(2 * SECOND), [CLAIM] + []);
    TickResult(d, 2 * SECOND);
    var waited := At(now, t, Runtime(0, 0, 1), d.events, d.claims);
    RunCons(waited, CLAIM, []);
    assert Pow2(0) == 1;
    ClaimAt(now, t, Runtime(0, 0, 1), d.events, d.claims);
    EmptyRun(Apply(waited, CLAIM));
  }

  /** ... and the earlier execution then fails with a retryable error. */
  function LateRetry(): seq<Step>
  {
    [Retry(7, 0, 0)] + ([Tick(3 * SECOND)] + ([CLAIM] + []))
  }

  lemma LateRetryRun()
    ensures var db := Run(Superseded(), LateRetry());
      && 0 in db.tasks && db.tasks[0].maxRetries == 1 && db.tasks[0].retryCount == 1
      && |db.tasks[0].retryHistory| == 2
      && db.claims == FIRST_CLAIM + [Claim(0, 7, 1, 1)] + [Claim(0, 7, 1, 1)]
  {
    hide Apply, Run;
    var d := Superseded();
    var t, now := d.tasks[0], d.now;
    RunCons(d, Retry(7, 0, 0), [Tick(3 * SECOND)] + ([CLAIM] + []));
    RetryAt(now, t, now, d.events, d.claims);
    var retried := RetryScheduled(t, d.claims[0], now);
    assert Pow2(1) == 2;
    var log := d.events + [Event(0, TaskRetryScheduled, Some(Running), Some(Queued), Some(7))];
    var queued := At(now, retried, Runtime(0, 0, now), log, d.claims);
    RunCons(queued, Tick(3 * SECOND), [CLAIM] + []);
    TickResult(queued, 3 * SECOND);
    var waited := At(now + 3 * SECOND, retried, Runtime(0, 0, now), log, d.claims);
    RunCons(waited, CLAIM, []);
    ClaimAt(now + 3 * SECOND, retried, Runtime(0, 0, now), log, d.claims);
    EmptyRun(Apply(waited, CLAIM));
  }

  /** The run is possible from a fresh database, and it ends with one claim more than
      max_retries + 1 and with more retries in the history than on the counter. */
  lemma StaleRetryBreaksAccounts()
    ensures Initial(EmptyDb())
    ensures var db := Run(EmptyDb(), Opening() + (LeaseLost() + (Reclaim() + LateRetry())));
      && 0 in db.tasks && db.tasks[0].maxRetries == 1
      && R.ClaimCount(db.claims, 0) == db.tasks[0].maxRetries + 2
      && |db.tasks[0].retryHistory| == db.tasks[0].retryCount + 1
  {
    hide Apply, Run, Opening, LeaseLost, Reclaim, LateRetry, AfterClaim, AfterRequeue, Superseded;
    OpeningRun();
    LeaseLostRun();
    ReclaimRun();
    LateRetryRun();
    RunConcat(EmptyDb(), Opening(), LeaseLost() + (Reclaim() + LateRetry()));
    RunConcat(AfterClaim(), LeaseLost(), Reclaim() + LateRetry());
    RunConcat(AfterRequeue(), Reclaim(), LateRetry());
    R.ClaimAppended([], Claim(0, 7, 0, 1), 0);
    R.ClaimAppended(FIRST_CLAIM, Claim(0, 7, 1, 1), 0);
    R.ClaimAppended(FIRST_CLAIM + [Claim(0, 7, 1, 1)], Claim(0, 7, 1, 1), 0);
    assert [] + FIRST_CLAIM == FIRST_CLAIM;
  }

  // ---- A redrive ---------------------------------------------------------------------------------

  function CancelAndRedrive(): seq<Step>
  {
    [Cancel(0)] + ([Redrive(0)] + [])
  }

  lemma CancelAt(db: Db)
    requires 0 in db.tasks && db.tasks[0].status == Queued
    ensures var t := Apply(db, Cancel(0)).tasks;
      0 in t && t[0].status == DeadLetter && t[0].retryHistory == db.tasks[0].retryHistory
  {
    hide PollerMove, ExecutorMove, ReaperMove, Quiet;
  }

  lemma RedriveAt(db: Db)
    requires 0 in db.tasks && db.tasks[0].status == DeadLetter
    ensures var t := Apply(db, Redrive(0)).tasks;
      0 in t && t[0].retryCount == 0 && t[0].retryHistory == db.tasks[0].retryHistory
  {
    hide PollerMove, ExecutorMove, ReaperMove, Quiet;
  }

  /** A redrive forgets the count and keeps the history: a run from a fresh database after which the
      history is longer than the count. */
  lemma RedriveKeepsHistory()
    ensures Initial(EmptyDb())
    ensures var db := Run(EmptyDb(), Opening() + (LeaseLost() + CancelAndRedrive()));
      0 in db.tasks && db.tasks[0].retryCount == 0 && |db.tasks[0].retryHistory| == 1
  {
    hide Apply, Run, Opening, LeaseLost, AfterClaim;
    OpeningRun();
    LeaseLostRun();
    RunConcat(EmptyDb(), Opening(), LeaseLost() + CancelAndRedrive());
    RunConcat(AfterClaim(), LeaseLost(), CancelAndRedrive());
    RunCons(AfterRequeue(), Cancel(0), [Redrive(0)] + []);
    RunCons(Apply(AfterRequeue(), Cancel(0)), Redrive(0), []);
    EmptyRun(Apply(Apply(AfterRequeue(), Cancel(0)), Redrive(0)));
    CancelAt(AfterRequeue());
    RedriveAt(Apply(AfterRequeue(), Cancel(0)));
  }
}
