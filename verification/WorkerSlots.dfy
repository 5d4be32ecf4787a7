/** A worker's own concurrency bookkeeping: semaphore permits, the active counter and the live
    executions, under any interleaving of claim attempts and finishing executions. */
module WorkerSlots {
  import opened Tables

  type ExecutionId = nat

  /** `surplus` counts permits released twice, `raised` counts claim attempts that raised. */
  datatype Slots = Slots(
    limit: nat, router: bool, permits: nat, active: nat, live: set<ExecutionId>, claiming: bool,
    surplus: nat, raised: nat)

  datatype Event =
    | BeginClaim                      // capacity check and semaphore acquire
    | ClaimNothing                    // no eligible agent or no task
    | ClaimNothingThenRaise           // as above, and leaving the transaction raises
    | ClaimRaises                     // any other exception of the attempt before the count
    | ClaimSucceeds(e: ExecutionId)
    | LaunchRaises                    // an exception between the count and the launch
    | Finish(e: ExecutionId)

  function Start(limit: nat, router: bool): Slots
  {
    Slots(limit, router, limit, 0, {}, false, 0, 0)
  }

  function Lowered(n: nat): nat
  {
    Max(0, n - 1)
  }

  predicate MayBegin(s: Slots)
  {
    !s.claiming && s.active < s.limit && s.permits > 0
  }

  function Next(s: Slots, ev: Event): Slots
  {
    match ev
    case BeginClaim => if MayBegin(s) then s.(permits := s.permits - 1, claiming := true) else s
    case ClaimNothing => if s.claiming then s.(permits := s.permits + 1, claiming := false) else s
    case ClaimNothingThenRaise =>
      if s.claiming then s.(permits := s.permits + 2, claiming := false, active := Lowered(s.active),
                            surplus := s.surplus + 1, raised := s.raised + 1) else s
    case ClaimRaises =>
      if s.claiming then s.(permits := s.permits + 1, claiming := false, active := Lowered(s.active),
                            raised := s.raised + 1) else s
    case ClaimSucceeds(e) =>
      if !s.claiming || e in s.live then s
      else if s.router then s.(claiming := false, active := s.active + 1, live := s.live + {e})
      else s.(claiming := false, active := s.active + 1, permits := s.permits + 1)
    case LaunchRaises => if s.claiming then s.(permits := s.permits + 1, claiming := false) else s
    case Finish(e) =>
      if e in s.live then s.(permits := s.permits + 1, active := Lowered(s.active), live := s.live - {e}) else s
  }

  function Run(s: Slots, evs: seq<Event>): Slots
    decreases |evs|
  {
    if evs == [] then s else Run(Next(s, evs[0]), evs[1..])
  }

  function Attempts(s: Slots): nat
  {
    if s.claiming then 1 else 0
  }

  /** Every permit is free, held by a live execution or held by the attempt in progress; the
      counter never runs ahead of the executions and lags only by attempts that raised. */
  predicate Balanced(s: Slots)
  {
    && s.permits + |s.live| + Attempts(s) == s.limit + s.surplus
    && s.surplus <= s.raised
    && (s.router ==> s.active <= |s.live| <= s.active + s.raised)
  }

  /** The poller object; one method per stretch of code between two awaits. */
  class TaskPoller {
    const limit: nat
    const router: bool
    var permits: nat
    var active: nat
    var executions: set<ExecutionId>
    var claiming: bool
    ghost var surplus: nat
    ghost var raised: nat

    ghost function View(): Slots
      reads this
    {
      Slots(limit, router, permits, active, executions, claiming, surplus, raised)
    }

    ghost predicate Valid()
      reads this
    {
      Balanced(View())
    }

    constructor (maxConcurrentTasks: nat, hasRouter: bool)
      ensures View() == Start(maxConcurrentTasks, hasRouter) && Valid()
    {
      limit, router := maxConcurrentTasks, hasRouter;
      permits, active, executions, claiming := maxConcurrentTasks, 0, {}, false;
      surplus, raised := 0, 0;
    }

    /** False when the worker is at capacity or would have to wait for a permit. */
    method TryBeginClaim() returns (begun: bool)
      requires Valid() && !claiming
      modifies this
      ensures Valid() && View() == Next(old(View()), BeginClaim)
      ensures begun <==> old(active) < limit && old(permits) > 0
      ensures claiming == begun && permits == old(permits) - (if begun then 1 else 0)
      ensures active == old(active) && executions == old(executions)
    {
      begun := active < limit && permits > 0;
      if begun {
        permits, claiming := permits - 1, true;
      }
    }

    /** The exception handler of a claim attempt. */
    method HandleClaimException()
      requires claiming
      modifies this
      ensures View() == old(View()).(permits := old(permits) + 1, claiming := false,
                                     active := Lowered(old(active)), raised := old(raised) + 1)
    {
      active := Max(0, active - 1);
      permits, claiming := permits + 1, false;
      raised := raised + 1;
    }

    /** The early returns release inside the transaction block, so an exception on leaving it
        reaches the handler, which releases again. */
    method ReturnEmptyHanded(raises: bool)
      requires Valid() && claiming
      modifies this
      ensures Valid()
      ensures View() == Next(old(View()), if raises then ClaimNothingThenRaise else ClaimNothing)
      ensures !claiming && executions == old(executions)
      ensures permits == old(permits) + (if raises then 2 else 1)
      ensures active == if raises && old(active) > 0 then old(active) - 1 else old(active)
    {
      permits := permits + 1;
      if raises {
        surplus := surplus + 1;
        HandleClaimException();
      } else {
        claiming := false;
      }
    }

    method FailClaim()
      requires Valid() && claiming
      modifies this
      ensures Valid() && View() == Next(old(View()), ClaimRaises)
      ensures !claiming && executions == old(executions) && permits == old(permits) + 1
      ensures active == if old(active) > 0 then old(active) - 1 else 0
    {
      HandleClaimException();
    }

    /** Count the claimed task and launch it, or give the permit back when there is no executor. */
    method LaunchClaimed(e: ExecutionId)
      requires Valid() && claiming && e !in executions
      modifies this
      ensures Valid() && View() == Next(old(View()), ClaimSucceeds(e))
      ensures !claiming && active == old(active) + 1
      ensures if router then executions == old(executions) + {e} && permits == old(permits)
              else executions == old(executions) && permits == old(permits) + 1
    {
      active := active + 1;
      if router {
        executions := executions + {e};
      } else {
        permits := permits + 1;
      }
      claiming := false;
    }

    /** An exception after the count was raised and before the launch. */
    method AbortLaunch()
      requires Valid() && claiming
      modifies this
      ensures Valid() && View() == Next(old(View()), LaunchRaises)
      ensures !claiming && executions == old(executions) && active == old(active) && permits == old(permits) + 1
    {
      active := active + 1;
      active := Max(0, active - 1);
      permits, claiming := permits + 1, false;
    }

    /** The cleanup of an execution. */
    method FinishExecution(e: ExecutionId)
      requires Valid() && e in executions
      modifies this
      ensures Valid() && View() == Next(old(View()), Finish(e))
      ensures executions == old(executions) - {e} && permits == old(permits) + 1 && claiming == old(claiming)
      ensures active == if old(active) > 0 then old(active) - 1 else 0
    {
      active := Max(0, active - 1);
      executions := executions - {e};
      permits := permits + 1;
    }
  }

  // ---- Theorems --------------------------------------------------------------------------------

  lemma StaysBalanced(s: Slots, ev: Event)
    requires Balanced(s)
    ensures Balanced(Next(s, ev))
    ensures Next(s, ev).limit == s.limit && Next(s, ev).router == s.router
  {
  }

  lemma {:induction false} RunBalanced(s: Slots, evs: seq<Event>)
    requires Balanced(s)
    ensures var t := Run(s, evs); Balanced(t) && t.limit == s.limit && t.router == s.router
    decreases |evs|
  {
    hide Next, Balanced;
    if evs == [] {
    } else {
      StaysBalanced(s, evs[0]);
      RunBalanced(Next(s, evs[0]), evs[1..]);
    }
  }

  /** The two kinds of raising attempts. */
  predicate Raises(ev: Event)
  {
    ev.ClaimRaises? || ev.ClaimNothingThenRaise?
  }

  lemma {:induction false} RunCounts(s: Slots, evs: seq<Event>)
    ensures (forall ev | ev in evs :: !ev.ClaimNothingThenRaise?) ==> Run(s, evs).surplus == s.surplus
    ensures (forall ev | ev in evs :: !Raises(ev)) ==> Run(s, evs).raised == s.raised
    decreases |evs|
  {
    if evs == [] {
    } else {
      RunCounts(Next(s, evs[0]), evs[1..]);
      assert evs[0] in evs && forall ev | ev in evs[1..] :: ev in evs;
    }
  }

  /** As long as leaving the transaction on an early return never raises, free permits, live
      executions and the attempt in progress always add up to the limit. */
  lemma PermitsAreConserved(limit: nat, router: bool, evs: seq<Event>)
    requires forall ev | ev in evs :: !ev.ClaimNothingThenRaise?
    ensures var s := Run(Start(limit, router), evs);
      s.permits + |s.live| + Attempts(s) == limit && |s.live| <= limit
  {
    RunBalanced(Start(limit, router), evs);
    RunCounts(Start(limit, router), evs);
  }

  /** The counter never exceeds the live executions, and equals them when no attempt raised; a
      drain that sees zero is then truly idle. */
  lemma CounterTracksExecutions(limit: nat, evs: seq<Event>)
    ensures var s := Run(Start(limit, true), evs);
      && s.active <= |s.live| <= s.active + s.raised
      && ((forall ev | ev in evs :: !Raises(ev)) ==> s.active == |s.live| && (s.active == 0 ==> s.live == {}))
  {
    RunBalanced(Start(limit, true), evs);
    RunCounts(Start(limit, true), evs);
  }

  /** An early return of an attempt in progress whose transaction raises on exit. */
  predicate ReleasesTwice(s: Slots, ev: Event)
  {
    ev.ClaimNothingThenRaise? && s.claiming
  }

  predicate ReleasesTwiceOn(s: Slots, evs: seq<Event>)
    decreases |evs|
  {
    evs != [] && (ReleasesTwice(s, evs[0]) || ReleasesTwiceOn(Next(s, evs[0]), evs[1..]))
  }

  lemma {:induction false} SurplusCountsDoubleReleases(s: Slots, evs: seq<Event>)
    ensures Run(s, evs).surplus >= s.surplus
    ensures Run(s, evs).surplus == s.surplus <==> !ReleasesTwiceOn(s, evs)
    decreases |evs|
  {
    if evs == [] {
    } else {
      SurplusCountsDoubleReleases(Next(s, evs[0]), evs[1..]);
    }
  }

  /** The counter and the attempt in progress never exceed the limit, executor or not. */
  lemma {:induction false} CounterWithinLimit(s: Slots, evs: seq<Event>)
    requires s.active + Attempts(s) <= s.limit
    ensures var t := Run(s, evs); t.active + Attempts(t) <= t.limit == s.limit
    decreases |evs|
  {
    if evs == [] {
    } else {
      CounterWithinLimit(Next(s, evs[0]), evs[1..]);
    }
  }

  /** On every run the permits add up to the limit if and only if no early return of an attempt in
      progress ever raised on leaving the transaction. */
  lemma PermitsAddUpIff(limit: nat, router: bool, evs: seq<Event>)
    ensures var s := Run(Start(limit, router), evs);
      s.permits + |s.live| + Attempts(s) == limit <==> !ReleasesTwiceOn(Start(limit, router), evs)
  {
    RunBalanced(Start(limit, router), evs);
    SurplusCountsDoubleReleases(Start(limit, router), evs);
  }

  /** A raising attempt while something is counted. */
  predicate LosesCount(s: Slots, ev: Event)
  {
    Raises(ev) && s.claiming && s.active > 0
  }

  /** From an exact counter, one step leaves it exact if and only if it is no such attempt. */
  lemma StepKeepsCounterIff(s: Slots, ev: Event)
    requires s.router && s.active == |s.live|
    ensures Next(s, ev).active == |Next(s, ev).live| <==> !LosesCount(s, ev)
  {
  }

  predicate CounterStaysExact(s: Slots, evs: seq<Event>)
    decreases |evs|
  {
    s.active == |s.live| && (evs == [] || CounterStaysExact(Next(s, evs[0]), evs[1..]))
  }

  predicate LosesCountOn(s: Slots, evs: seq<Event>)
    decreases |evs|
  {
    evs != [] && (LosesCount(s, evs[0]) || LosesCountOn(Next(s, evs[0]), evs[1..]))
  }

  /** Over whole runs: the counter equals the live executions in every state if and only if no attempt
      raises while something is counted. */
  lemma {:induction false} CounterStaysExactIff(s: Slots, evs: seq<Event>)
    requires s.router && s.active == |s.live|
    ensures CounterStaysExact(s, evs) <==> !LosesCountOn(s, evs)
    decreases |evs|
  {
    hide Next, LosesCount;
    if evs == [] {
    } else {
      StepKeepsCounterIff(s, evs[0]);
      KeepsRouter(s, evs[0]);
      if !LosesCount(s, evs[0]) {
        CounterStaysExactIff(Next(s, evs[0]), evs[1..]);
      }
    }
  }

  lemma KeepsRouter(s: Slots, ev: Event)
    ensures Next(s, ev).router == s.router
  {
  }

  /** An attempt from its beginning to its end. */
  function Attempt(end: Event): seq<Event>
  {
    [BeginClaim, end]
  }

  lemma AttemptRuns(s: Slots, end: Event, rest: seq<Event>)
    ensures Run(s, Attempt(end) + rest) == Run(Next(Next(s, BeginClaim), end), rest)
  {
    hide Next;
    var evs := Attempt(end) + rest;
    assert evs[1..] == [end] + rest && ([end] + rest)[1..] == rest;
  }

  /** Why both assumptions matter: with a limit of two, a double release leaves a spare permit, a
      raising attempt lowers the counter under a live execution, and three executions then run
      at once. */
  lemma DoubleReleaseExceedsLimit()
    ensures var last := Attempt(ClaimSucceeds(1)) + (Attempt(ClaimSucceeds(2)) + []);
      var evs := Attempt(ClaimNothingThenRaise) + (Attempt(ClaimSucceeds(0)) + (Attempt(ClaimRaises) + last));
      |Run(Start(2, true), evs).live| == 3
  {
    hide Run, Attempt;
    var last := Attempt(ClaimSucceeds(1)) + (Attempt(ClaimSucceeds(2)) + []);
    var a := Slots(2, true, 3, 0, {}, false, 1, 1);
    var b := Slots(2, true, 2, 1, {0}, false, 1, 1);
    var c := Slots(2, true, 2, 0, {0}, false, 1, 2);
    var d := Slots(2, true, 1, 1, {0} + {1}, false, 1, 2);
    var e := Slots(2, true, 0, 2, {0} + {1} + {2}, false, 1, 2);
    AttemptRuns(Start(2, true), ClaimNothingThenRaise, Attempt(ClaimSucceeds(0)) + (Attempt(ClaimRaises) + last));
    AttemptRuns(a, ClaimSucceeds(0), Attempt(ClaimRaises) + last);
    AttemptRuns(b, ClaimRaises, last);
    AttemptRuns(c, ClaimSucceeds(1), Attempt(ClaimSucceeds(2)) + []);
    AttemptRuns(d, ClaimSucceeds(2), []);
    EmptyRun(e);
    assert Next(Next(a, BeginClaim), ClaimSucceeds(0)) == b by { assert a.live + {0} == b.live; }
    assert |{0}| == 1 && |{0} + {1}| == 2 && |{0} + {1} + {2}| == 3 by { ThreeExecutions(); }
  }

  lemma ThreeExecutions()
    ensures |{0}| == 1 && |{0} + {1}| == 2 && |{0} + {1} + {2}| == 3
  {
    assert {0} + {1} == {0, 1} && {0, 1} + {2} == {0, 1, 2};
  }

  /** Zero does not mean idle: one execution is live, an attempt to claim beside it raises, and the
      counter that a drain waits for reads zero. */
  lemma DrainReportsIdleTooEarly()
    ensures var s := Run(Start(2, true), Attempt(ClaimSucceeds(0)) + (Attempt(ClaimRaises) + []));
      s.active == 0 && s.live == {0}
  {
    hide Run, Attempt;
    var b := Slots(2, true, 1, 1, {0}, false, 0, 0);
    var c := Slots(2, true, 1, 0, {0}, false, 0, 1);
    AttemptRuns(Start(2, true), ClaimSucceeds(0), Attempt(ClaimRaises) + []);
    AttemptRuns(b, ClaimRaises, []);
    EmptyRun(c);
    assert Start(2, true).live + {0} == {0};
  }

  lemma EmptyRun(s: Slots)
    ensures Run(s, []) == s
  {
  }
}
