/** No starvation in the round-robin over agents. */
module RoundRobin {
  import opened Tables
  import opened Lifecycle
  import opened Invariants

  /** The agents that may still be served before `a`: their cursor is not above its own. */
  ghost function Ahead(runtime: map<AgentKey, Runtime>, a: AgentKey): set<AgentKey>
  {
    set b | b in runtime && b != a && a in runtime && runtime[b].cursor <= runtime[a].cursor
  }

  /** A claim made by a worker of the pool that `a` waits in. */
  ghost predicate PoolClaim(db: Db, step: Step, pool: PoolId, tenant: nat)
  {
    step.ClaimTask? && step.pool == pool && step.tenant == tenant && MoveOf(db, step).Some?
  }

  /** Rows present already keep their cursor unless their agent is the one claimed for, which
      moves to the clock; rows added on the way start at the epoch. */
  predicate CursorsAfter(before: map<AgentKey, Runtime>, after: map<AgentKey, Runtime>,
                         served: Option<AgentKey>, now: Time)
  {
    && before.Keys <= after.Keys
    && (forall b | b in before && served != Some(b) :: after[b].cursor == before[b].cursor)
    && (forall b | b in after && b !in before && served != Some(b) :: after[b].cursor == EPOCH)
    && (served.Some? ==> served.value in after && after[served.value].cursor == now)
  }

  function Served(step: Step, moved: bool): Option<AgentKey>
  {
    if step.ClaimTask? && moved then Some(step.agent) else None
  }

  lemma FinishCursors(db: Db, step: Step)
    ensures !step.ClaimTask? ==> Finished(db, step) == db
    ensures step.ClaimTask? && step.id in db.tasks && step.agent in db.runtime ==>
              CursorsAfter(db.runtime, Finished(db, step).runtime, Some(step.agent), db.now)
              && Finished(db, step).runtime.Keys == db.runtime.Keys
  {
  }

  lemma MoveCursors(db: Db, step: Step)
    requires MoveOf(db, step).Some?
    ensures CursorsAfter(db.runtime, Apply(db, step).runtime, Served(step, true), db.now)
  {
    hide MoveOf, Prepared, EnsureRuntime, Finished, Quiet, Released;
    PreparedFrame(db, step);
    ClaimMove(db, step);
    EnsuredIsPrepared(db, step);
    FinishCursors(Enact(Prepared(db, step), MoveOf(db, step).value), step);
  }

  lemma OthersCursors(db: Db, step: Step)
    ensures CursorsAfter(db.runtime, PollerQuiet(db, step).runtime, None, db.now)
    ensures CursorsAfter(db.runtime, ApiQuiet(db, step).runtime, None, db.now)
  {
    hide Eligible, QueuedAgents;
  }

  lemma ExecutorCursors(db: Db, step: Step)
    ensures CursorsAfter(db.runtime, ExecutorQuiet(db, step).runtime, None, db.now)
  {
    hide ExecutorQuiet;
    QuietExecutor(db, step);
  }

  lemma ReaperCursors(db: Db, step: Step)
    ensures CursorsAfter(db.runtime, ReaperQuiet(db, step).runtime, None, db.now)
  {
    hide ReaperQuiet;
    QuietReaper(db, step);
  }

  lemma QuietCursors(db: Db, step: Step)
    requires MoveOf(db, step).None?
    ensures CursorsAfter(db.runtime, Apply(db, step).runtime, None, db.now)
  {
    hide MoveOf, PollerQuiet, ExecutorQuiet, ReaperQuiet, ApiQuiet, CursorsAfter;
    OthersCursors(db, step);
    ExecutorCursors(db, step);
    ReaperCursors(db, step);
  }

  lemma StepCursors(db: Db, step: Step)
    ensures CursorsAfter(db.runtime, Apply(db, step).runtime, Served(step, MoveOf(db, step).Some?), db.now)
    ensures Apply(db, step).now >= db.now
  {
    hide Apply, MoveOf;
    if MoveOf(db, step).Some? {
      MoveCursors(db, step);
      MoveEffects(db, step);
    } else {
      QuietCursors(db, step);
      QuietEffects(db, step);
    }
  }

  /** A claim serves an agent whose cursor is not above that of any eligible agent. */
  lemma ServedIsOldest(db: Db, step: Step, pool: PoolId, tenant: nat, a: AgentKey)
    requires PoolClaim(db, step, pool, tenant)
    requires Eligible(EnsureRuntime(db, pool, tenant), pool, tenant, a)
    ensures var ready := EnsureRuntime(db, pool, tenant).runtime;
      step.agent in ready && a in ready && ready[step.agent].cursor <= ready[a].cursor
  {
    hide Apply, Candidate;
  }

  lemma EnsureKeeps(db: Db, pool: PoolId, tenant: nat)
    ensures db.runtime.Keys <= EnsureRuntime(db, pool, tenant).runtime.Keys
    ensures forall b | b in db.runtime :: EnsureRuntime(db, pool, tenant).runtime[b] == db.runtime[b]
  {
  }

  lemma AddedRows(before: set<AgentKey>, after: set<AgentKey>)
    requires before <= after
    ensures |after - before| == |after| - |before|
  {
    assert after == before + (after - before);
  }

  /** One step can put newcomers ahead of `a`, one per inserted row, and nobody else. */
  lemma AheadGrowsByNewRows(
    before: map<AgentKey, Runtime>, after: map<AgentKey, Runtime>, served: Option<AgentKey>, now: Time, a: AgentKey)
    requires CursorsAfter(before, after, served, now) && served != Some(a)
    requires a in before && before[a].cursor < now
    ensures |Ahead(after, a)| <= |Ahead(before, a)| + |after| - |before|
    ensures served.Some? && served.value in Ahead(before, a) ==>
              |Ahead(after, a)| + 1 <= |Ahead(before, a)| + |after| - |before|
    ensures served.Some? && served.value !in before ==>
              |Ahead(after, a)| + 1 <= |Ahead(before, a)| + |after| - |before|
  {
    var added := after.Keys - before.Keys;
    AddedRows(before.Keys, after.Keys);
    var gone := if served.Some? then {served.value} else {};
    assert Ahead(after, a) <= (Ahead(before, a) + added) - gone;
    SubsetSize(Ahead(after, a), (Ahead(before, a) + added) - gone);
    assert Ahead(before, a) !! added;
    assert |Ahead(before, a) + added| == |Ahead(before, a)| + |added|;
    if served.Some? && served.value in Ahead(before, a) + added {
      assert |(Ahead(before, a) + added) - gone| == |Ahead(before, a) + added| - 1;
    } else {
      assert (Ahead(before, a) + added) - gone == Ahead(before, a) + added;
    }
  }

  /** `a` is passed over at every step of the run, and eligible at every claim of its pool. */
  ghost predicate Waits(db: Db, steps: seq<Step>, pool: PoolId, tenant: nat, a: AgentKey)
    decreases |steps|
  {
    steps != [] ==>
      && (PoolClaim(db, steps[0], pool, tenant) ==> Eligible(EnsureRuntime(db, pool, tenant), pool, tenant, a))
      && (steps[0].ClaimTask? && MoveOf(db, steps[0]).Some? ==> steps[0].agent != a)
      && Waits(Apply(db, steps[0]), steps[1..], pool, tenant, a)
  }

  ghost function PoolClaims(db: Db, steps: seq<Step>, pool: PoolId, tenant: nat): nat
    decreases |steps|
  {
    if steps == [] then 0
    else (if PoolClaim(db, steps[0], pool, tenant) then 1 else 0)
         + PoolClaims(Apply(db, steps[0]), steps[1..], pool, tenant)
  }

  lemma WaitingStep(db: Db, step: Step, pool: PoolId, tenant: nat, a: AgentKey)
    requires a in db.runtime && db.runtime[a].cursor < db.now
    requires PoolClaim(db, step, pool, tenant) ==> Eligible(EnsureRuntime(db, pool, tenant), pool, tenant, a)
    requires step.ClaimTask? && MoveOf(db, step).Some? ==> step.agent != a
    ensures var after := Apply(db, step);
      && a in after.runtime && after.runtime[a].cursor == db.runtime[a].cursor < after.now
      && |Ahead(after.runtime, a)| + (if PoolClaim(db, step, pool, tenant) then 1 else 0)
           <= |Ahead(db.runtime, a)| + |after.runtime| - |db.runtime|
  {
    hide Apply, MoveOf, EnsureRuntime, Eligible;
    StepCursors(db, step);
    AheadGrowsByNewRows(db.runtime, Apply(db, step).runtime, Served(step, MoveOf(db, step).Some?), db.now, a);
    if PoolClaim(db, step, pool, tenant) {
      ServedIsOldest(db, step, pool, tenant, a);
      EnsureKeeps(db, pool, tenant);
      if step.agent in db.runtime {
        assert step.agent in Ahead(db.runtime, a);
      }
    }
  }

  /** While `a` is passed over, each claim of its pool uses up one agent ahead of it or one row
      inserted meanwhile: the pool can make no more than that many claims before `a` is served. */
  lemma {:induction false} WaitIsBounded(db: Db, steps: seq<Step>, pool: PoolId, tenant: nat, a: AgentKey)
    requires a in db.runtime && db.runtime[a].cursor < db.now
    requires Waits(db, steps, pool, tenant, a)
    ensures var end := Run(db, steps);
      && a in end.runtime && end.runtime[a].cursor == db.runtime[a].cursor < end.now
      && PoolClaims(db, steps, pool, tenant) + |Ahead(end.runtime, a)|
           <= |Ahead(db.runtime, a)| + |end.runtime| - |db.runtime|
    decreases |steps|
  {
    hide Apply, MoveOf, EnsureRuntime, Eligible, PoolClaim, Ahead;
    if steps == [] {
    } else {
      WaitingStep(db, steps[0], pool, tenant, a);
      WaitIsBounded(Apply(db, steps[0]), steps[1..], pool, tenant, a);
    }
  }

  /** `a` is eligible at every claim of its pool in the run. */
  ghost predicate StaysEligible(db: Db, steps: seq<Step>, pool: PoolId, tenant: nat, a: AgentKey)
    decreases |steps|
  {
    steps != [] ==>
      && (PoolClaim(db, steps[0], pool, tenant) ==> Eligible(EnsureRuntime(db, pool, tenant), pool, tenant, a))
      && StaysEligible(Apply(db, steps[0]), steps[1..], pool, tenant, a)
  }

  /** Step `k` of the run is a claim granted to `a`. */
  ghost predicate ServedAt(db: Db, steps: seq<Step>, k: nat, a: AgentKey)
  {
    k < |steps| && steps[k].ClaimTask? && steps[k].agent == a && MoveOf(Run(db, steps[..k]), steps[k]).Some?
  }

  lemma {:induction false} WaitsOrServed(db: Db, steps: seq<Step>, pool: PoolId, tenant: nat, a: AgentKey)
    returns (k: nat)
    requires StaysEligible(db, steps, pool, tenant, a)
    ensures Waits(db, steps, pool, tenant, a) || ServedAt(db, steps, k, a)
    decreases |steps|
  {
    hide Apply, MoveOf, Eligible, EnsureRuntime;
    if steps == [] {
      k := 0;
    } else if steps[0].ClaimTask? && steps[0].agent == a && MoveOf(db, steps[0]).Some? {
      k := 0;
      EmptyRun(db);
      assert steps[..0] == [];
    } else {
      var later := WaitsOrServed(Apply(db, steps[0]), steps[1..], pool, tenant, a);
      k := later + 1;
      if !Waits(Apply(db, steps[0]), steps[1..], pool, tenant, a) {
        RunCons(db, steps[0], steps[1..][..later]);
        assert steps[..k] == [steps[0]] + steps[1..][..later];
      }
    }
  }

  /** An agent that stays eligible is served: in every run with as many claims of its pool as there are
      runtime rows at its end, some claim is granted to it. */
  lemma EligibleAgentIsServed(db: Db, steps: seq<Step>, pool: PoolId, tenant: nat, a: AgentKey)
    requires a in db.runtime && db.runtime[a].cursor < db.now
    requires StaysEligible(db, steps, pool, tenant, a)
    requires PoolClaims(db, steps, pool, tenant) >= |Run(db, steps).runtime|
    ensures exists k :: ServedAt(db, steps, k, a)
  {
    hide Apply, MoveOf, Waits, PoolClaims, Run, ServedAt, StaysEligible;
    var k := WaitsOrServed(db, steps, pool, tenant, a);
    if Waits(db, steps, pool, tenant, a) {
      WaitIsBounded(db, steps, pool, tenant, a);
      SubsetSize(Ahead(db.runtime, a) + {a}, db.runtime.Keys);
    }
  }

  /** No other agent is served twice before `a`: once served it has left the agents ahead, and
      while `a` waits it cannot come back. */
  lemma {:induction false} NobodyServedTwice(
    db: Db, first: Step, steps: seq<Step>, again: Step, pool: PoolId, tenant: nat, a: AgentKey)
    requires a in db.runtime && db.runtime[a].cursor < db.now
    requires PoolClaim(db, first, pool, tenant)
    requires Waits(db, [first] + steps + [again], pool, tenant, a)
    requires PoolClaim(Run(db, [first] + steps), again, pool, tenant)
    ensures again.agent != first.agent
  {
    hide Apply, MoveOf, EnsureRuntime, Eligible;
    var b := first.agent;
    assert ([first] + steps + [again])[1..] == steps + [again];
    assert ([first] + steps)[1..] == steps;
    WaitingStep(db, first, pool, tenant, a);
    var mid := Apply(db, first);
    ServedMovesToClock(db, first, pool, tenant);
    StaysBehind(mid, steps, again, pool, tenant, a, b);
  }

  lemma ServedMovesToClock(db: Db, step: Step, pool: PoolId, tenant: nat)
    requires PoolClaim(db, step, pool, tenant)
    ensures step.agent in Apply(db, step).runtime && Apply(db, step).runtime[step.agent].cursor == db.now
  {
    hide Apply, MoveOf;
    StepCursors(db, step);
  }

  lemma {:induction false} StaysBehind(
    db: Db, steps: seq<Step>, again: Step, pool: PoolId, tenant: nat, a: AgentKey, b: AgentKey)
    requires a in db.runtime && b in db.runtime && db.runtime[a].cursor < db.now
    requires db.runtime[a].cursor < db.runtime[b].cursor
    requires Waits(db, steps + [again], pool, tenant, a)
    requires PoolClaim(Run(db, steps), again, pool, tenant)
    ensures again.agent != b
    decreases |steps|
  {
    hide Apply, MoveOf, EnsureRuntime, Eligible, PoolClaim;
    if steps == [] {
      assert (steps + [again])[0] == again;
      ServedIsOldest(db, again, pool, tenant, a);
      EnsureKeeps(db, pool, tenant);
    } else {
      assert (steps + [again])[0] == steps[0];
      assert (steps + [again])[1..] == steps[1..] + [again];
      WaitingStep(db, steps[0], pool, tenant, a);
      StepCursors(db, steps[0]);
      StaysBehind(Apply(db, steps[0]), steps[1..], again, pool, tenant, a, b);
    }
  }
}
