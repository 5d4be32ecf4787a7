/** A worker's heartbeat manager: one beating loop per running task, registered by task id, and
    the cancellation signal when a beat finds the lease gone. */
module Heartbeats {
  import opened Tables
  import L = Lifecycle
  import D = Database

  type HandleId = nat

  /** `loops` are the loops still beating; `lost` are the handles whose own beat found no row,
      `signalled` those whose cancellation event was set. */
  datatype Beats = Beats(
    active: map<TaskId, HandleId>, loops: map<HandleId, TaskId>, lost: set<HandleId>, signalled: set<HandleId>)

  datatype Event =
    | Start(task: TaskId, handle: HandleId)
    | Stop(task: TaskId)
    | Landed(handle: HandleId)
    | FoundNoRow(handle: HandleId)

  const NO_BEATS := Beats(map[], map[], {}, {})

  predicate Unused(b: Beats, h: HandleId)
  {
    h !in b.loops && h !in b.lost && h !in b.signalled
  }

  /** Registration, lookup and removal all go by task id, whichever handle is registered. */
  function Next(b: Beats, ev: Event): Beats
  {
    match ev
    case Start(t, h) => if Unused(b, h) then b.(active := b.active[t := h], loops := b.loops[h := t]) else b
    case Stop(t) =>
      if t in b.active then b.(active := b.active - {t}, loops := b.loops - {b.active[t]}) else b
    case Landed(h) => b
    case FoundNoRow(h) =>
      if h !in b.loops then b
      else
        var t := b.loops[h];
        Beats(b.active - {t}, b.loops - {h}, b.lost + {h},
              if t in b.active then b.signalled + {b.active[t]} else b.signalled)
  }

  function Run(b: Beats, evs: seq<Event>): Beats
    decreases |evs|
  {
    if evs == [] then b else Run(Next(b, evs[0]), evs[1..])
  }

  /** Exactly the registered handles are beating, each for the task it is registered under. */
  predicate Matched(b: Beats)
  {
    && (forall t | t in b.active :: b.active[t] in b.loops && b.loops[b.active[t]] == t)
    && (forall h | h in b.loops :: b.loops[h] in b.active && b.active[b.loops[h]] == h)
    && (forall h | h in b.loops :: h !in b.lost && h !in b.signalled)
  }

  class HeartbeatManager {
    var active: map<TaskId, HandleId>
    var loops: map<HandleId, TaskId>
    var signalled: set<HandleId>
    ghost var lost: set<HandleId>

    ghost function View(): Beats
      reads this
    {
      Beats(active, loops, lost, signalled)
    }

    constructor ()
      ensures View() == NO_BEATS
    {
      active, loops, signalled, lost := map[], map[], {}, {};
    }

    method StartHeartbeat(task: TaskId, handle: HandleId)
      requires Unused(View(), handle)
      modifies this
      ensures View() == Next(old(View()), Start(task, handle))
    {
      active := active[task := handle];
      loops := loops[handle := task];
    }

    method StopHeartbeat(task: TaskId)
      modifies this
      ensures View() == Next(old(View()), Stop(task))
    {
      if task in active {
        loops := loops - {active[task]};
        active := active - {task};
      }
    }

    /** Stops every registered handle; when each loop is registered, none is left beating. */
    method StopAll()
      modifies this
      ensures active == map[] && signalled == old(signalled)
      ensures Matched(old(View())) ==> loops == map[]
    {
      while active != map[]
        invariant signalled == old(signalled)
        invariant Matched(old(View())) ==> Matched(View())
        decreases |active|
      {
        var t :| t in active;
        ghost var before := View();
        StopHeartbeat(t);
        if Matched(before) {
          StepKeepsMatched(before, Stop(t));
        }
        assert active.Keys < before.active.Keys;
        assert |active| < |before.active| by { SubsetSize(active.Keys, before.active.Keys); }
      }
    }

    /** One beat of a loop, sent to the shared database; no row means the lease is not held. */
    method Beat(db: D.TaskDatabase, worker: WorkerId, handle: HandleId, lease: nat) returns (alive: bool)
      requires handle in loops && db.Valid()
      modifies this, db
      ensures db.Valid() && db.View() == L.Apply(old(db.View()), L.Heartbeat(worker, old(loops)[handle], lease))
      ensures alive <==> L.HoldsLease(old(db.View()), worker, old(loops)[handle])
      ensures View() == Next(old(View()), if alive then Landed(handle) else FoundNoRow(handle))
    {
      hide L.Apply, D.TaskDatabase.Valid;
      var task := loops[handle];
      var rows := db.SendHeartbeat(worker, task, lease);
      alive := rows > 0;
      if !alive {
        if task in active {
          signalled := signalled + {active[task]};
        }
        active := active - {task};
        loops := loops - {handle};
        lost := lost + {handle};
      }
    }
  }

  /** Starting a second heartbeat for a task that still has one. */
  predicate Overlaps(b: Beats, ev: Event)
  {
    ev.Start? && Unused(b, ev.handle) && ev.task in b.active
  }

  lemma StepKeepsMatched(b: Beats, ev: Event)
    requires Matched(b) && !Overlaps(b, ev)
    ensures Matched(Next(b, ev))
    ensures b.signalled == b.lost ==> Next(b, ev).signalled == Next(b, ev).lost
  {
  }

  /** One step breaks the registry exactly when it starts a heartbeat beside a live one. */
  lemma RegistryBreaksIff(b: Beats, ev: Event)
    requires Matched(b)
    ensures Matched(Next(b, ev)) <==> !Overlaps(b, ev)
  {
    if Overlaps(b, ev) {
      assert b.active[ev.task] in Next(b, ev).loops;
    } else {
      StepKeepsMatched(b, ev);
    }
  }

  /** Without overlap a handle and its task name each other: a start adds one loop, a stop ends the
      loop of its task, and a beat that finds no row ends and signals its own loop; nothing else ends
      a loop or signals one. */
  lemma EventsMeetTheirLoop(b: Beats, ev: Event)
    requires Matched(b) && !Overlaps(b, ev)
    ensures var c := Next(b, ev);
      match ev
      case Start(t, h) =>
        var unseen := h !in b.loops && h !in b.lost && h !in b.signalled;
        c.loops == (if unseen then b.loops[h := t] else b.loops) && c.signalled == b.signalled
      case Stop(t) => c.loops == (map h | h in b.loops && b.loops[h] != t :: b.loops[h]) && c.signalled == b.signalled
      case Landed(h) => c == b
      case FoundNoRow(h) => c.loops == b.loops - {h} && c.signalled == b.signalled + (if h in b.loops then {h} else {})
  {
  }

  /** The loops whose own beat found no row. */
  function TakenAway(b: Beats, evs: seq<Event>): set<HandleId>
    decreases |evs|
  {
    if evs == [] then {}
    else
      (if evs[0].FoundNoRow? && evs[0].handle in b.loops then {evs[0].handle} else {})
      + TakenAway(Next(b, evs[0]), evs[1..])
  }

  predicate NoOverlap(b: Beats, evs: seq<Event>)
    decreases |evs|
  {
    evs == [] || (!Overlaps(b, evs[0]) && NoOverlap(Next(b, evs[0]), evs[1..]))
  }

  /** As long as no task is started again while its earlier heartbeat runs, the handles told to
      cancel are exactly those whose own beat found the lease gone. */
  lemma {:induction false} SignalsReachTheirOwner(b: Beats, evs: seq<Event>)
    requires Matched(b) && b.signalled == b.lost && NoOverlap(b, evs)
    ensures var end := Run(b, evs);
      Matched(end) && end.signalled == end.lost && end.signalled == b.signalled + TakenAway(b, evs)
    decreases |evs|
  {
    hide Next, Matched, Overlaps;
    if evs == [] {
    } else {
      StepKeepsMatched(b, evs[0]);
      EventsMeetTheirLoop(b, evs[0]);
      SignalsReachTheirOwner(Next(b, evs[0]), evs[1..]);
    }
  }

  /** A worker that claims a task again beside its own earlier execution registers over it; when
      the earlier execution ends it stops the newer loop, and the loop left over beats on and
      later finds the lease gone without anybody being told. */
  lemma OverlapLosesTheSignal(t: TaskId)
    ensures var evs := [Start(t, 0), Start(t, 1), Stop(t), FoundNoRow(0)];
      var end := Run(NO_BEATS, evs); 0 in end.lost && end.signalled == {}
  {
    var evs := [Start(t, 0), Start(t, 1), Stop(t), FoundNoRow(0)];
    assert evs[1..] == [Start(t, 1), Stop(t), FoundNoRow(0)];
    assert evs[1..][1..] == [Stop(t), FoundNoRow(0)];
    assert evs[1..][1..][1..] == [FoundNoRow(0)];
    var b2 := Next(Next(NO_BEATS, evs[0]), evs[1]);
    assert b2 == Beats(map[t := 1], map[0 := t, 1 := t], {}, {});
    var b3 := Next(b2, Stop(t));
    assert 0 in b3.loops && b3.loops[0] == t && t !in b3.active;
    assert Run(NO_BEATS, evs) == Run(b2, [Stop(t), FoundNoRow(0)]);
    assert Run(b2, [Stop(t), FoundNoRow(0)]) == Run(b3, [FoundNoRow(0)]);
    assert [FoundNoRow(0)][1..] == [];
  }
}
