/** Routing out of the agent node: within one super-step, dispatch calls go to sub-agents and all
    other calls to the tool node, and every call is answered. */
module ToolRouting {
  import opened Reweave

  const DISPATCH: ToolName := "dispatch_subagent"

  datatype Call = Call(id: CallId, name: ToolName, prompt: nat)

  datatype Turn =
    | Agent(calls: seq<Call>)
    | Other

  datatype State = State(messages: seq<Turn>, optIn: bool, depth: nat)

  /** Per-graph settings fixed when the graph is built. */
  datatype Config = Config(dispatchEnabled: bool, stackEnabled: bool, autoWrite: bool)

  /** The whole input of a sub-agent node. */
  datatype Payload = Payload(call: CallId, prompt: nat, depth: nat)

  datatype Decision =
    | Sends(payloads: seq<Payload>, tools: bool)
    | Tools
    | MemoryWrite
    | End

  function LastCalls(s: State): seq<Call>
  {
    if s.messages == [] then []
    else
      var last := s.messages[|s.messages| - 1];
      if last.Agent? then last.calls else []
  }

  function Dispatches(calls: seq<Call>): seq<Call>
  {
    if calls == [] then []
    else
      var c := calls[|calls| - 1];
      Dispatches(calls[..|calls| - 1]) + if c.name == DISPATCH then [c] else []
  }

  function Kept(calls: seq<Call>): seq<Call>
  {
    if calls == [] then []
    else
      var c := calls[|calls| - 1];
      Kept(calls[..|calls| - 1]) + if c.name == DISPATCH then [] else [c]
  }

  method PartitionToolCalls(calls: seq<Call>) returns (dispatches: seq<Call>, hasOther: bool)
    ensures dispatches == Dispatches(calls)
    ensures forall c :: c in dispatches <==> c in calls && c.name == "dispatch_subagent"
    ensures hasOther <==> exists c | c in calls :: c.name != "dispatch_subagent"
  {
    dispatches, hasOther := [], false;
    var i := 0;
    while i < |calls|
      invariant 0 <= i <= |calls|
      invariant dispatches == Dispatches(calls[..i]) && (hasOther <==> Kept(calls[..i]) != [])
    {
      assert calls[..i + 1][..i] == calls[..i];
      if calls[i].name == DISPATCH {
        dispatches := dispatches + [calls[i]];
      } else {
        hasOther := true;
      }
      i := i + 1;
    }
    assert calls[..i] == calls;
    PartsByName(calls);
  }

  lemma {:induction false} PartsByName(calls: seq<Call>)
    ensures forall c :: c in Dispatches(calls) <==> c in calls && c.name == "dispatch_subagent"
    ensures forall c :: c in Kept(calls) <==> c in calls && c.name != "dispatch_subagent"
    ensures Kept(calls) != [] <==> exists c | c in calls :: c.name != "dispatch_subagent"
  {
    if calls == [] {
    } else {
      var n := |calls| - 1;
      PartsByName(calls[..n]);
      assert calls == calls[..n] + [calls[n]];
    }
  }

  function PayloadsOf(calls: seq<Call>, depth: nat): (ps: seq<Payload>)
    ensures |ps| == |calls|
    ensures forall i :: 0 <= i < |calls| ==> ps[i] == Payload(calls[i].id, calls[i].prompt, depth + 1)
  {
    if calls == [] then []
    else
      var c := calls[|calls| - 1];
      PayloadsOf(calls[..|calls| - 1], depth) + [Payload(c.id, c.prompt, depth + 1)]
  }

  function RouteAfterAgent(cfg: Config, s: State): Decision
  {
    var calls := LastCalls(s);
    if calls != [] then
      if cfg.dispatchEnabled && Dispatches(calls) != []
      then Sends(PayloadsOf(Dispatches(calls), s.depth), Kept(calls) != [])
      else Tools
    else if cfg.stackEnabled && (cfg.autoWrite || s.optIn) then MemoryWrite
    else End
  }

  /** The state the tool node sees: the last turn without its dispatch calls. */
  function StripDispatchToolCalls(s: State): State
  {
    if s.messages == [] then s
    else
      var n := |s.messages| - 1;
      var kept := Kept(LastCalls(s));
      if |kept| == |LastCalls(s)| then s
      else s.(messages := s.messages[..n] + [Agent(kept)])
  }

  /** A sub-agent node answers with its call id, and skips a payload without one. */
  function SubagentAnswers(ps: seq<Payload>): multiset<CallId>
  {
    if ps == [] then multiset{}
    else
      var p := ps[|ps| - 1];
      SubagentAnswers(ps[..|ps| - 1]) + if p.call == NO_ID then multiset{} else multiset{p.call}
  }

  function CallIds(calls: seq<Call>): multiset<CallId>
  {
    if calls == [] then multiset{}
    else CallIds(calls[..|calls| - 1]) + multiset{calls[|calls| - 1].id}
  }

  function AnswerIds(ms: seq<Message>): multiset<CallId>
  {
    if ms == [] then multiset{}
    else
      var m := ms[|ms| - 1];
      AnswerIds(ms[..|ms| - 1]) + if m.Answer? then multiset{m.call} else multiset{}
  }

  /** One answer for each call the tool node is shown, in order. */
  predicate Answered(calls: seq<Call>, ms: seq<Message>)
  {
    |ms| == |calls| && forall i :: 0 <= i < |calls| ==> ms[i].Answer? && ms[i].call == calls[i].id
  }

  /** What the tool node is shown. */
  function ShownCalls(cfg: Config, s: State): seq<Call>
  {
    LastCalls(if cfg.dispatchEnabled then StripDispatchToolCalls(s) else s)
  }

  function RunsTools(d: Decision): bool
  {
    d.Tools? || (d.Sends? && d.tools)
  }

  /** All answers of the super-step that the routing chooses; `toolOutput` is the tool node's
      output after its rewriting. */
  function SuperStepAnswers(cfg: Config, s: State, toolOutput: seq<Message>): multiset<CallId>
  {
    var d := RouteAfterAgent(cfg, s);
    (if d.Sends? then SubagentAnswers(d.payloads) else multiset{})
    + (if RunsTools(d) then AnswerIds(toolOutput) else multiset{})
  }

  /** Dispatch calls without an id, which the sub-agent node skips. */
  function SkippedDispatches(cfg: Config, calls: seq<Call>): nat
  {
    if cfg.dispatchEnabled then CallIds(Dispatches(calls))[NO_ID] else 0
  }

  // ---- Theorems --------------------------------------------------------------------------------

  lemma LastCall(calls: seq<Call>)
    requires calls != []
    ensures var n := |calls| - 1; var c := calls[n]; var d, k := Dispatches(calls[..n]), Kept(calls[..n]);
      if c.name == DISPATCH then Dispatches(calls) == d + [c] && Kept(calls) == k
      else Dispatches(calls) == d && Kept(calls) == k + [c]
  {
  }

  lemma LastId(calls: seq<Call>)
    requires calls != []
    ensures var n := |calls| - 1; CallIds(calls) == CallIds(calls[..n]) + multiset{calls[n].id}
  {
  }

  lemma NoCalls()
    ensures Dispatches([]) == [] && Kept([]) == [] && CallIds([]) == multiset{}
  {
  }

  lemma {:induction false} PartitionIsComplete(calls: seq<Call>)
    ensures CallIds(calls) == CallIds(Dispatches(calls)) + CallIds(Kept(calls))
  {
    hide Dispatches, Kept, CallIds;
    if calls == [] {
      NoCalls();
    } else {
      var n := |calls| - 1;
      var c, d, k := calls[n], Dispatches(calls[..n]), Kept(calls[..n]);
      PartitionIsComplete(calls[..n]);
      LastId(calls);
      LastCall(calls);
      AppendedCall(d, c);
      AppendedCall(k, c);
      assert CallIds(d) + CallIds(k) + multiset{c.id} == CallIds(d) + multiset{c.id} + CallIds(k);
    }
  }

  lemma {:induction false} PartitionSizes(calls: seq<Call>)
    ensures |Dispatches(calls)| + |Kept(calls)| == |calls|
    ensures Dispatches(calls) == [] ==> Kept(calls) == calls
  {
    hide Dispatches, Kept;
    NoCalls();
    if calls == [] {
    } else {
      var n := |calls| - 1;
      PartitionSizes(calls[..n]);
      LastCall(calls);
      assert calls[..n] + [calls[n]] == calls;
    }
  }

  lemma AppendedCall(calls: seq<Call>, c: Call)
    ensures CallIds(calls + [c]) == CallIds(calls) + multiset{c.id}
  {
    assert (calls + [c])[..|calls|] == calls;
  }

  lemma {:induction false} SubagentsAnswerDispatches(calls: seq<Call>, depth: nat)
    ensures SubagentAnswers(PayloadsOf(calls, depth)) == CallIds(calls)[NO_ID := 0]
  {
    if calls == [] {
    } else {
      var n := |calls| - 1;
      SubagentsAnswerDispatches(calls[..n], depth);
      var ps := PayloadsOf(calls, depth);
      assert ps[..n] == PayloadsOf(calls[..n], depth);
    }
  }

  lemma {:induction false} AnswersOfCalls(calls: seq<Call>, ms: seq<Message>)
    requires Answered(calls, ms)
    ensures AnswerIds(ms) == CallIds(calls)
  {
    if calls == [] {
    } else {
      AnswersOfCalls(calls[..|calls| - 1], ms[..|ms| - 1]);
    }
  }

  lemma StrippingShowsKept(cfg: Config, s: State)
    requires cfg.dispatchEnabled
    ensures ShownCalls(cfg, s) == Kept(LastCalls(s))
  {
    PartitionSizes(LastCalls(s));
    if |Kept(LastCalls(s))| == |LastCalls(s)| {
      assert Dispatches(LastCalls(s)) == [];
    }
  }

  lemma ShownWithoutDispatch(cfg: Config, s: State)
    ensures !cfg.dispatchEnabled ==> ShownCalls(cfg, s) == LastCalls(s)
    ensures LastCalls(s) == [] ==> ShownCalls(cfg, s) == [] && CallIds(LastCalls(s)) == multiset{}
    ensures CallIds([]) == multiset{}
  {
  }

  /** The super-step answers every call of the turn as often as it was made, except dispatch calls
      without an id; rewriting the tool node's output changes no answer. */
  lemma SuperStepAnswersCalls(cfg: Config, s: State, raw: seq<Message>, toolOutput: seq<Message>)
    requires Answered(ShownCalls(cfg, s), raw) && SameCalls(raw, toolOutput)
    ensures SuperStepAnswers(cfg, s, toolOutput)
         == CallIds(LastCalls(s)) - multiset{}[NO_ID := SkippedDispatches(cfg, LastCalls(s))]
  {
    hide Dispatches, Kept, CallIds, AnswerIds, SubagentAnswers, ShownCalls;
    var calls := LastCalls(s);
    PartitionIsComplete(calls);
    PartitionSizes(calls);
    ShownWithoutDispatch(cfg, s);
    AnswersOfCalls(ShownCalls(cfg, s), toolOutput);
    if cfg.dispatchEnabled {
      StrippingShowsKept(cfg, s);
      SubagentsAnswerDispatches(Dispatches(calls), s.depth);
    }
  }

  /** Every call of the turn is answered exactly once per call made if and only if no dispatch
      call lacks an id. */
  lemma EveryCallAnsweredIff(cfg: Config, s: State, raw: seq<Message>, toolOutput: seq<Message>)
    requires Answered(ShownCalls(cfg, s), raw) && SameCalls(raw, toolOutput)
    ensures SuperStepAnswers(cfg, s, toolOutput) == CallIds(LastCalls(s))
       <==> !(cfg.dispatchEnabled && exists c | c in LastCalls(s) :: Bare(c))
  {
    SuperStepAnswersCalls(cfg, s, raw, toolOutput);
    var calls := LastCalls(s);
    PartitionIsComplete(calls);
    MissingIds(calls);
    assert CallIds(calls)[NO_ID] >= SkippedDispatches(cfg, calls);
  }

  /** A dispatch call without an id. */
  predicate Bare(c: Call)
  {
    c.name == DISPATCH && c.id == NO_ID
  }

  lemma BareInLast(calls: seq<Call>)
    requires calls != []
    ensures var n := |calls| - 1;
      (exists c | c in calls :: Bare(c)) <==> Bare(calls[n]) || exists c | c in calls[..n] :: Bare(c)
  {
    hide Bare;
    var n := |calls| - 1;
    assert calls == calls[..n] + [calls[n]];
  }

  lemma {:induction false} MissingIds(calls: seq<Call>)
    ensures CallIds(Dispatches(calls))[NO_ID] > 0 <==> exists c | c in calls :: Bare(c)
  {
    hide Dispatches, Kept, CallIds;
    if calls == [] {
      NoCalls();
    } else {
      var n := |calls| - 1;
      MissingIds(calls[..n]);
      BareInLast(calls);
      LastCall(calls);
      AppendedCall(Dispatches(calls[..n]), calls[n]);
    }
  }

  /** With distinct ids, all present, each id has exactly one answer, and never one from both
      nodes. */
  lemma DistinctCallsAnsweredOnce(cfg: Config, s: State, raw: seq<Message>, toolOutput: seq<Message>, id: CallId)
    requires Answered(ShownCalls(cfg, s), raw) && SameCalls(raw, toolOutput)
    requires forall i, j :: 0 <= i < j < |LastCalls(s)| ==> LastCalls(s)[i].id != LastCalls(s)[j].id
    requires forall c | c in LastCalls(s) :: c.id != NO_ID
    ensures SuperStepAnswers(cfg, s, toolOutput)[id] == if exists c | c in LastCalls(s) :: c.id == id then 1 else 0
  {
    EveryCallAnsweredIff(cfg, s, raw, toolOutput);
    DistinctIds(LastCalls(s), id);
  }

  lemma {:induction false} DistinctIds(calls: seq<Call>, id: CallId)
    requires forall i, j :: 0 <= i < j < |calls| ==> calls[i].id != calls[j].id
    ensures CallIds(calls)[id] == if exists c | c in calls :: c.id == id then 1 else 0
  {
    if calls == [] {
    } else {
      var n := |calls| - 1;
      var init := calls[..n];
      DistinctIds(init, id);
      assert calls == init + [calls[n]];
      if calls[n].id == id {
        assert forall c | c in init :: c.id != id;
        assert calls[n] in calls;
      }
    }
  }

  /** Sub-agents start one level below their parent, one for each dispatch call, in order. */
  lemma DispatchesGoOneLevelDown(cfg: Config, s: State, i: nat)
    requires cfg.dispatchEnabled && i < |Dispatches(LastCalls(s))|
    ensures var d := RouteAfterAgent(cfg, s);
      && d.Sends? && |d.payloads| == |Dispatches(LastCalls(s))|
      && d.payloads[i].depth == s.depth + 1 && d.payloads[i].call == Dispatches(LastCalls(s))[i].id
      && d.payloads[i].prompt == Dispatches(LastCalls(s))[i].prompt
      && (d.tools <==> ShownCalls(cfg, s) != [])
  {
    StrippingShowsKept(cfg, s);
    PartitionSizes(LastCalls(s));
  }

  /** Where a turn goes. Without calls it ends, or writes memory first where the stack is enabled and
      either the agent always writes or the task opted in. With calls, sub-agents start if and only if
      dispatching is enabled and some call dispatches, and the tool node runs if and only if some call
      is left for it. */
  lemma TurnVerdict(cfg: Config, s: State, calls: seq<Call>)
    requires calls == if s.messages != [] && s.messages[|s.messages| - 1].Agent?
                      then s.messages[|s.messages| - 1].calls else []
    ensures var d := RouteAfterAgent(cfg, s);
      && (d.End? <==> calls == [] && !(cfg.stackEnabled && (cfg.autoWrite || s.optIn)))
      && (d.MemoryWrite? <==> calls == [] && cfg.stackEnabled && (cfg.autoWrite || s.optIn))
      && (d.Sends? <==> cfg.dispatchEnabled && exists c | c in calls :: c.name == "dispatch_subagent")
      && (RunsTools(d) <==> exists c | c in calls :: !cfg.dispatchEnabled || c.name != "dispatch_subagent")
  {
    PartsByName(calls);
    assert Dispatches(calls) == [] || Dispatches(calls)[0] in Dispatches(calls);
    assert calls == [] || calls[0] in calls;
  }
}
