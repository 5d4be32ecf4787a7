/** The wrapper around the tool node: its output is split into recalled and other messages, the
    others are rewritten as a batch, and the two parts are woven back together in order. */
module Reweave {
  type CallId = nat
  type ToolName = string

  /** The empty id; a message without an id counts as carrying it. */
  const NO_ID: CallId := 0
  const RECALL: ToolName := "recall_tool_result"

  datatype Message =
    | Answer(call: CallId, body: nat, recalled: bool)
    | Note(body: nat)

  /** A message answers a recall call, judged by the name of the call with its id. */
  predicate IsRecall(m: Message, names: map<CallId, ToolName>)
  {
    m.Answer? && m.call in names && names[m.call] == RECALL
  }

  function Tag(m: Message): Message
  {
    if m.Answer? then m.(recalled := true) else m
  }

  function Recalls(msgs: seq<Message>, names: map<CallId, ToolName>): seq<Message>
  {
    if msgs == [] then []
    else
      var m := msgs[|msgs| - 1];
      Recalls(msgs[..|msgs| - 1], names) + if IsRecall(m, names) then [Tag(m)] else []
  }

  function Others(msgs: seq<Message>, names: map<CallId, ToolName>): seq<Message>
  {
    if msgs == [] then []
    else
      var m := msgs[|msgs| - 1];
      Others(msgs[..|msgs| - 1], names) + if IsRecall(m, names) then [] else [m]
  }

  /** A rewriting keeps each message's kind and call id. */
  predicate SameCall(m: Message, n: Message)
  {
    (m.Answer? <==> n.Answer?) && (m.Answer? ==> m.call == n.call)
  }

  predicate SameCalls(ms: seq<Message>, ns: seq<Message>)
  {
    |ms| == |ns| && forall i :: 0 <= i < |ms| ==> SameCall(ms[i], ns[i])
  }

  function IdsOf(msgs: seq<Message>): set<CallId>
  {
    set i | 0 <= i < |msgs| && msgs[i].Answer? :: msgs[i].call
  }

  predicate Recalled(m: Message, ids: set<CallId>)
  {
    m.Answer? && m.call in ids
  }

  /** How many of the first `n` messages go to the recall side. */
  function RecallRank(msgs: seq<Message>, ids: set<CallId>, n: nat): (r: nat)
    requires n <= |msgs|
    ensures r <= n
  {
    if n == 0 then 0 else RecallRank(msgs, ids, n - 1) + if Recalled(msgs[n - 1], ids) then 1 else 0
  }

  /** The message that stands at position `i` after the weave; an exhausted side falls back to
      the original. */
  function WovenAt(original: seq<Message>, recalls: seq<Message>, others: seq<Message>, i: nat): Message
    requires i < |original|
  {
    var ids := IdsOf(recalls);
    var k := RecallRank(original, ids, i);
    if Recalled(original[i], ids) then (if k < |recalls| then recalls[k] else original[i])
    else (if i - k < |others| then others[i - k] else original[i])
  }

  /** Splits the tool node's output in one pass. */
  method Split(msgs: seq<Message>, names: map<CallId, ToolName>)
    returns (recalls: seq<Message>, others: seq<Message>)
    ensures recalls == Recalls(msgs, names) && others == Others(msgs, names)
  {
    recalls, others := [], [];
    var i := 0;
    while i < |msgs|
      invariant 0 <= i <= |msgs|
      invariant recalls == Recalls(msgs[..i], names) && others == Others(msgs[..i], names)
    {
      assert msgs[..i + 1][..i] == msgs[..i];
      if IsRecall(msgs[i], names) {
        recalls := recalls + [Tag(msgs[i])];
      } else {
        others := others + [msgs[i]];
      }
      i := i + 1;
    }
    assert msgs[..i] == msgs;
  }

  /** The loop over two iterators; `fellBack` reports that one of them ran out. */
  method ReweaveMessages(original: seq<Message>, recalls: seq<Message>, others: seq<Message>)
    returns (out: seq<Message>, fellBack: bool)
    ensures |out| == |original|
    ensures forall i :: 0 <= i < |original| ==> out[i] == WovenAt(original, recalls, others, i)
    ensures var n := RecallRank(original, IdsOf(recalls), |original|);
      fellBack <==> |recalls| < n || |others| < |original| - n
  {
    var ids := IdsOf(recalls);
    out, fellBack := [], false;
    var r, o := 0, 0;
    for i := 0 to |original|
      invariant |out| == i
      invariant forall j :: 0 <= j < i ==> out[j] == WovenAt(original, recalls, others, j)
      invariant var k := RecallRank(original, ids, i);
        && r == (if k < |recalls| then k else |recalls|)
        && o == (if i - k < |others| then i - k else |others|)
        && (fellBack <==> |recalls| < k || |others| < i - k)
    {
      var m := original[i];
      if Recalled(m, ids) {
        if r < |recalls| {
          out, r := out + [recalls[r]], r + 1;
        } else {
          out, fellBack := out + [m], true;
        }
      } else if o < |others| {
        out, o := out + [others[o]], o + 1;
      } else {
        out, fellBack := out + [m], true;
      }
    }
  }

  // ---- Theorems ------------------------------------------------------------------------------

  lemma {:induction false} RecallIds(msgs: seq<Message>, names: map<CallId, ToolName>, id: CallId)
    ensures id in IdsOf(Recalls(msgs, names)) <==>
              exists i :: 0 <= i < |msgs| && msgs[i].Answer? && msgs[i].call == id && IsRecall(msgs[i], names)
  {
    if msgs == [] {
    } else {
      var n := |msgs| - 1;
      RecallIds(msgs[..n], names, id);
      var rest, m := Recalls(msgs[..n], names), msgs[n];
      assert forall i :: 0 <= i < n ==> msgs[..n][i] == msgs[i];
      if IsRecall(m, names) {
        assert IdsOf(rest + [Tag(m)]) == IdsOf(rest) + {m.call} by { AppendedId(rest, Tag(m)); }
      } else {
        assert rest + [] == rest;
      }
    }
  }

  lemma AppendedId(msgs: seq<Message>, m: Message)
    requires m.Answer?
    ensures IdsOf(msgs + [m]) == IdsOf(msgs) + {m.call}
  {
    var all := msgs + [m];
    assert all[|msgs|] == m && forall i :: 0 <= i < |msgs| ==> all[i] == msgs[i];
    forall id
      ensures id in IdsOf(all) <==> id in IdsOf(msgs) + {m.call}
    {
      if id in IdsOf(msgs) {
        var i :| 0 <= i < |msgs| && msgs[i].Answer? && msgs[i].call == id;
        assert all[i].call == id;
      }
    }
  }

  /** The weave's test by id agrees with the split's test by name. */
  lemma SplitAndWeaveAgree(msgs: seq<Message>, names: map<CallId, ToolName>, m: Message)
    requires m in msgs
    ensures Recalled(m, IdsOf(Recalls(msgs, names))) <==> IsRecall(m, names)
  {
    if m.Answer? {
      RecallIds(msgs, names, m.call);
    }
  }

  /** Position of each message inside its part. */
  lemma {:induction false} Ranks(msgs: seq<Message>, names: map<CallId, ToolName>, ids: set<CallId>, n: nat)
    requires n <= |msgs|
    requires forall m | m in msgs :: Recalled(m, ids) <==> IsRecall(m, names)
    ensures |Recalls(msgs[..n], names)| == RecallRank(msgs, ids, n)
    ensures |Others(msgs[..n], names)| == n - RecallRank(msgs, ids, n)
    ensures n < |msgs| ==>
              var k := RecallRank(msgs, ids, n);
              && Recalls(msgs[..n], names) <= Recalls(msgs, names)
              && Others(msgs[..n], names) <= Others(msgs, names)
              && (if IsRecall(msgs[n], names)
                  then k < |Recalls(msgs, names)| && Recalls(msgs, names)[k] == Tag(msgs[n])
                  else n - k < |Others(msgs, names)| && Others(msgs, names)[n - k] == msgs[n])
  {
    if n == 0 {
    } else {
      assert msgs[n - 1] in msgs;
      Ranks(msgs, names, ids, n - 1);
      assert msgs[..n][..n - 1] == msgs[..n - 1];
    }
    if n < |msgs| {
      PartsGrow(msgs, names, n);
      PartsGrow(msgs, names, n + 1);
      assert msgs[..n + 1][..n] == msgs[..n];
    }
  }

  lemma {:induction false} PartsGrow(msgs: seq<Message>, names: map<CallId, ToolName>, n: nat)
    requires n <= |msgs|
    ensures Recalls(msgs[..n], names) <= Recalls(msgs, names)
    ensures Others(msgs[..n], names) <= Others(msgs, names)
  {
    if n == |msgs| {
      assert msgs[..n] == msgs;
    } else {
      PartsGrow(msgs[..|msgs| - 1], names, n);
      assert msgs[..|msgs| - 1][..n] == msgs[..n];
    }
  }

  /** Splitting, rewriting the others with kinds and ids kept, and weaving gives a list of the
      same length with the same call id at every position: a recalled message is tagged in
      place, every other position holds the rewrite of the very message it replaces, and no
      iterator runs out. */
  lemma WeavePreservesOrder(msgs: seq<Message>, names: map<CallId, ToolName>, rewritten: seq<Message>, i: nat)
    requires i < |msgs| && SameCalls(Others(msgs, names), rewritten)
    ensures var recalls := Recalls(msgs, names); var out := WovenAt(msgs, recalls, rewritten, i);
      var k := RecallRank(msgs, IdsOf(recalls), i);
      && SameCall(msgs[i], out)
      && if IsRecall(msgs[i], names) then k < |recalls| && out == Tag(msgs[i])
         else i - k < |rewritten| && Others(msgs, names)[i - k] == msgs[i] && out == rewritten[i - k]
  {
    var ids := IdsOf(Recalls(msgs, names));
    forall m | m in msgs
      ensures Recalled(m, ids) <==> IsRecall(m, names)
    {
      SplitAndWeaveAgree(msgs, names, m);
    }
    Ranks(msgs, names, ids, i);
    assert msgs[i] in msgs;
  }

  /** The StopIteration fallbacks are never reached from the tool node. */
  lemma FallbacksUnreachable(msgs: seq<Message>, names: map<CallId, ToolName>, rewritten: seq<Message>)
    requires |rewritten| == |Others(msgs, names)|
    ensures var recalls := Recalls(msgs, names); var n := RecallRank(msgs, IdsOf(recalls), |msgs|);
      |recalls| == n && |rewritten| == |msgs| - n
  {
    var ids := IdsOf(Recalls(msgs, names));
    forall m | m in msgs
      ensures Recalled(m, ids) <==> IsRecall(m, names)
    {
      SplitAndWeaveAgree(msgs, names, m);
    }
    Ranks(msgs, names, ids, |msgs|);
    assert msgs[..|msgs|] == msgs;
  }

  /** The whole wrapper, with any batch rewriting that keeps kinds, ids and positions: an answer to a
      call named recall_tool_result keeps its body and is tagged, in its place; every other message
      is replaced by its own rewrite, which answers the same call. */
  method RewriteToolOutput(msgs: seq<Message>, names: map<CallId, ToolName>, offload: seq<Message> -> seq<Message>)
    returns (out: seq<Message>)
    requires forall ms :: SameCalls(ms, offload(ms))
    ensures SameCalls(msgs, out)
    ensures forall i :: 0 <= i < |msgs| ==>
              var m, others := msgs[i], Others(msgs, names);
              if m.Answer? && m.call in names && names[m.call] == "recall_tool_result"
              then out[i] == Answer(m.call, m.body, true)
              else (m.Answer? ==> out[i].Answer? && out[i].call == m.call)
                   && exists k :: 0 <= k < |others| && others[k] == m && k < |offload(others)|
                                   && out[i] == offload(others)[k]
  {
    var recalls, others := Split(msgs, names);
    var rewritten := offload(others);
    assert SameCalls(others, rewritten);
    var fellBack;
    out, fellBack := ReweaveMessages(msgs, recalls, rewritten);
    FallbacksUnreachable(msgs, names, rewritten);
    assert !fellBack;
    forall i | 0 <= i < |msgs|
      ensures SameCall(msgs[i], out[i])
      ensures if IsRecall(msgs[i], names) then out[i] == Tag(msgs[i])
              else exists k :: 0 <= k < |others| && others[k] == msgs[i] && out[i] == rewritten[k]
    {
      WeavePreservesOrder(msgs, names, rewritten, i);
    }
  }

  /** The messages that are offloaded: each one that answers no recall call, as often as it occurs. */
  lemma {:induction false} OthersAreTheRest(msgs: seq<Message>, names: map<CallId, ToolName>, m: Message)
    ensures multiset(Others(msgs, names))[m] ==
              if m.Answer? && m.call in names && names[m.call] == "recall_tool_result" then 0 else multiset(msgs)[m]
  {
    if msgs == [] {
    } else {
      var n := |msgs| - 1;
      OthersAreTheRest(msgs[..n], names, m);
      assert msgs == msgs[..n] + [msgs[n]];
    }
  }
}
