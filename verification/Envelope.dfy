/** The envelope in which pending Send values survive the JSON checkpoint payload. */
module Envelope {
  import opened Tables
  import B = Base64

  datatype Send = Send(node: string, argument: nat)

  /** JSON-like values, and the one value JSON cannot carry. */
  datatype Value =
    | Scalar(n: int)
    | Text(s: string)
    | List(items: seq<Value>)
    | Dict(fields: map<string, Value>)
    | Pending(send: Send)

  const CHANNELS := "channel_values"
  const TASKS := "__pregel_tasks"
  const ENVELOPE := "__par_send_serde__"

  /** The typed serializer: a type tag and bytes; loading may fail. */
  datatype Serde = Serde(dumps: Send -> (string, seq<B.Byte>), loads: (string, seq<B.Byte>) -> Option<Value>)

  ghost predicate Faithful(serde: Serde)
  {
    forall send: Send :: serde.loads(serde.dumps(send).0, serde.dumps(send).1) == Some(Pending(send))
  }

  predicate HasChannels(v: Value)
  {
    v.Dict? && CHANNELS in v.fields && v.fields[CHANNELS].Dict?
  }

  predicate HasTasks(v: Value)
  {
    HasChannels(v) && TASKS in v.fields[CHANNELS].fields && v.fields[CHANNELS].fields[TASKS].List?
  }

  function TasksOf(v: Value): seq<Value>
    requires HasTasks(v)
  {
    v.fields[CHANNELS].fields[TASKS].items
  }

  /** The same payload with other pending tasks; every other channel and field is kept. */
  function WithTasks(v: Value, tasks: seq<Value>): Value
    requires HasChannels(v)
  {
    Dict(v.fields[CHANNELS := Dict(v.fields[CHANNELS].fields[TASKS := List(tasks)])])
  }

  predicate IsEnvelope(t: Value)
  {
    t.Dict? && ENVELOPE in t.fields
  }

  // ---- Encoding ----------------------------------------------------------------------------------

  function Wrap(serde: Serde, t: Value): Value
  {
    if t.Pending? then
      var (tag, blob) := serde.dumps(t.send);
      Dict(map[ENVELOPE := Dict(map["type" := Text(tag), "blob" := Text(B.Encode(blob))])])
    else t
  }

  function WrapAll(serde: Serde, ts: seq<Value>): (r: seq<Value>)
    ensures |r| == |ts|
    ensures forall i :: 0 <= i < |ts| ==> r[i] == Wrap(serde, ts[i])
  {
    if ts == [] then [] else WrapAll(serde, ts[..|ts| - 1]) + [Wrap(serde, ts[|ts| - 1])]
  }

  /** Nothing is copied unless some pending task is a Send. */
  function Encode(serde: Serde, v: Value): Value
  {
    if HasTasks(v) && exists i :: 0 <= i < |TasksOf(v)| && TasksOf(v)[i].Pending?
    then WithTasks(v, WrapAll(serde, TasksOf(v)))
    else v
  }

  // ---- Decoding ----------------------------------------------------------------------------------

  function Unwrap(serde: Serde, t: Value): Option<Value>
  {
    if !IsEnvelope(t) then Some(t)
    else
      var env := t.fields[ENVELOPE];
      if !env.Dict? || "blob" !in env.fields || "type" !in env.fields then None
      else if !env.fields["blob"].Text? || !env.fields["type"].Text? then None
      else
        var blob := B.Decode(env.fields["blob"].s);
        if blob.None? then None else serde.loads(env.fields["type"].s, blob.value)
  }

  function UnwrapAll(serde: Serde, ts: seq<Value>): Option<seq<Value>>
  {
    if ts == [] then Some([])
    else
      var rest, last := UnwrapAll(serde, ts[..|ts| - 1]), Unwrap(serde, ts[|ts| - 1]);
      if rest.None? || last.None? then None else Some(rest.value + [last.value])
  }

  /** None stands for the exception a malformed envelope raises. */
  function Decode(serde: Serde, v: Value): Option<Value>
  {
    if HasTasks(v) && exists i :: 0 <= i < |TasksOf(v)| && IsEnvelope(TasksOf(v)[i]) then
      var ts := UnwrapAll(serde, TasksOf(v));
      if ts.None? then None else Some(WithTasks(v, ts.value))
    else Some(v)
  }

  // ---- The loops ---------------------------------------------------------------------------------

  /** A loaded payload; decoding overwrites its task channel in place. */
  class Payload {
    var value: Value

    constructor (v: Value)
      ensures value == v
    {
      value := v;
    }

    /** The live checkpoint is read, never written. */
    method EncodePregelTasks(serde: Serde) returns (encoded: Value)
      ensures encoded == Encode(serde, value)
    {
      encoded := value;
      if HasTasks(value) {
        var tasks := TasksOf(value);
        if exists i :: 0 <= i < |tasks| && tasks[i].Pending? {
          var out: seq<Value> := [];
          var i := 0;
          while i < |tasks|
            invariant 0 <= i <= |tasks| && out == WrapAll(serde, tasks[..i])
          {
            assert tasks[..i + 1][..i] == tasks[..i];
            out := out + [Wrap(serde, tasks[i])];
            i := i + 1;
          }
          assert tasks[..i] == tasks;
          encoded := WithTasks(value, out);
        }
      }
    }

    /** On a malformed envelope the payload is left as it was. */
    method DecodePregelTasks(serde: Serde) returns (ok: bool)
      modifies this
      ensures ok <==> Decode(serde, old(value)).Some?
      ensures value == if ok then Decode(serde, old(value)).value else old(value)
    {
      ok := true;
      if HasTasks(value) {
        var tasks := TasksOf(value);
        if exists i :: 0 <= i < |tasks| && IsEnvelope(tasks[i]) {
          var out: seq<Value> := [];
          var i := 0;
          while i < |tasks|
            invariant 0 <= i <= |tasks| && UnwrapAll(serde, tasks[..i]) == Some(out)
          {
            assert tasks[..i + 1][..i] == tasks[..i];
            var t := Unwrap(serde, tasks[i]);
            if t.None? {
              UnwrapFails(serde, tasks, i);
              return false;
            }
            out := out + [t.value];
            i := i + 1;
          }
          assert tasks[..i] == tasks;
          value := WithTasks(value, out);
        }
      }
    }
  }

  // ---- Theorems ----------------------------------------------------------------------------------

  lemma {:induction false} UnwrapFails(serde: Serde, ts: seq<Value>, i: nat)
    requires i < |ts| && Unwrap(serde, ts[i]).None?
    ensures UnwrapAll(serde, ts).None?
  {
    if i == |ts| - 1 {
    } else {
      UnwrapFails(serde, ts[..|ts| - 1], i);
    }
  }

  lemma {:induction false} UnwrapAllByIndex(serde: Serde, ts: seq<Value>, out: seq<Value>)
    ensures UnwrapAll(serde, ts) == Some(out) <==>
              |out| == |ts| && forall i :: 0 <= i < |ts| ==> Unwrap(serde, ts[i]) == Some(out[i])
  {
    if ts == [] {
    } else {
      var n := |ts| - 1;
      if |out| == |ts| {
        UnwrapAllByIndex(serde, ts[..n], out[..n]);
        assert out == out[..n] + [out[n]];
      }
      var rest := UnwrapAll(serde, ts[..n]);
      if rest.Some? {
        UnwrapAllByIndex(serde, ts[..n], rest.value);
      }
    }
  }

  /** A task survives the round trip exactly when unwrapping leaves it alone. */
  predicate Survives(serde: Serde, t: Value)
  {
    t.Pending? || Unwrap(serde, t) == Some(t)
  }

  lemma WrappedSurvives(serde: Serde, t: Value)
    requires Faithful(serde)
    ensures Unwrap(serde, Wrap(serde, t)) == Some(t) <==> Survives(serde, t)
    ensures t.Pending? ==> IsEnvelope(Wrap(serde, t))
  {
    if t.Pending? {
      var (tag, blob) := serde.dumps(t.send);
      B.RoundTrip(blob);
    }
  }

  lemma SameTasks(v: Value)
    requires HasTasks(v)
    ensures WithTasks(v, TasksOf(v)) == v
    ensures forall ts :: HasTasks(WithTasks(v, ts)) && TasksOf(WithTasks(v, ts)) == ts
    ensures forall ts, us :: WithTasks(WithTasks(v, ts), us) == WithTasks(v, us)
  {
    var inner := v.fields[CHANNELS].fields;
    assert inner[TASKS := List(TasksOf(v))] == inner;
    assert v.fields[CHANNELS := v.fields[CHANNELS]] == v.fields;
    forall ts, us
      ensures WithTasks(WithTasks(v, ts), us) == WithTasks(v, us)
    {
      assert inner[TASKS := List(ts)][TASKS := List(us)] == inner[TASKS := List(us)];
      var a, b := Dict(inner[TASKS := List(ts)]), Dict(inner[TASKS := List(us)]);
      assert v.fields[CHANNELS := a][CHANNELS := b] == v.fields[CHANNELS := b];
    }
  }

  /** Decoding the encoded payload returns the original exactly when every plain task does. */
  lemma RoundTripIff(serde: Serde, v: Value)
    requires Faithful(serde)
    ensures Decode(serde, Encode(serde, v)) == Some(v) <==>
              (HasTasks(v) ==> forall i :: 0 <= i < |TasksOf(v)| ==> Survives(serde, TasksOf(v)[i]))
  {
    if HasTasks(v) {
      var ts := TasksOf(v);
      var ws := WrapAll(serde, ts);
      SameTasks(v);
      forall i | 0 <= i < |ts|
        ensures Unwrap(serde, ws[i]) == Some(ts[i]) <==> Survives(serde, ts[i])
        ensures ts[i].Pending? ==> IsEnvelope(ws[i])
      {
        WrappedSurvives(serde, ts[i]);
      }
      UnwrapAllByIndex(serde, ws, ts);
      UnwrapAllByIndex(serde, ts, ts);
      if exists i :: 0 <= i < |ts| && ts[i].Pending? {
        var i :| 0 <= i < |ts| && ts[i].Pending?;
        assert IsEnvelope(ws[i]);
        assert Encode(serde, v) == WithTasks(v, ws);
        SameWith(v, ws);
      }
    }
  }

  lemma SameWith(v: Value, ts: seq<Value>)
    requires HasTasks(v)
    ensures forall us :: WithTasks(v, us) == v <==> us == TasksOf(v)
  {
    SameTasks(v);
  }

  /** No plain pending task carries the envelope key. */
  predicate KeyUnused(v: Value)
  {
    HasTasks(v) ==> forall i :: 0 <= i < |TasksOf(v)| ==> !IsEnvelope(TasksOf(v)[i])
  }

  /** Every payload whose plain tasks leave the envelope key alone comes back unchanged. */
  lemma RoundTrip(serde: Serde, v: Value)
    requires Faithful(serde) && KeyUnused(v)
    ensures Decode(serde, Encode(serde, v)) == Some(v)
  {
    RoundTripIff(serde, v);
  }

  /** The serializer never loads a dictionary that carries the envelope key itself. */
  ghost predicate LoadsNoEnvelope(serde: Serde)
  {
    forall tag, blob :: serde.loads(tag, blob).Some? ==> !IsEnvelope(serde.loads(tag, blob).value)
  }

  /** With such a serializer the condition is exact: a plain task that carries the key is lost. */
  lemma RoundTripNeedsUnusedKey(serde: Serde, v: Value)
    requires Faithful(serde) && LoadsNoEnvelope(serde)
    ensures Decode(serde, Encode(serde, v)) == Some(v) <==> KeyUnused(v)
  {
    RoundTripIff(serde, v);
    if HasTasks(v) {
      forall i | 0 <= i < |TasksOf(v)|
        ensures Survives(serde, TasksOf(v)[i]) <==> !IsEnvelope(TasksOf(v)[i])
      {
      }
    }
  }

  /** The encoded payload differs in the task channel only, and holds no Send there. */
  lemma EncodingIsJson(serde: Serde, v: Value)
    requires HasTasks(v)
    ensures var e := Encode(serde, v);
      && HasTasks(e) && |TasksOf(e)| == |TasksOf(v)|
      && (forall i :: 0 <= i < |TasksOf(e)| ==> !TasksOf(e)[i].Pending?)
      && e == WithTasks(v, TasksOf(e))
  {
    SameTasks(v);
  }

  /** What is stored for a payload whose task channel holds a Send: each Send as an envelope of its type
      and its bytes in base64, every other task as it is, and nothing else changed. */
  lemma EncodedShape(serde: Serde, v: Value, inner: map<string, Value>, tasks: seq<Value>)
    requires v.Dict? && "channel_values" in v.fields && v.fields["channel_values"] == Dict(inner)
    requires "__pregel_tasks" in inner && inner["__pregel_tasks"] == List(tasks)
    ensures exists out: seq<Value> ::
              && |out| == |tasks|
              && (forall i :: 0 <= i < |tasks| ==>
                    out[i] == if !tasks[i].Pending? then tasks[i]
                              else Enveloped(serde.dumps(tasks[i].send).0, serde.dumps(tasks[i].send).1))
              && Encode(serde, v) == Dict(v.fields["channel_values" := Dict(inner["__pregel_tasks" := List(out)])])
  {
    assert HasTasks(v) && TasksOf(v) == tasks;
    var out := WrapAll(serde, tasks);
    if exists i :: 0 <= i < |tasks| && tasks[i].Pending? {
      assert Encode(serde, v) == WithTasks(v, out);
    } else {
      assert out == tasks;
      SameTasks(v);
      assert Encode(serde, v) == WithTasks(v, out);
    }
  }

  function Enveloped(tag: string, blob: seq<B.Byte>): Value
  {
    Dict(map["__par_send_serde__" := Dict(map["type" := Text(tag), "blob" := Text(B.Encode(blob))])])
  }

  /** A payload without a list of tasks is stored, and loaded, as it is. */
  lemma OthersAreLeftAlone(serde: Serde, v: Value)
    requires !(v.Dict? && "channel_values" in v.fields && v.fields["channel_values"].Dict?
               && "__pregel_tasks" in v.fields["channel_values"].fields
               && v.fields["channel_values"].fields["__pregel_tasks"].List?)
    ensures Encode(serde, v) == v && Decode(serde, v) == Some(v)
  {
  }
}
