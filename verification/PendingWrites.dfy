/** The checkpoint_writes table: each call inserts or upserts its writes one by one, and the
    stored rows are characterised by the whole call history. */
module PendingWrites {
  import opened Tables

  /** A special channel has a fixed negative slot; any other takes its position in the call. */
  datatype Channel = Special(slot: nat) | Named(name: nat)

  datatype Key = Key(task: TaskId, ns: nat, checkpoint: CheckpointId, path: nat, idx: int)

  datatype Stored = Stored(writer: nat, channel: Channel, blob: nat)

  datatype Write = Write(channel: Channel, blob: nat)

  datatype Call = Call(
    task: TaskId, ns: nat, checkpoint: CheckpointId, writer: nat, path: nat, writes: seq<Write>)

  /** One row offered to the table, with the conflict clause of its call. */
  datatype Offer = Offer(upsert: bool, key: Key, row: Stored)

  type Table = map<Key, Stored>

  /** A call upserts only when every one of its channels is special. */
  predicate Upserts(c: Call)
  {
    forall w | w in c.writes :: w.channel.Special?
  }

  function Index(ch: Channel, position: nat): int
  {
    if ch.Special? then -1 - ch.slot else position
  }

  function OfferOf(c: Call, i: nat): Offer
    requires i < |c.writes|
  {
    var w := c.writes[i];
    Offer(Upserts(c),
          Key(c.task, c.ns, c.checkpoint, c.path, Index(w.channel, i)),
          Stored(c.writer, w.channel, w.blob))
  }

  function Offers(c: Call): (os: seq<Offer>)
    ensures |os| == |c.writes|
  {
    seq(|c.writes|, i requires 0 <= i < |c.writes| => OfferOf(c, i))
  }

  /** What one call offers, write by write: a named channel takes its position in the call and a
      special channel its own slot below zero, so that no two channels ever meet; the whole call
      upserts if and only if it writes special channels only. */
  lemma OfferedByCall(c: Call, i: nat)
    requires i < |c.writes|
    ensures var o, w := Offers(c)[i], c.writes[i];
      && o.key.task == c.task && o.key.ns == c.ns && o.key.checkpoint == c.checkpoint && o.key.path == c.path
      && (w.channel.Special? ==> o.key.idx + w.channel.slot + 1 == 0)
      && (w.channel.Named? ==> o.key.idx == i)
      && o.row == Stored(c.writer, w.channel, w.blob)
      && (o.upsert <==> !exists j :: 0 <= j < |c.writes| && c.writes[j].channel.Named?)
  {
    assert forall w | w in c.writes :: exists j :: 0 <= j < |c.writes| && c.writes[j] == w;
  }

  function Take(t: Table, o: Offer): Table
  {
    if o.upsert || o.key !in t then t[o.key := o.row] else t
  }

  function TakeAll(t: Table, os: seq<Offer>): Table
  {
    if os == [] then t else Take(TakeAll(t, os[..|os| - 1]), os[|os| - 1])
  }

  function Put(t: Table, c: Call): Table
  {
    TakeAll(t, Offers(c))
  }

  function PutAll(t: Table, cs: seq<Call>): Table
  {
    if cs == [] then t else Put(PutAll(t, cs[..|cs| - 1]), cs[|cs| - 1])
  }

  /** Every row ever offered, in the order of the calls. */
  function History(cs: seq<Call>): seq<Offer>
  {
    if cs == [] then [] else History(cs[..|cs| - 1]) + Offers(cs[|cs| - 1])
  }

  ghost predicate Upserted(os: seq<Offer>, k: Key)
  {
    exists i :: 0 <= i < |os| && os[i].key == k && os[i].upsert
  }

  /** The offer whose row survives for key `k`: the last upsert if there is one, else the
      first insert. */
  ghost predicate Wins(os: seq<Offer>, k: Key, i: int)
  {
    && 0 <= i < |os| && os[i].key == k
    && if os[i].upsert
       then forall j :: i < j < |os| && os[j].key == k ==> !os[j].upsert
       else !Upserted(os, k) && forall j :: 0 <= j < i ==> os[j].key != k
  }

  lemma {:induction false} TakeAllDecided(os: seq<Offer>, k: Key)
    ensures forall i :: Wins(os, k, i) ==> k in TakeAll(map[], os) && TakeAll(map[], os)[k] == os[i].row
    ensures k in TakeAll(map[], os) ==> exists i :: Wins(os, k, i)
    ensures k !in TakeAll(map[], os) ==> forall i :: 0 <= i < |os| ==> os[i].key != k
  {
    if os == [] {
    } else {
      var n := |os| - 1;
      var init := os[..n];
      TakeAllDecided(init, k);
      if os[n].key == k && (os[n].upsert || k !in TakeAll(map[], init)) {
        assert Wins(os, k, n) by {
          if !os[n].upsert {
            assert forall i :: 0 <= i < n ==> os[i] == init[i];
          }
        }
      } else {
        forall i | 0 <= i < n
          ensures Wins(os, k, i) <==> Wins(init, k, i)
        {
          KeptWinner(os, k, i);
        }
      }
    }
  }

  lemma KeptWinner(os: seq<Offer>, k: Key, i: int)
    requires 0 <= i < |os| - 1
    requires !(os[|os| - 1].key == k && os[|os| - 1].upsert)
    ensures Wins(os, k, i) <==> Wins(os[..|os| - 1], k, i)
  {
    var init := os[..|os| - 1];
    assert forall j :: 0 <= j < |init| ==> os[j] == init[j];
    assert Upserted(os, k) <==> Upserted(init, k) by {
      if Upserted(os, k) {
        var j :| 0 <= j < |os| && os[j].key == k && os[j].upsert;
        assert init[j] == os[j];
      }
      if Upserted(init, k) {
        var j :| 0 <= j < |init| && init[j].key == k && init[j].upsert;
        assert init[j] == os[j];
      }
    }
  }

  lemma {:induction false} TakeAllConcat(t: Table, os: seq<Offer>, more: seq<Offer>)
    ensures TakeAll(t, os + more) == TakeAll(TakeAll(t, os), more)
  {
    if more == [] {
      assert os + more == os;
    } else {
      var n := |more| - 1;
      TakeAllConcat(t, os, more[..n]);
      assert (os + more)[..|os + more| - 1] == os + more[..n];
    }
  }

  lemma {:induction false} PutAllIsTakeAll(cs: seq<Call>)
    ensures PutAll(map[], cs) == TakeAll(map[], History(cs))
  {
    if cs == [] {
    } else {
      var n := |cs| - 1;
      PutAllIsTakeAll(cs[..n]);
      TakeAllConcat(map[], History(cs[..n]), Offers(cs[n]));
    }
  }

  /** The stored rows after any history of calls: a key is present exactly when some call
      offered it, and it holds the last upsert offered for it, else the first insert. */
  lemma StoredWritesAreDecidedByHistory(cs: seq<Call>, k: Key)
    ensures k in PutAll(map[], cs) <==> exists i :: 0 <= i < |History(cs)| && History(cs)[i].key == k
    ensures forall i :: Wins(History(cs), k, i) ==>
              k in PutAll(map[], cs) && PutAll(map[], cs)[k] == History(cs)[i].row
    ensures k in PutAll(map[], cs) ==> exists i :: Wins(History(cs), k, i)
  {
    PutAllIsTakeAll(cs);
    TakeAllDecided(History(cs), k);
  }

  lemma {:induction false} TakeAllOnKey(t: Table, os: seq<Offer>, k: Key)
    ensures k in t && (forall i :: 0 <= i < |os| && os[i].key == k ==> !os[i].upsert)
            ==> k in TakeAll(t, os) && TakeAll(t, os)[k] == t[k]
    ensures (forall i :: 0 <= i < |os| ==> os[i].key != k)
            ==> (k in TakeAll(t, os) <==> k in t) && (k in t ==> TakeAll(t, os)[k] == t[k])
    ensures (exists i :: 0 <= i < |os| && os[i].key == k) ==> k in TakeAll(t, os)
  {
    if os == [] {
    } else {
      var n := |os| - 1;
      var init := os[..n];
      assert forall i :: 0 <= i < n ==> os[i] == init[i];
      TakeAllOnKey(t, init, k);
      if exists i :: 0 <= i < |os| && os[i].key == k {
        var i :| 0 <= i < |os| && os[i].key == k;
        if i < n {
          assert init[i].key == k;
        }
      }
    }
  }

  /** Offers of one kind applied a second time meet the rows they left: for upserts the same
      last row is written again, for inserts every key is taken. */
  lemma {:induction false} TakeAllTwice(t: Table, u: Table, os: seq<Offer>, k: Key)
    requires exists i :: 0 <= i < |os| && os[i].key == k && os[i].upsert
    ensures k in TakeAll(t, os) && k in TakeAll(u, os) && TakeAll(t, os)[k] == TakeAll(u, os)[k]
  {
    var n := |os| - 1;
    var init := os[..n];
    assert forall i :: 0 <= i < n ==> os[i] == init[i];
    if os[n].key == k && os[n].upsert {
    } else {
      var i :| 0 <= i < |os| && os[i].key == k && os[i].upsert;
      assert init[i].key == k && init[i].upsert;
      TakeAllTwice(t, u, init, k);
    }
  }

  /** Replaying the most recent call changes nothing. */
  lemma ReplayingLastCallIsIdempotent(t: Table, c: Call)
    ensures Put(Put(t, c), c) == Put(t, c)
  {
    var os := Offers(c);
    var once := TakeAll(t, os);
    var twice := TakeAll(once, os);
    forall k
      ensures (k in twice <==> k in once) && (k in once ==> twice[k] == once[k])
    {
      TakeAllOnKey(t, os, k);
      TakeAllOnKey(once, os, k);
      if i :| 0 <= i < |os| && os[i].key == k && os[i].upsert {
        TakeAllTwice(t, once, os, k);
      }
    }
    assert twice == once;
  }
}
