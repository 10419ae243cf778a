/** How many entries of a stream stand for one publication. */
module RedisOrigins {
  import opened RedisStreams

  function If(counted: bool): nat {
    if counted then 1 else 0
  }

  /** Entries of publication `o` that are not delivered yet. */
  function Unread(es: seq<Entry>, last: nat, o: nat): nat {
    if es == [] then 0
    else
      var n := |es| - 1;
      Unread(es[..n], last, o) + If(es[n].id > last && es[n].body.origin == o)
  }

  /** Entries of publication `o` that are pending. */
  function InFlight(es: seq<Entry>, pel: set<nat>, o: nat): nat {
    if es == [] then 0
    else
      var n := |es| - 1;
      InFlight(es[..n], pel, o) + If(es[n].id in pel && es[n].body.origin == o)
  }

  function Open(s: Stream, o: nat): nat {
    Unread(s.entries, s.last, o) + InFlight(s.entries, s.pel.Keys, o)
  }

  function Total(streams: seq<Stream>, o: nat): nat {
    if streams == [] then 0
    else
      var n := |streams| - 1;
      Total(streams[..n], o) + Open(streams[n], o)
  }

  function CountOf(bodies: seq<Body>, o: nat): nat {
    if bodies == [] then 0
    else
      var n := |bodies| - 1;
      CountOf(bodies[..n], o) + If(bodies[n].origin == o)
  }

  lemma {:induction false} TotalUpdate(streams: seq<Stream>, i: nat, s: Stream, o: nat)
    requires i < |streams|
    ensures Total(streams[i := s], o) + Open(streams[i], o) == Total(streams, o) + Open(s, o)
  {
    var n := |streams| - 1;
    if i == n {
      assert streams[i := s][..n] == streams[..n];
    } else {
      assert streams[i := s][..n] == streams[..n][i := s];
      TotalUpdate(streams[..n], i, s, o);
    }
  }

  lemma {:induction false} TotalSame(streams: seq<Stream>, later: seq<Stream>, o: nat)
    requires |streams| == |later| && forall i | 0 <= i < |streams| :: Open(streams[i], o) == Open(later[i], o)
    ensures Total(streams, o) == Total(later, o)
  {
    if streams != [] {
      var n := |streams| - 1;
      TotalSame(streams[..n], later[..n], o);
    }
  }

  /** Delivering entries moves them from waiting to in flight and loses none. */
  lemma {:induction false} OpenSame(es: seq<Entry>, last: nat, pel: set<nat>, last': nat, pel': set<nat>, o: nat)
    requires forall e <- es :: e.id in pel ==> e.id <= last
    requires forall e <- es :: e.id in pel' ==> e.id <= last'
    requires forall e <- es :: (e.id > last || e.id in pel) <==> (e.id > last' || e.id in pel')
    ensures Unread(es, last, o) + InFlight(es, pel, o) == Unread(es, last', o) + InFlight(es, pel', o)
  {
    if es != [] {
      var n := |es| - 1;
      assert es[n] in es && forall e <- es[..n] :: e in es;
      OpenSame(es[..n], last, pel, last', pel', o);
    }
  }

  lemma KeepsOpen(s: Stream, t: Stream, now: int, o: nat)
    requires s.Valid() && Keeps(s, t, now)
    ensures Open(t, o) == Open(s, o)
  {
    OpenSame(s.entries, s.last, s.pel.Keys, t.last, t.pel.Keys, o);
  }

  lemma ReceivedOpen(s: Stream, how: Receive, cid: nat, now: int, o: nat)
    requires s.Valid() && forall id <- s.pel :: s.pel[id].deliveredAt <= now
    ensures Open(Received(s, how, cid, now), o) == Open(s, o)
  {
    ReceivedKeeps(s, how, cid, now);
    KeepsOpen(s, Received(s, how, cid, now), now, o);
  }

  lemma {:induction false} AckedSame(es: seq<Entry>, pel: set<nat>, id: nat, o: nat)
    requires forall e <- es :: e.id != id
    ensures InFlight(es, pel - {id}, o) == InFlight(es, pel, o)
  {
    if es != [] {
      var n := |es| - 1;
      assert es[n] in es && forall e <- es[..n] :: e in es;
      AckedSame(es[..n], pel, id, o);
    }
  }

  lemma {:induction false} AckedOne(es: seq<Entry>, pel: set<nat>, e: Entry, o: nat)
    requires Sorted(es) && e in es && e.id in pel
    ensures InFlight(es, pel, o) == InFlight(es, pel - {e.id}, o) + If(e.body.origin == o)
  {
    var n := |es| - 1;
    var i :| 0 <= i < |es| && es[i] == e;
    if i == n {
      forall x <- es[..n] ensures x.id != e.id {
        var j :| 0 <= j < n && es[j] == x;
      }
      AckedSame(es[..n], pel, e.id, o);
    } else {
      assert es[..n][i] == e;
      AckedOne(es[..n], pel, e, o);
    }
  }

  lemma AckOpen(s: Stream, e: Entry, o: nat)
    requires s.Valid() && e in s.entries && e.id in s.pel
    ensures Open(s, o) == Open(XAck(s, {e.id}), o) + If(e.body.origin == o)
  {
    AckedOne(s.entries, s.pel.Keys, e, o);
    assert (s.pel - {e.id}).Keys == s.pel.Keys - {e.id};
  }

  /** Acknowledging what is not pending changes nothing. */
  lemma LateAck(s: Stream, id: nat)
    requires id !in s.pel
    ensures XAck(s, {id}) == s
  {
    assert s.pel - {id} == s.pel;
  }

  lemma IdsSplit(batch: seq<Entry>)
    requires batch != [] && Sorted(batch)
    ensures var n := |batch| - 1;
            && Ids(batch) == Ids(batch[..n]) + {batch[n].id}
            && batch[n].id !in Ids(batch[..n])
            && Bodies(batch)[..n] == Bodies(batch[..n])
  {
    var n := |batch| - 1;
    assert batch == batch[..n] + [batch[n]];
    forall x <- batch[..n] ensures x.id != batch[n].id {
      var i :| 0 <= i < n && batch[i] == x;
    }
  }

  /** Entries of publication `o` in a batch that are not pending. */
  function LateOf(batch: seq<Entry>, pel: set<nat>, o: nat): nat {
    if batch == [] then 0
    else
      var n := |batch| - 1;
      LateOf(batch[..n], pel, o) + If(batch[n].id !in pel && batch[n].body.origin == o)
  }

  /** Acknowledging a batch takes its entries off the pending list, except those that were not on it. */
  lemma {:induction false} AckedAll(es: seq<Entry>, pel: set<nat>, batch: seq<Entry>, o: nat)
    requires Sorted(es) && Sorted(batch)
    requires forall i | 0 <= i < |batch| :: batch[i] in es
    ensures InFlight(es, pel, o) + LateOf(batch, pel, o)
            == InFlight(es, pel - Ids(batch), o) + CountOf(Bodies(batch), o)
  {
    hide InFlight, Sorted;
    if batch == [] {
      assert pel - Ids(batch) == pel;
    } else {
      var n := |batch| - 1;
      SortedFront(batch);
      AckedAll(es, pel, batch[..n], o);
      IdsSplit(batch);
      var left := pel - Ids(batch[..n]);
      assert left - {batch[n].id} == pel - Ids(batch);
      if batch[n].id in pel {
        AckedOne(es, left, batch[n], o);
      } else {
        assert left - {batch[n].id} == left;
      }
    }
  }

  lemma SortedFront(batch: seq<Entry>)
    requires batch != [] && Sorted(batch)
    ensures Sorted(batch[..|batch| - 1])
  {
  }

  lemma AckAllOpen(s: Stream, batch: seq<Entry>, o: nat)
    requires s.Valid() && Sorted(batch)
    requires forall e <- batch :: e in s.entries
    ensures Open(s, o) + LateOf(batch, s.pel.Keys, o) == Open(XAck(s, Ids(batch)), o) + CountOf(Bodies(batch), o)
  {
    hide Sorted, InFlight, LateOf, CountOf;
    forall i | 0 <= i < |batch| ensures batch[i] in s.entries { assert batch[i] in batch; }
    AckedAll(s.entries, s.pel.Keys, batch, o);
    assert (s.pel - Ids(batch)).Keys == s.pel.Keys - Ids(batch);
  }

  /** An entry of the batch that is not pending counts. */
  lemma {:induction false} LateCounts(batch: seq<Entry>, pel: set<nat>, e: Entry)
    requires e in batch && e.id !in pel
    ensures LateOf(batch, pel, e.body.origin) >= 1
  {
    var n := |batch| - 1;
    if batch[n] != e { LateCounts(batch[..n], pel, e); }
  }

  lemma {:induction false} NoneLate(batch: seq<Entry>, pel: set<nat>, o: nat)
    requires forall e <- batch :: e.id in pel
    ensures LateOf(batch, pel, o) == 0
  {
    if batch != [] {
      var n := |batch| - 1;
      assert batch[n] in batch && forall e <- batch[..n] :: e in batch;
      NoneLate(batch[..n], pel, o);
    }
  }

  lemma AddOpen(s: Stream, body: Body, now: nat, o: nat)
    requires s.Valid()
    ensures Open(XAdd(s, body, now), o) == Open(s, o) + If(body.origin == o)
  {
    var t := XAdd(s, body, now);
    assert t.entries[..|s.entries|] == s.entries;
    assert t.entries[|s.entries|].id > s.last;
  }

  lemma {:induction false} AddAllOpen(s: Stream, bodies: seq<Body>, now: nat, o: nat)
    requires s.Valid()
    ensures Open(XAddAll(s, bodies, now), o) == Open(s, o) + CountOf(bodies, o)
  {
    if bodies != [] {
      var n := |bodies| - 1;
      AddAllOpen(s, bodies[..n], now, o);
      XAddAllKeeps(s, bodies[..n], now);
      AddOpen(XAddAll(s, bodies[..n], now), bodies[n], now, o);
    }
  }
}
