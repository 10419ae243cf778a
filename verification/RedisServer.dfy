/** The server as an object, and what one turn of a re-queueing loop does to a stream. */
module RedisServer {
  import opened RedisStreams
  import opened RedisProtocol

  datatype Command = Add(stream: nat, body: Body) | Ack(stream: nat, ids: set<nat>)

  function Execute1(streams: seq<Stream>, c: Command, now: nat): seq<Stream>
    requires c.stream < |streams|
  {
    match c
    case Add(i, body) => streams[i := XAdd(streams[i], body, now)]
    case Ack(i, ids) => streams[i := RedisStreams.XAck(streams[i], ids)]
  }

  /** A pipeline runs as one MULTI/EXEC transaction. */
  function Execute(streams: seq<Stream>, commands: seq<Command>, now: nat): (r: seq<Stream>)
    requires forall c <- commands :: c.stream < |streams|
    ensures |r| == |streams|
  {
    if commands == [] then streams
    else
      var n := |commands| - 1;
      assert commands[n] in commands && forall c <- commands[..n] :: c in commands;
      Execute1(Execute(streams, commands[..n], now), commands[n], now)
  }

  lemma ExecuteMore(streams: seq<Stream>, commands: seq<Command>, c: Command, now: nat)
    requires (forall x <- commands :: x.stream < |streams|) && c.stream < |streams|
    ensures forall x <- commands + [c] :: x.stream < |streams|
    ensures Execute(streams, commands + [c], now) == Execute1(Execute(streams, commands, now), c, now)
  {
    hide Execute1;
    assert (commands + [c])[..|commands|] == commands;
  }

  class Redis {
    var streams: seq<Stream>
    var now: nat

    constructor (streams: seq<Stream>, now: nat)
      ensures this.streams == streams && this.now == now
    {
      this.streams, this.now := streams, now;
    }

    /** Time passes. */
    method Advance(ms: nat)
      modifies this`now
      ensures now == old(now) + ms
    {
      now := now + ms;
    }

    method XAutoClaim(name: nat, cid: nat, minIdle: nat, count: nat) returns (batch: seq<Entry>)
      requires name < |streams|
      modifies this`streams
      ensures batch == Batch(old(streams)[name], AutoClaim(minIdle, count), now)
      ensures streams == old(streams)[name := Received(old(streams)[name], AutoClaim(minIdle, count), cid, now)]
    {
      batch := Batch(streams[name], AutoClaim(minIdle, count), now);
      streams := streams[name := Reclaim(streams[name], Ids(batch), cid, now)];
    }

    method XReadGroup(name: nat, cid: nat, count: nat) returns (batch: seq<Entry>)
      requires name < |streams|
      modifies this`streams
      ensures batch == Batch(old(streams)[name], ReadNew(count), now)
      ensures streams == old(streams)[name := Received(old(streams)[name], ReadNew(count), cid, now)]
    {
      batch := Batch(streams[name], ReadNew(count), now);
      streams := streams[name := Received(streams[name], ReadNew(count), cid, now)];
    }

    /** XREADGROUP on several streams.  On streams in order, what it returns had not been delivered, and is pending for
        the reader afterwards. */
    method XReadGroupAll(names: seq<nat>, cid: nat, count: nat) returns (entries: seq<Held>)
      requires forall n <- names :: n < |streams|
      modifies this`streams
      ensures entries == Gather(Offers(old(streams), ReadNew(count), now), names, now)
      ensures streams == ReceivedAll(old(streams), names, ReadNew(count), cid, now)
      ensures (forall n <- names :: old(streams)[n].Valid()) ==>
                forall h <- entries ::
                  && h.stream in names && h.entry in old(streams)[h.stream].entries
                  && h.entry.id > old(streams)[h.stream].last
                  && h.entry.id in streams[h.stream].pel && streams[h.stream].pel[h.entry.id] == Pending(cid, now, 1)
    {
      hide Batch, Received;
      ghost var before := streams;
      entries := Gather(Offers(streams, ReadNew(count), now), names, now);
      streams := ReceivedAll(streams, names, ReadNew(count), cid, now);
      forall h <- entries | before[h.stream].Valid()
        ensures ReadFrom(before[h.stream], streams[h.stream], cid, now, h.entry)
      {
        assert h.entry in Offers(before, ReadNew(count), now)[h.stream];
        ReadIsNew(before[h.stream], count, cid, now, h.entry);
      }
    }

    /** The pending line of one entry.  For an entry that has been delivered there is none exactly when it is no longer
        outstanding. */
    method XPendingRange(name: nat, id: nat) returns (lines: seq<Pending>)
      requires name < |streams|
      ensures |lines| <= 1 && forall line <- lines :: id in streams[name].pel && line == streams[name].pel[id]
      ensures id <= streams[name].last ==> (lines == [] <==> !streams[name].Outstanding(id))
      ensures id > streams[name].last && streams[name].Valid() ==> lines == []
    {
      lines := if id in streams[name].pel then [streams[name].pel[id]] else [];
    }

    /** Whoever owns the entry: if it has been delivered it is not outstanding any more, and nothing else changes. */
    method XAck(name: nat, id: nat) returns (acked: bool)
      requires name < |streams|
      modifies this`streams
      ensures acked <==> id in old(streams)[name].pel
      ensures streams == old(streams)[name := RedisStreams.XAck(old(streams)[name], {id})]
      ensures forall i: nat :: streams[name].Outstanding(i)
                               <==> old(streams)[name].Outstanding(i) && (i != id || i > old(streams)[name].last)
    {
      acked := id in streams[name].pel;
      streams := streams[name := RedisStreams.XAck(streams[name], {id})];
    }

    /** If the entry is pending, nobody can claim it before it has been idle again for as long as a claim asks for; its
        delivery count stays, and so does what is outstanding. */
    method XClaim(name: nat, cid: nat, id: nat)
      requires name < |streams|
      modifies this`streams
      ensures streams == old(streams)[name := XClaimJustId(old(streams)[name], cid, now, id)]
      ensures forall i: nat :: streams[name].Outstanding(i) <==> old(streams)[name].Outstanding(i)
      ensures forall i <- streams[name].pel :: streams[name].pel[i].times == old(streams)[name].pel[i].times
      ensures id in old(streams)[name].pel ==>
                forall minIdle: nat, count: nat, later: int | later - now < minIdle ::
                  forall e <- Batch(streams[name], AutoClaim(minIdle, count), later) :: e.id != id
    {
      streams := streams[name := XClaimJustId(streams[name], cid, now, id)];
    }

    method Pipeline(commands: seq<Command>)
      requires forall c <- commands :: c.stream < |streams|
      modifies this`streams
      ensures streams == Execute(old(streams), commands, now)
    {
      ghost var before := streams;
      for i := 0 to |commands|
        invariant |streams| == |before|
        invariant streams == Execute(before, commands[..i], now)
      {
        assert commands[..i + 1][..i] == commands[..i] && commands[i] in commands;
        streams := Execute1(streams, commands[i], now);
      }
      assert commands[..|commands|] == commands;
    }
  }

  /** The entry was undelivered in `s`, and in `t` it is pending, delivered once at this moment. */
  ghost predicate ReadFrom(s: Stream, t: Stream, cid: nat, now: int, e: Entry) {
    && e in s.entries && e.id > s.last
    && e.id in t.pel && t.pel[e.id] == Pending(cid, now, 1)
  }

  lemma ReadIsNew(s: Stream, count: nat, cid: nat, now: int, e: Entry)
    requires s.Valid() && e in Batch(s, ReadNew(count), now)
    ensures ReadFrom(s, Received(s, ReadNew(count), cid, now), cid, now, e)
  {
    BatchPending(s, ReadNew(count), cid, now);
  }

  // ---- re-queueing ----

  /** Sorted streams with the same entries are the same. */
  lemma {:induction false} SortedEqual(a: seq<Entry>, b: seq<Entry>)
    requires Sorted(a) && Sorted(b) && forall e :: e in a <==> e in b
    ensures a == b
  {
    if a == [] {
      assert forall i | 0 <= i < |b| :: b[i] in a;
    } else {
      assert a[0] in b;
      var i :| 0 <= i < |b| && b[i] == a[0];
      assert b[0] in a;
      var j :| 0 <= j < |a| && a[j] == b[0];
      assert i == 0;
      forall e ensures e in a[1..] <==> e in b[1..] { TailMember(a, e); TailMember(b, e); }
      SortedEqual(a[1..], b[1..]);
    }
  }

  lemma TailMember(a: seq<Entry>, e: Entry)
    requires Sorted(a) && a != []
    ensures e in a[1..] <==> e in a && e != a[0]
  {
    if e in a && e != a[0] {
      var i :| 0 <= i < |a| && a[i] == e;
      assert a[1..][i - 1] == e;
    }
  }

  lemma InRest(a: seq<Entry>, n: nat, e: Entry)
    requires Sorted(a) && n <= |a|
    ensures e in a[n..] <==> e in a && e.id !in Ids(a[..n])
  {
    if e in a[n..] {
      var i :| n <= i < |a| && a[i] == e;
      forall b <- a[..n] ensures b.id != e.id {
        var j :| 0 <= j < n && a[j] == b;
      }
    }
    if e in a && e.id !in Ids(a[..n]) {
      var i :| 0 <= i < |a| && a[i] == e;
      forall j | 0 <= j < n ensures a[j].id in Ids(a[..n]) { assert a[..n][j] == a[j]; }
      assert a[n..][i - n] == e;
    }
  }

  /** The entries on the pending list, oldest first. */
  function PendingEntries(s: Stream): seq<Entry> {
    Only(s.entries, s.pel.Keys)
  }

  function Rest(es: seq<Entry>, count: nat): seq<Entry> {
    if |es| <= count then [] else es[count..]
  }

  lemma TakeRest(es: seq<Entry>, count: nat)
    ensures Take(es, count) + Rest(es, count) == es
  {
  }

  lemma RestMember(es: seq<Entry>, count: nat, e: Entry)
    requires Sorted(es)
    ensures e in Rest(es, count) <==> e in es && e.id !in Ids(Take(es, count))
  {
    if |es| <= count { assert es[..|es|] == es; InRest(es, |es|, e); } else { InRest(es, count, e); }
  }

  lemma OnlyRest(es: seq<Entry>, ids: set<nat>, count: nat)
    requires Sorted(es)
    ensures var all := Only(es, ids); Only(es, ids - Ids(Take(all, count))) == Rest(all, count)
  {
    var all := Only(es, ids);
    var left := Only(es, ids - Ids(Take(all, count)));
    forall e ensures e in left <==> e in Rest(all, count) { RestMember(all, count, e); }
    SortedEqual(left, Rest(all, count));
  }

  lemma ClaimBatch(s: Stream, now: int, count: nat)
    requires s.Valid() && forall id <- s.pel :: s.pel[id].deliveredAt <= now
    ensures Batch(s, AutoClaim(0, count), now) == Take(PendingEntries(s), count)
  {
    SortedEqual(Idle(s, now, 0), PendingEntries(s));
  }

  lemma ClaimKeys(s: Stream, ids: set<nat>, cid: nat, now: int)
    ensures var t := XAck(Reclaim(s, ids, cid, now), ids);
            t.entries == s.entries && t.last == s.last && t.pel.Keys == s.pel.Keys - ids
  {
  }

  /** One turn of the claiming loop: the oldest pending entries go, the rest stay pending. */
  lemma ClaimTurn(s: Stream, cid: nat, now: int, count: nat)
    requires s.Valid() && forall id <- s.pel :: s.pel[id].deliveredAt <= now
    ensures var how := AutoClaim(0, count);
            var batch := Batch(s, how, now);
            var t := XAck(Received(s, how, cid, now), Ids(batch));
            && batch == Take(PendingEntries(s), count)
            && PendingEntries(t) == Rest(PendingEntries(s), count)
            && t.entries == s.entries && t.last == s.last && t.pel.Keys == s.pel.Keys - Ids(batch)
  {
    ClaimBatch(s, now, count);
    ClaimKeys(s, Ids(Batch(s, AutoClaim(0, count), now)), cid, now);
    OnlyRest(s.entries, s.pel.Keys, count);
  }

  lemma ReadMember(s: Stream, count: nat, cid: nat, now: int, e: Entry)
    requires s.Valid()
    ensures var t := Received(s, ReadNew(count), cid, now);
            e in Undelivered(t) <==> e in Undelivered(s) && e.id !in Ids(Take(Undelivered(s), count))
  {
    var batch := Take(Undelivered(s), count);
    ReadIds(s, count);
    if e in s.entries && e.id > s.last { ReadIsPrefix(s, count, e); }
  }

  lemma ReadLeaves(s: Stream, count: nat, cid: nat, now: int)
    requires s.Valid()
    ensures Undelivered(Received(s, ReadNew(count), cid, now)) == Rest(Undelivered(s), count)
  {
    hide Received, Take;
    var all := Undelivered(s);
    var left := Undelivered(Received(s, ReadNew(count), cid, now));
    forall e ensures e in left <==> e in Rest(all, count) {
      ReadMember(s, count, cid, now, e);
      RestMember(all, count, e);
    }
    ReceivedEntries(s, count, cid, now);
    SortedEqual(left, Rest(all, count));
  }

  lemma ReceivedEntries(s: Stream, count: nat, cid: nat, now: int)
    ensures var t := Received(s, ReadNew(count), cid, now);
            && t.entries == s.entries
            && t.pel.Keys == s.pel.Keys + Ids(Take(Undelivered(s), count))
  {
  }

  /** One turn of the reading loop: the oldest undelivered entries go, the rest stay undelivered. */
  lemma ReadTurn(s: Stream, cid: nat, now: int, count: nat)
    requires s.Valid()
    ensures var how := ReadNew(count);
            var batch := Batch(s, how, now);
            var t := XAck(Received(s, how, cid, now), Ids(batch));
            && batch == Take(Undelivered(s), count)
            && Undelivered(t) == Rest(Undelivered(s), count)
            && t.entries == s.entries && t.pel.Keys <= s.pel.Keys
  {
    hide Received, Take;
    ReadLeaves(s, count, cid, now);
    ReceivedEntries(s, count, cid, now);
    var r := Received(s, ReadNew(count), cid, now);
    var batch := Batch(s, ReadNew(count), now);
    assert XAck(r, Ids(batch)).entries == r.entries && XAck(r, Ids(batch)).last == r.last;
    assert Undelivered(XAck(r, Ids(batch))) == Undelivered(r);
  }
}
