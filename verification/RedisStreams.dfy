/** Redis Streams as one consumer group sees them: the commands the backend sends, as functions on values.

Every command is atomic, so one function application is one command.  A stream entry id (milliseconds and a
64-bit sequence number) is one number, so that ids compare as Redis compares them.
*/
module RedisStreams {

  type Fields = map<string, string>

  /** What XADD stores.  `origin` numbers the publication the fields came from; it travels with the fields when
      they are copied to another stream, and no command or branch depends on it. */
  datatype Body = Body(origin: nat, fields: Fields)

  datatype Entry = Entry(id: nat, body: Body)

  /** One line of the group's pending entries list. */
  datatype Pending = Pending(owner: nat, deliveredAt: int, times: nat)

  /** A stream with its group: all entries ever added, the last delivered id, and the pending entries list. */
  datatype Stream = Stream(entries: seq<Entry>, last: nat, pel: map<nat, Pending>) {
    ghost predicate Valid() {
      && Sorted(entries)
      && last <= TopId(entries)
      && (forall id <- pel :: id <= last && HasId(entries, id) && pel[id].times >= 1)
    }

    /** Not delivered yet, or delivered and not acknowledged. */
    predicate Outstanding(id: nat) {
      id > last || id in pel
    }
  }

  const EMPTY := Stream([], 0, map[])

  predicate Sorted(es: seq<Entry>) {
    forall i, j | 0 <= i < j < |es| :: es[i].id < es[j].id
  }

  predicate HasId(es: seq<Entry>, id: nat) {
    exists e <- es :: e.id == id
  }

  function TopId(es: seq<Entry>): nat {
    if es == [] then 0 else es[|es| - 1].id
  }

  function Ids(es: seq<Entry>): (ids: set<nat>)
    ensures forall e <- es :: e.id in ids
  {
    set e | e in es :: e.id
  }

  function Bodies(es: seq<Entry>): (bodies: seq<Body>)
    ensures |bodies| == |es|
  {
    seq(|es|, i requires 0 <= i < |es| => es[i].body)
  }

  /** The entries whose id is in `ids`, in stream order. */
  function Only(es: seq<Entry>, ids: set<nat>): (r: seq<Entry>)
    ensures forall e :: e in r <==> e in es && e.id in ids
    ensures Sorted(es) ==> Sorted(r)
  {
    if es == [] then []
    else
      assert Sorted(es) ==> Sorted(es[1..]);
      assert forall e :: e in es <==> e == es[0] || e in es[1..];
      var rest := Only(es[1..], ids);
      if es[0].id in ids then [es[0]] + rest else rest
  }

  function Take(es: seq<Entry>, count: nat): (r: seq<Entry>)
    ensures forall e <- r :: e in es
    ensures Sorted(es) ==> Sorted(r)
    ensures r == [] <==> es == [] || count == 0
  {
    if |es| <= count then es else es[..count]
  }

  /** Undelivered entries, oldest first. */
  function Undelivered(s: Stream): seq<Entry> {
    Only(s.entries, set e | e in s.entries && e.id > s.last :: e.id)
  }

  /** Pending entries that have been idle for at least `minIdle` milliseconds, oldest first. */
  function Idle(s: Stream, now: int, minIdle: nat): seq<Entry> {
    Only(s.entries, set id | id in s.pel && now - s.pel[id].deliveredAt >= minIdle)
  }

  // ---- commands ----

  const SEQUENCES: nat := 0x1_0000_0000_0000_0000

  /** The id XADD * generates: the clock if it has moved past the newest entry, else the next sequence number. */
  function NextId(es: seq<Entry>, now: nat): (id: nat)
    ensures id > TopId(es)
  {
    if now * SEQUENCES > TopId(es) then now * SEQUENCES else TopId(es) + 1
  }

  function XAdd(s: Stream, body: Body, now: nat): Stream {
    s.(entries := s.entries + [Entry(NextId(s.entries, now), body)])
  }

  /** Several XADDs in one transaction. */
  function XAddAll(s: Stream, bodies: seq<Body>, now: nat): Stream {
    if bodies == [] then s
    else XAdd(XAddAll(s, bodies[..|bodies| - 1], now), bodies[|bodies| - 1], now)
  }

  function XAck(s: Stream, ids: set<nat>): Stream {
    s.(pel := s.pel - ids)
  }

  /** XCLAIM with JUSTID and minimum idle time 0: restarts the idle clock and changes the owner, nothing else.
      An id that is not pending is not claimed. */
  function XClaimJustId(s: Stream, cid: nat, now: int, id: nat): Stream {
    if id in s.pel then s.(pel := s.pel[id := Pending(cid, now, s.pel[id].times)]) else s
  }

  /** The two commands that hand entries to a consumer. */
  datatype Receive = AutoClaim(minIdle: nat, count: nat) | ReadNew(count: nat)

  function Batch(s: Stream, how: Receive, now: int): seq<Entry> {
    match how
    case AutoClaim(minIdle, count) => Take(Idle(s, now, minIdle), count)
    case ReadNew(count) => Take(Undelivered(s), count)
  }

  /** The pending lines `ids` change hands: new owner, idle clock restarted, delivery count incremented. */
  function Reclaim(s: Stream, ids: set<nat>, cid: nat, now: int): Stream {
    s.(pel := map id | id in s.pel :: if id in ids then Pending(cid, now, s.pel[id].times + 1) else s.pel[id])
  }

  function Received(s: Stream, how: Receive, cid: nat, now: int): Stream {
    var batch := Batch(s, how, now);
    var ids := Ids(batch);
    match how
    case AutoClaim(_, _) => Reclaim(s, ids, cid, now)
    case ReadNew(_) =>
      s.(last := if batch == [] then s.last else TopId(batch),
         pel := s.pel + map id | id in ids :: Pending(cid, now, 1))
  }

  // ---- what every command keeps ----

  /** How a stream may change: entries are only appended, delivery only moves forward, and an entry that has been
      delivered can lose its pending line but never get one back. */
  ghost predicate Grows(s: Stream, t: Stream) {
    && s.entries <= t.entries
    && s.last <= t.last
    && (forall id <- t.pel :: id in s.pel || id > s.last)
    && (forall id <- t.pel | id in s.pel ::
          s.pel[id].times <= t.pel[id].times && s.pel[id].deliveredAt <= t.pel[id].deliveredAt)
  }

  lemma SortedIds(es: seq<Entry>, a: Entry, b: Entry)
    requires Sorted(es) && a in es && b in es && a.id == b.id
    ensures a == b
  {
    var i :| 0 <= i < |es| && es[i] == a;
    var j :| 0 <= j < |es| && es[j] == b;
    assert !(i < j) && !(j < i);
  }

  lemma BelowTop(es: seq<Entry>, e: Entry)
    requires Sorted(es) && e in es
    ensures e.id <= TopId(es)
  {
    var i :| 0 <= i < |es| && es[i] == e;
  }

  lemma XAddKeeps(s: Stream, body: Body, now: nat)
    requires s.Valid()
    ensures XAdd(s, body, now).Valid() && Grows(s, XAdd(s, body, now))
  {
    var t := XAdd(s, body, now);
    forall i, j | 0 <= i < j < |t.entries| ensures t.entries[i].id < t.entries[j].id {
      if j == |s.entries| { BelowTop(s.entries, s.entries[i]); }
    }
    forall id <- s.pel ensures HasId(t.entries, id) {
      var e :| e in s.entries && e.id == id;
      assert e in t.entries;
    }
  }

  lemma GrowsTwice(s: Stream, t: Stream, u: Stream)
    requires s.Valid() && Grows(s, t) && Grows(t, u)
    ensures Grows(s, u)
  {
  }

  lemma GrowsRefl(s: Stream)
    ensures Grows(s, s)
  {
  }

  lemma XAddOne(s: Stream, body: Body, now: nat)
    ensures var t := XAdd(s, body, now);
            && t.last == s.last && t.pel == s.pel && |t.entries| == |s.entries| + 1 && s.entries <= t.entries
            && Bodies(t.entries) == Bodies(s.entries) + [body]
            && t.entries[|s.entries|].id == TopId(t.entries) > TopId(s.entries)
  {
    var t := XAdd(s, body, now);
    assert t.entries[..|s.entries|] == s.entries;
  }

  lemma TopAboveLast(s: Stream)
    requires s.Valid()
    ensures s.last <= TopId(s.entries)
  {
  }

  lemma {:induction false} XAddAllKeeps(s: Stream, bodies: seq<Body>, now: nat)
    requires s.Valid()
    ensures var t := XAddAll(s, bodies, now);
            && t.Valid() && Grows(s, t) && t.last == s.last && t.pel == s.pel
            && |t.entries| == |s.entries| + |bodies|
            && Bodies(t.entries) == Bodies(s.entries) + bodies
            && TopId(t.entries) >= TopId(s.entries)
            && forall i | |s.entries| <= i < |t.entries| :: t.entries[i].id > s.last
  {
    hide Stream.Valid, Grows, XAdd, Bodies, TopId;
    TopAboveLast(s);
    if bodies == [] {
      GrowsRefl(s);
    } else {
      var n := |bodies| - 1;
      var u := XAddAll(s, bodies[..n], now);
      XAddAllKeeps(s, bodies[..n], now);
      XAddKeeps(u, bodies[n], now);
      XAddOne(u, bodies[n], now);
      GrowsTwice(s, u, XAdd(u, bodies[n], now));
      assert bodies == bodies[..n] + [bodies[n]];
    }
  }

  lemma XAckKeeps(s: Stream, ids: set<nat>)
    requires s.Valid()
    ensures XAck(s, ids).Valid() && Grows(s, XAck(s, ids))
  {
  }

  lemma XClaimKeeps(s: Stream, cid: nat, now: int, id: nat)
    requires s.Valid() && (id in s.pel ==> s.pel[id].deliveredAt <= now)
    ensures var t := XClaimJustId(s, cid, now, id); t.Valid() && Grows(s, t) && t.pel.Keys == s.pel.Keys
  {
  }

  /** A new read takes the oldest undelivered entries: everything it leaves is newer than everything it took. */
  lemma ReadIsPrefix(s: Stream, count: nat, e: Entry)
    requires s.Valid() && e in s.entries && e.id > s.last
    ensures var batch := Take(Undelivered(s), count);
            e in batch || batch == [] || e.id > TopId(batch)
  {
    var us := Undelivered(s);
    assert e in us;
    var i :| 0 <= i < |us| && us[i] == e;
    if |us| > count > 0 && i >= count {
      assert us[count - 1].id < us[i].id;
    }
  }

  /** What both receiving commands keep: receiving never makes an entry stop being outstanding, nor an
      acknowledged one outstanding again. */
  ghost predicate Keeps(s: Stream, t: Stream, now: int) {
    && t.Valid() && Grows(s, t) && t.entries == s.entries
    && (forall e <- s.entries :: s.Outstanding(e.id) <==> t.Outstanding(e.id))
    && (forall id <- t.pel :: t.pel[id].deliveredAt <= now)
  }

  lemma ReclaimKeeps(s: Stream, ids: set<nat>, cid: nat, now: int)
    requires s.Valid() && (forall id <- s.pel :: s.pel[id].deliveredAt <= now)
    ensures Keeps(s, Reclaim(s, ids, cid, now), now)
  {
  }

  lemma ReadIds(s: Stream, count: nat)
    requires s.Valid()
    ensures var batch := Take(Undelivered(s), count);
            && (forall e <- batch :: e in s.entries && s.last < e.id <= TopId(batch))
            && (batch != [] ==> s.last < TopId(batch) <= TopId(s.entries))
  {
    var batch := Take(Undelivered(s), count);
    forall e <- batch ensures e in s.entries && s.last < e.id <= TopId(batch) { BelowTop(batch, e); }
    if batch != [] {
      assert batch[|batch| - 1] in s.entries;
      BelowTop(s.entries, batch[|batch| - 1]);
    }
  }

  lemma ReadKeeps(s: Stream, count: nat, cid: nat, now: int)
    requires s.Valid() && (forall id <- s.pel :: s.pel[id].deliveredAt <= now)
    ensures Keeps(s, Received(s, ReadNew(count), cid, now), now)
  {
    hide Undelivered, Only, Take, Sorted;
    ReadIds(s, count);
    var t := Received(s, ReadNew(count), cid, now);
    var batch := Take(Undelivered(s), count);
    forall id <- t.pel ensures id <= t.last && HasId(t.entries, id) {
      if id !in s.pel {
        var e :| e in batch && e.id == id;
        assert e in s.entries;
      }
    }
    forall e <- s.entries ensures s.Outstanding(e.id) <==> t.Outstanding(e.id) {
      if e.id > s.last { ReadIsPrefix(s, count, e); }
    }
  }

  /** Every entry in the batch is pending afterwards, claimed at this moment. */
  lemma BatchPending(s: Stream, how: Receive, cid: nat, now: int)
    requires s.Valid()
    ensures var t := Received(s, how, cid, now);
            forall e <- Batch(s, how, now) ::
              && e in s.entries && e.id <= t.last
              && e.id in t.pel && t.pel[e.id].owner == cid && t.pel[e.id].deliveredAt == now
              && t.pel[e.id].times == (if how.ReadNew? then 1 else if e.id in s.pel then s.pel[e.id].times + 1 else 0)
              && (e.id in s.pel <==> how.AutoClaim?)
              && (how.AutoClaim? ==> e.id in s.pel && now - s.pel[e.id].deliveredAt >= how.minIdle)
              && (how.ReadNew? ==> e.id > s.last)
  {
    if how.ReadNew? { ReadIds(s, how.count); }
  }

  lemma ReceivedKeeps(s: Stream, how: Receive, cid: nat, now: int)
    requires s.Valid() && (forall id <- s.pel :: s.pel[id].deliveredAt <= now)
    ensures Keeps(s, Received(s, how, cid, now), now)
  {
    match how
    case AutoClaim(minIdle, count) => ReclaimKeeps(s, Ids(Batch(s, how, now)), cid, now);
    case ReadNew(count) => ReadKeeps(s, count, cid, now);
  }
}
