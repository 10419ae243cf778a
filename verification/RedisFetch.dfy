/** What the receiving commands of a pull hand over, entry by entry. */
module RedisFetch {
  import opened RedisStreams
  import opened RedisProtocol
  import opened RedisInvariants

  /** The command may hand the entry over: it is undelivered, or has been pending for long enough without activity. */
  predicate Eligible(s: Stream, how: Receive, now: int, e: Entry) {
    && e in s.entries
    && match how
       case ReadNew(_) => e.id > s.last
       case AutoClaim(minIdle, _) => e.id in s.pel && now - s.pel[e.id].deliveredAt >= minIdle
  }

  function Older(s: Stream, how: Receive, now: int, e: Entry): set<Entry> {
    set x | x in s.entries && x.id < e.id && Eligible(s, how, now, x)
  }

  /** It does hand it over: fewer older entries than its count are eligible. */
  predicate Due(s: Stream, how: Receive, now: int, e: Entry) {
    Eligible(s, how, now, e) && |Older(s, how, now, e)| < how.count
  }

  /** The oldest eligible entry is handed over by every command that asks for at least one. */
  lemma OldestIsDue(s: Stream, how: Receive, now: int, e: Entry)
    requires Eligible(s, how, now, e) && how.count >= 1
    requires forall x <- s.entries :: Eligible(s, how, now, x) ==> e.id <= x.id
    ensures Due(s, how, now, e)
  {
    assert Older(s, how, now, e) == {};
  }

  /** What a receiving command makes of a stream: the entries that are due become pending for the consumer from this
      moment on, delivered once if read and once more if claimed; nothing else changes. */
  ghost predicate Delivers(s: Stream, t: Stream, how: Receive, cid: nat, now: int) {
    && t.entries == s.entries
    && forall e <- s.entries ::
         && (e.id > t.last <==> e.id > s.last && !Due(s, how, now, e))
         && if Due(s, how, now, e) then
              && e.id in t.pel && t.pel[e.id].owner == cid && t.pel[e.id].deliveredAt == now
              && t.pel[e.id].times == if how.ReadNew? then 1 else s.pel[e.id].times + 1
            else (e.id in t.pel <==> e.id in s.pel) && (e.id in s.pel ==> t.pel[e.id] == s.pel[e.id])
  }

  function All(s: Stream, how: Receive, now: int): (r: seq<Entry>)
    ensures Batch(s, how, now) == Take(r, how.count)
    ensures Sorted(s.entries) ==> Sorted(r)
  {
    match how
    case ReadNew(_) => Undelivered(s)
    case AutoClaim(minIdle, _) => Idle(s, now, minIdle)
  }

  lemma SameId(es: seq<Entry>, a: Entry, b: Entry)
    requires Sorted(es) && a in es && b in es && a.id == b.id
    ensures a == b
  {
  }

  lemma AllEligible(s: Stream, how: Receive, now: int, e: Entry)
    requires s.Valid()
    ensures e in All(s, how, now) <==> Eligible(s, how, now, e)
    ensures e in All(s, how, now) ==> e in s.entries
    ensures Sorted(All(s, how, now))
  {
    if how.ReadNew? && e in s.entries && e.id > s.last {
      assert e.id in (set x | x in s.entries && x.id > s.last :: x.id);
    }
  }

  function Members(es: seq<Entry>): set<Entry> {
    set e | e in es
  }

  lemma {:induction false} MembersCount(es: seq<Entry>)
    requires Sorted(es)
    ensures |Members(es)| == |es|
  {
    if es == [] {
      assert Members(es) == {};
    } else {
      var n := |es| - 1;
      MembersCount(es[..n]);
      assert forall e <- es[..n] :: e.id < es[n].id;
      assert es == es[..n] + [es[n]];
      assert Members(es) == Members(es[..n]) + {es[n]};
    }
  }

  lemma OlderIsPrefix(s: Stream, how: Receive, now: int, i: nat)
    requires s.Valid() && i < |All(s, how, now)|
    ensures |Older(s, how, now, All(s, how, now)[i])| == i
  {
    hide Eligible, Stream.Valid, All;
    var all := All(s, how, now);
    forall x ensures x in Older(s, how, now, all[i]) <==> x in Members(all[..i]) {
      AllEligible(s, how, now, x);
      if x in all && x.id < all[i].id {
        var j :| 0 <= j < |all| && all[j] == x;
        assert all[..i][j] == x;
      }
      if x in all[..i] {
        var j :| 0 <= j < i && all[..i][j] == x;
        assert all[j] == x;
      }
    }
    assert Older(s, how, now, all[i]) == Members(all[..i]);
    AllEligible(s, how, now, all[i]);
    MembersCount(all[..i]);
  }

  /** A batch is exactly what is due, oldest first. */
  lemma BatchIsDue(s: Stream, how: Receive, now: int, e: Entry)
    requires s.Valid()
    ensures e in Batch(s, how, now) <==> Due(s, how, now, e)
    ensures Sorted(Batch(s, how, now))
  {
    hide Eligible, Stream.Valid, All, Older, Batch;
    var all := All(s, how, now);
    AllEligible(s, how, now, e);
    if e in all {
      var i :| 0 <= i < |all| && all[i] == e;
      OlderIsPrefix(s, how, now, i);
      InTake(all, how.count, i);
    }
  }

  lemma InTake(es: seq<Entry>, count: nat, i: nat)
    requires Sorted(es) && i < |es|
    ensures es[i] in Take(es, count) <==> i < count
  {
    if i < count && count < |es| { assert es[..count][i] == es[i]; }
  }

  lemma ReceivedDelivers(s: Stream, how: Receive, cid: nat, now: int)
    requires s.Valid()
    ensures Delivers(s, Received(s, how, cid, now), how, cid, now)
  {
    hide Due, Batch;
    forall e <- s.entries
      ensures var t := Received(s, how, cid, now);
              && (e.id > t.last <==> e.id > s.last && !Due(s, how, now, e))
              && if Due(s, how, now, e) then
                   && e.id in t.pel && t.pel[e.id].owner == cid && t.pel[e.id].deliveredAt == now
                   && t.pel[e.id].times == if how.ReadNew? then 1 else s.pel[e.id].times + 1
                 else (e.id in t.pel <==> e.id in s.pel) && (e.id in s.pel ==> t.pel[e.id] == s.pel[e.id])
    {
      OneDelivered(s, how, cid, now, e);
    }
    DueShape(s, how, now);
  }

  lemma DueShape(s: Stream, how: Receive, now: int)
    ensures forall e :: Due(s, how, now, e) ==> e in s.entries && (how.AutoClaim? ==> e.id in s.pel)
  {
  }

  lemma OneDelivered(s: Stream, how: Receive, cid: nat, now: int, e: Entry)
    requires s.Valid() && e in s.entries
    ensures var t := Received(s, how, cid, now);
            && (Due(s, how, now, e) ==> (how.AutoClaim? ==> e.id in s.pel))
            && (e.id > t.last <==> e.id > s.last && !Due(s, how, now, e))
            && if Due(s, how, now, e) then
                 && e.id in t.pel && t.pel[e.id].owner == cid && t.pel[e.id].deliveredAt == now
                 && t.pel[e.id].times == if how.ReadNew? then 1 else s.pel[e.id].times + 1
               else (e.id in t.pel <==> e.id in s.pel) && (e.id in s.pel ==> t.pel[e.id] == s.pel[e.id])
  {
    hide Due;
    var batch := Batch(s, how, now);
    BatchIsDue(s, how, now, e);
    BatchPending(s, how, cid, now);
    if e.id in Ids(batch) {
      var x :| x in batch && x.id == e.id;
      SameId(s.entries, x, e);
    }
    if how.ReadNew? && e.id > s.last { ReadIsPrefix(s, how.count, e); }
    DueShape(s, how, now);
  }

  // ---- the receiving command of a pull ----

  /** Where a stream is first listed. */
  function FirstAt(names: seq<nat>, n: nat): (i: nat)
    requires n in names
    ensures i < |names| && names[i] == n && n !in names[..i]
  {
    if names[0] == n then 0
    else
      assert forall x <- names :: x == names[0] || x in names[1..];
      var i := FirstAt(names[1..], n);
      assert names[..i + 1] == [names[0]] + names[1..][..i];
      i + 1
  }

  /** Entries of one stream come oldest first, and streams in the order in which they are listed. */
  ghost predicate InListOrder(names: seq<nat>, hs: seq<Held>) {
    forall i, j | 0 <= i < j < |hs| ::
      && hs[i].stream in names && hs[j].stream in names
      && if hs[i].stream == hs[j].stream then hs[i].entry.id < hs[j].entry.id
         else FirstAt(names, hs[i].stream) < FirstAt(names, hs[j].stream)
  }

  /** What the next command of a pull gives and does, for a consumer that has sent `phase` commands of it: a claim from
      each stream in turn, then one read of all of them. */
  ghost predicate Fetched(cfg: Config, phase: nat, count: nat, before: seq<Stream>, after: seq<Stream>, cid: nat,
                          now: int, todo: seq<Held>)
    requires |after| == |before| && forall n <- cfg.watched :: n < |before|
    requires forall i | 0 <= i < |cfg.watched| :: cfg.watched[i] < |before|
  {
    var claims := phase < |cfg.watched|;
    var how := if claims then AutoClaim(cfg.visibility, count) else ReadNew(count);
    && (forall h ::
          h in todo <==>
            && (if claims then h.stream == cfg.watched[phase] else h.stream in cfg.watched)
            && h.since == now && Due(before[h.stream], how, now, h.entry))
    && InListOrder(cfg.watched, todo)
    && forall n | 0 <= n < |before| ::
         if (if claims then n == cfg.watched[phase] else n in cfg.watched)
         then Delivers(before[n], after[n], how, cid, now) else after[n] == before[n]
  }

  lemma {:induction false} UniqueOrder(names: seq<nat>, i: nat, j: nat)
    requires i < j < |Unique(names)|
    ensures FirstAt(names, Unique(names)[i]) < FirstAt(names, Unique(names)[j])
  {
    var n := |names| - 1;
    var front := Unique(names[..n]);
    var u := Unique(names);
    FirstInFront(names, u[i]);
    if j < |front| {
      UniqueOrder(names[..n], i, j);
      FirstInFront(names, u[j]);
    }
  }

  lemma FirstInFront(names: seq<nat>, n: nat)
    requires names != [] && n in names[..|names| - 1]
    ensures FirstAt(names, n) == FirstAt(names[..|names| - 1], n)
  {
    var front := names[..|names| - 1];
    var i, j := FirstAt(names, n), FirstAt(front, n);
    assert names[j] == n;
  }

  lemma HoldOrder(stream: nat, batch: seq<Entry>, now: int, i: nat, j: nat)
    requires Sorted(batch) && i < j < |batch|
    ensures Hold(stream, batch, now)[i].entry.id < Hold(stream, batch, now)[j].entry.id
  {
    assert forall k | 0 <= k < |batch| :: Hold(stream, batch, now)[k] == Held(stream, batch[k], now);
  }

  lemma HoldAt(stream: nat, batch: seq<Entry>, now: int, i: nat)
    requires i < |batch|
    ensures Hold(stream, batch, now)[i] == Held(stream, batch[i], now)
  {
  }

  /** The batches of different streams, one after the other. */
  lemma {:induction false} GatherOrder(offers: seq<seq<Entry>>, names: seq<nat>, all: seq<nat>, now: int)
    requires forall n <- names :: n < |offers| && n in all && Sorted(offers[n])
    requires forall i, j | 0 <= i < j < |names| :: FirstAt(all, names[i]) < FirstAt(all, names[j])
    ensures InListOrder(all, Gather(offers, names, now))
  {
    if names != [] {
      var n := |names| - 1;
      assert names[n] in names && forall x <- names[..n] :: x in names;
      GatherOrder(offers, names[..n], all, now);
      var front, back := Gather(offers, names[..n], now), Hold(names[n], offers[names[n]], now);
      forall h <- front ensures FirstAt(all, h.stream) < FirstAt(all, names[n]) {
        var k :| 0 <= k < n && names[..n][k] == h.stream;
        assert names[k] == h.stream;
      }
      JoinOrder(all, front, back, names[n], offers[names[n]], now);
    }
  }

  lemma JoinOrder(all: seq<nat>, front: seq<Held>, back: seq<Held>, name: nat, batch: seq<Entry>, now: int)
    requires InListOrder(all, front) && name in all && Sorted(batch) && back == Hold(name, batch, now)
    requires forall h <- front :: h.stream in all && FirstAt(all, h.stream) < FirstAt(all, name)
    ensures InListOrder(all, front + back)
  {
    hide FirstAt, Hold;
    var hs := front + back;
    forall i, j | 0 <= i < j < |hs|
      ensures hs[i].stream in all && hs[j].stream in all
      ensures if hs[i].stream == hs[j].stream then hs[i].entry.id < hs[j].entry.id
              else FirstAt(all, hs[i].stream) < FirstAt(all, hs[j].stream)
    {
      if j < |front| {
        assert hs[i] == front[i] && hs[j] == front[j];
      } else {
        HoldAt(name, batch, now, j - |front|);
        if i < |front| { assert hs[i] in front; } else { HoldAt(name, batch, now, i - |front|); }
      }
    }
  }

  /** Every fetch of the protocol is such a command. */
  lemma FetchMeaning(cfg: Config, st: State, p: nat, count: nat)
    requires Sound(cfg, st) && Enabled(cfg, st, Fetch(p, count)) && st.consumers[p].phase <= |cfg.watched|
    ensures |Apply(cfg, st, Fetch(p, count)).streams| == |st.streams| && p < |Apply(cfg, st, Fetch(p, count)).consumers|
    ensures forall i | 0 <= i < |cfg.watched| :: cfg.watched[i] < |st.streams|
    ensures var t := Apply(cfg, st, Fetch(p, count));
            var c := st.consumers[p];
            Fetched(cfg, c.phase, count, st.streams, t.streams, c.cid, st.now, t.consumers[p].todo)
  {
    hide Batch, Received, Due, Stream.Valid, Gather, Unique, InListOrder, FirstAt, Delivers;
    var c := st.consumers[p];
    var (names, how, phase) := FetchFrom(cfg, c, count);
    assert forall i | 0 <= i < |cfg.watched| :: cfg.watched[i] in cfg.watched;
    var offers := Offers(st.streams, how, st.now);
    forall n | 0 <= n < |st.streams|
      ensures Delivers(st.streams[n], Received(st.streams[n], how, c.cid, st.now), how, c.cid, st.now)
      ensures Sorted(offers[n]) && forall e :: e in offers[n] <==> Due(st.streams[n], how, st.now, e)
    {
      assert StreamOk(st.streams[n], st.now);
      ReceivedDelivers(st.streams[n], how, c.cid, st.now);
      forall e ensures e in offers[n]
          <==> Due(st.streams[n], how, st.now, e) { BatchIsDue(st.streams[n], how, st.now, e); }
      BatchIsDue(st.streams[n], how, st.now, Entry(0, Body(0, map[])));
    }
    NamesInOrder(cfg, c, count);
    GatherOrder(offers, names, cfg.watched, st.now);
  }

  lemma NamesInOrder(cfg: Config, c: Consumer, count: nat)
    ensures var names := FetchFrom(cfg, c, count).0;
            forall i, j | 0 <= i < j < |names| :: FirstAt(cfg.watched, names[i]) < FirstAt(cfg.watched, names[j])
  {
    hide FirstAt;
    if c.phase >= |cfg.watched| {
      var names := Unique(cfg.watched);
      forall i, j | 0 <= i < j < |names|
        ensures FirstAt(cfg.watched, names[i]) < FirstAt(cfg.watched, names[j])
      {
        UniqueOrder(cfg.watched, i, j);
      }
    }
  }
}
