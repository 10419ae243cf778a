/** Short runs that reach what the theorems about runs leave open: each is a list of steps from an initial state.

The attempt check and the dead-letter transaction are two commands, and so are the receiving and the committing of a
re-queue batch, so two processes can be between them for the same entry.
*/
module RedisRaces {
  import opened RedisStreams
  import opened RedisProtocol
  import opened RedisOrigins
  import opened RedisConservation
  import opened RedisLeases
  import opened RedisPull
  import opened RedisServer

  /** One subscribed stream, which is also the main stream, and the dead-letter stream; leases of 10 milliseconds. */
  function Cfg(maxAttempts: nat): Config { Config([0], 0, 1, maxAttempts, 10) }

  const BODY := Body(0, map[])
  const ENTRY := Entry(1, BODY)

  // ---- receiving from a stream with one entry ----

  function One(e: Entry, last: nat, pel: map<nat, Pending>): Stream { Stream([e], last, pel) }

  lemma ReadSingle(e: Entry, cid: nat, now: int)
    requires e.id > 0
    ensures var s := One(e, 0, map[]);
            && Batch(s, ReadNew(1), now) == [e]
            && Received(s, ReadNew(1), cid, now) == One(e, e.id, map[e.id := Pending(cid, now, 1)])
  {
    assert e in [e];
    SortedEqual(Undelivered(One(e, 0, map[])), [e]);
    assert Ids([e]) == {e.id};
    assert Received(One(e, 0, map[]), ReadNew(1), cid, now).pel == map[e.id := Pending(cid, now, 1)];
  }

  lemma ClaimSingle(e: Entry, p: Pending, minIdle: nat, cid: nat, now: int)
    requires now - p.deliveredAt >= minIdle
    ensures var s := One(e, e.id, map[e.id := p]);
            && Batch(s, AutoClaim(minIdle, 1), now) == [e]
            && Received(s, AutoClaim(minIdle, 1), cid, now) == One(e, e.id, map[e.id := Pending(cid, now, p.times + 1)])
  {
    var s := One(e, e.id, map[e.id := p]);
    assert e in [e];
    SortedEqual(Idle(s, now, minIdle), [e]);
    assert Ids([e]) == {e.id};
    assert Received(s, AutoClaim(minIdle, 1), cid, now).pel == map[e.id := Pending(cid, now, p.times + 1)];
  }

  lemma ClaimNothing(e: Entry, minIdle: nat, cid: nat, now: int)
    ensures var s := One(e, 0, map[]);
            Batch(s, AutoClaim(minIdle, 1), now) == [] && Received(s, AutoClaim(minIdle, 1), cid, now) == s
  {
    var s := One(e, 0, map[]);
    SortedEqual(Idle(s, now, minIdle), []);
    assert Received(s, AutoClaim(minIdle, 1), cid, now).pel == map[];
  }

  lemma OneWatched()
    ensures Unique([0]) == [0]
  {
    assert [0][..0] == [];
  }

  /** A consumer's fetch, when it asks one stream with one entry. */
  lemma FetchOne(st: State, m: nat, p: nat, batch: seq<Entry>, s: Stream)
    requires Enabled(Cfg(m), st, Step.Fetch(p, 1)) && |st.streams| == 2
    requires var how := FetchFrom(Cfg(m), st.consumers[p], 1).1;
             && Batch(st.streams[0], how, st.now) == batch
             && Received(st.streams[0], how, st.consumers[p].cid, st.now) == s
    ensures Apply(Cfg(m), st, Step.Fetch(p, 1))
            == st.(streams := [s, st.streams[1]],
                   consumers := st.consumers[p := st.consumers[p].(
                     phase := FetchFrom(Cfg(m), st.consumers[p], 1).2, todo := Hold(0, batch, st.now))])
  {
    hide Batch, Received, Hold;
    OneWatched();
    var (names, how, phase) := FetchFrom(Cfg(m), st.consumers[p], 1);
    assert names == [0];
    OneName(st.streams, 0, how, st.consumers[p].cid, st.now);
    assert st.streams[0 := s] == [s, st.streams[1]];
  }

  lemma RunMore(cfg: Config, st: State, steps: seq<Step>, k: nat)
    requires k < |steps|
    ensures Run(cfg, st, steps[..k + 1]) == Apply(cfg, Run(cfg, st, steps[..k]), steps[k])
  {
    assert steps[..k + 1][..k] == steps[..k];
  }

  // ---- two consumers ----

  const START := State([EMPTY, EMPTY], 0, [Consumer(0, 0, [], Waiting), Consumer(1, 0, [], Waiting)], [], [], [], [],
                       [])

  const H0 := Held(0, ENTRY, 0)
  const H1 := Held(0, ENTRY, 10)

  function Two(s: Stream, dlq: Stream, now: nat, c0: Consumer, c1: Consumer): State {
    State([s, dlq], now, [c0, c1], [], [map[]], [], [], [])
  }

  /** Publish once; the first consumer reads the entry and is slow; its lease runs out and the second claims it. */
  const PREFIX := [Publish(0, map[]), Step.Fetch(0, 1), Step.Fetch(0, 1), Tick(10), Step.Fetch(1, 1)]

  /** Both consumers hold the entry, which has been delivered twice. */
  const BOTH := Two(One(ENTRY, 1, map[1 := Pending(1, 10, 2)]), EMPTY, 10,
                    Consumer(0, 0, [H0], Waiting), Consumer(1, 1, [H1], Waiting))

  const IDLE0 := Consumer(0, 0, [], Waiting)
  const IDLE1 := Consumer(1, 0, [], Waiting)

  lemma FirstEntry()
    ensures XAdd(EMPTY, BODY, 0) == One(ENTRY, 0, map[])
  {
    assert EMPTY.entries + [ENTRY] == [ENTRY];
  }

  lemma PublishedOnce(m: nat)
    ensures Apply(Cfg(m), START, PREFIX[0]) == Two(One(ENTRY, 0, map[]), EMPTY, 0, IDLE0, IDLE1)
  {
    hide XAdd;
    FirstEntry();
    assert START.streams[0 := One(ENTRY, 0, map[])] == [One(ENTRY, 0, map[]), EMPTY];
    assert START.publications + [map[]] == [map[]];
  }

  lemma ReadOnce(m: nat)
    ensures var s := Two(One(ENTRY, 0, map[]), EMPTY, 0, IDLE0, IDLE1);
            Apply(Cfg(m), Apply(Cfg(m), s, PREFIX[1]), PREFIX[2])
            == Two(One(ENTRY, 1, map[1 := Pending(0, 0, 1)]), EMPTY, 0, Consumer(0, 0, [H0], Waiting), IDLE1)
  {
    hide Batch, Received, ApplyFetch;
    var s := Two(One(ENTRY, 0, map[]), EMPTY, 0, IDLE0, IDLE1);
    ClaimNothing(ENTRY, 10, 0, 0);
    FetchOne(s, m, 0, [], One(ENTRY, 0, map[]));
    assert Hold(0, [], 0) == [];
    var t := Two(One(ENTRY, 0, map[]), EMPTY, 0, Consumer(0, 1, [], Waiting), IDLE1);
    assert Apply(Cfg(m), s, PREFIX[1]) == t;
    ReadSingle(ENTRY, 0, 0);
    FetchOne(t, m, 0, [ENTRY], One(ENTRY, 1, map[1 := Pending(0, 0, 1)]));
    assert Hold(0, [ENTRY], 0) == [H0];
  }

  lemma ClaimedAgain(m: nat)
    ensures var s := Two(One(ENTRY, 1, map[1 := Pending(0, 0, 1)]), EMPTY, 0, Consumer(0, 0, [H0], Waiting), IDLE1);
            Apply(Cfg(m), Apply(Cfg(m), s, PREFIX[3]), PREFIX[4]) == BOTH
  {
    hide Batch, Received, ApplyFetch;
    var s := Two(One(ENTRY, 1, map[1 := Pending(0, 0, 1)]), EMPTY, 0, Consumer(0, 0, [H0], Waiting), IDLE1);
    var t := s.(now := 10);
    assert Apply(Cfg(m), s, PREFIX[3]) == t;
    ClaimSingle(ENTRY, Pending(0, 0, 1), 10, 1, 10);
    FetchOne(t, m, 1, [ENTRY], One(ENTRY, 1, map[1 := Pending(1, 10, 2)]));
    assert Hold(0, [ENTRY], 10) == [H1];
  }

  lemma PrefixRun(m: nat)
    ensures Run(Cfg(m), START, PREFIX) == BOTH
  {
    hide Apply, Run;
    StartRun(Cfg(m), START, PREFIX);
    RunMore(Cfg(m), START, PREFIX, 0);
    RunMore(Cfg(m), START, PREFIX, 1);
    RunMore(Cfg(m), START, PREFIX, 2);
    RunMore(Cfg(m), START, PREFIX, 3);
    RunMore(Cfg(m), START, PREFIX, 4);
    assert PREFIX[..5] == PREFIX;
    PublishedOnce(m);
    ReadOnce(m);
    ClaimedAgain(m);
  }

  lemma StartRun(cfg: Config, st: State, steps: seq<Step>)
    ensures Run(cfg, st, steps[..0]) == st
  {
  }

  const COPY1 := Entry(10 * SEQUENCES, BODY)
  const COPY2 := Entry(10 * SEQUENCES + 1, BODY)

  lemma Copied()
    ensures XAdd(EMPTY, BODY, 10) == One(COPY1, 0, map[])
    ensures forall last, pel :: XAdd(Stream([COPY1], last, pel), BODY, 10) == Stream([COPY1, COPY2], last, pel)
  {
    assert EMPTY.entries + [COPY1] == [COPY1];
  }

  lemma AckOnly(e: Entry, p: Pending)
    ensures RedisStreams.XAck(One(e, e.id, map[e.id := p]), {e.id}) == One(e, e.id, map[])
  {
    assert map[e.id := p] - {e.id} == map[];
  }

  /** Both check, and find two deliveries where one is allowed; both move it. */
  const DUPLICATE := [Lookup(0), Lookup(1), Move(0), Move(1)]

  const CHECKED := Two(One(ENTRY, 1, map[1 := Pending(1, 10, 2)]), EMPTY, 10, Consumer(0, 0, [], Moving(H0)),
                       Consumer(1, 1, [], Moving(H1)))
  const COPIED := Two(One(ENTRY, 1, map[]), One(COPY1, 0, map[]), 10, IDLE0, Consumer(1, 1, [], Moving(H1)))
  const TWICE := Two(One(ENTRY, 1, map[]), Stream([COPY1, COPY2], 0, map[]), 10, IDLE0, Consumer(1, 1, [], Waiting))

  lemma BothChecked()
    ensures Apply(Cfg(1), Apply(Cfg(1), BOTH, Lookup(0)), Lookup(1)) == CHECKED
  {
    assert [H0][1..] == [] && [H1][1..] == [];
  }

  lemma BothMoved()
    ensures Apply(Cfg(1), CHECKED, Move(0)) == COPIED && Apply(Cfg(1), COPIED, Move(1)) == TWICE
  {
    hide XAdd, RedisStreams.XAck;
    Copied();
    AckOnly(ENTRY, Pending(1, 10, 2));
    LateAck(One(ENTRY, 1, map[]), 1);
  }

  /** The count of a stream that has only the acknowledged entry. */
  lemma OneMoreEntry(es: seq<Entry>, e: Entry, last: nat, pel: set<nat>, o: nat)
    ensures Unread(es + [e], last, o) == Unread(es, last, o) + If(e.id > last && e.body.origin == o)
    ensures InFlight(es + [e], pel, o) == InFlight(es, pel, o) + If(e.id in pel && e.body.origin == o)
  {
    assert (es + [e])[..|es|] == es;
  }

  lemma NoneOpen(e: Entry)
    ensures Open(One(e, e.id, map[]), 0) == 0
  {
    hide Unread, InFlight;
    NothingPending();
    NoEntries(e.id);
    OneMoreEntry([], e, e.id, {}, 0);
    assert [] + [e] == [e];
  }

  lemma NoEntries(last: nat)
    ensures Unread([], last, 0) == 0 && InFlight([], {}, 0) == 0
  {
  }

  lemma NothingPending()
    ensures var pel: map<nat, Pending> := map[]; pel.Keys == {}
  {
  }

  lemma BothOpen()
    ensures Open(Stream([COPY1, COPY2], 0, map[]), 0) == 2
  {
    hide Unread, InFlight;
    NothingPending();
    NoEntries(0);
    OneMoreEntry([], COPY1, 0, {}, 0);
    OneMoreEntry([COPY1], COPY2, 0, {}, 0);
    assert [] + [COPY1] == [COPY1] && [COPY1] + [COPY2] == [COPY1, COPY2];
  }

  lemma TotalTwo(a: Stream, b: Stream, o: nat)
    ensures Total([a, b], o) == Open(a, o) + Open(b, o)
  {
    hide Open;
    assert [a, b][..1] == [a] && [a][..0] == [];
    assert Total([], o) == 0 && Total([a], o) == Open(a, o);
  }

  lemma Twice()
    ensures Places(TWICE, 0) == 2
  {
    hide Open, Total;
    TotalTwo(One(ENTRY, 1, map[]), Stream([COPY1, COPY2], 0, map[]), 0);
    NoneOpen(ENTRY);
    BothOpen();
  }

  /** One publication, two consumers, one attempt allowed: two copies in the dead-letter stream. */
  lemma TwoConsumersDuplicate()
    ensures Initial(Cfg(1), START) && |START.consumers| == 2 && START.requeuers == []
    ensures var t := Run(Cfg(1), START, PREFIX + DUPLICATE); t.Published() == 1 && Places(t, 0) == 2
  {
    hide Apply, Run, Places;
    PrefixRun(1);
    RunAppend(Cfg(1), START, PREFIX, DUPLICATE);
    RunFour(Cfg(1), BOTH, Lookup(0), Lookup(1), Move(0), Move(1));
    BothChecked();
    BothMoved();
    Twice();
  }

  lemma RunFour(cfg: Config, st: State, a: Step, b: Step, c: Step, d: Step)
    ensures Run(cfg, st, [a, b, c, d]) == Apply(cfg, Apply(cfg, Apply(cfg, Apply(cfg, st, a), b), c), d)
    ensures Run(cfg, st, [a, b]) == Apply(cfg, Apply(cfg, st, a), b)
  {
    hide Apply;
    var steps := [a, b, c, d];
    assert steps[..3] == [a, b, c] && steps[..3][..2] == [a, b] && [a, b][..1] == [a] && [a][..0] == [];
    assert Run(cfg, st, []) == st;
    assert Run(cfg, st, [a]) == Apply(cfg, st, a);
    assert Run(cfg, st, [a, b]) == Apply(cfg, Run(cfg, st, [a]), b);
    assert Run(cfg, st, [a, b, c]) == Apply(cfg, Run(cfg, st, [a, b]), c);
  }

  /** The second consumer checks the entry, and moves it to the dead-letter stream. */
  const MOVED_AWAY := [Lookup(1), Move(1)]

  lemma SecondMoves()
    ensures Apply(Cfg(1), Apply(Cfg(1), BOTH, Lookup(1)), Move(1))
            == Two(One(ENTRY, 1, map[]), One(COPY1, 0, map[]), 10, Consumer(0, 0, [H0], Waiting),
                   Consumer(1, 1, [], Waiting))
  {
    hide XAdd, RedisStreams.XAck;
    assert [H1][1..] == [];
    Copied();
    AckOnly(ENTRY, Pending(1, 10, 2));
  }

  /** With two consumers the pending lookup can find nothing: the first consumer is about to check an entry which the
      second has moved away; the check ends the consumer, and nothing is handed to the loop. */
  lemma LookupCanBeEmpty()
    ensures var t := Run(Cfg(1), START, PREFIX + MOVED_AWAY);
            && Enabled(Cfg(1), t, Lookup(0))
            && var h := t.consumers[0].todo[0];
            && h.entry.id !in t.streams[h.stream].pel
            && Apply(Cfg(1), t, Lookup(0)).consumers[0] == IDLE0
            && Apply(Cfg(1), t, Lookup(0)).handouts == []
  {
    hide Run, XAdd;
    PrefixRun(1);
    RunAppend(Cfg(1), START, PREFIX, MOVED_AWAY);
    RunFour(Cfg(1), BOTH, Lookup(1), Move(1), Move(1), Move(1));
    SecondMoves();
  }

  /** The first consumer, whose lease has run out, is handed the entry and extends its lease. */
  const LATE := [Lookup(0), Extend(0, Key(0, 1))]

  lemma LateExtension()
    ensures Apply(Cfg(2), Apply(Cfg(2), BOTH, Lookup(0)), Extend(0, Key(0, 1))).consumers
            == [Consumer(0, 0, [], Handling(H0.(since := 10), 2)), Consumer(1, 1, [H1], Waiting)]
    ensures Apply(Cfg(2), Apply(Cfg(2), BOTH, Lookup(0)), Extend(0, Key(0, 1))).now == 10
  {
    assert [H0][1..] == [];
    var t := Apply(Cfg(2), Apply(Cfg(2), BOTH, Lookup(0)), Extend(0, Key(0, 1)));
    assert t.consumers[0].todo == [] && |t.consumers| == 2;
  }

  lemma BothExclusive()
    ensures Exclusive(Cfg(2), BOTH)
  {
    assert !Live(Cfg(2), 10, H0);
    assert BOTH.consumers[0].Holds() == [H0] && BOTH.consumers[1].Holds() == [H1];
  }

  /** A late extension ends lease exclusion in a run: until then no two leases overlap, and after it two do. */
  lemma LateExtensionOverlaps()
    ensures Exclusive(Cfg(2), Run(Cfg(2), START, PREFIX))
    ensures !Exclusive(Cfg(2), Run(Cfg(2), START, PREFIX + LATE))
  {
    hide Run, Apply, Exclusive;
    PrefixRun(2);
    BothExclusive();
    RunAppend(Cfg(2), START, PREFIX, LATE);
    RunFour(Cfg(2), BOTH, Lookup(0), Extend(0, Key(0, 1)), Tick(0), Tick(0));
    LateExtension();
    var t := Run(Cfg(2), START, PREFIX + LATE);
    Overlap(t);
  }

  lemma Overlap(t: State)
    requires t.consumers == [Consumer(0, 0, [], Handling(H0.(since := 10), 2)), Consumer(1, 1, [H1], Waiting)]
             && t.now == 10
    ensures !Exclusive(Cfg(2), t)
  {
    assert H0.(since := 10) in t.consumers[0].Holds() && H1 in t.consumers[1].Holds();
    assert Live(Cfg(2), t.now, H0.(since := 10)) && Live(Cfg(2), t.now, H1) && H0.(since := 10).At() == H1.At();
  }

  // ---- two re-queue processes ----

  const R0 := Requeuer(7, false, [])
  const R1 := Requeuer(8, false, [])
  const START2 := State([EMPTY, EMPTY], 0, [IDLE0], [R0, R1], [], [], [], [])

  function Queues(s: Stream, dlq: Stream, now: nat, c: Consumer, r0: Requeuer, r1: Requeuer,
                  requeued: seq<nat>): State {
    State([s, dlq], now, [c], [r0, r1], [map[]], [], [], requeued)
  }

  /** The only consumer reads the entry and crashes; restarted, it claims the entry and moves it away. */
  const DEAD := [Publish(0, map[]), Step.Fetch(0, 1), Step.Fetch(0, 1), Crash(0, 0), Tick(10), Step.Fetch(0, 1),
                 Lookup(0), Move(0)]

  /** Both re-queue processes get the dead-lettered entry, the second by claiming it from the first; both commit. */
  const REQUEUE_TWICE := [RequeueFetch(0, 1), RequeueFetch(0, 1), RequeueFetch(1, 1), RequeueCommit(0),
                          RequeueCommit(1)]

  const BURIED := Queues(One(ENTRY, 1, map[]), One(COPY1, 0, map[]), 10, Consumer(0, 1, [], Waiting), R0, R1, [])

  lemma DeadRead()
    ensures Apply(Cfg(1), Apply(Cfg(1), Apply(Cfg(1), START2, DEAD[0]), DEAD[1]), DEAD[2])
            == Queues(One(ENTRY, 1, map[1 := Pending(0, 0, 1)]), EMPTY, 0, Consumer(0, 0, [H0], Waiting), R0, R1, [])
  {
    hide Batch, Received, ApplyFetch, XAdd;
    FirstEntry();
    var s := Queues(One(ENTRY, 0, map[]), EMPTY, 0, IDLE0, R0, R1, []);
    assert START2.streams[0 := One(ENTRY, 0, map[])] == [One(ENTRY, 0, map[]), EMPTY];
    assert START2.publications + [map[]] == [map[]];
    assert Apply(Cfg(1), START2, DEAD[0]) == s;
    ClaimNothing(ENTRY, 10, 0, 0);
    FetchOne(s, 1, 0, [], One(ENTRY, 0, map[]));
    assert Hold(0, [], 0) == [];
    var t := Queues(One(ENTRY, 0, map[]), EMPTY, 0, Consumer(0, 1, [], Waiting), R0, R1, []);
    assert Apply(Cfg(1), s, DEAD[1]) == t;
    ReadSingle(ENTRY, 0, 0);
    FetchOne(t, 1, 0, [ENTRY], One(ENTRY, 1, map[1 := Pending(0, 0, 1)]));
    assert Hold(0, [ENTRY], 0) == [H0];
  }

  const RECLAIMED := Queues(One(ENTRY, 1, map[1 := Pending(0, 10, 2)]), EMPTY, 10, Consumer(0, 1, [H1], Waiting), R0,
                            R1, [])

  lemma DeadClaimed()
    ensures var s := Queues(One(ENTRY, 1, map[1 := Pending(0, 0, 1)]), EMPTY, 0, Consumer(0, 0, [H0], Waiting), R0, R1,
                            []);
            Apply(Cfg(1), Apply(Cfg(1), Apply(Cfg(1), s, DEAD[3]), DEAD[4]), DEAD[5]) == RECLAIMED
  {
    hide Batch, Received, ApplyFetch;
    var s := Queues(One(ENTRY, 1, map[1 := Pending(0, 0, 1)]), EMPTY, 0, Consumer(0, 0, [H0], Waiting), R0, R1, []);
    var t := Queues(One(ENTRY, 1, map[1 := Pending(0, 0, 1)]), EMPTY, 10, IDLE0, R0, R1, []);
    assert Apply(Cfg(1), Apply(Cfg(1), s, DEAD[3]), DEAD[4]) == t;
    ClaimSingle(ENTRY, Pending(0, 0, 1), 10, 0, 10);
    FetchOne(t, 1, 0, [ENTRY], One(ENTRY, 1, map[1 := Pending(0, 10, 2)]));
    assert Hold(0, [ENTRY], 10) == [H1];
  }

  lemma DeadMoved()
    ensures Apply(Cfg(1), Apply(Cfg(1), RECLAIMED, DEAD[6]), DEAD[7]) == BURIED
  {
    hide XAdd, RedisStreams.XAck;
    assert [H1][1..] == [];
    Copied();
    AckOnly(ENTRY, Pending(0, 10, 2));
  }

  lemma DeadRun()
    ensures Run(Cfg(1), START2, DEAD) == BURIED
  {
    hide Apply, Run;
    StartRun(Cfg(1), START2, DEAD);
    RunMore(Cfg(1), START2, DEAD, 0);
    RunMore(Cfg(1), START2, DEAD, 1);
    RunMore(Cfg(1), START2, DEAD, 2);
    RunMore(Cfg(1), START2, DEAD, 3);
    RunMore(Cfg(1), START2, DEAD, 4);
    RunMore(Cfg(1), START2, DEAD, 5);
    RunMore(Cfg(1), START2, DEAD, 6);
    RunMore(Cfg(1), START2, DEAD, 7);
    assert DEAD[..8] == DEAD;
    DeadRead();
    DeadClaimed();
    DeadMoved();
  }

  const SHARED := Queues(One(ENTRY, 1, map[]), One(COPY1, 10 * SEQUENCES, map[10 * SEQUENCES := Pending(8, 10, 2)]), 10,
                         Consumer(0, 1, [], Waiting), Requeuer(7, true, [COPY1]), Requeuer(8, false, [COPY1]), [])

  lemma BothReceive()
    ensures Apply(Cfg(1), Apply(Cfg(1), Apply(Cfg(1), BURIED, REQUEUE_TWICE[0]), REQUEUE_TWICE[1]), REQUEUE_TWICE[2])
            == SHARED
  {
    hide Batch, Received;
    var main, c := One(ENTRY, 1, map[]), Consumer(0, 1, [], Waiting);
    var id := 10 * SEQUENCES;
    ClaimNothing(COPY1, 0, 7, 10);
    var s := Queues(main, One(COPY1, 0, map[]), 10, c, Requeuer(7, true, []), R1, []);
    assert [main, One(COPY1, 0, map[])][1 := One(COPY1, 0, map[])] == [main, One(COPY1, 0, map[])];
    assert [R0, R1][0 := Requeuer(7, true, [])] == [Requeuer(7, true, []), R1];
    assert Apply(Cfg(1), BURIED, REQUEUE_TWICE[0]) == s;
    ReadSingle(COPY1, 7, 10);
    var t := Queues(main, One(COPY1, id, map[id := Pending(7, 10, 1)]), 10, c, Requeuer(7, true, [COPY1]), R1, []);
    assert [main, One(COPY1, 0, map[])][1 := t.streams[1]] == t.streams;
    assert [Requeuer(7, true, []), R1][0 := Requeuer(7, true, [COPY1])] == t.requeuers;
    assert Apply(Cfg(1), s, REQUEUE_TWICE[1]) == t;
    ClaimSingle(COPY1, Pending(7, 10, 1), 0, 8, 10);
    assert t.streams[1 := SHARED.streams[1]] == SHARED.streams;
    assert t.requeuers[1 := Requeuer(8, false, [COPY1])] == SHARED.requeuers;
  }

  const BACK1 := Entry(10 * SEQUENCES, BODY)
  const BACK2 := Entry(10 * SEQUENCES + 1, BODY)

  function Back(es: seq<Entry>, r0: Requeuer, r1: Requeuer, requeued: seq<nat>): State {
    Queues(Stream([ENTRY] + es, 1, map[]), One(COPY1, 10 * SEQUENCES, map[]), 10, Consumer(0, 1, [], Waiting), r0, r1,
           requeued)
  }

  lemma AddBack(es: seq<Entry>, id: nat)
    requires id == NextId([ENTRY] + es, 10)
    ensures XAddAll(Stream([ENTRY] + es, 1, map[]), Bodies([COPY1]), 10)
            == Stream([ENTRY] + (es + [Entry(id, BODY)]), 1, map[])
  {
    var s := Stream([ENTRY] + es, 1, map[]);
    assert Bodies([COPY1]) == [BODY] && [BODY][..0] == [];
    assert XAddAll(s, [], 10) == s;
    assert [ENTRY] + es + [Entry(id, BODY)] == [ENTRY] + (es + [Entry(id, BODY)]);
  }

  lemma FirstCommit()
    ensures Apply(Cfg(1), SHARED, REQUEUE_TWICE[3])
            == Back([BACK1], Requeuer(7, true, []), Requeuer(8, false, [COPY1]), [0])
  {
    hide XAddAll, RedisStreams.XAck;
    AddBack([], 10 * SEQUENCES);
    assert [ENTRY] + [] == [ENTRY] && [] + [BACK1] == [BACK1];
    assert Ids([COPY1]) == {10 * SEQUENCES};
    AckOnly(COPY1, Pending(8, 10, 2));
    assert Origins(Bodies([COPY1])) == [0];
    var t := Back([BACK1], Requeuer(7, true, []), Requeuer(8, false, [COPY1]), [0]);
    assert SHARED.streams[0 := t.streams[0]][1 := t.streams[1]] == t.streams;
    assert SHARED.requeuers[0 := Requeuer(7, true, [])] == t.requeuers;
  }

  lemma SecondCommit()
    ensures Apply(Cfg(1), Back([BACK1], Requeuer(7, true, []), Requeuer(8, false, [COPY1]), [0]), REQUEUE_TWICE[4])
            == Back([BACK1, BACK2], Requeuer(7, true, []), Requeuer(8, false, []), [0, 0])
  {
    hide XAddAll, RedisStreams.XAck;
    var s := Back([BACK1], Requeuer(7, true, []), Requeuer(8, false, [COPY1]), [0]);
    var t := Back([BACK1, BACK2], Requeuer(7, true, []), Requeuer(8, false, []), [0, 0]);
    AddBack([BACK1], 10 * SEQUENCES + 1);
    assert [BACK1] + [BACK2] == [BACK1, BACK2];
    assert Ids([COPY1]) == {10 * SEQUENCES};
    LateAck(One(COPY1, 10 * SEQUENCES, map[]), 10 * SEQUENCES);
    assert Origins(Bodies([COPY1])) == [0];
    assert s.streams[0 := t.streams[0]][1 := t.streams[1]] == t.streams;
    assert s.requeuers[1 := Requeuer(8, false, [])] == t.requeuers;
  }

  const REQUEUED_TWICE := Back([BACK1, BACK2], Requeuer(7, true, []), Requeuer(8, false, []), [0, 0])

  lemma BackOpen()
    ensures Open(Stream([ENTRY, BACK1, BACK2], 1, map[]), 0) == 2
  {
    hide Unread, InFlight;
    NothingPending();
    NoEntries(1);
    OneMoreEntry([], ENTRY, 1, {}, 0);
    OneMoreEntry([ENTRY], BACK1, 1, {}, 0);
    OneMoreEntry([ENTRY, BACK1], BACK2, 1, {}, 0);
    assert [] + [ENTRY] == [ENTRY] && [ENTRY] + [BACK1] == [ENTRY, BACK1];
    assert [ENTRY, BACK1] + [BACK2] == [ENTRY, BACK1, BACK2];
  }

  lemma TwiceOnMain()
    ensures Places(REQUEUED_TWICE, 0) == 2
  {
    hide Open, Total;
    assert [ENTRY] + [BACK1, BACK2] == [ENTRY, BACK1, BACK2];
    TotalTwo(Stream([ENTRY, BACK1, BACK2], 1, map[]), One(COPY1, 10 * SEQUENCES, map[]), 0);
    BackOpen();
    NoneOpen(COPY1);
  }

  /** One publication, one consumer, two re-queue processes: two copies on the main stream. */
  lemma TwoRequeuersDuplicate()
    ensures Initial(Cfg(1), START2) && |START2.consumers| == 1 && |START2.requeuers| == 2
    ensures var t := Run(Cfg(1), START2, DEAD + REQUEUE_TWICE); t.Published() == 1 && Places(t, 0) == 2
  {
    hide Apply, Run, Places;
    DeadRun();
    RunAppend(Cfg(1), START2, DEAD, REQUEUE_TWICE);
    StartRun(Cfg(1), BURIED, REQUEUE_TWICE);
    RunMore(Cfg(1), BURIED, REQUEUE_TWICE, 0);
    RunMore(Cfg(1), BURIED, REQUEUE_TWICE, 1);
    RunMore(Cfg(1), BURIED, REQUEUE_TWICE, 2);
    RunMore(Cfg(1), BURIED, REQUEUE_TWICE, 3);
    RunMore(Cfg(1), BURIED, REQUEUE_TWICE, 4);
    assert REQUEUE_TWICE[..5] == REQUEUE_TWICE;
    BothReceive();
    FirstCommit();
    SecondCommit();
    TwiceOnMain();
  }
}
