/** `requeue_dead_letter` of the Redis backend: its two loops, proved to empty the dead-letter stream.  Whatever they do
is a run of a re-queue process of the protocol, so everything proved about runs holds of it. */
module RedisRequeue {
  import opened RedisStreams
  import opened RedisProtocol
  import opened RedisServer

  ghost predicate Ok(s: Stream, now: int) {
    s.Valid() && forall id <- s.pel :: s.pel[id].deliveredAt <= now
  }

  /** `main` has been extended by the bodies of `done` and is otherwise as it was. */
  ghost predicate Extended(before: Stream, after: Stream, done: seq<Entry>) {
    && after.Valid() && before.entries <= after.entries
    && Bodies(after.entries) == Bodies(before.entries) + Bodies(done)
    && after.last == before.last && after.pel == before.pel
  }

  lemma BodiesAppend(a: seq<Entry>, b: seq<Entry>)
    ensures Bodies(a + b) == Bodies(a) + Bodies(b)
  {
  }

  lemma ExtendMore(before: Stream, after: Stream, done: seq<Entry>, batch: seq<Entry>, now: nat)
    requires Extended(before, after, done)
    ensures Extended(before, XAddAll(after, Bodies(batch), now), done + batch)
  {
    XAddAllKeeps(after, Bodies(batch), now);
    BodiesAppend(done, batch);
  }

  /** A claimed or read batch that has been acknowledged leaves the dead-letter stream in order. */
  lemma AfterTurn(s: Stream, how: Receive, cid: nat, now: int)
    requires Ok(s, now)
    ensures Ok(XAck(Received(s, how, cid, now), Ids(Batch(s, how, now))), now)
  {
    ReceivedKeeps(s, how, cid, now);
    XAckKeeps(Received(s, how, cid, now), Ids(Batch(s, how, now)));
  }

  lemma NothingPending(s: Stream)
    requires s.Valid()
    ensures PendingEntries(s) == [] ==> s.pel.Keys == {}
  {
    if s.pel.Keys != {} {
      var id :| id in s.pel;
      var e :| e in s.entries && e.id == id;
      assert e in PendingEntries(s);
    }
  }

  lemma NothingUndelivered(s: Stream)
    ensures Undelivered(s) == [] ==> forall e <- s.entries :: e.id <= s.last
  {
    assert forall e <- s.entries :: e.id > s.last ==> e in Undelivered(s);
  }

  /** The streams involved: where the main stream and the dead-letter stream are. */
  datatype Route = Route(main: nat, dlq: nat) {
    predicate Fits(n: nat) { main < n && dlq < n && main != dlq }
  }

  ghost predicate Healthy(r: Route, streams: seq<Stream>, now: int) {
    r.Fits(|streams|) && streams[r.main].Valid() && Ok(streams[r.dlq], now)
  }

  /** Nothing but the two streams has changed; the main stream has been extended by the bodies of `done`. */
  ghost predicate Moved(r: Route, before: seq<Stream>, streams: seq<Stream>, done: seq<Entry>)
    requires r.Fits(|before|)
  {
    && |streams| == |before|
    && streams[r.dlq].entries == before[r.dlq].entries
    && (forall i | 0 <= i < |before| && i != r.main && i != r.dlq :: streams[i] == before[i])
    && Extended(before[r.main], streams[r.main], done)
  }

  /** After some turns of the claiming loop. */
  ghost predicate Claiming(r: Route, before: seq<Stream>, streams: seq<Stream>, now: int, done: seq<Entry>)
    requires r.Fits(|before|)
  {
    && Healthy(r, streams, now) && Moved(r, before, streams, done)
    && streams[r.dlq].last == before[r.dlq].last
    && done + PendingEntries(streams[r.dlq]) == PendingEntries(before[r.dlq])
  }

  /** After some turns of the reading loop. */
  ghost predicate Reading(r: Route, before: seq<Stream>, streams: seq<Stream>, now: int, done: seq<Entry>)
    requires r.Fits(|before|)
  {
    && Healthy(r, streams, now) && Moved(r, before, streams, done)
    && streams[r.dlq].pel.Keys == {}
    && done + Undelivered(streams[r.dlq]) == Undelivered(before[r.dlq])
  }

  /** The streams after a batch has been received and re-queued. */
  function Turn(r: Route, streams: seq<Stream>, how: Receive, cid: nat, now: nat): seq<Stream>
    requires r.Fits(|streams|)
  {
    var s := streams[r.dlq];
    var batch := Batch(s, how, now);
    streams[r.main := XAddAll(streams[r.main], Bodies(batch), now)]
           [r.dlq := XAck(Received(s, how, cid, now), Ids(batch))]
  }

  lemma TurnMoves(r: Route, before: seq<Stream>, streams: seq<Stream>, how: Receive, cid: nat, now: nat,
                  done: seq<Entry>)
    requires r.Fits(|before|) && Healthy(r, streams, now) && Moved(r, before, streams, done)
    ensures var t := Turn(r, streams, how, cid, now);
            Healthy(r, t, now) && Moved(r, before, t, done + Batch(streams[r.dlq], how, now))
  {
    var s := streams[r.dlq];
    AfterTurn(s, how, cid, now);
    ReceivedKeeps(s, how, cid, now);
    ExtendMore(before[r.main], streams[r.main], done, Batch(s, how, now), now);
  }

  lemma ClaimingTurn(r: Route, before: seq<Stream>, streams: seq<Stream>, count: nat, cid: nat, now: nat,
                     done: seq<Entry>)
    requires r.Fits(|before|) && Claiming(r, before, streams, now, done)
    ensures var t := Turn(r, streams, AutoClaim(0, count), cid, now);
            Claiming(r, before, t, now, done + Batch(streams[r.dlq], AutoClaim(0, count), now))
  {
    hide Stream.Valid, Extended, Only, PendingEntries, Received, Batch;
    var s := streams[r.dlq];
    var batch := Batch(s, AutoClaim(0, count), now);
    var t := Turn(r, streams, AutoClaim(0, count), cid, now);
    TurnMoves(r, before, streams, AutoClaim(0, count), cid, now, done);
    ClaimShrinks(s, cid, now, count);
    assert done + batch + PendingEntries(t[r.dlq]) == done + (batch + PendingEntries(t[r.dlq]));
  }

  lemma ClaimShrinks(s: Stream, cid: nat, now: nat, count: nat)
    requires Ok(s, now)
    ensures var how := AutoClaim(0, count);
            var batch := Batch(s, how, now);
            var t := XAck(Received(s, how, cid, now), Ids(batch));
            && batch + PendingEntries(t) == PendingEntries(s) && t.last == s.last
            && (batch == [] && count >= 1 ==> PendingEntries(s) == [])
  {
    ClaimTurn(s, cid, now, count);
    TakeRest(PendingEntries(s), count);
  }

  lemma ReadShrinks(s: Stream, cid: nat, now: nat, count: nat)
    requires Ok(s, now) && s.pel.Keys == {}
    ensures var how := ReadNew(count);
            var batch := Batch(s, how, now);
            var t := XAck(Received(s, how, cid, now), Ids(batch));
            && batch + Undelivered(t) == Undelivered(s) && t.pel.Keys == {}
            && (batch == [] && count >= 1 ==> Undelivered(s) == [])
  {
    ReadTurn(s, cid, now, count);
    TakeRest(Undelivered(s), count);
  }

  lemma ReadingTurn(r: Route, before: seq<Stream>, streams: seq<Stream>, count: nat, cid: nat, now: nat,
                    done: seq<Entry>)
    requires r.Fits(|before|) && Reading(r, before, streams, now, done)
    ensures var t := Turn(r, streams, ReadNew(count), cid, now);
            Reading(r, before, t, now, done + Batch(streams[r.dlq], ReadNew(count), now))
  {
    hide Stream.Valid, Extended, Only, Undelivered, Received, Batch;
    var s := streams[r.dlq];
    var batch := Batch(s, ReadNew(count), now);
    var t := Turn(r, streams, ReadNew(count), cid, now);
    TurnMoves(r, before, streams, ReadNew(count), cid, now, done);
    ReadShrinks(s, cid, now, count);
    assert done + batch + Undelivered(t[r.dlq]) == done + (batch + Undelivered(t[r.dlq]));
  }

  lemma Start(r: Route, streams: seq<Stream>, now: int)
    requires Healthy(r, streams, now)
    ensures Claiming(r, streams, streams, now, [])
    ensures streams[r.dlq].pel.Keys == {} ==> Reading(r, streams, streams, now, [])
  {
    assert Bodies(streams[r.main].entries) + Bodies([]) == Bodies(streams[r.main].entries);
  }

  /** The milliseconds that pass before turn `i`. */
  function Delay(clock: seq<nat>, i: nat): nat {
    if i < |clock| then clock[i] else 0
  }

  /** Time alone changes nothing. */
  lemma Later(r: Route, before: seq<Stream>, streams: seq<Stream>, now: int, ms: nat, done: seq<Entry>)
    requires r.Fits(|before|)
    ensures Claiming(r, before, streams, now, done) ==> Claiming(r, before, streams, now + ms, done)
    ensures Reading(r, before, streams, now, done) ==> Reading(r, before, streams, now + ms, done)
  {
    hide Stream.Valid, Extended, Only, PendingEntries, Undelivered, Moved;
  }

  /** A receiving command that returns nothing changes nothing. */
  lemma EmptyBatch(s: Stream, how: Receive, cid: nat, now: int)
    requires Batch(s, how, now) == []
    ensures Received(s, how, cid, now) == s
  {
    assert Received(s, how, cid, now).pel == s.pel;
  }

  // ---- the commands as steps of the protocol ----

  /** Steps that re-queue process `q` takes, and time that passes. */
  predicate RequeueSteps(steps: seq<Step>, q: nat) {
    forall s <- steps :: s.Tick? || (s.RequeueFetch? && s.q == q) || s == RequeueCommit(q)
  }

  lemma FetchCases(cfg: Config, st: State, q: nat, count: nat)
    requires Enabled(cfg, st, RequeueFetch(q, count))
    ensures var t := Apply(cfg, st, RequeueFetch(q, count));
            var r := st.requeuers[q];
            var how := if r.reading then ReadNew(count) else AutoClaim(0, count);
            var batch := Batch(st.streams[cfg.dlq], how, st.now);
            && t.now == st.now && |t.requeuers| == |st.requeuers|
            && t.streams == st.streams[cfg.dlq := Received(st.streams[cfg.dlq], how, r.cid, st.now)]
            && t.requeuers[q] == Requeuer(r.cid, if batch == [] then !r.reading else r.reading, batch)
  {
    hide Batch, Received;
  }

  /** An empty batch is not sent, which changes nothing. */
  lemma CommitCases(cfg: Config, st: State, q: nat)
    requires cfg.Fits(|st.streams|) && q < |st.requeuers|
    ensures var t := Apply(cfg, st, RequeueCommit(q));
            var r := st.requeuers[q];
            && t.now == st.now && |t.requeuers| == |st.requeuers| && t.requeuers[q] == r.(batch := [])
            && t.streams == st.streams[cfg.main := XAddAll(st.streams[cfg.main], Bodies(r.batch), st.now)]
                                      [cfg.dlq := XAck(st.streams[cfg.dlq], Ids(r.batch))]
  {
    if st.requeuers[q].batch == [] {
      var s := st.streams[cfg.dlq];
      assert XAck(s, Ids([])) == s by { assert XAck(s, {}).pel == s.pel; }
      assert Bodies([]) == [] && XAddAll(st.streams[cfg.main], [], st.now) == st.streams[cfg.main];
    }
  }

  lemma OneStep(cfg: Config, st: State, steps: seq<Step>, step: Step, q: nat)
    requires RequeueSteps(steps, q) && RequeueSteps([step], q)
    ensures RequeueSteps(steps + [step], q) && Run(cfg, st, steps + [step]) == Apply(cfg, Run(cfg, st, steps), step)
  {
    hide Run, Apply;
    RunOne(cfg, st, steps, step);
    assert step in [step];
  }

  class RedisStreamsConsumerBackend {
    const cfg: Config
    const slot: nat
    const cid: nat
    const redis: Redis
    const route := Route(cfg.main, cfg.dlq)
    var world: State             // the protocol state this object is part of

    /** A new process with nothing in hand. */
    constructor (cfg: Config, slot: nat, cid: nat, redis: Redis, world: State)
      requires cfg.Fits(|world.streams|) && world.streams == redis.streams && world.now == redis.now
      requires slot < |world.requeuers| && world.requeuers[slot] == Requeuer(cid, false, [])
      ensures Stands(false, []) && this.cfg == cfg && this.slot == slot && this.redis == redis && this.world == world
    {
      this.cfg, this.slot, this.cid, this.redis, this.world := cfg, slot, cid, redis, world;
    }

    /** Where the object is in the protocol: which loop it is in, and the batch it has received. */
    ghost predicate Stands(reading: bool, batch: seq<Entry>)
      reads this, redis
    {
      && cfg.Fits(|world.streams|) && world.streams == redis.streams && world.now == redis.now
      && slot < |world.requeuers| && world.requeuers[slot] == Requeuer(cid, reading, batch)
    }

    ghost predicate Valid()
      reads redis
    {
      Healthy(route, redis.streams, redis.now)
    }

    /** Time passes before the next command. */
    method Elapse(ms: nat, ghost reading: bool)
      requires Stands(reading, [])
      modifies this`world, redis`now
      ensures Stands(reading, []) && world == Apply(cfg, old(world), Tick(ms)) && redis.now == old(redis.now) + ms
    {
      redis.Advance(ms);
      world := Apply(cfg, world, Tick(ms));
    }

    /** XAUTOCLAIM on the dead-letter stream, without a minimum idle time. */
    method Claim(count: nat) returns (messages: seq<Entry>)
      requires Stands(false, [])
      modifies this`world, redis`streams
      ensures Stands(messages == [], messages) && world == Apply(cfg, old(world), RequeueFetch(slot, count))
      ensures messages == Batch(old(redis.streams)[route.dlq], AutoClaim(0, count), redis.now)
      ensures redis.streams
           == old(redis.streams)[route.dlq := Received(old(redis.streams)[route.dlq], AutoClaim(0, count), cid,
                                                       redis.now)]
    {
      hide Batch, Received;
      FetchCases(cfg, world, slot, count);
      messages := redis.XAutoClaim(route.dlq, cid, 0, count);
      world := Apply(cfg, world, RequeueFetch(slot, count));
    }

    /** XREADGROUP on the dead-letter stream. */
    method Read(count: nat) returns (messages: seq<Entry>)
      requires Stands(true, [])
      modifies this`world, redis`streams
      ensures Stands(messages != [], messages) && world == Apply(cfg, old(world), RequeueFetch(slot, count))
      ensures messages == Batch(old(redis.streams)[route.dlq], ReadNew(count), redis.now)
      ensures redis.streams
           == old(redis.streams)[route.dlq := Received(old(redis.streams)[route.dlq], ReadNew(count), cid, redis.now)]
    {
      hide Batch, Received;
      FetchCases(cfg, world, slot, count);
      messages := redis.XReadGroup(route.dlq, cid, count);
      world := Apply(cfg, world, RequeueFetch(slot, count));
    }

    /** One transaction: every message is added to the main stream, then all are acknowledged. */
    method RequeueMessages(messages: seq<Entry>, ghost reading: bool)
      requires Stands(reading, messages)
      modifies this`world, redis`streams
      ensures Stands(reading, []) && world == Apply(cfg, old(world), RequeueCommit(slot))
      ensures redis.streams == old(redis.streams)
                [route.main := XAddAll(old(redis.streams)[route.main], Bodies(messages), redis.now)]
                [route.dlq := XAck(old(redis.streams)[route.dlq], Ids(messages))]
    {
      hide Execute, XAddAll, XAdd, Ids, Bodies, Apply, RedisStreams.XAck;
      var commands: seq<Command>, messageIds: set<nat> := [], {};
      var streams := redis.streams;
      CommitCases(cfg, world, slot);
      assert route.main < |streams| by { assert cfg.main in cfg.watched; }
      NoMessages(streams, route.main, messages, redis.now);
      for i := 0 to |messages|
        invariant redis.streams == streams && world == old(world) && forall c <- commands :: c.stream < |streams|
        invariant messageIds == Ids(messages[..i])
        invariant Execute(streams, commands, redis.now)
               == streams[route.main := XAddAll(streams[route.main], Bodies(messages[..i]), redis.now)]
      {
        OneMessageMore(messages, i, streams[route.main], redis.now);
        ExecuteMore(streams, commands, Add(route.main, messages[i].body), redis.now);
        messageIds := messageIds + {messages[i].id};
        commands := commands + [Add(route.main, messages[i].body)];
      }
      assert messages[..|messages|] == messages;
      var all := commands + [Ack(route.dlq, messageIds)];
      ExecuteMore(streams, commands, Ack(route.dlq, messageIds), redis.now);
      redis.Pipeline(all);
      world := Apply(cfg, world, RequeueCommit(slot));
    }

    /** The first loop: claims what is pending and re-queues it, until a claim returns nothing.  Time passes before
        every command. */
    method RequeuePending(count: nat, clock: seq<nat>)
      returns (total: nat, ghost done: seq<Entry>, ghost steps: seq<Step>)
      requires Valid() && Stands(false, []) && count >= 1
      modifies this`world, redis
      ensures Stands(true, []) && world == Run(cfg, old(world), steps) && RequeueSteps(steps, slot)
      ensures old(redis.now) <= redis.now && Claiming(route, old(redis.streams), redis.streams, redis.now, done)
      ensures PendingEntries(redis.streams[route.dlq]) == [] && total == |done|
    {
      hide Stream.Valid, Extended, Only, XAddAll, PendingEntries, Undelivered, Received, Batch, Apply, Run,
          RequeueSteps;
      total, done, steps := 0, [], [];
      var turn := 0;
      ghost var before, start := redis.streams, world;
      NoSteps(cfg, start, slot);
      Start(route, before, redis.now);
      while true
        invariant Claiming(route, before, redis.streams, redis.now, done) && total == |done|
                  && old(redis.now) <= redis.now
        invariant Stands(false, []) && world == Run(cfg, start, steps) && RequeueSteps(steps, slot)
        decreases |PendingEntries(redis.streams[route.dlq])|
      {
        Later(route, before, redis.streams, redis.now, Delay(clock, turn), done);
        steps := TakeStep(start, steps, Tick(Delay(clock, turn)));
        Elapse(Delay(clock, turn), false);
        turn := turn + 1;
        ghost var s := redis.streams[route.dlq];
        ClaimingTurn(route, before, redis.streams, count, cid, redis.now, done);
        ClaimShrinks(s, cid, redis.now, count);
        steps := TakeStep(start, steps, RequeueFetch(slot, count));
        var messages := Claim(count);
        if messages == [] {
          EmptyBatch(s, AutoClaim(0, count), cid, redis.now);
          break;
        }
        total := total + |messages|;
        steps := TakeStep(start, steps, RequeueCommit(slot));
        RequeueMessages(messages, false);
        done := done + messages;
      }
    }

    /** The second loop: reads what is undelivered and re-queues it, until a read returns nothing. */
    method RequeueUndelivered(count: nat, clock: seq<nat>)
      returns (total: nat, ghost done: seq<Entry>, ghost steps: seq<Step>)
      requires Valid() && Stands(true, []) && count >= 1 && redis.streams[route.dlq].pel.Keys == {}
      modifies this`world, redis
      ensures Stands(false, []) && world == Run(cfg, old(world), steps) && RequeueSteps(steps, slot)
      ensures old(redis.now) <= redis.now && Reading(route, old(redis.streams), redis.streams, redis.now, done)
      ensures Undelivered(redis.streams[route.dlq]) == [] && total == |done|
    {
      hide Stream.Valid, Extended, Only, XAddAll, PendingEntries, Undelivered, Received, Batch, Apply, Run,
          RequeueSteps;
      total, done, steps := 0, [], [];
      var turn := 0;
      ghost var before, start := redis.streams, world;
      NoSteps(cfg, start, slot);
      Start(route, before, redis.now);
      while true
        invariant Reading(route, before, redis.streams, redis.now, done) && total == |done|
                  && old(redis.now) <= redis.now
        invariant Stands(true, []) && world == Run(cfg, start, steps) && RequeueSteps(steps, slot)
        decreases |Undelivered(redis.streams[route.dlq])|
      {
        Later(route, before, redis.streams, redis.now, Delay(clock, turn), done);
        steps := TakeStep(start, steps, Tick(Delay(clock, turn)));
        Elapse(Delay(clock, turn), true);
        turn := turn + 1;
        ghost var s := redis.streams[route.dlq];
        ReadingTurn(route, before, redis.streams, count, cid, redis.now, done);
        ReadShrinks(s, cid, redis.now, count);
        steps := TakeStep(start, steps, RequeueFetch(slot, count));
        var messages := Read(count);
        if messages == [] {
          EmptyBatch(s, ReadNew(count), cid, redis.now);
          break;
        }
        total := total + |messages|;
        steps := TakeStep(start, steps, RequeueCommit(slot));
        RequeueMessages(messages, true);
        done := done + messages;
      }
    }

    /** The next step, noted before the command that takes it. */
    lemma TakeStep(start: State, steps: seq<Step>, step: Step) returns (more: seq<Step>)
      requires RequeueSteps(steps, slot)
      requires step.Tick? || (step.RequeueFetch? && step.q == slot) || step == RequeueCommit(slot)
      ensures more == steps + [step] && RequeueSteps(more, slot)
      ensures Run(cfg, start, more) == Apply(cfg, Run(cfg, start, steps), step)
    {
      more := steps + [step];
      OneStep(cfg, start, steps, step, slot);
    }

    /** Re-queues everything outstanding in the dead-letter stream, in batches of up to `count`: the main stream is
        extended by the bodies of the pending entries, then of the undelivered ones, each in id order, and nothing in
        the dead-letter stream is outstanding any more.  A count of 0 is an error the server reports to the first
        command.  `claiming` and `reading` say how much time passes before the turns of the two loops. */
    method RequeueDeadLetter(count: nat, claiming: seq<nat>, reading: seq<nat>)
      returns (failed: bool, total: nat, ghost steps: seq<Step>)
      requires Valid() && Stands(false, [])
      modifies this`world, redis
      ensures failed <==> count == 0
      ensures failed ==> redis.streams == old(redis.streams)
      ensures var dlq := old(redis.streams)[route.dlq];
              var outstanding := PendingEntries(dlq) + Undelivered(dlq);
              !failed ==>
                Valid() && Moved(route, old(redis.streams), redis.streams, outstanding) && total == |outstanding|
      ensures !failed ==> forall e <- redis.streams[route.dlq].entries :: !redis.streams[route.dlq].Outstanding(e.id)
      ensures Stands(false, []) && world == Run(cfg, old(world), steps) && RequeueSteps(steps, slot)
    {
      hide Run, Apply, Stream.Valid, Extended, RequeueSteps, PendingEntries, Undelivered;
      failed, total, steps := count == 0, 0, [];
      NoSteps(cfg, world, slot);
      if failed { return; }
      ghost var before, start := redis.streams, world;
      ghost var pending, waiting, more;
      total, pending, steps := RequeuePending(count, claiming);
      ghost var middle, noon := redis.streams, redis.now;
      NothingPending(middle[route.dlq]);
      var read: nat;
      read, waiting, more := RequeueUndelivered(count, reading);
      total := total + read;
      Both(route, before, middle, redis.streams, noon, redis.now, pending, waiting);
      RunAppend(cfg, start, steps, more);
      StepsAppend(steps, more, slot);
      steps := steps + more;
    }
  }

  lemma NoSteps(cfg: Config, st: State, q: nat)
    ensures RequeueSteps([], q) && Run(cfg, st, []) == st
  {
  }

  lemma StepsAppend(a: seq<Step>, b: seq<Step>, q: nat)
    requires RequeueSteps(a, q) && RequeueSteps(b, q)
    ensures RequeueSteps(a + b, q)
  {
  }

  lemma NoMessages(streams: seq<Stream>, main: nat, messages: seq<Entry>, now: nat)
    requires main < |streams|
    ensures Ids(messages[..0]) == {}
    ensures Execute(streams, [], now) == streams[main := XAddAll(streams[main], Bodies(messages[..0]), now)]
  {
    assert Bodies(messages[..0]) == [];
  }

  lemma OneMessageMore(messages: seq<Entry>, i: nat, s: Stream, now: nat)
    requires i < |messages|
    ensures Ids(messages[..i + 1]) == Ids(messages[..i]) + {messages[i].id}
    ensures XAddAll(s, Bodies(messages[..i + 1]), now)
            == XAdd(XAddAll(s, Bodies(messages[..i]), now), messages[i].body, now)
  {
    hide XAdd;
    assert messages[..i + 1] == messages[..i] + [messages[i]];
    assert Bodies(messages[..i + 1])[..i] == Bodies(messages[..i]);
  }

  lemma Both(r: Route, before: seq<Stream>, middle: seq<Stream>, after: seq<Stream>, noon: int, now: int,
             pending: seq<Entry>, waiting: seq<Entry>)
    requires r.Fits(|before|) && Claiming(r, before, middle, noon, pending) && PendingEntries(middle[r.dlq]) == []
    requires Reading(r, middle, after, now, waiting) && Undelivered(after[r.dlq]) == []
    ensures pending == PendingEntries(before[r.dlq]) && waiting == Undelivered(before[r.dlq])
    ensures Moved(r, before, after, pending + waiting)
    ensures forall e <- after[r.dlq].entries :: !after[r.dlq].Outstanding(e.id)
  {
    hide Stream.Valid, Only, Undelivered, PendingEntries, Sorted;
    BodiesAppend(pending, waiting);
    NothingUndelivered(after[r.dlq]);
    SameUndelivered(before[r.dlq], middle[r.dlq]);
    assert pending + [] == pending && waiting + [] == waiting;
  }

  lemma SameUndelivered(s: Stream, t: Stream)
    requires s.entries == t.entries && s.last == t.last
    ensures Undelivered(s) == Undelivered(t)
  {
  }
}
