/** What every step of the protocol keeps. */
module RedisInvariants {
  import opened RedisStreams
  import opened RedisProtocol
  import Loop = ConsumerLoop

  ghost predicate StreamOk(s: Stream, now: int) {
    s.Valid() && forall id <- s.pel :: s.pel[id].deliveredAt <= now
  }

  /** A held entry is an entry of the stream it is said to come from, and has been delivered. */
  ghost predicate Genuine(cfg: Config, streams: seq<Stream>, now: int, h: Held) {
    && h.stream in cfg.watched && h.stream < |streams|
    && h.entry in streams[h.stream].entries
    && h.entry.id <= streams[h.stream].last
    && h.since <= now
  }

  /** An entry on its way to the dead-letter stream has been delivered too often, or is already acknowledged. */
  ghost predicate Exhausted(cfg: Config, streams: seq<Stream>, h: Held)
    requires h.stream < |streams|
  {
    var pel := streams[h.stream].pel;
    h.entry.id in pel ==> pel[h.entry.id].times > cfg.maxAttempts
  }

  ghost predicate ConsumerOk(cfg: Config, streams: seq<Stream>, now: int, c: Consumer) {
    && (forall h <- c.todo :: Genuine(cfg, streams, now, h))
    && (!c.doing.Waiting? ==> Genuine(cfg, streams, now, c.doing.held))
    && (c.doing.Moving? ==> Exhausted(cfg, streams, c.doing.held))
    && (c.doing.Acking? ==> Loop.Accepts(c.doing.outcome))
  }

  ghost predicate RequeuerOk(s: Stream, r: Requeuer) {
    && Sorted(r.batch)
    && (forall e <- r.batch :: e in s.entries && e.id <= s.last)
  }

  /** The body is that of a publication: it carries the fields that were published. */
  ghost predicate Authentic(publications: seq<Fields>, b: Body) {
    b.origin < |publications| && b.fields == publications[b.origin]
  }

  /** Every entry of every stream carries a publication as it was published, and so did every finished one. */
  ghost predicate Carried(st: State) {
    && (forall i, e | 0 <= i < |st.streams| && e in st.streams[i].entries :: Authentic(st.publications, e.body))
    && (forall f <- st.finished :: Authentic(st.publications, f.body))
  }

  ghost predicate Sound(cfg: Config, st: State) {
    && cfg.Fits(|st.streams|)
    && (forall i | 0 <= i < |st.streams| :: StreamOk(st.streams[i], st.now))
    && (forall p | 0 <= p < |st.consumers| :: ConsumerOk(cfg, st.streams, st.now, st.consumers[p]))
    && (forall q | 0 <= q < |st.requeuers| :: RequeuerOk(st.streams[cfg.dlq], st.requeuers[q]))
    && (forall f <- st.finished :: Loop.Accepts(f.outcome))
    && Carried(st)
  }

  /** Every stream grew, none got broken. */
  ghost predicate Evolves(streams: seq<Stream>, later: seq<Stream>, now: int) {
    && |streams| == |later|
    && forall i | 0 <= i < |streams| :: Grows(streams[i], later[i]) && StreamOk(later[i], now)
  }

  lemma ReceivedAllEvolves(cfg: Config, st: State, names: seq<nat>, how: Receive, cid: nat)
    requires Sound(cfg, st)
    ensures Evolves(st.streams, ReceivedAll(st.streams, names, how, cid, st.now), st.now)
  {
    var later := ReceivedAll(st.streams, names, how, cid, st.now);
    forall i | 0 <= i < |st.streams| ensures Grows(st.streams[i], later[i]) && StreamOk(later[i], st.now) {
      assert StreamOk(st.streams[i], st.now);
      ReceivedKeeps(st.streams[i], how, cid, st.now);
      GrowsRefl(st.streams[i]);
    }
  }

  /** Changing one stream. */
  lemma OneEvolves(cfg: Config, st: State, i: nat, s: Stream)
    requires Sound(cfg, st) && i < |st.streams|
    requires Grows(st.streams[i], s) && StreamOk(s, st.now)
    ensures Evolves(st.streams, st.streams[i := s], st.now)
  {
    forall j | 0 <= j < |st.streams| ensures Grows(st.streams[j], st.streams[i := s][j]) { GrowsRefl(st.streams[j]); }
  }

  lemma AddThenAck(s: Stream, bodies: seq<Body>, ids: set<nat>, now: nat)
    requires StreamOk(s, now)
    ensures var t := XAddAll(s, bodies, now); StreamOk(t, now) && Grows(s, t)
    ensures var t := XAck(s, ids); StreamOk(t, now) && Grows(s, t)
    ensures var t := XAck(XAddAll(s, bodies, now), ids); StreamOk(t, now) && Grows(s, t)
  {
    XAddAllKeeps(s, bodies, now);
    XAckKeeps(s, ids);
    XAckKeeps(XAddAll(s, bodies, now), ids);
    GrowsTwice(s, XAddAll(s, bodies, now), XAck(XAddAll(s, bodies, now), ids));
  }

  lemma AddOne(s: Stream, body: Body, now: nat)
    ensures XAddAll(s, [body], now) == XAdd(s, body, now)
  {
    assert [body][..0] == [];
    assert XAddAll(s, [], now) == s;
  }

  lemma PublishEvolves(cfg: Config, st: State, stream: nat, fields: Fields)
    requires Sound(cfg, st) && Enabled(cfg, st, Publish(stream, fields))
    ensures Evolves(st.streams, Apply(cfg, st, Publish(stream, fields)).streams, st.now)
  {
    var body := Body(st.Published(), fields);
    assert StreamOk(st.streams[stream], st.now);
    AddThenAck(st.streams[stream], [body], {}, st.now);
    AddOne(st.streams[stream], body, st.now);
    OneEvolves(cfg, st, stream, XAdd(st.streams[stream], body, st.now));
  }

  lemma TickEvolves(cfg: Config, st: State, ms: nat)
    requires Sound(cfg, st)
    ensures Evolves(st.streams, st.streams, st.now + ms)
  {
    forall i | 0 <= i < |st.streams|
      ensures Grows(st.streams[i], st.streams[i]) && StreamOk(st.streams[i], st.now + ms)
    {
      assert StreamOk(st.streams[i], st.now);
    }
  }

  lemma MoveStream(cfg: Config, st: State, p: nat, i: nat)
    requires Enabled(cfg, st, Move(p)) && i < |st.streams|
    ensures var h := st.consumers[p].doing.held;
            var added := if i == cfg.dlq then XAdd(st.streams[i], h.entry.body, st.now) else st.streams[i];
            ApplyMove(cfg, st, p).streams[i] == if i == h.stream then XAck(added, {h.entry.id}) else added
    ensures |ApplyMove(cfg, st, p).streams| == |st.streams|
  {
    hide XAdd, XAck;
  }

  lemma MoveEvolves(cfg: Config, st: State, p: nat)
    requires Sound(cfg, st) && Enabled(cfg, st, Move(p))
    ensures Evolves(st.streams, ApplyMove(cfg, st, p).streams, st.now)
  {
    hide ApplyMove, StreamOk, Grows, XAddAll, XAdd, XAck;
    var h := st.consumers[p].doing.held;
    var t := ApplyMove(cfg, st, p);
    MoveStream(cfg, st, p, cfg.dlq);
    forall i | 0 <= i < |st.streams| ensures Grows(st.streams[i], t.streams[i]) && StreamOk(t.streams[i], st.now) {
      assert StreamOk(st.streams[i], st.now);
      MoveStream(cfg, st, p, i);
      AddThenAck(st.streams[i], [h.entry.body], {h.entry.id}, st.now);
      AddOne(st.streams[i], h.entry.body, st.now);
      GrowsRefl(st.streams[i]);
    }
  }

  lemma AckEvolves(cfg: Config, st: State, i: nat, ids: set<nat>)
    requires Sound(cfg, st) && i < |st.streams|
    ensures Evolves(st.streams, st.streams[i := XAck(st.streams[i], ids)], st.now)
  {
    assert StreamOk(st.streams[i], st.now);
    AddThenAck(st.streams[i], [], ids, st.now);
    OneEvolves(cfg, st, i, XAck(st.streams[i], ids));
  }

  lemma ExtendEvolves(cfg: Config, st: State, cid: nat, key: Key)
    requires Sound(cfg, st) && key.stream < |st.streams|
    ensures Evolves(st.streams, st.streams[key.stream := XClaimJustId(st.streams[key.stream], cid, st.now, key.id)],
                    st.now)
  {
    assert StreamOk(st.streams[key.stream], st.now);
    XClaimKeeps(st.streams[key.stream], cid, st.now, key.id);
    OneEvolves(cfg, st, key.stream, XClaimJustId(st.streams[key.stream], cid, st.now, key.id));
  }

  lemma RequeueFetchEvolves(cfg: Config, st: State, how: Receive, cid: nat)
    requires Sound(cfg, st)
    ensures Evolves(st.streams, st.streams[cfg.dlq := Received(st.streams[cfg.dlq], how, cid, st.now)], st.now)
  {
    assert StreamOk(st.streams[cfg.dlq], st.now);
    ReceivedKeeps(st.streams[cfg.dlq], how, cid, st.now);
    OneEvolves(cfg, st, cfg.dlq, Received(st.streams[cfg.dlq], how, cid, st.now));
  }

  lemma CommitStream(cfg: Config, st: State, q: nat, i: nat)
    requires Enabled(cfg, st, RequeueCommit(q)) && i < |st.streams|
    ensures var batch := st.requeuers[q].batch;
            ApplyRequeueCommit(cfg, st, q).streams[i]
            == if i == cfg.main then XAddAll(st.streams[i], Bodies(batch), st.now)
               else if i == cfg.dlq then XAck(st.streams[i], Ids(batch))
               else st.streams[i]
  {
    hide XAddAll, Bodies, Ids;
  }

  lemma CommitEvolves(cfg: Config, st: State, q: nat)
    requires Sound(cfg, st) && Enabled(cfg, st, RequeueCommit(q))
    ensures Evolves(st.streams, ApplyRequeueCommit(cfg, st, q).streams, st.now)
  {
    hide ApplyRequeueCommit, StreamOk, Grows, XAddAll, XAck;
    var t := ApplyRequeueCommit(cfg, st, q);
    StepShape(cfg, st, RequeueCommit(q));
    CommitIs(cfg, st, q);
    forall i | 0 <= i < |st.streams| ensures Grows(st.streams[i], t.streams[i]) && StreamOk(t.streams[i], st.now) {
      assert StreamOk(st.streams[i], st.now);
      CommitStream(cfg, st, q, i);
      GrowsRefl(st.streams[i]);
      AddThenAck(st.streams[i], Bodies(st.requeuers[q].batch), Ids(st.requeuers[q].batch), st.now);
    }
  }

  lemma CommitIs(cfg: Config, st: State, q: nat)
    requires Enabled(cfg, st, RequeueCommit(q))
    ensures Apply(cfg, st, RequeueCommit(q)) == ApplyRequeueCommit(cfg, st, q)
  {
    hide ApplyRequeueCommit;
  }

  /** The streams after any step. */
  lemma StepEvolves(cfg: Config, st: State, step: Step)
    requires Sound(cfg, st)
    ensures Evolves(st.streams, Apply(cfg, st, step).streams, Apply(cfg, st, step).now)
    ensures st.now <= Apply(cfg, st, step).now
  {
    hide Evolves, Sound, XAddAll, Batch, Received, XClaimJustId;
    TickEvolves(cfg, st, 0);
    if Enabled(cfg, st, step) {
      match step
      case Publish(stream, fields) => PublishEvolves(cfg, st, stream, fields);
      case Tick(ms) => TickEvolves(cfg, st, ms);
      case Fetch(p, count) =>
        var (names, how, phase) := FetchFrom(cfg, st.consumers[p], count);
        ReceivedAllEvolves(cfg, st, names, how, st.consumers[p].cid);
      case Move(p) => MoveEvolves(cfg, st, p);
      case SendAck(p, applied) =>
        AckEvolves(cfg, st, st.consumers[p].doing.held.stream, {st.consumers[p].doing.held.entry.id});
      case Extend(p, key) => ExtendEvolves(cfg, st, st.consumers[p].cid, key);
      case RequeueFetch(q, count) =>
        var how := if st.requeuers[q].reading then ReadNew(count) else AutoClaim(0, count);
        RequeueFetchEvolves(cfg, st, how, st.requeuers[q].cid);
      case RequeueCommit(q) => CommitEvolves(cfg, st, q);
      case _ =>
    }
  }

  lemma GenuineLater(cfg: Config, streams: seq<Stream>, now: int, later: seq<Stream>, then_: int, h: Held)
    requires Evolves(streams, later, then_) && now <= then_ && Genuine(cfg, streams, now, h)
    ensures Genuine(cfg, later, then_, h)
    ensures Exhausted(cfg, streams, h) ==> Exhausted(cfg, later, h)
  {
    assert Grows(streams[h.stream], later[h.stream]);
  }

  lemma ConsumerLater(cfg: Config, streams: seq<Stream>, now: int, later: seq<Stream>, then_: int, c: Consumer)
    requires Evolves(streams, later, then_) && now <= then_ && ConsumerOk(cfg, streams, now, c)
    ensures ConsumerOk(cfg, later, then_, c)
  {
    forall h <- c.todo ensures Genuine(cfg, later, then_, h) { GenuineLater(cfg, streams, now, later, then_, h); }
    if !c.doing.Waiting? { GenuineLater(cfg, streams, now, later, then_, c.doing.held); }
  }

  /** Everything a fetch returns is genuine, pending, and granted at this moment. */
  lemma GatherGenuine(cfg: Config, st: State, names: seq<nat>, how: Receive, cid: nat, h: Held)
    requires Sound(cfg, st) && (forall n <- names :: n in cfg.watched)
    requires h in Gather(Offers(st.streams, how, st.now), names, st.now)
    ensures var later := ReceivedAll(st.streams, names, how, cid, st.now);
            && Genuine(cfg, later, st.now, h) && h.since == st.now && h.stream in names
            && h.entry in Batch(st.streams[h.stream], how, st.now)
            && later[h.stream] == Received(st.streams[h.stream], how, cid, st.now)
  {
    assert h.entry in Offers(st.streams, how, st.now)[h.stream];
    assert StreamOk(st.streams[h.stream], st.now);
    BatchPending(st.streams[h.stream], how, cid, st.now);
    ReceivedKeeps(st.streams[h.stream], how, cid, st.now);
  }

  lemma FetchedOk(cfg: Config, st: State, p: nat, count: nat)
    requires Sound(cfg, st) && Enabled(cfg, st, Fetch(p, count))
    ensures var t := ApplyFetch(cfg, st, p, count); ConsumerOk(cfg, t.streams, st.now, t.consumers[p])
  {
    var t := ApplyFetch(cfg, st, p, count);
    var (names, how, phase) := FetchFrom(cfg, st.consumers[p], count);
    forall h <- t.consumers[p].todo ensures Genuine(cfg, t.streams, st.now, h) {
      GatherGenuine(cfg, st, names, how, st.consumers[p].cid, h);
    }
  }

  lemma ExtendedOk(cfg: Config, st: State, p: nat, key: Key)
    requires Sound(cfg, st) && Enabled(cfg, st, Extend(p, key))
    ensures var t := ApplyExtend(st, p, key); ConsumerOk(cfg, t.streams, st.now, t.consumers[p])
  {
    hide Grows, Stream.Valid;
    var t := ApplyExtend(st, p, key);
    var c := st.consumers[p];
    ExtendEvolves(cfg, st, c.cid, key);
    TickEvolves(cfg, st, 0);
    ConsumerLater(cfg, st.streams, st.now, t.streams, st.now, c);
    forall h <- t.consumers[p].todo ensures Genuine(cfg, t.streams, st.now, h) {
      if key.id in st.streams[key.stream].pel {
        var i :| 0 <= i < |c.todo| && h == Renew(c.todo[i], key, st.now);
        assert c.todo[i] in c.todo;
      }
    }
  }

  lemma StepShape(cfg: Config, st: State, step: Step)
    ensures var t := Apply(cfg, st, step);
            && |t.streams| == |st.streams| && |t.consumers| == |st.consumers| && |t.requeuers| == |st.requeuers|
            && st.now <= t.now
  {
  }

  /** Every other step leaves a consumer part of what it held. */
  lemma OtherShape(cfg: Config, st: State, step: Step, p: nat)
    requires p < |st.consumers|
    requires (step.Fetch? || step.Extend?) ==> step.p != p || !Enabled(cfg, st, step)
    ensures var t := Apply(cfg, st, step);
            && |t.consumers| == |st.consumers|
            && var c, d := st.consumers[p], t.consumers[p];
            && (forall h <- d.todo :: h in c.todo)
            && (!d.doing.Waiting? ==> d.doing.held in c.Holds())
            && (d.doing.Acking? ==> d.doing == c.doing || Loop.Accepts(d.doing.outcome))
            && (d.doing.Moving? ==>
                  d.doing == c.doing
                  || (t.streams == st.streams && d.doing.held.stream < |st.streams|
                      && Exhausted(cfg, st.streams, d.doing.held)))
  {
    var c := st.consumers[p];
    if step.Lookup? && c.todo != [] { assert c.todo[0] in c.todo; }
  }

  lemma ConsumersStep(cfg: Config, st: State, step: Step, p: nat)
    requires Sound(cfg, st) && p < |st.consumers|
    ensures var t := Apply(cfg, st, step);
            |t.consumers| == |st.consumers| && ConsumerOk(cfg, t.streams, t.now, t.consumers[p])
  {
    hide Carried, StreamOk, ApplyMove, ApplySendAck, ApplyRequeueFetch, ApplyRequeueCommit;
    if Enabled(cfg, st, step) && step.Fetch? && step.p == p {
      FetchedOk(cfg, st, p, step.count);
    } else if Enabled(cfg, st, step) && step.Extend? && step.p == p {
      ExtendedOk(cfg, st, p, step.key);
    } else {
      var t := Apply(cfg, st, step);
      StepEvolves(cfg, st, step);
      ConsumerLater(cfg, st.streams, st.now, t.streams, t.now, st.consumers[p]);
      OtherShape(cfg, st, step, p);
    }
  }

  /** A re-queue process keeps its batch, drops it, or receives a new one. */
  lemma RequeuerShape(cfg: Config, st: State, step: Step, q: nat)
    requires q < |st.requeuers|
    ensures var t := Apply(cfg, st, step);
            && |t.requeuers| == |st.requeuers| && |t.streams| == |st.streams|
            && var r, u := st.requeuers[q], t.requeuers[q];
            && (u.batch == r.batch || u.batch == []
                || (cfg.dlq < |st.streams| && step.RequeueFetch?
                    && var how := if r.reading then ReadNew(step.count) else AutoClaim(0, step.count);
                    && u.batch == Batch(st.streams[cfg.dlq], how, st.now)
                    && t.streams[cfg.dlq] == Received(st.streams[cfg.dlq], how, r.cid, st.now)))
  {
  }

  lemma BatchOk(s: Stream, how: Receive, cid: nat, now: int)
    requires StreamOk(s, now)
    ensures RequeuerOk(Received(s, how, cid, now), Requeuer(cid, how.ReadNew?, Batch(s, how, now)))
  {
    BatchPending(s, how, cid, now);
    ReceivedKeeps(s, how, cid, now);
  }

  lemma RequeuersStep(cfg: Config, st: State, step: Step, q: nat)
    requires Sound(cfg, st) && q < |st.requeuers|
    ensures var t := Apply(cfg, st, step);
            |t.requeuers| == |st.requeuers| && |t.streams| == |st.streams|
            && RequeuerOk(t.streams[cfg.dlq], t.requeuers[q])
  {
    hide Apply, Batch, Received, StreamOk;
    var t := Apply(cfg, st, step);
    StepEvolves(cfg, st, step);
    RequeuerShape(cfg, st, step, q);
    assert RequeuerOk(st.streams[cfg.dlq], st.requeuers[q]);
    assert Grows(st.streams[cfg.dlq], t.streams[cfg.dlq]);
    if t.requeuers[q].batch != st.requeuers[q].batch && t.requeuers[q].batch != [] {
      var how := if st.requeuers[q].reading then ReadNew(step.count) else AutoClaim(0, step.count);
      assert StreamOk(st.streams[cfg.dlq], st.now);
      BatchOk(st.streams[cfg.dlq], how, st.requeuers[q].cid, st.now);
    }
  }

  lemma {:induction false} AddedBodies(s: Stream, bodies: seq<Body>, now: nat, e: Entry)
    requires e in XAddAll(s, bodies, now).entries
    ensures e in s.entries || e.body in bodies
  {
    if bodies != [] {
      var n := |bodies| - 1;
      if e in XAddAll(s, bodies[..n], now).entries { AddedBodies(s, bodies[..n], now, e); }
    }
  }

  /** Some stream has an entry with this body. */
  ghost predicate Stored(streams: seq<Stream>, b: Body) {
    exists i, e :: 0 <= i < |streams| && e in streams[i].entries && e.body == b
  }

  lemma CommitBodies(cfg: Config, st: State, q: nat, i: nat, e: Entry)
    requires Sound(cfg, st) && Enabled(cfg, st, RequeueCommit(q)) && i < |st.streams|
    requires e in ApplyRequeueCommit(cfg, st, q).streams[i].entries
    ensures Stored(st.streams, e.body)
  {
    if e !in st.streams[i].entries {
      var batch := st.requeuers[q].batch;
      AddedBodies(st.streams[cfg.main], Bodies(batch), st.now, e);
      var k :| 0 <= k < |batch| && Bodies(batch)[k] == e.body;
      assert RequeuerOk(st.streams[cfg.dlq], st.requeuers[q]);
      assert batch[k] in batch && batch[k].body == e.body;
    }
  }

  lemma MoveBodies(cfg: Config, st: State, p: nat, i: nat, e: Entry)
    requires Sound(cfg, st) && Enabled(cfg, st, Move(p)) && i < |st.streams|
    requires e in ApplyMove(cfg, st, p).streams[i].entries
    ensures Stored(st.streams, e.body)
  {
    if e !in st.streams[i].entries {
      var h := st.consumers[p].doing.held;
      assert ConsumerOk(cfg, st.streams, st.now, st.consumers[p]);
      assert Genuine(cfg, st.streams, st.now, h) && e.body == h.entry.body;
    }
  }

  /** Receiving, acknowledging and extending add no entry. */
  lemma OtherEntries(cfg: Config, st: State, step: Step, i: nat)
    requires i < |st.streams|
    requires Enabled(cfg, st, step) ==> !step.Publish? && !step.Move? && !step.RequeueCommit?
    ensures var t := Apply(cfg, st, step);
            |t.streams| == |st.streams| && t.streams[i].entries == st.streams[i].entries
            && t.publications == st.publications
  {
    hide Batch;
  }

  /** A step adds only the body it publishes, or copies of bodies that are there. */
  lemma BodiesAfter(cfg: Config, st: State, step: Step, i: nat, e: Entry)
    requires Sound(cfg, st) && i < |Apply(cfg, st, step).streams| && e in Apply(cfg, st, step).streams[i].entries
    ensures Stored(st.streams, e.body)
            || (step.Publish? && Enabled(cfg, st, step) && e.body == Body(st.Published(), step.fields))
  {
    hide ApplyFetch, ApplyLookup, ApplyMove, ApplySendAck, ApplyExtend, ApplyRequeueFetch, ApplyRequeueCommit;
    StepShape(cfg, st, step);
    if Enabled(cfg, st, step) && step.Move? {
      MoveBodies(cfg, st, step.p, i, e);
    } else if Enabled(cfg, st, step) && step.RequeueCommit? {
      CommitBodies(cfg, st, step.q, i, e);
    } else if !(Enabled(cfg, st, step) && step.Publish?) {
      OtherEntries(cfg, st, step, i);
    }
  }

  lemma FinishedAfter(cfg: Config, st: State, step: Step, f: Finished)
    requires Sound(cfg, st) && f in Apply(cfg, st, step).finished
    ensures (f in st.finished || Stored(st.streams, f.body)) && Loop.Accepts(f.outcome)
  {
    if f !in st.finished {
      assert ConsumerOk(cfg, st.streams, st.now, st.consumers[step.p]);
    }
  }

  lemma PublicationsGrow(cfg: Config, st: State, step: Step)
    ensures Apply(cfg, st, step).publications
            == st.publications + if step.Publish? && Enabled(cfg, st, step) then [step.fields] else []
  {
    assert st.publications + [] == st.publications;
  }

  lemma StepCarried(cfg: Config, st: State, step: Step)
    requires Sound(cfg, st)
    ensures Carried(Apply(cfg, st, step))
  {
    hide Apply;
    var t := Apply(cfg, st, step);
    PublicationsGrow(cfg, st, step);
    forall i, e | 0 <= i < |t.streams| && e in t.streams[i].entries ensures Authentic(t.publications, e.body) {
      BodiesAfter(cfg, st, step, i, e);
    }
    forall f <- t.finished ensures Authentic(t.publications, f.body) { FinishedAfter(cfg, st, step, f); }
  }

  lemma StepSound(cfg: Config, st: State, step: Step)
    requires Sound(cfg, st)
    ensures Sound(cfg, Apply(cfg, st, step))
  {
    hide StreamOk, RequeuerOk, Carried, Apply;
    var t := Apply(cfg, st, step);
    StepShape(cfg, st, step);
    StepEvolves(cfg, st, step);
    StepCarried(cfg, st, step);
    forall p | 0 <= p < |t.consumers| ensures ConsumerOk(cfg, t.streams, t.now, t.consumers[p]) {
      ConsumersStep(cfg, st, step, p);
    }
    forall q | 0 <= q < |t.requeuers| ensures RequeuerOk(t.streams[cfg.dlq], t.requeuers[q]) {
      RequeuersStep(cfg, st, step, q);
    }
    forall f <- t.finished ensures Loop.Accepts(f.outcome) { FinishedAfter(cfg, st, step, f); }
  }

  lemma {:induction false} RunSound(cfg: Config, st: State, steps: seq<Step>)
    requires Initial(cfg, st)
    ensures Sound(cfg, Run(cfg, st, steps))
  {
    if steps == [] {
      forall i | 0 <= i < |st.streams| ensures StreamOk(st.streams[i], st.now) && st.streams[i].entries == [] {
        assert st.streams[i] in st.streams;
      }
      forall p | 0 <= p < |st.consumers| ensures ConsumerOk(cfg, st.streams, st.now, st.consumers[p]) {
        assert st.consumers[p] in st.consumers;
      }
      forall q | 0 <= q < |st.requeuers| ensures st.requeuers[q].batch == [] { assert st.requeuers[q] in st.requeuers; }
    } else {
      RunSound(cfg, st, steps[..|steps| - 1]);
      StepSound(cfg, Run(cfg, st, steps[..|steps| - 1]), steps[|steps| - 1]);
    }
  }
}
