/** What every step of the protocol does to the streams, entry by entry. */
module RedisEffects {
  import opened RedisStreams
  import opened RedisProtocol
  import opened RedisInvariants
  import opened RedisFetch

  /** The stream has been extended by entries with these bodies, in this order and with rising ids, which nobody has
      received; the entries `acked` are not pending any more; nothing else has changed. */
  ghost predicate Changed(s: Stream, t: Stream, bodies: seq<Body>, acked: set<nat>) {
    && t.last == s.last && s.entries <= t.entries && |t.entries| == |s.entries| + |bodies|
    && (forall i | |s.entries| <= i < |t.entries| ::
          && t.entries[i].body == bodies[i - |s.entries|] && t.entries[i].id > s.last
          && (i > 0 ==> t.entries[i - 1].id < t.entries[i].id))
    && (forall id :: id in t.pel <==> id in s.pel && id !in acked)
    && forall id <- t.pel :: t.pel[id] == s.pel[id]
  }

  /** The bodies that a step adds to stream `i`. */
  function AddedBy(cfg: Config, st: State, step: Step, i: nat): seq<Body> {
    match step
    case Publish(stream, fields) => if i == stream then [Body(|st.publications|, fields)] else []
    case Move(p) =>
      if p < |st.consumers| && st.consumers[p].doing.Moving? && i == cfg.dlq
          then [st.consumers[p].doing.held.entry.body]
      else []
    case RequeueCommit(q) => if q < |st.requeuers| && i == cfg.main then Bodies(st.requeuers[q].batch) else []
    case _ => []
  }

  /** The entries of stream `i` that a step acknowledges. */
  function AckedBy(cfg: Config, st: State, step: Step, i: nat): set<nat> {
    match step
    case Move(p) =>
      if p < |st.consumers| && st.consumers[p].doing.Moving? && i == st.consumers[p].doing.held.stream
      then {st.consumers[p].doing.held.entry.id} else {}
    case SendAck(p, applied) =>
      if applied && p < |st.consumers| && st.consumers[p].doing.Acking? && i == st.consumers[p].doing.held.stream
      then {st.consumers[p].doing.held.entry.id} else {}
    case RequeueCommit(q) => if q < |st.requeuers| && i == cfg.dlq then Ids(st.requeuers[q].batch) else {}
    case _ => {}
  }

  lemma AckChanges(s: Stream, t: Stream, bodies: seq<Body>, ids: set<nat>)
    requires Changed(s, t, bodies, {})
    ensures Changed(s, XAck(t, ids), bodies, ids)
  {
  }

  lemma AddChanges(s: Stream, body: Body, now: nat)
    requires s.Valid()
    ensures Changed(s, XAdd(s, body, now), [body], {})
  {
    XAddKeeps(s, body, now);
  }

  lemma ChangedMore(s: Stream, t: Stream, u: Stream, bodies: seq<Body>, body: Body)
    requires Changed(s, t, bodies, {}) && Changed(t, u, [body], {})
    ensures Changed(s, u, bodies + [body], {})
  {
    assert forall i | 0 <= i < |t.entries| :: u.entries[i] == t.entries[i];
  }

  lemma {:induction false} AddAllChanges(s: Stream, bodies: seq<Body>, now: nat)
    requires s.Valid()
    ensures Changed(s, XAddAll(s, bodies, now), bodies, {})
  {
    hide Changed, XAdd, Stream.Valid;
    if bodies != [] {
      var n := |bodies| - 1;
      AddAllChanges(s, bodies[..n], now);
      XAddAllKeeps(s, bodies[..n], now);
      AddChanges(XAddAll(s, bodies[..n], now), bodies[n], now);
      ChangedMore(s, XAddAll(s, bodies[..n], now), XAddAll(s, bodies, now), bodies[..n], bodies[n]);
      assert bodies[..n] + [bodies[n]] == bodies;
    } else {
      NothingChanged(s);
    }
  }

  lemma NothingChanged(s: Stream)
    requires s.Valid()
    ensures Changed(s, s, [], {})
  {
  }

  /** Publishing adds the fields to one stream; the dead-letter move and the re-queue add what they acknowledge
      elsewhere, in order, to the dead-letter and the main stream; an acknowledgement does what it says if it takes
      effect. */
  lemma StepChanges(cfg: Config, st: State, step: Step, i: nat)
    requires Sound(cfg, st) && Enabled(cfg, st, step) && i < |st.streams|
    requires step.Publish? || step.Move? || step.SendAck? || step.RequeueCommit?
    ensures var t := Apply(cfg, st, step);
            && |t.streams| == |st.streams|
            && Changed(st.streams[i], t.streams[i], AddedBy(cfg, st, step, i), AckedBy(cfg, st, step, i))
  {
    hide Changed, XAdd, XAddAll, XAck, Stream.Valid, Bodies, Ids;
    var s := st.streams[i];
    assert StreamOk(s, st.now);
    NothingChanged(s);
    AckChanges(s, s, [], AckedBy(cfg, st, step, i));
    match step
    case Publish(stream, fields) => AddChanges(s, Body(st.Published(), fields), st.now);
    case Move(p) =>
      var body := st.consumers[p].doing.held.entry.body;
      AddChanges(s, body, st.now);
      AckChanges(s, XAdd(s, body, st.now), [body], AckedBy(cfg, st, step, i));
    case RequeueCommit(q) =>
      AddAllChanges(s, Bodies(st.requeuers[q].batch), st.now);
    case SendAck(_, _) =>
  }

  /** An extension restarts the idle clock of a pending entry for the extender, and leaves its delivery count; a
      re-queue process receives from the dead-letter stream alone, whatever is pending in its first loop and whatever is
      undelivered in its second; no other step touches a stream. */
  lemma OtherSteps(cfg: Config, st: State, step: Step, i: nat)
    requires Sound(cfg, st) && Enabled(cfg, st, step) && i < |st.streams|
    requires !step.Publish? && !step.Move? && !step.SendAck? && !step.RequeueCommit? && !step.Fetch?
    ensures var s, t := st.streams[i], Apply(cfg, st, step).streams;
            && |t| == |st.streams|
            && match step
               case Extend(p, key) =>
                 && t[i].entries == s.entries && t[i].last == s.last && t[i].pel.Keys == s.pel.Keys
                 && forall id <- s.pel ::
                      t[i].pel[id] == if key == Key(i, id) then Pending(st.consumers[p].cid, st.now, s.pel[id].times)
                                      else s.pel[id]
               case RequeueFetch(q, count) =>
                 var how := if st.requeuers[q].reading then ReadNew(count) else AutoClaim(0, count);
                 if i == cfg.dlq then Delivers(s, t[i], how, st.requeuers[q].cid, st.now) else t[i] == s
               case _ => t[i] == s
  {
    hide Received, Due, Delivers, Stream.Valid;
    assert StreamOk(st.streams[i], st.now);
    if step.RequeueFetch? {
      var r := st.requeuers[step.q];
      ReceivedDelivers(st.streams[i], if r.reading then ReadNew(step.count)
                       else AutoClaim(0, step.count), r.cid, st.now);
    }
  }
}
