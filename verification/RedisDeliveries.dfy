/** How often one publication can be handed to the loop, over all its copies. */
module RedisDeliveries {
  import opened RedisStreams
  import opened RedisProtocol
  import opened RedisOrigins
  import opened RedisAttempts

  function EntriesOf(es: seq<Entry>, o: nat): nat {
    if es == [] then 0
    else
      var n := |es| - 1;
      EntriesOf(es[..n], o) + If(es[n].body.origin == o)
  }

  /** Entries of publication `o` on every stream but one. */
  function EntriesOff(streams: seq<Stream>, dlq: nat, o: nat): nat {
    if streams == [] then 0
    else
      var n := |streams| - 1;
      EntriesOff(streams[..n], dlq, o) + if n == dlq then 0 else EntriesOf(streams[n].entries, o)
  }

  function CountIn(origins: seq<nat>, o: nat): nat {
    if origins == [] then 0
    else
      var n := |origins| - 1;
      CountIn(origins[..n], o) + If(origins[n] == o)
  }

  /** The copies of publication `o` that consumers can be handed. */
  function CopiesOn(stream: nat, es: seq<Entry>, o: nat): (keys: set<Key>)
    ensures forall k <- keys :: k.stream == stream
    ensures |keys| <= EntriesOf(es, o)
  {
    if es == [] then {}
    else
      var n := |es| - 1;
      var front := CopiesOn(stream, es[..n], o);
      if es[n].body.origin == o then
        assert |front + {Key(stream, es[n].id)}| <= |front| + 1;
        front + {Key(stream, es[n].id)}
      else front
  }

  function Copies(streams: seq<Stream>, dlq: nat, o: nat): (keys: set<Key>)
    ensures forall k <- keys :: k.stream < |streams|
    ensures |keys| <= EntriesOff(streams, dlq, o)
  {
    if streams == [] then {}
    else
      var n := |streams| - 1;
      var front := Copies(streams[..n], dlq, o);
      if n == dlq then front
      else
        var here := CopiesOn(n, streams[n].entries, o);
        assert |front + here| <= |front| + |here|;
        front + here
  }

  lemma {:induction false} CopiesOnAll(stream: nat, es: seq<Entry>, o: nat, e: Entry)
    requires e in es && e.body.origin == o
    ensures Key(stream, e.id) in CopiesOn(stream, es, o)
  {
    var n := |es| - 1;
    if es[n] != e {
      assert e in es[..n];
      CopiesOnAll(stream, es[..n], o, e);
    }
  }

  /** Every copy outside the dead-letter stream is among them. */
  lemma {:induction false} CopiesAll(streams: seq<Stream>, dlq: nat, o: nat, i: nat, e: Entry)
    requires i < |streams| && i != dlq && e in streams[i].entries && e.body.origin == o
    ensures Key(i, e.id) in Copies(streams, dlq, o)
  {
    var n := |streams| - 1;
    if i == n { CopiesOnAll(n, streams[n].entries, o, e); } else { CopiesAll(streams[..n], dlq, o, i, e); }
  }

  lemma {:induction false} OffUpdate(streams: seq<Stream>, dlq: nat, i: nat, s: Stream, o: nat)
    requires i < |streams|
    ensures i == dlq ==> EntriesOff(streams[i := s], dlq, o) == EntriesOff(streams, dlq, o)
    ensures i != dlq ==> (EntriesOff(streams[i := s], dlq, o) + EntriesOf(streams[i].entries, o)
                          == EntriesOff(streams, dlq, o) + EntriesOf(s.entries, o))
  {
    var n := |streams| - 1;
    if i == n {
      assert streams[i := s][..n] == streams[..n];
    } else {
      assert streams[i := s][..n] == streams[..n][i := s];
      OffUpdate(streams[..n], dlq, i, s, o);
    }
  }

  lemma {:induction false} OffSame(streams: seq<Stream>, later: seq<Stream>, dlq: nat, o: nat)
    requires |streams| == |later| && forall i | 0 <= i < |streams| :: streams[i].entries == later[i].entries
    ensures EntriesOff(streams, dlq, o) == EntriesOff(later, dlq, o)
  {
    if streams != [] {
      var n := |streams| - 1;
      OffSame(streams[..n], later[..n], dlq, o);
    }
  }

  lemma {:induction false} AddedEntries(s: Stream, bodies: seq<Body>, now: nat, o: nat)
    ensures EntriesOf(XAddAll(s, bodies, now).entries, o) == EntriesOf(s.entries, o) + CountIn(Origins(bodies), o)
  {
    if bodies == [] {
      assert Origins(bodies) == [];
    } else {
      var n := |bodies| - 1;
      AddedEntries(s, bodies[..n], now, o);
      var u := XAddAll(s, bodies[..n], now);
      assert XAdd(u, bodies[n], now).entries[..|u.entries|] == u.entries;
      assert Origins(bodies)[..n] == Origins(bodies[..n]);
    }
  }

  lemma {:induction false} CountInAppend(a: seq<nat>, b: seq<nat>, o: nat)
    ensures CountIn(a + b, o) == CountIn(a, o) + CountIn(b, o)
  {
    if b == [] {
      assert a + b == a;
    } else {
      var n := |b| - 1;
      assert (a + b)[..|a| + n] == a + b[..n];
      CountInAppend(a, b[..n], o);
    }
  }

  lemma PublishOff(cfg: Config, st: State, stream: nat, fields: Fields, o: nat)
    requires cfg.dlq !in cfg.watched && Enabled(cfg, st, Publish(stream, fields))
    ensures EntriesOff(Apply(cfg, st, Publish(stream, fields)).streams, cfg.dlq, o)
         == EntriesOff(st.streams, cfg.dlq, o) + If(o == st.Published())
  {
    var s := XAdd(st.streams[stream], Body(st.Published(), fields), st.now);
    assert s.entries[..|st.streams[stream].entries|] == st.streams[stream].entries;
    OffUpdate(st.streams, cfg.dlq, stream, s, o);
  }

  lemma MoveOff(cfg: Config, st: State, p: nat, o: nat)
    requires Enabled(cfg, st, Move(p))
    ensures EntriesOff(ApplyMove(cfg, st, p).streams, cfg.dlq, o) == EntriesOff(st.streams, cfg.dlq, o)
  {
    var h := st.consumers[p].doing.held;
    var moved := XAdd(st.streams[cfg.dlq], h.entry.body, st.now);
    var added := st.streams[cfg.dlq := moved];
    OffUpdate(st.streams, cfg.dlq, cfg.dlq, moved, o);
    OffSame(added, ApplyMove(cfg, st, p).streams, cfg.dlq, o);
  }

  lemma CommitOff(cfg: Config, st: State, q: nat, o: nat)
    requires Enabled(cfg, st, RequeueCommit(q))
    ensures EntriesOff(ApplyRequeueCommit(cfg, st, q).streams, cfg.dlq, o)
         == EntriesOff(st.streams, cfg.dlq, o) + CountIn(Origins(Bodies(st.requeuers[q].batch)), o)
  {
    var bodies := Bodies(st.requeuers[q].batch);
    var grown := XAddAll(st.streams[cfg.main], bodies, st.now);
    var added := st.streams[cfg.main := grown];
    OffUpdate(st.streams, cfg.dlq, cfg.main, grown, o);
    AddedEntries(st.streams[cfg.main], bodies, st.now, o);
    OffSame(added, ApplyRequeueCommit(cfg, st, q).streams, cfg.dlq, o);
  }

  /** The other steps add no entry to any stream. */
  lemma OtherOff(cfg: Config, st: State, step: Step)
    requires !step.Publish? && !step.Move? && !step.RequeueCommit?
    ensures var t := Apply(cfg, st, step);
            && t.Published() == st.Published() && t.requeued == st.requeued && |t.streams| == |st.streams|
            && forall i | 0 <= i < |st.streams| :: st.streams[i].entries == t.streams[i].entries
  {
    hide Batch;
  }

  lemma StepOff(cfg: Config, st: State, step: Step, o: nat)
    requires cfg.dlq !in cfg.watched
    requires EntriesOff(st.streams, cfg.dlq, o) == If(o < st.Published()) + CountIn(st.requeued, o)
    ensures var t := Apply(cfg, st, step);
            EntriesOff(t.streams, cfg.dlq, o) == If(o < t.Published()) + CountIn(t.requeued, o)
  {
    hide EntriesOff, XAddAll, CountIn, ApplyFetch, ApplyLookup, ApplySendAck, ApplyExtend, ApplyRequeueFetch;
    var t := Apply(cfg, st, step);
    if Enabled(cfg, st, step) {
      match step
      case Publish(stream, fields) => PublishOff(cfg, st, stream, fields, o);
      case Move(p) => MoveOff(cfg, st, p, o);
      case RequeueCommit(q) =>
        CommitOff(cfg, st, q, o);
        CountInAppend(st.requeued, Origins(Bodies(st.requeuers[q].batch)), o);
      case _ =>
        OtherOff(cfg, st, step);
        OffSame(st.streams, t.streams, cfg.dlq, o);
    }
  }

  lemma {:induction false} NoEntries(streams: seq<Stream>, dlq: nat, o: nat)
    requires forall s <- streams :: s == EMPTY
    ensures EntriesOff(streams, dlq, o) == 0
  {
    if streams != [] {
      var n := |streams| - 1;
      assert streams[n] in streams && forall s <- streams[..n] :: s in streams;
      NoEntries(streams[..n], dlq, o);
      assert EMPTY.entries == [];
    }
  }

  /** Outside the dead-letter stream a publication has one entry, and one more for each time it was re-queued. */
  lemma {:induction false} EntriesOfPublication(cfg: Config, st: State, steps: seq<Step>, o: nat)
    requires Initial(cfg, st) && cfg.dlq !in cfg.watched
    ensures var t := Run(cfg, st, steps);
            EntriesOff(t.streams, cfg.dlq, o) == (if o < t.Published() then 1 else 0) + CountIn(t.requeued, o)
  {
    if steps == [] {
      NoEntries(st.streams, cfg.dlq, o);
    } else {
      var n := |steps| - 1;
      EntriesOfPublication(cfg, st, steps[..n], o);
      StepOff(cfg, Run(cfg, st, steps[..n]), steps[n], o);
    }
  }

  /** How often publication `o` was handed to the loop, whichever entry carried it. */
  function HandedOut(handouts: seq<Handout>, o: nat): nat {
    if handouts == [] then 0
    else
      var n := |handouts| - 1;
      HandedOut(handouts[..n], o) + If(handouts[n].body.origin == o)
  }

  lemma {:induction false} HandedAsCopies(handouts: seq<Handout>, keys: set<Key>, o: nat)
    requires forall d <- handouts :: d.body.origin == o ==> d.key in keys
    ensures HandedOut(handouts, o) <= PassedAny(handouts, keys)
  {
    if handouts != [] {
      var n := |handouts| - 1;
      assert handouts[n] in handouts && forall d <- handouts[..n] :: d in handouts;
      HandedAsCopies(handouts[..n], keys, o);
    }
  }

  lemma HandedIsCopy(cfg: Config, st: State, d: Handout)
    requires Handed(cfg, st, d) && cfg.dlq !in cfg.watched
    ensures d.key in Copies(st.streams, cfg.dlq, d.body.origin)
  {
    CopiesAll(st.streams, cfg.dlq, d.body.origin, d.key.stream, Entry(d.key.id, d.body));
  }

  /** Deliveries: under any interleaving, one publication is handed to the loop at most the maximum number of attempts
      times one plus the number of times it was re-queued. */
  lemma DeliveriesOfPublication(cfg: Config, st: State, steps: seq<Step>, o: nat)
    requires Initial(cfg, st) && cfg.dlq !in cfg.watched
    ensures var t := Run(cfg, st, steps);
            HandedOut(t.handouts, o) <= cfg.maxAttempts * (1 + CountIn(t.requeued, o))
  {
    hide Run, Copies, PassedAny, HandedOut, CountIn, EntriesOff, Handed;
    var t := Run(cfg, st, steps);
    var keys := Copies(t.streams, cfg.dlq, o);
    RunShape(cfg, st, steps);
    HandoutsHanded(cfg, st, steps);
    forall d <- t.handouts ensures d.body.origin == o ==> d.key in keys { HandedIsCopy(cfg, t, d); }
    HandedAsCopies(t.handouts, keys, o);
    CopiesBounds(t.streams, cfg.dlq, o);
    AttemptsOfAny(cfg, st, steps, keys);
    EntriesOfPublication(cfg, st, steps, o);
    Monotone(cfg.maxAttempts, |keys|, 1 + CountIn(t.requeued, o));
  }

  lemma CopiesBounds(streams: seq<Stream>, dlq: nat, o: nat)
    ensures var keys := Copies(streams, dlq, o);
            |keys| <= EntriesOff(streams, dlq, o) && forall k <- keys :: k.stream < |streams|
  {
  }

  lemma Monotone(m: nat, a: nat, b: nat)
    requires a <= b
    ensures m * a <= m * b
  {
  }
}
