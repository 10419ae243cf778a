/** Conservation: where every publication is, and what exactly adds a second copy of one. */
module RedisConservation {
  import opened RedisStreams
  import opened RedisProtocol
  import opened RedisInvariants
  import opened RedisOrigins
  import opened RedisSingle
  import opened RedisNoLoss

  function FinishedOf(finished: seq<Finished>, o: nat): nat {
    if finished == [] then 0
    else
      var n := |finished| - 1;
      FinishedOf(finished[..n], o) + If(finished[n].body.origin == o)
  }

  /** The places where publication `o` can be, counted with multiplicity. */
  function Places(st: State, o: nat): nat {
    Total(st.streams, o) + FinishedOf(st.finished, o)
  }

  /** The copies of publication `o` a step adds without removing any: a dead-letter move of an entry that is no longer
      pending, and entries no longer pending in a re-queue batch. */
  function StepExtras(cfg: Config, st: State, step: Step, o: nat): nat {
    if !Enabled(cfg, st, step) then 0
    else match step
      case Move(p) =>
        var h := st.consumers[p].doing.held;
        If(h.entry.id !in st.streams[h.stream].pel && h.entry.body.origin == o)
      case RequeueCommit(q) => LateOf(st.requeuers[q].batch, st.streams[cfg.dlq].pel.Keys, o)
      case _ => 0
  }

  function Extras(cfg: Config, st: State, steps: seq<Step>, o: nat): nat {
    if steps == [] then 0
    else
      var n := |steps| - 1;
      Extras(cfg, st, steps[..n], o) + StepExtras(cfg, Run(cfg, st, steps[..n]), steps[n], o)
  }

  /** The entries a move or a re-queue is about to acknowledge are still pending. */
  predicate ActsOnPending(cfg: Config, st: State, step: Step) {
    Enabled(cfg, st, step) ==>
      match step
      case Move(p) =>
        var h := st.consumers[p].doing.held;
        h.entry.id in st.streams[h.stream].pel
      case RequeueCommit(q) => forall e <- st.requeuers[q].batch :: e.id in st.streams[cfg.dlq].pel
      case _ => true
  }

  ghost predicate AlwaysPending(cfg: Config, st: State, steps: seq<Step>) {
    steps == [] || (
      var n := |steps| - 1;
      AlwaysPending(cfg, st, steps[..n]) && ActsOnPending(cfg, Run(cfg, st, steps[..n]), steps[n]))
  }

  lemma FetchTotal(cfg: Config, st: State, names: seq<nat>, how: Receive, cid: nat, o: nat)
    requires Sound(cfg, st)
    ensures Total(ReceivedAll(st.streams, names, how, cid, st.now), o) == Total(st.streams, o)
  {
    hide Received, Open;
    var later := ReceivedAll(st.streams, names, how, cid, st.now);
    forall i | 0 <= i < |st.streams| ensures Open(st.streams[i], o) == Open(later[i], o) {
      assert StreamOk(st.streams[i], st.now);
      ReceivedOpen(st.streams[i], how, cid, st.now, o);
    }
    TotalSame(st.streams, later, o);
  }

  lemma HeldOk(cfg: Config, st: State, p: nat)
    requires Sound(cfg, st) && p < |st.consumers| && !st.consumers[p].doing.Waiting? && cfg.dlq !in cfg.watched
    ensures var h := st.consumers[p].doing.held;
            && h.stream < |st.streams| && h.stream != cfg.dlq && cfg.dlq < |st.streams|
            && h.entry in st.streams[h.stream].entries
            && st.streams[h.stream].Valid() && st.streams[cfg.dlq].Valid()
  {
    assert ConsumerOk(cfg, st.streams, st.now, st.consumers[p]);
    assert Genuine(cfg, st.streams, st.now, st.consumers[p].doing.held);
    assert StreamOk(st.streams[st.consumers[p].doing.held.stream], st.now) && StreamOk(st.streams[cfg.dlq], st.now);
  }

  /** The dead-letter transaction adds one copy, and removes one if the entry is still pending. */
  lemma MoveTotal(cfg: Config, st: State, p: nat, o: nat)
    requires Sound(cfg, st) && cfg.dlq !in cfg.watched && Enabled(cfg, st, Move(p))
    ensures Total(ApplyMove(cfg, st, p).streams, o) == Total(st.streams, o) + StepExtras(cfg, st, Move(p), o)
  {
    hide Total, Open, XAdd, Sound, Stream.Valid;
    var h := st.consumers[p].doing.held;
    HeldOk(cfg, st, p);
    var moved := XAdd(st.streams[cfg.dlq], h.entry.body, st.now);
    var added := st.streams[cfg.dlq := moved];
    TotalUpdate(st.streams, cfg.dlq, moved, o);
    AddOpen(st.streams[cfg.dlq], h.entry.body, st.now, o);
    TotalUpdate(added, h.stream, XAck(added[h.stream], {h.entry.id}), o);
    if h.entry.id in added[h.stream].pel {
      AckOpen(added[h.stream], h.entry, o);
    } else {
      LateAck(added[h.stream], h.entry.id);
    }
  }

  /** An acknowledgement that takes effect on a pending entry removes one copy and records one. */
  lemma AckPlaces(cfg: Config, st: State, p: nat, applied: bool, o: nat)
    requires Sound(cfg, st) && cfg.dlq !in cfg.watched && Enabled(cfg, st, SendAck(p, applied))
    ensures Places(ApplySendAck(st, p, applied), o) == Places(st, o)
  {
    hide Total, Open, Sound, Stream.Valid;
    var h := st.consumers[p].doing.held;
    HeldOk(cfg, st, p);
    TotalUpdate(st.streams, h.stream, XAck(st.streams[h.stream], {h.entry.id}), o);
    if h.entry.id in st.streams[h.stream].pel {
      AckOpen(st.streams[h.stream], h.entry, o);
    } else {
      LateAck(st.streams[h.stream], h.entry.id);
    }
  }

  lemma ExtendTotal(cfg: Config, st: State, p: nat, key: Key, o: nat)
    requires Sound(cfg, st) && Enabled(cfg, st, Extend(p, key))
    ensures Total(ApplyExtend(st, p, key).streams, o) == Total(st.streams, o)
  {
    var s := st.streams[key.stream];
    var t := XClaimJustId(s, st.consumers[p].cid, st.now, key.id);
    assert t.pel.Keys == s.pel.Keys;
    TotalUpdate(st.streams, key.stream, t, o);
  }

  lemma BatchOkIn(cfg: Config, st: State, q: nat)
    requires Sound(cfg, st) && q < |st.requeuers|
    ensures cfg.Fits(|st.streams|) && st.streams[cfg.main].Valid() && st.streams[cfg.dlq].Valid()
    ensures Sorted(st.requeuers[q].batch) && forall e <- st.requeuers[q].batch :: e in st.streams[cfg.dlq].entries
  {
    assert RequeuerOk(st.streams[cfg.dlq], st.requeuers[q]);
    assert StreamOk(st.streams[cfg.main], st.now) && StreamOk(st.streams[cfg.dlq], st.now);
  }

  /** The re-queue transaction adds each entry of its batch to the main stream, and removes those still pending. */
  lemma CommitTotal(cfg: Config, st: State, q: nat, o: nat)
    requires Sound(cfg, st) && Enabled(cfg, st, RequeueCommit(q))
    ensures Total(ApplyRequeueCommit(cfg, st, q).streams, o)
            == Total(st.streams, o) + StepExtras(cfg, st, RequeueCommit(q), o)
  {
    hide Total, Open, XAddAll, XAck, Sound, Stream.Valid, Sorted, LateOf, CountOf, Ids;
    var batch := st.requeuers[q].batch;
    BatchOkIn(cfg, st, q);
    var grown := XAddAll(st.streams[cfg.main], Bodies(batch), st.now);
    TotalUpdate(st.streams, cfg.main, grown, o);
    AddAllOpen(st.streams[cfg.main], Bodies(batch), st.now, o);
    var added := st.streams[cfg.main := grown];
    TotalUpdate(added, cfg.dlq, XAck(added[cfg.dlq], Ids(batch)), o);
    AckAllOpen(added[cfg.dlq], batch, o);
  }

  lemma PublishTotal(cfg: Config, st: State, stream: nat, fields: Fields, o: nat)
    requires Sound(cfg, st) && Enabled(cfg, st, Publish(stream, fields))
    ensures Total(Apply(cfg, st, Publish(stream, fields)).streams, o) == Total(st.streams, o) + If(o == st.Published())
  {
    var body := Body(st.Published(), fields);
    assert StreamOk(st.streams[stream], st.now);
    TotalUpdate(st.streams, stream, XAdd(st.streams[stream], body, st.now), o);
    AddOpen(st.streams[stream], body, st.now, o);
  }

  lemma RequeueFetchTotal(cfg: Config, st: State, q: nat, count: nat, o: nat)
    requires Sound(cfg, st) && Enabled(cfg, st, RequeueFetch(q, count))
    ensures Total(ApplyRequeueFetch(cfg, st, q, count).streams, o) == Total(st.streams, o)
  {
    var how := if st.requeuers[q].reading then ReadNew(count) else AutoClaim(0, count);
    assert StreamOk(st.streams[cfg.dlq], st.now);
    ReceivedOpen(st.streams[cfg.dlq], how, st.requeuers[q].cid, st.now, o);
    TotalUpdate(st.streams, cfg.dlq, Received(st.streams[cfg.dlq], how, st.requeuers[q].cid, st.now), o);
  }

  lemma StepPlaces(cfg: Config, st: State, step: Step, o: nat)
    requires Sound(cfg, st) && cfg.dlq !in cfg.watched
    ensures var t := Apply(cfg, st, step);
            Places(t, o)
            == Places(st, o) + (if step.Publish? && Enabled(cfg, st, step) then If(o == st.Published()) else 0)
                            + StepExtras(cfg, st, step, o)
  {
    hide Total, FinishedOf, Sound;
    if Enabled(cfg, st, step) {
      match step
      case Publish(stream, fields) => PublishTotal(cfg, st, stream, fields, o);
      case Fetch(p, count) =>
        var (names, how, phase) := FetchFrom(cfg, st.consumers[p], count);
        FetchTotal(cfg, st, names, how, st.consumers[p].cid, o);
      case Move(p) => MoveTotal(cfg, st, p, o);
      case SendAck(p, applied) => AckPlaces(cfg, st, p, applied, o);
      case Extend(p, key) => ExtendTotal(cfg, st, p, key, o);
      case RequeueFetch(q, count) => RequeueFetchTotal(cfg, st, q, count, o);
      case RequeueCommit(q) => CommitTotal(cfg, st, q, o);
      case _ =>
    }
  }

  lemma {:induction false} TotalEmpty(streams: seq<Stream>, o: nat)
    requires forall s <- streams :: s == EMPTY
    ensures Total(streams, o) == 0
  {
    if streams != [] {
      var n := |streams| - 1;
      assert streams[n] in streams && forall s <- streams[..n] :: s in streams;
      TotalEmpty(streams[..n], o);
      assert EMPTY.entries == [];
    }
  }

  /** The conservation law, for any number of consumers and re-queue processes: a publication is undelivered, pending,
      or accepted and acknowledged exactly once, plus once for each time a dead-letter move or a re-queue copied an
      entry of it that was no longer pending. */
  lemma {:induction false} ConservationLaw(cfg: Config, st: State, steps: seq<Step>, o: nat)
    requires Initial(cfg, st) && cfg.dlq !in cfg.watched
    ensures var t := Run(cfg, st, steps);
            Places(t, o) == (if o < t.Published() then 1 else 0) + Extras(cfg, st, steps, o)
  {
    hide Apply, StepExtras, Sound, Total, FinishedOf;
    if steps == [] {
      TotalEmpty(st.streams, o);
      NothingFinished(o);
    } else {
      var n := |steps| - 1;
      var s := Run(cfg, st, steps[..n]);
      ConservationLaw(cfg, st, steps[..n], o);
      RunSound(cfg, st, steps[..n]);
      StepPlaces(cfg, s, steps[n], o);
      PublishedStep(cfg, s, steps[n]);
    }
  }

  lemma NothingFinished(o: nat)
    ensures FinishedOf([], o) == 0
  {
  }

  lemma NoStepExtras(cfg: Config, st: State, step: Step, o: nat)
    requires ActsOnPending(cfg, st, step)
    ensures StepExtras(cfg, st, step, o) == 0
  {
    if Enabled(cfg, st, step) && step.RequeueCommit? {
      NoneLate(st.requeuers[step.q].batch, st.streams[cfg.dlq].pel.Keys, o);
    }
  }

  lemma SomeStepExtras(cfg: Config, st: State, step: Step) returns (o: nat)
    requires !ActsOnPending(cfg, st, step)
    ensures StepExtras(cfg, st, step, o) >= 1
  {
    hide LateOf;
    match step
    case Move(p) => o := st.consumers[p].doing.held.entry.body.origin;
    case RequeueCommit(q) =>
      var e :| e in st.requeuers[q].batch && e.id !in st.streams[cfg.dlq].pel;
      o := e.body.origin;
      LateCounts(st.requeuers[q].batch, st.streams[cfg.dlq].pel.Keys, e);
  }

  lemma {:induction false} NoExtras(cfg: Config, st: State, steps: seq<Step>, o: nat)
    requires AlwaysPending(cfg, st, steps)
    ensures Extras(cfg, st, steps, o) == 0
  {
    hide Run, StepExtras, ActsOnPending;
    if steps != [] {
      var n := |steps| - 1;
      NoExtras(cfg, st, steps[..n], o);
      NoStepExtras(cfg, Run(cfg, st, steps[..n]), steps[n], o);
    }
  }

  lemma {:induction false} SomeExtras(cfg: Config, st: State, steps: seq<Step>) returns (o: nat)
    requires !AlwaysPending(cfg, st, steps)
    ensures Extras(cfg, st, steps, o) >= 1
  {
    hide Run, StepExtras, ActsOnPending;
    var n := |steps| - 1;
    if AlwaysPending(cfg, st, steps[..n]) {
      o := SomeStepExtras(cfg, Run(cfg, st, steps[..n]), steps[n]);
    } else {
      o := SomeExtras(cfg, st, steps[..n]);
    }
  }

  /** A run keeps every publication in exactly one place if and only if no dead-letter move and no re-queue in it acts
      on an entry that has been acknowledged meanwhile. */
  lemma ConservesIff(cfg: Config, st: State, steps: seq<Step>)
    requires Initial(cfg, st) && cfg.dlq !in cfg.watched
    ensures var t := Run(cfg, st, steps);
            (forall o: nat :: Places(t, o) == if o < t.Published() then 1 else 0) <==> AlwaysPending(cfg, st, steps)
  {
    hide Run, Places, Extras, AlwaysPending;
    forall o: nat ensures Places(Run(cfg, st, steps), o)
                          == (if o < Run(cfg, st, steps).Published() then 1 else 0) + Extras(cfg, st, steps, o)
    {
      ConservationLaw(cfg, st, steps, o);
    }
    if AlwaysPending(cfg, st, steps) {
      forall o: nat ensures Extras(cfg, st, steps, o) == 0 { NoExtras(cfg, st, steps, o); }
    } else {
      var o := SomeExtras(cfg, st, steps);
      assert Places(Run(cfg, st, steps), o) != if o < Run(cfg, st, steps).Published() then 1 else 0;
    }
  }

  lemma {:induction false} RunTidy(cfg: Config, st: State, steps: seq<Step>)
    requires Initial(cfg, st) && |st.consumers| == 1 && |st.requeuers| <= 1 && cfg.dlq !in cfg.watched
    ensures Sound(cfg, Run(cfg, st, steps)) && Tidy(cfg, Run(cfg, st, steps))
  {
    RunSound(cfg, st, steps);
    if steps == [] {
      assert st.consumers[0] in st.consumers && st.consumers[0].Holds() == [];
      if |st.requeuers| == 1 { assert st.requeuers[0] in st.requeuers; }
    } else {
      var n := |steps| - 1;
      RunTidy(cfg, st, steps[..n]);
      StepTidy(cfg, Run(cfg, st, steps[..n]), steps[n]);
    }
  }

  lemma TidyActsOnPending(cfg: Config, st: State, step: Step)
    requires Tidy(cfg, st)
    ensures ActsOnPending(cfg, st, step)
  {
    if Enabled(cfg, st, step) && step.Move? {
      assert st.consumers[step.p].doing.held in st.consumers[0].Holds();
    }
  }

  lemma {:induction false} SingleAlwaysPending(cfg: Config, st: State, steps: seq<Step>)
    requires Initial(cfg, st) && |st.consumers| == 1 && |st.requeuers| <= 1 && cfg.dlq !in cfg.watched
    ensures AlwaysPending(cfg, st, steps)
  {
    hide Run, ActsOnPending, Tidy, Sound;
    if steps != [] {
      var n := |steps| - 1;
      SingleAlwaysPending(cfg, st, steps[..n]);
      RunTidy(cfg, st, steps[..n]);
      TidyActsOnPending(cfg, Run(cfg, st, steps[..n]), steps[n]);
    }
  }

  /** Exact conservation: with one consumer (which may crash and restart) and at most one re-queue process, every
      publication is at all times in exactly one place, with the fields it was published with. */
  lemma ExactConservation(cfg: Config, st: State, steps: seq<Step>, o: nat)
    requires Initial(cfg, st) && |st.consumers| == 1 && |st.requeuers| <= 1 && cfg.dlq !in cfg.watched
    ensures var t := Run(cfg, st, steps);
            && Total(t.streams, o) + FinishedOf(t.finished, o) == (if o < t.Published() then 1 else 0)
            && Carried(t)
  {
    SingleAlwaysPending(cfg, st, steps);
    ConservationLaw(cfg, st, steps, o);
    NoExtras(cfg, st, steps, o);
    RunSound(cfg, st, steps);
  }
}
