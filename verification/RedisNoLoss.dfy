/** No publication is ever lost, under any interleaving. */
module RedisNoLoss {
  import opened RedisStreams
  import opened RedisProtocol
  import opened RedisInvariants
  import Loop = ConsumerLoop

  /** Publication `o` exactly as it was published. */
  ghost predicate IsPublication(st: State, b: Body, o: nat) {
    o < |st.publications| && b == Body(o, st.publications[o])
  }

  /** An outstanding copy of publication `o`: entry `e` of stream `i`, a subscribed stream, the main stream or the
      dead-letter stream, has the fields that were published and is undelivered or pending. */
  ghost predicate Copy(cfg: Config, st: State, o: nat, i: nat, e: Entry) {
    && (i in cfg.watched || i == cfg.dlq) && i < |st.streams|
    && e in st.streams[i].entries && IsPublication(st, e.body, o) && st.streams[i].Outstanding(e.id)
  }

  /** A consumer whose loop accepted the message acknowledged a copy of publication `o`. */
  ghost predicate Done(st: State, o: nat) {
    exists f <- st.finished :: IsPublication(st, f.body, o) && Loop.Accepts(f.outcome)
  }

  ghost predicate Covered(cfg: Config, st: State, o: nat) {
    Done(st, o) || exists i, e :: Copy(cfg, st, o, i, e)
  }

  /** The acknowledgement a step sends, if it sends one. */
  predicate Acks(cfg: Config, st: State, step: Step, i: nat, id: nat) {
    && Enabled(cfg, st, step)
    && match step
       case Move(p) => i == st.consumers[p].doing.held.stream && id == st.consumers[p].doing.held.entry.id
       case SendAck(p, applied) =>
         applied && i == st.consumers[p].doing.held.stream && id == st.consumers[p].doing.held.entry.id
       case RequeueCommit(q) => i == cfg.dlq && id in Ids(st.requeuers[q].batch)
       case _ => false
  }

  lemma FetchKeepsOutstanding(cfg: Config, st: State, names: seq<nat>, how: Receive, cid: nat, i: nat, e: Entry)
    requires Sound(cfg, st) && i < |st.streams| && e in st.streams[i].entries
    ensures st.streams[i].Outstanding(e.id) <==> ReceivedAll(st.streams, names, how, cid, st.now)[i].Outstanding(e.id)
  {
    assert StreamOk(st.streams[i], st.now);
    ReceivedKeeps(st.streams[i], how, cid, st.now);
  }

  lemma AddedStays(s: Stream, bodies: seq<Body>, now: nat, e: Entry)
    requires s.Valid()
    ensures XAddAll(s, bodies, now).Outstanding(e.id) <==> s.Outstanding(e.id)
  {
    XAddAllKeeps(s, bodies, now);
  }

  lemma RequeueFetchKeepsOutstanding(cfg: Config, st: State, how: Receive, cid: nat, i: nat, e: Entry)
    requires Sound(cfg, st) && i < |st.streams| && e in st.streams[i].entries && st.streams[i].Outstanding(e.id)
    ensures st.streams[cfg.dlq := Received(st.streams[cfg.dlq], how, cid, st.now)][i].Outstanding(e.id)
  {
    assert StreamOk(st.streams[i], st.now);
    ReceivedKeeps(st.streams[i], how, cid, st.now);
  }

  lemma CommitKeepsOutstanding(cfg: Config, st: State, q: nat, i: nat, e: Entry)
    requires Sound(cfg, st) && i < |st.streams| && st.streams[i].Outstanding(e.id)
    requires Enabled(cfg, st, RequeueCommit(q)) && !Acks(cfg, st, RequeueCommit(q), i, e.id)
    ensures ApplyRequeueCommit(cfg, st, q).streams[i].Outstanding(e.id)
  {
    assert StreamOk(st.streams[i], st.now);
    AddedStays(st.streams[i], Bodies(st.requeuers[q].batch), st.now, e);
  }

  lemma MoveKeepsOutstanding(cfg: Config, st: State, p: nat, i: nat, e: Entry)
    requires Sound(cfg, st) && i < |st.streams| && st.streams[i].Outstanding(e.id)
    requires Enabled(cfg, st, Move(p)) && !Acks(cfg, st, Move(p), i, e.id)
    ensures ApplyMove(cfg, st, p).streams[i].Outstanding(e.id)
  {
  }

  /** Only an acknowledgement ends being outstanding. */
  lemma OutstandingStays(cfg: Config, st: State, step: Step, i: nat, e: Entry)
    requires Sound(cfg, st) && i < |st.streams| && e in st.streams[i].entries
    requires st.streams[i].Outstanding(e.id) && !Acks(cfg, st, step, i, e.id)
    ensures var t := Apply(cfg, st, step); i < |t.streams| && t.streams[i].Outstanding(e.id)
  {
    hide Sound, Batch, Received, XAddAll;
    if Enabled(cfg, st, step) {
      match step
      case Fetch(p, count) =>
        var (names, how, phase) := FetchFrom(cfg, st.consumers[p], count);
        FetchKeepsOutstanding(cfg, st, names, how, st.consumers[p].cid, i, e);
      case RequeueFetch(q, count) =>
        var how := if st.requeuers[q].reading then ReadNew(count) else AutoClaim(0, count);
        RequeueFetchKeepsOutstanding(cfg, st, how, st.requeuers[q].cid, i, e);
      case RequeueCommit(q) => CommitKeepsOutstanding(cfg, st, q, i, e);
      case Move(p) => MoveKeepsOutstanding(cfg, st, p, i, e);
      case _ =>
    }
  }

  /** An entry added last is an outstanding copy. */
  lemma NewestIsCopy(s: Stream, bodies: seq<Body>, now: nat, k: nat) returns (e: Entry)
    requires s.Valid() && k < |bodies|
    ensures var t := XAddAll(s, bodies, now); e in t.entries && e.body == bodies[k] && e.id > t.last
  {
    var t := XAddAll(s, bodies, now);
    XAddAllKeeps(s, bodies, now);
    e := t.entries[|s.entries| + k];
    assert Bodies(t.entries)[|s.entries| + k] == e.body;
    assert (Bodies(s.entries) + bodies)[|s.entries| + k] == bodies[k];
  }

  lemma MoveCopies(cfg: Config, st: State, p: nat)
    requires Sound(cfg, st) && Enabled(cfg, st, Move(p))
    ensures Covered(cfg, ApplyMove(cfg, st, p), st.consumers[p].doing.held.entry.body.origin)
  {
    var h := st.consumers[p].doing.held;
    var t := ApplyMove(cfg, st, p);
    assert StreamOk(st.streams[cfg.dlq], st.now);
    var e := NewestIsCopy(st.streams[cfg.dlq], [h.entry.body], st.now, 0);
    AddOne(st.streams[cfg.dlq], h.entry.body, st.now);
    assert Copy(cfg, t, h.entry.body.origin, cfg.dlq, e);
  }

  lemma BatchPublished(cfg: Config, st: State, q: nat, b: Entry)
    requires Sound(cfg, st) && q < |st.requeuers| && b in st.requeuers[q].batch
    ensures IsPublication(st, b.body, b.body.origin) && st.streams[cfg.main].Valid()
  {
    assert RequeuerOk(st.streams[cfg.dlq], st.requeuers[q]);
    assert StreamOk(st.streams[cfg.main], st.now);
  }

  lemma CommitCopies(cfg: Config, st: State, q: nat, b: Entry)
    requires Sound(cfg, st) && Enabled(cfg, st, RequeueCommit(q)) && b in st.requeuers[q].batch
    ensures Covered(cfg, ApplyRequeueCommit(cfg, st, q), b.body.origin)
  {
    hide Sound, Stream.Valid, XAddAll, XAck;
    var batch := st.requeuers[q].batch;
    BatchPublished(cfg, st, q, b);
    var k :| 0 <= k < |batch| && batch[k] == b;
    var e := NewestIsCopy(st.streams[cfg.main], Bodies(batch), st.now, k);
    CommitStream(cfg, st, q, cfg.main);
    assert Copy(cfg, ApplyRequeueCommit(cfg, st, q), b.body.origin, cfg.main, e);
  }

  /** What a step acknowledges it has copied first, in the same transaction, or it was accepted by the loop. */
  lemma AckIsCovered(cfg: Config, st: State, step: Step, i: nat, e: Entry)
    requires Sound(cfg, st) && i < |st.streams| && e in st.streams[i].entries && st.streams[i].Outstanding(e.id)
    requires Acks(cfg, st, step, i, e.id)
    ensures Covered(cfg, Apply(cfg, st, step), e.body.origin)
  {
    assert StreamOk(st.streams[i], st.now);
    match step
    case Move(p) =>
      var h := st.consumers[p].doing.held;
      assert ConsumerOk(cfg, st.streams, st.now, st.consumers[p]);
      SortedIds(st.streams[i].entries, h.entry, e);
      MoveCopies(cfg, st, p);
    case SendAck(p, applied) =>
      var h := st.consumers[p].doing.held;
      assert ConsumerOk(cfg, st.streams, st.now, st.consumers[p]);
      SortedIds(st.streams[i].entries, h.entry, e);
      var f := Finished(e.body, st.consumers[p].doing.outcome);
      assert f in Apply(cfg, st, step).finished;
    case RequeueCommit(q) =>
      assert RequeuerOk(st.streams[cfg.dlq], st.requeuers[q]);
      var b :| b in st.requeuers[q].batch && b.id == e.id;
      SortedIds(st.streams[i].entries, b, e);
      CommitCopies(cfg, st, q, b);
    case _ =>
  }

  lemma FinishedGrows(cfg: Config, st: State, step: Step)
    ensures st.finished <= Apply(cfg, st, step).finished
  {
  }

  lemma PublicationLater(cfg: Config, st: State, step: Step, b: Body, o: nat)
    requires IsPublication(st, b, o)
    ensures IsPublication(Apply(cfg, st, step), b, o)
  {
    hide Apply;
    PublicationsGrow(cfg, st, step);
  }

  lemma CopyLater(cfg: Config, st: State, step: Step, o: nat, i: nat, e: Entry)
    requires Sound(cfg, st) && Copy(cfg, st, o, i, e) && !Acks(cfg, st, step, i, e.id)
    ensures Copy(cfg, Apply(cfg, st, step), o, i, e)
  {
    hide Apply, Acks, Sound, IsPublication, Stream.Outstanding;
    OutstandingStays(cfg, st, step, i, e);
    PublicationLater(cfg, st, step, e.body, o);
    StepEvolves(cfg, st, step);
    assert Grows(st.streams[i], Apply(cfg, st, step).streams[i]);
  }

  lemma StepCovered(cfg: Config, st: State, step: Step, o: nat)
    requires Sound(cfg, st) && Covered(cfg, st, o)
    ensures Covered(cfg, Apply(cfg, st, step), o)
  {
    hide Apply, Acks, Sound, IsPublication, Copy;
    var t := Apply(cfg, st, step);
    if Done(st, o) {
      FinishedGrows(cfg, st, step);
      var f :| f in st.finished && IsPublication(st, f.body, o) && Loop.Accepts(f.outcome);
      PublicationLater(cfg, st, step, f.body, o);
      assert f in t.finished;
    } else {
      var i: nat, e :| Copy(cfg, st, o, i, e);
      if Acks(cfg, st, step, i, e.id) {
        CopyIsOutstanding(cfg, st, o, i, e);
        AckIsCovered(cfg, st, step, i, e);
      } else {
        CopyLater(cfg, st, step, o, i, e);
      }
    }
  }

  lemma CopyIsOutstanding(cfg: Config, st: State, o: nat, i: nat, e: Entry)
    requires Copy(cfg, st, o, i, e)
    ensures i < |st.streams| && e in st.streams[i].entries && st.streams[i].Outstanding(e.id) && e.body.origin == o
  {
  }

  lemma PublishCovers(cfg: Config, st: State, stream: nat, fields: Fields)
    requires Sound(cfg, st) && Enabled(cfg, st, Publish(stream, fields))
    ensures Covered(cfg, Apply(cfg, st, Publish(stream, fields)), st.Published())
  {
    var body := Body(st.Published(), fields);
    assert StreamOk(st.streams[stream], st.now);
    var e := NewestIsCopy(st.streams[stream], [body], st.now, 0);
    AddOne(st.streams[stream], body, st.now);
    assert Copy(cfg, Apply(cfg, st, Publish(stream, fields)), st.Published(), stream, e);
  }

  lemma PublishedStep(cfg: Config, st: State, step: Step)
    ensures Apply(cfg, st, step).Published()
         == st.Published() + if step.Publish? && Enabled(cfg, st, step) then 1 else 0
  {
  }

  /** No loss: with any number of publishers, consumers and re-queue processes, crashes at any point, expired leases,
      extensions, and acknowledgements that fail before or after taking effect, every publication is at all times
      undelivered or pending on a subscribed, main or dead-letter stream, or was acknowledged by a consumer whose loop
      accepted it. */
  lemma {:induction false} NoLoss(cfg: Config, st: State, steps: seq<Step>)
    requires Initial(cfg, st)
    ensures forall o: nat | o < Run(cfg, st, steps).Published() :: Covered(cfg, Run(cfg, st, steps), o)
  {
    if steps != [] {
      var n := |steps| - 1;
      var s, step := Run(cfg, st, steps[..n]), steps[n];
      NoLoss(cfg, st, steps[..n]);
      RunSound(cfg, st, steps[..n]);
      PublishedStep(cfg, s, step);
      forall o: nat | o < Run(cfg, st, steps).Published() ensures Covered(cfg, Run(cfg, st, steps), o) {
        if o < s.Published() { StepCovered(cfg, s, step, o); } else { PublishCovers(cfg, s, step.stream, step.fields); }
      }
    }
  }
}
