/** The Redis Streams delivery protocol as a state machine: any number of consumer processes, re-queue processes and
publishers act on one server, one command at a time, in any order, and any process may die between two commands.

A pull is a lazy generator, so a consumer is described by where its generator is: the next command to fetch with,
the entries of the claimed batch it has not reached, and what it is doing with the entry it has reached.
*/
module RedisProtocol {
  import opened RedisStreams
  import Loop = ConsumerLoop

  /** A stream of the server and an entry of that stream. */
  datatype Key = Key(stream: nat, id: nat)

  /** An entry a consumer has received and not finished with.  `since` is when the server last granted it to this
      consumer; no branch depends on it. */
  datatype Held = Held(stream: nat, entry: Entry, since: int) {
    function At(): Key { Key(stream, entry.id) }
  }

  datatype Doing =
    | Waiting
    | Handling(held: Held, attempt: nat)     // yielded to the loop
    | Moving(held: Held)                     // attempt check failed, dead-letter transaction not sent yet
    | Acking(held: Held, outcome: Loop.Outcome)   // accepted by the loop, XACK not sent yet

  datatype Consumer = Consumer(cid: nat, phase: nat, todo: seq<Held>, doing: Doing) {
    function Holds(): seq<Held> {
      todo + if doing.Waiting? then [] else [doing.held]
    }
  }

  /** A re-queue process: `reading` once it has passed from the claiming loop to the reading loop. */
  datatype Requeuer = Requeuer(cid: nat, reading: bool, batch: seq<Entry>)

  /** `watched` lists the streams a consumer pulls from, `main` (one of them) receives re-queued entries. */
  datatype Config = Config(watched: seq<nat>, main: nat, dlq: nat, maxAttempts: nat, visibility: nat) {
    predicate Fits(streams: nat) {
      main in watched && main != dlq && dlq < streams && (forall w <- watched :: w < streams)
    }
  }

  datatype Handout = Handout(key: Key, body: Body, attempt: nat)

  datatype Finished = Finished(body: Body, outcome: Loop.Outcome)

  /** The server, the processes, and the history of the run: the fields of each publication so far, entries handed to
      the loop, entries acknowledged after being accepted, and publications copied by re-queueing.  No branch depends on
      the history. */
  datatype State = State(
    streams: seq<Stream>, now: nat, consumers: seq<Consumer>, requeuers: seq<Requeuer>,
    publications: seq<Fields>, handouts: seq<Handout>, finished: seq<Finished>, requeued: seq<nat>)
  {
    function Published(): nat { |publications| }
  }

  datatype Step =
    | Publish(stream: nat, fields: Fields)
    | Tick(ms: nat)
    | Fetch(p: nat, count: nat)
    | Lookup(p: nat)
    | Move(p: nat)
    | Finish(p: nat, outcome: Loop.Outcome)
    | SendAck(p: nat, applied: bool)
    | Extend(p: nat, key: Key)
    | Crash(p: nat, cid: nat)
    | RequeueFetch(q: nat, count: nat)
    | RequeueCommit(q: nat)
    | RequeueCrash(q: nat, cid: nat)

  // ---- receiving ----

  /** The names of an XREADGROUP: a dictionary has each stream once. */
  function Unique(names: seq<nat>): (r: seq<nat>)
    ensures forall n :: n in r <==> n in names
    ensures forall i, j | 0 <= i < j < |r| :: r[i] != r[j]
  {
    if names == [] then []
    else
      var n := |names| - 1;
      var front := Unique(names[..n]);
      if names[n] in front then front else front + [names[n]]
  }

  function Hold(stream: nat, batch: seq<Entry>, now: int): (r: seq<Held>)
    ensures |r| == |batch|
    ensures forall h :: h in r <==> h.stream == stream && h.since == now && h.entry in batch
  {
    var r := seq(|batch|, i requires 0 <= i < |batch| => Held(stream, batch[i], now));
    assert forall i | 0 <= i < |batch| :: r[i] == Held(stream, batch[i], now) && r[i] in r;
    assert forall h: Held | h.stream == stream && h.since == now :: h == Held(stream, h.entry, now);
    r
  }

  /** The batch each stream would give. */
  function Offers(streams: seq<Stream>, how: Receive, now: int): (r: seq<seq<Entry>>)
    ensures |r| == |streams|
  {
    seq(|streams|, i requires 0 <= i < |streams| => Batch(streams[i], how, now))
  }

  /** What one receiving command returns: the batch of each named stream, in the order of the names. */
  function Gather(offers: seq<seq<Entry>>, names: seq<nat>, now: int): (r: seq<Held>)
    requires forall n <- names :: n < |offers|
    ensures forall h :: h in r <==> h.stream in names && h.since == now && h.entry in offers[h.stream]
  {
    if names == [] then []
    else
      var n := |names| - 1;
      assert names[n] in names && forall x <- names[..n] :: x in names;
      assert forall x <- names :: x == names[n] || x in names[..n];
      Gather(offers, names[..n], now) + Hold(names[n], offers[names[n]], now)
  }

  function ReceivedAll(streams: seq<Stream>, names: seq<nat>, how: Receive, cid: nat, now: int): (r: seq<Stream>)
    ensures |r| == |streams|
  {
    seq(|streams|, i requires 0 <= i < |streams| =>
      if i in names then Received(streams[i], how, cid, now) else streams[i])
  }

  // ---- steps ----

  predicate Enabled(cfg: Config, st: State, step: Step) {
    && cfg.Fits(|st.streams|)
    && match step
       case Publish(stream, _) => stream in cfg.watched
       case Tick(_) => true
       case Fetch(p, _) => p < |st.consumers| && st.consumers[p].doing.Waiting? && st.consumers[p].todo == []
       case Lookup(p) =>
         && p < |st.consumers| && st.consumers[p].doing.Waiting? && st.consumers[p].todo != []
         && st.consumers[p].todo[0].stream < |st.streams|
       case Move(p) =>
         p < |st.consumers| && st.consumers[p].doing.Moving? && st.consumers[p].doing.held.stream < |st.streams|
       case Finish(p, _) => p < |st.consumers| && st.consumers[p].doing.Handling?
       case SendAck(p, _) =>
         p < |st.consumers| && st.consumers[p].doing.Acking? && st.consumers[p].doing.held.stream < |st.streams|
       case Extend(p, key) => p < |st.consumers| && key.stream < |st.streams|
       case Crash(p, _) => p < |st.consumers|
       case RequeueFetch(q, _) => q < |st.requeuers| && st.requeuers[q].batch == []
       case RequeueCommit(q) => q < |st.requeuers| && st.requeuers[q].batch != []
       case RequeueCrash(q, _) => q < |st.requeuers|
  }

  /** The next command of a pull: XAUTOCLAIM on each stream in turn, then one XREADGROUP on all of them. */
  function FetchFrom(cfg: Config, c: Consumer, count: nat): (r: (seq<nat>, Receive, nat))
    ensures forall n <- r.0 :: n in cfg.watched
  {
    if c.phase < |cfg.watched|
    then ([cfg.watched[c.phase]], AutoClaim(cfg.visibility, count), c.phase + 1)
    else (Unique(cfg.watched), ReadNew(count), 0)
  }

  function ApplyFetch(cfg: Config, st: State, p: nat, count: nat): State
    requires Enabled(cfg, st, Fetch(p, count))
  {
    var c := st.consumers[p];
    var (names, how, phase) := FetchFrom(cfg, c, count);
    st.(streams := ReceivedAll(st.streams, names, how, c.cid, st.now),
        consumers := st.consumers[p := c.(phase := phase,
                                          todo := Gather(Offers(st.streams, how, st.now), names, st.now))])
  }

  /** The attempt check.  An entry that is no longer pending has no pending line to index, and the consumer dies. */
  function ApplyLookup(cfg: Config, st: State, p: nat): State
    requires Enabled(cfg, st, Lookup(p))
  {
    var c := st.consumers[p];
    var h := c.todo[0];
    var pel := st.streams[h.stream].pel;
    if h.entry.id !in pel then
      st.(consumers := st.consumers[p := Consumer(c.cid, 0, [], Waiting)])
    else if pel[h.entry.id].times > cfg.maxAttempts then
      st.(consumers := st.consumers[p := c.(todo := c.todo[1..], doing := Moving(h))])
    else
      var attempt := pel[h.entry.id].times;
      st.(consumers := st.consumers[p := c.(todo := c.todo[1..], doing := Handling(h, attempt))],
          handouts := st.handouts + [Handout(h.At(), h.entry.body, attempt)])
  }

  /** The dead-letter transaction: XADD to the dead-letter stream, XACK on the stream the entry came from. */
  function ApplyMove(cfg: Config, st: State, p: nat): State
    requires Enabled(cfg, st, Move(p))
  {
    var c := st.consumers[p];
    var h := c.doing.held;
    var added := st.streams[cfg.dlq := XAdd(st.streams[cfg.dlq], h.entry.body, st.now)];
    st.(streams := added[h.stream := XAck(added[h.stream], {h.entry.id})],
        consumers := st.consumers[p := c.(doing := Waiting)])
  }

  function ApplySendAck(st: State, p: nat, applied: bool): State
    requires p < |st.consumers| && st.consumers[p].doing.Acking? && st.consumers[p].doing.held.stream < |st.streams|
  {
    var c := st.consumers[p];
    var h := c.doing.held;
    var t := st.(consumers := st.consumers[p := c.(doing := Waiting)]);
    if !applied then t
    else
      t.(streams := st.streams[h.stream := XAck(st.streams[h.stream], {h.entry.id})],
         finished := if h.entry.id in st.streams[h.stream].pel
                     then st.finished + [Finished(h.entry.body, c.doing.outcome)] else st.finished)
  }

  function Renew(h: Held, key: Key, now: int): Held {
    if h.At() == key then h.(since := now) else h
  }

  /** XCLAIM by consumer `p`.  The lease it holds on the entry, if it holds it and the entry is pending, restarts. */
  function ApplyExtend(st: State, p: nat, key: Key): State
    requires p < |st.consumers| && key.stream < |st.streams|
  {
    var c := st.consumers[p];
    var s := st.streams[key.stream];
    if key.id !in s.pel then st
    else
      var todo := seq(|c.todo|, i requires 0 <= i < |c.todo| => Renew(c.todo[i], key, st.now));
      var doing := if c.doing.Waiting? then Waiting else c.doing.(held := Renew(c.doing.held, key, st.now));
      st.(streams := st.streams[key.stream := XClaimJustId(s, c.cid, st.now, key.id)],
          consumers := st.consumers[p := c.(todo := todo, doing := doing)])
  }

  function ApplyRequeueFetch(cfg: Config, st: State, q: nat, count: nat): State
    requires Enabled(cfg, st, RequeueFetch(q, count))
  {
    var r := st.requeuers[q];
    var how := if r.reading then ReadNew(count) else AutoClaim(0, count);
    var batch := Batch(st.streams[cfg.dlq], how, st.now);
    st.(streams := st.streams[cfg.dlq := Received(st.streams[cfg.dlq], how, r.cid, st.now)],
        requeuers := st.requeuers[q := r.(reading := if batch == [] then !r.reading else r.reading, batch := batch)])
  }

  function Origins(bodies: seq<Body>): (r: seq<nat>)
    ensures |r| == |bodies|
  {
    seq(|bodies|, i requires 0 <= i < |bodies| => bodies[i].origin)
  }

  /** The re-queue transaction: XADD every entry of the batch to the main stream, XACK them all. */
  function ApplyRequeueCommit(cfg: Config, st: State, q: nat): State
    requires Enabled(cfg, st, RequeueCommit(q))
  {
    var r := st.requeuers[q];
    st.(streams := st.streams[cfg.main := XAddAll(st.streams[cfg.main], Bodies(r.batch), st.now)]
                             [cfg.dlq := XAck(st.streams[cfg.dlq], Ids(r.batch))],
        requeuers := st.requeuers[q := r.(batch := [])],
        requeued := st.requeued + Origins(Bodies(r.batch)))
  }

  /** A step that is not enabled changes nothing. */
  function Apply(cfg: Config, st: State, step: Step): State {
    if !Enabled(cfg, st, step) then st
    else match step
      case Publish(stream, fields) =>
        st.(streams := st.streams[stream := XAdd(st.streams[stream], Body(st.Published(), fields), st.now)],
            publications := st.publications + [fields])
      case Tick(ms) => st.(now := st.now + ms)
      case Fetch(p, count) => ApplyFetch(cfg, st, p, count)
      case Lookup(p) => ApplyLookup(cfg, st, p)
      case Move(p) => ApplyMove(cfg, st, p)
      case Finish(p, o) =>
        var c := st.consumers[p];
        st.(consumers := st.consumers[p := c.(doing := if Loop.Accepts(o) then Acking(c.doing.held, o) else Waiting)])
      case SendAck(p, applied) => ApplySendAck(st, p, applied)
      case Extend(p, key) => ApplyExtend(st, p, key)
      case Crash(p, cid) => st.(consumers := st.consumers[p := Consumer(cid, 0, [], Waiting)])
      case RequeueFetch(q, count) => ApplyRequeueFetch(cfg, st, q, count)
      case RequeueCommit(q) => ApplyRequeueCommit(cfg, st, q)
      case RequeueCrash(q, cid) => st.(requeuers := st.requeuers[q := Requeuer(cid, false, [])])
  }

  /** Every run starts with empty streams and idle processes. */
  predicate Initial(cfg: Config, st: State) {
    && cfg.Fits(|st.streams|)
    && (forall s <- st.streams :: s == EMPTY)
    && (forall c <- st.consumers :: c.phase == 0 && c.todo == [] && c.doing.Waiting?)
    && (forall r <- st.requeuers :: !r.reading && r.batch == [])
    && st.publications == [] && st.handouts == [] && st.finished == [] && st.requeued == []
  }

  function Run(cfg: Config, st: State, steps: seq<Step>): State {
    if steps == [] then st
    else Apply(cfg, Run(cfg, st, steps[..|steps| - 1]), steps[|steps| - 1])
  }

  lemma RunNothing(cfg: Config, st: State)
    ensures Run(cfg, st, []) == st
  {
  }

  lemma {:induction false} RunAppend(cfg: Config, st: State, a: seq<Step>, b: seq<Step>)
    ensures Run(cfg, st, a + b) == Run(cfg, Run(cfg, st, a), b)
  {
    if b == [] {
      assert a + b == a;
    } else {
      var n := |b| - 1;
      assert (a + b)[..|a| + n] == a + b[..n];
      RunAppend(cfg, st, a, b[..n]);
    }
  }

  lemma RunOne(cfg: Config, st: State, a: seq<Step>, step: Step)
    ensures Run(cfg, st, a + [step]) == Apply(cfg, Run(cfg, st, a), step)
  {
    assert (a + [step])[..|a|] == a;
  }
}
