/** The consumer loop of hedwig/backends/base.py: error counter, heartbeat throttle, and ack/nack disposition.

What the hooks, the callback and the transport do, and what the clock reads, is the environment: it is given as a
script.  Times are microseconds since the epoch.
*/
module ConsumerLoop {

  /** How `process_message` ended: it returned, or raised one of the exception classes the loop tells apart. */
  datatype Processing = Returned | Ignored | Logged | Retried | Failed

  /** What happened to one message: whether the pre hook and the post hook returned, and how processing ended. */
  datatype Outcome = Outcome(preHook: bool, processing: Processing, postHook: bool)

  /** The message is done with: it must not be delivered again. */
  predicate Accepts(o: Outcome) {
    o.preHook && (o.processing.Returned? || o.processing.Ignored?) && o.postHook
  }

  /** One queue message with the clock readings and outcomes that go with it.  `forced` are the heartbeats that
      extending the visibility timeout triggers while the callback runs.  An ack that raises is only logged: nothing
      below depends on `ackRaises`. */
  datatype Delivery = Delivery(at: int, decodes: bool, outcome: Outcome, forced: seq<int>, beatAt: int, ackRaises: bool)

  /** What a pull does: yield a message, find nothing for a while, or raise. */
  datatype Event = Yield(delivery: Delivery) | Quiet(checkAt: int, beatAt: int) | PullRaised

  type Pull = seq<Event>

  /** What can be seen from outside, in order; messages are numbered as they are received. */
  datatype Action =
    | Received(message: nat, at: int)
    | Processed(message: nat, processing: Processing)
    | Heartbeat(at: int, reported: nat, forced: bool)
    | InactivityCheck(at: int, reset: bool)
    | Ack(message: nat)
    | Nack(message: nat)

  datatype Settings = Settings(heartbeatInterval: int, inactivityReset: int)

  datatype LoopState = LoopState(
    errorCount: nat, heartbeatCalledAt: int, lastMessageReceivedAt: int, received: nat, raised: bool, log: seq<Action>)

  const INITIAL := LoopState(0, 0, 0, 0, false, [])

  // ---- specification: one event at a time ----

  function Beat(cfg: Settings, st: LoopState, now: int, force: bool): LoopState {
    if force || st.heartbeatCalledAt + cfg.heartbeatInterval < now
    then st.(heartbeatCalledAt := now, log := st.log + [Heartbeat(now, st.errorCount, force)])
    else st
  }

  function Beats(cfg: Settings, st: LoopState, times: seq<int>): LoopState {
    if times == [] then st
    else Beat(cfg, Beats(cfg, st, times[..|times| - 1]), times[|times| - 1], true)
  }

  predicate ResetDue(cfg: Settings, st: LoopState, now: int) {
    cfg.inactivityReset != 0 && st.errorCount != 0 && st.lastMessageReceivedAt + cfg.inactivityReset < now
  }

  function Check(cfg: Settings, st: LoopState, now: int): LoopState {
    st.(errorCount := if ResetDue(cfg, st, now) then 0 else st.errorCount,
        log := st.log + [InactivityCheck(now, ResetDue(cfg, st, now))])
  }

  function CountAfter(errorCount: nat, p: Processing): nat {
    match p
    case Returned => 0
    case Failed => errorCount + 1
    case _ => errorCount
  }

  function Dispose(message: nat, o: Outcome): Action {
    if Accepts(o) then Ack(message) else Nack(message)
  }

  predicate Rejected(p: Processing) {
    !p.Returned? && !p.Ignored?
  }

  /** Processing and what follows it.  A message whose processing is rejected is nacked before the heartbeat; any
      other is disposed of after it. */
  function Process(cfg: Settings, st: LoopState, message: nat, d: Delivery): LoopState {
    var p := d.outcome.processing;
    var s1 := Beats(cfg, st, d.forced);
    var s2 := s1.(errorCount := CountAfter(s1.errorCount, p),
                  log := s1.log + [Processed(message, p)] + if Rejected(p) then [Nack(message)] else []);
    var s3 := Beat(cfg, s2, d.beatAt, false);
    if Rejected(p) then s3 else s3.(log := s3.log + [Dispose(message, d.outcome)])
  }

  function Deliver(cfg: Settings, st: LoopState, d: Delivery): LoopState {
    var message := st.received;
    var s0 := st.(lastMessageReceivedAt := d.at, received := message + 1, log := st.log + [Received(message, d.at)]);
    if !d.decodes then s0.(raised := true)
    else if !d.outcome.preHook then s0.(log := s0.log + [Nack(message)])
    else Process(cfg, s0, message, d)
  }

  function Step(cfg: Settings, st: LoopState, event: Event): LoopState {
    match event
    case Yield(d) => Deliver(cfg, st, d)
    case Quiet(checkAt, beatAt) => Beat(cfg, Check(cfg, st, checkAt), beatAt, false)
    case PullRaised => st.(raised := true)
  }

  /** An exception that leaves the loop ends the run. */
  function Run(cfg: Settings, st: LoopState, events: seq<Event>): LoopState {
    if events == [] then st
    else
      var s := Run(cfg, st, events[..|events| - 1]);
      if s.raised then s else Step(cfg, s, events[|events| - 1])
  }

  function Flatten(pulls: seq<Pull>): seq<Event> {
    if pulls == [] then [] else Flatten(pulls[..|pulls| - 1]) + pulls[|pulls| - 1]
  }

  // ---- the object ----

  class HedwigConsumerBaseBackend {
    const cfg: Settings
    var errorCount: nat
    var heartbeatCalledAt: int
    var lastMessageReceivedAt: int
    var received: nat
    var log: seq<Action>

    ghost function State(raised: bool): LoopState
      reads this
    {
      LoopState(errorCount, heartbeatCalledAt, lastMessageReceivedAt, received, raised, log)
    }

    constructor (cfg: Settings)
      ensures this.cfg == cfg && State(false) == INITIAL
    {
      this.cfg := cfg;
      errorCount, heartbeatCalledAt, lastMessageReceivedAt, received, log := 0, 0, 0, 0, [];
    }

    method CallHeartbeatHook(now: int, force: bool)
      modifies this
      ensures State(false) == Beat(cfg, old(State(false)), now, force)
    {
      if force || heartbeatCalledAt + cfg.heartbeatInterval < now {
        log := log + [Heartbeat(now, errorCount, force)];
        heartbeatCalledAt := now;
      }
    }

    method PerformErrorCounterInactivityReset(now: int)
      modifies this
      ensures State(false) == Check(cfg, old(State(false)), now)
    {
      var reset := false;
      if cfg.inactivityReset != 0 && errorCount != 0 {
        if lastMessageReceivedAt + cfg.inactivityReset < now {
          errorCount := 0;
          reset := true;
        }
      }
      log := log + [InactivityCheck(now, reset)];
    }

    /** The callback runs here; extending the visibility timeout forces heartbeats meanwhile. */
    method ProcessMessage(message: nat, d: Delivery)
      modifies this
      ensures State(false) == var s := Beats(cfg, old(State(false)), d.forced);
                              s.(log := s.log + [Processed(message, d.outcome.processing)])
    {
      for i := 0 to |d.forced|
        invariant State(false) == Beats(cfg, old(State(false)), d.forced[..i])
      {
        assert d.forced[..i + 1][..i] == d.forced[..i];
        CallHeartbeatHook(d.forced[i], true);
      }
      assert d.forced[..|d.forced|] == d.forced;
      log := log + [Processed(message, d.outcome.processing)];
    }

    /** The body of the inner loop. */
    method HandleMessage(d: Delivery) returns (raised: bool)
      modifies this
      ensures State(raised) == Deliver(cfg, old(State(false)), d)
    {
      hide Beats;
      var message := received;
      received := received + 1;
      lastMessageReceivedAt := d.at;
      log := log + [Received(message, d.at)];
      if !d.decodes { return true; }
      raised := false;
      if !d.outcome.preHook {
        log := log + [Nack(message)];
        return;
      }
      ProcessMessage(message, d);
      match d.outcome.processing {
        case Returned => errorCount := 0;
        case Ignored =>
        case Logged => log := log + [Nack(message)];
        case Retried => log := log + [Nack(message)];
        case Failed => log := log + [Nack(message)]; errorCount := errorCount + 1;
      }
      CallHeartbeatHook(d.beatAt, false);
      if Rejected(d.outcome.processing) { return; }
      if !d.outcome.postHook {
        log := log + [Nack(message)];
        return;
      }
      log := log + [Ack(message)];
    }

    /** One pull per turn until shutdown is seen, which is when the script ends.  A pull that has started is always
        consumed to its end. */
    method FetchAndProcessMessages(script: seq<Pull>) returns (raised: bool)
      modifies this
      ensures State(raised) == Run(cfg, old(State(false)), Flatten(script))
    {
      hide Deliver, Beat, Check;
      raised := false;
      ghost var start := State(false);
      for i := 0 to |script|
        invariant !raised
        invariant State(false) == Run(cfg, start, Flatten(script[..i]))
      {
        var pull := script[i];
        ghost var before := Flatten(script[..i]);
        assert before + pull[..0] == before;
        for j := 0 to |pull|
          invariant !raised
          invariant State(false) == Run(cfg, start, before + pull[..j])
        {
          assert (before + pull[..j + 1])[..|before| + j] == before + pull[..j];
          match pull[j] {
            case Yield(d) => raised := HandleMessage(d);
            case Quiet(checkAt, beatAt) =>
              PerformErrorCounterInactivityReset(checkAt);
              CallHeartbeatHook(beatAt, false);
            case PullRaised => raised := true;
          }
          assert State(raised) == Run(cfg, start, before + pull[..j + 1]);
          if raised {
            FlattenPrefix(script, i, j + 1);
            RaisedStays(cfg, start, before + pull[..j + 1], Flatten(script));
            return;
          }
        }
        assert pull[..|pull|] == pull && script[..i + 1][..i] == script[..i];
      }
      assert script[..|script|] == script;
    }
  }

  lemma {:induction false} FlattenPrefix(script: seq<Pull>, i: nat, j: nat)
    requires i < |script| && j <= |script[i]|
    ensures Flatten(script[..i]) + script[i][..j] <= Flatten(script)
  {
    var n := |script| - 1;
    if i == n {
      assert script[..n] == script[..i];
    } else {
      FlattenPrefix(script[..n], i, j);
      assert script[..n][..i] == script[..i];
    }
  }

  lemma {:induction false} RaisedStays(cfg: Settings, st: LoopState, prefix: seq<Event>, events: seq<Event>)
    requires prefix <= events && Run(cfg, st, prefix).raised
    ensures Run(cfg, st, events) == Run(cfg, st, prefix)
  {
    if prefix == events {
    } else {
      RaisedStays(cfg, st, prefix, events[..|events| - 1]);
    }
  }
}
