/** What whole runs of the consumer loop promise, stated on the observed actions alone. */
module ConsumerLoopRuns {
  import opened ConsumerLoop

  // ---- readings of a log that do not look at the loop's counters ----

  predicate EndsErrors(a: Action) {
    (a.Processed? && a.processing.Returned?) || (a.InactivityCheck? && a.reset)
  }

  predicate IsError(a: Action) {
    a.Processed? && a.processing.Failed?
  }

  /** The generic exceptions since the latest success or inactivity reset, as positions in the log. */
  ghost function ErrorsSince(log: seq<Action>): set<nat> {
    set j: nat | j < |log| && IsError(log[j]) && forall k | j < k < |log| :: !EndsErrors(log[k])
  }

  function LastReceived(log: seq<Action>): int {
    if log == [] then 0
    else if log[|log| - 1].Received? then log[|log| - 1].at
    else LastReceived(log[..|log| - 1])
  }

  function LastBeat(log: seq<Action>): int {
    if log == [] then 0
    else if log[|log| - 1].Heartbeat? then log[|log| - 1].at
    else LastBeat(log[..|log| - 1])
  }

  /** What the actions before it say about one action. */
  ghost predicate Explained(cfg: Settings, before: seq<Action>, a: Action) {
    match a
    case Heartbeat(at, reported, forced) =>
      && reported == |ErrorsSince(before)|
      && (!forced ==> LastBeat(before) + cfg.heartbeatInterval < at)
    case InactivityCheck(at, reset) =>
      reset <==>
        cfg.inactivityReset != 0 && ErrorsSince(before) != {} && LastReceived(before) + cfg.inactivityReset < at
    case _ => true
  }

  ghost predicate AllExplained(cfg: Settings, log: seq<Action>) {
    forall k | 0 <= k < |log| :: Explained(cfg, log[..k], log[k])
  }

  /** The loop's fields agree with the log. */
  ghost predicate Consistent(cfg: Settings, st: LoopState) {
    && st.errorCount == |ErrorsSince(st.log)|
    && st.lastMessageReceivedAt == LastReceived(st.log)
    && st.heartbeatCalledAt == LastBeat(st.log)
    && AllExplained(cfg, st.log)
  }

  lemma ErrorsMember(log: seq<Action>, a: Action, j: nat)
    ensures j in ErrorsSince(log + [a])
            <==> (j == |log| && IsError(a)) || (!EndsErrors(a) && j in ErrorsSince(log))
  {
    hide IsError, EndsErrors;
    var more := log + [a];
    assert more[|log|] == a;
    assert forall k | 0 <= k < |log| :: more[k] == log[k];
    if j < |log| && j in ErrorsSince(more) {
      forall k | j < k < |log| ensures !EndsErrors(log[k]) { assert more[k] == log[k]; }
    }
  }

  lemma ErrorsAppend(log: seq<Action>, a: Action)
    ensures ErrorsSince(log + [a]) ==
            (if EndsErrors(a) then {} else ErrorsSince(log)) + (if IsError(a) then {|log|} else {})
    ensures |ErrorsSince(log + [a])| ==
            (if EndsErrors(a) then 0 else |ErrorsSince(log)|) + (if IsError(a) then 1 else 0)
  {
    forall j: nat
      ensures j in ErrorsSince(log + [a])
              <==> (j == |log| && IsError(a)) || (!EndsErrors(a) && j in ErrorsSince(log))
    {
      ErrorsMember(log, a, j);
    }
    assert |log| !in ErrorsSince(log);
  }

  lemma ExplainedMore(cfg: Settings, log: seq<Action>, a: Action)
    requires AllExplained(cfg, log) && Explained(cfg, log, a)
    ensures AllExplained(cfg, log + [a])
  {
    hide Explained;
    var more := log + [a];
    assert more[..|log|] == log;
    forall k | 0 <= k < |more| ensures Explained(cfg, more[..k], more[k]) {
      if k < |log| { assert more[..k] == log[..k] && more[k] == log[k]; }
    }
  }

  lemma LastMore(log: seq<Action>, a: Action)
    ensures LastReceived(log + [a]) == if a.Received? then a.at else LastReceived(log)
    ensures LastBeat(log + [a]) == if a.Heartbeat? then a.at else LastBeat(log)
  {
    assert (log + [a])[..|log|] == log;
  }

  /** Appending one explained action keeps a log explained, and moves each reading by what that action says. */
  lemma Append(cfg: Settings, st: LoopState, a: Action, t: LoopState)
    requires Consistent(cfg, st) && Explained(cfg, st.log, a)
    requires t.log == st.log + [a]
    requires t.errorCount == (if EndsErrors(a) then 0 else st.errorCount) + (if IsError(a) then 1 else 0)
    requires t.lastMessageReceivedAt == if a.Received? then a.at else st.lastMessageReceivedAt
    requires t.heartbeatCalledAt == if a.Heartbeat? then a.at else st.heartbeatCalledAt
    ensures Consistent(cfg, t)
  {
    hide Explained, ErrorsSince, AllExplained, LastReceived, LastBeat, EndsErrors, IsError;
    ErrorsAppend(st.log, a);
    ExplainedMore(cfg, st.log, a);
    LastMore(st.log, a);
  }

  lemma BeatConsistent(cfg: Settings, st: LoopState, now: int, force: bool)
    requires Consistent(cfg, st)
    ensures Consistent(cfg, Beat(cfg, st, now, force))
  {
    if force || st.heartbeatCalledAt + cfg.heartbeatInterval < now {
      Append(cfg, st, Heartbeat(now, st.errorCount, force), Beat(cfg, st, now, force));
    }
  }

  lemma {:induction false} BeatsConsistent(cfg: Settings, st: LoopState, times: seq<int>)
    requires Consistent(cfg, st)
    ensures Consistent(cfg, Beats(cfg, st, times))
  {
    if times != [] {
      BeatsConsistent(cfg, st, times[..|times| - 1]);
      BeatConsistent(cfg, Beats(cfg, st, times[..|times| - 1]), times[|times| - 1], true);
    }
  }

  lemma ProcessConsistent(cfg: Settings, st: LoopState, message: nat, d: Delivery)
    requires Consistent(cfg, st)
    ensures Consistent(cfg, Process(cfg, st, message, d))
  {
    var p := d.outcome.processing;
    BeatsConsistent(cfg, st, d.forced);
    var s1 := Beats(cfg, st, d.forced);
    var done := s1.(errorCount := CountAfter(s1.errorCount, p), log := s1.log + [Processed(message, p)]);
    Append(cfg, s1, Processed(message, p), done);
    if Rejected(p) {
      var s2 := done.(log := done.log + [Nack(message)]);
      Append(cfg, done, Nack(message), s2);
      assert s2.log == s1.log + [Processed(message, p)] + [Nack(message)];
      BeatConsistent(cfg, s2, d.beatAt, false);
    } else {
      assert done.log == s1.log + [Processed(message, p)] + [];
      BeatConsistent(cfg, done, d.beatAt, false);
      var s3 := Beat(cfg, done, d.beatAt, false);
      Append(cfg, s3, Dispose(message, d.outcome), s3.(log := s3.log + [Dispose(message, d.outcome)]));
    }
  }

  lemma StepConsistent(cfg: Settings, st: LoopState, event: Event)
    requires Consistent(cfg, st)
    ensures Consistent(cfg, Step(cfg, st, event))
  {
    hide Process, AllExplained;
    match event
    case Yield(d) =>
      var message := st.received;
      var s0 := st.(lastMessageReceivedAt := d.at, received := message + 1, log := st.log + [Received(message, d.at)]);
      Append(cfg, st, Received(message, d.at), s0);
      if d.decodes {
        if d.outcome.preHook {
          ProcessConsistent(cfg, s0, message, d);
        } else {
          Append(cfg, s0, Nack(message), s0.(log := s0.log + [Nack(message)]));
        }
      }
    case Quiet(checkAt, beatAt) =>
      Append(cfg, st, InactivityCheck(checkAt, ResetDue(cfg, st, checkAt)), Check(cfg, st, checkAt));
      BeatConsistent(cfg, Check(cfg, st, checkAt), beatAt, false);
    case PullRaised =>
  }

  /** Error counter: in every run it is the number of generic exceptions since the latest success or inactivity
      reset; every heartbeat reports that number; and an inactivity check resets exactly when a period is configured,
      there are errors to forget, and strictly more than that period has passed since the latest message. */
  lemma {:induction false} CounterMeansErrorsSince(cfg: Settings, events: seq<Event>)
    ensures Consistent(cfg, Run(cfg, INITIAL, events))
  {
    if events == [] {
      assert ErrorsSince([]) == {};
    } else {
      var front := events[..|events| - 1];
      CounterMeansErrorsSince(cfg, front);
      var s := Run(cfg, INITIAL, front);
      if !s.raised { StepConsistent(cfg, s, events[|events| - 1]); }
    }
  }

  // ---- heartbeat rate ----

  /** The clock, as far as heartbeats read it, does not run backwards. */
  ghost predicate Monotone(log: seq<Action>) {
    forall j, k | 0 <= j < k < |log| && log[j].Heartbeat? && log[k].Heartbeat? :: log[j].at <= log[k].at
  }

  /** Times of the unforced hook calls between `from` and `from + width`. */
  function UnforcedIn(log: seq<Action>, from: int, width: nat): seq<int> {
    if log == [] then []
    else
      var a := log[|log| - 1];
      UnforcedIn(log[..|log| - 1], from, width) +
      if a.Heartbeat? && !a.forced && from <= a.at <= from + width then [a.at] else []
  }

  lemma {:induction false} LastBeatIsLatest(log: seq<Action>, j: nat)
    requires Monotone(log) && j < |log| && log[j].Heartbeat?
    ensures log[j].at <= LastBeat(log)
  {
    var n := |log| - 1;
    if j < n && !log[n].Heartbeat? {
      LastBeatIsLatest(log[..n], j);
    }
  }

  ghost predicate Spaced(times: seq<int>, interval: int) {
    forall i | 0 <= i < |times| - 1 :: times[i] + interval < times[i + 1]
  }

  lemma FrontExplained(cfg: Settings, log: seq<Action>)
    requires log != [] && AllExplained(cfg, log) && Monotone(log)
    ensures AllExplained(cfg, log[..|log| - 1]) && Monotone(log[..|log| - 1])
    ensures Explained(cfg, log[..|log| - 1], log[|log| - 1])
  {
    hide Explained;
    var front := log[..|log| - 1];
    assert forall k | 0 <= k < |front| :: front[k] == log[k] && front[..k] == log[..k];
  }

  lemma SpacedMore(times: seq<int>, t: int, interval: int)
    requires Spaced(times, interval) && (times != [] ==> times[|times| - 1] + interval < t)
    ensures Spaced(times + [t], interval)
  {
  }

  lemma {:induction false} UnforcedAreSpaced(cfg: Settings, log: seq<Action>, from: int, width: nat)
    requires AllExplained(cfg, log) && Monotone(log)
    ensures var times := UnforcedIn(log, from, width);
            && Spaced(times, cfg.heartbeatInterval)
            && (forall t <- times :: from <= t <= from + width)
            && (times != [] ==> exists j: nat :: j < |log| && log[j].Heartbeat? && log[j].at == times[|times| - 1])
  {
    hide ErrorsSince, AllExplained, Monotone, Spaced;
    if log == [] {
      NoneSpaced(cfg.heartbeatInterval);
    } else {
      var n := |log| - 1;
      var front, a := log[..n], log[n];
      FrontExplained(cfg, log);
      UnforcedAreSpaced(cfg, front, from, width);
      var earlier := UnforcedIn(front, from, width);
      if earlier != [] {
        var j: nat :| j < |front| && front[j].Heartbeat? && front[j].at == earlier[|earlier| - 1];
        LastBeatIsLatest(front, j);
        assert log[j] == front[j];
      }
      var times := UnforcedIn(log, from, width);
      if a.Heartbeat? && !a.forced && times == earlier + [a.at] {
        SpacedMore(earlier, a.at, cfg.heartbeatInterval);
        assert log[n].at == times[|times| - 1];
      } else {
        assert times == earlier;
      }
    }
  }

  lemma NoneSpaced(interval: int)
    ensures Spaced([], interval)
  {
  }

  lemma {:induction false} SpacedSpan(times: seq<int>, interval: nat)
    requires times != [] && Spaced(times, interval)
    ensures times[0] + (|times| - 1) * interval <= times[|times| - 1]
  {
    var n := |times| - 1;
    if n > 0 {
      SpacedSpan(times[..n], interval);
      assert times[n - 1] + interval < times[n];
      assert n * interval == (n - 1) * interval + interval;
    }
  }

  lemma MulMono(a: nat, b: nat, d: nat)
    requires a <= b
    ensures a * d <= b * d
  {
  }

  lemma Quotient(n: nat, d: nat, w: nat)
    requires d > 0 && n * d <= w
    ensures n <= w / d
  {
    var q := w / d;
    assert w == q * d + w % d;
    if n > q {
      MulMono(q + 1, n, d);
      assert false;
    }
  }

  lemma SpacedCount(times: seq<int>, interval: nat, from: int, width: nat)
    requires interval > 0 && Spaced(times, interval) && forall t <- times :: from <= t <= from + width
    ensures |times| <= width / interval + 1
  {
    if times != [] {
      SpacedSpan(times, interval);
      var n := |times| - 1;
      assert times[0] in times && times[n] in times;
      assert from <= times[0] && times[n] <= from + width;
      Quotient(n, interval, width);
    }
  }

  /** Heartbeat rate: however many messages, forced calls and idle polls a run has, no window of length `width`
      holds more than width / interval + 1 unforced hook calls. */
  lemma HeartbeatRateBound(cfg: Settings, events: seq<Event>, from: int, width: nat)
    requires cfg.heartbeatInterval > 0 && Monotone(Run(cfg, INITIAL, events).log)
    ensures |UnforcedIn(Run(cfg, INITIAL, events).log, from, width)| <= width / cfg.heartbeatInterval + 1
  {
    var log := Run(cfg, INITIAL, events).log;
    CounterMeansErrorsSince(cfg, events);
    UnforcedAreSpaced(cfg, log, from, width);
    SpacedCount(UnforcedIn(log, from, width), cfg.heartbeatInterval, from, width);
  }

  // ---- disposition ----

  function Dispositions(log: seq<Action>): seq<Action> {
    if log == [] then []
    else
      var a := log[|log| - 1];
      Dispositions(log[..|log| - 1]) + if a.Ack? || a.Nack? then [a] else []
  }

  /** Something that lets an exception out of the loop: the pull raises, or a message's attributes do not decode. */
  predicate Escapes(e: Event) {
    e.PullRaised? || (e.Yield? && !e.delivery.decodes)
  }

  /** The messages the loop gets to see: those yielded before, or by, the first event that ends the run. */
  function Seen(events: seq<Event>): seq<Delivery> {
    if events == [] then []
    else
      var front, e := events[..|events| - 1], events[|events| - 1];
      Seen(front) + if e.Yield? && forall x <- front :: !Escapes(x) then [e.delivery] else []
  }

  /** The pre hook returned, processing returned or was ignored, and the post hook returned. */
  predicate Succeeds(o: Outcome) {
    o.preHook && (o.processing == Returned || o.processing == Ignored) && o.postHook
  }

  function Verdict(message: nat, o: Outcome): Action {
    if Succeeds(o) then Ack(message) else Nack(message)
  }

  /** One disposition per message, in order, each decided by what happened to that message alone. */
  function Expected(ds: seq<Delivery>): seq<Action> {
    if ds == [] then []
    else
      var n := |ds| - 1;
      Expected(ds[..n]) + if ds[n].decodes then [Verdict(n, ds[n].outcome)] else []
  }

  lemma DispositionsAppend(log: seq<Action>, more: seq<Action>)
    ensures Dispositions(log + more) == Dispositions(log) + Dispositions(more)
  {
    if more == [] {
      assert log + more == log;
    } else {
      var n := |more| - 1;
      assert (log + more)[..|log| + n] == log + more[..n];
      DispositionsAppend(log, more[..n]);
    }
  }

  lemma BeatDisposesNothing(cfg: Settings, st: LoopState, now: int, force: bool)
    ensures Dispositions(Beat(cfg, st, now, force).log) == Dispositions(st.log)
  {
    DispositionsAppend(st.log, [Heartbeat(now, st.errorCount, force)]);
  }

  lemma {:induction false} BeatsDisposeNothing(cfg: Settings, st: LoopState, times: seq<int>)
    ensures Dispositions(Beats(cfg, st, times).log) == Dispositions(st.log)
  {
    if times != [] {
      BeatsDisposeNothing(cfg, st, times[..|times| - 1]);
      BeatDisposesNothing(cfg, Beats(cfg, st, times[..|times| - 1]), times[|times| - 1], true);
    }
  }

  lemma One(a: Action)
    ensures Dispositions([a]) == if a.Ack? || a.Nack? then [a] else []
  {
    assert [a][..0] == [] && Dispositions([]) == [];
  }

  lemma OneMore(log: seq<Action>, a: Action)
    ensures Dispositions(log + [a]) == Dispositions(log) + if a.Ack? || a.Nack? then [a] else []
  {
    assert (log + [a])[..|log|] == log;
  }

  lemma ProcessDisposesOnce(cfg: Settings, st: LoopState, message: nat, d: Delivery)
    requires d.outcome.preHook
    ensures Dispositions(Process(cfg, st, message, d).log) == Dispositions(st.log) + [Dispose(message, d.outcome)]
  {
    hide Beats, Beat, Dispositions;
    var p := d.outcome.processing;
    BeatsDisposeNothing(cfg, st, d.forced);
    var s1 := Beats(cfg, st, d.forced);
    var done := s1.log + [Processed(message, p)];
    var s2 := s1.(errorCount := CountAfter(s1.errorCount, p),
                  log := done + if Rejected(p) then [Nack(message)] else []);
    OneMore(s1.log, Processed(message, p));
    BeatDisposesNothing(cfg, s2, d.beatAt, false);
    var s3 := Beat(cfg, s2, d.beatAt, false);
    if Rejected(p) {
      OneMore(done, Nack(message));
    } else {
      assert done + [] == done;
      OneMore(s3.log, Dispose(message, d.outcome));
    }
  }

  lemma StepDisposes(cfg: Settings, st: LoopState, event: Event)
    ensures var t := Step(cfg, st, event);
            && t.received == st.received + (if event.Yield? then 1 else 0)
            && (t.raised <==> st.raised || Escapes(event))
            && Dispositions(t.log) == Dispositions(st.log) +
                 if event.Yield? && event.delivery.decodes then [Dispose(st.received, event.delivery.outcome)] else []
  {
    hide Process, Dispositions;
    match event
    case Yield(d) =>
      var message := st.received;
      var s0 := st.(lastMessageReceivedAt := d.at, received := message + 1, log := st.log + [Received(message, d.at)]);
      DispositionsAppend(st.log, [Received(message, d.at)]);
      One(Received(message, d.at));
      if d.decodes {
        if d.outcome.preHook {
          ProcessDisposesOnce(cfg, s0, message, d);
          ProcessShape(cfg, s0, message, d);
        } else {
          DispositionsAppend(s0.log, [Nack(message)]);
          One(Nack(message));
        }
      }
    case Quiet(checkAt, beatAt) =>
      var a := InactivityCheck(checkAt, ResetDue(cfg, st, checkAt));
      DispositionsAppend(st.log, [a]);
      One(a);
      BeatDisposesNothing(cfg, Check(cfg, st, checkAt), beatAt, false);
    case PullRaised =>
  }

  lemma {:induction false} BeatsShape(cfg: Settings, st: LoopState, times: seq<int>)
    ensures Beats(cfg, st, times).received == st.received && Beats(cfg, st, times).raised == st.raised
  {
    if times != [] { BeatsShape(cfg, st, times[..|times| - 1]); }
  }

  lemma ProcessShape(cfg: Settings, st: LoopState, message: nat, d: Delivery)
    ensures var t := Process(cfg, st, message, d); t.received == st.received && t.raised == st.raised
  {
    BeatsShape(cfg, st, d.forced);
  }

  ghost predicate AnyEscapes(events: seq<Event>) {
    exists x <- events :: Escapes(x)
  }

  lemma EscapesMore(front: seq<Event>, e: Event)
    ensures AnyEscapes(front + [e]) <==> AnyEscapes(front) || Escapes(e)
  {
    hide Escapes;
    assert forall x :: x in front + [e] <==> x in front || x == e;
  }

  lemma SeenMore(front: seq<Event>, e: Event)
    ensures Seen(front + [e]) == Seen(front) + if e.Yield? && !AnyEscapes(front) then [e.delivery] else []
  {
    hide Escapes;
    assert (front + [e])[..|front|] == front;
  }

  lemma ExpectedMore(ds: seq<Delivery>, d: Delivery)
    ensures Expected(ds + [d]) == Expected(ds) + if d.decodes then [Verdict(|ds|, d.outcome)] else []
  {
    hide Verdict;
    assert (ds + [d])[..|ds|] == ds;
  }

  /** Disposition: in every run the acks and nacks are, in order, exactly one per message seen whose attributes
      decode: an ack if the pre hook returned, processing returned or was ignored, and the post hook returned, a nack
      otherwise.  Messages of a pull that is under way when shutdown is seen are among them. */
  lemma {:induction false} OneDispositionEach(cfg: Settings, events: seq<Event>)
    ensures var t := Run(cfg, INITIAL, events);
            && Dispositions(t.log) == Expected(Seen(events))
            && t.received == |Seen(events)|
            && (t.raised <==> AnyEscapes(events))
  {
    hide Step, Dispositions, Expected, Seen, Escapes, Dispose, AnyEscapes, Verdict;
    if events == [] {
      NothingSeen();
    } else {
      var n := |events| - 1;
      var front, e := events[..n], events[n];
      var s := Run(cfg, INITIAL, front);
      assert events == front + [e];
      OneDispositionEach(cfg, front);
      EscapesMore(front, e);
      SeenMore(front, e);
      assert Seen(front) + [] == Seen(front) && Expected(Seen(front)) + [] == Expected(Seen(front));
      if !s.raised {
        StepDisposes(cfg, s, e);
        if e.Yield? {
          ExpectedMore(Seen(front), e.delivery);
          DisposedByVerdict(|Seen(front)|, e.delivery.outcome);
        }
      }
    }
  }

  lemma DisposedByVerdict(message: nat, o: Outcome)
    ensures Dispose(message, o) == Verdict(message, o) && (Accepts(o) <==> Succeeds(o))
  {
  }

  lemma NothingSeen()
    ensures Seen([]) == [] && Expected([]) == [] && !AnyEscapes([]) && Dispositions(INITIAL.log) == []
  {
  }

  lemma {:induction false} ExpectedCount(ds: seq<Delivery>)
    ensures |Expected(ds)| <= |ds|
    ensures |Expected(ds)| == |ds| <==> forall d <- ds :: d.decodes
  {
    if ds != [] {
      var n := |ds| - 1;
      ExpectedCount(ds[..n]);
      assert forall d :: d in ds <==> d == ds[n] || d in ds[..n];
    }
  }

  /** Every message received is disposed of if and only if the attributes of every message received decode; if one
      does not, the run ends there with that message neither acked nor nacked. */
  lemma AllDisposedIff(cfg: Settings, events: seq<Event>)
    ensures var t := Run(cfg, INITIAL, events);
            |Dispositions(t.log)| == t.received <==> forall d <- Seen(events) :: d.decodes
  {
    OneDispositionEach(cfg, events);
    ExpectedCount(Seen(events));
  }
}
