/** What the loop's log owes to the events of a run: every action there is, for every message, extension and quiet
    spell, and in which order. */
module ConsumerLoopEvents {
  import opened ConsumerLoop
  import opened ConsumerLoopRuns

  /** The message is handed to `process_message`. */
  predicate Reaches(d: Delivery) {
    d.decodes && d.outcome.preHook
  }

  // ---- the actions of one kind, in order ----

  datatype Kind = Receipts | Processings | Disposals | Forced | Unforced | Checks

  predicate Is(a: Action, kind: Kind) {
    match kind
    case Receipts => a.Received?
    case Processings => a.Processed?
    case Disposals => a.Ack? || a.Nack?
    case Forced => a.Heartbeat? && a.forced
    case Unforced => a.Heartbeat? && !a.forced
    case Checks => a.InactivityCheck?
  }

  function Filter(log: seq<Action>, kind: Kind): seq<Action> {
    if log == [] then []
    else
      var a := log[|log| - 1];
      Filter(log[..|log| - 1], kind) + if Is(a, kind) then [a] else []
  }

  lemma {:induction false} FilterAppend(log: seq<Action>, more: seq<Action>, kind: Kind)
    ensures Filter(log + more, kind) == Filter(log, kind) + Filter(more, kind)
  {
    hide Is;
    if more == [] {
      assert log + more == log;
    } else {
      var n := |more| - 1;
      assert (log + more)[..|log| + n] == log + more[..n];
      FilterAppend(log, more[..n], kind);
    }
  }

  lemma FilterOne(a: Action, kind: Kind)
    ensures Filter([a], kind) == if Is(a, kind) then [a] else []
    ensures Filter([], kind) == []
  {
    assert [a][..0] == [];
  }

  lemma {:induction false} FilterNone(log: seq<Action>, kind: Kind)
    requires forall a <- log :: !Is(a, kind)
    ensures Filter(log, kind) == []
  {
    hide Is;
    if log != [] {
      var n := |log| - 1;
      assert log[n] in log && forall a <- log[..n] :: a in log;
      assert !Is(log[n], kind);
      FilterNone(log[..n], kind);
    }
  }

  lemma {:induction false} FilterAll(log: seq<Action>, kind: Kind)
    requires forall a <- log :: Is(a, kind)
    ensures Filter(log, kind) == log
  {
    hide Is;
    if log != [] {
      var n := |log| - 1;
      assert log[n] in log && forall a <- log[..n] :: a in log;
      assert Is(log[n], kind) && log == log[..n] + [log[n]];
      FilterAll(log[..n], kind);
    }
  }

  function Times(beats: seq<Action>): seq<int>
    requires forall a <- beats :: a.Heartbeat? || a.InactivityCheck?
  {
    seq(|beats|, i requires 0 <= i < |beats| => assert beats[i] in beats; beats[i].at)
  }

  // ---- what one message adds to the log ----

  function ForcedBeats(times: seq<int>, reported: nat): (r: seq<Action>)
    ensures |r| == |times| && forall a <- r :: a.Heartbeat? && a.forced
  {
    seq(|times|, i requires 0 <= i < |times| => Heartbeat(times[i], reported, true))
  }

  function MaybeBeat(cfg: Settings, last: int, now: int, reported: nat): seq<Action> {
    if last + cfg.heartbeatInterval < now then [Heartbeat(now, reported, false)] else []
  }

  function LastOf(times: seq<int>, otherwise: int): int {
    if times == [] then otherwise else times[|times| - 1]
  }

  lemma {:induction false} BeatsAdd(cfg: Settings, st: LoopState, times: seq<int>)
    ensures Beats(cfg, st, times)
            == st.(heartbeatCalledAt := LastOf(times, st.heartbeatCalledAt),
                   log := st.log + ForcedBeats(times, st.errorCount))
  {
    if times == [] {
      assert st.log + [] == st.log;
    } else {
      var n := |times| - 1;
      BeatsAdd(cfg, st, times[..n]);
      assert ForcedBeats(times, st.errorCount)
          == ForcedBeats(times[..n], st.errorCount) + [Heartbeat(times[n], st.errorCount, true)];
    }
  }

  /** The actions of a message that reaches processing, between its receipt and its end. */
  function Told(cfg: Settings, before: LoopState, message: nat, d: Delivery): seq<Action> {
    var p := d.outcome.processing;
    ForcedBeats(d.forced, before.errorCount) + [Processed(message, p)] + (if Rejected(p) then [Nack(message)] else [])
    + MaybeBeat(cfg, LastOf(d.forced, before.heartbeatCalledAt), d.beatAt, CountAfter(before.errorCount, p))
    + (if Rejected(p) then [] else [Dispose(message, d.outcome)])
  }

  lemma ProcessAdds(cfg: Settings, st: LoopState, message: nat, d: Delivery)
    ensures Process(cfg, st, message, d).log == st.log + Told(cfg, st, message, d)
  {
    hide ForcedBeats, Accepts;
    BeatsAdd(cfg, st, d.forced);
    var p := d.outcome.processing;
    var l1 := st.log + ForcedBeats(d.forced, st.errorCount);
    var l2 := l1 + ([Processed(message, p)] + if Rejected(p) then [Nack(message)] else []);
    var beat := MaybeBeat(cfg, LastOf(d.forced, st.heartbeatCalledAt), d.beatAt, CountAfter(st.errorCount, p));
    assert Process(cfg, st, message, d).log == l2 + beat + if Rejected(p) then [] else [Dispose(message, d.outcome)];
  }

  /** Which of them are of which kind. */
  lemma ToldFilter(cfg: Settings, st: LoopState, message: nat, d: Delivery, kind: Kind)
    requires !kind.Disposals?
    ensures Filter(Told(cfg, st, message, d), kind)
            == match kind
               case Processings => [Processed(message, d.outcome.processing)]
               case Forced => ForcedBeats(d.forced, st.errorCount)
               case Unforced =>
                 MaybeBeat(cfg, LastOf(d.forced, st.heartbeatCalledAt), d.beatAt,
                           CountAfter(st.errorCount, d.outcome.processing))
               case _ => []
  {
    hide ForcedBeats, MaybeBeat, Rejected, CountAfter, Filter, Is, Accepts;
    var p := d.outcome.processing;
    var forced := ForcedBeats(d.forced, st.errorCount);
    var nack := if Rejected(p) then [Nack(message)] else [];
    var beat := MaybeBeat(cfg, LastOf(d.forced, st.heartbeatCalledAt), d.beatAt, CountAfter(st.errorCount, p));
    var end := if Rejected(p) then [] else [Dispose(message, d.outcome)];
    FilterAppend(forced + [Processed(message, p)] + nack + beat, end, kind);
    FilterAppend(forced + [Processed(message, p)] + nack, beat, kind);
    FilterAppend(forced + [Processed(message, p)], nack, kind);
    FilterAppend(forced, [Processed(message, p)], kind);
    FilterOne(Processed(message, p), kind);
    DisposalsOnly(nack, kind);
    DisposalsOnly(end, kind);
    ForcedOnly(d.forced, st.errorCount, kind);
    BeatOnly(cfg, LastOf(d.forced, st.heartbeatCalledAt), d.beatAt, CountAfter(st.errorCount, p), kind);
    assert Is(Processed(message, p), kind) <==> kind.Processings? by { ProcessedIs(message, p, kind); }
  }

  lemma ProcessedIs(message: nat, p: Processing, kind: Kind)
    ensures Is(Processed(message, p), kind) <==> kind.Processings?
  {
  }

  lemma DisposalsOnly(log: seq<Action>, kind: Kind)
    requires !kind.Disposals? && forall a <- log :: a.Ack? || a.Nack?
    ensures Filter(log, kind) == []
  {
    FilterNone(log, kind);
  }

  lemma ForcedOnly(times: seq<int>, reported: nat, kind: Kind)
    ensures var beats := ForcedBeats(times, reported);
            Filter(beats, kind) == if kind.Forced? then beats else []
  {
    hide Filter;
    var beats := ForcedBeats(times, reported);
    if kind.Forced? { FilterAll(beats, kind); } else { FilterNone(beats, kind); }
  }

  lemma BeatOnly(cfg: Settings, last: int, now: int, reported: nat, kind: Kind)
    ensures var beat := MaybeBeat(cfg, last, now, reported);
            Filter(beat, kind) == if kind.Unforced? then beat else []
  {
    FilterOne(Heartbeat(now, reported, false), kind);
  }

  // ---- what one event adds to the log ----

  predicate CallsHook(e: Event) {
    e.Quiet? || (e.Yield? && Reaches(e.delivery))
  }

  function HookAt(e: Event): int
    requires CallsHook(e)
  {
    if e.Quiet? then e.beatAt else e.delivery.beatAt
  }

  /** When the hook was last called before this event calls it. */
  function LastBefore(e: Event, last: int): int {
    if e.Yield? && Reaches(e.delivery) then LastOf(e.delivery.forced, last) else last
  }

  lemma ProcessCounts(cfg: Settings, st: LoopState, message: nat, d: Delivery)
    ensures var t := Process(cfg, st, message, d);
            && t.errorCount == CountAfter(st.errorCount, d.outcome.processing)
            && t.lastMessageReceivedAt == st.lastMessageReceivedAt && t.received == st.received
            && t.heartbeatCalledAt
               == var last := LastOf(d.forced, st.heartbeatCalledAt);
                  if last + cfg.heartbeatInterval < d.beatAt then d.beatAt else last
  {
    BeatsAdd(cfg, st, d.forced);
  }

  lemma StepFilter(cfg: Settings, st: LoopState, e: Event, kind: Kind)
    requires !kind.Disposals?
    ensures var before, after := Filter(st.log, kind), Filter(Step(cfg, st, e).log, kind);
            match kind
            case Receipts => after == before + if e.Yield? then [Received(st.received, e.delivery.at)] else []
            case Processings =>
              after == before + if e.Yield? && Reaches(e.delivery)
                                then [Processed(st.received, e.delivery.outcome.processing)] else []
            case Forced =>
              after == before + if e.Yield? && Reaches(e.delivery) then ForcedBeats(e.delivery.forced, st.errorCount)
                                else []
            case Checks =>
              after == before + if e.Quiet? then [InactivityCheck(e.checkAt, ResetDue(cfg, st, e.checkAt))] else []
            case Unforced =>
              var last := LastBefore(e, st.heartbeatCalledAt);
              after == before + if CallsHook(e) then MaybeBeat(cfg, last, HookAt(e), Step(cfg, st, e).errorCount)
                  else []
  {
    hide Filter, Process, ForcedBeats, ResetDue, Told;
    match e
    case Yield(d) =>
      var message := st.received;
      var got := [Received(message, d.at)];
      FilterAppend(st.log, got, kind);
      FilterOne(got[0], kind);
      var s0 := st.(lastMessageReceivedAt := d.at, received := message + 1, log := st.log + got);
      if d.decodes && !d.outcome.preHook {
        FilterAppend(s0.log, [Nack(message)], kind);
        FilterOne(Nack(message), kind);
      } else if Reaches(d) {
        ProcessCounts(cfg, s0, message, d);
        ProcessAdds(cfg, s0, message, d);
        FilterAppend(s0.log, Told(cfg, s0, message, d), kind);
        ToldFilter(cfg, s0, message, d, kind);
      }
    case Quiet(checkAt, beatAt) =>
      var check := InactivityCheck(checkAt, ResetDue(cfg, st, checkAt));
      var s1 := Check(cfg, st, checkAt);
      FilterAppend(st.log, [check], kind);
      FilterOne(check, kind);
      var beat := MaybeBeat(cfg, s1.heartbeatCalledAt, beatAt, s1.errorCount);
      assert Beat(cfg, s1, beatAt, false).log == s1.log + beat;
      FilterAppend(s1.log, beat, kind);
      BeatOnly(cfg, s1.heartbeatCalledAt, beatAt, s1.errorCount, kind);
    case PullRaised =>
  }

  // ---- whole runs ----

  /** The message indices of a run are those of the messages it sees. */
  function ReceiptsOf(ds: seq<Delivery>): (r: seq<Action>)
    ensures |r| == |ds|
  {
    seq(|ds|, i requires 0 <= i < |ds| => Received(i, ds[i].at))
  }

  function ProcessingsOf(ds: seq<Delivery>): seq<Action> {
    if ds == [] then []
    else
      var n := |ds| - 1;
      ProcessingsOf(ds[..n]) + if Reaches(ds[n]) then [Processed(n, ds[n].outcome.processing)] else []
  }

  /** The times of all extensions made by callbacks. */
  function Extensions(ds: seq<Delivery>): seq<int> {
    if ds == [] then []
    else
      var n := |ds| - 1;
      Extensions(ds[..n]) + if Reaches(ds[n]) then ds[n].forced else []
  }

  /** The times at which quiet spells were checked for inactivity, up to the end of the run. */
  function Checkings(events: seq<Event>): seq<int> {
    if events == [] then []
    else
      var front, e := events[..|events| - 1], events[|events| - 1];
      Checkings(front) + if e.Quiet? && forall x <- front :: !Escapes(x) then [e.checkAt] else []
  }

  lemma {:induction false} FilterIs(log: seq<Action>, kind: Kind)
    ensures forall a <- Filter(log, kind) :: Is(a, kind)
  {
    hide Is;
    if log != [] { FilterIs(log[..|log| - 1], kind); }
  }

  function TimesOf(log: seq<Action>, kind: Kind): seq<int>
    requires kind.Forced? || kind.Checks? || kind.Unforced?
  {
    FilterIs(log, kind);
    Times(Filter(log, kind))
  }

  lemma SeenMoreTold(ds: seq<Delivery>, d: Delivery)
    ensures ReceiptsOf(ds + [d]) == ReceiptsOf(ds) + [Received(|ds|, d.at)]
    ensures ProcessingsOf(ds + [d])
            == ProcessingsOf(ds) + if Reaches(d) then [Processed(|ds|, d.outcome.processing)] else []
    ensures Extensions(ds + [d]) == Extensions(ds) + if Reaches(d) then d.forced else []
  {
    hide Reaches;
    var all := ds + [d];
    assert all[..|ds|] == ds && all[|ds|] == d;
    ReceiptsMore(ds, d);
  }

  lemma ReceiptsMore(ds: seq<Delivery>, d: Delivery)
    ensures ReceiptsOf(ds + [d]) == ReceiptsOf(ds) + [Received(|ds|, d.at)]
  {
  }

  lemma CheckingsMore(front: seq<Event>, e: Event)
    ensures Checkings(front + [e]) == Checkings(front) + if e.Quiet? && !AnyEscapes(front) then [e.checkAt] else []
  {
    hide Escapes;
    assert (front + [e])[..|front|] == front;
  }

  lemma TimesAppend(a: seq<Action>, b: seq<Action>)
    requires forall x <- a + b :: x.Heartbeat? || x.InactivityCheck?
    ensures forall x <- a :: x in a + b
    ensures forall x <- b :: x in a + b
    ensures Times(a + b) == Times(a) + Times(b)
  {
    assert forall i | 0 <= i < |a| :: (a + b)[i] == a[i];
    assert forall i | 0 <= i < |b| :: (a + b)[|a| + i] == b[i];
  }

  lemma ForcedTimes(times: seq<int>, reported: nat)
    ensures Times(ForcedBeats(times, reported)) == times
  {
  }

  /** Nothing of these kinds is missing from the log, and nothing is in it twice or for another reason: every message
      seen is received once; exactly those whose attributes decode and whose pre hook returns are processed, with their
      own result; every extension their callbacks make forces a heartbeat; and every quiet spell is checked for
      inactivity. */
  lemma {:induction false} EachIsLogged(cfg: Settings, events: seq<Event>)
    ensures var log := Run(cfg, INITIAL, events).log;
            && Filter(log, Receipts) == ReceiptsOf(Seen(events))
            && Filter(log, Processings) == ProcessingsOf(Seen(events))
            && TimesOf(log, Forced) == Extensions(Seen(events))
            && TimesOf(log, Checks) == Checkings(events)
  {
    hide Step, Filter, Seen, Escapes, AnyEscapes, Reaches, ReceiptsOf, ProcessingsOf, Extensions, Checkings;
    if events == [] {
      NothingTold(cfg);
    } else {
      var n := |events| - 1;
      var front, e := events[..n], events[n];
      var s := Run(cfg, INITIAL, front);
      assert events == front + [e];
      EachIsLogged(cfg, front);
      OneDispositionEach(cfg, front);
      SeenMore(front, e);
      CheckingsMore(front, e);
      assert Seen(front) + [] == Seen(front) && Checkings(front) + [] == Checkings(front);
      if !s.raised { EventIsLogged(cfg, s, e, Seen(front), Checkings(front)); }
    }
  }

  lemma NothingTold(cfg: Settings)
    ensures Filter([], Receipts) == ReceiptsOf([]) && Filter([], Processings) == ProcessingsOf([]) && Seen([]) == []
    ensures TimesOf([], Forced) == Extensions([]) && TimesOf([], Checks) == Checkings([])
  {
  }

  lemma EventIsLogged(cfg: Settings, s: LoopState, e: Event, seen: seq<Delivery>, checked: seq<int>)
    requires Filter(s.log, Receipts) == ReceiptsOf(seen) && s.received == |seen|
    requires Filter(s.log, Processings) == ProcessingsOf(seen)
    requires TimesOf(s.log, Forced) == Extensions(seen) && TimesOf(s.log, Checks) == checked
    ensures var log := Step(cfg, s, e).log;
            var more := if e.Yield? then seen + [e.delivery] else seen;
            && Filter(log, Receipts) == ReceiptsOf(more)
            && Filter(log, Processings) == ProcessingsOf(more)
            && TimesOf(log, Forced) == Extensions(more)
            && TimesOf(log, Checks) == checked + if e.Quiet? then [e.checkAt] else []
  {
    hide Step, Filter, Reaches, ReceiptsOf, ProcessingsOf, Extensions, ResetDue, ForcedBeats;
    StepFilter(cfg, s, e, Receipts);
    StepFilter(cfg, s, e, Processings);
    StepFilter(cfg, s, e, Forced);
    StepFilter(cfg, s, e, Checks);
    var log := Step(cfg, s, e).log;
    FilterIs(s.log, Forced);
    FilterIs(log, Forced);
    FilterIs(s.log, Checks);
    FilterIs(log, Checks);
    if e.Yield? {
      SeenMoreTold(seen, e.delivery);
      if Reaches(e.delivery) {
        TimesAppend(Filter(s.log, Forced), ForcedBeats(e.delivery.forced, s.errorCount));
        ForcedTimes(e.delivery.forced, s.errorCount);
      }
    }
    if e.Quiet? {
      TimesAppend(Filter(s.log, Checks), [InactivityCheck(e.checkAt, ResetDue(cfg, s, e.checkAt))]);
    }
    assert forall x: seq<Action> :: x + [] == x;
    assert forall x: seq<int> :: x + [] == x;
  }

  /** The heartbeat throttle, exactly: an event that calls the hook logs an unforced heartbeat, with the error count
      after it, if and only if strictly more than the interval has passed since the latest heartbeat, which is the last
      of its own extensions if it has any. No other event logs one. So after every such event the latest heartbeat is at
      most the interval old. */
  lemma HookCalledIff(cfg: Settings, events: seq<Event>, e: Event)
    requires !AnyEscapes(events)
    ensures var s, t := Run(cfg, INITIAL, events), Run(cfg, INITIAL, events + [e]);
            var last := LastBefore(e, LastBeat(s.log));
            var due := CallsHook(e) && last + cfg.heartbeatInterval < HookAt(e);
            && Filter(t.log, Unforced)
               == Filter(s.log, Unforced) + (if due then [Heartbeat(HookAt(e), t.errorCount, false)] else [])
            && LastBeat(t.log) == (if due then HookAt(e) else last)
            && (CallsHook(e) && cfg.heartbeatInterval >= 0 ==> HookAt(e) <= LastBeat(t.log) + cfg.heartbeatInterval)
  {
    hide Step, Filter, Reaches, Explained, ErrorsSince, AllExplained, LastBeat, LastReceived, AnyEscapes;
    var s, t := Run(cfg, INITIAL, events), Run(cfg, INITIAL, events + [e]);
    OneDispositionEach(cfg, events);
    CounterMeansErrorsSince(cfg, events);
    CounterMeansErrorsSince(cfg, events + [e]);
    assert (events + [e])[..|events|] == events;
    StepFilter(cfg, s, e, Unforced);
    StepBeats(cfg, s, e);
  }

  lemma StepBeats(cfg: Settings, st: LoopState, e: Event)
    ensures var last := LastBefore(e, st.heartbeatCalledAt);
            Step(cfg, st, e).heartbeatCalledAt
            == if CallsHook(e) && last + cfg.heartbeatInterval < HookAt(e) then HookAt(e) else last
  {
    hide Process;
    if e.Yield? && Reaches(e.delivery) {
      var d := e.delivery;
      var got := st.(lastMessageReceivedAt := d.at, received := st.received + 1,
                     log := st.log + [Received(st.received, d.at)]);
      ProcessCounts(cfg, got, st.received, d);
    }
  }

  // ---- the error counter, from the events ----

  predicate ReachedBy(events: seq<Event>, j: nat)
    requires j <= |events|
  {
    forall x <- events[..j] :: !Escapes(x)
  }

  /** Event `j` is a message whose processing raised a generic exception. */
  predicate Fails(events: seq<Event>, j: nat)
    requires j < |events|
  {
    && ReachedBy(events, j) && events[j].Yield? && Reaches(events[j].delivery)
    && events[j].delivery.outcome.processing.Failed?
  }

  /** The arrival of the latest message, or the epoch. */
  function LatestArrival(events: seq<Event>): int {
    if events == [] then 0
    else
      var front, e := events[..|events| - 1], events[|events| - 1];
      if e.Yield? && forall x <- front :: !Escapes(x) then e.delivery.at else LatestArrival(front)
  }

  /** Event `k` is a message that was processed, or a quiet spell that comes strictly more than the configured period
      after the latest message while there are errors. */
  ghost predicate Clears(cfg: Settings, events: seq<Event>, k: nat)
    requires k < |events|
    decreases k, 1
  {
    && ReachedBy(events, k)
    && match events[k]
       case Yield(d) => Reaches(d) && d.outcome.processing.Returned?
       case Quiet(checkAt, _) =>
         && cfg.inactivityReset != 0 && ErrorEvents(cfg, events[..k]) != {}
         && LatestArrival(events[..k]) + cfg.inactivityReset < checkAt
       case PullRaised => false
  }

  /** The failures since the latest event that clears them. */
  ghost function ErrorEvents(cfg: Settings, events: seq<Event>): set<nat>
    decreases |events|, 0
  {
    set j: nat | j < |events| && Fails(events, j) && forall k | j < k < |events| :: !Clears(cfg, events, k)
  }

  lemma PrefixSays(cfg: Settings, front: seq<Event>, e: Event, j: nat)
    requires j < |front|
    ensures Fails(front + [e], j) == Fails(front, j) && Clears(cfg, front + [e], j) == Clears(cfg, front, j)
  {
    assert (front + [e])[..j] == front[..j] && (front + [e])[j] == front[j];
  }

  lemma ErrorEventsMore(cfg: Settings, front: seq<Event>, e: Event)
    ensures var all := front + [e];
            ErrorEvents(cfg, all)
            == (if Clears(cfg, all, |front|) then {} else ErrorEvents(cfg, front))
               + (if Fails(all, |front|) then {|front|} else {})
  {
    hide Fails, Clears;
    var all := front + [e];
    forall j | 0 <= j < |front|
        ensures Fails(all, j) == Fails(front, j) && Clears(cfg, all, j) == Clears(cfg, front, j) {
      PrefixSays(cfg, front, e, j);
    }
  }

  lemma LastEvent(cfg: Settings, front: seq<Event>, e: Event)
    ensures var all := front + [e];
            && (Fails(all, |front|)
                <==> !AnyEscapes(front) && e.Yield? && Reaches(e.delivery) && e.delivery.outcome.processing.Failed?)
            && (Clears(cfg, all, |front|)
                <==> !AnyEscapes(front) && if e.Yield?
                    then Reaches(e.delivery) && e.delivery.outcome.processing.Returned?
                     else e.Quiet? && cfg.inactivityReset != 0 && ErrorEvents(cfg, front) != {}
                          && LatestArrival(front) + cfg.inactivityReset < e.checkAt)
            && LatestArrival(all) == if e.Yield? && !AnyEscapes(front) then e.delivery.at else LatestArrival(front)
  {
    hide Reaches, Escapes, ErrorEvents;
    assert (front + [e])[..|front|] == front;
  }

  lemma StepCounts(cfg: Settings, st: LoopState, e: Event)
    ensures var t := Step(cfg, st, e);
            && t.lastMessageReceivedAt == (if e.Yield? then e.delivery.at else st.lastMessageReceivedAt)
            && t.errorCount
               == if e.Yield? && Reaches(e.delivery) then CountAfter(st.errorCount, e.delivery.outcome.processing)
                  else if e.Quiet? && ResetDue(cfg, st, e.checkAt) then 0
                  else st.errorCount
  {
    hide Process, CountAfter;
    if e.Yield? && Reaches(e.delivery) {
      var d := e.delivery;
      var got := st.(lastMessageReceivedAt := d.at, received := st.received + 1,
                     log := st.log + [Received(st.received, d.at)]);
      ProcessCounts(cfg, got, st.received, d);
    }
  }

  /** The error counter, from what happened to the messages: it is the number of messages whose processing raised a
      generic exception since the latest message that was processed, or quiet spell that forgot them. A message that is
      ignored, retried, or refused by the pre hook does not count and does not clear. */
  lemma {:induction false} CounterMeansFailures(cfg: Settings, events: seq<Event>)
    ensures var t := Run(cfg, INITIAL, events);
            && t.errorCount == |ErrorEvents(cfg, events)| && t.lastMessageReceivedAt == LatestArrival(events)
  {
    hide Step, Reaches, Escapes, AnyEscapes, Seen, Expected, Dispositions, ErrorEvents, LatestArrival, Fails, Clears;
    if events == [] {
      NoErrorEvents(cfg);
    } else {
      var n := |events| - 1;
      var front, e := events[..n], events[n];
      var s := Run(cfg, INITIAL, front);
      assert events == front + [e];
      CounterMeansFailures(cfg, front);
      OneDispositionEach(cfg, front);
      ErrorEventsMore(cfg, front, e);
      LastEvent(cfg, front, e);
      NotYet(cfg, front, n);
      if !s.raised { StepCounts(cfg, s, e); }
      if ErrorEvents(cfg, front) == {} { assert |ErrorEvents(cfg, front)| == 0; }
      assert ErrorEvents(cfg, front) + {} == ErrorEvents(cfg, front);
    }
  }

  lemma NoErrorEvents(cfg: Settings)
    ensures ErrorEvents(cfg, []) == {} && LatestArrival([]) == 0
  {
  }

  lemma NotYet(cfg: Settings, front: seq<Event>, n: nat)
    requires n == |front|
    ensures n !in ErrorEvents(cfg, front)
  {
  }

  // ---- the order of actions ----

  /** Where the loop is, going by the actions so far. */
  datatype Stage =
    | Free
    | Checked                    // for inactivity; the hook may follow
    | InHand(message: nat)
    | Extended(message: nat)
    | Refused(message: nat)      // processing did not accept it; its nack follows at once
    | Declined                   // and has been sent; the hook may follow
    | Passed(message: nat)       // processing accepted it; the hook may follow
    | Hooked(message: nat)       // and has been called; the post hook decides
    | Broken
  {
    predicate Idle() { Free? || Checked? || Declined? }

    predicate Holds(m: nat) { this == InHand(m) || this == Extended(m) }

    predicate Awaits(m: nat) { this == Passed(m) || this == Hooked(m) }
  }

  /** The order that the actions must keep. */
  function Next(s: Stage, a: Action): Stage {
    match a
    case Received(m, _) => if s.Idle() then InHand(m) else Broken
    case InactivityCheck(_, _) => if s.Idle() then Checked else Broken
    case Processed(m, p) => if !s.Holds(m) then Broken else if !(p == Returned || p == Ignored) then Refused(m)
        else Passed(m)
    case Heartbeat(_, _, forced) =>
      if forced then (if s.InHand? || s.Extended? then Extended(s.message) else Broken)
      else if s.Checked? || s.Declined? then Free
      else if s.Passed? then Hooked(s.message)
      else Broken
    case Nack(m) => if s == InHand(m) || s.Awaits(m) then Free else if s == Refused(m) then Declined else Broken
    case Ack(m) => if s.Awaits(m) then Free else Broken
  }

  function StageAfter(s: Stage, log: seq<Action>): Stage {
    if log == [] then s else Next(StageAfter(s, log[..|log| - 1]), log[|log| - 1])
  }

  lemma {:induction false} StageAppend(s: Stage, a: seq<Action>, b: seq<Action>)
    ensures StageAfter(s, a + b) == StageAfter(StageAfter(s, a), b)
  {
    hide Next;
    if b == [] {
      assert a + b == a;
    } else {
      var n := |b| - 1;
      assert (a + b)[..|a| + n] == a + b[..n];
      StageAppend(s, a, b[..n]);
    }
  }

  lemma StageOne(s: Stage, a: Action)
    ensures StageAfter(s, [a]) == Next(s, a) && StageAfter(s, []) == s
  {
    hide Next;
    assert [a][..0] == [];
  }

  lemma {:induction false} StageForced(m: nat, times: seq<int>, reported: nat)
    ensures StageAfter(InHand(m), ForcedBeats(times, reported)) == if times == [] then InHand(m) else Extended(m)
  {
    if times != [] {
      var n := |times| - 1;
      StageForced(m, times[..n], reported);
      assert ForcedBeats(times, reported)[..n] == ForcedBeats(times[..n], reported);
    }
  }

  lemma StageTold(cfg: Settings, st: LoopState, m: nat, d: Delivery)
    ensures StageAfter(InHand(m), Told(cfg, st, m, d)).Idle()
  {
    hide ForcedBeats, Accepts, StageAfter, CountAfter;
    var p := d.outcome.processing;
    var forced := ForcedBeats(d.forced, st.errorCount);
    var nack := if Rejected(p) then [Nack(m)] else [];
    var beat := MaybeBeat(cfg, LastOf(d.forced, st.heartbeatCalledAt), d.beatAt, CountAfter(st.errorCount, p));
    var end := if Rejected(p) then [] else [Dispose(m, d.outcome)];
    StageAppend(InHand(m), forced + [Processed(m, p)] + nack + beat, end);
    StageAppend(InHand(m), forced + [Processed(m, p)] + nack, beat);
    StageAppend(InHand(m), forced + [Processed(m, p)], nack);
    StageAppend(InHand(m), forced, [Processed(m, p)]);
    StageForced(m, d.forced, st.errorCount);
    var held := StageAfter(InHand(m), forced);
    StageOne(held, Processed(m, p));
    var processed := Next(held, Processed(m, p));
    StageOne(processed, Nack(m));
    var nacked := StageAfter(processed, nack);
    StageOne(nacked, Heartbeat(d.beatAt, CountAfter(st.errorCount, p), false));
    StageOne(StageAfter(nacked, beat), Dispose(m, d.outcome));
  }

  lemma StepKeepsOrder(cfg: Settings, st: LoopState, e: Event)
    requires StageAfter(Free, st.log).Idle()
    ensures var t := Step(cfg, st, e);
            var stage := StageAfter(Free, t.log);
            stage.Idle() || (Escapes(e) && e.Yield? && stage == InHand(st.received))
  {
    hide StageAfter, Process, Told, ResetDue;
    var stage := StageAfter(Free, st.log);
    match e
    case Yield(d) =>
      var m := st.received;
      var got := st.(lastMessageReceivedAt := d.at, received := m + 1, log := st.log + [Received(m, d.at)]);
      StageAppend(Free, st.log, [Received(m, d.at)]);
      StageOne(stage, Received(m, d.at));
      if d.decodes && !d.outcome.preHook {
        StageAppend(Free, got.log, [Nack(m)]);
        StageOne(InHand(m), Nack(m));
      } else if d.decodes {
        ProcessAdds(cfg, got, m, d);
        StageAppend(Free, got.log, Told(cfg, got, m, d));
        StageTold(cfg, got, m, d);
      }
    case Quiet(checkAt, beatAt) =>
      var checked := Check(cfg, st, checkAt);
      StageAppend(Free, st.log, [InactivityCheck(checkAt, ResetDue(cfg, st, checkAt))]);
      StageOne(stage, InactivityCheck(checkAt, ResetDue(cfg, st, checkAt)));
      StageAppend(Free, checked.log, [Heartbeat(beatAt, checked.errorCount, false)]);
      StageOne(Checked, Heartbeat(beatAt, checked.errorCount, false));
    case PullRaised =>
  }

  /** In every run the actions keep their order: one message is finished before the next is received; the heartbeats its
      extensions force come before its processing ends; a message whose processing did not accept it is nacked at once
      and the hook called after that, one that was accepted is disposed of after the hook; the hook is called after a
      check for inactivity, not before. A run that an exception ends has at most received one message more. */
  lemma {:induction false} ActionsInOrder(cfg: Settings, events: seq<Event>)
    ensures var t := Run(cfg, INITIAL, events);
            var stage := StageAfter(Free, t.log);
            stage.Idle() || (t.raised && stage.InHand? && stage.message + 1 == t.received)
  {
    hide Step, StageAfter, Seen, Expected, Dispositions, Escapes, AnyEscapes;
    if events == [] {
      StageOne(Free, Ack(0));
    } else {
      var n := |events| - 1;
      var front, e := events[..n], events[n];
      var s := Run(cfg, INITIAL, front);
      ActionsInOrder(cfg, front);
      if !s.raised {
        StepKeepsOrder(cfg, s, e);
        StepDisposes(cfg, s, e);
      }
    }
  }

  /** The events of several pulls are those of the pulls, one after the other. */
  lemma {:induction false} FlattenJoins(a: seq<Pull>, b: seq<Pull>)
    ensures Flatten(a + b) == Flatten(a) + Flatten(b)
    ensures forall pull: Pull :: Flatten([pull]) == pull
  {
    if b == [] {
      assert a + b == a;
    } else {
      var n := |b| - 1;
      assert (a + b)[..|a| + n] == a + b[..n];
      FlattenJoins(a, b[..n]);
    }
    forall pull: Pull ensures Flatten([pull]) == pull {
      assert [pull][..0] == [];
      assert Flatten([]) + pull == pull;
    }
  }
}
