/** The consumer loop over the Redis backend: `fetch_and_process_messages` drawing on the generator of `pull_messages`.
What the loop's log says of a message is what the run of the protocol did to the entry the message came from. */
module RedisLoop {
  import opened RedisProtocol
  import opened RedisInvariants
  import opened RedisNoLoss
  import opened RedisPull
  import Loop = ConsumerLoop
  import Runs = ConsumerLoopRuns

  /** How a consumer finished with an entry: it sent an acknowledgement, or left the entry to its lease. */
  datatype Verdict = Verdict(key: Key, acked: bool)

  // ---- what a run did for one consumer, read off the protocol ----

  /** The entry a step makes the consumer yield to its loop. */
  function TakenBy(cfg: Config, st: State, step: Step, p: nat): seq<Key> {
    if step == Lookup(p) && Enabled(cfg, st, step) && ApplyLookup(cfg, st, p).consumers[p].doing.Handling?
    then [st.consumers[p].todo[0].At()] else []
  }

  function SettledBy(cfg: Config, st: State, step: Step, p: nat): seq<Verdict> {
    if !Enabled(cfg, st, step) then []
    else match step
      case Finish(q, o) =>
        if q == p && !Loop.Accepts(o) then [Verdict(st.consumers[p].doing.held.At(), false)] else []
      case SendAck(q, _) => if q == p then [Verdict(st.consumers[p].doing.held.At(), true)] else []
      case _ => []
  }

  function Taken(cfg: Config, st: State, steps: seq<Step>, p: nat): seq<Key> {
    if steps == [] then []
    else
      var n := |steps| - 1;
      Taken(cfg, st, steps[..n], p) + TakenBy(cfg, Run(cfg, st, steps[..n]), steps[n], p)
  }

  function Settled(cfg: Config, st: State, steps: seq<Step>, p: nat): seq<Verdict> {
    if steps == [] then []
    else
      var n := |steps| - 1;
      Settled(cfg, st, steps[..n], p) + SettledBy(cfg, Run(cfg, st, steps[..n]), steps[n], p)
  }

  lemma {:induction false} DeedsAppend(cfg: Config, st: State, a: seq<Step>, b: seq<Step>, p: nat)
    ensures Taken(cfg, st, a + b, p) == Taken(cfg, st, a, p) + Taken(cfg, Run(cfg, st, a), b, p)
    ensures Settled(cfg, st, a + b, p) == Settled(cfg, st, a, p) + Settled(cfg, Run(cfg, st, a), b, p)
  {
    hide Run, TakenBy, SettledBy;
    if b == [] {
      assert a + b == a;
    } else {
      var n := |b| - 1;
      assert (a + b)[..|a| + n] == a + b[..n];
      RunAppend(cfg, st, a, b[..n]);
      DeedsAppend(cfg, st, a, b[..n], p);
    }
  }

  lemma OneDeed(cfg: Config, st: State, step: Step, p: nat)
    ensures Taken(cfg, st, [step], p) == TakenBy(cfg, st, step, p)
    ensures Settled(cfg, st, [step], p) == SettledBy(cfg, st, step, p)
  {
    hide TakenBy, SettledBy, Apply;
    assert [step][..0] == [];
    assert Run(cfg, st, []) == st && Taken(cfg, st, [], p) == [] && Settled(cfg, st, [], p) == [];
  }

  /** While a consumer pulls, it yields at most one entry, the one it then has in hand, and settles nothing. */
  lemma {:induction false} PullDeeds(cfg: Config, st: State, steps: seq<Step>, p: nat)
    requires p < |st.consumers| && st.consumers[p].doing.Waiting? && PullSteps(steps, p)
    ensures var t := Run(cfg, st, steps);
            && |t.consumers| == |st.consumers| && !t.consumers[p].doing.Acking?
            && Taken(cfg, st, steps, p)
               == (if t.consumers[p].doing.Handling? then [t.consumers[p].doing.held.At()] else [])
            && Settled(cfg, st, steps, p) == []
  {
    hide Apply, TakenBy, SettledBy;
    if steps != [] {
      var n := |steps| - 1;
      assert steps[n] in steps && forall s <- steps[..n] :: s in steps;
      PullDeeds(cfg, st, steps[..n], p);
      PullDeed(cfg, Run(cfg, st, steps[..n]), steps[n], p);
    }
  }

  lemma PullDeed(cfg: Config, st: State, step: Step, p: nat)
    requires p < |st.consumers| && !st.consumers[p].doing.Acking?
    requires IsForeign(step, p) || step == Lookup(p) || step == Move(p) || (step.Fetch? && step.p == p)
    ensures var t := Apply(cfg, st, step);
            var c, d := st.consumers[p].doing, t.consumers[p].doing;
            && |t.consumers| == |st.consumers| && !d.Acking? && SettledBy(cfg, st, step, p) == []
            && (if d.Handling? && !c.Handling? then TakenBy(cfg, st, step, p) == [d.held.At()]
                else TakenBy(cfg, st, step, p) == [] && (c.Handling? ==> d == c))
  {
    if IsForeign(step, p) { ForeignStep(cfg, st, step, p); }
  }

  /** Steps that neither yield nor settle anything for consumer `p`. */
  predicate Aside(steps: seq<Step>, p: nat) {
    forall s <- steps :: IsForeign(s, p) || s.Extend?
  }

  lemma {:induction false} AsideDeeds(cfg: Config, st: State, steps: seq<Step>, p: nat)
    requires Aside(steps, p)
    ensures Taken(cfg, st, steps, p) == [] && Settled(cfg, st, steps, p) == []
  {
    if steps != [] {
      var n := |steps| - 1;
      assert steps[n] in steps && forall s <- steps[..n] :: s in steps;
      AsideDeeds(cfg, st, steps[..n], p);
    }
  }

  lemma SettleDeeds(cfg: Config, st: State, p: nat, o: Loop.Outcome, reaches: bool)
    requires Sound(cfg, st) && p < |st.consumers| && st.consumers[p].doing.Handling?
    ensures var steps := [Finish(p, o)] + if Loop.Accepts(o) then [SendAck(p, reaches)] else [];
            && Taken(cfg, st, steps, p) == []
            && Settled(cfg, st, steps, p) == [Verdict(st.consumers[p].doing.held.At(), Loop.Accepts(o))]
  {
    hide Apply, Loop.Accepts;
    FinishDeed(cfg, st, p, o);
    OneDeed(cfg, st, Finish(p, o), p);
    RunNothing(cfg, st);
    RunOne(cfg, st, [], Finish(p, o));
    assert [] + [Finish(p, o)] == [Finish(p, o)];
    if Loop.Accepts(o) {
      DeedsAppend(cfg, st, [Finish(p, o)], [SendAck(p, reaches)], p);
      OneDeed(cfg, Apply(cfg, st, Finish(p, o)), SendAck(p, reaches), p);
    } else {
      assert [Finish(p, o)] + [] == [Finish(p, o)];
    }
  }

  lemma FinishDeed(cfg: Config, st: State, p: nat, o: Loop.Outcome)
    requires Sound(cfg, st) && p < |st.consumers| && st.consumers[p].doing.Handling?
    ensures var key := st.consumers[p].doing.held.At();
            && SettledBy(cfg, st, Finish(p, o), p) == (if Loop.Accepts(o) then [] else [Verdict(key, false)])
            && (Loop.Accepts(o) ==> forall reaches ::
                  SettledBy(cfg, Apply(cfg, st, Finish(p, o)), SendAck(p, reaches), p) == [Verdict(key, true)])
  {
    hide Loop.Accepts;
    MovingFits(cfg, st, p);
    WatchedFits(cfg, st);
  }

  // ---- the log against the run ----

  predicate Numbered(ds: seq<Loop.Action>, received: nat) {
    forall a <- ds :: (a.Ack? || a.Nack?) && a.message < received
  }

  /** What acks and nacks of message m say about the entry that message m came from. */
  function Verdicts(ds: seq<Loop.Action>, keys: seq<Key>): (r: seq<Verdict>)
    requires Numbered(ds, |keys|)
    ensures |r| == |ds|
  {
    seq(|ds|, i requires 0 <= i < |ds| => assert ds[i] in ds; Verdict(keys[ds[i].message], ds[i].Ack?))
  }

  /** Message m was received for entry `keys[m]`, which is the m-th entry the run yielded to this consumer; and the run
      settled entries exactly as the log says of their messages, in the same order. */
  ghost predicate Agrees(cfg: Config, start: State, steps: seq<Step>, p: nat, log: seq<Loop.Action>, received: nat,
                         keys: seq<Key>)
  {
    && Taken(cfg, start, steps, p) == keys && |keys| == received
    && Numbered(Runs.Dispositions(log), received)
    && Settled(cfg, start, steps, p) == Verdicts(Runs.Dispositions(log), keys)
  }

  lemma VerdictsMore(ds: seq<Loop.Action>, keys: seq<Key>, key: Key)
    requires Numbered(ds, |keys|)
    ensures Numbered(ds, |keys| + 1) && Verdicts(ds, keys + [key]) == Verdicts(ds, keys)
    ensures forall o: Loop.Outcome ::
              var more := ds + [Loop.Dispose(|keys|, o)];
              && Numbered(more, |keys| + 1)
              && Verdicts(more, keys + [key]) == Verdicts(ds, keys) + [Verdict(key, Loop.Accepts(o))]
  {
    hide Loop.Accepts;
    forall o: Loop.Outcome
      ensures var more := ds + [Loop.Dispose(|keys|, o)];
              && Numbered(more, |keys| + 1)
              && Verdicts(more, keys + [key]) == Verdicts(ds, keys) + [Verdict(key, Loop.Accepts(o))]
    {
      var more := ds + [Loop.Dispose(|keys|, o)];
      assert forall i | 0 <= i < |ds| :: more[i] == ds[i];
    }
  }

  /** Steps without a deed, and events without a message, keep the agreement. */
  lemma AgreesOn(cfg: Config, start: State, steps: seq<Step>, more: seq<Step>, p: nat, log: seq<Loop.Action>,
                 after: seq<Loop.Action>, received: nat, keys: seq<Key>)
    requires Agrees(cfg, start, steps, p, log, received, keys)
    requires var mid := Run(cfg, start, steps); Taken(cfg, mid, more, p) == [] && Settled(cfg, mid, more, p) == []
    requires Runs.Dispositions(after) == Runs.Dispositions(log)
    ensures Agrees(cfg, start, steps + more, p, after, received, keys)
  {
    hide Run, Taken, Settled, Numbered, Runs.Dispositions;
    DeedsAppend(cfg, start, steps, more, p);
    assert keys + [] == keys;
  }

  /** So does one message: yielded for an entry, received, and settled if its attributes decode. */
  lemma AgreesWithMessage(cfg: Config, start: State, steps: seq<Step>, more: seq<Step>, p: nat, log: seq<Loop.Action>,
                          after: seq<Loop.Action>, received: nat, keys: seq<Key>, key: Key, d: Loop.Delivery)
    requires Agrees(cfg, start, steps, p, log, received, keys)
    requires var mid := Run(cfg, start, steps);
             && Taken(cfg, mid, more, p) == [key]
             && Settled(cfg, mid, more, p) == if d.decodes then [Verdict(key, Loop.Accepts(d.outcome))] else []
    requires Runs.Dispositions(after)
          == Runs.Dispositions(log) + if d.decodes then [Loop.Dispose(received, d.outcome)] else []
    ensures Agrees(cfg, start, steps + more, p, after, received + 1, keys + [key])
  {
    hide Run, Taken, Settled, Numbered, Runs.Dispositions, Loop.Accepts, Loop.Dispose, Verdicts;
    DeedsAppend(cfg, start, steps, more, p);
    var ds := Runs.Dispositions(log);
    VerdictsMore(ds, keys, key);
    if !d.decodes {
      assert ds + [] == ds && Verdicts(ds, keys) + [] == Verdicts(ds, keys);
    }
  }

  /** The same for the steps of a turn: those that find the message, then those that settle it. */
  lemma TurnAgrees(cfg: Config, start: State, steps: seq<Step>, more: seq<Step>, settling: seq<Step>, p: nat,
                   log: seq<Loop.Action>, after: seq<Loop.Action>, received: nat, keys: seq<Key>, key: Key,
                   d: Loop.Delivery)
    requires Agrees(cfg, start, steps, p, log, received, keys)
    requires var mid := Run(cfg, start, steps);
             var late := Run(cfg, mid, more);
             && Taken(cfg, mid, more, p) == [key] && Settled(cfg, mid, more, p) == []
             && Taken(cfg, late, settling, p) == []
             && Settled(cfg, late, settling, p) == if d.decodes then [Verdict(key, Loop.Accepts(d.outcome))] else []
    requires Runs.Dispositions(after)
          == Runs.Dispositions(log) + if d.decodes then [Loop.Dispose(received, d.outcome)] else []
    ensures Run(cfg, start, steps + (more + settling)) == Run(cfg, Run(cfg, Run(cfg, start, steps), more), settling)
    ensures Agrees(cfg, start, steps + (more + settling), p, after, received + 1, keys + [key])
  {
    hide Run, Taken, Settled, Runs.Dispositions, Loop.Accepts, Loop.Dispose, Agrees;
    var mid := Run(cfg, start, steps);
    RunAppend(cfg, mid, more, settling);
    DeedsAppend(cfg, mid, more, settling, p);
    RunAppend(cfg, start, steps, more + settling);
    AgreesWithMessage(cfg, start, steps, more + settling, p, log, after, received, keys, key, d);
  }

  /** What the outcomes of the messages say about their entries: an acknowledgement exactly for those that succeed. */
  function Judged(seen: seq<Loop.Delivery>, keys: seq<Key>): seq<Verdict>
    requires |seen| == |keys|
  {
    if seen == [] then []
    else
      var n := |seen| - 1;
      Judged(seen[..n], keys[..n]) +
      if seen[n].decodes then [Verdict(keys[n], Runs.Succeeds(seen[n].outcome))] else []
  }

  lemma {:induction false} JudgedIsExpected(seen: seq<Loop.Delivery>, keys: seq<Key>)
    requires |seen| == |keys|
    ensures Numbered(Runs.Expected(seen), |keys|) && Verdicts(Runs.Expected(seen), keys) == Judged(seen, keys)
  {
    hide Loop.Accepts, Runs.Succeeds, Loop.Dispose, Runs.Verdict;
    if seen != [] {
      var n := |seen| - 1;
      Runs.DisposedByVerdict(n, seen[n].outcome);
      JudgedIsExpected(seen[..n], keys[..n]);
      VerdictsMore(Runs.Expected(seen[..n]), keys[..n], keys[n]);
      assert keys[..n] + [keys[n]] == keys;
      var ds := Runs.Expected(seen[..n]);
      assert ds + [] == ds && Verdicts(ds, keys) + [] == Verdicts(ds, keys);
    }
  }

  /** So the run settled the entries of the messages seen, in order, each by that message's own outcome. */
  lemma SettledByOutcome(cfg: Config, start: State, steps: seq<Step>, p: nat, loop: Loop.Settings,
                         events: seq<Loop.Event>, keys: seq<Key>)
    requires var t := Loop.Run(loop, Loop.INITIAL, events); Agrees(cfg, start, steps, p, t.log, t.received, keys)
    ensures Taken(cfg, start, steps, p) == keys && |keys| == |Runs.Seen(events)|
    ensures Settled(cfg, start, steps, p) == Judged(Runs.Seen(events), keys)
  {
    hide Runs.Seen, Loop.Run, Runs.Expected, Judged, Taken, Settled, Runs.Dispositions, Runs.AnyEscapes;
    Runs.OneDispositionEach(loop, events);
    JudgedIsExpected(Runs.Seen(events), keys);
  }

  lemma LoopOne(cfg: Loop.Settings, events: seq<Loop.Event>, e: Loop.Event)
    requires !Loop.Run(cfg, Loop.INITIAL, events).raised
    ensures Loop.Run(cfg, Loop.INITIAL, events + [e]) == Loop.Step(cfg, Loop.Run(cfg, Loop.INITIAL, events), e)
  {
    hide Loop.Step;
    assert (events + [e])[..|events|] == events;
  }

  // ---- the loop ----

  /** What surrounds one message: what everyone else does while the generator looks for it, and before each extension
      the callback makes; what happens to it in the loop; and whether an acknowledgement of it reaches the server. */
  datatype Turn = Turn(others: seq<seq<Step>>, extensions: seq<seq<Step>>, delivery: Loop.Delivery, reaches: bool)

  /** One pull: the surroundings of its messages, one after the other, and the clock readings when it ends. */
  datatype Pull = Pull(count: nat, turns: nat -> Turn, checkAt: int, beatAt: int)

  /** How a pull ends: with nothing left to yield, by a lookup that raises, or by attributes that do not decode. */
  datatype Ending = Ended | Raising | Escaping

  /** The events of a pull that yields `n` messages. Its `finally` block runs unless the loop body lets an exception
      out. */
  function PullEvents(pull: Pull, n: nat, ending: Ending): seq<Loop.Event> {
    seq(n, i requires 0 <= i < n => Loop.Yield(pull.turns(i).delivery)) +
    match ending
    case Ended => [Loop.Quiet(pull.checkAt, pull.beatAt)]
    case Raising => [Loop.Quiet(pull.checkAt, pull.beatAt), Loop.PullRaised]
    case Escaping => []
  }

  /** The events of some pulls, of which only the last may end otherwise than exhausted. */
  function AllEvents(pulls: seq<Pull>, counts: seq<nat>, ending: Ending): seq<Loop.Event>
    requires |counts| == |pulls|
  {
    if pulls == [] then []
    else
      var n := |pulls| - 1;
      AllEvents(pulls[..n], counts[..n], Ended) + PullEvents(pulls[n], counts[n], ending)
  }

  lemma AllEventsMore(pulls: seq<Pull>, counts: seq<nat>, pull: Pull, n: nat, ending: Ending)
    requires |counts| == |pulls|
    ensures AllEvents(pulls + [pull], counts + [n], ending)
            == AllEvents(pulls, counts, Ended) + PullEvents(pull, n, ending)
  {
    hide PullEvents;
    assert (pulls + [pull])[..|pulls|] == pulls && (counts + [n])[..|counts|] == counts;
  }

  predicate AllForeign(all: seq<seq<Step>>, p: nat) {
    forall steps <- all :: Foreign(steps, p)
  }

  ghost predicate Others(pull: Pull, p: nat) {
    forall i: nat :: AllForeign(pull.turns(i).others, p) && AllForeign(pull.turns(i).extensions, p)
  }

  /** The object and the loop at some point: what they did so far is the run and the events, and the two agree. */
  ghost predicate Tracks(base: Loop.HedwigConsumerBaseBackend, consumer: RedisStreamsConsumer, start: State,
                         steps: seq<Step>, events: seq<Loop.Event>, keys: seq<Key>, raised: bool)
    reads base, consumer, consumer.redis
  {
    && consumer.Valid() && consumer.world == Run(consumer.cfg, start, steps)
    && base.State(raised) == Loop.Run(base.cfg, Loop.INITIAL, events)
    && Agrees(consumer.cfg, start, steps, consumer.slot, base.log, base.received, keys)
  }

  lemma ExtendKeepsHand(cfg: Config, st: State, p: nat, key: Key)
    requires Enabled(cfg, st, Extend(p, key)) && st.consumers[p].doing.Handling?
    ensures var c, d := st.consumers[p], Apply(cfg, st, Extend(p, key)).consumers[p];
            d.doing.Handling? && d.doing.held.At() == c.doing.held.At() && |d.todo| == |c.todo|
  {
  }

  lemma AsideNothing(p: nat)
    ensures Aside([], p)
  {
  }

  lemma AsideMore(steps: seq<Step>, foreign: seq<Step>, p: nat, key: Key)
    requires Aside(steps, p) && Foreign(foreign, p)
    ensures Aside(steps + foreign + [Extend(p, key)], p)
  {
  }

  /** The steps of a callback that extends the visibility of `key`, each time after the others have acted. */
  function ExtensionSteps(extensions: seq<seq<Step>>, p: nat, key: Key): seq<Step> {
    if extensions == [] then []
    else
      var n := |extensions| - 1;
      ExtensionSteps(extensions[..n], p, key) + extensions[n] + [Extend(p, key)]
  }

  /** The callback extends the visibility of its own message any number of times. */
  method ExtendRepeatedly(consumer: RedisStreamsConsumer, extensions: seq<seq<Step>>) returns (ghost steps: seq<Step>)
    requires consumer.Valid() && consumer.doing.Handling? && AllForeign(extensions, consumer.slot)
    modifies consumer, consumer.redis
    ensures consumer.Valid() && consumer.world == Run(consumer.cfg, old(consumer.world), steps)
    ensures Aside(steps, consumer.slot)
    ensures steps == ExtensionSteps(extensions, consumer.slot, old(consumer.doing.held.At()))
    ensures consumer.doing.Handling? && consumer.doing.held.At() == old(consumer.doing.held.At())
    ensures consumer.finished == old(consumer.finished) && consumer.phase == old(consumer.phase)
    ensures |consumer.todo| == |old(consumer.todo)|
  {
    hide Sound, Run, Apply, Foreign, Aside;
    steps := [];
    ghost var start := consumer.world;
    RunNothing(consumer.cfg, start);
    AsideNothing(consumer.slot);
    for i := 0 to |extensions|
      invariant consumer.Valid() && consumer.world == Run(consumer.cfg, start, steps) && Aside(steps, consumer.slot)
      invariant steps == ExtensionSteps(extensions[..i], consumer.slot, old(consumer.doing.held.At()))
      invariant consumer.doing.Handling? && consumer.doing.held.At() == old(consumer.doing.held.At())
      invariant consumer.finished == old(consumer.finished) && consumer.phase == old(consumer.phase)
      invariant |consumer.todo| == |old(consumer.todo)|
    {
      assert extensions[i] in extensions && extensions[..i + 1][..i] == extensions[..i];
      consumer.OthersAct(extensions[i]);
      RunAppend(consumer.cfg, start, steps, extensions[i]);
      var key := consumer.doing.held.At();
      MovingFits(consumer.cfg, consumer.world, consumer.slot);
      WatchedFits(consumer.cfg, consumer.world);
      ExtendKeepsHand(consumer.cfg, consumer.world, consumer.slot, key);
      consumer.ExtendVisibilityTimeout(key);
      RunOne(consumer.cfg, start, steps + extensions[i], Extend(consumer.slot, key));
      AsideMore(steps, extensions[i], consumer.slot, key);
      steps := steps + extensions[i] + [Extend(consumer.slot, key)];
    }
    assert extensions[..|extensions|] == extensions;
  }

  /** The loop body for the message the generator has just yielded. */
  method Handle(base: Loop.HedwigConsumerBaseBackend, consumer: RedisStreamsConsumer, turn: Turn)
    returns (raised: bool, ghost steps: seq<Step>)
    requires consumer.Valid() && consumer.doing.Handling? && AllForeign(turn.extensions, consumer.slot)
    modifies base, consumer, consumer.redis
    ensures base.State(raised) == Loop.Deliver(base.cfg, old(base.State(false)), turn.delivery)
    ensures consumer.Valid() && consumer.world == Run(consumer.cfg, old(consumer.world), steps)
    ensures raised <==> !turn.delivery.decodes
    ensures !raised ==> consumer.doing.Waiting?
    ensures consumer.finished == old(consumer.finished) && consumer.phase == old(consumer.phase)
    ensures |consumer.todo| == |old(consumer.todo)|
    ensures OwnFetches(steps, consumer.slot) == 0
    ensures var d, slot, key := turn.delivery, consumer.slot, old(consumer.doing.held.At());
            d.decodes ==>
              steps == ExtensionSteps(turn.extensions, slot, key)
                       + ([Finish(slot, d.outcome)] + if Loop.Accepts(d.outcome) then [SendAck(slot, turn.reaches)]
                          else [])
    ensures Taken(consumer.cfg, old(consumer.world), steps, consumer.slot) == []
    ensures var settled := Settled(consumer.cfg, old(consumer.world), steps, consumer.slot);
            var d, key := turn.delivery, old(consumer.doing.held.At());
            settled == if d.decodes then [Verdict(key, Loop.Accepts(d.outcome))] else []
  {
    hide Sound, Run, Apply, Aside, Taken, Settled, Loop.Accepts, Loop.Process, OwnFetches;
    var d := turn.delivery;
    ghost var start := consumer.world;
    DeliverRaises(base.cfg, base.State(false), d);
    if !d.decodes {
      raised := base.HandleMessage(d);
      steps := [];
      RunNothing(consumer.cfg, start);
      AsideNothing(consumer.slot);
      AsideDeeds(consumer.cfg, start, [], consumer.slot);
      AsideFetchNothing([], consumer.slot);
      return;
    }
    steps := ExtendRepeatedly(consumer, turn.extensions);
    AsideDeeds(consumer.cfg, start, steps, consumer.slot);
    AsideFetchNothing(steps, consumer.slot);
    raised := base.HandleMessage(d);
    ghost var middle := consumer.world;
    ghost var more := consumer.Settle(d.outcome, turn.reaches);
    SettleDeeds(consumer.cfg, middle, consumer.slot, d.outcome, turn.reaches);
    RunAppend(consumer.cfg, start, steps, more);
    DeedsAppend(consumer.cfg, start, steps, more, consumer.slot);
    FetchesAppend(steps, more, consumer.slot);
    SettlingFetchesNothing(more, consumer.slot, d.outcome, turn.reaches);
    steps := steps + more;
  }

  lemma {:induction false} AsideFetchNothing(steps: seq<Step>, p: nat)
    requires Aside(steps, p)
    ensures OwnFetches(steps, p) == 0
  {
    if steps != [] {
      var n := |steps| - 1;
      assert steps[n] in steps && forall s <- steps[..n] :: s in steps;
      AsideFetchNothing(steps[..n], p);
    }
  }

  lemma SettlingFetchesNothing(steps: seq<Step>, p: nat, o: Loop.Outcome, reaches: bool)
    requires steps == [Finish(p, o)] + if Loop.Accepts(o) then [SendAck(p, reaches)] else []
    ensures OwnFetches(steps, p) == 0
  {
    hide Loop.Accepts;
    assert [Finish(p, o)][..0] == [];
    assert [Finish(p, o), SendAck(p, reaches)][..1] == [Finish(p, o)];
    assert OwnFetches([Finish(p, o)], p) == OwnFetches([], p);
  }

  lemma DeliverRaises(cfg: Loop.Settings, st: Loop.LoopState, d: Loop.Delivery)
    ensures Loop.Deliver(cfg, st, d).raised <==> st.raised || !d.decodes
  {
    Runs.StepDisposes(cfg, st, Loop.Yield(d));
  }

  /** The generator's `finally` block. */
  method Finally(base: Loop.HedwigConsumerBaseBackend, pull: Pull)
    modifies base
    ensures base.State(false) == Loop.Step(base.cfg, old(base.State(false)), Loop.Quiet(pull.checkAt, pull.beatAt))
    ensures base.received == old(base.received) && Runs.Dispositions(base.log) == Runs.Dispositions(old(base.log))
  {
    hide Loop.Beat, Loop.Check, Runs.Dispositions;
    QuietEvent(base.cfg, base.State(false), pull.checkAt, pull.beatAt);
    base.PerformErrorCounterInactivityReset(pull.checkAt);
    base.CallHeartbeatHook(pull.beatAt, false);
  }

  /** One pull: every message the generator yields is handled before the next is asked for; its `finally` block checks
      for inactivity and calls the heartbeat hook, however the pull ends. */
  method ProcessPull(base: Loop.HedwigConsumerBaseBackend, consumer: RedisStreamsConsumer, pull: Pull,
                     ghost start: State,
                     ghost steps0: seq<Step>, ghost events0: seq<Loop.Event>, ghost keys0: seq<Key>)
    returns (raised: bool, ghost steps: seq<Step>, ghost events: seq<Loop.Event>, ghost keys: seq<Key>, ghost n: nat,
             ghost ending: Ending)
    requires Tracks(base, consumer, start, steps0, events0, keys0, false)
    requires consumer.doing.Waiting? && Others(pull, consumer.slot)
    modifies base, consumer, consumer.redis
    ensures Tracks(base, consumer, start, steps, events, keys, raised)
    ensures !raised ==> consumer.doing.Waiting? && consumer.todo == [] && consumer.finished
    ensures events == events0 + PullEvents(pull, n, ending) && (raised <==> !ending.Ended?)
    ensures ending.Escaping? <==> n > 0 && !pull.turns(n - 1).delivery.decodes
    ensures ending.Raising? ==> EndsLost(consumer.cfg, start, steps, consumer.slot)
    ensures ending.Ended? ==>
              OwnFetches(steps, consumer.slot) == OwnFetches(steps0, consumer.slot) + old(consumer.Ahead())
  {
    hide Sound, Run, Agrees, PullSteps, Loop.Deliver, Loop.Run, Runs.Dispositions, OwnFetches, EndsLost, PullEvents,
        Others,
         Loop.Step, Taken, Settled, Loop.Accepts, Loop.Dispose;
    steps, events, keys, raised, n, ending := steps0, events0, keys0, false, 0, Ended;
    NoEvents(pull);
    var i := 0;
    while true
      invariant Tracks(base, consumer, start, steps, events, keys, false)
      invariant consumer.doing.Waiting? && n == i && (i > 0 ==> pull.turns(i - 1).delivery.decodes)
      invariant events == events0 + PullEvents(pull, i, Escaping)
      invariant OwnFetches(steps, consumer.slot) + consumer.Ahead()
             == OwnFetches(steps0, consumer.slot) + old(consumer.Ahead())
      decreases consumer.Ahead(), |consumer.todo|
    {
      var turn := pull.turns(i);
      OthersAt(pull, i, consumer.slot);
      ghost var before, log, received := consumer.world, base.log, base.received;
      ghost var more, after;
      var r;
      r, more := consumer.Next(pull.count, turn.others);
      PullDeeds(consumer.cfg, before, more, consumer.slot);
      FetchesAppend(steps, more, consumer.slot);
      if !r.Message? {
        RunAppend(consumer.cfg, start, steps, more);
        EndsLostLater(consumer.cfg, start, steps, more, consumer.slot);
        EventsEnd(pull, i, events0);
        LoopOne(base.cfg, events, Loop.Quiet(pull.checkAt, pull.beatAt));
        Finally(base, pull);
        AgreesOn(consumer.cfg, start, steps, more, consumer.slot, log, base.log, received, keys);
        steps := steps + more;
        events := events + [Loop.Quiet(pull.checkAt, pull.beatAt)];
        if r.Raised? {
          raised, ending := true, Raising;
          LoopOne(base.cfg, events, Loop.PullRaised);
          RaisedEvent(base.cfg, base.State(false));
          events := events + [Loop.PullRaised];
        }
        return;
      }
      ghost var middle, key := consumer.world, consumer.doing.held.At();
      MessageEvent(base.cfg, base.State(false), turn.delivery);
      LoopOne(base.cfg, events, Loop.Yield(turn.delivery));
      raised, after := Handle(base, consumer, turn);
      TurnAgrees(consumer.cfg, start, steps, more, after, consumer.slot, log, base.log, received, keys, key,
                 turn.delivery);
      FetchesTwice(steps, more, after, consumer.slot);
      EventsMore(pull, i, events0);
      steps := steps + (more + after);
      events := events + [Loop.Yield(turn.delivery)];
      keys := keys + [key];
      i, n := i + 1, n + 1;
      if raised {
        ending := Escaping;
        return;
      }
    }
  }

  lemma OthersAt(pull: Pull, i: nat, p: nat)
    requires Others(pull, p)
    ensures AllForeign(pull.turns(i).others, p) && AllForeign(pull.turns(i).extensions, p)
  {
  }

  lemma RaisedEvent(cfg: Loop.Settings, st: Loop.LoopState)
    ensures Loop.Step(cfg, st, Loop.PullRaised) == st.(raised := true)
  {
  }

  lemma FetchesTwice(a: seq<Step>, b: seq<Step>, c: seq<Step>, p: nat)
    ensures OwnFetches(a + (b + c), p) == OwnFetches(a, p) + OwnFetches(b, p) + OwnFetches(c, p)
  {
    hide OwnFetches;
    FetchesAppend(b, c, p);
    FetchesAppend(a, b + c, p);
  }

  lemma NoEvents(pull: Pull)
    ensures PullEvents(pull, 0, Escaping) == []
  {
  }

  lemma EventsMore(pull: Pull, n: nat, events0: seq<Loop.Event>)
    ensures events0 + PullEvents(pull, n, Escaping) + [Loop.Yield(pull.turns(n).delivery)]
            == events0 + PullEvents(pull, n + 1, Escaping)
  {
    assert PullEvents(pull, n + 1, Escaping) == PullEvents(pull, n, Escaping) + [Loop.Yield(pull.turns(n).delivery)];
  }

  lemma EventsEnd(pull: Pull, n: nat, events0: seq<Loop.Event>)
    ensures var quiet := events0 + PullEvents(pull, n, Escaping) + [Loop.Quiet(pull.checkAt, pull.beatAt)];
            && quiet == events0 + PullEvents(pull, n, Ended)
            && quiet + [Loop.PullRaised] == events0 + PullEvents(pull, n, Raising)
  {
  }

  lemma {:induction false} FetchesAppend(a: seq<Step>, b: seq<Step>, p: nat)
    ensures OwnFetches(a + b, p) == OwnFetches(a, p) + OwnFetches(b, p)
  {
    if b == [] {
      assert a + b == a;
    } else {
      var n := |b| - 1;
      assert (a + b)[..|a| + n] == a + b[..n];
      FetchesAppend(a, b[..n], p);
    }
  }

  lemma EndsLostLater(cfg: Config, st: State, a: seq<Step>, b: seq<Step>, p: nat)
    ensures EndsLost(cfg, Run(cfg, st, a), b, p) ==> EndsLost(cfg, st, a + b, p)
  {
    hide Run, LosesEntry;
    if b == [] { return; }
    var n := |b| - 1;
    assert (a + b)[..|a| + n] == a + b[..n];
    RunAppend(cfg, st, a, b[..n]);
  }

  lemma QuietEvent(cfg: Loop.Settings, st: Loop.LoopState, checkAt: int, beatAt: int)
    ensures var t := Loop.Beat(cfg, Loop.Check(cfg, st, checkAt), beatAt, false);
            && t == Loop.Step(cfg, st, Loop.Quiet(checkAt, beatAt))
            && t.received == st.received && t.raised == st.raised
            && Runs.Dispositions(t.log) == Runs.Dispositions(st.log)
  {
    Runs.StepDisposes(cfg, st, Loop.Quiet(checkAt, beatAt));
    var ds := Runs.Dispositions(st.log);
    assert ds + [] == ds;
  }

  lemma MessageEvent(cfg: Loop.Settings, st: Loop.LoopState, d: Loop.Delivery)
    ensures var t := Loop.Deliver(cfg, st, d);
            && t == Loop.Step(cfg, st, Loop.Yield(d)) && t.received == st.received + 1
            && Runs.Dispositions(t.log)
               == Runs.Dispositions(st.log) + if d.decodes then [Loop.Dispose(st.received, d.outcome)] else []
  {
    Runs.StepDisposes(cfg, st, Loop.Yield(d));
  }

  lemma NoneYet(p: nat)
    ensures OwnFetches([], p) == 0 && AllEvents([], [], Ended) == []
  {
  }

  lemma Times(i: nat, k: nat)
    ensures (i + 1) * k == i * k + k
  {
  }

  lemma Begin(cfg: Config, start: State, p: nat)
    ensures Run(cfg, start, []) == start && Agrees(cfg, start, [], p, [], 0, [])
    ensures forall loop: Loop.Settings :: Loop.Run(loop, Loop.INITIAL, []) == Loop.INITIAL
  {
    assert Runs.Dispositions([]) == [];
  }

  /** The whole loop, one pull after the other, until shutdown is seen, which is when the script ends, or an exception
      leaves it.  Whatever everyone else does meanwhile: the protocol did a run and the loop did the run of its own
      specification; the messages received are, in order, those the protocol's run yielded to this consumer; each whose
      attributes decode was settled once, in order, with an acknowledgement exactly if the loop accepted it; and, if the
      server started empty, no publication is lost. */
  method FetchAndProcessMessages(base: Loop.HedwigConsumerBaseBackend, consumer: RedisStreamsConsumer,
                                 script: seq<Pull>)
    returns (raised: bool, ghost steps: seq<Step>, ghost events: seq<Loop.Event>, ghost keys: seq<Key>,
             ghost counts: seq<nat>, ghost ending: Ending)
    requires base.State(false) == Loop.INITIAL && consumer.Valid()
    requires consumer.doing.Waiting? && consumer.todo == [] && !consumer.finished && consumer.phase == 0
    requires forall pull <- script :: Others(pull, consumer.slot)
    modifies base, consumer, consumer.redis
    ensures consumer.Valid() && consumer.world == Run(consumer.cfg, old(consumer.world), steps)
    ensures base.State(raised) == Loop.Run(base.cfg, Loop.INITIAL, events)
    ensures |counts| <= |script| && events == AllEvents(script[..|counts|], counts, ending)
    ensures raised <==> !ending.Ended?
    ensures !raised ==> |counts| == |script|
    ensures !raised ==> OwnFetches(steps, consumer.slot) == |script| * (|consumer.cfg.watched| + 1)
    ensures Taken(consumer.cfg, old(consumer.world), steps, consumer.slot) == keys && |keys| == |Runs.Seen(events)|
    ensures Settled(consumer.cfg, old(consumer.world), steps, consumer.slot) == Judged(Runs.Seen(events), keys)
    ensures Initial(consumer.cfg, old(consumer.world)) ==>
              forall o: nat | o < consumer.world.Published() :: Covered(consumer.cfg, consumer.world, o)
  {
    hide Sound, Run, Agrees, Loop.Run, Others, Initial, Covered, Taken, Settled, Judged, Runs.Seen, PullEvents,
        AllEvents,
         OwnFetches;
    ghost var start := consumer.world;
    steps, events, keys, counts, ending, raised := [], [], [], [], Ended, false;
    NoneYet(consumer.slot);
    Begin(consumer.cfg, start, consumer.slot);
    for i := 0 to |script|
      invariant !raised && Tracks(base, consumer, start, steps, events, keys, false)
      invariant consumer.doing.Waiting? && consumer.todo == [] && (consumer.finished <==> i > 0) && consumer.phase == 0
      invariant |counts| == i && ending.Ended? && events == AllEvents(script[..i], counts, Ended)
      invariant OwnFetches(steps, consumer.slot) == i * (|consumer.cfg.watched| + 1)
    {
      assert script[i] in script;
      if i > 0 { consumer.PullMessages(); }
      ghost var n;
      raised, steps, events, keys, n, ending := ProcessPull(base, consumer, script[i], start, steps, events, keys);
      AllEventsMore(script[..i], counts, script[i], n, ending);
      assert script[..i] + [script[i]] == script[..i + 1];
      counts := counts + [n];
      Times(i, |consumer.cfg.watched| + 1);
      if raised { break; }
    }
    SettledByOutcome(consumer.cfg, start, steps, consumer.slot, base.cfg, events, keys);
    if Initial(consumer.cfg, start) { NoLoss(consumer.cfg, start, steps); }
  }
}
