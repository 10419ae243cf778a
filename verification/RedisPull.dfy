/** The consumer side of the Redis backend as an object.  Whatever it does is a run of its own steps of the protocol,
so everything proved about runs holds of it. */
module RedisPull {
  import opened RedisStreams
  import opened RedisProtocol
  import opened RedisServer
  import opened RedisInvariants
  import opened RedisFetch
  import opened RedisEffects
  import Loop = ConsumerLoop
  import Runs = ConsumerLoopRuns

  /** What asking the generator of a pull for the next message gives. */
  datatype Pulled =
    | Message(stream: nat, key: nat, payload: Fields, deliveryAttempt: nat)
    | Exhausted
    | Raised

  datatype Checked = Yielded(attempt: nat) | Skipped | Failed

  /** A step of some other process, or of the clock. */
  predicate IsForeign(s: Step, p: nat) {
    (s.Fetch? || s.Lookup? || s.Move? || s.Finish? || s.SendAck? || s.Extend? || s.Crash?) ==> s.p != p
  }

  predicate Foreign(steps: seq<Step>, p: nat) {
    forall s <- steps :: IsForeign(s, p)
  }

  /** Steps that consumer `p` takes while it pulls, with those of the others in between. */
  predicate PullSteps(steps: seq<Step>, p: nat) {
    forall s <- steps :: IsForeign(s, p) || s == Lookup(p) || s == Move(p) || (s.Fetch? && s.p == p)
  }

  /** How many receiving commands consumer `p` sent. */
  function OwnFetches(steps: seq<Step>, p: nat): nat {
    if steps == [] then 0
    else
      var step := steps[|steps| - 1];
      OwnFetches(steps[..|steps| - 1], p) + if step.Fetch? && step.p == p then 1 else 0
  }

  /** The last step is a lookup by consumer `p` that finds its entry no longer pending. */
  predicate EndsLost(cfg: Config, st: State, steps: seq<Step>, p: nat) {
    steps != [] && LosesEntry(cfg, Run(cfg, st, steps[..|steps| - 1]), steps[|steps| - 1], p)
  }

  predicate LosesEntry(cfg: Config, st: State, step: Step, p: nat) {
    && step == Lookup(p) && Enabled(cfg, st, step)
    && st.consumers[p].todo[0].entry.id !in st.streams[st.consumers[p].todo[0].stream].pel
  }

  lemma EndsWith(cfg: Config, st: State, a: seq<Step>, step: Step, p: nat)
    ensures EndsLost(cfg, st, a + [step], p) <==> LosesEntry(cfg, Run(cfg, st, a), step, p)
    ensures OwnFetches(a + [step], p) == OwnFetches(a, p) + if step.Fetch? && step.p == p then 1 else 0
  {
    hide Run, LosesEntry;
    assert (a + [step])[..|a|] == a;
  }

  lemma {:induction false} ForeignFetchNothing(a: seq<Step>, b: seq<Step>, p: nat)
    requires Foreign(b, p)
    ensures OwnFetches(a + b, p) == OwnFetches(a, p)
  {
    if b == [] {
      assert a + b == a;
    } else {
      var n := |b| - 1;
      assert b[n] in b && forall s <- b[..n] :: s in b;
      assert (a + b)[..|a| + n] == a + b[..n];
      ForeignFetchNothing(a, b[..n], p);
    }
  }

  lemma {:induction false} ForeignKeeps(cfg: Config, st: State, steps: seq<Step>, p: nat)
    requires Sound(cfg, st) && p < |st.consumers| && Foreign(steps, p)
    ensures var t := Run(cfg, st, steps);
            Sound(cfg, t) && |t.consumers| == |st.consumers| && t.consumers[p] == st.consumers[p]
  {
    hide Sound, Apply;
    if steps != [] {
      var n := |steps| - 1;
      assert steps[n] in steps && forall s <- steps[..n] :: s in steps;
      ForeignKeeps(cfg, st, steps[..n], p);
      StepSound(cfg, Run(cfg, st, steps[..n]), steps[n]);
      ForeignStep(cfg, Run(cfg, st, steps[..n]), steps[n], p);
    }
  }

  lemma ForeignStep(cfg: Config, st: State, step: Step, p: nat)
    requires p < |st.consumers| && IsForeign(step, p)
    ensures var t := Apply(cfg, st, step); |t.consumers| == |st.consumers| && t.consumers[p] == st.consumers[p]
  {
  }

  /** XAUTOCLAIM on one stream is the receiving command with one name. */
  lemma OneName(streams: seq<Stream>, name: nat, how: Receive, cid: nat, now: int)
    requires name < |streams|
    ensures ReceivedAll(streams, [name], how, cid, now) == streams[name := Received(streams[name], how, cid, now)]
    ensures Gather(Offers(streams, how, now), [name], now) == Hold(name, Batch(streams[name], how, now), now)
  {
    hide Received, Batch;
    assert [name][..0] == [];
  }

  class RedisStreamsConsumer {
    const cfg: Config
    const slot: nat
    const cid: nat
    const redis: Redis
    var phase: nat
    var todo: seq<Held>
    var doing: Doing
    var finished: bool           // the pull has sent its XREADGROUP
    var world: State             // the protocol state this object is part of, and from which the others act

    /** A new process with nothing in hand. */
    constructor (cfg: Config, slot: nat, cid: nat, redis: Redis, world: State)
      requires Sound(cfg, world) && world.streams == redis.streams && world.now == redis.now
      requires slot < |world.consumers| && world.consumers[slot] == Consumer(cid, 0, [], Waiting)
      ensures Valid() && this.cfg == cfg && this.slot == slot && this.redis == redis && this.world == world
      ensures doing.Waiting? && todo == [] && !finished
    {
      this.cfg, this.slot, this.cid, this.redis, this.world := cfg, slot, cid, redis, world;
      phase, todo, doing, finished := 0, [], Waiting, false;
    }

    ghost predicate Valid()
      reads this, redis
    {
      && Sound(cfg, world) && world.streams == redis.streams && world.now == redis.now
      && slot < |world.consumers| && world.consumers[slot] == Consumer(cid, phase, todo, doing)
      && phase <= |cfg.watched| && (finished ==> phase == 0)
    }

    /** The receiving commands the pull has still to send. */
    ghost function Ahead(): nat
      requires Valid()
      reads this, redis
    {
      if finished then 0 else |cfg.watched| + 1 - phase
    }

    /** A new pull, once the one before has ended. */
    method PullMessages()
      requires Valid() && finished && doing.Waiting? && todo == []
      modifies this`finished
      ensures Valid() && !finished && world == old(world)
    {
      finished := false;
    }

    /** The next receiving command of the pull: one claim per stream, then one read of all, which is the last. */
    method Fetch(count: nat)
      requires Valid() && doing.Waiting? && todo == [] && !finished
      modifies this, redis`streams
      ensures Valid() && world == Apply(cfg, old(world), RedisProtocol.Step.Fetch(slot, count))
      ensures doing.Waiting? && (finished <==> old(phase) == |cfg.watched|)
      ensures phase == if finished then 0 else old(phase) + 1
      ensures |redis.streams| == |old(redis.streams)|
      ensures forall n <- cfg.watched :: n < |redis.streams|
      ensures forall i | 0 <= i < |cfg.watched| :: cfg.watched[i] < |redis.streams|
      ensures Fetched(cfg, old(phase), count, old(redis.streams), redis.streams, cid, redis.now, todo)
    {
      hide Received, Batch, Sound, Apply, Hold, Unique, Fetched;
      WatchedFits(cfg, world);
      FetchMeaning(cfg, world, slot, count);
      FetchCases(cfg, world, slot, count);
      StepSound(cfg, world, RedisProtocol.Step.Fetch(slot, count));
      if phase < |cfg.watched| {
        var name := cfg.watched[phase];
        assert name in cfg.watched;
        OneName(redis.streams, name, AutoClaim(cfg.visibility, count), cid, redis.now);
        var batch := redis.XAutoClaim(name, cid, cfg.visibility, count);
        todo := Hold(name, batch, redis.now);
        phase := phase + 1;
      } else {
        var names := Unique(cfg.watched);
        todo := redis.XReadGroupAll(names, cid, count);
        phase := 0;
        finished := true;
      }
      world := Apply(cfg, world, RedisProtocol.Step.Fetch(slot, count));
    }

    /** What the other processes and the clock do before this one sends its next command. */
    method OthersAct(steps: seq<Step>)
      requires Valid() && Foreign(steps, slot)
      modifies this`world, redis
      ensures Valid() && world == Run(cfg, old(world), steps)
    {
      hide Sound, Run;
      ForeignKeeps(cfg, world, steps, slot);
      world := Run(cfg, world, steps);
      redis.streams, redis.now := world.streams, world.now;
    }

    /** The loop body of `_process_raw_messages` for the next entry of the batch: look its delivery count up, move it to
        the dead-letter stream if it is over the maximum, yield it otherwise.  The lookup is empty, and raises, exactly
        when the entry is not pending any more.  Others may act between the lookup and the transaction. */
    method ProcessRawMessage(between: seq<Step>) returns (r: Checked, ghost steps: seq<Step>)
      requires Valid() && doing.Waiting? && todo != [] && Foreign(between, slot)
      modifies this, redis
      ensures Valid() && world == Run(cfg, old(world), steps) && PullSteps(steps, slot)
      ensures steps == if r.Skipped? then [Lookup(slot)] + (between + [Move(slot)]) else [Lookup(slot)]
      ensures var h := old(todo)[0];
              && h.stream < |old(world).streams|
              && var pel := old(world).streams[h.stream].pel;
              && (r.Failed? <==> h.entry.id !in pel)
              && (r.Skipped? <==> h.entry.id in pel && pel[h.entry.id].times > cfg.maxAttempts)
              && (r.Yielded? ==>
                    h.entry.id in pel && r.attempt == pel[h.entry.id].times && 1 <= r.attempt <= cfg.maxAttempts)
      ensures finished == (old(finished) || r.Failed?)
      ensures if r.Failed? then todo == [] else todo == old(todo)[1..] && phase == old(phase)
      ensures if r.Yielded? then doing == Handling(old(todo)[0], r.attempt) else doing.Waiting?
    {
      hide Sound, Execute, Run, Apply, ApplyLookup;
      var h := todo[0];
      ghost var before := world;
      HeadFits(cfg, world, slot);
      LookupCases(cfg, world, slot);
      StepSound(cfg, world, Lookup(slot));
      steps := [Lookup(slot)];
      RunNothing(cfg, before);
      RunOne(cfg, before, [], Lookup(slot));
      assert [] + [Lookup(slot)] == steps;
      var lines := redis.XPendingRange(h.stream, h.entry.id);
      assert lines == [] <==> h.entry.id !in before.streams[h.stream].pel;
      world := Apply(cfg, world, Lookup(slot));
      if lines == [] {
        phase, todo, finished, r := 0, [], true, Failed;
        return;
      }
      assert lines[0] in lines;
      todo := todo[1..];
      if lines[0].times > cfg.maxAttempts {
        doing := Moving(h);
        OthersAct(between);
        RunAppend(cfg, before, steps, between);
        steps := steps + between;
        RunOne(cfg, before, steps, Move(slot));
        MovingFits(cfg, world, slot);
        MoveToDeadLetter();
        steps := steps + [Move(slot)];
        assert steps == [Lookup(slot)] + (between + [Move(slot)]);
        r := Skipped;
      } else {
        doing := Handling(h, lines[0].times);
        r := Yielded(lines[0].times);
      }
    }

    /** One transaction: add to the dead-letter stream, acknowledge where the entry came from. */
    method MoveToDeadLetter()
      requires Valid() && doing.Moving? && doing.held.stream < |redis.streams|
      modifies this`doing, this`world, redis`streams
      ensures Valid() && doing.Waiting? && world == Apply(cfg, old(world), Move(slot))
      ensures |redis.streams| == |old(redis.streams)|
      ensures var h := old(doing.held);
              forall i | 0 <= i < |redis.streams| ::
                Changed(old(redis.streams)[i], redis.streams[i], if i == cfg.dlq then [h.entry.body] else [],
                        if i == h.stream then {h.entry.id} else {})
    {
      hide Sound, Execute, XAdd, Changed;
      var h := doing.held;
      WatchedFits(cfg, world);
      forall i | 0 <= i < |world.streams|
        ensures |Apply(cfg, world, Move(slot)).streams| == |world.streams|
        ensures Changed(world.streams[i], Apply(cfg, world, Move(slot)).streams[i],
                        if i == cfg.dlq then [h.entry.body] else [], if i == h.stream then {h.entry.id} else {})
      {
        StepChanges(cfg, world, Move(slot), i);
      }
      StepSound(cfg, world, Move(slot));
      TwoCommands(redis.streams, cfg.dlq, h, redis.now);
      redis.Pipeline([Add(cfg.dlq, h.entry.body), Ack(h.stream, {h.entry.id})]);
      doing := Waiting;
      world := Apply(cfg, world, Move(slot));
    }

    /** The generator of `pull_messages`, asked for its next message.  Fetching, checking and moving go on until an
        entry passes the attempt check, the pull ends, or a lookup raises.  `others` is what everyone else does
        meanwhile, before and within each turn. */
    method Next(count: nat, others: seq<seq<Step>>) returns (r: Pulled, ghost steps: seq<Step>)
      requires Valid() && doing.Waiting? && forall o <- others :: Foreign(o, slot)
      modifies this, redis
      ensures Valid() && world == Run(cfg, old(world), steps) && PullSteps(steps, slot)
      ensures !r.Message? ==> doing.Waiting? && todo == [] && finished
      ensures r.Message? ==>
                && doing.Handling? && doing.attempt == r.deliveryAttempt && 1 <= r.deliveryAttempt <= cfg.maxAttempts
                && doing.held.At() == Key(r.stream, r.key) && doing.held.entry.body.fields == r.payload
      ensures r.Message? ==> Ahead() < old(Ahead()) || (Ahead() == old(Ahead()) && |todo| < |old(todo)|)
      ensures r.Raised? <==> EndsLost(cfg, old(world), steps, slot)
      ensures !r.Raised? ==> OwnFetches(steps, slot) == old(Ahead()) - Ahead()
    {
      hide Sound, Run, Foreign, PullSteps, EndsLost, LosesEntry, OwnFetches;
      steps := [];
      ghost var start := world;
      NoSteps(cfg, start, slot);
      var i := 0;
      while todo != [] || !finished
        invariant Valid() && doing.Waiting? && world == Run(cfg, start, steps) && PullSteps(steps, slot)
        invariant Ahead() < old(Ahead()) || (Ahead() == old(Ahead()) && |todo| <= |old(todo)|)
        invariant !EndsLost(cfg, start, steps, slot) && OwnFetches(steps, slot) == old(Ahead()) - Ahead()
        decreases if finished then 0 else |cfg.watched| + 1 - phase, |todo|
      {
        var before, within := At(others, i), At(others, i + 1);
        AtForeign(others, i, slot);
        AtForeign(others, i + 1, slot);
        i := i + 2;
        OthersAct(before);
        RunAppend(cfg, start, steps, before);
        ForeignArePull(steps, before, slot);
        ForeignFetchNothing(steps, before, slot);
        steps := steps + before;
        if todo == [] {
          Fetch(count);
          NotLost(cfg, start, steps, RedisProtocol.Step.Fetch(slot, count), slot);
          RunOne(cfg, start, steps, RedisProtocol.Step.Fetch(slot, count));
          FetchIsPull(steps, count, slot);
          steps := steps + [RedisProtocol.Step.Fetch(slot, count)];
        } else {
          ghost var more;
          var checked;
          CheckedEnds(cfg, start, steps, within, slot);
          LosesIff(cfg, world, slot);
          checked, more := ProcessRawMessage(within);
          RunAppend(cfg, start, steps, more);
          PullAppend(steps, more, slot);
          steps := steps + more;
          match checked {
            case Failed => return Raised, steps;
            case Skipped =>
            case Yielded(attempt) =>
              var h := doing.held;
              return Message(h.stream, h.entry.id, h.entry.body.fields, attempt), steps;
          }
        }
      }
      r := Exhausted;
    }

    /** `extend_visibility_timeout` for an entry of some stream, called while the callback runs. */
    method ExtendVisibilityTimeout(key: Key)
      requires Valid() && key.stream < |redis.streams|
      modifies this, redis`streams
      ensures Valid() && world == Apply(cfg, old(world), Extend(slot, key)) && phase == old(phase)
              && finished == old(finished)
      ensures |redis.streams| == |old(redis.streams)|
      ensures forall i | 0 <= i < |redis.streams| ::
                var s, t := old(redis.streams)[i], redis.streams[i];
                && t.entries == s.entries && t.last == s.last && t.pel.Keys == s.pel.Keys
                && forall id <- s.pel ::
                     t.pel[id] == if key == Key(i, id) then Pending(cid, redis.now, s.pel[id].times) else s.pel[id]
    {
      hide Sound;
      WatchedFits(cfg, world);
      forall i | 0 <= i < |world.streams| { OtherSteps(cfg, world, Extend(slot, key), i); }
      StepSound(cfg, world, Extend(slot, key));
      ExtendCases(cfg, world, slot, key);
      redis.XClaim(key.stream, cid, key.id);
      world := Apply(cfg, world, Extend(slot, key));
      todo, doing := world.consumers[slot].todo, world.consumers[slot].doing;
    }

    /** The loop is done with the message: acknowledge it if it was accepted, else leave it to its lease.  The
        acknowledgement may fail to reach the server. */
    method Settle(outcome: Loop.Outcome, reaches: bool) returns (ghost steps: seq<Step>)
      requires Valid() && doing.Handling?
      modifies this`doing, this`world, redis`streams
      ensures Valid() && doing.Waiting? && world == Run(cfg, old(world), steps)
      ensures steps == [Finish(slot, outcome)] + if Loop.Accepts(outcome) then [SendAck(slot, reaches)] else []
      ensures |redis.streams| == |old(redis.streams)|
      ensures var h := old(doing.held);
              forall i | 0 <= i < |redis.streams| ::
                Changed(old(redis.streams)[i], redis.streams[i], [],
                        if i == h.stream && reaches && Runs.Succeeds(outcome) then {h.entry.id} else {})
    {
      hide Sound, Run, Apply;
      ghost var before := world;
      FinishCases(cfg, world, slot, outcome, reaches);
      StepSound(cfg, world, Finish(slot, outcome));
      RunNothing(cfg, before);
      RunOne(cfg, before, [], Finish(slot, outcome));
      steps := [Finish(slot, outcome)];
      assert [] + steps == steps;
      world := Apply(cfg, world, Finish(slot, outcome));
      var h := doing.held;
      if Loop.Accepts(outcome) {
        StepSound(cfg, world, SendAck(slot, reaches));
        RunOne(cfg, before, steps, SendAck(slot, reaches));
        steps := steps + [SendAck(slot, reaches)];
        world := Apply(cfg, world, SendAck(slot, reaches));
        if reaches { var acked := redis.XAck(h.stream, h.entry.id); }
      }
      doing := Waiting;
    }
  }

  function At(others: seq<seq<Step>>, i: nat): seq<Step> {
    if i < |others| then others[i] else []
  }

  lemma AtForeign(others: seq<seq<Step>>, i: nat, p: nat)
    requires forall o <- others :: Foreign(o, p)
    ensures Foreign(At(others, i), p)
  {
    if i < |others| { assert others[i] in others; }
  }

  lemma NoSteps(cfg: Config, st: State, p: nat)
    ensures Run(cfg, st, []) == st && PullSteps([], p)
    ensures !EndsLost(cfg, st, [], p) && OwnFetches([], p) == 0
  {
  }

  lemma NotLost(cfg: Config, st: State, a: seq<Step>, step: Step, p: nat)
    requires step != Lookup(p)
    ensures !EndsLost(cfg, st, a + [step], p)
    ensures OwnFetches(a + [step], p) == OwnFetches(a, p) + if step.Fetch? && step.p == p then 1 else 0
  {
    EndsWith(cfg, st, a, step, p);
  }

  lemma LosesIff(cfg: Config, st: State, p: nat)
    requires Sound(cfg, st) && p < |st.consumers| && st.consumers[p].doing.Waiting? && st.consumers[p].todo != []
    ensures var h := st.consumers[p].todo[0];
            h.stream < |st.streams| && (LosesEntry(cfg, st, Lookup(p), p) <==> h.entry.id !in st.streams[h.stream].pel)
  {
    hide Sound;
    HeadFits(cfg, st, p);
  }

  /** How the steps of an attempt check end, with or without a move. */
  lemma CheckedEnds(cfg: Config, st: State, a: seq<Step>, between: seq<Step>, p: nat)
    requires Foreign(between, p)
    ensures EndsLost(cfg, st, a + [Lookup(p)], p) <==> LosesEntry(cfg, Run(cfg, st, a), Lookup(p), p)
    ensures OwnFetches(a + [Lookup(p)], p) == OwnFetches(a, p)
    ensures !EndsLost(cfg, st, a + ([Lookup(p)] + (between + [Move(p)])), p)
    ensures OwnFetches(a + ([Lookup(p)] + (between + [Move(p)])), p) == OwnFetches(a, p)
  {
    hide Foreign, EndsLost, LosesEntry, OwnFetches, Run;
    EndsWith(cfg, st, a, Lookup(p), p);
    ForeignFetchNothing(a + [Lookup(p)], between, p);
    NotLost(cfg, st, a + [Lookup(p)] + between, Move(p), p);
    assert a + ([Lookup(p)] + (between + [Move(p)])) == a + [Lookup(p)] + between + [Move(p)];
  }

  lemma PullAppend(a: seq<Step>, b: seq<Step>, p: nat)
    requires PullSteps(a, p) && PullSteps(b, p)
    ensures PullSteps(a + b, p)
  {
  }

  lemma ForeignArePull(a: seq<Step>, b: seq<Step>, p: nat)
    requires PullSteps(a, p) && Foreign(b, p)
    ensures PullSteps(a + b, p)
  {
  }

  lemma FetchIsPull(a: seq<Step>, count: nat, p: nat)
    requires PullSteps(a, p)
    ensures PullSteps(a + [RedisProtocol.Step.Fetch(p, count)], p)
  {
  }

  lemma MovingFits(cfg: Config, st: State, p: nat)
    requires Sound(cfg, st) && p < |st.consumers| && !st.consumers[p].doing.Waiting?
    ensures st.consumers[p].doing.held.stream < |st.streams|
  {
    assert ConsumerOk(cfg, st.streams, st.now, st.consumers[p]);
  }

  lemma ExtendCases(cfg: Config, st: State, p: nat, key: Key)
    requires Enabled(cfg, st, Extend(p, key))
    ensures var t := Apply(cfg, st, Extend(p, key));
            var c := st.consumers[p];
            && t.streams == st.streams[key.stream := XClaimJustId(st.streams[key.stream], c.cid, st.now, key.id)]
            && t.now == st.now && |t.consumers| == |st.consumers|
            && t.consumers[p] == c.(todo := t.consumers[p].todo, doing := t.consumers[p].doing)
  {
  }

  /** The loop's verdict, and the acknowledgement that follows it if it accepts. */
  lemma FinishCases(cfg: Config, st: State, p: nat, o: Loop.Outcome, reaches: bool)
    requires Sound(cfg, st) && p < |st.consumers| && st.consumers[p].doing.Handling?
    ensures var c := st.consumers[p];
            var h := c.doing.held;
            var t := Apply(cfg, st, Finish(p, o));
            && t.streams == st.streams && t.now == st.now && |t.consumers| == |st.consumers| && h.stream < |st.streams|
            && t.consumers[p] == c.(doing := if Loop.Accepts(o) then Acking(h, o) else Waiting)
            && (Loop.Accepts(o) ==>
                  var u := Apply(cfg, t, SendAck(p, reaches));
                  && u.now == st.now && |u.consumers| == |st.consumers| && u.consumers[p] == c.(doing := Waiting)
                  && u.streams == if reaches then st.streams[h.stream := XAck(st.streams[h.stream], {h.entry.id})]
                                  else st.streams)
  {
    hide Stream.Valid, Grows;
    MovingFits(cfg, st, p);
    assert cfg.Fits(|st.streams|);
  }

  lemma FetchCases(cfg: Config, st: State, p: nat, count: nat)
    requires cfg.Fits(|st.streams|) && p < |st.consumers| && st.consumers[p].doing.Waiting?
             && st.consumers[p].todo == []
    ensures var t := Apply(cfg, st, RedisProtocol.Step.Fetch(p, count));
            var c := st.consumers[p];
            var (names, how, phase) := FetchFrom(cfg, c, count);
            && t.now == st.now && |t.consumers| == |st.consumers|
            && t.streams == ReceivedAll(st.streams, names, how, c.cid, st.now)
            && t.consumers[p] == c.(phase := phase, todo := Gather(Offers(st.streams, how, st.now), names, st.now))
  {
    hide Batch, Received;
  }

  /** The three ways an attempt check can end. */
  lemma LookupCases(cfg: Config, st: State, p: nat)
    requires Enabled(cfg, st, Lookup(p))
    ensures var t := Apply(cfg, st, Lookup(p));
            var c := st.consumers[p];
            var h := c.todo[0];
            var pel := st.streams[h.stream].pel;
            && t.streams == st.streams && t.now == st.now && |t.consumers| == |st.consumers|
            && t.consumers[p]
               == if h.entry.id !in pel then Consumer(c.cid, 0, [], Waiting)
                  else if pel[h.entry.id].times > cfg.maxAttempts then c.(todo := c.todo[1..], doing := Moving(h))
                  else c.(todo := c.todo[1..], doing := Handling(h, pel[h.entry.id].times))
  {
  }

  lemma HeadFits(cfg: Config, st: State, p: nat)
    requires Sound(cfg, st) && p < |st.consumers| && st.consumers[p].doing.Waiting? && st.consumers[p].todo != []
    ensures Enabled(cfg, st, Lookup(p))
    ensures var h := st.consumers[p].todo[0];
            var pel := st.streams[h.stream].pel;
            h.entry.id <= st.streams[h.stream].last && (h.entry.id in pel ==> pel[h.entry.id].times >= 1)
  {
    assert ConsumerOk(cfg, st.streams, st.now, st.consumers[p]);
    assert st.consumers[p].todo[0] in st.consumers[p].todo;
    assert StreamOk(st.streams[st.consumers[p].todo[0].stream], st.now);
  }

  lemma WatchedFits(cfg: Config, st: State)
    requires Sound(cfg, st)
    ensures cfg.Fits(|st.streams|)
    ensures forall i | 0 <= i < |cfg.watched| :: cfg.watched[i] < |st.streams|
  {
    assert forall i | 0 <= i < |cfg.watched| :: cfg.watched[i] in cfg.watched;
  }

  lemma TwoCommands(streams: seq<Stream>, dlq: nat, h: Held, now: nat)
    requires dlq < |streams| && h.stream < |streams|
    ensures var added := streams[dlq := XAdd(streams[dlq], h.entry.body, now)];
            var moved := added[h.stream := XAck(added[h.stream], {h.entry.id})];
            Execute(streams, [Add(dlq, h.entry.body), Ack(h.stream, {h.entry.id})], now) == moved
  {
    var commands := [Add(dlq, h.entry.body), Ack(h.stream, {h.entry.id})];
    assert commands[..1] == [Add(dlq, h.entry.body)] && commands[..1][..0] == [];
    assert Execute(streams, [], now) == streams;
    assert Execute(streams, commands[..1], now) == Execute1(streams, commands[0], now);
  }
}
