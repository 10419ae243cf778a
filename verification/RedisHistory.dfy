/** With one consumer, the attempts of an entry are numbered in rising order and none is skipped over the limit. */
module RedisHistory {
  import opened RedisStreams
  import opened RedisProtocol
  import opened RedisInvariants
  import opened RedisSingle
  import opened RedisConservation

  /** A handout is of a delivered entry, and behind or level with the server's count while that is pending. */
  ghost predicate Recorded(cfg: Config, st: State, d: Handout) {
    && 1 <= d.attempt <= cfg.maxAttempts && d.key.stream < |st.streams|
    && var s := st.streams[d.key.stream];
    && d.key.id <= s.last
    && (d.key.id in s.pel ==> d.attempt <= s.pel[d.key.id].times)
  }

  /** A claim that waits for its check is of a delivery after every handout so far. */
  ghost predicate Behind(st: State, d: Handout, h: Held) {
    d.key == h.At() && h.stream < |st.streams| && h.entry.id in st.streams[h.stream].pel ==>
      d.attempt < st.streams[h.stream].pel[h.entry.id].times
  }

  ghost predicate Rising(handouts: seq<Handout>) {
    forall i, j | 0 <= i < j < |handouts| && handouts[i].key == handouts[j].key ::
      handouts[i].attempt < handouts[j].attempt
  }

  ghost predicate History(cfg: Config, st: State) {
    && |st.consumers| == 1
    && Rising(st.handouts)
    && (forall d <- st.handouts :: Recorded(cfg, st, d))
    && (forall d, h | d in st.handouts && h in st.consumers[0].todo :: Behind(st, d, h))
  }

  lemma RecordedLater(cfg: Config, st: State, step: Step, d: Handout)
    requires Sound(cfg, st) && Recorded(cfg, st, d)
    ensures Recorded(cfg, Apply(cfg, st, step), d)
  {
    StepEvolves(cfg, st, step);
    assert Grows(st.streams[d.key.stream], Apply(cfg, st, step).streams[d.key.stream]);
  }

  lemma BehindLater(cfg: Config, st: State, step: Step, d: Handout, h: Held)
    requires Sound(cfg, st) && Recorded(cfg, st, d) && Behind(st, d, h)
    ensures Behind(Apply(cfg, st, step), d, h)
  {
    StepEvolves(cfg, st, step);
    if d.key == h.At() { assert Grows(st.streams[h.stream], Apply(cfg, st, step).streams[h.stream]); }
  }

  lemma FetchBehind(cfg: Config, st: State, count: nat, d: Handout, h: Held)
    requires Sound(cfg, st) && History(cfg, st) && Enabled(cfg, st, Fetch(0, count)) && d in st.handouts
    requires h in ApplyFetch(cfg, st, 0, count).consumers[0].todo
    ensures Behind(ApplyFetch(cfg, st, 0, count), d, h)
  {
    var (names, how, phase) := FetchFrom(cfg, st.consumers[0], count);
    assert Recorded(cfg, st, d);
    GatherGenuine(cfg, st, names, how, st.consumers[0].cid, h);
    assert StreamOk(st.streams[h.stream], st.now);
    BatchPending(st.streams[h.stream], how, st.consumers[0].cid, st.now);
  }

  lemma HeadIsAlone(cfg: Config, st: State)
    requires Sound(cfg, st) && Tidy(cfg, st) && Enabled(cfg, st, Lookup(0))
    ensures var c := st.consumers[0];
            var h := c.todo[0];
            && h in c.todo && (forall k <- c.todo[1..] :: k in c.todo && k.At() != h.At())
            && StreamOk(st.streams[h.stream], st.now) && h.entry.id <= st.streams[h.stream].last
  {
    var c := st.consumers[0];
    var h := c.todo[0];
    assert c.Holds() == c.todo && h in c.Holds();
    HeldIn(cfg, st, h);
    forall k <- c.todo[1..] ensures k in c.todo && k.At() != h.At() {
      var i :| 0 <= i < |c.todo[1..]| && c.todo[1..][i] == k;
      assert c.Holds()[i + 1] == k && c.Holds()[0] == h;
    }
  }

  /** Passing the check appends an attempt number larger than all before it for the same entry. */
  lemma LookupHistory(cfg: Config, st: State)
    requires Sound(cfg, st) && Tidy(cfg, st) && History(cfg, st) && Enabled(cfg, st, Lookup(0))
    ensures History(cfg, ApplyLookup(cfg, st, 0))
  {
    hide Only, ConsumerOk, Grows, Sorted, Distinct, Tidy, Sound;
    var t := ApplyLookup(cfg, st, 0);
    var c := st.consumers[0];
    var h := c.todo[0];
    LookupFinds(cfg, st);
    HeadIsAlone(cfg, st);
    forall i, j | 0 <= i < j < |t.handouts| && t.handouts[i].key == t.handouts[j].key
      ensures t.handouts[i].attempt < t.handouts[j].attempt
    {
      if j == |st.handouts| {
        assert st.handouts[i] in st.handouts && Behind(st, st.handouts[i], h);
      }
    }
    forall d <- t.handouts ensures Recorded(cfg, t, d) {
      if d in st.handouts { assert Recorded(cfg, st, d); }
    }
    forall d, k | d in t.handouts && k in t.consumers[0].todo ensures Behind(t, d, k) {
      if d in st.handouts { assert Behind(st, d, k); }
    }
  }

  lemma OtherTodo(cfg: Config, st: State, step: Step, h: Held) returns (was: Held)
    requires |st.consumers| == 1 && h in Apply(cfg, st, step).consumers[0].todo
    requires Enabled(cfg, st, step) ==> !step.Fetch? && !step.Lookup?
    ensures was in st.consumers[0].todo && was.At() == h.At()
  {
    was := h;
    if Enabled(cfg, st, step) && step.Extend? {
      var d := Apply(cfg, st, step).consumers[0];
      var i :| 0 <= i < |d.todo| && d.todo[i] == h;
      was := st.consumers[0].todo[i];
    }
  }

  lemma StepHistory(cfg: Config, st: State, step: Step)
    requires Sound(cfg, st) && Tidy(cfg, st) && History(cfg, st)
    ensures History(cfg, Apply(cfg, st, step))
  {
    hide Sound, Tidy, Batch, Received;
    var t := Apply(cfg, st, step);
    StepShape(cfg, st, step);
    if step.Lookup? && Enabled(cfg, st, step) {
      LookupHistory(cfg, st);
    } else {
      assert t.handouts == st.handouts;
      forall d <- t.handouts ensures Recorded(cfg, t, d) { RecordedLater(cfg, st, step, d); }
      forall d, h | d in t.handouts && h in t.consumers[0].todo ensures Behind(t, d, h) {
        if step.Fetch? && Enabled(cfg, st, step) {
          FetchBehind(cfg, st, step.count, d, h);
        } else {
          var was := OtherTodo(cfg, st, step, h);
          assert Behind(st, d, was);
          BehindLater(cfg, st, step, d, was);
        }
      }
    }
  }

  /** Attempt history: with one consumer, the pending lookup of the attempt check is never empty; the attempt numbers
      handed out for one entry strictly rise within 1 .. maximum; and an entry on its way to the dead-letter stream is
      pending with a delivery count over the maximum. */
  lemma {:induction false} AttemptHistory(cfg: Config, st: State, steps: seq<Step>)
    requires Initial(cfg, st) && |st.consumers| == 1 && |st.requeuers| <= 1 && cfg.dlq !in cfg.watched
    ensures var t := Run(cfg, st, steps);
            && History(cfg, t)
            && (forall h <- t.consumers[0].todo :: StillPending(t.streams, h))
            && (t.consumers[0].doing.Moving? ==>
                  var h := t.consumers[0].doing.held;
                  StillPending(t.streams, h) && t.streams[h.stream].pel[h.entry.id].times > cfg.maxAttempts)
  {
    var t := Run(cfg, st, steps);
    RunTidy(cfg, st, steps);
    if steps == [] {
      assert st.consumers[0] in st.consumers;
    } else {
      var n := |steps| - 1;
      AttemptHistory(cfg, st, steps[..n]);
      RunTidy(cfg, st, steps[..n]);
      StepHistory(cfg, Run(cfg, st, steps[..n]), steps[n]);
    }
    MovingPending(cfg, t);
  }

  lemma MovingPending(cfg: Config, st: State)
    requires Sound(cfg, st) && Tidy(cfg, st)
    ensures forall h <- st.consumers[0].todo :: StillPending(st.streams, h)
    ensures st.consumers[0].doing.Moving? ==>
              var h := st.consumers[0].doing.held;
              StillPending(st.streams, h) && st.streams[h.stream].pel[h.entry.id].times > cfg.maxAttempts
  {
    var c := st.consumers[0];
    forall h <- c.todo ensures StillPending(st.streams, h) { assert h in c.Holds(); }
    if c.doing.Moving? {
      assert c.doing.held in c.Holds();
      assert ConsumerOk(cfg, st.streams, st.now, c);
    }
  }
}
