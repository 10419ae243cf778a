/** One consumer and at most one re-queue process: nothing is dropped and nothing is duplicated, and every entry has
the attempt history it should have. */
module RedisSingle {
  import opened RedisStreams
  import opened RedisProtocol
  import opened RedisInvariants
  import opened RedisNoLoss

  ghost predicate Distinct(hs: seq<Held>) {
    forall i, j | 0 <= i < j < |hs| :: hs[i].At() != hs[j].At()
  }

  ghost predicate StillPending(streams: seq<Stream>, h: Held) {
    h.stream < |streams| && h.entry.id in streams[h.stream].pel
  }

  /** Everything the consumer holds is pending and held once; the re-queue batch is pending. */
  ghost predicate Tidy(cfg: Config, st: State) {
    && |st.consumers| == 1 && |st.requeuers| <= 1 && cfg.dlq !in cfg.watched && cfg.dlq < |st.streams|
    && Distinct(st.consumers[0].Holds())
    && (forall h <- st.consumers[0].Holds() :: StillPending(st.streams, h))
    && (|st.requeuers| == 1 ==> forall e <- st.requeuers[0].batch :: e.id in st.streams[cfg.dlq].pel)
  }

  /** Only an acknowledgement takes an entry off the pending list. */
  lemma PendingStays(cfg: Config, st: State, step: Step, i: nat, e: Entry)
    requires Sound(cfg, st) && i < |st.streams| && e in st.streams[i].entries
    requires e.id in st.streams[i].pel && !Acks(cfg, st, step, i, e.id)
    ensures var t := Apply(cfg, st, step); i < |t.streams| && e.id in t.streams[i].pel
  {
    OutstandingStays(cfg, st, step, i, e);
    StepEvolves(cfg, st, step);
    assert StreamOk(st.streams[i], st.now);
    assert Grows(st.streams[i], Apply(cfg, st, step).streams[i]);
  }

  lemma HeldIn(cfg: Config, st: State, h: Held)
    requires Sound(cfg, st) && Tidy(cfg, st) && h in st.consumers[0].Holds()
    ensures Genuine(cfg, st.streams, st.now, h) && h.stream != cfg.dlq
  {
    assert ConsumerOk(cfg, st.streams, st.now, st.consumers[0]);
  }

  /** What a step leaves with the consumer it did not acknowledge. */
  lemma NotAcked(cfg: Config, st: State, step: Step, h: Held)
    requires Sound(cfg, st) && Tidy(cfg, st) && h in st.consumers[0].Holds()
    requires (step.Move? || step.SendAck?) ==> h in st.consumers[0].todo
    ensures !Acks(cfg, st, step, h.stream, h.entry.id)
  {
    hide Sound, Genuine;
    HeldIn(cfg, st, h);
    if (step.Move? || step.SendAck?) && Enabled(cfg, st, step) {
      var c := st.consumers[0];
      var i :| 0 <= i < |c.todo| && c.todo[i] == h;
      assert c.Holds()[i].At() != c.Holds()[|c.todo|].At();
    }
  }

  lemma RemainderPending(cfg: Config, st: State, step: Step, h: Held)
    requires Sound(cfg, st) && Tidy(cfg, st) && h in st.consumers[0].Holds()
    requires (step.Move? || step.SendAck?) ==> h in st.consumers[0].todo
    ensures StillPending(Apply(cfg, st, step).streams, h)
  {
    HeldIn(cfg, st, h);
    NotAcked(cfg, st, step, h);
    PendingStays(cfg, st, step, h.stream, h.entry);
  }

  lemma {:induction false} GatherDistinct(offers: seq<seq<Entry>>, names: seq<nat>, now: int)
    requires forall n <- names :: n < |offers|
    requires forall i, j | 0 <= i < j < |names| :: names[i] != names[j]
    requires forall n <- names :: Sorted(offers[n])
    ensures Distinct(Gather(offers, names, now))
  {
    if names != [] {
      var n := |names| - 1;
      assert names[n] in names && forall x <- names[..n] :: x in names;
      var front, last := Gather(offers, names[..n], now), Hold(names[n], offers[names[n]], now);
      GatherDistinct(offers, names[..n], now);
      assert forall h <- front :: h.stream != names[n];
      assert forall i | 0 <= i < |last| :: last[i] == Held(names[n], offers[names[n]][i], now);
      assert forall i | 0 <= i < |front| :: front[i] in front;
    }
  }

  lemma FetchedPending(cfg: Config, st: State, count: nat, h: Held)
    requires Sound(cfg, st) && Tidy(cfg, st) && Enabled(cfg, st, Fetch(0, count))
    requires h in ApplyFetch(cfg, st, 0, count).consumers[0].todo
    ensures StillPending(ApplyFetch(cfg, st, 0, count).streams, h)
  {
    var (names, how, phase) := FetchFrom(cfg, st.consumers[0], count);
    GatherGenuine(cfg, st, names, how, st.consumers[0].cid, h);
    assert StreamOk(st.streams[h.stream], st.now);
    BatchPending(st.streams[h.stream], how, st.consumers[0].cid, st.now);
  }

  lemma FetchTidy(cfg: Config, st: State, count: nat)
    requires Sound(cfg, st) && Tidy(cfg, st) && Enabled(cfg, st, Fetch(0, count))
    ensures var t := ApplyFetch(cfg, st, 0, count);
            Distinct(t.consumers[0].Holds()) && forall h <- t.consumers[0].Holds() :: StillPending(t.streams, h)
  {
    var t := ApplyFetch(cfg, st, 0, count);
    var (names, how, phase) := FetchFrom(cfg, st.consumers[0], count);
    var offers := Offers(st.streams, how, st.now);
    forall n <- names ensures Sorted(offers[n]) { assert StreamOk(st.streams[n], st.now); }
    GatherDistinct(offers, names, st.now);
    assert t.consumers[0].Holds() == t.consumers[0].todo == Gather(offers, names, st.now);
    forall h <- t.consumers[0].Holds() ensures StillPending(t.streams, h) { FetchedPending(cfg, st, count, h); }
  }

  /** With one consumer, the attempt check always finds its entry pending. */
  lemma LookupFinds(cfg: Config, st: State)
    requires Tidy(cfg, st) && Enabled(cfg, st, Lookup(0))
    ensures var h := st.consumers[0].todo[0];
            && h.entry.id in st.streams[h.stream].pel
            && ApplyLookup(cfg, st, 0).consumers[0].Holds() == st.consumers[0].todo[1..] + [h]
  {
    var h := st.consumers[0].todo[0];
    assert h in st.consumers[0].Holds();
    assert StillPending(st.streams, h);
  }

  lemma RotateDistinct(hs: seq<Held>)
    requires hs != [] && Distinct(hs)
    ensures Distinct(hs[1..] + [hs[0]])
    ensures forall h :: h in hs[1..] + [hs[0]] <==> h in hs
  {
    forall h ensures h in hs[1..] + [hs[0]] <==> h in hs {
      if h in hs { var i :| 0 <= i < |hs| && hs[i] == h; }
    }
  }

  lemma ExtendedAt(st: State, key: Key)
    requires |st.consumers| == 1 && key.stream < |st.streams|
    ensures var t := ApplyExtend(st, 0, key);
            |t.consumers| == 1
            && var c, d := st.consumers[0].Holds(), t.consumers[0].Holds();
            |c| == |d| && forall i | 0 <= i < |c| :: d[i].At() == c[i].At()
  {
  }

  lemma ExtendedPel(st: State, key: Key)
    requires |st.consumers| == 1 && key.stream < |st.streams|
    ensures var t := ApplyExtend(st, 0, key);
            && |t.streams| == |st.streams|
            && forall i | 0 <= i < |t.streams| :: t.streams[i].pel.Keys == st.streams[i].pel.Keys
  {
  }

  lemma ExtendTidy(cfg: Config, st: State, key: Key)
    requires Sound(cfg, st) && Tidy(cfg, st) && Enabled(cfg, st, Extend(0, key))
    ensures var t := ApplyExtend(st, 0, key);
            Distinct(t.consumers[0].Holds()) && forall h <- t.consumers[0].Holds() :: StillPending(t.streams, h)
  {
    hide Sound, ApplyExtend;
    ExtendedAt(st, key);
    ExtendedPel(st, key);
    var t := ApplyExtend(st, 0, key);
    var c, d := st.consumers[0].Holds(), t.consumers[0].Holds();
    forall h <- d ensures StillPending(t.streams, h) {
      var i :| 0 <= i < |d| && d[i] == h;
      assert d[i].At() == c[i].At() && StillPending(st.streams, c[i]);
    }
  }

  lemma ShorterDistinct(hs: seq<Held>, n: nat)
    requires Distinct(hs) && n <= |hs|
    ensures Distinct(hs[..n])
  {
  }

  lemma OtherHoldings(cfg: Config, st: State, step: Step)
    requires |st.consumers| == 1 && Enabled(cfg, st, step) && !step.Fetch? && !step.Extend? && !step.Lookup?
    ensures var t := Apply(cfg, st, step);
            var c := st.consumers[0];
            && |t.consumers| == 1
            && (t.consumers[0].Holds() == c.Holds() || t.consumers[0].Holds() == c.todo || t.consumers[0].Holds() == [])
            && (step.Move? || step.SendAck? ==> t.consumers[0].Holds() == c.todo)
  {
    var c, d := st.consumers[0], Apply(cfg, st, step).consumers[0];
    assert d.todo == c.todo || d.todo == [];
    assert c.todo + [] == c.todo;
  }

  lemma OtherTidy(cfg: Config, st: State, step: Step)
    requires Sound(cfg, st) && Tidy(cfg, st) && Enabled(cfg, st, step) && !step.Fetch? && !step.Extend? && !step.Lookup?
    ensures var t := Apply(cfg, st, step);
            && |t.consumers| == 1 && Distinct(t.consumers[0].Holds())
            && forall h <- t.consumers[0].Holds() :: StillPending(t.streams, h)
  {
    hide Apply, Sound, StillPending;
    var c := st.consumers[0];
    var t := Apply(cfg, st, step);
    OtherHoldings(cfg, st, step);
    assert c.todo == c.Holds()[..|c.todo|];
    ShorterDistinct(c.Holds(), |c.todo|);
    forall h <- t.consumers[0].Holds() ensures StillPending(t.streams, h) { RemainderPending(cfg, st, step, h); }
  }

  lemma LookupTidy(cfg: Config, st: State)
    requires Sound(cfg, st) && Tidy(cfg, st) && Enabled(cfg, st, Lookup(0))
    ensures var t := Apply(cfg, st, Lookup(0));
            && |t.consumers| == 1 && Distinct(t.consumers[0].Holds())
            && forall h <- t.consumers[0].Holds() :: StillPending(t.streams, h)
  {
    hide Sound, StillPending;
    var c := st.consumers[0];
    LookupFinds(cfg, st);
    assert c.Holds() == c.todo;
    RotateDistinct(c.todo);
    forall h <- Apply(cfg, st, Lookup(0)).consumers[0].Holds()
      ensures StillPending(Apply(cfg, st, Lookup(0)).streams, h)
    {
      RemainderPending(cfg, st, Lookup(0), h);
    }
  }

  lemma ConsumerTidy(cfg: Config, st: State, step: Step)
    requires Sound(cfg, st) && Tidy(cfg, st)
    ensures var t := Apply(cfg, st, step);
            && |t.consumers| == 1 && Distinct(t.consumers[0].Holds())
            && forall h <- t.consumers[0].Holds() :: StillPending(t.streams, h)
  {
    hide Sound, StillPending, ApplyFetch, ApplyExtend, ApplyLookup;
    StepShape(cfg, st, step);
    if Enabled(cfg, st, step) {
      match step
      case Fetch(_, count) => FetchTidy(cfg, st, count);
      case Extend(_, key) => ExtendTidy(cfg, st, key);
      case Lookup(_) => LookupTidy(cfg, st);
      case _ => OtherTidy(cfg, st, step);
    }
  }

  lemma RequeuerTidy(cfg: Config, st: State, step: Step)
    requires Sound(cfg, st) && Tidy(cfg, st) && |st.requeuers| == 1
    ensures var t := Apply(cfg, st, step);
            && |t.requeuers| == 1 && cfg.dlq < |t.streams|
            && forall e <- t.requeuers[0].batch :: e.id in t.streams[cfg.dlq].pel
  {
    hide Apply, Batch, Received, StreamOk;
    var t := Apply(cfg, st, step);
    RequeuerShape(cfg, st, step, 0);
    if step.RequeueCommit? && Enabled(cfg, st, step) {
      CommitClears(cfg, st, step.q);
    } else {
      forall e <- t.requeuers[0].batch ensures e.id in t.streams[cfg.dlq].pel {
        if t.requeuers[0].batch != st.requeuers[0].batch {
          var how := if st.requeuers[0].reading then ReadNew(step.count) else AutoClaim(0, step.count);
          assert StreamOk(st.streams[cfg.dlq], st.now);
          BatchIsPending(st.streams[cfg.dlq], how, st.requeuers[0].cid, st.now, e);
        } else {
          assert RequeuerOk(st.streams[cfg.dlq], st.requeuers[0]);
          NoAckOnDlq(cfg, st, step, e);
          PendingStays(cfg, st, step, cfg.dlq, e);
        }
      }
    }
  }

  lemma CommitClears(cfg: Config, st: State, q: nat)
    requires Enabled(cfg, st, RequeueCommit(q))
    ensures Apply(cfg, st, RequeueCommit(q)).requeuers == st.requeuers[q := st.requeuers[q].(batch := [])]
  {
  }

  lemma BatchIsPending(s: Stream, how: Receive, cid: nat, now: int, e: Entry)
    requires StreamOk(s, now) && e in Batch(s, how, now)
    ensures e.id in Received(s, how, cid, now).pel
  {
    BatchPending(s, how, cid, now);
  }

  lemma NoAckOnDlq(cfg: Config, st: State, step: Step, e: Entry)
    requires Sound(cfg, st) && Tidy(cfg, st) && |st.requeuers| == 1
    requires !(step.RequeueCommit? && Enabled(cfg, st, step))
    ensures !Acks(cfg, st, step, cfg.dlq, e.id)
  {
    hide Sound;
    if step.Move? || step.SendAck? {
      if Enabled(cfg, st, step) { HeldIn(cfg, st, st.consumers[0].doing.held); }
    }
  }

  lemma StepTidy(cfg: Config, st: State, step: Step)
    requires Sound(cfg, st) && Tidy(cfg, st)
    ensures Tidy(cfg, Apply(cfg, st, step))
  {
    StepShape(cfg, st, step);
    ConsumerTidy(cfg, st, step);
    if |st.requeuers| == 1 { RequeuerTidy(cfg, st, step); }
  }
}
