/** Visibility leases: while its lease runs, an entry is with one consumer only. */
module RedisLeases {
  import opened RedisStreams
  import opened RedisProtocol
  import opened RedisInvariants

  /** The consumer was granted the entry less than the visibility timeout ago. */
  predicate Live(cfg: Config, now: int, h: Held) {
    now - h.since < cfg.visibility
  }

  /** The server's idle clock is at least as recent as any consumer's lease. */
  ghost predicate Backed(st: State, h: Held)
    requires h.stream < |st.streams|
  {
    var pel := st.streams[h.stream].pel;
    h.entry.id in pel ==> h.since <= pel[h.entry.id].deliveredAt
  }

  ghost predicate AllBacked(st: State) {
    forall p, h | 0 <= p < |st.consumers| && h in st.consumers[p].Holds() ::
      h.stream < |st.streams| && Backed(st, h)
  }

  /** No entry is under two unexpired leases. */
  ghost predicate Exclusive(cfg: Config, st: State) {
    forall p, q, h, k | 0 <= p < |st.consumers| && 0 <= q < |st.consumers| && p != q
                        && h in st.consumers[p].Holds() && k in st.consumers[q].Holds() && h.At() == k.At() ::
      !(Live(cfg, st.now, h) && Live(cfg, st.now, k))
  }

  /** If the step extends a lease, the lease is the extender's own and has not run out. */
  ghost predicate Timely(cfg: Config, st: State, step: Step) {
    step.Extend? && step.p < |st.consumers| ==>
      exists h <- st.consumers[step.p].Holds() :: h.At() == step.key && Live(cfg, st.now, h)
  }

  ghost predicate TimelyRun(cfg: Config, st: State, steps: seq<Step>) {
    steps == [] || (
      var n := |steps| - 1;
      TimelyRun(cfg, st, steps[..n]) && Timely(cfg, Run(cfg, st, steps[..n]), steps[n]))
  }

  lemma HeldGenuine(cfg: Config, st: State, p: nat, h: Held)
    requires Sound(cfg, st) && p < |st.consumers| && h in st.consumers[p].Holds()
    ensures Genuine(cfg, st.streams, st.now, h)
  {
    assert ConsumerOk(cfg, st.streams, st.now, st.consumers[p]);
  }

  /** What was held before is still backed, because idle clocks only move forward. */
  lemma StillBacked(cfg: Config, st: State, step: Step, p: nat, h: Held)
    requires Sound(cfg, st) && AllBacked(st) && p < |st.consumers| && h in st.consumers[p].Holds()
    ensures var t := Apply(cfg, st, step); h.stream < |t.streams| && Backed(t, h)
  {
    var t := Apply(cfg, st, step);
    HeldGenuine(cfg, st, p, h);
    StepEvolves(cfg, st, step);
    assert Backed(st, h);
    assert Grows(st.streams[h.stream], t.streams[h.stream]);
  }

  lemma OtherHolds(cfg: Config, st: State, step: Step, p: nat, h: Held)
    requires p < |st.consumers|
    requires (step.Fetch? || step.Extend?) ==> step.p != p || !Enabled(cfg, st, step)
    requires h in Apply(cfg, st, step).consumers[p].Holds()
    ensures h in st.consumers[p].Holds()
  {
    OtherShape(cfg, st, step, p);
  }

  /** A fetched entry is granted at this moment, and everyone else's lease on it has run out. */
  lemma FetchedLease(cfg: Config, st: State, p: nat, count: nat, h: Held)
    requires Sound(cfg, st) && AllBacked(st) && Enabled(cfg, st, Fetch(p, count))
    requires h in ApplyFetch(cfg, st, p, count).consumers[p].Holds()
    ensures var t := ApplyFetch(cfg, st, p, count); h.stream < |t.streams| && Backed(t, h)
    ensures forall q, k | 0 <= q < |st.consumers| && k in st.consumers[q].Holds() && k.At() == h.At() ::
              !Live(cfg, st.now, k)
  {
    var c := st.consumers[p];
    var (names, how, phase) := FetchFrom(cfg, c, count);
    GatherGenuine(cfg, st, names, how, c.cid, h);
    assert StreamOk(st.streams[h.stream], st.now);
    BatchPending(st.streams[h.stream], how, c.cid, st.now);
    forall q, k | 0 <= q < |st.consumers| && k in st.consumers[q].Holds() && k.At() == h.At()
      ensures !Live(cfg, st.now, k)
    {
      HeldGenuine(cfg, st, q, k);
      assert Backed(st, k);
    }
  }

  /** What a consumer holds after its own timely extension it held before, perhaps with its lease restarted. */
  lemma ExtendedHolds(st: State, p: nat, key: Key, h: Held) returns (was: Held)
    requires p < |st.consumers| && key.stream < |st.streams|
    requires h in ApplyExtend(st, p, key).consumers[p].Holds()
    ensures was in st.consumers[p].Holds() && was.At() == h.At()
    ensures h == was || (h.At() == key && key.id in st.streams[key.stream].pel && h.since == st.now)
  {
    was := h;
    if key.id in st.streams[key.stream].pel {
      var c, d := st.consumers[p], ApplyExtend(st, p, key).consumers[p];
      if h in d.todo {
        var i :| 0 <= i < |d.todo| && d.todo[i] == h;
        was := c.todo[i];
        assert was in c.todo;
      } else {
        was := c.doing.held;
      }
    }
  }

  lemma StepBacked(cfg: Config, st: State, step: Step)
    requires Sound(cfg, st) && AllBacked(st)
    ensures AllBacked(Apply(cfg, st, step))
  {
    var t := Apply(cfg, st, step);
    forall p, h | 0 <= p < |t.consumers| && h in t.consumers[p].Holds()
      ensures h.stream < |t.streams| && Backed(t, h)
    {
      OneBacked(cfg, st, step, p, h);
    }
  }

  lemma OneBacked(cfg: Config, st: State, step: Step, p: nat, h: Held)
    requires Sound(cfg, st) && AllBacked(st) && p < |Apply(cfg, st, step).consumers|
    requires h in Apply(cfg, st, step).consumers[p].Holds()
    ensures var t := Apply(cfg, st, step); h.stream < |t.streams| && Backed(t, h)
  {
    if Enabled(cfg, st, step) && step.Fetch? && step.p == p {
      FetchedLease(cfg, st, p, step.count, h);
    } else if Enabled(cfg, st, step) && step.Extend? && step.p == p {
      var was := ExtendedHolds(st, p, step.key, h);
      StillBacked(cfg, st, step, p, was);
    } else {
      StepShape(cfg, st, step);
      OtherHolds(cfg, st, step, p, h);
      StillBacked(cfg, st, step, p, h);
    }
  }

  /** The consumer whose holdings a step may add to or renew. */
  predicate Grants(cfg: Config, st: State, step: Step, p: nat) {
    Enabled(cfg, st, step) && (step.Fetch? || step.Extend?) && step.p == p
  }

  /** What a grant gives, nobody else has under an unexpired lease. */
  lemma GrantIsExclusive(cfg: Config, st: State, step: Step, p: nat, h: Held, q: nat, k: Held)
    requires Sound(cfg, st) && AllBacked(st) && Exclusive(cfg, st) && Timely(cfg, st, step)
    requires p < |st.consumers| && q < |st.consumers| && p != q && Grants(cfg, st, step, p)
    requires h in Apply(cfg, st, step).consumers[p].Holds() && k in st.consumers[q].Holds() && h.At() == k.At()
    ensures !(Live(cfg, st.now, h) && Live(cfg, st.now, k))
  {
    if step.Fetch? {
      FetchedLease(cfg, st, p, step.count, h);
    } else {
      var was := ExtendedHolds(st, p, step.key, h);
      if h != was {
        var own :| own in st.consumers[p].Holds() && own.At() == step.key && Live(cfg, st.now, own);
        assert own.At() == k.At();
      }
    }
  }

  lemma PairExclusive(cfg: Config, st: State, step: Step, p: nat, q: nat, h: Held, k: Held)
    requires Sound(cfg, st) && AllBacked(st) && Exclusive(cfg, st) && Timely(cfg, st, step)
    requires p < |st.consumers| && q < |st.consumers| && p != q && h.At() == k.At() && !Grants(cfg, st, step, q)
    requires |Apply(cfg, st, step).consumers| == |st.consumers|
    requires h in Apply(cfg, st, step).consumers[p].Holds() && k in Apply(cfg, st, step).consumers[q].Holds()
    ensures var now := Apply(cfg, st, step).now; !(Live(cfg, now, h) && Live(cfg, now, k))
  {
    StepShape(cfg, st, step);
    OtherHolds(cfg, st, step, q, k);
    if Grants(cfg, st, step, p) {
      GrantIsExclusive(cfg, st, step, p, h, q, k);
    } else {
      OtherHolds(cfg, st, step, p, h);
      assert !(Live(cfg, st.now, h) && Live(cfg, st.now, k));
    }
  }

  lemma StepExclusive(cfg: Config, st: State, step: Step)
    requires Sound(cfg, st) && AllBacked(st) && Exclusive(cfg, st) && Timely(cfg, st, step)
    ensures Exclusive(cfg, Apply(cfg, st, step))
  {
    var t := Apply(cfg, st, step);
    StepShape(cfg, st, step);
    forall p, q, h, k | 0 <= p < |t.consumers| && 0 <= q < |t.consumers| && p != q
                        && h in t.consumers[p].Holds() && k in t.consumers[q].Holds() && h.At() == k.At()
      ensures !(Live(cfg, t.now, h) && Live(cfg, t.now, k))
    {
      if Grants(cfg, st, step, q) {
        PairExclusive(cfg, st, step, q, p, k, h);
      } else {
        PairExclusive(cfg, st, step, p, q, h, k);
      }
    }
  }

  /** Lease exclusion: if every extension is made while the extender's own lease has not run out, then no entry is
      ever under two unexpired leases, whatever the interleaving of claims, reads, extensions, acknowledgements,
      crashes and clock ticks. */
  lemma {:induction false} LeaseExclusion(cfg: Config, st: State, steps: seq<Step>)
    requires Initial(cfg, st) && TimelyRun(cfg, st, steps)
    ensures var t := Run(cfg, st, steps); AllBacked(t) && Exclusive(cfg, t)
  {
    if steps == [] {
      forall p | 0 <= p < |st.consumers| ensures st.consumers[p].Holds() == [] {
        assert st.consumers[p] in st.consumers;
      }
    } else {
      var n := |steps| - 1;
      LeaseExclusion(cfg, st, steps[..n]);
      RunSound(cfg, st, steps[..n]);
      StepBacked(cfg, Run(cfg, st, steps[..n]), steps[n]);
      StepExclusive(cfg, Run(cfg, st, steps[..n]), steps[n]);
    }
  }

  lemma RenewedIsHeld(st: State, p: nat, key: Key, h: Held)
    requires p < |st.consumers| && key.stream < |st.streams| && key.id in st.streams[key.stream].pel
    requires h in st.consumers[p].Holds()
    ensures Renew(h, key, st.now) in ApplyExtend(st, p, key).consumers[p].Holds()
  {
    var c, d := st.consumers[p], ApplyExtend(st, p, key).consumers[p];
    if h in c.todo {
      var i :| 0 <= i < |c.todo| && c.todo[i] == h;
      assert d.todo[i] == Renew(h, key, st.now);
      assert d.todo[i] in d.todo;
    }
  }

  /** The entry is pending, `p` holds it, and another consumer holds it under an unexpired lease. */
  ghost predicate Contended(cfg: Config, st: State, p: nat, key: Key)
    requires p < |st.consumers| && key.stream < |st.streams|
  {
    && key.id in st.streams[key.stream].pel
    && (exists h <- st.consumers[p].Holds() :: h.At() == key)
    && (exists q, k ::
          0 <= q < |st.consumers| && q != p && k in st.consumers[q].Holds() && k.At() == key && Live(cfg, st.now, k))
  }

  lemma OverlapIsContended(cfg: Config, st: State, p: nat, key: Key, b: nat, h: Held, k: Held)
    requires Exclusive(cfg, st) && Enabled(cfg, st, Extend(p, key)) && b < |st.consumers| && b != p
    requires h in ApplyExtend(st, p, key).consumers[p].Holds() && k in st.consumers[b].Holds() && h.At() == k.At()
    ensures Live(cfg, st.now, h) && Live(cfg, st.now, k) ==> Contended(cfg, st, p, key)
  {
    var was := ExtendedHolds(st, p, key, h);
  }

  lemma OtherConsumers(st: State, p: nat, key: Key, q: nat)
    requires p < |st.consumers| && key.stream < |st.streams| && q < |st.consumers| && q != p
    ensures var t := ApplyExtend(st, p, key);
            |t.consumers| == |st.consumers| && t.consumers[q] == st.consumers[q] && t.now == st.now
  {
  }

  lemma UncontendedKeeps(cfg: Config, st: State, p: nat, key: Key)
    requires Exclusive(cfg, st) && Enabled(cfg, st, Extend(p, key)) && !Contended(cfg, st, p, key)
    ensures Exclusive(cfg, ApplyExtend(st, p, key))
  {
    hide ApplyExtend, Contended;
    var t := ApplyExtend(st, p, key);
    assert |t.consumers| == |st.consumers| && t.now == st.now by { StepShapeExtend(st, p, key); }
    forall a, b, h, k | 0 <= a < |t.consumers| && 0 <= b < |t.consumers| && a != b
                        && h in t.consumers[a].Holds() && k in t.consumers[b].Holds() && h.At() == k.At()
      ensures !(Live(cfg, t.now, h) && Live(cfg, t.now, k))
    {
      if a == p {
        OtherConsumers(st, p, key, b);
        OverlapIsContended(cfg, st, p, key, b, h, k);
      } else if b == p {
        OtherConsumers(st, p, key, a);
        OverlapIsContended(cfg, st, p, key, a, k, h);
      } else {
        OtherConsumers(st, p, key, a);
        OtherConsumers(st, p, key, b);
      }
    }
  }

  lemma StepShapeExtend(st: State, p: nat, key: Key)
    requires p < |st.consumers| && key.stream < |st.streams|
    ensures var t := ApplyExtend(st, p, key); |t.consumers| == |st.consumers| && t.now == st.now
  {
  }

  lemma ContendedOverlaps(cfg: Config, st: State, p: nat, key: Key)
    requires Enabled(cfg, st, Extend(p, key)) && cfg.visibility > 0 && Contended(cfg, st, p, key)
    ensures !Exclusive(cfg, ApplyExtend(st, p, key))
  {
    var t := ApplyExtend(st, p, key);
    var h :| h in st.consumers[p].Holds() && h.At() == key;
    var q, k :| 0 <= q < |st.consumers| && q != p && k in st.consumers[q].Holds() && k.At() == key
                && Live(cfg, st.now, k);
    RenewedIsHeld(st, p, key, h);
    var r := Renew(h, key, st.now);
    assert r in t.consumers[p].Holds() && k in t.consumers[q].Holds() && r.At() == k.At();
    assert Live(cfg, t.now, r) && Live(cfg, t.now, k);
  }

  /** What the condition of LeaseExclusion is for: an extension ends exclusion exactly when it is contended. */
  lemma ExtensionBreaksIff(cfg: Config, st: State, p: nat, key: Key)
    requires Exclusive(cfg, st) && Enabled(cfg, st, Extend(p, key)) && cfg.visibility > 0
    ensures !Exclusive(cfg, ApplyExtend(st, p, key)) <==> Contended(cfg, st, p, key)
  {
    hide ApplyExtend, Exclusive;
    if Contended(cfg, st, p, key) { ContendedOverlaps(cfg, st, p, key); } else { UncontendedKeeps(cfg, st, p, key); }
  }

  /** The step is an extension of a contended entry. */
  ghost predicate ExtendsContended(cfg: Config, st: State, step: Step) {
    Enabled(cfg, st, step) && step.Extend? && Contended(cfg, st, step.p, step.key)
  }

  ghost predicate AlwaysExclusive(cfg: Config, st: State, steps: seq<Step>) {
    forall n | 0 <= n <= |steps| :: Exclusive(cfg, Run(cfg, st, steps[..n]))
  }

  ghost predicate NeverContended(cfg: Config, st: State, steps: seq<Step>) {
    forall n | 0 <= n < |steps| :: !ExtendsContended(cfg, Run(cfg, st, steps[..n]), steps[n])
  }

  lemma NextPrefix(cfg: Config, st: State, steps: seq<Step>, n: nat)
    requires n < |steps|
    ensures Run(cfg, st, steps[..n + 1]) == Apply(cfg, Run(cfg, st, steps[..n]), steps[n])
  {
    assert steps[..n + 1][..n] == steps[..n];
  }

  lemma {:induction false} RunBacked(cfg: Config, st: State, steps: seq<Step>)
    requires Initial(cfg, st)
    ensures Sound(cfg, Run(cfg, st, steps)) && AllBacked(Run(cfg, st, steps))
  {
    RunSound(cfg, st, steps);
    if steps == [] {
      LeaseExclusion(cfg, st, []);
    } else {
      var n := |steps| - 1;
      RunBacked(cfg, st, steps[..n]);
      StepBacked(cfg, Run(cfg, st, steps[..n]), steps[n]);
    }
  }

  /** One step keeps exclusion exactly when it does not extend a contended entry. */
  lemma StepExclusiveIff(cfg: Config, st: State, step: Step)
    requires Sound(cfg, st) && AllBacked(st) && Exclusive(cfg, st)
    ensures Exclusive(cfg, Apply(cfg, st, step)) <==> !ExtendsContended(cfg, st, step)
  {
    hide Sound, AllBacked, Exclusive, Contended;
    if !step.Extend? {
      StepExclusive(cfg, st, step);
    } else if Enabled(cfg, st, step) {
      if Contended(cfg, st, step.p, step.key) {
        ContendedIsPositive(cfg, st, step.p, step.key);
      }
      if cfg.visibility > 0 {
        ExtensionBreaksIff(cfg, st, step.p, step.key);
      } else {
        UncontendedKeeps(cfg, st, step.p, step.key);
      }
    }
  }

  lemma ContendedIsPositive(cfg: Config, st: State, p: nat, key: Key)
    requires Sound(cfg, st) && p < |st.consumers| && key.stream < |st.streams| && Contended(cfg, st, p, key)
    ensures cfg.visibility > 0
  {
    var q, k :| 0 <= q < |st.consumers| && q != p && k in st.consumers[q].Holds() && k.At() == key
                && Live(cfg, st.now, k);
    HeldGenuine(cfg, st, q, k);
  }

  lemma {:induction false} ExclusiveUpTo(cfg: Config, st: State, steps: seq<Step>, n: nat)
    requires Initial(cfg, st) && NeverContended(cfg, st, steps) && n <= |steps|
    ensures Exclusive(cfg, Run(cfg, st, steps[..n]))
  {
    hide Initial, Apply, Exclusive, ExtendsContended;
    if n == 0 {
      LeaseExclusion(cfg, st, []);
      assert steps[..0] == [];
    } else {
      ExclusiveUpTo(cfg, st, steps, n - 1);
      RunBacked(cfg, st, steps[..n - 1]);
      NextPrefix(cfg, st, steps, n - 1);
      StepExclusiveIff(cfg, Run(cfg, st, steps[..n - 1]), steps[n - 1]);
    }
  }

  /** In a run, no entry is ever under two unexpired leases if and only if no extension in it is made for an entry that
      another consumer has under an unexpired lease. */
  lemma ExclusionIff(cfg: Config, st: State, steps: seq<Step>)
    requires Initial(cfg, st)
    ensures AlwaysExclusive(cfg, st, steps) <==> NeverContended(cfg, st, steps)
  {
    hide Initial, Exclusive, ExtendsContended;
    if NeverContended(cfg, st, steps) {
      forall n | 0 <= n <= |steps| ensures Exclusive(cfg, Run(cfg, st, steps[..n])) {
        ExclusiveUpTo(cfg, st, steps, n);
      }
    } else {
      var n :| 0 <= n < |steps| && ExtendsContended(cfg, Run(cfg, st, steps[..n]), steps[n]);
      if Exclusive(cfg, Run(cfg, st, steps[..n])) {
        RunBacked(cfg, st, steps[..n]);
        NextPrefix(cfg, st, steps, n);
        StepExclusiveIff(cfg, Run(cfg, st, steps[..n]), steps[n]);
        assert !Exclusive(cfg, Run(cfg, st, steps[..n + 1]));
      }
    }
  }
}
