/** No stream entry is handed to the loop more often than HEDWIG_MAX_DELIVERY_ATTEMPTS, under any interleaving. */
module RedisAttempts {
  import opened RedisStreams
  import opened RedisProtocol
  import opened RedisInvariants

  /** How often an entry passed the attempt check. */
  function Passed(handouts: seq<Handout>, key: Key): nat {
    if handouts == [] then 0
    else
      var n := |handouts| - 1;
      Passed(handouts[..n], key) + if handouts[n].key == key then 1 else 0
  }

  function Count(todo: seq<Held>, key: Key): nat {
    if todo == [] then 0 else (if todo[0].At() == key then 1 else 0) + Count(todo[1..], key)
  }

  /** Claims of an entry that wait, somewhere, for their attempt check. */
  function Unspent(consumers: seq<Consumer>, key: Key): nat {
    if consumers == [] then 0
    else
      var n := |consumers| - 1;
      Unspent(consumers[..n], key) + Count(consumers[n].todo, key)
  }

  ghost predicate KeyOk(cfg: Config, s: Stream, key: Key, passed: nat, unspent: nat) {
    && passed <= cfg.maxAttempts
    && (key.id in s.pel ==> passed + unspent <= s.pel[key.id].times)
    && (key.id > s.last ==> passed + unspent == 0)
  }

  /** Every check passed and every claim still waiting is paid for by a delivery the server counted. */
  ghost predicate Budget(cfg: Config, st: State) {
    forall key: Key | key.stream < |st.streams| ::
      KeyOk(cfg, st.streams[key.stream], key, Passed(st.handouts, key), Unspent(st.consumers, key))
  }

  lemma {:induction false} UnspentUpdate(consumers: seq<Consumer>, p: nat, d: Consumer, key: Key)
    requires p < |consumers|
    ensures Unspent(consumers[p := d], key) + Count(consumers[p].todo, key)
         == Unspent(consumers, key) + Count(d.todo, key)
  {
    var n := |consumers| - 1;
    if p == n {
      assert consumers[p := d][..n] == consumers[..n];
    } else {
      assert consumers[p := d][..n] == consumers[..n][p := d];
      UnspentUpdate(consumers[..n], p, d, key);
    }
  }

  lemma {:induction false} CountZero(todo: seq<Held>, key: Key)
    requires forall h <- todo :: h.At() != key
    ensures Count(todo, key) == 0
  {
    if todo != [] {
      assert todo[0] in todo && forall h <- todo[1..] :: h in todo;
      CountZero(todo[1..], key);
    }
  }

  lemma {:induction false} CountAppend(a: seq<Held>, b: seq<Held>, key: Key)
    ensures Count(a + b, key) == Count(a, key) + Count(b, key)
  {
    if a == [] {
      assert a + b == b;
    } else {
      assert (a + b)[1..] == a[1..] + b;
      CountAppend(a[1..], b, key);
    }
  }

  lemma {:induction false} CountAtMostOne(todo: seq<Held>, key: Key)
    requires forall i, j | 0 <= i < j < |todo| :: todo[i].At() != todo[j].At()
    ensures Count(todo, key) <= 1
  {
    if todo != [] {
      if todo[0].At() == key {
        forall h <- todo[1..] ensures h.At() != key {
          var j :| 0 <= j < |todo[1..]| && todo[1..][j] == h;
          assert todo[j + 1] == h;
        }
        CountZero(todo[1..], key);
      } else {
        CountAtMostOne(todo[1..], key);
      }
    }
  }

  lemma HoldOnce(stream: nat, batch: seq<Entry>, now: int, key: Key)
    requires Sorted(batch)
    ensures Count(Hold(stream, batch, now), key) <= if key.stream == stream then 1 else 0
  {
    hide Count;
    var held := Hold(stream, batch, now);
    assert forall i | 0 <= i < |held| :: held[i] == Held(stream, batch[i], now);
    if key.stream == stream {
      CountAtMostOne(held, key);
    } else {
      CountZero(held, key);
    }
  }

  /** One receiving command returns an entry at most once. */
  lemma {:induction false} GatherOnce(offers: seq<seq<Entry>>, names: seq<nat>, now: int, key: Key)
    requires forall n <- names :: n < |offers|
    requires forall i, j | 0 <= i < j < |names| :: names[i] != names[j]
    requires forall n <- names :: Sorted(offers[n])
    ensures Count(Gather(offers, names, now), key) <= 1
  {
    hide Count, Hold, Sorted;
    if names == [] {
      NoneHeld(key);
    } else {
      var n := |names| - 1;
      assert names[n] in names && forall x <- names[..n] :: x in names;
      var front, last := Gather(offers, names[..n], now), Hold(names[n], offers[names[n]], now);
      GatherOnce(offers, names[..n], now, key);
      CountAppend(front, last, key);
      HoldOnce(names[n], offers[names[n]], now, key);
      if key.stream == names[n] {
        assert forall h <- front :: h.At() != key;
        CountZero(front, key);
      }
    }
  }

  lemma NoneHeld(key: Key)
    ensures Count([], key) == 0
  {
  }

  /** If no check passes and no claim is added, the server's counting does the rest. */
  lemma BudgetLater(cfg: Config, st: State, t: State)
    requires Budget(cfg, st) && Evolves(st.streams, t.streams, t.now) && t.handouts == st.handouts
    requires forall key: Key :: Unspent(t.consumers, key) <= Unspent(st.consumers, key)
    ensures Budget(cfg, t)
  {
    forall key: Key | key.stream < |t.streams|
      ensures KeyOk(cfg, t.streams[key.stream], key, Passed(t.handouts, key), Unspent(t.consumers, key))
    {
      assert KeyOk(cfg, st.streams[key.stream], key, Passed(st.handouts, key), Unspent(st.consumers, key));
      assert Grows(st.streams[key.stream], t.streams[key.stream]);
    }
  }

  /** A claim is added only together with a delivery the server counts. */
  lemma ClaimIsPaid(cfg: Config, s: Stream, how: Receive, cid: nat, now: int, e: Entry, key: Key, passed: nat,
                    unspent: nat)
    requires StreamOk(s, now) && e in Batch(s, how, now) && e.id == key.id
    requires KeyOk(cfg, s, key, passed, unspent)
    ensures KeyOk(cfg, Received(s, how, cid, now), key, passed, unspent + 1)
  {
    BatchPending(s, how, cid, now);
  }

  lemma FetchCount(cfg: Config, st: State, p: nat, count: nat, key: Key)
    requires Sound(cfg, st) && Enabled(cfg, st, Fetch(p, count))
    ensures var t := ApplyFetch(cfg, st, p, count);
            && t.consumers[p].todo
               == Gather(Offers(st.streams, FetchFrom(cfg, st.consumers[p], count).1, st.now),
                         FetchFrom(cfg, st.consumers[p], count).0, st.now)
            && Unspent(t.consumers, key) == Unspent(st.consumers, key) + Count(t.consumers[p].todo, key)
            && Count(t.consumers[p].todo, key) <= 1
  {
    var (names, how, phase) := FetchFrom(cfg, st.consumers[p], count);
    var t := ApplyFetch(cfg, st, p, count);
    var offers := Offers(st.streams, how, st.now);
    UnspentUpdate(st.consumers, p, t.consumers[p], key);
    forall n <- names ensures Sorted(offers[n]) { assert StreamOk(st.streams[n], st.now); }
    GatherOnce(offers, names, st.now, key);
  }

  lemma FetchKeyOk(cfg: Config, st: State, p: nat, count: nat, key: Key)
    requires Sound(cfg, st) && Budget(cfg, st) && Enabled(cfg, st, Fetch(p, count)) && key.stream < |st.streams|
    ensures var t := ApplyFetch(cfg, st, p, count);
            KeyOk(cfg, t.streams[key.stream], key, Passed(t.handouts, key), Unspent(t.consumers, key))
  {
    var (names, how, phase) := FetchFrom(cfg, st.consumers[p], count);
    var t := ApplyFetch(cfg, st, p, count);
    var s := st.streams[key.stream];
    assert KeyOk(cfg, s, key, Passed(st.handouts, key), Unspent(st.consumers, key));
    FetchCount(cfg, st, p, count, key);
    if exists h <- t.consumers[p].todo :: h.At() == key {
      var h :| h in t.consumers[p].todo && h.At() == key;
      GatherGenuine(cfg, st, names, how, st.consumers[p].cid, h);
      assert StreamOk(s, st.now);
      ClaimIsPaid(cfg, s, how, st.consumers[p].cid, st.now, h.entry, key, Passed(st.handouts, key),
                  Unspent(st.consumers, key));
    } else {
      CountZero(t.consumers[p].todo, key);
      StepEvolves(cfg, st, Fetch(p, count));
      assert Grows(s, t.streams[key.stream]);
    }
  }

  lemma FetchBudget(cfg: Config, st: State, p: nat, count: nat)
    requires Sound(cfg, st) && Budget(cfg, st) && Enabled(cfg, st, Fetch(p, count))
    ensures Budget(cfg, ApplyFetch(cfg, st, p, count))
  {
    forall key: Key | key.stream < |st.streams|
      ensures var t := ApplyFetch(cfg, st, p, count);
              KeyOk(cfg, t.streams[key.stream], key, Passed(t.handouts, key), Unspent(t.consumers, key))
    {
      FetchKeyOk(cfg, st, p, count, key);
    }
  }

  lemma LookupShape(cfg: Config, st: State, p: nat)
    requires Enabled(cfg, st, Lookup(p))
    ensures var t := ApplyLookup(cfg, st, p);
            var c, d := st.consumers[p], t.consumers[p];
            && t.streams == st.streams && t.consumers == st.consumers[p := d]
            && (d.todo == [] || d.todo == c.todo[1..])
            && (t.handouts == st.handouts
                || (var h := c.todo[0];
                    && h.entry.id in st.streams[h.stream].pel
                    && st.streams[h.stream].pel[h.entry.id].times <= cfg.maxAttempts
                    && d.todo == c.todo[1..]
                    && t.handouts
                       == st.handouts + [Handout(h.At(), h.entry.body, st.streams[h.stream].pel[h.entry.id].times)]))
  {
  }

  lemma PassedMore(handouts: seq<Handout>, d: Handout, key: Key)
    ensures Passed(handouts + [d], key) == Passed(handouts, key) + if d.key == key then 1 else 0
  {
    assert (handouts + [d])[..|handouts|] == handouts;
  }

  /** A check that passes turns one waiting claim into one handout, and only under the maximum. */
  lemma LookupKeyOk(cfg: Config, st: State, p: nat, key: Key)
    requires Sound(cfg, st) && Budget(cfg, st) && Enabled(cfg, st, Lookup(p)) && key.stream < |st.streams|
    ensures var t := ApplyLookup(cfg, st, p);
            KeyOk(cfg, t.streams[key.stream], key, Passed(t.handouts, key), Unspent(t.consumers, key))
  {
    hide Sound, ApplyLookup, Unspent, Passed;
    var t := ApplyLookup(cfg, st, p);
    var c := st.consumers[p];
    assert KeyOk(cfg, st.streams[key.stream], key, Passed(st.handouts, key), Unspent(st.consumers, key));
    LookupShape(cfg, st, p);
    UnspentUpdate(st.consumers, p, t.consumers[p], key);
    UnspentAtLeast(st.consumers, p, key);
    if t.handouts != st.handouts { PassedMore(st.handouts, t.handouts[|st.handouts|], key); }
  }

  lemma LookupBudget(cfg: Config, st: State, p: nat)
    requires Sound(cfg, st) && Budget(cfg, st) && Enabled(cfg, st, Lookup(p))
    ensures Budget(cfg, ApplyLookup(cfg, st, p))
  {
    hide Sound, KeyOk;
    var t := ApplyLookup(cfg, st, p);
    forall key: Key | key.stream < |t.streams|
      ensures KeyOk(cfg, t.streams[key.stream], key, Passed(t.handouts, key), Unspent(t.consumers, key))
    {
      LookupKeyOk(cfg, st, p, key);
    }
  }

  lemma {:induction false} UnspentAtLeast(consumers: seq<Consumer>, p: nat, key: Key)
    requires p < |consumers|
    ensures Unspent(consumers, key) >= Count(consumers[p].todo, key)
  {
    var n := |consumers| - 1;
    if p < n { UnspentAtLeast(consumers[..n], p, key); }
  }

  lemma {:induction false} RenewCount(todo: seq<Held>, renewed: seq<Held>, key: Key, now: int, any: Key)
    requires |renewed| == |todo| && forall i | 0 <= i < |todo| :: renewed[i] == Renew(todo[i], key, now)
    ensures Count(renewed, any) == Count(todo, any)
  {
    if todo != [] { RenewCount(todo[1..], renewed[1..], key, now, any); }
  }

  /** Every step but a fetch adds no claim; extension in particular only restarts the idle clock. */
  lemma NoNewClaims(cfg: Config, st: State, step: Step, key: Key)
    requires !step.Fetch?
    ensures Unspent(Apply(cfg, st, step).consumers, key) <= Unspent(st.consumers, key)
  {
    hide Unspent, Batch, Received, XAddAll;
    var t := Apply(cfg, st, step);
    if Enabled(cfg, st, step) {
      match step
      case Lookup(p) => UnspentUpdate(st.consumers, p, t.consumers[p], key);
      case Move(p) => UnspentUpdate(st.consumers, p, t.consumers[p], key);
      case Finish(p, _) => UnspentUpdate(st.consumers, p, t.consumers[p], key);
      case SendAck(p, _) => UnspentUpdate(st.consumers, p, t.consumers[p], key);
      case Crash(p, _) => UnspentUpdate(st.consumers, p, t.consumers[p], key);
      case Extend(p, k) =>
        if k.id in st.streams[k.stream].pel {
          RenewCount(st.consumers[p].todo, t.consumers[p].todo, k, st.now, key);
        }
        UnspentUpdate(st.consumers, p, t.consumers[p], key);
      case _ =>
    }
  }

  lemma StepBudget(cfg: Config, st: State, step: Step)
    requires Sound(cfg, st) && Budget(cfg, st)
    ensures Budget(cfg, Apply(cfg, st, step))
  {
    if Enabled(cfg, st, step) && step.Fetch? {
      FetchBudget(cfg, st, step.p, step.count);
    } else if Enabled(cfg, st, step) && step.Lookup? {
      LookupBudget(cfg, st, step.p);
    } else {
      var t := Apply(cfg, st, step);
      StepEvolves(cfg, st, step);
      if !step.Fetch? {
        forall key: Key ensures Unspent(t.consumers, key) <= Unspent(st.consumers, key) {
          NoNewClaims(cfg, st, step, key);
        }
      }
      BudgetLater(cfg, st, t);
    }
  }

  lemma {:induction false} NoneUnspent(consumers: seq<Consumer>, key: Key)
    requires forall c <- consumers :: c.todo == []
    ensures Unspent(consumers, key) == 0
  {
    if consumers != [] {
      var n := |consumers| - 1;
      assert consumers[n] in consumers && forall c <- consumers[..n] :: c in consumers;
      NoneUnspent(consumers[..n], key);
    }
  }

  /** Attempt bound: no entry passes the attempt check more than the configured maximum number of times, and while it
      is pending, the checks it passed and the claims not yet checked are at most the deliveries the server counted. */
  lemma {:induction false} AttemptBound(cfg: Config, st: State, steps: seq<Step>)
    requires Initial(cfg, st)
    ensures Budget(cfg, Run(cfg, st, steps))
  {
    if steps == [] {
      forall key: Key | key.stream < |st.streams|
        ensures KeyOk(cfg, st.streams[key.stream], key, Passed(st.handouts, key), Unspent(st.consumers, key))
      {
        NoneUnspent(st.consumers, key);
        assert st.streams[key.stream] in st.streams;
      }
    } else {
      var n := |steps| - 1;
      AttemptBound(cfg, st, steps[..n]);
      RunSound(cfg, st, steps[..n]);
      StepBudget(cfg, Run(cfg, st, steps[..n]), steps[n]);
    }
  }

  // ---- totals ----

  /** Checks passed by any of the entries in `keys`. */
  function PassedAny(handouts: seq<Handout>, keys: set<Key>): nat {
    if handouts == [] then 0
    else
      var n := |handouts| - 1;
      PassedAny(handouts[..n], keys) + if handouts[n].key in keys then 1 else 0
  }

  lemma {:induction false} PassedSplit(handouts: seq<Handout>, keys: set<Key>, key: Key)
    requires key in keys
    ensures PassedAny(handouts, keys) == PassedAny(handouts, keys - {key}) + Passed(handouts, key)
  {
    if handouts != [] { PassedSplit(handouts[..|handouts| - 1], keys, key); }
  }

  lemma {:induction false} PassedNone(handouts: seq<Handout>)
    ensures PassedAny(handouts, {}) == 0
  {
    if handouts != [] { PassedNone(handouts[..|handouts| - 1]); }
  }

  lemma {:induction false} PassedAtMost(handouts: seq<Handout>, keys: set<Key>, max: nat)
    requires forall key <- keys :: Passed(handouts, key) <= max
    ensures PassedAny(handouts, keys) <= max * |keys|
  {
    if keys == {} {
      PassedNone(handouts);
    } else {
      var key :| key in keys;
      PassedSplit(handouts, keys, key);
      PassedAtMost(handouts, keys - {key}, max);
      assert |keys - {key}| == |keys| - 1;
      assert max * |keys| == max * (|keys| - 1) + max;
    }
  }

  /** Whatever set of entries is chosen, the loop is handed them at most the maximum times their number. */
  lemma AttemptsOfAny(cfg: Config, st: State, steps: seq<Step>, keys: set<Key>)
    requires Initial(cfg, st) && forall key <- keys :: key.stream < |st.streams|
    ensures PassedAny(Run(cfg, st, steps).handouts, keys) <= cfg.maxAttempts * |keys|
  {
    var t := Run(cfg, st, steps);
    AttemptBound(cfg, st, steps);
    RunShape(cfg, st, steps);
    forall key <- keys ensures Passed(t.handouts, key) <= cfg.maxAttempts {
      assert KeyOk(cfg, t.streams[key.stream], key, Passed(t.handouts, key), Unspent(t.consumers, key));
    }
    PassedAtMost(t.handouts, keys, cfg.maxAttempts);
  }

  lemma {:induction false} RunShape(cfg: Config, st: State, steps: seq<Step>)
    ensures var t := Run(cfg, st, steps);
            && |t.streams| == |st.streams| && |t.consumers| == |st.consumers| && |t.requeuers| == |st.requeuers|
  {
    if steps != [] {
      var n := |steps| - 1;
      RunShape(cfg, st, steps[..n]);
      StepShape(cfg, Run(cfg, st, steps[..n]), steps[n]);
    }
  }

  /** All entries ever added to the streams consumers pull from. */
  ghost function Added(cfg: Config, st: State): set<Key> {
    set i, j | 0 <= i < |st.streams| && 0 <= j < |st.streams[i].entries| && i in cfg.watched ::
      Key(i, st.streams[i].entries[j].id)
  }

  /** What was handed out is an entry of the stream it is said to come from. */
  ghost predicate Handed(cfg: Config, st: State, d: Handout) {
    && d.key.stream in cfg.watched && d.key.stream < |st.streams|
    && Entry(d.key.id, d.body) in st.streams[d.key.stream].entries
  }

  lemma HandedLater(cfg: Config, st: State, step: Step, d: Handout)
    requires Sound(cfg, st) && Handed(cfg, st, d)
    ensures Handed(cfg, Apply(cfg, st, step), d)
  {
    hide Apply, Sound;
    StepEvolves(cfg, st, step);
    assert Grows(st.streams[d.key.stream], Apply(cfg, st, step).streams[d.key.stream]);
  }

  lemma LookupHands(cfg: Config, st: State, step: Step, d: Handout)
    requires Sound(cfg, st) && d in Apply(cfg, st, step).handouts && d !in st.handouts
    ensures Handed(cfg, Apply(cfg, st, step), d)
  {
    var h := st.consumers[step.p].todo[0];
    assert ConsumerOk(cfg, st.streams, st.now, st.consumers[step.p]);
    assert h in st.consumers[step.p].todo && Genuine(cfg, st.streams, st.now, h);
    assert h.entry == Entry(d.key.id, d.body);
  }

  ghost predicate AllHanded(cfg: Config, st: State) {
    forall d <- st.handouts :: Handed(cfg, st, d)
  }

  lemma StepHanded(cfg: Config, st: State, step: Step)
    requires Sound(cfg, st) && AllHanded(cfg, st)
    ensures AllHanded(cfg, Apply(cfg, st, step))
  {
    hide Apply, Sound, Handed;
    forall d <- Apply(cfg, st, step).handouts ensures Handed(cfg, Apply(cfg, st, step), d) {
      if d in st.handouts { HandedLater(cfg, st, step, d); } else { LookupHands(cfg, st, step, d); }
    }
  }

  lemma {:induction false} HandoutsHanded(cfg: Config, st: State, steps: seq<Step>)
    requires Initial(cfg, st)
    ensures AllHanded(cfg, Run(cfg, st, steps))
  {
    if steps != [] {
      var n := |steps| - 1;
      HandoutsHanded(cfg, st, steps[..n]);
      RunSound(cfg, st, steps[..n]);
      StepHanded(cfg, Run(cfg, st, steps[..n]), steps[n]);
    }
  }

  lemma HandedIsAdded(cfg: Config, st: State, d: Handout)
    requires Handed(cfg, st, d)
    ensures d.key in Added(cfg, st)
  {
    var es := st.streams[d.key.stream].entries;
    var j :| 0 <= j < |es| && es[j] == Entry(d.key.id, d.body);
  }

  lemma {:induction false} PassedAll(handouts: seq<Handout>, keys: set<Key>)
    requires forall d <- handouts :: d.key in keys
    ensures PassedAny(handouts, keys) == |handouts|
  {
    if handouts != [] {
      var n := |handouts| - 1;
      assert handouts[n] in handouts && forall d <- handouts[..n] :: d in handouts;
      PassedAll(handouts[..n], keys);
    }
  }

  /** In any run the loop is handed at most the maximum times the number of entries added. */
  lemma TotalAttempts(cfg: Config, st: State, steps: seq<Step>)
    requires Initial(cfg, st)
    ensures var t := Run(cfg, st, steps); |t.handouts| <= cfg.maxAttempts * |Added(cfg, t)|
  {
    var t := Run(cfg, st, steps);
    RunShape(cfg, st, steps);
    HandoutsHanded(cfg, st, steps);
    forall d <- t.handouts ensures d.key in Added(cfg, t) { HandedIsAdded(cfg, t, d); }
    PassedAll(t.handouts, Added(cfg, t));
    AttemptsOfAny(cfg, st, steps, Added(cfg, t));
  }
}
