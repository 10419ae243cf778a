/** `requeue_dead_letter` of the Pub/Sub backend. */
module GcpRequeue {
  import opened DeadLetterRequeue
  import opened PubSubClient

  /** One pulled message and how the three calls made for it go: `copied` says whether its copy reached the topic and
      `acked` whether the acknowledgement took effect, each of which can happen although the call raises. */
  datatype Pulled = Pulled(id: Id, message: Message, deadlineRaises: bool, copied: bool, publishRaises: bool,
                           acked: bool, ackRaises: bool)

  type Takes = map<string, string> -> bool

  /** A future that yields a result confirms that the copy was stored, which it is only if the call goes through; an
      acknowledgement that returns took effect. */
  predicate Confirmed(takes: Takes, p: Pulled) {
    && (!p.publishRaises ==> p.copied) && (!p.ackRaises ==> p.acked)
    && (p.copied ==> GoesThrough(takes, p.message.attributes))
  }

  datatype Pull = Messages(batch: seq<Pulled>) | DeadlineExceeded | PullRaises

  /** What a pull returns was put in the dead-letter topic's subscription as it is. */
  ghost predicate Genuine(original: map<Id, Message>, takes: Takes, batch: seq<Pulled>) {
    forall p <- batch :: p.id in original && original[p.id] == p.message && Confirmed(takes, p)
  }

  datatype Result = Finished | Raised

  /** The effects of handling one message, when the deadline of each message is first extended or not. */
  function Handled(p: Pulled, extend: bool): seq<Effect> {
    if extend && p.deadlineRaises then []
    else if p.publishRaises then (if p.copied then [Copied(p.id)] else [])
    else [Copied(p.id)] + if p.acked then [Removed(p.id)] else []
  }

  function BatchEffects(batch: seq<Pulled>, extend: bool): seq<Effect> {
    if batch == [] then []
    else BatchEffects(batch[..|batch| - 1], extend) + Handled(batch[|batch| - 1], extend)
  }

  function AllEffects(pulls: seq<Pull>, extend: bool): seq<Effect> {
    if pulls == [] then []
    else
      var last := pulls[|pulls| - 1];
      AllEffects(pulls[..|pulls| - 1], extend) + if last.Messages? then BatchEffects(last.batch, extend) else []
  }

  /** The effects of several pulls are those of the pulls, and those of a batch are those of its messages, one after the
      other. */
  lemma {:induction false} EffectsJoin(a: seq<Pull>, b: seq<Pull>, extend: bool)
    ensures AllEffects(a + b, extend) == AllEffects(a, extend) + AllEffects(b, extend)
  {
    hide BatchEffects;
    if b == [] {
      assert a + b == a;
    } else {
      var n := |b| - 1;
      var last := if b[n].Messages? then BatchEffects(b[n].batch, extend) else [];
      assert (a + b)[..|a| + n] == a + b[..n] && (a + b)[|a| + n] == b[n];
      EffectsJoin(a, b[..n], extend);
      assert AllEffects(a + b, extend) == AllEffects(a + b[..n], extend) + last;
    }
  }

  lemma {:induction false} BatchJoins(a: seq<Pulled>, b: seq<Pulled>, extend: bool)
    ensures BatchEffects(a + b, extend) == BatchEffects(a, extend) + BatchEffects(b, extend)
  {
    hide Handled;
    if b == [] {
      assert a + b == a;
    } else {
      var n := |b| - 1;
      assert (a + b)[..|a| + n] == a + b[..n] && (a + b)[|a| + n] == b[n];
      BatchJoins(a, b[..n], extend);
      assert BatchEffects(a + b, extend) == BatchEffects(a + b[..n], extend) + Handled(b[n], extend);
    }
  }

  lemma EffectsOfOne(batch: seq<Pulled>, p: Pulled, extend: bool)
    ensures AllEffects([Messages(batch)], extend) == BatchEffects(batch, extend)
    ensures BatchEffects([p], extend) == Handled(p, extend)
  {
    hide Handled;
    assert [Messages(batch)][..0] == [] && AllEffects([], extend) == [];
    assert [] + BatchEffects(batch, extend) == BatchEffects(batch, extend);
    assert [p][..0] == [] && BatchEffects([], extend) == [];
    assert [] + Handled(p, extend) == Handled(p, extend);
  }

  /** What the client stores of a message: its body, and the attributes that are no options of the call. */
  ghost predicate Stripped(m: Message, stored: Message) {
    && stored.body == m.body
    && (forall k :: k in stored.attributes <==> k in m.attributes && k !in {"ordering_key", "retry", "timeout"})
    && forall k <- stored.attributes :: stored.attributes[k] == m.attributes[k]
  }

  lemma CopyIsStripped(m: Message)
    ensures Stripped(m, Copy(m, OPTIONS))
  {
  }

  class PubSub {
    ghost const original: map<Id, Message>
    const takes: Takes
    var deadLetter: map<Id, Message>
    var topic: seq<Message>
    ghost var effects: seq<Effect>

    constructor (deadLetter: map<Id, Message>, takes: Takes)
      ensures this.original == deadLetter && this.takes == takes && effects == [] && Valid()
    {
      this.original, this.deadLetter, this.takes, topic, effects := deadLetter, deadLetter, takes, [], [];
    }

    ghost predicate Valid()
      reads this
    {
      Reflects(original, effects, OPTIONS, deadLetter, topic)
    }

    /** Publishing and waiting for the future. What is stored lacks the attributes that were options of the call. */
    method Publish(p: Pulled) returns (raised: bool)
      requires Valid() && Genuine(original, takes, [p])
      modifies this`topic, this`effects
      ensures Valid() && raised == p.publishRaises
      ensures effects == old(effects) + if p.copied then [Copied(p.id)] else []
      ensures |topic| == |old(topic)| + (if p.copied then 1 else 0) && old(topic) <= topic
      ensures p.copied ==> Stripped(p.message, topic[|old(topic)|])
    {
      hide Reflects;
      CopyIsStripped(p.message);
      assert p in [p];
      if p.copied {
        OneCopied(original, effects, OPTIONS, deadLetter, topic, p.id);
        topic := topic + [Copy(p.message, OPTIONS)];
        effects := effects + [Copied(p.id)];
      } else {
        assert effects + [] == effects;
      }
      raised := p.publishRaises;
    }

    method Acknowledge(p: Pulled) returns (raised: bool)
      requires Valid()
      modifies this`deadLetter, this`effects
      ensures Valid() && raised == p.ackRaises
      ensures effects == old(effects) + if p.acked then [Removed(p.id)] else []
      ensures deadLetter == old(deadLetter) - if p.acked then {p.id} else {}
    {
      hide Reflects;
      if p.acked {
        OneRemoved(original, effects, OPTIONS, deadLetter, topic, p.id);
        deadLetter := deadLetter - {p.id};
        effects := effects + [Removed(p.id)];
      } else {
        assert effects + [] == effects;
      }
      raised := p.ackRaises;
    }

    /** The body of the `try`: whatever raises, the loop goes on with the next message. */
    method RequeueMessage(p: Pulled, extend: bool)
      requires Valid() && Genuine(original, takes, [p])
      modifies this
      ensures Valid() && effects == old(effects) + Handled(p, extend)
      ensures var reached := p.copied && !(extend && p.deadlineRaises);
              && |topic| == |old(topic)| + (if reached then 1 else 0) && old(topic) <= topic
              && (reached ==> Stripped(p.message, topic[|old(topic)|]))
      ensures var confirmed := !(extend && p.deadlineRaises) && !p.publishRaises;
              deadLetter == old(deadLetter) - if confirmed && p.acked then {p.id} else {}
    {
      hide Reflects, Stripped;
      assert deadLetter - {} == deadLetter;
      ghost var before := effects;
      assert before + [] == before && p in [p];
      if extend && p.deadlineRaises { return; }
      var raised := Publish(p);
      if raised { return; }
      raised := Acknowledge(p);
      assert effects == before + Handled(p, extend);
    }

    method RequeueBatch(batch: seq<Pulled>, extend: bool)
      requires Valid() && Genuine(original, takes, batch)
      modifies this
      ensures Valid() && effects == old(effects) + BatchEffects(batch, extend)
    {
      hide Reflects, Handled;
      ghost var before := effects;
      assert before + [] == before;
      for i := 0 to |batch|
        invariant Valid() && effects == before + BatchEffects(batch[..i], extend)
      {
        assert batch[..i + 1][..i] == batch[..i];
        assert batch[i] in batch;
        RequeueMessage(batch[i], extend);
      }
      assert batch[..|batch|] == batch;
    }

    /** Pulls and re-queues until a pull finds nothing, runs into its deadline, or raises. */
    method RequeueDeadLetter(script: seq<Pull>, visibilityTimeout: int) returns (r: Result, used: nat)
      requires Valid() && forall p <- script :: p.Messages? ==> Genuine(original, takes, p.batch)
      modifies this
      ensures Valid() && used <= |script|
      ensures effects == old(effects) + AllEffects(script[..used], visibilityTimeout != 0)
      ensures forall i | 0 <= i < used :: script[i].Messages? && script[i].batch != []
      ensures used < |script| ==> !script[used].Messages? || script[used].batch == []
      ensures r.Raised? <==> used < |script| && script[used].PullRaises?
    {
      hide Reflects, Genuine, BatchEffects;
      ghost var start := effects;
      used := 0;
      assert start + AllEffects(script[..0], visibilityTimeout != 0) == start;
      while used < |script|
        invariant Valid() && used <= |script|
        invariant effects == start + AllEffects(script[..used], visibilityTimeout != 0)
        invariant forall i | 0 <= i < used :: script[i].Messages? && script[i].batch != []
      {
        var pull := script[used];
        if pull.PullRaises? { return Raised, used; }
        if pull.DeadlineExceeded? || pull.batch == [] { return Finished, used; }
        assert script[..used + 1][..used] == script[..used];
        RequeueBatch(pull.batch, visibilityTimeout != 0);
        used := used + 1;
      }
      r := Finished;
    }
  }

  lemma {:induction false} BatchCopyFirst(effects: seq<Effect>, batch: seq<Pulled>, extend: bool)
    requires CopyFirst(effects)
    ensures CopyFirst(effects + BatchEffects(batch, extend))
  {
    if batch == [] {
      assert effects + [] == effects;
    } else {
      var n := |batch| - 1;
      var before := effects + BatchEffects(batch[..n], extend);
      BatchCopyFirst(effects, batch[..n], extend);
      HandledCopyFirst(before, batch[n], extend);
      assert before + Handled(batch[n], extend) == effects + BatchEffects(batch, extend);
    }
  }

  lemma HandledCopyFirst(effects: seq<Effect>, p: Pulled, extend: bool)
    requires CopyFirst(effects)
    ensures CopyFirst(effects + Handled(p, extend))
  {
    var copy := [Copied(p.id)];
    if Handled(p, extend) == copy + [Removed(p.id)] {
      MoreEffects(effects, copy);
      assert (effects + copy)[..|effects|] == effects;
      MoreEffects(effects + copy, [Removed(p.id)]);
      assert effects + copy + [Removed(p.id)] == effects + Handled(p, extend);
    } else {
      MoreEffects(effects, Handled(p, extend));
    }
  }

  lemma {:induction false} RunCopyFirst(pulls: seq<Pull>, extend: bool)
    ensures CopyFirst(AllEffects(pulls, extend))
  {
    if pulls != [] {
      var n := |pulls| - 1;
      RunCopyFirst(pulls[..n], extend);
      if pulls[n].Messages? {
        BatchCopyFirst(AllEffects(pulls[..n], extend), pulls[n].batch, extend);
      } else {
        assert AllEffects(pulls[..n], extend) + [] == AllEffects(pulls[..n], extend);
      }
    }
  }

  /** Pub/Sub: for any batches and any failures, if the run is cut off after any number `k` of its effects, every
      message that was in the dead-letter subscription is still in it, or has a copy of its own in the main topic, up to
      attributes that are options of the client's publish. */
  lemma PubSubNothingDisappears(original: map<Id, Message>, pulls: seq<Pull>, extend: bool, k: nat, y: Message)
    requires k <= |AllEffects(pulls, extend)|
    ensures var effects := AllEffects(pulls, extend)[..k];
            |Sources(original, OPTIONS, y)|
            <= |Sources(Remaining(original, effects), OPTIONS, y)| + multiset(Sent(original, effects, OPTIONS))[y]
  {
    hide CopyFirst, AllEffects, OPTIONS;
    RunCopyFirst(pulls, extend);
    PrefixCopyFirst(AllEffects(pulls, extend), k);
    NothingDisappears(original, AllEffects(pulls, extend)[..k], OPTIONS, y);
  }

  lemma HandledGoesThrough(takes: Takes, p: Pulled, extend: bool, id: Id)
    requires Confirmed(takes, p) && Copied(id) in Handled(p, extend)
    ensures id == p.id && GoesThrough(takes, p.message.attributes)
  {
  }

  lemma {:induction false} BatchGoesThrough(original: map<Id, Message>, takes: Takes, batch: seq<Pulled>, extend: bool,
                                            id: Id)
    requires Genuine(original, takes, batch) && Copied(id) in BatchEffects(batch, extend)
    ensures id in original && GoesThrough(takes, original[id].attributes)
  {
    hide Handled, GoesThrough, Confirmed;
    var n := |batch| - 1;
    assert batch[n] in batch && forall p <- batch[..n] :: p in batch;
    if Copied(id) in Handled(batch[n], extend) {
      HandledGoesThrough(takes, batch[n], extend, id);
    } else {
      BatchGoesThrough(original, takes, batch[..n], extend, id);
    }
  }

  ghost predicate AllGenuine(original: map<Id, Message>, takes: Takes, pulls: seq<Pull>) {
    forall p <- pulls :: p.Messages? ==> Genuine(original, takes, p.batch)
  }

  lemma {:induction false} RunGoesThrough(original: map<Id, Message>, takes: Takes, pulls: seq<Pull>, extend: bool,
                                          id: Id)
    requires AllGenuine(original, takes, pulls) && Copied(id) in AllEffects(pulls, extend)
    ensures id in original && GoesThrough(takes, original[id].attributes)
  {
    hide Genuine, GoesThrough, BatchEffects;
    var n := |pulls| - 1;
    assert pulls[n] in pulls && forall p <- pulls[..n] :: p in pulls;
    if Copied(id) in AllEffects(pulls[..n], extend) {
      RunGoesThrough(original, takes, pulls[..n], extend, id);
    } else {
      BatchGoesThrough(original, takes, pulls[n].batch, extend, id);
    }
  }

  /** The message can be published, and has an attribute that is an option of the call. */
  predicate Loses(takes: Takes, m: Message) {
    GoesThrough(takes, m.attributes) && !(m.attributes.Keys !! OPTIONS)
  }

  /** Cut off after `k` effects, the run has kept every message equal to `x`, or made an exact copy of it. */
  ghost predicate KeptIn(original: map<Id, Message>, pulls: seq<Pull>, extend: bool, k: nat, x: Message) {
    k <= |AllEffects(pulls, extend)| ==> Kept(original, AllEffects(pulls, extend)[..k], OPTIONS, x)
  }

  lemma AllKept(original: map<Id, Message>, takes: Takes, pulls: seq<Pull>, extend: bool, k: nat, x: Message)
    requires AllGenuine(original, takes, pulls) && forall id <- original :: !Loses(takes, original[id])
    ensures KeptIn(original, pulls, extend, k, x)
  {
    hide CopyFirst, AllEffects, OPTIONS, AllGenuine, GoesThrough, Kept;
    if k <= |AllEffects(pulls, extend)| {
      var effects := AllEffects(pulls, extend)[..k];
      RunCopyFirst(pulls, extend);
      PrefixCopyFirst(AllEffects(pulls, extend), k);
      forall id <- original ensures Copied(id) in effects ==> original[id].attributes.Keys !! OPTIONS {
        if Copied(id) in effects {
          assert Copied(id) in AllEffects(pulls, extend);
          RunGoesThrough(original, takes, pulls, extend, id);
        }
      }
      NothingChanges(original, effects, OPTIONS, x);
    }
  }

  /** Re-queueing one message, with every call returning. */
  function OneTurn(id: Id, m: Message): seq<Pull> {
    [Messages([Pulled(id, m, false, true, false, true, false)])]
  }

  lemma OneTurnEffects(id: Id, m: Message)
    ensures AllEffects(OneTurn(id, m), false) == [Copied(id), Removed(id)]
  {
    var p := Pulled(id, m, false, true, false, true, false);
    assert OneTurn(id, m)[..0] == [] && [p][..0] == [];
    assert BatchEffects([], false) == [] && AllEffects([], false) == [];
    assert BatchEffects([p], false) == [] + Handled(p, false);
    assert Handled(p, false) == [Copied(id), Removed(id)];
  }

  /** What that leaves of a message with an option among its attributes: nothing, and no exact copy. */
  lemma OneTurnLoses(original: map<Id, Message>, takes: Takes, id: Id)
    requires id in original && Loses(takes, original[id])
    ensures AllGenuine(original, takes, OneTurn(id, original[id]))
    ensures !KeptIn(original, OneTurn(id, original[id]), false, 2, original[id])
  {
    hide OPTIONS, AllEffects, Remaining, Sent, Copy;
    var m := original[id];
    OneTurnEffects(id, m);
    var effects := [Copied(id), Removed(id)];
    assert effects[..2] == effects;
    OneTurnQueues(original, id);
    ExactCopy(m, OPTIONS);
    assert Holders(original - {id}, m) == Holders(original, m) - {id};
  }

  lemma OneTurnQueues(original: map<Id, Message>, id: Id)
    requires id in original
    ensures var effects := [Copied(id), Removed(id)];
            && Remaining(original, effects) == original - {id}
            && Sent(original, effects, OPTIONS) == [Copy(original[id], OPTIONS)]
  {
    hide OPTIONS, Copy;
    var effects := [Copied(id), Removed(id)];
    assert effects[..1] == [Copied(id)] && [Copied(id)][..0] == [];
    assert Remaining(original, []) == original && Sent(original, [], OPTIONS) == [];
    assert Remaining(original, [Copied(id)]) == original;
  }

  /** Every run, cut off anywhere, keeps every message or makes an exact copy of it, if and only if no message of the
      dead-letter subscription that can be published has an attribute that is an option of the client's publish. */
  lemma ExactCopiesIff(original: map<Id, Message>, takes: Takes)
    ensures (forall pulls, extend, k, x | AllGenuine(original, takes, pulls) :: KeptIn(original, pulls, extend, k, x))
            <==> forall id <- original :: !Loses(takes, original[id])
  {
    hide AllGenuine, KeptIn, Loses;
    if forall id <- original :: !Loses(takes, original[id]) {
      forall pulls, extend, k, x | AllGenuine(original, takes, pulls) ensures KeptIn(original, pulls, extend, k, x) {
        AllKept(original, takes, pulls, extend, k, x);
      }
    } else {
      var id :| id in original && Loses(takes, original[id]);
      OneTurnLoses(original, takes, id);
    }
  }

  /** An input: an empty ordering key, which the client takes. */
  lemma EmptyOrderingKeyIsLost(takes: Takes, body: string)
    requires takes(map["ordering_key" := ""])
    ensures Loses(takes, Message(body, map["ordering_key" := ""]))
  {
    var a := map["ordering_key" := ""];
    assert "ordering_key" in a && "ordering_key" in OPTIONS;
    assert OptionsIn(a) == a;
    assert |"ordering_key"| == 12 && |"self"| == 4 && |"topic"| == 5 && |"data"| == 4;
  }

  lemma {:induction false} HandledIn(batch: seq<Pulled>, extend: bool, i: nat, e: Effect)
    requires i < |batch| && e in Handled(batch[i], extend)
    ensures e in BatchEffects(batch, extend)
  {
    hide Handled;
    var n := |batch| - 1;
    if i < n { HandledIn(batch[..n], extend, i, e); }
  }

  /** A failure stays with its message: every other message of the batch whose calls return is copied and removed. */
  lemma FailureIsIsolated(takes: Takes, batch: seq<Pulled>, extend: bool, i: nat)
    requires i < |batch| && Confirmed(takes, batch[i])
    requires !batch[i].deadlineRaises && !batch[i].publishRaises && !batch[i].ackRaises
    ensures Copied(batch[i].id) in BatchEffects(batch, extend) && Removed(batch[i].id) in BatchEffects(batch, extend)
  {
    assert Handled(batch[i], extend)[0] == Copied(batch[i].id);
    assert Handled(batch[i], extend)[1] == Removed(batch[i].id);
    HandledIn(batch, extend, i, Copied(batch[i].id));
    HandledIn(batch, extend, i, Removed(batch[i].id));
  }
}
