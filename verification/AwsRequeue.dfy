/** `requeue_dead_letter` of the SQS backend. */
module AwsRequeue {
  import opened DeadLetterRequeue

  /** How the calls of one turn of the loop go: the messages received, which of them SQS accepted in the main queue and
      which it deleted, and whether the call that did so raised all the same. */
  datatype Turn = Turn(received: seq<Id>, bodies: seq<Message>, receiveRaises: bool, accepted: set<Id>,
                       sendRaises: bool,
                       deleted: set<Id>, deleteRaises: bool)

  /** A receive returns messages of the dead-letter queue, as they were put there. */
  ghost predicate Genuine(original: map<Id, Message>, t: Turn) {
    && |t.received| == |t.bodies|
    && forall i | 0 <= i < |t.received| :: t.received[i] in original && original[t.received[i]] == t.bodies[i]
  }

  datatype Result = Finished | PartialFailure | Raised

  function Copies(ids: seq<Id>, accepted: set<Id>): (r: seq<Effect>)
    ensures forall e <- r :: e.Copied?
    ensures forall id :: Copied(id) in r <==> id in ids && id in accepted
  {
    if ids == [] then []
    else
      var n := |ids| - 1;
      assert forall id :: id in ids <==> id in ids[..n] || id == ids[n];
      Copies(ids[..n], accepted) + if ids[n] in accepted then [Copied(ids[n])] else []
  }

  lemma CopiesMore(ids: seq<Id>, i: nat, accepted: set<Id>)
    requires i <= |ids|
    ensures Copies(ids[..0], accepted) == []
    ensures i < |ids| ==>
              Copies(ids[..i + 1], accepted)
              == Copies(ids[..i], accepted) + if ids[i] in accepted then [Copied(ids[i])] else []
  {
    if i < |ids| { assert ids[..i + 1][..i] == ids[..i]; }
  }

  function Removals(ids: seq<Id>, deleted: set<Id>): (r: seq<Effect>)
    ensures forall e <- r :: e.Removed? && e.id in ids
  {
    if ids == [] then []
    else
      var n := |ids| - 1;
      Removals(ids[..n], deleted) + if ids[n] in deleted then [Removed(ids[n])] else []
  }

  lemma RemovalsMore(ids: seq<Id>, i: nat, deleted: set<Id>)
    requires i <= |ids|
    ensures Removals(ids[..0], deleted) == []
    ensures i < |ids| ==>
              Removals(ids[..i + 1], deleted)
              == Removals(ids[..i], deleted) + if ids[i] in deleted then [Removed(ids[i])] else []
  {
    if i < |ids| { assert ids[..i + 1][..i] == ids[..i]; }
  }

  lemma {:induction false} CopiedCounts(ids: seq<Id>, accepted: set<Id>, id: Id)
    requires id in ids && id in accepted
    ensures CopiesOf(Copies(ids, accepted), id) >= 1
  {
    var n := |ids| - 1;
    CopiesAppend(Copies(ids[..n], accepted), if ids[n] in accepted then [Copied(ids[n])] else [], id);
    if ids[n] == id {
      assert [Copied(id)][..0] == [];
    } else {
      CopiedCounts(ids[..n], accepted, id);
    }
  }

  /** The response of the send lists a failed entry. */
  predicate AnyFailed(t: Turn) {
    exists id <- t.received :: id !in t.accepted
  }

  /** All of the batch is sent and the delete returns. */
  predicate Succeeds(t: Turn) {
    !t.sendRaises && !AnyFailed(t) && !t.deleteRaises
  }

  /** The effects of one turn on the two queues. */
  function Effects(t: Turn): seq<Effect> {
    if t.receiveRaises || t.received == [] then []
    else
      var copies := Copies(t.received, t.accepted);
      if t.sendRaises || AnyFailed(t) then copies
      else copies + Removals(t.received, t.deleted)
  }

  function AllEffects(turns: seq<Turn>): seq<Effect> {
    if turns == [] then [] else AllEffects(turns[..|turns| - 1]) + Effects(turns[|turns| - 1])
  }

  lemma TurnCopyFirst(effects: seq<Effect>, t: Turn)
    requires CopyFirst(effects)
    ensures CopyFirst(effects + Effects(t))
  {
    hide CopyFirst, CopiesOf;
    var copies := Copies(t.received, t.accepted);
    MoreEffects(effects, copies);
    if Effects(t) != [] && Effects(t) != copies {
      var removals := Removals(t.received, t.deleted);
      forall e <- removals ensures e.Removed? ==> CopiesOf(effects + copies, e.id) >= 1 {
        CopiedCounts(t.received, t.accepted, e.id);
        CopiesAppend(effects, copies, e.id);
      }
      MoreEffects(effects + copies, removals);
      assert effects + copies + removals == effects + Effects(t);
    } else {
      assert effects + [] == effects;
    }
  }

  /** What an entry of send_messages carries: the attributes key is left out when there are none. */
  datatype SendEntry = SendEntry(id: Id, body: string, attributes: map<string, string>, hasAttributes: bool)

  function Entry(id: Id, m: Message): SendEntry {
    SendEntry(id, m.body, m.attributes, m.attributes != map[])
  }

  /** What the main queue stores for an entry it accepts. */
  function Stored(e: SendEntry): (m: Message) {
    Message(e.body, if e.hasAttributes then e.attributes else map[])
  }

  /** The entry for a message stores a copy of it. */
  lemma StoredIsCopy(id: Id, m: Message)
    ensures Stored(Entry(id, m)) == m && Entry(id, m).id == id
  {
  }

  /** The messages of a batch that were accepted, in order. */
  function Accepted(ids: seq<Id>, bodies: seq<Message>, accepted: set<Id>): seq<Message>
    requires |ids| == |bodies|
  {
    if ids == [] then []
    else
      var n := |ids| - 1;
      Accepted(ids[..n], bodies[..n], accepted) + if ids[n] in accepted then [bodies[n]] else []
  }

  lemma AcceptedMore(ids: seq<Id>, bodies: seq<Message>, i: nat, accepted: set<Id>)
    requires i <= |ids| == |bodies|
    ensures Accepted(ids[..0], bodies[..0], accepted) == []
    ensures i < |ids| ==>
              Accepted(ids[..i + 1], bodies[..i + 1], accepted)
              == Accepted(ids[..i], bodies[..i], accepted) + if ids[i] in accepted then [bodies[i]] else []
  {
    if i < |ids| { assert ids[..i + 1][..i] == ids[..i] && bodies[..i + 1][..i] == bodies[..i]; }
  }

  function Deleted(ids: seq<Id>, deleted: set<Id>): set<Id> {
    set id | id in ids && id in deleted
  }

  lemma DeletedIs(ids: seq<Id>, deleted: set<Id>)
    ensures Deleted(ids, deleted) == set id | id in ids && id in deleted
  {
  }

  lemma DeletedMore(queue: map<Id, Message>, ids: seq<Id>, i: nat, deleted: set<Id>)
    requires i <= |ids|
    ensures queue - Deleted(ids[..0], deleted) == queue
    ensures i < |ids| ==>
              queue - Deleted(ids[..i + 1], deleted)
              == queue - Deleted(ids[..i], deleted) - if ids[i] in deleted then {ids[i]} else {}
  {
    if i < |ids| {
      assert ids[..i + 1] == ids[..i] + [ids[i]];
      assert Deleted(ids[..i + 1], deleted) == Deleted(ids[..i], deleted) + if ids[i] in deleted then {ids[i]} else {};
    }
  }

  /** The effects of several turns are those of the turns, one after the other. */
  lemma {:induction false} EffectsJoin(a: seq<Turn>, b: seq<Turn>)
    ensures AllEffects(a + b) == AllEffects(a) + AllEffects(b)
  {
    hide Effects;
    if b == [] {
      assert a + b == a;
    } else {
      var n := |b| - 1;
      assert (a + b)[..|a| + n] == a + b[..n] && (a + b)[|a| + n] == b[n];
      EffectsJoin(a, b[..n]);
      assert AllEffects(a + b) == AllEffects(a + b[..n]) + Effects(b[n]);
    }
  }

  lemma EffectsOfOne(t: Turn)
    ensures AllEffects([t]) == Effects(t)
  {
    hide Effects;
    assert [t][..0] == [] && AllEffects([]) == [];
    assert [] + Effects(t) == Effects(t);
  }

  /** The entries sent for a batch. */
  ghost predicate EntriesFor(t: Turn, entries: seq<SendEntry>) {
    && |entries| == |t.received| == |t.bodies|
    && forall i | 0 <= i < |entries| :: entries[i] == Entry(t.received[i], t.bodies[i])
  }

  class Sqs {
    ghost const original: map<Id, Message>
    var deadLetter: map<Id, Message>
    var main: seq<Message>
    ghost var effects: seq<Effect>

    constructor (deadLetter: map<Id, Message>)
      ensures this.original == deadLetter && effects == [] && Valid()
    {
      this.original, this.deadLetter, main, effects := deadLetter, deadLetter, [], [];
    }

    /** The queues are what the effects made of them. */
    ghost predicate Valid()
      reads this
    {
      Reflects(original, effects, {}, deadLetter, main)
    }

    /** SendMessageBatch: stores the accepted entries, in order. */
    method SendMessages(entries: seq<SendEntry>, accepted: set<Id>, ghost t: Turn)
      requires Valid() && Genuine(original, t) && EntriesFor(t, entries)
      modifies this`main, this`effects
      ensures Valid() && effects == old(effects) + Copies(t.received, accepted)
      ensures main == old(main) + Accepted(t.received, t.bodies, accepted)
    {
      hide Reflects, Stored, Entry, Copies, Accepted;
      ghost var before := effects;
      assert before + [] == before && main + [] == main;
      CopiesMore(t.received, 0, accepted);
      AcceptedMore(t.received, t.bodies, 0, accepted);
      for i := 0 to |entries|
        invariant Valid() && effects == before + Copies(t.received[..i], accepted)
        invariant main == old(main) + Accepted(t.received[..i], t.bodies[..i], accepted)
      {
        CopiesMore(t.received, i, accepted);
        AcceptedMore(t.received, t.bodies, i, accepted);
        assert entries[i] == Entry(t.received[i], t.bodies[i]);
        StoredIsCopy(t.received[i], t.bodies[i]);
        if entries[i].id in accepted {
          OneCopied(original, effects, {}, deadLetter, main, t.received[i]);
          ExactCopy(t.bodies[i], {});
          main := main + [Stored(entries[i])];
          effects := effects + [Copied(t.received[i])];
        }
      }
      assert t.received[..|t.received|] == t.received && t.bodies[..|t.bodies|] == t.bodies;
    }

    method DeleteMessages(ids: seq<Id>, deleted: set<Id>)
      requires Valid()
      modifies this`deadLetter, this`effects
      ensures Valid() && effects == old(effects) + Removals(ids, deleted)
      ensures deadLetter == old(deadLetter) - set id | id in ids && id in deleted
    {
      hide Reflects, Deleted, Removals;
      RemovalsMore(ids, 0, deleted);
      DeletedMore(deadLetter, ids, 0, deleted);
      ghost var before := effects;
      assert before + [] == before;
      for i := 0 to |ids|
        invariant Valid() && effects == before + Removals(ids[..i], deleted)
        invariant deadLetter == old(deadLetter) - Deleted(ids[..i], deleted)
      {
        RemovalsMore(ids, i, deleted);
        DeletedMore(old(deadLetter), ids, i, deleted);
        if ids[i] in deleted {
          OneRemoved(original, effects, {}, deadLetter, main, ids[i]);
          deadLetter := deadLetter - {ids[i]};
          effects := effects + [Removed(ids[i])];
        }
      }
      assert ids[..|ids|] == ids;
      DeletedIs(ids, deleted);
    }

    /** The entries for a batch. */
    method MakeEntries(t: Turn) returns (entries: seq<SendEntry>)
      requires |t.received| == |t.bodies|
      ensures EntriesFor(t, entries)
    {
      entries := [];
      for i := 0 to |t.received|
        invariant |entries| == i
        invariant forall j | 0 <= j < i :: entries[j] == Entry(t.received[j], t.bodies[j])
      {
        entries := entries + [Entry(t.received[i], t.bodies[i])];
      }
    }

    /** The loop body: send the received batch, and if all of it was sent, delete it. A batch of which any message
        failed to be sent is left in the dead-letter queue whole. */
    method RequeueBatch(t: Turn) returns (r: Result)
      requires Valid() && Genuine(original, t) && !t.receiveRaises && t.received != []
      modifies this
      ensures Valid() && effects == old(effects) + Effects(t)
      ensures var failed := exists id <- t.received :: id !in t.accepted;
              && (r.Raised? <==> t.sendRaises || (!failed && t.deleteRaises))
              && (r.PartialFailure? <==> !t.sendRaises && failed)
              && deadLetter == old(deadLetter) - (if t.sendRaises || failed then {}
                                                  else set id | id in t.received && id in t.deleted)
      ensures main == old(main) + Accepted(t.received, t.bodies, t.accepted)
    {
      hide Reflects, Copies, Removals, Accepted;
      assert deadLetter - {} == deadLetter;
      ghost var before := effects;
      GenuineLength(original, t);
      var entries := MakeEntries(t);
      SendMessages(entries, t.accepted, t);
      if t.sendRaises { return Raised; }
      if AnyFailed(t) { return PartialFailure; }
      DeleteMessages(t.received, t.deleted);
      assert before + Copies(t.received, t.accepted) + Removals(t.received, t.deleted) == before + Effects(t);
      r := if t.deleteRaises then Raised else Finished;
    }

    /** Re-queues batch after batch, until a receive returns nothing or a call fails. */
    method RequeueDeadLetter(script: seq<Turn>) returns (r: Result, used: nat)
      requires Valid() && forall t <- script :: Genuine(original, t)
      modifies this
      ensures Valid() && used <= |script|
      ensures effects == old(effects) + AllEffects(script[..used])
      ensures forall i | 0 <= i < used :: !script[i].receiveRaises && script[i].received != []
      ensures forall i | 0 <= i < used - 1 :: Succeeds(script[i])
      ensures if used > 0 && !Succeeds(script[used - 1]) then
                r == if AnyFailed(script[used - 1]) && !script[used - 1].sendRaises then PartialFailure else Raised
              else
                && (used == |script| || script[used].receiveRaises || script[used].received == [])
                && r == if used < |script| && script[used].receiveRaises then Raised else Finished
    {
      hide Reflects, Genuine, Effects, Accepted;
      ghost var start := effects;
      used := 0;
      assert start + AllEffects(script[..0]) == start;
      while used < |script|
        invariant Valid() && used <= |script| && effects == start + AllEffects(script[..used])
        invariant forall i | 0 <= i < used :: !script[i].receiveRaises && script[i].received != []
        invariant forall i | 0 <= i < used :: Succeeds(script[i])
      {
        var t := script[used];
        if t.receiveRaises { return Raised, used; }
        if t.received == [] { return Finished, used; }
        assert script[..used + 1][..used] == script[..used];
        var done := RequeueBatch(t);
        used := used + 1;
        if !done.Finished? { return done, used; }
      }
      r := Finished;
    }
  }

  lemma GenuineLength(original: map<Id, Message>, t: Turn)
    requires Genuine(original, t)
    ensures |t.received| == |t.bodies|
  {
  }

  lemma {:induction false} RunCopyFirst(turns: seq<Turn>)
    ensures CopyFirst(AllEffects(turns))
  {
    if turns != [] {
      var n := |turns| - 1;
      RunCopyFirst(turns[..n]);
      TurnCopyFirst(AllEffects(turns[..n]), turns[n]);
    }
  }

  /** SQS: for any batches and any failures, if the run is cut off after any number `k` of its effects, every message
      that was in the dead-letter queue is still in it, or has a copy of its own in the main queue. */
  lemma SqsNothingDisappears(original: map<Id, Message>, turns: seq<Turn>, k: nat, x: Message)
    requires k <= |AllEffects(turns)|
    ensures Kept(original, AllEffects(turns)[..k], {}, x)
  {
    hide CopyFirst, AllEffects;
    RunCopyFirst(turns);
    PrefixCopyFirst(AllEffects(turns), k);
    NothingChanges(original, AllEffects(turns)[..k], {}, x);
  }
}
