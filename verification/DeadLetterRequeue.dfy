/** Re-queueing a dead-letter queue on SQS and on Pub/Sub, when any call can fail. */
module DeadLetterRequeue {

  type Id = string

  /** A queue message: a body and its attributes; on SQS a message without attributes has none rather than an empty
      map. */
  datatype Message = Message(body: string, attributes: map<string, string>)

  /** Something that happened to one of the queues. */
  datatype Effect = Copied(id: Id) | Removed(id: Id)

  function CopiesOf(effects: seq<Effect>, id: Id): nat {
    if effects == [] then 0
    else
      var n := |effects| - 1;
      CopiesOf(effects[..n], id) + if effects[n] == Copied(id) then 1 else 0
  }

  /** Nothing is removed from the dead-letter queue before a copy of it has reached the main queue. */
  ghost predicate CopyFirst(effects: seq<Effect>) {
    forall k | 0 <= k < |effects| && effects[k].Removed? :: CopiesOf(effects[..k], effects[k].id) >= 1
  }

  /** The dead-letter queue after the effects. */
  function Remaining(original: map<Id, Message>, effects: seq<Effect>): map<Id, Message> {
    if effects == [] then original
    else
      var n := |effects| - 1;
      var before := Remaining(original, effects[..n]);
      if effects[n].Removed? then before - {effects[n].id} else before
  }

  /** A copy of a message, where copying drops attributes of certain names. */
  function Copy(m: Message, dropped: set<string>): Message {
    m.(attributes := m.attributes - dropped)
  }

  lemma ExactCopy(m: Message, dropped: set<string>)
    ensures Copy(m, dropped) == m <==> m.attributes.Keys !! dropped
  {
    if m.attributes.Keys !! dropped {
      assert m.attributes - dropped == m.attributes;
    } else {
      var k :| k in m.attributes && k in dropped;
      assert k !in Copy(m, dropped).attributes;
    }
  }

  /** What the effects have added to the main queue. */
  function Sent(original: map<Id, Message>, effects: seq<Effect>, dropped: set<string>): seq<Message> {
    if effects == [] then []
    else
      var n := |effects| - 1;
      Sent(original, effects[..n], dropped) +
      if effects[n].Copied? && effects[n].id in original then [Copy(original[effects[n].id], dropped)] else []
  }

  /** The two queues are what the effects made of them. */
  ghost predicate Reflects(original: map<Id, Message>, effects: seq<Effect>, dropped: set<string>,
                           deadLetter: map<Id, Message>, main: seq<Message>)
  {
    deadLetter == Remaining(original, effects) && main == Sent(original, effects, dropped)
  }

  lemma OneCopied(original: map<Id, Message>, effects: seq<Effect>, dropped: set<string>, deadLetter: map<Id, Message>,
                  main: seq<Message>, id: Id)
    requires Reflects(original, effects, dropped, deadLetter, main) && id in original
    ensures Reflects(original, effects + [Copied(id)], dropped, deadLetter, main + [Copy(original[id], dropped)])
  {
    hide Copy;
    assert (effects + [Copied(id)])[..|effects|] == effects;
  }

  lemma OneRemoved(original: map<Id, Message>, effects: seq<Effect>, dropped: set<string>, deadLetter: map<Id, Message>,
                   main: seq<Message>, id: Id)
    requires Reflects(original, effects, dropped, deadLetter, main)
    ensures Reflects(original, effects + [Removed(id)], dropped, deadLetter - {id}, main)
  {
    hide Copy;
    assert (effects + [Removed(id)])[..|effects|] == effects;
  }

  lemma {:induction false} CopiesAppend(a: seq<Effect>, b: seq<Effect>, id: Id)
    ensures CopiesOf(a + b, id) == CopiesOf(a, id) + CopiesOf(b, id)
  {
    if b == [] {
      assert a + b == a;
    } else {
      var n := |b| - 1;
      assert (a + b)[..|a| + n] == a + b[..n];
      CopiesAppend(a, b[..n], id);
    }
  }

  lemma {:induction false} CopiedMember(effects: seq<Effect>, id: Id)
    requires CopiesOf(effects, id) >= 1
    ensures Copied(id) in effects
  {
    var n := |effects| - 1;
    if effects[n] != Copied(id) { CopiedMember(effects[..n], id); }
  }

  /** If every removal came after a copy, a message is still in the dead-letter queue, unchanged, or has been copied. */
  lemma {:induction false} KeptOrCopied(original: map<Id, Message>, effects: seq<Effect>, id: Id)
    requires CopyFirst(effects) && id in original
    ensures var left := Remaining(original, effects);
            (id in left && left[id] == original[id]) || Copied(id) in effects
  {
    if effects != [] {
      var n := |effects| - 1;
      assert forall k | 0 <= k < n :: effects[..n][..k] == effects[..k];
      KeptOrCopied(original, effects[..n], id);
      if effects[n] == Removed(id) { CopiedMember(effects[..n], id); }
    }
  }

  /** The messages of a queue that are equal to `x`. */
  function Holders(queue: map<Id, Message>, x: Message): set<Id> {
    set id | id in queue && queue[id] == x
  }

  /** The messages of a queue of which `y` is a copy. */
  function Sources(queue: map<Id, Message>, dropped: set<string>, y: Message): set<Id> {
    set id | id in queue && Copy(queue[id], dropped) == y
  }

  /** Those originals of which the copy `y` was made. */
  function CopiedIds(original: map<Id, Message>, effects: seq<Effect>, dropped: set<string>, y: Message): set<Id> {
    set id | id in original && Copy(original[id], dropped) == y && Copied(id) in effects
  }

  /** The effect makes a copy `y`. */
  predicate CopiesOne(original: map<Id, Message>, e: Effect, dropped: set<string>, y: Message) {
    e.Copied? && e.id in original && Copy(original[e.id], dropped) == y
  }

  lemma CopiedIdsMore(original: map<Id, Message>, effects: seq<Effect>, e: Effect, dropped: set<string>, y: Message)
    ensures CopiedIds(original, effects + [e], dropped, y)
            == CopiedIds(original, effects, dropped, y) + if CopiesOne(original, e, dropped, y) then {e.id} else {}
  {
    hide Copy;
  }

  lemma SentMore(original: map<Id, Message>, effects: seq<Effect>, e: Effect, dropped: set<string>, y: Message)
    ensures multiset(Sent(original, effects + [e], dropped))[y]
            == multiset(Sent(original, effects, dropped))[y] + if CopiesOne(original, e, dropped, y) then 1 else 0
  {
    hide Copy;
    assert (effects + [e])[..|effects|] == effects;
  }

  lemma {:induction false} EachCopySent(original: map<Id, Message>, effects: seq<Effect>, dropped: set<string>,
                                        y: Message)
    ensures |CopiedIds(original, effects, dropped, y)| <= multiset(Sent(original, effects, dropped))[y]
  {
    hide CopiedIds, Sent, CopiesOne;
    if effects == [] {
      NoneCopied(original, dropped, y);
    } else {
      var n := |effects| - 1;
      var before := CopiedIds(original, effects[..n], dropped, y);
      assert effects == effects[..n] + [effects[n]];
      EachCopySent(original, effects[..n], dropped, y);
      CopiedIdsMore(original, effects[..n], effects[n], dropped, y);
      SentMore(original, effects[..n], effects[n], dropped, y);
      OneMoreAtMost(before, effects[n].id);
      assert before + {} == before;
    }
  }

  lemma NoneCopied(original: map<Id, Message>, dropped: set<string>, y: Message)
    ensures CopiedIds(original, [], dropped, y) == {}
  {
  }

  lemma OneMoreAtMost(ids: set<Id>, id: Id)
    ensures |ids + {id}| <= |ids| + 1
  {
  }

  lemma Cover(a: set<Id>, b: set<Id>, c: set<Id>)
    requires a <= b + c
    ensures |a| <= |b| + |c|
  {
    Within(a, b + c);
    assert |b + c| == |b| + |c| - |b * c|;
  }

  lemma {:induction false} Within(a: set<Id>, b: set<Id>)
    requires a <= b
    ensures |a| <= |b|
  {
    if a != {} {
      var x :| x in a;
      Within(a - {x}, b - {x});
    }
  }

  /** Copy before remove: if every removal came after a copy, then at every moment there are at least as many messages
      with copy `y` in the dead-letter queue, and copies `y` in the main queue, as there were messages with copy `y` in
      the dead-letter queue at the start: each message is still there or has a copy of its own. */
  lemma NothingDisappears(original: map<Id, Message>, effects: seq<Effect>, dropped: set<string>, y: Message)
    requires CopyFirst(effects)
    ensures |Sources(original, dropped, y)|
            <= |Sources(Remaining(original, effects), dropped, y)| + multiset(Sent(original, effects, dropped))[y]
  {
    hide CopyFirst, Remaining, Sent, Copy;
    var left := Remaining(original, effects);
    forall id <- Sources(original, dropped, y)
      ensures id in Sources(left, dropped, y) + CopiedIds(original, effects, dropped, y)
    {
      KeptOrCopied(original, effects, id);
    }
    Cover(Sources(original, dropped, y), Sources(left, dropped, y), CopiedIds(original, effects, dropped, y));
    EachCopySent(original, effects, dropped, y);
  }

  /** As many messages equal to `x` are in the dead-letter queue and among the copies as there were at the start. */
  ghost predicate Kept(original: map<Id, Message>, effects: seq<Effect>, dropped: set<string>, x: Message) {
    |Holders(original, x)| <= |Holders(Remaining(original, effects), x)| + multiset(Sent(original, effects, dropped))[x]
  }

  /** If moreover copying drops nothing of what was copied, each message is still there or has an exact copy. */
  lemma NothingChanges(original: map<Id, Message>, effects: seq<Effect>, dropped: set<string>, x: Message)
    requires CopyFirst(effects)
    requires forall id <- original :: Copied(id) in effects ==> original[id].attributes.Keys !! dropped
    ensures Kept(original, effects, dropped, x)
  {
    hide CopyFirst, Remaining, Sent, Copy;
    var left := Remaining(original, effects);
    forall id <- Holders(original, x) ensures id in Holders(left, x) + CopiedIds(original, effects, dropped, x) {
      KeptOrCopied(original, effects, id);
      ExactCopy(original[id], dropped);
    }
    Cover(Holders(original, x), Holders(left, x), CopiedIds(original, effects, dropped, x));
    EachCopySent(original, effects, dropped, x);
  }

  /** Every prefix of the effects is what an observer sees if the run is cut off there. */
  lemma PrefixCopyFirst(effects: seq<Effect>, k: nat)
    requires CopyFirst(effects) && k <= |effects|
    ensures CopyFirst(effects[..k])
  {
    assert forall j | 0 <= j < k :: effects[..k][..j] == effects[..j];
  }

  /** Adding effects of which every removal is of something already copied. */
  lemma {:induction false} MoreEffects(effects: seq<Effect>, more: seq<Effect>)
    requires CopyFirst(effects)
    requires forall e <- more :: e.Removed? ==> CopiesOf(effects, e.id) >= 1
    ensures CopyFirst(effects + more)
  {
    var all := effects + more;
    forall k | 0 <= k < |all| && all[k].Removed? ensures CopiesOf(all[..k], all[k].id) >= 1 {
      if k < |effects| {
        assert all[..k] == effects[..k];
      } else {
        assert all[k] == more[k - |effects|] && all[..k] == effects + more[..k - |effects|];
        CopiesAppend(effects, more[..k - |effects|], all[k].id);
      }
    }
  }
}
