/** The Pub/Sub work queue: streaming-pull threads fill it, the generator of `pull_messages` empties it. */
module PubSubHandOff {

  /** A message wrapped with the subscription it came from. */
  datatype Wrapped<T> = Wrapped(message: T, subscription: string)

  /** What happens around one read of the queue: what the subscriber threads put since the read before, in the order of
      their puts, and whether the shutdown event is set by then. */
  datatype Turn<T> = Turn(arrivals: seq<Wrapped<T>>, shutdown: bool)

  /** What the generator does: yield a message, or find the queue empty and do the housekeeping calls. */
  datatype Event<T> = Yield(wrapped: Wrapped<T>) | Idle

  function Scheduled<T>(script: seq<Turn<T>>): seq<Wrapped<T>> {
    if script == [] then [] else Scheduled(script[..|script| - 1]) + script[|script| - 1].arrivals
  }

  function Yielded<T>(events: seq<Event<T>>): seq<Wrapped<T>> {
    if events == [] then []
    else
      var n := |events| - 1;
      Yielded(events[..n]) + if events[n].Yield? then [events[n].wrapped] else []
  }

  /** Turn `k` of a script that is quiet and shut down after its end. */
  function At<T>(script: seq<Turn<T>>, k: nat): Turn<T> {
    if k < |script| then script[k] else Turn([], true)
  }

  function First<T>(script: seq<Turn<T>>, k: nat): (r: seq<Turn<T>>)
    ensures |r| == k
  {
    seq(k, i requires 0 <= i < k => At(script, i))
  }

  lemma FirstMore<T>(script: seq<Turn<T>>, k: nat)
    ensures Scheduled(First(script, k + 1)) == Scheduled(First(script, k)) + At(script, k).arrivals
  {
    assert First(script, k + 1)[..k] == First(script, k);
  }

  class WorkQueue<T> {
    var items: seq<Wrapped<T>>

    constructor ()
      ensures items == []
    {
      items := [];
    }

    method Put(w: Wrapped<T>)
      modifies this
      ensures items == old(items) + [w]
    {
      items := items + [w];
    }

    /** The oldest item, or nothing when the queue is empty (after a timeout or at once makes no difference). */
    method Get() returns (got: seq<Wrapped<T>>)
      modifies this
      ensures old(items) == [] ==> got == [] && items == []
      ensures old(items) != [] ==> got == [old(items)[0]] && items == old(items)[1..]
    {
      if items == [] {
        got := [];
      } else {
        got := [items[0]];
        items := items[1..];
      }
    }
  }

  /** The scheduler of one subscription; all of them share the work queue. */
  class PubSubMessageScheduler<T> {
    const workQueue: WorkQueue<T>
    const subscriptionPath: string

    constructor (workQueue: WorkQueue<T>, subscriptionPath: string)
      ensures this.workQueue == workQueue && this.subscriptionPath == subscriptionPath
    {
      this.workQueue, this.subscriptionPath := workQueue, subscriptionPath;
    }

    method Schedule(message: T)
      modifies workQueue
      ensures workQueue.items == old(workQueue.items) + [Wrapped(message, subscriptionPath)]
    {
      workQueue.Put(Wrapped(message, subscriptionPath));
    }
  }

  method PutAll<T>(q: WorkQueue<T>, ws: seq<Wrapped<T>>)
    modifies q
    ensures q.items == old(q.items) + ws
  {
    for i := 0 to |ws|
      invariant q.items == old(q.items) + ws[..i]
    {
      q.Put(ws[i]);
    }
  }

  /** Between any two events, what has been yielded and what is queued make up what has been scheduled, in order. */
  ghost predicate InOrder<T>(script: seq<Turn<T>>, events: seq<Event<T>>, items: seq<Wrapped<T>>, turns: nat) {
    Yielded(events) + items == Scheduled(First(script, turns)) && |events| == turns
  }

  /** Every prefix of the events was a state of the queue in order. */
  ghost predicate AlwaysPrefix<T>(script: seq<Turn<T>>, events: seq<Event<T>>) {
    forall k: nat | k <= |events| :: IsPrefix(script, events[..k])
  }

  /** What the events have yielded is the oldest part of what had been scheduled by then. */
  ghost predicate IsPrefix<T>(script: seq<Turn<T>>, events: seq<Event<T>>) {
    Yielded(events) <= Scheduled(First(script, |events|))
  }

  /** The housekeeping calls are made only when everything scheduled so far has been yielded. */
  ghost predicate IdleWhenEmpty<T>(script: seq<Turn<T>>, events: seq<Event<T>>) {
    forall k: nat | k < |events| && events[k].Idle? :: Yielded(events[..k]) == Scheduled(First(script, k + 1))
  }

  lemma IdleMore<T>(script: seq<Turn<T>>, events: seq<Event<T>>, e: Event<T>)
    requires IdleWhenEmpty(script, events)
    requires e.Idle? ==> Yielded(events) == Scheduled(First(script, |events| + 1))
    ensures IdleWhenEmpty(script, events + [e])
  {
    hide First, Scheduled, Yielded;
    var more := events + [e];
    assert more[..|events|] == events;
    forall k: nat | k < |more| && more[k].Idle? ensures Yielded(more[..k]) == Scheduled(First(script, k + 1)) {
      if k < |events| { assert more[..k] == events[..k] && more[k] == events[k]; }
    }
  }

  lemma PrefixesMore<T>(script: seq<Turn<T>>, events: seq<Event<T>>, e: Event<T>)
    requires AlwaysPrefix(script, events)
    requires IsPrefix(script, events + [e])
    ensures AlwaysPrefix(script, events + [e])
  {
    hide IsPrefix;
    var more := events + [e];
    forall j: nat | j <= |more| ensures IsPrefix(script, more[..j]) {
      if j <= |events| { assert more[..j] == events[..j]; } else { assert more[..j] == more; }
    }
  }

  /** One turn of either loop: threads put, the generator reads once. */
  method TakeTurn<T>(q: WorkQueue<T>, script: seq<Turn<T>>, events: seq<Event<T>>) returns (e: Event<T>)
    requires InOrder(script, events, q.items, |events|) && AlwaysPrefix(script, events) && IdleWhenEmpty(script, events)
    modifies q
    ensures InOrder(script, events + [e], q.items, |events| + 1)
    ensures AlwaysPrefix(script, events + [e]) && IdleWhenEmpty(script, events + [e])
    ensures e.Idle? <==> old(q.items) == [] && At(script, |events|).arrivals == []
    ensures |q.items| == |old(q.items)| + |At(script, |events|).arrivals| - if e.Idle? then 0 else 1
    ensures e.Idle? ==> q.items == []
  {
    hide First, Scheduled, AlwaysPrefix, IdleWhenEmpty;
    ghost var before := q.items;
    var k := |events|;
    PutAll(q, At(script, k).arrivals);
    var got := q.Get();
    e := if got == [] then Idle else Yield(got[0]);
    ghost var more := events + [e];
    FirstMore(script, k);
    assert more[..k] == events;
    assert Yielded(more) + q.items == Yielded(events) + (before + At(script, k).arrivals);
    PrefixesMore(script, events, e);
    IdleMore(script, events, e);
  }

  /** The generator, run to its end.  It yields until it sees the shutdown event, then cancels the subscriptions and
      drains the queue until a read finds nothing.  Cancelled subscriptions may still put messages while it drains.
      `seen` is the turn in which the shutdown is noticed. */
  method PullMessages<T>(q: WorkQueue<T>, script: seq<Turn<T>>) returns (events: seq<Event<T>>, seen: nat)
    requires q.items == []
    modifies q
    ensures AlwaysPrefix(script, events) && IdleWhenEmpty(script, events)
    ensures Yielded(events) == Scheduled(First(script, |events|)) && q.items == []
    ensures seen < |events| && At(script, seen).shutdown && forall k: nat | k < seen :: !At(script, k).shutdown
    ensures events[|events| - 1] == Idle && forall k | seen <= k < |events| - 1 :: events[k].Yield?
  {
    hide AlwaysPrefix, IdleWhenEmpty, First, Scheduled;
    events := [];
    NothingYet(script);
    while !At(script, |events|).shutdown
      invariant InOrder(script, events, q.items, |events|) && AlwaysPrefix(script, events)
                && IdleWhenEmpty(script, events)
      invariant forall k: nat | k < |events| :: !At(script, k).shutdown
      decreases |script| - |events|
    {
      var e := TakeTurn(q, script, events);
      events := events + [e];
    }
    seen := |events|;
    while true
      invariant InOrder(script, events, q.items, |events|) && AlwaysPrefix(script, events)
                && IdleWhenEmpty(script, events)
      invariant seen <= |events| && forall k | seen <= k < |events| :: events[k].Yield?
      decreases if |events| < |script| then |script| - |events| else 0, |q.items|
    {
      var e := TakeTurn(q, script, events);
      events := events + [e];
      if e.Idle? { break; }
    }
  }

  lemma NothingYet<T>(script: seq<Turn<T>>)
    ensures InOrder(script, [], [], 0) && AlwaysPrefix(script, []) && IdleWhenEmpty(script, [])
  {
    assert First(script, 0) == [];
  }

  // ---- one subscription ----

  function Of<T>(ws: seq<Wrapped<T>>, subscription: string): seq<T> {
    if ws == [] then []
    else
      var n := |ws| - 1;
      Of(ws[..n], subscription) + if ws[n].subscription == subscription then [ws[n].message] else []
  }

  lemma {:induction false} OfAppend<T>(a: seq<Wrapped<T>>, b: seq<Wrapped<T>>, subscription: string)
    ensures Of(a + b, subscription) == Of(a, subscription) + Of(b, subscription)
  {
    if b == [] {
      assert a + b == a;
    } else {
      var n := |b| - 1;
      assert (a + b)[..|a| + n] == a + b[..n];
      OfAppend(a, b[..n], subscription);
    }
  }

  /** Order within one subscription: at every moment the messages yielded from it are a prefix of those scheduled. */
  lemma SubscriptionInOrder<T>(script: seq<Turn<T>>, events: seq<Event<T>>, k: nat, subscription: string)
    requires AlwaysPrefix(script, events) && k <= |events|
    ensures Of(Yielded(events[..k]), subscription) <= Of(Scheduled(First(script, k)), subscription)
  {
    var y, s := Yielded(events[..k]), Scheduled(First(script, k));
    assert IsPrefix(script, events[..k]);
    OfAppend(y, s[|y|..], subscription);
    assert y + s[|y|..] == s;
  }
}
