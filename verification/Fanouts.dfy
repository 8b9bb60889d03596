/** The mailbox and the fan-out as objects. */
module Fanouts {
  import opened Queues

  datatype PushResult = Pushed | ClosedNow | AlreadyClosed
  datatype DrainResult = TimedOut | DrainedSome | ClosedByOverflow

  class SubscriberQueue<T> {
    const capacity: Capacity
    const policy: OverflowPolicy
    var items: seq<T>
    var closed: bool
    var bootstrapping: bool

    function State(): Queue<T>
      reads this
    {
      Queue(items, capacity, policy, closed, bootstrapping)
    }

    constructor (capacity: Capacity, policy: OverflowPolicy)
      ensures State() == Fresh(capacity, policy)
    {
      this.capacity, this.policy := capacity, policy;
      items, closed, bootstrapping := [], false, true;
    }

    method PushOrClose(update: T) returns (result: PushResult)
      modifies this
      ensures State() == Push(old(State()), update)
      ensures result.AlreadyClosed? <==> old(closed)
      ensures result.ClosedNow? <==> closed && !old(closed)
    {
      if closed { return AlreadyClosed; }
      var effective := if bootstrapping then capacity * BOOTSTRAP_MULTIPLIER else capacity;
      if |items| >= effective {
        if policy.Close? {
          closed, items := true, [];
          return ClosedNow;
        }
        items := items[1..];
      }
      items := items + [update];
      return Pushed;
    }

    method EndBootstrap()
      modifies this
      ensures State() == Queues.EndBootstrap(old(State()))
    {
      bootstrapping := false;
    }

    /** Takes everything queued, front first; a close takes priority. */
    method WaitAndDrain() returns (result: DrainResult, out: seq<T>)
      modifies this
      ensures old(closed) ==> result.ClosedByOverflow? && out == [] && State() == old(State())
      ensures !old(closed) ==> out == old(items) && State() == Drained(old(State()))
      ensures !old(closed) ==> (result.DrainedSome? <==> old(items) != [])
    {
      out := [];
      if closed { return ClosedByOverflow, []; }
      if items == [] { return TimedOut, []; }
      while items != []
        invariant out + items == old(items)
        invariant State() == old(State()).(items := items)
        decreases |items|
      {
        out := out + [items[0]];
        items := items[1..];
      }
      result := DrainedSome;
    }
  }

  /** Those of `queues` that are not closed. */
  ghost function Open<K, T>(states: map<K, Queue<T>>, queues: set<K>): set<K> {
    set q | q in queues && q in states && !states[q].closed
  }

  /** The queues with `m` pushed into all but those `left`. */
  ghost function PushSome<K, T>(queues: map<K, Queue<T>>, left: set<K>, m: T): map<K, Queue<T>> {
    map k | k in queues :: if k in left then queues[k] else Push(queues[k], m)
  }

  lemma PushSomeEnds<K, T>(queues: map<K, Queue<T>>, m: T)
    ensures PushSome(queues, queues.Keys, m) == queues && PushSome(queues, {}, m) == PushAll(queues, m)
  {
  }

  lemma PushSomeStep<K, T>(queues: map<K, Queue<T>>, left: set<K>, q: K, m: T)
    requires q in left && left <= queues.Keys
    ensures PushSome(queues, left, m)[q := Push(PushSome(queues, left, m)[q], m)] == PushSome(queues, left - {q}, m)
    ensures PushSome(queues, left, m)[q] == queues[q]
    ensures Open(queues, queues.Keys - (left - {q}))
         == Open(queues, queues.Keys - left) + (if queues[q].closed then {} else {q})
  {
  }

  /** One stream's subscribers, keyed by their queue. */
  class Fanout<T> {
    const capacity: Capacity
    const policy: OverflowPolicy
    var subscribers: set<SubscriberQueue<T>>

    ghost predicate Valid()
      reads this
    {
      forall q :: q in subscribers ==> q.capacity == capacity && q.policy == policy
    }

    /** Every subscriber's queue. */
    ghost function States(): map<SubscriberQueue<T>, Queue<T>>
      reads this, subscribers
    {
      map q | q in subscribers :: q.State()
    }

    constructor (capacity: Capacity, policy: OverflowPolicy)
      ensures Valid() && subscribers == {} && States() == map[] && this.capacity == capacity && this.policy == policy
    {
      this.capacity, this.policy, subscribers := capacity, policy, {};
    }

    method Subscribe() returns (queue: SubscriberQueue<T>)
      requires Valid()
      modifies this
      ensures Valid() && fresh(queue) && queue.State() == Fresh(capacity, policy)
      ensures subscribers == old(subscribers) + {queue}
      ensures States() == old(States())[queue := Fresh(capacity, policy)]
    {
      queue := new SubscriberQueue(capacity, policy);
      subscribers := subscribers + {queue};
    }

    method Unsubscribe(queue: SubscriberQueue<T>)
      requires Valid()
      modifies this
      ensures Valid() && subscribers == old(subscribers) - {queue}
      ensures States() == old(States()) - {queue}
    {
      subscribers := subscribers - {queue};
    }

    /** Pushes into every subscriber's queue; returns those that changed. */
    method Broadcast(update: T) returns (toNotify: set<SubscriberQueue<T>>)
      requires Valid()
      modifies subscribers
      ensures Valid()
      ensures States() == PushAll(old(States()), update)
      ensures toNotify == Open(old(States()), subscribers)
    {
      ghost var before := States();
      toNotify := {};
      var left := subscribers;
      PushSomeEnds(before, update);
      while left != {}
        invariant left <= subscribers && Delivering(before, left, update, toNotify)
        decreases |left|
      {
        left, toNotify := Deliver(before, left, toNotify, update);
      }
      assert before.Keys - left == before.Keys;
    }

    /** The broadcast loop with `left` still to do. */
    ghost predicate Delivering(before: map<SubscriberQueue<T>, Queue<T>>, left: set<SubscriberQueue<T>>, m: T,
                               toNotify: set<SubscriberQueue<T>>)
      reads this, subscribers
    {
      && before.Keys == subscribers && States() == PushSome(before, left, m)
      && toNotify == Open(before, before.Keys - left)
    }

    method Deliver(ghost before: map<SubscriberQueue<T>, Queue<T>>, left: set<SubscriberQueue<T>>,
                   toNotify: set<SubscriberQueue<T>>, m: T)
      returns (left': set<SubscriberQueue<T>>, toNotify': set<SubscriberQueue<T>>)
      requires left != {} && left <= subscribers && Delivering(before, left, m, toNotify)
      modifies left
      ensures left' <= left && |left'| < |left| && Delivering(before, left', m, toNotify')
    {
      var queue :| queue in left;
      PushSomeStep(before, left, queue, m);
      var result := PushOne(queue, m);
      toNotify' := if result.AlreadyClosed? then toNotify else toNotify + {queue};
      left' := left - {queue};
    }

    method PushOne(queue: SubscriberQueue<T>, update: T) returns (result: PushResult)
      requires queue in subscribers
      modifies queue
      ensures States() == old(States())[queue := Push(old(States())[queue], update)]
      ensures result.AlreadyClosed? <==> old(States())[queue].closed
    {
      result := queue.PushOrClose(update);
    }
  }
}
