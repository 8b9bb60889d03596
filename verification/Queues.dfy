/** One subscriber's bounded mailbox. */
module Queues {
  datatype OverflowPolicy = Close | DropOldest

  /** A queue always has room for at least one message. */
  type Capacity = c: nat | c > 0 witness 1

  datatype Queue<T> = Queue(items: seq<T>, capacity: Capacity, policy: OverflowPolicy, closed: bool, bootstrapping: bool)

  const BOOTSTRAP_MULTIPLIER := 4

  function Fresh<T>(capacity: Capacity, policy: OverflowPolicy): Queue<T> {
    Queue([], capacity, policy, false, true)
  }

  function Limit<T>(q: Queue<T>): nat {
    if q.bootstrapping then q.capacity * BOOTSTRAP_MULTIPLIER else q.capacity
  }

  function Push<T>(q: Queue<T>, m: T): Queue<T> {
    if q.closed then q
    else if |q.items| < Limit(q) then q.(items := q.items + [m])
    else if q.policy.Close? then q.(items := [], closed := true)
    else q.(items := q.items[1..] + [m])
  }

  function EndBootstrap<T>(q: Queue<T>): Queue<T> {
    q.(bootstrapping := false)
  }

  /** What a drain takes: everything, or nothing from a closed queue. */
  function Drained<T>(q: Queue<T>): Queue<T> {
    q.(items := [])
  }

  function PushAll<K, T>(queues: map<K, Queue<T>>, m: T): map<K, Queue<T>> {
    map k | k in queues :: Push(queues[k], m)
  }

  datatype Op<T> = PushOp(m: T) | EndBootstrapOp | DrainOp

  /** A queue together with everything pushed since the last drain. */
  datatype Mailbox<T> = Mailbox(queue: Queue<T>, pushed: seq<T>)

  function Advance<T>(b: Mailbox<T>, op: Op<T>): Mailbox<T> {
    match op
    case PushOp(m) => Mailbox(Push(b.queue, m), b.pushed + [m])
    case EndBootstrapOp => b.(queue := EndBootstrap(b.queue))
    case DrainOp => Mailbox(Drained(b.queue), [])
  }

  function Run<T>(capacity: Capacity, policy: OverflowPolicy, ops: seq<Op<T>>): (b: Mailbox<T>)
    ensures b.queue.capacity == capacity && b.queue.policy == policy
  {
    if ops == [] then Mailbox(Fresh(capacity, policy), [])
    else Advance(Run(capacity, policy, ops[..|ops| - 1]), ops[|ops| - 1])
  }

  function Min(a: nat, b: nat): nat {
    if a < b then a else b
  }

  ghost predicate Suffix<T>(s: seq<T>, all: seq<T>) {
    |s| <= |all| && s == all[|all| - |s|..]
  }

  /** What a DropOldest queue holds of everything pushed since the last drain. */
  ghost predicate HoldsNewest<T>(b: Mailbox<T>) {
    && !b.queue.closed
    && Suffix(b.queue.items, b.pushed)
    && Min(|b.pushed|, b.queue.capacity) <= |b.queue.items| <= b.queue.capacity * BOOTSTRAP_MULTIPLIER
    && (!b.queue.bootstrapping || |b.queue.items| == Min(|b.pushed|, b.queue.capacity * BOOTSTRAP_MULTIPLIER))
  }

  lemma PushHoldsNewest<T>(b: Mailbox<T>, m: T)
    requires b.queue.policy.DropOldest? && HoldsNewest(b)
    ensures HoldsNewest(Advance(b, PushOp(m)))
  {
    var q, all := b.queue, b.pushed + [m];
    var next := Push(q, m);
    var k := |b.pushed| - |q.items|;
    assert q.items + [m] == all[k..];
    if |q.items| >= Limit(q) {
      assert next.items == all[k + 1..];
    }
  }

  /** A DropOldest queue never closes; it always holds a contiguous suffix of what was pushed since
      the last drain, at least the newest `capacity` of it and never more than four times that. */
  lemma {:induction false} DropOldestHoldsNewest<T>(capacity: Capacity, ops: seq<Op<T>>)
    ensures HoldsNewest(Run(capacity, DropOldest, ops))
  {
    if ops != [] {
      var init, op := ops[..|ops| - 1], ops[|ops| - 1];
      DropOldestHoldsNewest(capacity, init);
      var b := Run(capacity, DropOldest, init);
      if op.PushOp? {
        PushHoldsNewest(b, op.m);
      }
    }
  }

  /** So a message is lost only behind at least `capacity` newer ones. */
  lemma LostOnlyBehindCapacity<T>(b: Mailbox<T>, i: nat)
    requires HoldsNewest(b) && i < |b.pushed|
    ensures |b.pushed| - 1 - i < b.queue.capacity ==>
      var k := |b.pushed| - |b.queue.items|;
      k <= i && b.queue.items[i - k] == b.pushed[i]
  {
  }

  /** A Close queue loses nothing while it is open, and is empty once closed. */
  ghost predicate LosesNothing<T>(b: Mailbox<T>) {
    if b.queue.closed then b.queue.items == [] else b.queue.items == b.pushed
  }

  lemma {:induction false} CloseLosesNothing<T>(capacity: Capacity, ops: seq<Op<T>>)
    ensures LosesNothing(Run(capacity, Close, ops))
  {
    if ops != [] {
      CloseLosesNothing(capacity, ops[..|ops| - 1]);
    }
  }

  // ----- told from the operations alone -----

  /** Everything pushed since the last drain. */
  function SinceDrain<T>(ops: seq<Op<T>>): seq<T> {
    if ops == [] then []
    else
      var last := ops[|ops| - 1];
      if last.DrainOp? then []
      else SinceDrain(ops[..|ops| - 1]) + (if last.PushOp? then [last.m] else [])
  }

  predicate BootstrapEnded<T>(ops: seq<Op<T>>) {
    ops != [] && (ops[|ops| - 1].EndBootstrapOp? || BootstrapEnded(ops[..|ops| - 1]))
  }

  /** The last drain came after the bootstrap. */
  predicate DrainedSince<T>(ops: seq<Op<T>>) {
    ops != [] &&
    (if ops[|ops| - 1].DrainOp? then BootstrapEnded(ops[..|ops| - 1]) else DrainedSince(ops[..|ops| - 1]))
  }

  lemma {:induction false} RunKeepsCount<T>(capacity: Capacity, policy: OverflowPolicy, ops: seq<Op<T>>)
    ensures Run(capacity, policy, ops).pushed == SinceDrain(ops)
    ensures Run(capacity, policy, ops).queue.bootstrapping <==> !BootstrapEnded(ops)
  {
    if ops != [] { RunKeepsCount(capacity, policy, ops[..|ops| - 1]); }
  }

  /** A Close queue closes exactly when one more message arrives on top of its limit of messages pushed
      since the last drain: four times the capacity until the bootstrap ends, the capacity from then on. */
  lemma ClosesExactlyAtLimit<T>(capacity: Capacity, ops: seq<Op<T>>, op: Op<T>)
    ensures
      var limit := if BootstrapEnded(ops) then capacity else 4 * capacity;
      (Run(capacity, Close, ops + [op]).queue.closed)
        <==> (Run(capacity, Close, ops).queue.closed || (op.PushOp? && |SinceDrain(ops)| >= limit))
  {
    assert (ops + [op])[..|ops|] == ops;
    RunKeepsCount(capacity, Close, ops);
    CloseLosesNothing(capacity, ops);
  }

  lemma BootstrapEndStays<T>(ops: seq<Op<T>>)
    ensures DrainedSince(ops) ==> BootstrapEnded(ops)
  {
  }

  /** A DropOldest queue holds exactly the newest messages up to its limit, while bootstrapping and again
      from the first drain after it; in between it may still hold what the bootstrap left. */
  lemma {:induction false} DropOldestExactly<T>(capacity: Capacity, ops: seq<Op<T>>)
    ensures
      var n, held := |SinceDrain(ops)|, |Run(capacity, DropOldest, ops).queue.items|;
      && (!BootstrapEnded(ops) ==> held == Min(n, 4 * capacity))
      && (DrainedSince(ops) ==> held == Min(n, capacity))
  {
    RunKeepsCount(capacity, DropOldest, ops);
    DropOldestHoldsNewest(capacity, ops);
    if ops != [] {
      DropOldestExactly(capacity, ops[..|ops| - 1]);
      RunKeepsCount(capacity, DropOldest, ops[..|ops| - 1]);
      BootstrapEndStays(ops[..|ops| - 1]);
      DropOldestHoldsNewest(capacity, ops[..|ops| - 1]);
    }
  }
}
