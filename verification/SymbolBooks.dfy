/** One symbol's aggregate with its two fan-outs, as an object; each method is one critical section. */
module SymbolBooks {
  import opened Levels
  import opened Aggregate
  import opened AggregateBook
  import opened Wire
  import opened Queues
  import opened Fanouts
  import opened Publishing

  // ----- what the object and a server state have in common -----

  /** Book, sequence number, cached best levels and the subscribers' queues, under any names. */
  datatype BookView<K, J> = BookView(
    venues: Venues, agg: Book, seqNo: nat, lastBid: Option<Level>, lastAsk: Option<Level>,
    l2: map<K, Queue<L2Update>>, bbo: map<J, Queue<BboUpdate>>)

  /** One revision: a diff into every L2 queue, and the Bbo into every other if the top moved. */
  function Revise<K, J>(v: BookView<K, J>, diff: L2Update, top: BboUpdate): BookView<K, J>
    requires top.Bbo?
  {
    v.(seqNo := v.seqNo + 1, lastBid := top.bid, lastAsk := top.ask, l2 := PushAll(v.l2, diff),
       bbo := if top.bid == v.lastBid && top.ask == v.lastAsk then v.bbo else PushAll(v.bbo, top))
  }

  function ReviseIf<K, J>(v: BookView<K, J>, m: Option<Messages>): BookView<K, J>
    requires m.Some? ==> m.value.top.Bbo?
  {
    if m.None? then v else Revise(v, m.value.diff, m.value.top)
  }

  function PublishView<K, J>(v: BookView<K, J>, bids: seq<Level>, asks: seq<Level>): BookView<K, J> {
    ReviseIf(v, MessagesFor(v.seqNo + 1, v.agg, bids, asks))
  }

  function BeatView<K, J>(v: BookView<K, J>): BookView<K, J> {
    v.(l2 := PushAll(v.l2, L2Heartbeat(v.venues.Keys)), bbo := PushAll(v.bbo, BboHeartbeat(v.venues.Keys)))
  }

  class SymbolBook {
    const book: AggregateOrderBook
    const l2: Fanout<L2Update>
    const bbo: Fanout<BboUpdate>
    var seqNo: nat
    var lastBid: Option<Level>
    var lastAsk: Option<Level>

    /** Both streams' queues have the capacity and the overflow policy of their stream. */
    ghost predicate Wired()
      reads this, l2, bbo
    {
      && l2.capacity == bbo.capacity == QUEUE_CAPACITY && l2.policy.Close? && bbo.policy.DropOldest?
      && l2.Valid() && bbo.Valid()
    }

    /** The book is the sum of its venues and the cached best levels are its best levels. */
    ghost predicate Consistent()
      reads this, book
    {
      book.Valid() && lastBid == Best(book.aggregate.bids, true) && lastAsk == Best(book.aggregate.asks, false)
    }

    ghost function View(): BookView<SubscriberQueue<L2Update>, SubscriberQueue<BboUpdate>>
      reads this, book, l2, bbo, l2.subscribers, bbo.subscribers
    {
      BookView(book.venues, book.aggregate, seqNo, lastBid, lastAsk, l2.States(), bbo.States())
    }

    constructor ()
      ensures Wired() && Consistent() && fresh(book) && fresh(l2) && fresh(bbo)
      ensures View() == BookView(map[], EMPTY_BOOK, 0, None, None, map[], map[])
    {
      book := new AggregateOrderBook();
      l2 := new Fanout(QUEUE_CAPACITY, Close);
      bbo := new Fanout(QUEUE_CAPACITY, DropOldest);
      seqNo, lastBid, lastAsk := 0, None, None;
    }

    /** Nothing without reports, otherwise one revision. */
    method Publish(bids: seq<Level>, asks: seq<Level>)
      requires Wired()
      modifies this, l2.subscribers, bbo.subscribers
      ensures Wired() && View() == PublishView(old(View()), bids, asks)
    {
      ghost var was := View();
      var n, agg := seqNo + 1, book.aggregate;
      assert was.seqNo + 1 == n && was.agg == agg;
      var m := MessagesFor(n, agg, bids, asks);
      assert m == MessagesFor(was.seqNo + 1, was.agg, bids, asks);
      PublishIf(m);
      assert View() == ReviseIf(was, m);
    }

    method PublishIf(m: Option<Messages>)
      requires Wired() && (m.Some? ==> m.value.top.Bbo?)
      modifies this, l2.subscribers, bbo.subscribers
      ensures Wired() && View() == ReviseIf(old(View()), m)
    {
      if m.Some? { PublishRevision(m.value.diff, m.value.top); }
    }

    /** One revision's two broadcasts, for messages already built. */
    method PublishRevision(diff: L2Update, top: BboUpdate)
      requires Wired() && top.Bbo?
      modifies this, l2.subscribers, bbo.subscribers
      ensures Wired() && View() == Revise(old(View()), diff, top)
    {
      var moved := top.bid != lastBid || top.ask != lastAsk;
      BroadcastDiff(diff);
      if moved { BroadcastTop(top); }
      NextRevision(top.bid, top.ask);
    }

    method NextRevision(bid: Option<Level>, ask: Option<Level>)
      modifies this
      ensures View() == old(View()).(seqNo := old(seqNo) + 1, lastBid := bid, lastAsk := ask)
    {
      seqNo, lastBid, lastAsk := seqNo + 1, bid, ask;
      assert forall q :: q in l2.subscribers ==> q.State() == old(q.State());
      assert forall q :: q in bbo.subscribers ==> q.State() == old(q.State());
    }

    method BroadcastDiff(m: L2Update)
      requires Wired()
      modifies l2.subscribers
      ensures Wired() && l2.States() == PushAll(old(l2.States()), m) && bbo.States() == old(bbo.States())
    {
      var _ := l2.Broadcast(m);
      assert forall q :: q in bbo.subscribers ==> q.State() == old(q.State());
    }

    method BroadcastTop(m: BboUpdate)
      requires Wired()
      modifies bbo.subscribers
      ensures Wired() && bbo.States() == PushAll(old(bbo.States()), m) && l2.States() == old(l2.States())
    {
      var _ := bbo.Broadcast(m);
      assert forall q :: q in l2.subscribers ==> q.State() == old(q.State());
    }

    /** Publishes the changes that took the aggregate from `before`, whose best levels are cached. */
    method PublishChanges(ghost before: Book, bids: seq<Level>, asks: seq<Level>)
      requires Wired() && book.Valid() && Replays(before.bids, bids, book.aggregate.bids)
      requires Replays(before.asks, asks, book.aggregate.asks)
      requires lastBid == Best(before.bids, true) && lastAsk == Best(before.asks, false)
      modifies this, l2.subscribers, bbo.subscribers
      ensures Wired() && Consistent() && View() == PublishView(old(View()), bids, asks)
    {
      SilentKeepsBook(before, book.aggregate, bids, asks);
      Publish(bids, asks);
    }

    method ApplySnapshot(venue: VenueId, bids: seq<Level>, asks: seq<Level>)
      returns (ok: bool, bidReports: seq<Level>, askReports: seq<Level>)
      requires Wired() && Consistent()
      modifies this, book, l2.subscribers, bbo.subscribers
      ensures Wired() && Consistent() && ok == (AllValid(bids) && AllValid(asks))
      ensures
        var performed := Performed(SnapshotOp(venue, bids, asks), old(book.venues), old(book.aggregate),
                                   book.venues, book.aggregate, bidReports, askReports);
        performed
      ensures View() == PublishView(old(View()).(venues := book.venues, agg := book.aggregate), bidReports, askReports)
    {
      ghost var before := View();
      ok, bidReports, askReports := book.ApplySnapshot(venue, bids, asks);
      assert View() == before.(venues := book.venues, agg := book.aggregate);
      PublishChanges(before.agg, bidReports, askReports);
    }

    method ApplyBatch(venue: VenueId, bids: seq<Level>, asks: seq<Level>)
      returns (ok: bool, bidReports: seq<Level>, askReports: seq<Level>)
      requires Wired() && Consistent()
      modifies this, book, l2.subscribers, bbo.subscribers
      ensures Wired() && Consistent() && ok == (AllValid(bids) && AllValid(asks))
      ensures
        var performed := Performed(BatchOp(venue, bids, asks), old(book.venues), old(book.aggregate),
                                   book.venues, book.aggregate, bidReports, askReports);
        performed
      ensures View() == PublishView(old(View()).(venues := book.venues, agg := book.aggregate), bidReports, askReports)
    {
      ghost var before := View();
      ok, bidReports, askReports := book.ApplyBatch(venue, bids, asks);
      assert View() == before.(venues := book.venues, agg := book.aggregate);
      PublishChanges(before.agg, bidReports, askReports);
    }

    method InvalidateVenue(venue: VenueId) returns (bidReports: seq<Level>, askReports: seq<Level>)
      requires Wired() && Consistent()
      modifies this, book, l2.subscribers, bbo.subscribers
      ensures Wired() && Consistent()
      ensures
        var performed := Performed(InvalidateOp(venue), old(book.venues), old(book.aggregate),
                                   book.venues, book.aggregate, bidReports, askReports);
        performed
      ensures View() == PublishView(old(View()).(venues := book.venues, agg := book.aggregate), bidReports, askReports)
    {
      ghost var before := View();
      bidReports, askReports := book.InvalidateVenue(venue);
      assert View() == before.(venues := book.venues, agg := book.aggregate);
      PublishChanges(before.agg, bidReports, askReports);
    }

    method SendHeartbeat()
      requires Wired()
      modifies l2.subscribers, bbo.subscribers
      ensures Wired() && View() == BeatView(old(View()))
    {
      BroadcastDiff(L2Heartbeat(book.venues.Keys));
      BroadcastTop(BboHeartbeat(book.venues.Keys));
    }

    /** Captures the snapshot and registers the queue in one critical section. */
    method Subscribe() returns (initial: L2Update, queue: SubscriberQueue<L2Update>)
      requires Wired()
      modifies l2
      ensures Wired() && fresh(queue) && initial == BuildSnapshot(seqNo, book.aggregate)
      ensures View() == old(View()).(l2 := old(View()).l2[queue := Fresh(QUEUE_CAPACITY, Close)])
    {
      initial := BuildSnapshot(seqNo, book.aggregate);
      queue := l2.Subscribe();
      assert forall q :: q in bbo.subscribers ==> q.State() == old(q.State());
    }

    /** An ended stream's queue is dropped; nothing is pushed into it any more. */
    method Unsubscribe(queue: SubscriberQueue<L2Update>)
      requires Wired()
      modifies l2
      ensures Wired() && View() == old(View()).(l2 := old(View()).l2 - {queue})
    {
      l2.Unsubscribe(queue);
      assert forall q :: q in bbo.subscribers ==> q.State() == old(q.State());
    }

    method UnsubscribeTop(queue: SubscriberQueue<BboUpdate>)
      requires Wired()
      modifies bbo
      ensures Wired() && View() == old(View()).(bbo := old(View()).bbo - {queue})
    {
      bbo.Unsubscribe(queue);
      assert forall q :: q in l2.subscribers ==> q.State() == old(q.State());
    }

    method SubscribeTop() returns (initial: BboUpdate, queue: SubscriberQueue<BboUpdate>)
      requires Wired()
      modifies bbo
      ensures Wired() && fresh(queue) && initial == BuildBbo(seqNo, book.aggregate)
      ensures View() == old(View()).(bbo := old(View()).bbo[queue := Fresh(QUEUE_CAPACITY, DropOldest)])
    {
      initial := BuildBbo(seqNo, book.aggregate);
      queue := bbo.Subscribe();
      assert forall q :: q in l2.subscribers ==> q.State() == old(q.State());
    }
  }

  /** No report means no change. */
  lemma SilentKeepsBook(before: Book, after: Book, bids: seq<Level>, asks: seq<Level>)
    requires Replays(before.bids, bids, after.bids) && Replays(before.asks, asks, after.asks)
    ensures bids == [] && asks == [] ==> after == before
  {
  }

  // ----- the object simulates the state machine -----

  function L2Queues(l2: map<nat, L2Stream>): map<nat, Queue<L2Update>> {
    map id | id in l2 && !l2[id].ended :: l2[id].queue
  }

  function BboQueues(bbo: map<nat, BboStream>): map<nat, Queue<BboUpdate>> {
    map id | id in bbo :: bbo[id].mailbox.queue
  }

  /** A server state's view: the queues of its streams that have not ended, by stream id. */
  function Observable(s: Server): BookView<nat, nat> {
    BookView(s.venues, s.agg, s.seqNo, s.lastBid, s.lastAsk, L2Queues(s.l2), BboQueues(s.bbo))
  }

  lemma L2Broadcast(l2: map<nat, L2Stream>, m: L2Update)
    ensures L2Queues(BroadcastL2(l2, m)) == PushAll(L2Queues(l2), m)
  {
  }

  lemma BboBroadcast(bbo: map<nat, BboStream>, m: BboUpdate)
    ensures BboQueues(BroadcastBbo(bbo, m)) == PushAll(BboQueues(bbo), m)
  {
  }

  lemma RevisionObserved(s: Server, diff: L2Update, top: BboUpdate)
    requires top.Bbo?
    ensures Observable(Publishing.PublishRevision(s, diff, top)) == Revise(Observable(s), diff, top)
  {
    RevisionEffect(s, diff, top);
    L2Broadcast(s.l2, diff);
    BboBroadcast(s.bbo, top);
  }

  lemma PublishIfObserved(s: Server, m: Option<Messages>)
    requires m.Some? ==> m.value.top.Bbo?
    ensures Observable(Publishing.PublishIf(s, m)) == ReviseIf(Observable(s), m)
  {
    if m.Some? { RevisionObserved(s, m.value.diff, m.value.top); }
  }

  lemma PublishObserved(s: Server, bids: seq<Level>, asks: seq<Level>)
    ensures Observable(Publishing.Publish(s, bids, asks)) == PublishView(Observable(s), bids, asks)
  {
    forall m: Option<Messages> | m.Some? ==> m.value.top.Bbo?
      ensures Observable(Publishing.PublishIf(s, m)) == ReviseIf(Observable(s), m)
    {
      PublishIfObserved(s, m);
    }
  }

  /** Each of the first queues, under its stream id, is the queue of that id; no queue is left out. */
  ghost predicate SameQueues<K, T>(queues: map<K, Queue<T>>, ids: map<nat, K>, byId: map<nat, Queue<T>>) {
    && ids.Keys == byId.Keys && ids.Values == queues.Keys
    && forall id :: id in ids ==> queues[ids[id]] == byId[id]
  }

  /** The object's view `v` and the server state's view `o` are the same, up to naming the queues. */
  ghost predicate Mirrors<K, J>(v: BookView<K, J>, l2Ids: map<nat, K>, bboIds: map<nat, J>, o: BookView<nat, nat>) {
    && v.venues == o.venues && v.agg == o.agg && v.seqNo == o.seqNo && v.lastBid == o.lastBid && v.lastAsk == o.lastAsk
    && SameQueues(v.l2, l2Ids, o.l2) && SameQueues(v.bbo, bboIds, o.bbo)
  }

  lemma PushAllSame<K, T>(queues: map<K, Queue<T>>, ids: map<nat, K>, byId: map<nat, Queue<T>>, m: T)
    requires SameQueues(queues, ids, byId)
    ensures SameQueues(PushAll(queues, m), ids, PushAll(byId, m))
  {
    assert forall id :: id in ids ==> ids[id] in ids.Values;
  }

  lemma ReviseMirrors<K, J>(
      v: BookView<K, J>, l2Ids: map<nat, K>, bboIds: map<nat, J>, o: BookView<nat, nat>, diff: L2Update, top: BboUpdate)
    requires Mirrors(v, l2Ids, bboIds, o) && top.Bbo?
    ensures Mirrors(Revise(v, diff, top), l2Ids, bboIds, Revise(o, diff, top))
  {
    PushAllSame(v.l2, l2Ids, o.l2, diff);
    PushAllSame(v.bbo, bboIds, o.bbo, top);
  }

  lemma PublishMirrors<K, J>(
      v: BookView<K, J>, l2Ids: map<nat, K>, bboIds: map<nat, J>, o: BookView<nat, nat>,
      bids: seq<Level>, asks: seq<Level>)
    requires Mirrors(v, l2Ids, bboIds, o)
    ensures Mirrors(PublishView(v, bids, asks), l2Ids, bboIds, PublishView(o, bids, asks))
  {
    if bids != [] || asks != [] {
      ReviseMirrors(v, l2Ids, bboIds, o, BuildDiff(v.seqNo + 1, bids, asks), BuildBbo(v.seqNo + 1, v.agg));
    }
  }

  /** What ApplySnapshot, ApplyBatch and InvalidateVenue do to the object is the machine's ingest step. */
  lemma IngestSimulated<K, J>(
      v: BookView<K, J>, l2Ids: map<nat, K>, bboIds: map<nat, J>, s: Server, ev: Event)
    requires Mirrors(v, l2Ids, bboIds, Observable(s)) && ev.Ingest?
    ensures Mirrors(PublishView(v.(venues := ev.venues, agg := ev.agg), ev.bids, ev.asks), l2Ids, bboIds,
                    Observable(Step(s, ev)))
  {
    var t := s.(venues := ev.venues, agg := ev.agg);
    assert Step(s, ev) == Publishing.Publish(t, ev.bids, ev.asks);
    PublishObserved(t, ev.bids, ev.asks);
    PublishMirrors(v.(venues := ev.venues, agg := ev.agg), l2Ids, bboIds, Observable(t), ev.bids, ev.asks);
  }

  /** What SendHeartbeat does is the machine's heartbeat step. */
  lemma HeartbeatSimulated<K, J>(v: BookView<K, J>, l2Ids: map<nat, K>, bboIds: map<nat, J>, s: Server)
    requires Mirrors(v, l2Ids, bboIds, Observable(s))
    ensures Mirrors(BeatView(v), l2Ids, bboIds, Observable(Step(s, Event.SendHeartbeat)))
  {
    var live := s.venues.Keys;
    L2Broadcast(s.l2, L2Heartbeat(live));
    BboBroadcast(s.bbo, BboHeartbeat(live));
    PushAllSame(v.l2, l2Ids, L2Queues(s.l2), L2Heartbeat(live));
    PushAllSame(v.bbo, bboIds, BboQueues(s.bbo), BboHeartbeat(live));
  }

  lemma SameWith<K, T>(queues: map<K, Queue<T>>, ids: map<nat, K>, byId: map<nat, Queue<T>>, id: nat, k: K, q: Queue<T>)
    requires SameQueues(queues, ids, byId) && id !in ids && k !in queues
    ensures SameQueues(queues[k := q], ids[id := k], byId[id := q])
  {
    assert forall j :: j in ids ==> ids[j] in ids.Values;
    var all := ids[id := k];
    forall x | x in ids.Values + {k}
      ensures x in all.Values
    {
      if x in ids.Values {
        var j :| j in ids && ids[j] == x;
        assert j in all && all[j] == x;
      } else {
        assert id in all && all[id] == x;
      }
    }
  }

  lemma L2Added(l2: map<nat, L2Stream>, id: nat, stream: L2Stream)
    requires id !in l2 && !stream.ended
    ensures L2Queues(l2[id := stream]) == L2Queues(l2)[id := stream.queue]
  {
  }

  /** What Subscribe does is the machine's subscribe step, for a queue and an id not used before. */
  lemma SubscribeSimulated<K, J>(
      v: BookView<K, J>, l2Ids: map<nat, K>, bboIds: map<nat, J>, s: Server, id: nat, queue: K)
    requires Mirrors(v, l2Ids, bboIds, Observable(s)) && id !in s.l2 && queue !in v.l2
    ensures Mirrors(v.(l2 := v.l2[queue := Fresh(QUEUE_CAPACITY, Close)]), l2Ids[id := queue], bboIds,
                    Observable(Step(s, SubscribeL2(id))))
    ensures Step(s, SubscribeL2(id)).l2[id].batch == [BuildSnapshot(v.seqNo, v.agg)]
  {
    var unread := Fresh(QUEUE_CAPACITY, Close);
    var stream := L2Stream(unread, false, [BuildSnapshot(s.seqNo, s.agg)], [], false, NEW_REPLICA);
    assert Step(s, SubscribeL2(id)) == UpdateL2(s, id, stream);
    L2Added(s.l2, id, stream);
    SameWith(v.l2, l2Ids, L2Queues(s.l2), id, queue, unread);
  }

  /** What SubscribeTop does is the machine's top-of-book subscribe step. */
  lemma SubscribeTopSimulated<K, J>(
      v: BookView<K, J>, l2Ids: map<nat, K>, bboIds: map<nat, J>, s: Server, id: nat, queue: J)
    requires Mirrors(v, l2Ids, bboIds, Observable(s)) && id !in s.bbo && queue !in v.bbo
    ensures Mirrors(v.(bbo := v.bbo[queue := Fresh(QUEUE_CAPACITY, DropOldest)]), l2Ids, bboIds[id := queue],
                    Observable(Step(s, SubscribeBbo(id))))
    ensures Step(s, SubscribeBbo(id)).bbo[id].offered == [BuildBbo(v.seqNo, v.agg)]
  {
    var unread, stream := Fresh(QUEUE_CAPACITY, DropOldest), NewBboStream(BuildBbo(s.seqNo, s.agg));
    assert Step(s, SubscribeBbo(id)) == s.(bbo := s.bbo[id := stream]);
    BboAdded(s.bbo, id, stream);
    SameWith(v.bbo, bboIds, BboQueues(s.bbo), id, queue, unread);
  }

  lemma BboAdded(bbo: map<nat, BboStream>, id: nat, stream: BboStream)
    ensures BboQueues(bbo[id := stream]) == BboQueues(bbo)[id := stream.mailbox.queue]
  {
  }

  /** No other stream uses the queue of this one. */
  ghost predicate Alone<K>(ids: map<nat, K>, id: nat) {
    id in ids && forall j :: j in ids && ids[j] == ids[id] ==> j == id
  }

  lemma SameWithout<K, T>(queues: map<K, Queue<T>>, ids: map<nat, K>, byId: map<nat, Queue<T>>, id: nat)
    requires SameQueues(queues, ids, byId) && Alone(ids, id)
    ensures SameQueues(queues - {ids[id]}, ids - {id}, byId - {id})
  {
    var fewer := ids - {id};
    assert forall j :: j in ids ==> ids[j] in ids.Values;
    forall k | k in ids.Values - {ids[id]}
      ensures k in fewer.Values
    {
      var j :| j in ids && ids[j] == k;
      assert j in fewer && fewer[j] == k;
    }
  }

  lemma L2Ended(l2: map<nat, L2Stream>, id: nat, stream: L2Stream)
    requires stream.ended
    ensures L2Queues(l2[id := stream]) == L2Queues(l2) - {id}
  {
  }

  /** What Unsubscribe does is what any step of the machine that ends the stream does. */
  lemma UnsubscribeSimulated<K, J>(
      v: BookView<K, J>, l2Ids: map<nat, K>, bboIds: map<nat, J>, s: Server, id: nat, ended: L2Stream)
    requires Mirrors(v, l2Ids, bboIds, Observable(s)) && Alone(l2Ids, id) && ended.ended
    ensures Mirrors(v.(l2 := v.l2 - {l2Ids[id]}), l2Ids - {id}, bboIds, Observable(UpdateL2(s, id, ended)))
  {
    L2Ended(s.l2, id, ended);
    SameWithout(v.l2, l2Ids, L2Queues(s.l2), id);
  }

  /** And UnsubscribeTop is its top-of-book end step. */
  lemma UnsubscribeTopSimulated<K, J>(
      v: BookView<K, J>, l2Ids: map<nat, K>, bboIds: map<nat, J>, s: Server, id: nat)
    requires Mirrors(v, l2Ids, bboIds, Observable(s)) && Alone(bboIds, id)
    ensures Mirrors(v.(bbo := v.bbo - {bboIds[id]}), l2Ids, bboIds - {id}, Observable(Step(s, EndBbo(id))))
  {
    assert BboQueues(s.bbo - {id}) == BboQueues(s.bbo) - {id};
    SameWithout(v.bbo, bboIds, BboQueues(s.bbo), id);
  }
}
