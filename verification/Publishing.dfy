/** Publish, queue and replicate: every interleaving of venues' updates, heartbeats, subscriptions,
    writes, drains, closes and client reads on one symbol's book. */
module Publishing {
  import opened Levels
  import opened Aggregate
  import opened AggregateBook
  import opened Wire
  import opened Queues

  const QUEUE_CAPACITY: Capacity := 256

  /** One L2 stream: its queue, what its handler holds (captured or drained, not yet written), what
      is on the wire, and the client at the other end. `ended` once the handler has unsubscribed. */
  datatype L2Stream = L2Stream(
    queue: Queue<L2Update>, wroteInitial: bool, batch: seq<L2Update>, channel: seq<L2Update>, ended: bool,
    client: Replica)

  /** One top-of-book stream; `offered` is the initial message and every later broadcast, `taken` what
      its handler got to write: the initial message and everything drained. */
  datatype BboStream = BboStream(mailbox: Mailbox<BboUpdate>, offered: seq<BboUpdate>, taken: seq<BboUpdate>)

  /** `history[k]` is the aggregate at revision k. */
  datatype Server = Server(
    venues: Venues, agg: Book, seqNo: nat, lastBid: Option<Level>, lastAsk: Option<Level>,
    history: seq<Book>, l2: map<nat, L2Stream>, bbo: map<nat, BboStream>)

  const START := Server(map[], EMPTY_BOOK, 0, None, None, [EMPTY_BOOK], map[], map[])

  datatype Event =
    | Ingest(op: AggregateBook.Op, venues: Venues, agg: Book, bids: seq<Level>, asks: seq<Level>)
    | SendHeartbeat
    | SubscribeL2(id: nat)
    | WriteInitial(id: nat, ok: bool)
    | DrainL2(id: nat)
    | WriteNext(id: nat, ok: bool)
    | Cancel(id: nat)
    | ClientReads(id: nat)
    | SubscribeBbo(id: nat)
    | BboWrote(id: nat)
    | DrainBbo(id: nat)
    | EndBbo(id: nat)

  // ----- steps -----

  function OfferL2(t: L2Stream, m: L2Update): L2Stream {
    if t.ended then t else t.(queue := Push(t.queue, m))
  }

  function BroadcastL2(l2: map<nat, L2Stream>, m: L2Update): map<nat, L2Stream> {
    map id | id in l2 :: OfferL2(l2[id], m)
  }

  function OfferBbo(t: BboStream, m: BboUpdate): BboStream {
    t.(mailbox := Advance(t.mailbox, PushOp(m)), offered := t.offered + [m])
  }

  function NewBboStream(initial: BboUpdate): BboStream {
    BboStream(Mailbox(Fresh(QUEUE_CAPACITY, DropOldest), []), [initial], [initial])
  }

  function DrainTop(t: BboStream): BboStream {
    t.(mailbox := Advance(t.mailbox, DrainOp), taken := t.taken + t.mailbox.queue.items)
  }

  function BroadcastBbo(bbo: map<nat, BboStream>, m: BboUpdate): map<nat, BboStream> {
    map id | id in bbo :: OfferBbo(bbo[id], m)
  }

  /** One revision: a sequence number, a diff to every L2 stream, and a Bbo if the top moved. */
  function PublishRevision(s: Server, diff: L2Update, top: BboUpdate): Server
    requires top.Bbo?
  {
    var s' := s.(seqNo := s.seqNo + 1, history := s.history + [s.agg], l2 := BroadcastL2(s.l2, diff));
    if top.bid == s.lastBid && top.ask == s.lastAsk then s'
    else s'.(lastBid := top.bid, lastAsk := top.ask, bbo := BroadcastBbo(s.bbo, top))
  }

  /** The two messages of one revision. */
  datatype Messages = Messages(diff: L2Update, top: BboUpdate)

  /** What the reports of an operation give to publish as revision n, if anything. */
  function MessagesFor(n: nat, agg: Book, bids: seq<Level>, asks: seq<Level>): (m: Option<Messages>)
    ensures m.Some? ==> m.value.top.Bbo?
  {
    if bids == [] && asks == [] then None else Some(Messages(BuildDiff(n, bids, asks), BuildBbo(n, agg)))
  }

  function PublishIf(s: Server, m: Option<Messages>): Server
    requires m.Some? ==> m.value.top.Bbo?
  {
    if m.None? then s else PublishRevision(s, m.value.diff, m.value.top)
  }

  function Publish(s: Server, bids: seq<Level>, asks: seq<Level>): Server {
    PublishIf(s, MessagesFor(s.seqNo + 1, s.agg, bids, asks))
  }

  function UpdateL2(s: Server, id: nat, t: L2Stream): Server {
    s.(l2 := s.l2[id := t])
  }

  predicate IsHandlerEvent(ev: Event) {
    ev.WriteInitial? || ev.DrainL2? || ev.WriteNext? || ev.Cancel? || ev.ClientReads?
  }

  /** What a handler or a client does to its own stream. A failed write, a close and a cancellation
      unsubscribe; whatever is pushed between the failure and the unsubscribe reaches nobody. */
  function Handle(t: L2Stream, ev: Event): L2Stream {
    match ev
    case WriteInitial(_, ok) =>
      if t.wroteInitial then t
      else
        var u := t.(queue := EndBootstrap(t.queue), wroteInitial := true, batch := []);
        if ok then u.(channel := t.channel + t.batch) else u.(ended := true)
    case DrainL2(_) =>
      if !t.wroteInitial || t.ended || t.batch != [] then t
      else if t.queue.closed then t.(ended := true)
      else t.(batch := t.queue.items, queue := Drained(t.queue))
    case WriteNext(_, ok) =>
      if !t.wroteInitial || t.batch == [] then t
      else if ok then t.(channel := t.channel + [t.batch[0]], batch := t.batch[1..])
      else t.(batch := [], ended := true)
    case Cancel(_) => if !t.wroteInitial || t.batch != [] then t else t.(ended := true)
    case ClientReads(_) =>
      if t.channel == [] then t else t.(channel := t.channel[1..], client := Read(t.client, t.channel[0]))
    case _ => t
  }

  /** An event that cannot happen in this state changes nothing. */
  function Step(s: Server, ev: Event): Server {
    match ev
    case Ingest(_, venues, agg, bids, asks) => Publish(s.(venues := venues, agg := agg), bids, asks)
    case SendHeartbeat =>
      s.(l2 := BroadcastL2(s.l2, L2Heartbeat(s.venues.Keys)), bbo := BroadcastBbo(s.bbo, BboHeartbeat(s.venues.Keys)))
    case SubscribeL2(id) =>
      if id in s.l2 then s
      else UpdateL2(s, id, L2Stream(
        Fresh(QUEUE_CAPACITY, Close), false, [BuildSnapshot(s.seqNo, s.agg)], [], false, NEW_REPLICA))
    case WriteInitial(id, _) => if id in s.l2 then UpdateL2(s, id, Handle(s.l2[id], ev)) else s
    case DrainL2(id) => if id in s.l2 then UpdateL2(s, id, Handle(s.l2[id], ev)) else s
    case WriteNext(id, _) => if id in s.l2 then UpdateL2(s, id, Handle(s.l2[id], ev)) else s
    case Cancel(id) => if id in s.l2 then UpdateL2(s, id, Handle(s.l2[id], ev)) else s
    case ClientReads(id) => if id in s.l2 then UpdateL2(s, id, Handle(s.l2[id], ev)) else s
    case SubscribeBbo(id) =>
      if id in s.bbo then s
      else s.(bbo := s.bbo[id := NewBboStream(BuildBbo(s.seqNo, s.agg))])
    case BboWrote(id) =>
      if id !in s.bbo then s
      else s.(bbo := s.bbo[id := s.bbo[id].(mailbox := Advance(s.bbo[id].mailbox, EndBootstrapOp))])
    case DrainBbo(id) =>
      if id !in s.bbo then s
      else s.(bbo := s.bbo[id := DrainTop(s.bbo[id])])
    case EndBbo(id) => s.(bbo := s.bbo - {id})
  }

  function Reach(events: seq<Event>): Server {
    if events == [] then START else Step(Reach(events[..|events| - 1]), events[|events| - 1])
  }

  /** An ingest step does to the book what the aggregate promises for its operation. */
  ghost predicate Legal(s: Server, ev: Event) {
    ev.Ingest? ==> Performed(ev.op, s.venues, s.agg, ev.venues, ev.agg, ev.bids, ev.asks)
  }

  ghost predicate LegalRun(events: seq<Event>) {
    events != [] ==> LegalRun(events[..|events| - 1]) && Legal(Reach(events[..|events| - 1]), events[|events| - 1])
  }

  // ----- the book, its history and its best levels -----

  /** The aggregate is the sum over venues, history ends in it, and the cached top is its top. */
  ghost predicate BookOk(s: Server) {
    && Aggregates(s.venues, s.agg)
    && |s.history| == s.seqNo + 1 && s.history[s.seqNo] == s.agg
    && s.lastBid == Best(s.agg.bids, true) && s.lastAsk == Best(s.agg.asks, false)
  }

  /** Only publishing touches the book, its sequence number, its history and the cached top. */
  lemma OnlyIngestTouchesBook(s: Server, ev: Event)
    requires !ev.Ingest?
    ensures
      var next := Step(s, ev);
      next == s.(l2 := next.l2, bbo := next.bbo)
  {
  }

  lemma RevisionEffect(s: Server, diff: L2Update, top: BboUpdate)
    requires top.Bbo?
    ensures
      var next := PublishRevision(s, diff, top);
      && next.venues == s.venues && next.agg == s.agg && next.seqNo == s.seqNo + 1
      && next.history == s.history + [s.agg] && next.l2 == BroadcastL2(s.l2, diff)
      && next.lastBid == top.bid && next.lastAsk == top.ask
  {
  }

  lemma PublishEffect(s: Server, bids: seq<Level>, asks: seq<Level>)
    ensures
      var next := Publish(s, bids, asks);
      var quiet := bids == [] && asks == [];
      && next.venues == s.venues && next.agg == s.agg
      && next.seqNo == (if quiet then s.seqNo else s.seqNo + 1)
      && next.history == (if quiet then s.history else s.history + [s.agg])
      && (!quiet ==> next.lastBid == Best(s.agg.bids, true) && next.lastAsk == Best(s.agg.asks, false))
      && (quiet ==> next == s)
      && next.l2 == (if quiet then s.l2 else BroadcastL2(s.l2, BuildDiff(s.seqNo + 1, bids, asks)))
  {
    RevisionEffect(s, BuildDiff(s.seqNo + 1, bids, asks), BuildBbo(s.seqNo + 1, s.agg));
  }

  /** Either the top did not move, or its Bbo went to every subscriber. */
  lemma PublishBboEffect(s: Server, bids: seq<Level>, asks: seq<Level>)
    ensures
      var next, m := Publish(s, bids, asks), BuildBbo(s.seqNo + 1, s.agg);
      || (next.bbo == s.bbo && next.lastBid == s.lastBid && next.lastAsk == s.lastAsk)
      || (next.bbo == BroadcastBbo(s.bbo, m) && next.lastBid == m.bid && next.lastAsk == m.ask)
  {
    if bids != [] || asks != [] {
      RevisionBbo(s, BuildDiff(s.seqNo + 1, bids, asks), BuildBbo(s.seqNo + 1, s.agg));
    }
  }

  lemma RevisionBbo(s: Server, diff: L2Update, top: BboUpdate)
    requires top.Bbo?
    ensures
      var next := PublishRevision(s, diff, top);
      || (next.bbo == s.bbo && next.lastBid == s.lastBid && next.lastAsk == s.lastAsk)
      || (next.bbo == BroadcastBbo(s.bbo, top) && next.lastBid == top.bid && next.lastAsk == top.ask)
  {
  }

  lemma StepBookOk(s: Server, ev: Event)
    requires BookOk(s) && Legal(s, ev)
    ensures BookOk(Step(s, ev))
    ensures s.history <= Step(s, ev).history
  {
    if ev.Ingest? {
      PublishEffect(s.(venues := ev.venues, agg := ev.agg), ev.bids, ev.asks);
      if ev.bids == [] && ev.asks == [] {
        SilentIngest(s, ev);
      }
    } else {
      OnlyIngestTouchesBook(s, ev);
    }
  }

  /** No report means no change. */
  lemma SilentIngest(s: Server, ev: Event)
    requires ev.Ingest? && Legal(s, ev) && ev.bids == [] && ev.asks == []
    ensures ev.agg == s.agg
  {
    assert ApplyLevels(s.agg.bids, []) == s.agg.bids && ApplyLevels(s.agg.asks, []) == s.agg.asks;
  }

  lemma {:induction false} RunBookOk(events: seq<Event>)
    requires LegalRun(events)
    ensures BookOk(Reach(events))
  {
    if events == [] {
      assert BidsOf(map[]) == map[] && AsksOf(map[]) == map[];
    } else {
      RunBookOk(events[..|events| - 1]);
      StepBookOk(Reach(events[..|events| - 1]), events[|events| - 1]);
    }
  }

  /** A revision is published exactly when the book changed; a batch that repeats a price publishes
      exactly when some entry differs from what the venue had. */
  lemma SeqAdvancesIff(s: Server, ev: Event)
    requires BookOk(s) && Legal(s, ev) && ev.Ingest?
    ensures
      var next, op := Step(s, ev), ev.op;
      var moved := op.BatchOp? && Accepted(op) &&
        exists p :: Moves(op.bids, BookOf(s.venues, op.venue).bids, p) || Moves(op.asks, BookOf(s.venues, op.venue).asks, p);
      && next.seqNo == s.seqNo + (if ev.bids == [] && ev.asks == [] then 0 else 1)
      && (!op.BatchOp? || (Distinct(op.bids) && Distinct(op.asks)) ==> (next.seqNo > s.seqNo <==> next.agg != s.agg))
      && (op.BatchOp? ==> (next.seqNo > s.seqNo <==> moved))
  {
    PublishEffect(s.(venues := ev.venues, agg := ev.agg), ev.bids, ev.asks);
    if ev.bids == [] && ev.asks == [] {
      SilentIngest(s, ev);
      assert forall p :: !Lists(ev.bids, p) && !Lists(ev.asks, p);
    } else {
      var p := if ev.bids != [] then ev.bids[0].price else ev.asks[0].price;
      assert ev.bids != [] ==> Lists(ev.bids, p);
      assert ev.bids == [] ==> Lists(ev.asks, p);
    }
  }

  /** What the server held at any earlier moment is in the history under its revision. */
  lemma {:induction false} HistoryRemembers(events: seq<Event>, j: nat)
    requires LegalRun(events) && j <= |events|
    ensures LegalRun(events[..j])
    ensures Reach(events[..j]).seqNo < |Reach(events).history|
    ensures Reach(events).history[Reach(events[..j]).seqNo] == Reach(events[..j]).agg
    ensures Reach(events[..j]).seqNo <= Reach(events).seqNo
    decreases |events|
  {
    RunBookOk(events);
    if j == |events| {
      assert events[..j] == events;
    } else {
      var init := events[..|events| - 1];
      assert init[..j] == events[..j];
      HistoryRemembers(init, j);
      RunBookOk(init);
      StepBookOk(Reach(init), events[|events| - 1]);
    }
  }
}
