/** The top-of-book stream: what a subscriber is offered always ends in the current best levels,
    and its lossy queue gives that message up only behind a full queue of newer ones. */
module TopOfBook {
  import opened Levels
  import opened Wire
  import opened Queues
  import opened Publishing

  /** Message i is the last Bbo; only heartbeats came after it. */
  ghost predicate LatestAt(offered: seq<BboUpdate>, i: nat) {
    && i < |offered| && offered[i].Bbo?
    && forall j :: i < j < |offered| ==> offered[j].BboHeartbeat?
  }

  ghost predicate EndsIn(offered: seq<BboUpdate>, bid: Option<Level>, ask: Option<Level>) {
    exists i: nat :: LatestAt(offered, i) && offered[i].bid == bid && offered[i].ask == ask
  }

  ghost predicate BboOk(bid: Option<Level>, ask: Option<Level>, t: BboStream) {
    && EndsIn(t.offered, bid, ask)
    && t.mailbox.queue.policy.DropOldest? && t.mailbox.queue.capacity == QUEUE_CAPACITY
    && HoldsNewest(t.mailbox)
    && Suffix(t.mailbox.pushed, t.offered)
    && Accounted(t)
  }

  /** Whatever was offered before the last drain was taken, or had `capacity` newer messages behind it. */
  ghost predicate Accounted(t: BboStream) {
    forall j :: 0 <= j < |t.offered| - |t.mailbox.pushed| ==>
      t.offered[j] in t.taken || |t.offered| - 1 - j >= QUEUE_CAPACITY
  }

  lemma DrainAccounts(t: BboStream)
    requires HoldsNewest(t.mailbox) && t.mailbox.queue.capacity == QUEUE_CAPACITY
    requires Suffix(t.mailbox.pushed, t.offered) && Accounted(t)
    ensures Accounted(DrainTop(t))
  {
    var k, items := |t.offered| - |t.mailbox.pushed|, t.mailbox.queue.items;
    forall j | 0 <= j < |t.offered|
      ensures t.offered[j] in t.taken + items || |t.offered| - 1 - j >= QUEUE_CAPACITY
    {
      if j >= k {
        assert t.offered[j] == t.mailbox.pushed[j - k];
        LostOnlyBehindCapacity(t.mailbox, j - k);
      }
    }
  }

  lemma OfferAccounts(t: BboStream, m: BboUpdate)
    requires Suffix(t.mailbox.pushed, t.offered) && Accounted(t)
    ensures Accounted(OfferBbo(t, m))
  {
  }

  ghost predicate BbosOk(s: Server) {
    forall id :: id in s.bbo ==> BboOk(s.lastBid, s.lastAsk, s.bbo[id])
  }

  lemma SuffixSnoc<T>(a: seq<T>, all: seq<T>, m: T)
    requires Suffix(a, all)
    ensures Suffix(a + [m], all + [m])
  {
    assert (all + [m])[|all| - |a|..] == all[|all| - |a|..] + [m];
  }

  lemma OfferKeepsQueue(t: BboStream, m: BboUpdate, bid: Option<Level>, ask: Option<Level>)
    requires BboOk(bid, ask, t)
    ensures m.BboHeartbeat? ==> BboOk(bid, ask, OfferBbo(t, m))
    ensures m.Bbo? ==> BboOk(m.bid, m.ask, OfferBbo(t, m))
  {
    PushHoldsNewest(t.mailbox, m);
    SuffixSnoc(t.mailbox.pushed, t.offered, m);
    OfferAccounts(t, m);
    if m.Bbo? {
      BboBecomesLatest(t.offered, m);
    } else {
      HeartbeatKeepsLatest(t.offered, m, bid, ask);
    }
  }

  lemma HeartbeatKeepsLatest(offered: seq<BboUpdate>, m: BboUpdate, bid: Option<Level>, ask: Option<Level>)
    requires EndsIn(offered, bid, ask) && m.BboHeartbeat?
    ensures EndsIn(offered + [m], bid, ask)
  {
    var i: nat :| LatestAt(offered, i) && offered[i].bid == bid && offered[i].ask == ask;
    var all := offered + [m];
    assert all[i] == offered[i];
    assert LatestAt(all, i);
  }

  lemma BboBecomesLatest(offered: seq<BboUpdate>, m: BboUpdate)
    requires m.Bbo?
    ensures EndsIn(offered + [m], m.bid, m.ask)
  {
    var all := offered + [m];
    assert LatestAt(all, |offered|);
  }

  lemma BroadcastBbosOk(s: Server, m: BboUpdate, bid: Option<Level>, ask: Option<Level>)
    requires BbosOk(s)
    requires if m.Bbo? then m.bid == bid && m.ask == ask else s.lastBid == bid && s.lastAsk == ask
    ensures BbosOk(s.(bbo := BroadcastBbo(s.bbo, m), lastBid := bid, lastAsk := ask))
  {
    forall id | id in s.bbo
      ensures BboOk(bid, ask, OfferBbo(s.bbo[id], m))
    {
      OfferKeepsQueue(s.bbo[id], m, s.lastBid, s.lastAsk);
    }
  }

  lemma PublishBbosOk(s: Server, bids: seq<Level>, asks: seq<Level>)
    requires BbosOk(s)
    ensures BbosOk(Publish(s, bids, asks))
  {
    var m := BuildBbo(s.seqNo + 1, s.agg);
    PublishBboEffect(s, bids, asks);
    BroadcastBbosOk(s, m, m.bid, m.ask);
  }

  lemma SubscribeBboOk(s: Server)
    requires BookOk(s)
    ensures BboOk(s.lastBid, s.lastAsk, NewBboStream(BuildBbo(s.seqNo, s.agg)))
  {
    var m := BuildBbo(s.seqNo, s.agg);
    BboBecomesLatest([], m);
    assert [] + [m] == [m];
  }

  lemma StepBbosOk(s: Server, ev: Event)
    requires BookOk(s) && BbosOk(s)
    ensures BbosOk(Step(s, ev))
  {
    if ev.Ingest? {
      PublishBbosOk(s.(venues := ev.venues, agg := ev.agg), ev.bids, ev.asks);
    } else {
      match ev
      case SendHeartbeat => BroadcastBbosOk(s, BboHeartbeat(s.venues.Keys), s.lastBid, s.lastAsk);
      case SubscribeBbo(id) => SubscribeBboOk(s);
      case _ => QuietBbosOk(s, ev);
    }
  }

  lemma WroteOk(bid: Option<Level>, ask: Option<Level>, t: BboStream)
    requires BboOk(bid, ask, t)
    ensures BboOk(bid, ask, t.(mailbox := Advance(t.mailbox, EndBootstrapOp)))
  {
  }

  lemma DrainOk(bid: Option<Level>, ask: Option<Level>, t: BboStream)
    requires BboOk(bid, ask, t)
    ensures BboOk(bid, ask, DrainTop(t))
  {
    DrainAccounts(t);
  }

  lemma OneBboReplaced(s: Server, id: nat, t: BboStream)
    requires BbosOk(s) && BboOk(s.lastBid, s.lastAsk, t)
    ensures BbosOk(s.(bbo := s.bbo[id := t]))
  {
  }

  lemma L2StepsLeaveBbo(s: Server, ev: Event)
    requires IsHandlerEvent(ev) || ev.SubscribeL2?
    ensures
      var next := Step(s, ev);
      next.bbo == s.bbo && next.lastBid == s.lastBid && next.lastAsk == s.lastAsk
  {
  }

  lemma SameBbosOk(s: Server, next: Server)
    requires BbosOk(s) && next.bbo == s.bbo && next.lastBid == s.lastBid && next.lastAsk == s.lastAsk
    ensures BbosOk(next)
  {
  }

  lemma QuietBbosOk(s: Server, ev: Event)
    requires BbosOk(s) && !ev.Ingest? && !ev.SendHeartbeat? && !ev.SubscribeBbo?
    ensures BbosOk(Step(s, ev))
  {
    match ev
    case BboWrote(id) =>
      if id in s.bbo {
        WroteOk(s.lastBid, s.lastAsk, s.bbo[id]);
        OneBboReplaced(s, id, s.bbo[id].(mailbox := Advance(s.bbo[id].mailbox, EndBootstrapOp)));
      }
    case DrainBbo(id) =>
      if id in s.bbo {
        DrainOk(s.lastBid, s.lastAsk, s.bbo[id]);
        OneBboReplaced(s, id, DrainTop(s.bbo[id]));
      }
    case EndBbo(id) =>
    case _ =>
      L2StepsLeaveBbo(s, ev);
      SameBbosOk(s, Step(s, ev));
  }

  lemma {:induction false} RunBbosOk(events: seq<Event>)
    requires LegalRun(events)
    ensures BbosOk(Reach(events))
  {
    if events != [] {
      var init := events[..|events| - 1];
      RunBbosOk(init);
      RunBookOk(init);
      StepBbosOk(Reach(init), events[|events| - 1]);
    }
  }

  /** An ingest offers every subscriber one Bbo exactly when the best bid or ask changed: the new top,
      under the new revision. */
  lemma OffersExactlyOnMove(s: Server, ev: Event, id: nat)
    requires BookOk(s) && Legal(s, ev) && ev.Ingest? && id in s.bbo
    requires id in Step(s, ev).bbo
    ensures
      var next := Step(s, ev);
      var moved := !(IsTopBid(next.agg.bids, s.lastBid) && IsTopAsk(next.agg.asks, s.lastAsk));
      && IsTopBid(s.agg.bids, s.lastBid) && IsTopAsk(s.agg.asks, s.lastAsk)
      && next.bbo[id].offered == s.bbo[id].offered + (if moved then [Bbo(next.seqNo, next.lastBid, next.lastAsk)] else [])
      && IsTopBid(next.agg.bids, next.lastBid) && IsTopAsk(next.agg.asks, next.lastAsk)
  {
    var next := Step(s, ev);
    StepBookOk(s, ev);
    BestIsTop(s.agg, s.lastBid, s.lastAsk);
    BestIsTop(next.agg, s.lastBid, s.lastAsk);
    BestIsTop(next.agg, next.lastBid, next.lastAsk);
    var t := s.(venues := ev.venues, agg := ev.agg);
    PublishEffect(t, ev.bids, ev.asks);
    PublishOffers(t, ev.bids, ev.asks, id);
    if ev.bids == [] && ev.asks == [] { SilentIngest(s, ev); }
  }

  lemma PublishOffers(s: Server, bids: seq<Level>, asks: seq<Level>, id: nat)
    requires id in s.bbo
    ensures id in Publish(s, bids, asks).bbo
    ensures Publish(s, bids, asks).bbo[id].offered
         == s.bbo[id].offered + NewTop(s, MessagesFor(s.seqNo + 1, s.agg, bids, asks))
  {
    PublishIfOffers(s, MessagesFor(s.seqNo + 1, s.agg, bids, asks), id);
  }

  /** The Bbo a revision offers, if the top moved. */
  function NewTop(s: Server, m: Option<Messages>): seq<BboUpdate>
    requires m.Some? ==> m.value.top.Bbo?
  {
    if m.None? || (m.value.top.bid == s.lastBid && m.value.top.ask == s.lastAsk) then [] else [m.value.top]
  }

  lemma PublishIfOffers(s: Server, m: Option<Messages>, id: nat)
    requires id in s.bbo && (m.Some? ==> m.value.top.Bbo?)
    ensures id in PublishIf(s, m).bbo
    ensures PublishIf(s, m).bbo[id].offered == s.bbo[id].offered + NewTop(s, m)
  {
    if m.Some? { RevisionOffers(s, m.value.diff, m.value.top, id); }
  }

  lemma RevisionOffers(s: Server, diff: L2Update, top: BboUpdate, id: nat)
    requires id in s.bbo && top.Bbo?
    ensures id in PublishRevision(s, diff, top).bbo
    ensures PublishRevision(s, diff, top).bbo[id].offered
         == s.bbo[id].offered + (if top.bid == s.lastBid && top.ask == s.lastAsk then [] else [top])
  {
  }

  /** At every lock release, over every interleaving, the last Bbo offered to a subscriber carries the
      highest bid and the lowest ask of the aggregate; and its handler has taken it, or it is still
      queued, unless at least 256 messages, necessarily heartbeats, came after it. */
  lemma LatestBboIsBest(events: seq<Event>, id: nat) returns (i: nat)
    requires LegalRun(events) && id in Reach(events).bbo
    ensures
      var s, t := Reach(events), Reach(events).bbo[id];
      && LatestAt(t.offered, i)
      && IsTopBid(s.agg.bids, t.offered[i].bid) && IsTopAsk(s.agg.asks, t.offered[i].ask)
      && (t.offered[i] in t.taken || t.offered[i] in t.mailbox.queue.items || |t.offered| - 1 - i >= 256)
      && !t.mailbox.queue.closed && |t.mailbox.queue.items| <= 1024
  {
    var s, t := Reach(events), Reach(events).bbo[id];
    RunBbosOk(events);
    RunBookOk(events);
    assert BboOk(s.lastBid, s.lastAsk, t);
    i :| LatestAt(t.offered, i) && t.offered[i].bid == s.lastBid && t.offered[i].ask == s.lastAsk;
    TakenOrQueued(t, i);
    BestIsTop(s.agg, s.lastBid, s.lastAsk);
  }

  lemma TakenOrQueued(t: BboStream, i: nat)
    requires HoldsNewest(t.mailbox) && t.mailbox.queue.capacity == QUEUE_CAPACITY
    requires Suffix(t.mailbox.pushed, t.offered) && Accounted(t) && i < |t.offered|
    ensures t.offered[i] in t.taken || t.offered[i] in t.mailbox.queue.items || |t.offered| - 1 - i >= QUEUE_CAPACITY
  {
    var k := |t.offered| - |t.mailbox.pushed|;
    if k <= i {
      LostOnlyBehindCapacity(t.mailbox, i - k);
      assert t.mailbox.pushed[i - k] == t.offered[i];
    }
  }
}
