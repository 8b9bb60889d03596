/** Every L2 client's replica is the server's aggregate at the revision it has reached. */
module Replication {
  import opened Levels
  import opened Aggregate
  import opened Wire
  import opened Queues
  import opened Publishing

  // ----- streams of revisions -----

  /** A message takes a replica from one revision of the book to the next. */
  ghost predicate Revises(before: Book, u: L2Update, after: Book) {
    u.L2Diff? && Book(ApplyWire(before.bids, u.bids), ApplyWire(before.asks, u.asks)) == after
  }

  /** From revision k on, the messages are heartbeats and the diffs k+1, k+2, ... without a hole. */
  ghost predicate Follows(history: seq<Book>, k: nat, messages: seq<L2Update>)
    decreases |messages|
  {
    k < |history| &&
    (messages == [] ||
     match messages[0]
     case L2Heartbeat(_) => Follows(history, k, messages[1..])
     case L2Snapshot(_, _, _) => false
     case L2Diff(n, _, _) =>
       n == k + 1 && k + 1 < |history| && Revises(history[k], messages[0], history[k + 1]) &&
       Follows(history, k + 1, messages[1..]))
  }

  function DiffCount(messages: seq<L2Update>): nat {
    if messages == [] then 0 else (if messages[0].L2Diff? then 1 else 0) + DiffCount(messages[1..])
  }

  lemma {:induction false} FollowsConcat(history: seq<Book>, k: nat, a: seq<L2Update>, b: seq<L2Update>)
    ensures DiffCount(a + b) == DiffCount(a) + DiffCount(b)
    ensures Follows(history, k, a + b) <==> Follows(history, k, a) && Follows(history, k + DiffCount(a), b)
    decreases |a|
  {
    if a == [] {
      assert a + b == b;
    } else {
      var all := a + b;
      assert all[0] == a[0] && all[1..] == a[1..] + b;
      FollowsConcat(history, k + (if a[0].L2Diff? then 1 else 0), a[1..], b);
    }
  }

  lemma {:induction false} FollowsLonger(history: seq<Book>, longer: seq<Book>, k: nat, messages: seq<L2Update>)
    requires history <= longer && Follows(history, k, messages)
    ensures Follows(longer, k, messages)
    decreases |messages|
  {
    if messages != [] {
      FollowsLonger(history, longer, k + (if messages[0].L2Diff? then 1 else 0), messages[1..]);
    }
  }

  lemma {:induction false} FollowsBounded(history: seq<Book>, k: nat, messages: seq<L2Update>)
    requires Follows(history, k, messages)
    ensures k + DiffCount(messages) < |history|
    decreases |messages|
  {
    if messages != [] {
      FollowsBounded(history, k + (if messages[0].L2Diff? then 1 else 0), messages[1..]);
    }
  }

  // ----- one stream -----

  /** Everything on its way to the client, oldest first; an ended handler writes nothing more. */
  function Pending(t: L2Stream): seq<L2Update> {
    if t.ended then t.channel else t.channel + t.batch + t.queue.items
  }

  /** The client is at a revision of the history, or waits for its snapshot, and what is on its way
      continues from there. */
  ghost predicate OnTrack(history: seq<Book>, c: Replica, messages: seq<L2Update>) {
    && !c.stopped
    && match c.last
       case Some(k) => Follows(history, k, messages) && c.book == history[k]
       case None =>
         c == NEW_REPLICA && (messages == [] ||
         (messages[0].L2Snapshot? && Follows(history, messages[0].seqNo, messages[1..]) &&
          messages[0] == BuildSnapshot(messages[0].seqNo, history[messages[0].seqNo])))
  }

  /** The revision the client will be at once it has read everything on its way. */
  function Arrives(c: Replica, messages: seq<L2Update>): nat {
    match c.last
    case Some(k) => k + DiffCount(messages)
    case None =>
      if messages == [] || !messages[0].L2Snapshot? then 0 else messages[0].seqNo + DiffCount(messages[1..])
  }

  ghost predicate StreamOk(history: seq<Book>, t: L2Stream) {
    && OnTrack(history, t.client, Pending(t))
    && t.queue.policy.Close? && (t.queue.closed ==> t.queue.items == [])
    && (!t.ended && !t.queue.closed ==> Arrives(t.client, Pending(t)) == |history| - 1)
    && (!t.ended && t.client.last.None? ==> t.channel + t.batch != [])
    && (t.ended ==> t.wroteInitial && t.batch == [])
  }

  ghost predicate StreamsOk(s: Server) {
    forall id :: id in s.l2 ==> StreamOk(s.history, s.l2[id])
  }

  /** Cutting a stream short keeps it on track. */
  lemma OnTrackPrefix(history: seq<Book>, c: Replica, a: seq<L2Update>, b: seq<L2Update>)
    requires OnTrack(history, c, a + b)
    ensures OnTrack(history, c, a)
  {
    match c.last
    case Some(k) => FollowsConcat(history, k, a, b);
    case None =>
      if a != [] {
        assert (a + b)[0] == a[0] && (a + b)[1..] == a[1..] + b;
        FollowsConcat(history, a[0].seqNo, a[1..], b);
      }
  }

  /** The broadcast of one revision, or of a heartbeat, extends every stream that is up to date. */
  ghost predicate Continues(history: seq<Book>, longer: seq<Book>, u: L2Update) {
    && history != [] && history <= longer
    && ((u.L2Heartbeat? && longer == history) ||
        (|longer| == |history| + 1 && u.L2Diff? && u.seqNo == |history| &&
         Revises(history[|history| - 1], u, longer[|history|])))
  }

  lemma FollowsOne(longer: seq<Book>, k: nat, u: L2Update)
    requires k < |longer|
    requires u.L2Heartbeat? || (u.L2Diff? && u.seqNo == k + 1 < |longer| && Revises(longer[k], u, longer[k + 1]))
    ensures Follows(longer, k, [u]) && DiffCount([u]) == if u.L2Diff? then 1 else 0
  {
    assert [u][1..] == [];
  }

  lemma FollowsExtended(history: seq<Book>, longer: seq<Book>, k: nat, a: seq<L2Update>, u: L2Update)
    requires Follows(history, k, a) && k + DiffCount(a) == |history| - 1 && Continues(history, longer, u)
    ensures Follows(longer, k, a + [u]) && k + DiffCount(a + [u]) == |longer| - 1
  {
    FollowsLonger(history, longer, k, a);
    FollowsOne(longer, |history| - 1, u);
    FollowsConcat(longer, k, a, [u]);
  }

  lemma OnTrackExtended(history: seq<Book>, longer: seq<Book>, c: Replica, a: seq<L2Update>, u: L2Update)
    requires OnTrack(history, c, a) && Arrives(c, a) == |history| - 1 && Continues(history, longer, u)
    requires c.last.None? ==> a != []
    ensures OnTrack(longer, c, a + [u]) && Arrives(c, a + [u]) == |longer| - 1
  {
    match c.last
    case Some(k) => FollowsExtended(history, longer, k, a, u);
    case None =>
      assert (a + [u])[0] == a[0] && (a + [u])[1..] == a[1..] + [u];
      FollowsExtended(history, longer, a[0].seqNo, a[1..], u);
  }

  lemma OnTrackLonger(history: seq<Book>, longer: seq<Book>, c: Replica, a: seq<L2Update>)
    requires OnTrack(history, c, a) && history <= longer
    ensures OnTrack(longer, c, a)
  {
    match c.last
    case Some(k) => FollowsLonger(history, longer, k, a);
    case None => if a != [] { FollowsLonger(history, longer, a[0].seqNo, a[1..]); }
  }

  lemma OfferOk(history: seq<Book>, longer: seq<Book>, t: L2Stream, u: L2Update)
    requires StreamOk(history, t) && Continues(history, longer, u)
    ensures StreamOk(longer, OfferL2(t, u))
  {
    var next := OfferL2(t, u);
    OnTrackLonger(history, longer, t.client, Pending(t));
    if t.ended || t.queue.closed {
      assert next == t;
    } else if next.queue.closed {
      var sent := t.channel + t.batch;
      assert Pending(t) == sent + t.queue.items && Pending(next) == sent;
      OnTrackPrefix(longer, t.client, sent, t.queue.items);
    } else {
      assert Pending(next) == Pending(t) + [u];
      OnTrackExtended(history, longer, t.client, Pending(t), u);
    }
  }

  /** A client that reads the next message stays on track: it never meets a gap. */
  lemma ReadOnTrack(history: seq<Book>, c: Replica, messages: seq<L2Update>)
    requires OnTrack(history, c, messages) && messages != []
    requires forall k :: 0 <= k < |history| ==> WellFormed(history[k].bids) && WellFormed(history[k].asks)
    ensures OnTrack(history, Read(c, messages[0]), messages[1..])
    ensures Read(c, messages[0]).last.Some?
    ensures Arrives(Read(c, messages[0]), messages[1..]) == Arrives(c, messages)
  {
    if c.last.None? {
      SnapshotRoundTrip(c, messages[0].seqNo, history[messages[0].seqNo]);
    }
  }

  // ----- all streams -----

  ghost predicate HistoryOk(s: Server) {
    forall k :: 0 <= k < |s.history| ==> WellFormed(s.history[k].bids) && WellFormed(s.history[k].asks)
  }

  lemma BroadcastOk(s: Server, longer: seq<Book>, u: L2Update)
    requires StreamsOk(s) && Continues(s.history, longer, u)
    ensures forall id :: id in s.l2 ==> StreamOk(longer, BroadcastL2(s.l2, u)[id])
  {
    forall id | id in s.l2
      ensures StreamOk(longer, BroadcastL2(s.l2, u)[id])
    {
      OfferOk(s.history, longer, s.l2[id], u);
    }
  }

  /** The diff of a revision takes the previous aggregate to the new one. */
  lemma DiffContinues(history: seq<Book>, after: Book, bids: seq<Level>, asks: seq<Level>)
    requires history != []
    requires var before := history[|history| - 1];
      && WellFormed(before.bids) && Replays(before.bids, bids, after.bids)
      && WellFormed(before.asks) && Replays(before.asks, asks, after.asks)
    ensures Continues(history, history + [after], BuildDiff(|history|, bids, asks))
  {
    var before := history[|history| - 1];
    DiffSideReplays(before.bids, bids, after.bids, true);
    DiffSideReplays(before.asks, asks, after.asks, false);
  }

  lemma IngestFacts(s: Server, ev: Event)
    requires BookOk(s) && Legal(s, ev) && ev.Ingest?
    ensures WellFormed(s.agg.bids) && WellFormed(s.agg.asks) && WellFormed(ev.agg.bids) && WellFormed(ev.agg.asks)
    ensures Replays(s.agg.bids, ev.bids, ev.agg.bids) && Replays(s.agg.asks, ev.asks, ev.agg.asks)
    ensures |s.history| == s.seqNo + 1 && s.history[s.seqNo] == s.agg
  {
  }

  lemma RevisionOk(s: Server, next: Server, bids: seq<Level>, asks: seq<Level>)
    requires HistoryOk(s) && StreamsOk(s) && WellFormed(next.agg.bids) && WellFormed(next.agg.asks)
    requires |s.history| == s.seqNo + 1 && s.history[s.seqNo] == s.agg
    requires Replays(s.agg.bids, bids, next.agg.bids) && Replays(s.agg.asks, asks, next.agg.asks)
    requires next.history == s.history + [next.agg] && next.l2 == BroadcastL2(s.l2, BuildDiff(s.seqNo + 1, bids, asks))
    ensures HistoryOk(next) && StreamsOk(next)
  {
    assert s.agg == s.history[|s.history| - 1];
    DiffContinues(s.history, next.agg, bids, asks);
    BroadcastOk(s, next.history, BuildDiff(s.seqNo + 1, bids, asks));
  }

  lemma PublishOk(s: Server, after: Book, bids: seq<Level>, asks: seq<Level>, venues: Venues)
    requires HistoryOk(s) && StreamsOk(s) && WellFormed(after.bids) && WellFormed(after.asks)
    requires |s.history| == s.seqNo + 1 && s.history[s.seqNo] == s.agg
    requires Replays(s.agg.bids, bids, after.bids) && Replays(s.agg.asks, asks, after.asks)
    ensures HistoryOk(Publish(s.(venues := venues, agg := after), bids, asks))
    ensures StreamsOk(Publish(s.(venues := venues, agg := after), bids, asks))
  {
    var next := Publish(s.(venues := venues, agg := after), bids, asks);
    PublishEffect(s.(venues := venues, agg := after), bids, asks);
    if bids != [] || asks != [] {
      RevisionOk(s, next, bids, asks);
    }
  }

  lemma IngestOk(s: Server, ev: Event)
    requires BookOk(s) && HistoryOk(s) && StreamsOk(s) && Legal(s, ev) && ev.Ingest?
    ensures HistoryOk(Step(s, ev)) && StreamsOk(Step(s, ev))
  {
    IngestFacts(s, ev);
    PublishOk(s, ev.agg, ev.bids, ev.asks, ev.venues);
  }

  lemma SubscribeOk(s: Server)
    requires BookOk(s) && HistoryOk(s)
    ensures StreamOk(s.history, L2Stream(
      Fresh(QUEUE_CAPACITY, Close), false, [BuildSnapshot(s.seqNo, s.agg)], [], false, NEW_REPLICA))
  {
    var t := L2Stream(
      Fresh(QUEUE_CAPACITY, Close), false, [BuildSnapshot(s.seqNo, s.agg)], [], false, NEW_REPLICA);
    assert Pending(t) == [BuildSnapshot(s.seqNo, s.agg)] && Pending(t)[1..] == [];
  }

  /** Moving messages along without losing or reordering any keeps a stream on track. */
  lemma MovedOk(history: seq<Book>, t: L2Stream, u: L2Stream)
    requires StreamOk(history, t) && !t.ended && !u.ended && u.client == t.client
    requires u.channel + u.batch + u.queue.items == t.channel + t.batch + t.queue.items
    requires u.queue.policy == t.queue.policy && u.queue.closed == t.queue.closed
    requires u.queue.closed ==> u.queue.items == []
    requires t.channel + t.batch != [] ==> u.channel + u.batch != []
    ensures StreamOk(history, u)
  {
  }

  /** Ending a handler leaves what is already on the wire. */
  lemma EndedOk(history: seq<Book>, t: L2Stream, u: L2Stream)
    requires StreamOk(history, t) && u.ended && u.client == t.client && u.channel == t.channel
    requires u.wroteInitial && u.batch == []
    requires u.queue.policy == t.queue.policy && (u.queue.closed ==> u.queue.items == [])
    ensures StreamOk(history, u)
  {
    if !t.ended {
      assert Pending(t) == t.channel + (t.batch + t.queue.items);
      OnTrackPrefix(history, t.client, t.channel, t.batch + t.queue.items);
    }
  }

  lemma ReadOk(history: seq<Book>, t: L2Stream)
    requires StreamOk(history, t) && t.channel != []
    requires forall k :: 0 <= k < |history| ==> WellFormed(history[k].bids) && WellFormed(history[k].asks)
    ensures StreamOk(history, t.(channel := t.channel[1..], client := Read(t.client, t.channel[0])))
  {
    var u := t.(channel := t.channel[1..], client := Read(t.client, t.channel[0]));
    assert Pending(t)[0] == t.channel[0] && Pending(t)[1..] == Pending(u);
    ReadOnTrack(history, t.client, Pending(t));
  }

  lemma WriteInitialMoves(history: seq<Book>, t: L2Stream, id: nat)
    requires StreamOk(history, t) && !t.ended
    ensures StreamOk(history, Handle(t, WriteInitial(id, true)))
  {
    var u := Handle(t, WriteInitial(id, true));
    assert u.channel + u.batch == t.channel + t.batch;
    MovedOk(history, t, u);
  }

  lemma DrainMoves(history: seq<Book>, t: L2Stream, id: nat)
    requires StreamOk(history, t) && !t.ended && !t.queue.closed
    ensures StreamOk(history, Handle(t, DrainL2(id)))
  {
    var u := Handle(t, DrainL2(id));
    if u != t { MovedOk(history, t, u); }
  }

  lemma WriteNextMoves(history: seq<Book>, t: L2Stream, id: nat)
    requires StreamOk(history, t) && !t.ended
    ensures StreamOk(history, Handle(t, WriteNext(id, true)))
  {
    var u := Handle(t, WriteNext(id, true));
    if u != t {
      assert t.batch == [t.batch[0]] + t.batch[1..];
      assert u.channel + u.batch == t.channel + t.batch;
      MovedOk(history, t, u);
    }
  }

  lemma HandleOk(history: seq<Book>, t: L2Stream, ev: Event)
    requires StreamOk(history, t) && IsHandlerEvent(ev)
    requires forall k :: 0 <= k < |history| ==> WellFormed(history[k].bids) && WellFormed(history[k].asks)
    ensures StreamOk(history, Handle(t, ev))
  {
    var u := Handle(t, ev);
    if u == t {
    } else if ev.ClientReads? {
      ReadOk(history, t);
    } else if u.ended && (t.channel == u.channel) {
      EndedOk(history, t, u);
    } else {
      match ev
      case WriteInitial(id, _) => WriteInitialMoves(history, t, id);
      case DrainL2(id) => DrainMoves(history, t, id);
      case WriteNext(id, _) => WriteNextMoves(history, t, id);
    }
  }

  lemma HandlerStepOk(s: Server, ev: Event)
    requires HistoryOk(s) && StreamsOk(s) && IsHandlerEvent(ev)
    ensures StreamsOk(Step(s, ev))
  {
    if ev.id in s.l2 {
      HandleOk(s.history, s.l2[ev.id], ev);
    }
  }

  lemma StepStreamsOk(s: Server, ev: Event)
    requires BookOk(s) && HistoryOk(s) && StreamsOk(s) && Legal(s, ev)
    ensures HistoryOk(Step(s, ev)) && StreamsOk(Step(s, ev))
  {
    if ev.Ingest? {
      IngestOk(s, ev);
    } else {
      OnlyIngestTouchesBook(s, ev);
      match ev
      case SendHeartbeat => BroadcastOk(s, s.history, L2Heartbeat(s.venues.Keys));
      case SubscribeL2(id) => SubscribeOk(s);
      case SubscribeBbo(_) =>
      case BboWrote(_) =>
      case DrainBbo(_) =>
      case EndBbo(_) =>
      case _ => HandlerStepOk(s, ev);
    }
  }

  lemma {:induction false} RunStreamsOk(events: seq<Event>)
    requires LegalRun(events)
    ensures HistoryOk(Reach(events)) && StreamsOk(Reach(events))
  {
    if events != [] {
      var init := events[..|events| - 1];
      RunStreamsOk(init);
      RunBookOk(init);
      StepStreamsOk(Reach(init), events[|events| - 1]);
    }
  }

  /** A client that has reached revision k holds history[k]; one with nothing on its way is at the end. */
  lemma ClientShowsHistory(history: seq<Book>, t: L2Stream, k: nat)
    requires StreamOk(history, t) && k < |history|
    ensures !t.client.stopped && (t.client.last.Some? ==> t.client.last.value < |history|)
    ensures t.client.last == Some(k) ==> t.client.book == history[k]
    ensures !t.ended && !t.queue.closed && t.channel + t.batch + t.queue.items == [] ==>
      t.client.last == Some(|history| - 1) && t.client.book == history[|history| - 1]
  {
    if t.client.last.Some? {
      FollowsBounded(history, t.client.last.value, Pending(t));
    }
  }

  /** Replica correctness: over every interleaving, a client never meets a gap, its book at revision
      k is the aggregate the server had at every moment it was at revision k, and a client of an open
      stream that has read everything on its way is at the current revision. */
  lemma ReplicaIsAggregate(events: seq<Event>, id: nat, j: nat)
    requires LegalRun(events) && id in Reach(events).l2 && j <= |events|
    ensures
      var s, t, past := Reach(events), Reach(events).l2[id], Reach(events[..j]);
      && !t.client.stopped
      && (t.client.last.Some? ==> t.client.last.value <= s.seqNo)
      && (t.client.last == Some(past.seqNo) ==> t.client.book == past.agg)
      && (!t.ended && !t.queue.closed && t.channel + t.batch + t.queue.items == [] ==>
            t.client.last == Some(s.seqNo) && t.client.book == s.agg)
  {
    var s, t := Reach(events), Reach(events).l2[id];
    RunStreamsOk(events);
    RunBookOk(events);
    HistoryRemembers(events, j);
    assert StreamOk(s.history, t);
    ClientShows(s, t, Reach(events[..j]));
  }

  /** The same for one state and one it has passed. */
  lemma ClientShows(s: Server, t: L2Stream, past: Server)
    requires StreamOk(s.history, t) && BookOk(s)
    requires past.seqNo < |s.history| && s.history[past.seqNo] == past.agg
    ensures !t.client.stopped && (t.client.last.Some? ==> t.client.last.value <= s.seqNo)
    ensures t.client.last == Some(past.seqNo) ==> t.client.book == past.agg
    ensures !t.ended && !t.queue.closed && t.channel + t.batch + t.queue.items == [] ==>
      t.client.last == Some(s.seqNo) && t.client.book == s.agg
  {
    ClientShowsHistory(s.history, t, past.seqNo);
  }

  /** What has been written, once read, is a snapshot followed by consecutive revisions. */
  lemma WrittenStreamIsPrefix(events: seq<Event>, id: nat)
    requires LegalRun(events) && id in Reach(events).l2
    ensures OnTrack(Reach(events).history, Reach(events).l2[id].client, Reach(events).l2[id].channel)
  {
    var s, t := Reach(events), Reach(events).l2[id];
    RunStreamsOk(events);
    assert StreamOk(s.history, t);
    if !t.ended {
      assert Pending(t) == t.channel + (t.batch + t.queue.items);
      OnTrackPrefix(s.history, t.client, t.channel, t.batch + t.queue.items);
    }
  }
}
