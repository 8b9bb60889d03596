/** The L2 and top-of-book messages, how they are built from the aggregate, and the client's replica. */
module Wire {
  import opened Levels
  import opened Aggregate

  datatype L2Update =
    | L2Snapshot(seqNo: nat, bids: seq<Level>, asks: seq<Level>)
    | L2Diff(seqNo: nat, bids: seq<Level>, asks: seq<Level>)
    | L2Heartbeat(liveVenues: set<VenueId>)

  datatype BboUpdate =
    | Bbo(seqNo: nat, bid: Option<Level>, ask: Option<Level>)
    | BboHeartbeat(liveVenues: set<VenueId>)

  // ----- building messages -----

  /** The change collector: the last size reported for each price. */
  function Collected(reports: seq<Level>): map<int, int> {
    if reports == [] then map[]
    else Collected(reports[..|reports| - 1])[reports[|reports| - 1].price := reports[|reports| - 1].size]
  }

  function BuildSnapshot(seqNo: nat, agg: Book): L2Update {
    L2Snapshot(seqNo, InOrder(agg.bids, true), InOrder(agg.asks, false))
  }

  function BuildDiff(seqNo: nat, bids: seq<Level>, asks: seq<Level>): L2Update {
    L2Diff(seqNo, InOrder(Collected(bids), true), InOrder(Collected(asks), false))
  }

  function Best(side: Side, descending: bool): Option<Level> {
    if side == map[] then None
    else
      var k := BestPrice(side, descending);
      Some(Level(k, side[k]))
  }

  function BuildBbo(seqNo: nat, agg: Book): BboUpdate {
    Bbo(seqNo, Best(agg.bids, true), Best(agg.asks, false))
  }

  // ----- the client's replica -----

  /** A wire level: size zero deletes, anything else replaces. */
  function SetWireLevel(side: Side, l: Level): Side {
    if l.size == 0 then side - {l.price} else side[l.price := l.size]
  }

  function ApplyWire(side: Side, levels: seq<Level>): Side {
    if levels == [] then side
    else SetWireLevel(ApplyWire(side, levels[..|levels| - 1]), levels[|levels| - 1])
  }

  predicate IsBookSeqGap(last: Option<nat>, seqNo: nat) {
    last.Some? && seqNo != last.value + 1
  }

  /** `stopped` once a gap made the client give up. */
  datatype Replica = Replica(book: Book, last: Option<nat>, stopped: bool)

  const NEW_REPLICA := Replica(EMPTY_BOOK, None, false)

  function Read(c: Replica, u: L2Update): Replica {
    match u
    case L2Heartbeat(_) => c
    case L2Snapshot(n, bids, asks) => Replica(Book(ApplyWire(map[], bids), ApplyWire(map[], asks)), Some(n), c.stopped)
    case L2Diff(n, bids, asks) =>
      if IsBookSeqGap(c.last, n) then c.(stopped := true)
      else Replica(Book(ApplyWire(c.book.bids, bids), ApplyWire(c.book.asks, asks)), Some(n), c.stopped)
  }

  method ApplyWireLevels(side: Side, levels: seq<Level>) returns (after: Side)
    ensures after == ApplyWire(side, levels)
  {
    after := side;
    for i := 0 to |levels|
      invariant after == ApplyWire(side, levels[..i])
    {
      assert levels[..i + 1][..i] == levels[..i];
      if levels[i].size == 0 { after := after - {levels[i].price}; }
      else { after := after[levels[i].price := levels[i].size]; }
    }
    assert levels[..|levels|] == levels;
  }

  class L2Client {
    var bids: Side
    var asks: Side
    var last: Option<nat>
    var stopped: bool

    function View(): Replica
      reads this
    {
      Replica(Book(bids, asks), last, stopped)
    }

    constructor ()
      ensures View() == NEW_REPLICA
    {
      bids, asks, last, stopped := map[], map[], None, false;
    }

    /** One round of the read loop. */
    method OnUpdate(update: L2Update)
      modifies this
      ensures View() == Read(old(View()), update)
    {
      match update {
        case L2Snapshot(n, b, a) =>
          bids, asks := map[], map[];
          bids := ApplyWireLevels(bids, b);
          asks := ApplyWireLevels(asks, a);
          last := Some(n);
        case L2Diff(n, b, a) =>
          if IsBookSeqGap(last, n) {
            stopped := true;
            return;
          }
          last := Some(n);
          bids := ApplyWireLevels(bids, b);
          asks := ApplyWireLevels(asks, a);
        case L2Heartbeat(_) =>
      }
    }
  }

  // ----- messages mean what they were built from -----

  lemma {:induction false} ApplyWireIsApplyLevels(side: Side, levels: seq<Level>)
    requires forall i :: 0 <= i < |levels| ==> levels[i].size >= 0
    ensures ApplyWire(side, levels) == ApplyLevels(side, levels)
  {
    if levels != [] {
      ApplyWireIsApplyLevels(side, levels[..|levels| - 1]);
    }
  }

  lemma {:induction false} CollectedLast(reports: seq<Level>, p: int, otherwise: int)
    ensures p in Collected(reports) <==> Lists(reports, p)
    ensures LastSize(reports, p, otherwise) == if Lists(reports, p) then SizeAt(Collected(reports), p) else otherwise
  {
    if reports != [] {
      var init, l := reports[..|reports| - 1], reports[|reports| - 1];
      CollectedLast(init, p, otherwise);
      assert reports == init + [l];
      ListsSnoc(init, l, p);
    }
  }

  lemma {:induction false} CollectedValid(reports: seq<Level>)
    requires AllValid(reports)
    ensures forall p :: p in Collected(reports) ==> p > 0 && Collected(reports)[p] >= 0
  {
    if reports != [] {
      CollectedValid(reports[..|reports| - 1]);
      assert IsValidLevel(reports[|reports| - 1]);
    }
  }

  lemma InOrderValid(m: map<int, int>, descending: bool)
    requires forall p :: p in m ==> p > 0 && m[p] >= 0
    ensures AllValid(InOrder(m, descending))
  {
    var levels := InOrder(m, descending);
    InOrderLists(m, descending);
    forall i | 0 <= i < |levels|
      ensures IsValidLevel(levels[i])
    {
      assert Lists(levels, levels[i].price);
    }
  }

  /** One side of a diff: sorted, one entry per price, and worth exactly the reports it collects. */
  lemma DiffSideReplays(before: Side, reports: seq<Level>, after: Side, descending: bool)
    requires WellFormed(before) && Replays(before, reports, after)
    ensures ApplyWire(before, InOrder(Collected(reports), descending)) == after
  {
    var levels := InOrder(Collected(reports), descending);
    CollectedValid(reports);
    InOrderValid(Collected(reports), descending);
    InOrderLists(Collected(reports), descending);
    ApplyWireIsApplyLevels(before, levels);
    ApplyLevelsWellFormed(before, levels);
    ApplyLevelsWellFormed(before, reports);
    forall p
      ensures SizeAt(ApplyLevels(before, levels), p) == SizeAt(after, p)
    {
      ApplyLevelsSizeAt(before, levels, p);
      ApplyLevelsSizeAt(before, reports, p);
      LastSizeStates(levels, Collected(reports), p, SizeAt(before, p));
      CollectedLast(reports, p, SizeAt(before, p));
    }
    SidesEqual(ApplyLevels(before, levels), after);
  }

  lemma SnapshotSideRebuilds(side: Side, descending: bool)
    requires WellFormed(side)
    ensures ApplyWire(map[], InOrder(side, descending)) == side
  {
    var levels := InOrder(side, descending);
    InOrderValid(side, descending);
    InOrderLists(side, descending);
    ApplyWireIsApplyLevels(map[], levels);
    ApplyLevelsWellFormed(map[], levels);
    forall p
      ensures SizeAt(ApplyLevels(map[], levels), p) == SizeAt(side, p)
    {
      ApplyLevelsSizeAt(map[], levels, p);
      LastSizeStates(levels, side, p, 0);
    }
    SidesEqual(ApplyLevels(map[], levels), side);
  }

  /** A replica that reads a snapshot holds the aggregate it was built from. */
  lemma SnapshotRoundTrip(c: Replica, seqNo: nat, agg: Book)
    requires WellFormed(agg.bids) && WellFormed(agg.asks)
    ensures Read(c, BuildSnapshot(seqNo, agg)) == Replica(agg, Some(seqNo), c.stopped)
  {
    SnapshotSideRebuilds(agg.bids, true);
    SnapshotSideRebuilds(agg.asks, false);
  }

  /** A diff is empty exactly when nothing was reported. */
  lemma CollectedEmpty(reports: seq<Level>, descending: bool)
    ensures InOrder(Collected(reports), descending) == [] <==> reports == []
  {
    if reports != [] {
      CollectedLast(reports, reports[0].price, 0);
      assert Lists(reports, reports[0].price);
    }
  }

  // ----- what a reader of the messages can rely on -----

  predicate Descending(levels: seq<Level>) {
    forall i, j :: 0 <= i < j < |levels| ==> levels[i].price > levels[j].price
  }

  predicate Ascending(levels: seq<Level>) {
    forall i, j :: 0 <= i < j < |levels| ==> levels[i].price < levels[j].price
  }

  /** Snapshots and diffs list bids from the highest price down and asks from the lowest up, each once. */
  lemma MessagesSorted(n: nat, agg: Book, bids: seq<Level>, asks: seq<Level>)
    ensures Descending(BuildSnapshot(n, agg).bids) && Ascending(BuildSnapshot(n, agg).asks)
    ensures Descending(BuildDiff(n, bids, asks).bids) && Ascending(BuildDiff(n, bids, asks).asks)
  {
    InOrderBestFirst(agg.bids, true);
    InOrderBestFirst(agg.asks, false);
    InOrderBestFirst(Collected(bids), true);
    InOrderBestFirst(Collected(asks), false);
  }

  /** A diff side built from exact reports lists exactly the prices that changed, at their new sizes. */
  lemma DiffListsChanges(before: Side, reports: seq<Level>, after: Side, descending: bool, p: int)
    requires WellFormed(before) && Replays(before, reports, after) && Exact(before, reports, after)
    ensures
      var levels := InOrder(Collected(reports), descending);
      && (Lists(levels, p) <==> SizeAt(before, p) != SizeAt(after, p))
      && forall i :: 0 <= i < |levels| ==> levels[i].size == SizeAt(after, levels[i].price)
  {
    var levels := InOrder(Collected(reports), descending);
    InOrderLists(Collected(reports), descending);
    CollectedLast(reports, p, 0);
    forall i | 0 <= i < |levels|
      ensures levels[i].size == SizeAt(after, levels[i].price)
    {
      var q := levels[i].price;
      assert Lists(levels, q);
      CollectedLast(reports, q, SizeAt(before, q));
      ApplyLevelsSizeAt(before, reports, q);
    }
  }

  /** The highest bid, or none. */
  ghost predicate IsTopBid(bids: Side, top: Option<Level>) {
    match top
    case None => bids == map[]
    case Some(l) => l.price in bids && bids[l.price] == l.size && forall p :: p in bids ==> p <= l.price
  }

  /** The lowest ask, or none. */
  ghost predicate IsTopAsk(asks: Side, top: Option<Level>) {
    match top
    case None => asks == map[]
    case Some(l) => l.price in asks && asks[l.price] == l.size && forall p :: p in asks ==> l.price <= p
  }

  lemma BestIsTop(agg: Book, bid: Option<Level>, ask: Option<Level>)
    ensures IsTopBid(agg.bids, bid) <==> bid == Best(agg.bids, true)
    ensures IsTopAsk(agg.asks, ask) <==> ask == Best(agg.asks, false)
  {
  }

  /** A client stops exactly on a diff that is not its next revision, and keeps what it has; any other
      diff moves it to that revision. */
  lemma WrongRevisionStops(c: Replica, u: L2Update)
    ensures
      var gap := u.L2Diff? && c.last.Some? && u.seqNo != c.last.value + 1;
      && (Read(c, u).stopped <==> c.stopped || gap)
      && (gap ==> Read(c, u).book == c.book && Read(c, u).last == c.last)
      && (!gap && !u.L2Heartbeat? ==> Read(c, u).last == Some(u.seqNo))
      && (u.L2Heartbeat? ==> Read(c, u) == c)
  {
  }
}
