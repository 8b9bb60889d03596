/** The incremental aggregate as an object whose maps are updated in place. */
module AggregateBook {
  import opened Levels
  import opened Aggregate

  // ----- one side at a time -----

  /** Applies a batch to one side, level by level. */
  method ApplySide(venue: Side, total: Side, levels: seq<Level>) returns (f: Fold)
    ensures f == FoldAll(Fold(venue, total, []), levels)
  {
    f := Fold(venue, total, []);
    for i := 0 to |levels|
      invariant f == FoldAll(Fold(venue, total, []), levels[..i])
    {
      f := ApplyLevel(f, levels[i]);
      assert levels[..i + 1][..i] == levels[..i];
    }
    assert levels[..|levels|] == levels;
  }

  lemma FoldSnoc(f: Fold, levels: seq<Level>, l: Level)
    ensures FoldAll(f, levels + [l]) == ApplyLevel(FoldAll(f, levels), l)
  {
    assert (levels + [l])[..|levels|] == levels;
  }

  lemma DistinctSnoc(levels: seq<Level>, l: Level)
    requires Distinct(levels) && !Lists(levels, l.price)
    ensures Distinct(levels + [l])
  {
  }

  /** Entries that all state `target`, one per price of `done`. */
  ghost predicate Enumerates(applied: seq<Level>, target: map<int, int>, done: set<int>) {
    && Distinct(applied) && States(applied, target)
    && forall p :: Lists(applied, p) <==> p in done
  }

  lemma EnumerateOneMore(applied: seq<Level>, target: map<int, int>, done: set<int>, p: int)
    requires Enumerates(applied, target, done) && p !in done
    ensures Enumerates(applied + [Level(p, SizeAt(target, p))], target, done + {p})
  {
    var l := Level(p, SizeAt(target, p));
    DistinctSnoc(applied, l);
    forall q
      ensures Lists(applied + [l], q) <==> q in done + {p}
    {
      ListsSnoc(applied, l, q);
    }
  }

  lemma {:induction false} FirstWinsValid(levels: seq<Level>)
    requires AllValid(levels)
    ensures forall p :: p in FirstWins(levels) ==> p > 0 && FirstWins(levels)[p] >= 0
  {
    if levels != [] {
      FirstWinsValid(levels[..|levels| - 1]);
      assert IsValidLevel(levels[|levels| - 1]);
    }
  }

  lemma EnumeratedResult(venue: Side, applied: seq<Level>, target: map<int, int>, done: set<int>)
    requires WellFormed(venue) && Enumerates(applied, target, done) && venue.Keys + target.Keys == done
    requires forall p :: p in target ==> p > 0 && target[p] >= 0
    ensures AllValid(applied) && ApplyLevels(venue, applied) == PositivePart(target)
  {
    forall i | 0 <= i < |applied|
      ensures IsValidLevel(applied[i])
    {
      assert Lists(applied, applied[i].price);
      assert applied[i].size == SizeAt(target, applied[i].price);
    }
    ApplyLevelsWellFormed(venue, applied);
    var after := ApplyLevels(venue, applied);
    forall p
      ensures SizeAt(after, p) == SizeAt(PositivePart(target), p)
    {
      ApplyLevelsSizeAt(venue, applied, p);
      LastSizeStates(applied, target, p, SizeAt(venue, p));
    }
    SidesEqual(after, PositivePart(target));
  }

  /** How far a pass over prices has come: `applied` are the absolute updates made so far. */
  ghost predicate Progress(
      venue: Side, total: Side, f: Fold, applied: seq<Level>, target: map<int, int>, done: set<int>) {
    f == FoldAll(Fold(venue, total, []), applied) && Enumerates(applied, target, done)
  }

  lemma ProgressStarts(venue: Side, total: Side, target: map<int, int>)
    ensures Progress(venue, total, Fold(venue, total, []), [], target, {})
  {
  }

  lemma ProgressStep(
      venue: Side, total: Side, f: Fold, applied: seq<Level>, target: map<int, int>, done: set<int>, p: int)
    requires Progress(venue, total, f, applied, target, done) && p !in done
    ensures
      var l := Level(p, SizeAt(target, p));
      Progress(venue, total, ApplyLevel(f, l), applied + [l], target, done + {p})
  {
    var l := Level(p, SizeAt(target, p));
    FoldSnoc(Fold(venue, total, []), applied, l);
    EnumerateOneMore(applied, target, done, p);
  }

  /** Erasing a level and taking its size off the aggregate is setting it to zero. */
  method RemoveLevel(f: Fold, p: int, size: int) returns (g: Fold)
    requires size == SizeAt(f.venue, p)
    ensures g == ApplyLevel(f, Level(p, 0))
  {
    var (total, result) := AdjustAggregate(f.total, p, 0 - size);
    g := Fold(f.venue - {p}, total, Reporting(f.reports, p, result));
  }

  method Pick(s: set<int>) returns (p: int)
    requires s != {}
    ensures p in s
  {
    ghost var q := Member(s);
    p :| p in s;
  }

  lemma OneFewerLeft(all: set<int>, left: set<int>, p: int)
    requires p in left && left <= all
    ensures all - left + {p} == all - (left - {p}) && p !in all - left && |left - {p}| < |left|
  {
  }

  method RemoveOne(ghost venue: Side, ghost total: Side, f0: Fold, ghost applied0: seq<Level>,
                   ghost target: map<int, int>, ghost gone: set<int>, left: set<int>)
    returns (f: Fold, ghost applied: seq<Level>, left': set<int>)
    requires left != {} && left <= gone && target.Keys !! gone
    requires Progress(venue, total, f0, applied0, target, gone - left)
    ensures left' <= left && |left'| < |left| && Progress(venue, total, f, applied, target, gone - left')
  {
    var p := Pick(left);
    OneFewerLeft(gone, left, p);
    ProgressStep(venue, total, f0, applied0, target, gone - left, p);
    f := RemoveLevel(f0, p, SizeAt(f0.venue, p));
    applied := applied0 + [Level(p, 0)];
    left' := left - {p};
  }

  /** First pass of a resync: removes every price of `gone`. */
  method RemoveAll(venue: Side, total: Side, gone: set<int>, ghost target: map<int, int>)
    returns (f: Fold, ghost applied: seq<Level>)
    requires target.Keys !! gone && forall q :: q in target ==> target[q] >= 0
    ensures Progress(venue, total, f, applied, target, gone)
  {
    f, applied := Fold(venue, total, []), [];
    ProgressStarts(venue, total, target);
    var left := gone;
    assert gone - left == {};
    while left != {}
      invariant left <= gone && Progress(venue, total, f, applied, target, gone - left)
      decreases |left|
    {
      f, applied, left := RemoveOne(venue, total, f, applied, target, gone, left);
    }
    assert gone - left == gone;
  }

  method SetOne(ghost venue: Side, ghost total: Side, f0: Fold, ghost applied0: seq<Level>,
                target: map<int, int>, ghost all: set<int>, left: set<int>)
    returns (f: Fold, ghost applied: seq<Level>, left': set<int>)
    requires left != {} && left <= target.Keys && left <= all
    requires Progress(venue, total, f0, applied0, target, all - left)
    ensures left' <= left && |left'| < |left| && Progress(venue, total, f, applied, target, all - left')
  {
    var p := Pick(left);
    OneFewerLeft(all, left, p);
    ProgressStep(venue, total, f0, applied0, target, all - left, p);
    f := ApplyLevel(f0, Level(p, target[p]));
    applied := applied0 + [Level(p, target[p])];
    left' := left - {p};
  }

  /** Second pass of a resync: sets every level of `target`. */
  method SetAll(ghost venue: Side, ghost total: Side, f0: Fold, ghost applied0: seq<Level>,
                target: map<int, int>, ghost done: set<int>)
    returns (f: Fold, ghost applied: seq<Level>)
    requires target.Keys !! done && Progress(venue, total, f0, applied0, target, done)
    ensures Progress(venue, total, f, applied, target, done + target.Keys)
  {
    f, applied := f0, applied0;
    ghost var all := done + target.Keys;
    var left := target.Keys;
    assert all - left == done;
    while left != {}
      invariant left <= target.Keys && Progress(venue, total, f, applied, target, all - left)
      decreases |left|
    {
      f, applied, left := SetOne(venue, total, f, applied, target, all, left);
    }
    assert all - left == all;
  }

  /** Resyncs one side to `levels`: prices it holds that are absent are removed, then every level
      is applied. The order in which prices are visited is left open. */
  method ResyncSide(venue: Side, total: Side, levels: seq<Level>) returns (f: Fold, ghost applied: seq<Level>)
    requires WellFormed(venue) && AllValid(levels)
    ensures f == FoldAll(Fold(venue, total, []), applied)
    ensures AllValid(applied) && Distinct(applied) && f.venue == SnapshotSide(levels)
  {
    var newLevels := FirstWins(levels);
    FirstWinsValid(levels);
    ghost var gone := venue.Keys - newLevels.Keys;
    f, applied := RemoveAll(venue, total, venue.Keys - newLevels.Keys, newLevels);
    f, applied := SetAll(venue, total, f, applied, newLevels, gone);
    EnumeratedResult(venue, applied, newLevels, gone + newLevels.Keys);
    FoldVenue(venue, total, applied);
  }

  /** Takes a venue's whole side out of the aggregate. */
  method InvalidateSide(venue: Side, total: Side) returns (f: Fold, ghost applied: seq<Level>)
    requires WellFormed(venue)
    ensures f == FoldAll(Fold(venue, total, []), applied)
    ensures AllValid(applied) && Distinct(applied) && f.venue == map[]
  {
    f, applied := RemoveAll(venue, total, venue.Keys, map[]);
    EnumeratedResult(venue, applied, map[], venue.Keys);
    FoldVenue(venue, total, applied);
    assert PositivePart(map[]) == map[];
  }

  // ----- the book -----

  function BookOf(venues: Venues, venue: VenueId): Book {
    if venue in venues then venues[venue] else EMPTY_BOOK
  }

  lemma VenueDominated(venues: Venues, agg: Book, venue: VenueId)
    requires Aggregates(venues, agg)
    ensures Dominates(BookOf(venues, venue).bids, agg.bids)
    ensures Dominates(BookOf(venues, venue).asks, agg.asks)
  {
    forall p
      ensures SizeAt(BookOf(venues, venue).bids, p) <= SizeAt(agg.bids, p)
      ensures SizeAt(BookOf(venues, venue).asks, p) <= SizeAt(agg.asks, p)
    {
      SumCoversVenue(BidsOf(venues), p);
      SumCoversVenue(AsksOf(venues), p);
      assert venue in venues ==> BidsOf(venues)[venue] == venues[venue].bids && AsksOf(venues)[venue] == venues[venue].asks;
    }
    assert venue in venues ==> venue in BidsOf(venues) && venue in AsksOf(venues);
  }

  lemma TotalsReplaced(sides: map<VenueId, Side>, total: Side, venue: VenueId, f: Fold)
    requires Totals(sides, total)
    requires Tracks(if venue in sides then sides[venue] else map[], total, f)
    ensures Totals(sides[venue := f.venue], f.total)
  {
    forall p
      ensures SizeAt(f.total, p) == Sum(sides[venue := f.venue], p)
    {
      SumUpdate(sides, venue, f.venue, p);
      assert SizeAt(total, p) == Sum(sides, p);
    }
  }

  lemma TotalsDropped(sides: map<VenueId, Side>, total: Side, venue: VenueId, f: Fold)
    requires Totals(sides, total) && venue in sides && Tracks(sides[venue], total, f) && f.venue == map[]
    ensures Totals(sides - {venue}, f.total)
  {
    forall p
      ensures SizeAt(f.total, p) == Sum(sides - {venue}, p)
    {
      SumRemove(sides, venue, p);
      assert SizeAt(total, p) == Sum(sides, p);
    }
  }

  lemma Replaced(venues: Venues, agg: Book, venue: VenueId, b: Fold, a: Fold)
    requires Aggregates(venues, agg)
    requires Tracks(BookOf(venues, venue).bids, agg.bids, b) && Tracks(BookOf(venues, venue).asks, agg.asks, a)
    ensures Aggregates(venues[venue := Book(b.venue, a.venue)], Book(b.total, a.total))
  {
    var after := venues[venue := Book(b.venue, a.venue)];
    assert BidsOf(after) == BidsOf(venues)[venue := b.venue];
    assert AsksOf(after) == AsksOf(venues)[venue := a.venue];
    TotalsReplaced(BidsOf(venues), agg.bids, venue, b);
    TotalsReplaced(AsksOf(venues), agg.asks, venue, a);
  }

  lemma Dropped(venues: Venues, agg: Book, venue: VenueId, b: Fold, a: Fold)
    requires Aggregates(venues, agg) && venue in venues && b.venue == a.venue == map[]
    requires Tracks(venues[venue].bids, agg.bids, b) && Tracks(venues[venue].asks, agg.asks, a)
    ensures Aggregates(venues - {venue}, Book(b.total, a.total))
  {
    assert BidsOf(venues - {venue}) == BidsOf(venues) - {venue};
    assert AsksOf(venues - {venue}) == AsksOf(venues) - {venue};
    TotalsDropped(BidsOf(venues), agg.bids, venue, b);
    TotalsDropped(AsksOf(venues), agg.asks, venue, a);
  }

  /** What one operation asks for. */
  datatype Op =
    | SnapshotOp(venue: VenueId, bids: seq<Level>, asks: seq<Level>)
    | BatchOp(venue: VenueId, bids: seq<Level>, asks: seq<Level>)
    | InvalidateOp(venue: VenueId)

  predicate Accepted(op: Op) {
    op.InvalidateOp? || (AllValid(op.bids) && AllValid(op.asks))
  }

  function NextVenues(venues: Venues, op: Op): Venues {
    if !Accepted(op) then venues
    else
      match op
      case SnapshotOp(v, bids, asks) => venues[v := SnapshotBook(bids, asks)]
      case BatchOp(v, bids, asks) => venues[v := ApplyToBook(BookOf(venues, v), bids, asks)]
      case InvalidateOp(v) => venues - {v}
  }

  /** Everything an operation promises about the venues, the aggregate and its reports. */
  ghost predicate Performed(
      op: Op, venues: Venues, agg: Book, venues': Venues, agg': Book, bids: seq<Level>, asks: seq<Level>) {
    && venues' == NextVenues(venues, op) && Aggregates(venues', agg')
    && Replays(agg.bids, bids, agg'.bids) && Replays(agg.asks, asks, agg'.asks)
    && (!Accepted(op) ==> agg' == agg && bids == asks == [])
    && (!op.BatchOp? || Distinct(op.bids) ==> Exact(agg.bids, bids, agg'.bids))
    && (!op.BatchOp? || Distinct(op.asks) ==> Exact(agg.asks, asks, agg'.asks))
    && (op.BatchOp? && Accepted(op) ==>
        forall p :: (Lists(bids, p) <==> Moves(op.bids, BookOf(venues, op.venue).bids, p))
                 && (Lists(asks, p) <==> Moves(op.asks, BookOf(venues, op.venue).asks, p)))
  }

  class AggregateOrderBook {
    var venues: Venues
    var aggregate: Book

    ghost predicate Valid()
      reads this
    {
      Aggregates(venues, aggregate)
    }

    constructor ()
      ensures Valid() && venues == map[] && aggregate == EMPTY_BOOK
    {
      venues, aggregate := map[], EMPTY_BOOK;
      assert BidsOf(map[]) == map[] && AsksOf(map[]) == map[];
    }

    method ApplySnapshot(venue: VenueId, bids: seq<Level>, asks: seq<Level>)
      returns (ok: bool, bidReports: seq<Level>, askReports: seq<Level>)
      requires Valid()
      modifies this
      ensures Valid() && ok == (AllValid(bids) && AllValid(asks))
      ensures Performed(SnapshotOp(venue, bids, asks), old(venues), old(aggregate), venues, aggregate, bidReports, askReports)
    {
      if !AllValid(bids) || !AllValid(asks) {
        NothingDone(aggregate);
        return false, [], [];
      }
      var mine := BookOf(venues, venue);
      VenueDominated(venues, aggregate, venue);
      var b, appliedBids := ResyncSide(mine.bids, aggregate.bids, bids);
      var a, appliedAsks := ResyncSide(mine.asks, aggregate.asks, asks);
      FoldTracks(mine.bids, aggregate.bids, appliedBids);
      FoldTracks(mine.asks, aggregate.asks, appliedAsks);
      Replaced(venues, aggregate, venue, b, a);
      DistinctFoldExact(mine.bids, aggregate.bids, appliedBids);
      DistinctFoldExact(mine.asks, aggregate.asks, appliedAsks);
      venues, aggregate := venues[venue := Book(b.venue, a.venue)], Book(b.total, a.total);
      return true, b.reports, a.reports;
    }

    method ApplyBatch(venue: VenueId, bids: seq<Level>, asks: seq<Level>)
      returns (ok: bool, bidReports: seq<Level>, askReports: seq<Level>)
      requires Valid()
      modifies this
      ensures Valid() && ok == (AllValid(bids) && AllValid(asks))
      ensures Performed(BatchOp(venue, bids, asks), old(venues), old(aggregate), venues, aggregate, bidReports, askReports)
    {
      if !AllValid(bids) || !AllValid(asks) {
        NothingDone(aggregate);
        return false, [], [];
      }
      var mine := BookOf(venues, venue);
      var b := ApplySide(mine.bids, aggregate.bids, bids);
      var a := ApplySide(mine.asks, aggregate.asks, asks);
      VenueDominated(venues, aggregate, venue);
      BatchSide(mine.bids, aggregate.bids, bids);
      BatchSide(mine.asks, aggregate.asks, asks);
      BatchPerformed(venues, aggregate, venue, bids, asks, b, a);
      venues, aggregate := venues[venue := Book(b.venue, a.venue)], Book(b.total, a.total);
      return true, b.reports, a.reports;
    }

    method InvalidateVenue(venue: VenueId) returns (bidReports: seq<Level>, askReports: seq<Level>)
      requires Valid()
      modifies this
      ensures Valid()
      ensures Performed(InvalidateOp(venue), old(venues), old(aggregate), venues, aggregate, bidReports, askReports)
    {
      if venue !in venues {
        NothingDone(aggregate);
        assert venues - {venue} == venues;
        return [], [];
      }
      var mine := venues[venue];
      VenueDominated(venues, aggregate, venue);
      var b, appliedBids := InvalidateSide(mine.bids, aggregate.bids);
      var a, appliedAsks := InvalidateSide(mine.asks, aggregate.asks);
      FoldTracks(mine.bids, aggregate.bids, appliedBids);
      FoldTracks(mine.asks, aggregate.asks, appliedAsks);
      Dropped(venues, aggregate, venue, b, a);
      DistinctFoldExact(mine.bids, aggregate.bids, appliedBids);
      DistinctFoldExact(mine.asks, aggregate.asks, appliedAsks);
      venues, aggregate := venues - {venue}, Book(b.total, a.total);
      return b.reports, a.reports;
    }
  }

  lemma NothingDone(agg: Book)
    ensures Replays(agg.bids, [], agg.bids) && Replays(agg.asks, [], agg.asks)
    ensures Exact(agg.bids, [], agg.bids) && Exact(agg.asks, [], agg.asks)
  {
  }

  /** A batch folded into one side: the venue's side, what the aggregate and the others keep, and
      exactly which prices are reported. */
  ghost predicate SideApplied(v: Side, t: Side, levels: seq<Level>, f: Fold) {
    && Tracks(v, t, f) && f.venue == ApplyLevels(v, levels)
    && (Distinct(levels) ==> Exact(t, f.reports, f.total))
    && forall p :: Lists(f.reports, p) <==> Moves(levels, v, p)
  }

  lemma BatchSide(v: Side, t: Side, levels: seq<Level>)
    requires Dominates(v, t) && AllValid(levels)
    ensures SideApplied(v, t, levels, FoldAll(Fold(v, t, []), levels))
  {
    FoldTracks(v, t, levels);
    if Distinct(levels) { DistinctFoldExact(v, t, levels); }
    forall p
      ensures Lists(FoldAll(Fold(v, t, []), levels).reports, p) <==> Moves(levels, v, p)
    {
      ReportedIff(v, t, levels, p);
    }
  }

  /** Both sides applied is the batch operation. */
  lemma BatchPerformed(venues: Venues, agg: Book, venue: VenueId, bids: seq<Level>, asks: seq<Level>, b: Fold, a: Fold)
    requires Aggregates(venues, agg) && AllValid(bids) && AllValid(asks)
    requires SideApplied(BookOf(venues, venue).bids, agg.bids, bids, b)
    requires SideApplied(BookOf(venues, venue).asks, agg.asks, asks, a)
    ensures Performed(BatchOp(venue, bids, asks), venues, agg, venues[venue := Book(b.venue, a.venue)],
                      Book(b.total, a.total), b.reports, a.reports)
  {
    Replaced(venues, agg, venue, b, a);
  }
}
