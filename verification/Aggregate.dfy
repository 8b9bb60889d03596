/** The cross-venue aggregate, kept by deltas only: the simple sum it stands for, and what folding
    one level after another into a venue's side and the aggregate does to both. */
module Aggregate {
  import opened Levels

  datatype ExchangeName = BinanceExchange | BybitExchange | OkxExchange
  datatype MarketType = Spot | Perp
  datatype VenueId = VenueId(exchange: ExchangeName, market: MarketType)

  type Venues = map<VenueId, Book>

  // ----- the simple sum -----

  /** Total size at a price over all venues' sides. */
  ghost function Sum(sides: map<VenueId, Side>, p: int): int
    decreases |sides|
  {
    if sides == map[] then 0
    else
      assert sides.Keys != {};
      var v :| v in sides;
      assert |(sides - {v}).Keys| < |sides.Keys| by { assert (sides - {v}).Keys == sides.Keys - {v}; }
      SizeAt(sides[v], p) + Sum(sides - {v}, p)
  }

  lemma {:induction false} SumRemove(sides: map<VenueId, Side>, v: VenueId, p: int)
    requires v in sides
    ensures Sum(sides, p) == SizeAt(sides[v], p) + Sum(sides - {v}, p)
    decreases |sides|
  {
    var u :| u in sides && Sum(sides, p) == SizeAt(sides[u], p) + Sum(sides - {u}, p);
    if u != v {
      var a, b := sides - {u}, sides - {v};
      assert |a| < |sides| by { assert a.Keys == sides.Keys - {u}; }
      assert |b| < |sides| by { assert b.Keys == sides.Keys - {v}; }
      SumRemove(a, v, p);
      SumRemove(b, u, p);
      assert a - {v} == b - {u};
    }
  }

  lemma SumUpdate(sides: map<VenueId, Side>, v: VenueId, side: Side, p: int)
    ensures Sum(sides[v := side], p)
         == Sum(sides, p) - (if v in sides then SizeAt(sides[v], p) else 0) + SizeAt(side, p)
  {
    SumRemove(sides[v := side], v, p);
    assert sides[v := side] - {v} == sides - {v};
    if v in sides {
      SumRemove(sides, v, p);
    } else {
      assert sides - {v} == sides;
    }
  }

  lemma {:induction false} SumCoversVenue(sides: map<VenueId, Side>, p: int)
    requires forall v :: v in sides ==> WellFormed(sides[v])
    ensures Sum(sides, p) >= 0
    ensures forall v :: v in sides ==> SizeAt(sides[v], p) <= Sum(sides, p)
    decreases |sides|
  {
    forall v | v in sides
      ensures 0 <= SizeAt(sides[v], p) <= Sum(sides, p)
    {
      SumRemove(sides, v, p);
      assert |sides - {v}| < |sides| by { assert (sides - {v}).Keys == sides.Keys - {v}; }
      SumCoversVenue(sides - {v}, p);
    }
    if sides != map[] {
      assert sides.Keys != {};
      var v :| v in sides;
      assert 0 <= SizeAt(sides[v], p) <= Sum(sides, p);
    }
  }

  function BidsOf(venues: Venues): map<VenueId, Side> {
    map v | v in venues :: venues[v].bids
  }

  function AsksOf(venues: Venues): map<VenueId, Side> {
    map v | v in venues :: venues[v].asks
  }

  /** `total` is the sum of `sides`: at every price, with a key exactly where the sum is positive. */
  ghost predicate Totals(sides: map<VenueId, Side>, total: Side) {
    && (forall v :: v in sides ==> WellFormed(sides[v]))
    && WellFormed(total)
    && (forall p :: SizeAt(total, p) == Sum(sides, p))
  }

  ghost predicate Aggregates(venues: Venues, agg: Book) {
    Totals(BidsOf(venues), agg.bids) && Totals(AsksOf(venues), agg.asks)
  }

  /** The venues determine the aggregate: keys are exactly the prices with a positive sum. */
  lemma AggregateUnique(venues: Venues, a: Book, b: Book)
    requires Aggregates(venues, a) && Aggregates(venues, b)
    ensures a == b
    ensures forall p :: p in a.bids <==> Sum(BidsOf(venues), p) > 0
    ensures forall p :: p in a.asks <==> Sum(AsksOf(venues), p) > 0
  {
    forall p
      ensures SizeAt(a.bids, p) == SizeAt(b.bids, p) == Sum(BidsOf(venues), p)
      ensures SizeAt(a.asks, p) == SizeAt(b.asks, p) == Sum(AsksOf(venues), p)
    {
    }
    SidesEqual(a.bids, b.bids);
    SidesEqual(a.asks, b.asks);
  }

  // ----- folding levels in -----

  /** A venue's side, the aggregate's side, and the (price, new aggregate size) reports so far. */
  datatype Fold = Fold(venue: Side, total: Side, reports: seq<Level>)

  /** Adds `delta` at `price`; None when nothing changes, else the resulting size. */
  function AdjustAggregate(total: Side, price: int, delta: int): (Side, Option<int>) {
    if delta == 0 then (total, None)
    else
      var updated := SizeAt(total, price) + delta;
      if updated <= 0 then (total - {price}, Some(0)) else (total[price := updated], Some(updated))
  }

  function Reporting(reports: seq<Level>, price: int, result: Option<int>): seq<Level> {
    if result.Some? then reports + [Level(price, result.value)] else reports
  }

  function ApplyLevel(f: Fold, l: Level): Fold {
    var (total, result) := AdjustAggregate(f.total, l.price, l.size - SizeAt(f.venue, l.price));
    Fold(SetLevel(f.venue, l), total, Reporting(f.reports, l.price, result))
  }

  function FoldAll(f: Fold, levels: seq<Level>): Fold {
    if levels == [] then f else ApplyLevel(FoldAll(f, levels[..|levels| - 1]), levels[|levels| - 1])
  }

  /** Starting from venue side v and total t: the other venues' share is untouched and replaying
      the reports on t gives the new total. */
  ghost predicate Tracks(v: Side, t: Side, f: Fold) {
    && WellFormed(f.venue) && WellFormed(f.total) && AllValid(f.reports)
    && (forall p :: SizeAt(f.total, p) - SizeAt(f.venue, p) == SizeAt(t, p) - SizeAt(v, p))
    && f.total == ApplyLevels(t, f.reports)
  }

  ghost predicate Dominates(v: Side, t: Side) {
    WellFormed(v) && WellFormed(t) && forall p :: SizeAt(v, p) <= SizeAt(t, p)
  }

  lemma ApplyLevelSizes(v: Side, t: Side, f: Fold, l: Level)
    requires Dominates(v, t) && Tracks(v, t, f) && IsValidLevel(l)
    ensures var g := ApplyLevel(f, l);
      && WellFormed(g.venue) && WellFormed(g.total)
      && (forall p :: SizeAt(g.total, p) - SizeAt(g.venue, p) == SizeAt(t, p) - SizeAt(v, p))
  {
    var g := ApplyLevel(f, l);
    assert SizeAt(f.total, l.price) - SizeAt(f.venue, l.price) == SizeAt(t, l.price) - SizeAt(v, l.price);
    forall p
      ensures SizeAt(g.total, p) - SizeAt(g.venue, p) == SizeAt(t, p) - SizeAt(v, p)
    {
      assert SizeAt(f.total, p) - SizeAt(f.venue, p) == SizeAt(t, p) - SizeAt(v, p);
    }
  }

  /** One more report replays to one more change. */
  lemma ReportReplays(t: Side, f: Fold, l: Level)
    requires f.total == ApplyLevels(t, f.reports) && AllValid(f.reports) && WellFormed(f.total) && IsValidLevel(l)
    requires SizeAt(f.total, l.price) >= SizeAt(f.venue, l.price)
    ensures ApplyLevel(f, l).total == ApplyLevels(t, ApplyLevel(f, l).reports) && AllValid(ApplyLevel(f, l).reports)
  {
    var g := ApplyLevel(f, l);
    if l.size != SizeAt(f.venue, l.price) {
      var report := Level(l.price, SizeAt(f.total, l.price) + l.size - SizeAt(f.venue, l.price));
      assert g.reports == f.reports + [report];
      ApplyLevelsSnoc(t, f.reports, report);
    }
  }

  lemma ApplyLevelsSnoc(side: Side, levels: seq<Level>, l: Level)
    ensures ApplyLevels(side, levels + [l]) == SetLevel(ApplyLevels(side, levels), l)
  {
    assert (levels + [l])[..|levels|] == levels;
  }

  lemma ApplyLevelReplays(v: Side, t: Side, f: Fold, l: Level)
    requires Dominates(v, t) && Tracks(v, t, f) && IsValidLevel(l)
    ensures Tracks(v, t, ApplyLevel(f, l))
  {
    ApplyLevelSizes(v, t, f, l);
    assert SizeAt(f.total, l.price) - SizeAt(f.venue, l.price) == SizeAt(t, l.price) - SizeAt(v, l.price);
    ReportReplays(t, f, l);
  }

  lemma {:induction false} FoldTracks(v: Side, t: Side, levels: seq<Level>)
    requires Dominates(v, t) && AllValid(levels)
    ensures Tracks(v, t, FoldAll(Fold(v, t, []), levels))
    ensures FoldAll(Fold(v, t, []), levels).venue == ApplyLevels(v, levels)
  {
    if levels != [] {
      FoldTracks(v, t, levels[..|levels| - 1]);
      ApplyLevelReplays(v, t, FoldAll(Fold(v, t, []), levels[..|levels| - 1]), levels[|levels| - 1]);
    }
  }

  // ----- which prices are reported -----

  /** Some entry for `p` differs from the size the venue had there before the batch. */
  ghost predicate Moves(levels: seq<Level>, v: Side, p: int) {
    exists i :: 0 <= i < |levels| && levels[i].price == p && levels[i].size != SizeAt(v, p)
  }

  lemma MovesSnoc(levels: seq<Level>, v: Side, p: int)
    requires levels != []
    ensures
      var init, l := levels[..|levels| - 1], levels[|levels| - 1];
      Moves(levels, v, p) <==> Moves(init, v, p) || (l.price == p && l.size != SizeAt(v, p))
  {
    var init := levels[..|levels| - 1];
    if Moves(init, v, p) {
      var i :| 0 <= i < |init| && init[i].price == p && init[i].size != SizeAt(v, p);
      assert levels[i] == init[i];
    }
    if Moves(levels, v, p) {
      var i :| 0 <= i < |levels| && levels[i].price == p && levels[i].size != SizeAt(v, p);
      assert i < |init| ==> init[i] == levels[i];
    }
  }

  lemma {:induction false} UnmovedKeepsSize(levels: seq<Level>, v: Side, p: int)
    requires !Moves(levels, v, p)
    ensures LastSize(levels, p, SizeAt(v, p)) == SizeAt(v, p)
  {
    if levels != [] {
      MovesSnoc(levels, v, p);
      if levels[|levels| - 1].price != p {
        UnmovedKeepsSize(levels[..|levels| - 1], v, p);
      } else {
        assert levels[|levels| - 1].size == SizeAt(v, p);
      }
    }
  }

  lemma ListsSnoc(reports: seq<Level>, l: Level, p: int)
    ensures Lists(reports + [l], p) <==> Lists(reports, p) || l.price == p
  {
    var all := reports + [l];
    if Lists(reports, p) {
      var i :| 0 <= i < |reports| && reports[i].price == p;
      assert all[i].price == p;
    }
    if l.price == p { assert all[|reports|].price == p; }
    if Lists(all, p) {
      var i :| 0 <= i < |all| && all[i].price == p;
      assert i < |reports| ==> reports[i].price == p;
    }
  }

  /** A price is reported exactly when some entry for it differs from what the venue had. */
  lemma {:induction false} ReportedIff(v: Side, t: Side, levels: seq<Level>, p: int)
    requires AllValid(levels)
    ensures Lists(FoldAll(Fold(v, t, []), levels).reports, p) <==> Moves(levels, v, p)
  {
    if levels != [] {
      var init, l := levels[..|levels| - 1], levels[|levels| - 1];
      ReportedIff(v, t, init, p);
      MovesSnoc(levels, v, p);
      var f, g := FoldAll(Fold(v, t, []), init), FoldAll(Fold(v, t, []), levels);
      FoldVenue(v, t, init);
      ApplyLevelsSizeAt(v, init, p);
      if g.reports != f.reports {
        ListsSnoc(f.reports, g.reports[|f.reports|], p);
      }
      if l.price == p && !Moves(init, v, p) {
        UnmovedKeepsSize(init, v, p);
      }
    }
  }

  lemma {:induction false} FoldVenue(v: Side, t: Side, levels: seq<Level>)
    ensures FoldAll(Fold(v, t, []), levels).venue == ApplyLevels(v, levels)
  {
    if levels != [] {
      FoldVenue(v, t, levels[..|levels| - 1]);
    }
  }

  lemma {:induction false} ReportsDistinct(v: Side, t: Side, levels: seq<Level>)
    requires Distinct(levels)
    ensures Distinct(FoldAll(Fold(v, t, []), levels).reports)
    ensures forall p :: Lists(FoldAll(Fold(v, t, []), levels).reports, p) ==> Lists(levels, p)
  {
    if levels != [] {
      var init, l := levels[..|levels| - 1], levels[|levels| - 1];
      ReportsDistinct(v, t, init);
      var f, g := FoldAll(Fold(v, t, []), init), FoldAll(Fold(v, t, []), levels);
      assert levels == init + [l];
      assert !Lists(init, l.price);
      forall i | 0 <= i < |f.reports|
        ensures f.reports[i].price != l.price
      {
        assert Lists(f.reports, f.reports[i].price);
      }
      forall p | Lists(g.reports, p)
        ensures Lists(levels, p)
      {
        ListsSnoc(init, l, p);
        if g.reports != f.reports { ListsSnoc(f.reports, g.reports[|f.reports|], p); }
      }
    }
  }

  /** Without duplicates the last entry is the only one, so moving is changing. */
  lemma {:induction false} DistinctMoves(levels: seq<Level>, v: Side, p: int)
    requires Distinct(levels)
    ensures Moves(levels, v, p) <==> LastSize(levels, p, SizeAt(v, p)) != SizeAt(v, p)
  {
    if levels != [] {
      var init, l := levels[..|levels| - 1], levels[|levels| - 1];
      MovesSnoc(levels, v, p);
      if l.price == p {
        assert !Moves(init, v, p) by {
          assert forall i :: 0 <= i < |init| ==> init[i] == levels[i];
        }
      } else {
        DistinctMoves(init, v, p);
      }
    }
  }

  /** Replaying the reports on the old side gives the new one. */
  ghost predicate Replays(before: Side, reports: seq<Level>, after: Side) {
    AllValid(reports) && ApplyLevels(before, reports) == after
  }

  /** Each price is reported once, and exactly the prices whose size changed are. */
  ghost predicate Exact(before: Side, reports: seq<Level>, after: Side) {
    Distinct(reports) && forall p :: Lists(reports, p) <==> SizeAt(before, p) != SizeAt(after, p)
  }

  lemma DistinctFoldExact(v: Side, t: Side, levels: seq<Level>)
    requires Dominates(v, t) && AllValid(levels) && Distinct(levels)
    ensures Exact(t, FoldAll(Fold(v, t, []), levels).reports, FoldAll(Fold(v, t, []), levels).total)
  {
    var f := FoldAll(Fold(v, t, []), levels);
    FoldTracks(v, t, levels);
    ReportsDistinct(v, t, levels);
    forall p
      ensures Lists(f.reports, p) <==> SizeAt(t, p) != SizeAt(f.total, p)
    {
      ReportedIff(v, t, levels, p);
      DistinctMoves(levels, v, p);
      ApplyLevelsSizeAt(v, levels, p);
      assert SizeAt(f.total, p) - SizeAt(f.venue, p) == SizeAt(t, p) - SizeAt(v, p);
    }
  }

  /** A repeated price can be reported although nothing changed in the end. */
  lemma DuplicateReportsSpuriously()
    ensures
      var f := FoldAll(Fold(map[100 := 5], map[100 := 5], []), [Level(100, 7), Level(100, 5)]);
      f.total == map[100 := 5] && f.reports == [Level(100, 7), Level(100, 5)]
  {
    var f0 := Fold(map[100 := 5], map[100 := 5], []);
    var levels := [Level(100, 7), Level(100, 5)];
    assert levels[..1] == [Level(100, 7)] && [Level(100, 7)][..0] == [];
    var f1 := FoldAll(f0, [Level(100, 7)]);
    assert f1 == Fold(map[100 := 7], map[100 := 7], [Level(100, 7)]);
    assert FoldAll(f0, levels) == ApplyLevel(f1, Level(100, 5));
  }
}
