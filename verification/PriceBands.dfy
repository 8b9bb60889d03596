/** Depth within basis points of a reference: one pass over levels and thresholds against the
    per-threshold sums it stands for. */
module PriceBands {
  import opened Levels
  import opened Rounding
  import opened Decimal

  const BPS_DENOMINATOR := 10_000
  const SIZE_SCALE := 1_000_000

  datatype BandSide = Ask | Bid

  datatype PriceBand = PriceBand(bps: int, boundary: int, size: int, notional: int)

  /** price * size at notional precision. */
  function LevelNotional(l: Level): int {
    RoundDivNearestAway(l.price * l.size, SIZE_SCALE)
  }

  // ----- boundaries and membership -----

  /** ceil or floor of price * (10000 + bps) / 10000, with the source's truncating division. */
  function OffsetRaw(price: int, signedBps: int, roundDown: bool): int {
    var scaled := price * (BPS_DENOMINATOR + signedBps);
    if roundDown then TruncDiv(scaled, BPS_DENOMINATOR) else TruncDiv(scaled + BPS_DENOMINATOR - 1, BPS_DENOMINATOR)
  }

  function OffsetByBps(price: int, signedBps: int, roundDown: bool): Result<int> {
    FromRawSafe(OffsetRaw(price, signedBps, roundDown))
  }

  predicate WithinBps(price: int, reference: int, signedBps: int, ge: bool) {
    var lhs, rhs := price * BPS_DENOMINATOR, reference * (BPS_DENOMINATOR + signedBps);
    if ge then lhs >= rhs else lhs <= rhs
  }

  function Boundary(side: BandSide, reference: int, bps: int): int {
    if side.Ask? then OffsetRaw(reference, bps, true) else OffsetRaw(reference, -bps, false)
  }

  function RoundInner(side: BandSide, reference: int, bps: int): Result<int> {
    if side.Ask? then OffsetByBps(reference, bps, true) else OffsetByBps(reference, -bps, false)
  }

  predicate Within(side: BandSide, price: int, reference: int, bps: int) {
    if side.Ask? then WithinBps(price, reference, bps, false) else WithinBps(price, reference, -bps, true)
  }

  predicate ValidBps(side: BandSide, bps: int) {
    bps >= 0 && (side.Bid? ==> bps < BPS_DENOMINATOR)
  }

  predicate ThresholdsValid(side: BandSide, thresholds: seq<int>) {
    && (forall i, j :: 0 <= i < j < |thresholds| ==> thresholds[i] <= thresholds[j])
    && (forall i :: 0 <= i < |thresholds| ==> ValidBps(side, thresholds[i]))
  }

  /** The inward-rounded boundary decides membership exactly as the cross-multiplied test does. */
  lemma BoundaryDecidesMembership(side: BandSide, price: int, reference: int, bps: int)
    requires reference > 0 && ValidBps(side, bps)
    ensures side.Ask? ==> (Within(side, price, reference, bps) <==> price <= Boundary(side, reference, bps))
    ensures side.Bid? ==> (Within(side, price, reference, bps) <==> price >= Boundary(side, reference, bps))
    ensures Boundary(side, reference, bps) > 0
  {
    var factor := BPS_DENOMINATOR + (if side.Ask? then bps else -bps);
    var scaled := reference * factor;
    MulLe(1, factor, reference);
    assert scaled >= reference;
    if side.Ask? {
      MulLe(BPS_DENOMINATOR, factor, reference);
    }
  }

  /** A wider threshold reaches at least as far, at its boundary and for every price. */
  lemma WiderReachesFarther(side: BandSide, reference: int, narrow: int, wide: int)
    requires reference > 0 && ValidBps(side, narrow) && ValidBps(side, wide) && narrow <= wide
    ensures side.Ask? ==> Boundary(side, reference, narrow) <= Boundary(side, reference, wide)
    ensures side.Bid? ==> Boundary(side, reference, narrow) >= Boundary(side, reference, wide)
    ensures forall price :: Within(side, price, reference, narrow) ==> Within(side, price, reference, wide)
  {
    if side.Ask? {
      MulLe(BPS_DENOMINATOR + narrow, BPS_DENOMINATOR + wide, reference);
      BoundaryDecidesMembership(side, Boundary(side, reference, narrow), reference, narrow);
      BoundaryDecidesMembership(side, Boundary(side, reference, narrow), reference, wide);
    } else {
      MulLe(BPS_DENOMINATOR - wide, BPS_DENOMINATOR - narrow, reference);
      BoundaryDecidesMembership(side, Boundary(side, reference, narrow), reference, narrow);
      BoundaryDecidesMembership(side, Boundary(side, reference, narrow), reference, wide);
    }
  }

  // ----- in basis points -----

  /** A price is a member when its distance beyond the reference is at most `bps` ten-thousandths of it. */
  predicate Near(side: BandSide, price: int, reference: int, bps: int) {
    (if side.Ask? then price - reference else reference - price) * 10_000 <= reference * bps
  }

  lemma MembershipInBasisPoints(side: BandSide, price: int, reference: int, bps: int)
    ensures Within(side, price, reference, bps) <==> Near(side, price, reference, bps)
  {
    assert reference * (10_000 + bps) == reference * 10_000 + reference * bps;
    assert reference * (10_000 - bps) == reference * 10_000 - reference * bps;
    assert reference * (10_000 + -bps) == reference * 10_000 - reference * bps;
  }

  /** The boundary is the farthest price that is a member. */
  lemma BoundaryIsFarthest(side: BandSide, reference: int, bps: int)
    requires reference > 0 && ValidBps(side, bps)
    ensures
      var b := Boundary(side, reference, bps);
      && Near(side, b, reference, bps)
      && !Near(side, if side.Ask? then b + 1 else b - 1, reference, bps)
  {
    var b := Boundary(side, reference, bps);
    var next := if side.Ask? then b + 1 else b - 1;
    BoundaryDecidesMembership(side, b, reference, bps);
    BoundaryDecidesMembership(side, next, reference, bps);
    MembershipInBasisPoints(side, b, reference, bps);
    MembershipInBasisPoints(side, next, reference, bps);
  }

  /** Thresholds are sorted, not negative, and on the bid side below the whole price. */
  lemma ThresholdsInBasisPoints(side: BandSide, thresholds: seq<int>)
    ensures ThresholdsValid(side, thresholds) <==>
      (forall i, j :: 0 <= i < j < |thresholds| ==> thresholds[i] <= thresholds[j]) &&
      (forall i :: 0 <= i < |thresholds| ==> 0 <= thresholds[i] && (side.Bid? ==> thresholds[i] < 10_000))
  {
  }

  /** A level's notional: nine decimals times six, rounded back to nine. */
  lemma NotionalIsNearest(l: Level)
    ensures IsNearestAway(l.price * l.size, 1_000_000, LevelNotional(l))
  {
    RoundIsNearestAway(l.price * l.size, 1_000_000);
  }

  // ----- the per-threshold definition -----

  function SumSize(levels: seq<Level>): int {
    if levels == [] then 0 else SumSize(levels[..|levels| - 1]) + levels[|levels| - 1].size
  }

  function SumNotional(levels: seq<Level>): int {
    if levels == [] then 0 else SumNotional(levels[..|levels| - 1]) + LevelNotional(levels[|levels| - 1])
  }

  /** The levels within the threshold, wherever they are in the list. */
  function Members(side: BandSide, levels: seq<Level>, reference: int, bps: int): seq<Level> {
    if levels == [] then []
    else
      var init, l := Members(side, levels[..|levels| - 1], reference, bps), levels[|levels| - 1];
      if Within(side, l.price, reference, bps) then init + [l] else init
  }

  /** The band the specification asks for, level by level and threshold by threshold. */
  function BandOf(side: BandSide, levels: seq<Level>, reference: int, bps: int): PriceBand {
    var members := Members(side, levels, reference, bps);
    PriceBand(bps, Boundary(side, reference, bps), SumSize(members), SumNotional(members))
  }

  /** The levels near the reference, told by their prices alone. */
  function NearLevels(side: BandSide, levels: seq<Level>, reference: int, bps: int): seq<Level> {
    if levels == [] then []
    else
      var l := levels[|levels| - 1];
      NearLevels(side, levels[..|levels| - 1], reference, bps) + (if Near(side, l.price, reference, bps) then [l] else [])
  }

  lemma {:induction false} BandInBasisPoints(side: BandSide, levels: seq<Level>, reference: int, bps: int)
    ensures Members(side, levels, reference, bps) == NearLevels(side, levels, reference, bps)
  {
    if levels != [] {
      BandInBasisPoints(side, levels[..|levels| - 1], reference, bps);
      MembershipInBasisPoints(side, levels[|levels| - 1].price, reference, bps);
    }
  }

  /** A band reports its threshold, the farthest member price, and the totals of the near levels. */
  ghost predicate Reports(side: BandSide, levels: seq<Level>, reference: int, bps: int, band: PriceBand) {
    var near := NearLevels(side, levels, reference, bps);
    && band.bps == bps && band.size == SumSize(near) && band.notional == SumNotional(near)
    && Near(side, band.boundary, reference, bps)
    && !Near(side, if side.Ask? then band.boundary + 1 else band.boundary - 1, reference, bps)
  }

  lemma BandReports(side: BandSide, levels: seq<Level>, reference: int, bps: int)
    requires reference > 0 && ValidBps(side, bps)
    ensures Reports(side, levels, reference, bps, BandOf(side, levels, reference, bps))
  {
    BandInBasisPoints(side, levels, reference, bps);
    BoundaryIsFarthest(side, reference, bps);
  }

  lemma AllReport(side: BandSide, levels: seq<Level>, reference: int, thresholds: seq<int>, bands: seq<PriceBand>)
    requires reference > 0 && ThresholdsValid(side, thresholds) && |bands| == |thresholds|
    requires forall k :: 0 <= k < |thresholds| ==> bands[k] == BandOf(side, levels, reference, thresholds[k])
    ensures forall k :: 0 <= k < |thresholds| ==> Reports(side, levels, reference, thresholds[k], bands[k])
  {
    forall k | 0 <= k < |thresholds|
      ensures Reports(side, levels, reference, thresholds[k], bands[k])
    {
      BandReports(side, levels, reference, thresholds[k]);
    }
  }

  predicate Ordered(side: BandSide, p: int, q: int) {
    if side.Ask? then p <= q else p >= q
  }

  lemma BeyondStaysBeyond(side: BandSide, p: int, q: int, reference: int, bps: int)
    requires Ordered(side, p, q) && !Within(side, p, reference, bps)
    ensures !Within(side, q, reference, bps)
  {
    assert side.Ask? ==> p * BPS_DENOMINATOR <= q * BPS_DENOMINATOR;
    assert side.Bid? ==> p * BPS_DENOMINATOR >= q * BPS_DENOMINATOR;
  }

  /** In a best-first list the members are a prefix. */
  lemma {:induction false} MembersArePrefix(side: BandSide, levels: seq<Level>, reference: int, bps: int, i: nat)
    requires i <= |levels|
    requires forall k :: 0 <= k < i ==> Within(side, levels[k].price, reference, bps)
    requires forall k :: i <= k < |levels| ==> !Within(side, levels[k].price, reference, bps)
    ensures Members(side, levels, reference, bps) == levels[..i]
    decreases |levels|
  {
    if levels != [] {
      var init := levels[..|levels| - 1];
      if i == |levels| {
        MembersArePrefix(side, init, reference, bps, i - 1);
        assert levels[..i] == init[..i - 1] + [levels[i - 1]];
      } else {
        MembersArePrefix(side, init, reference, bps, i);
        assert levels[..i] == init[..i];
      }
    }
  }

  /** How many leading levels the threshold reaches. */
  function Reach(side: BandSide, levels: seq<Level>, reference: int, bps: int): (k: nat)
    ensures k <= |levels|
    ensures forall i :: 0 <= i < k ==> Within(side, levels[i].price, reference, bps)
    ensures k < |levels| ==> !Within(side, levels[k].price, reference, bps)
  {
    if levels == [] || !Within(side, levels[0].price, reference, bps) then 0
    else
      var k := Reach(side, levels[1..], reference, bps);
      assert forall i :: 0 < i < |levels| ==> levels[i] == levels[1..][i - 1];
      k + 1
  }

  /** Whatever stopping point the walk finds gives the specified band. */
  lemma StoppingPoint(side: BandSide, levels: seq<Level>, reference: int, bps: int, i: nat)
    requires BestFirst(levels, side.Bid?) && i <= |levels|
    requires forall k :: 0 <= k < i ==> Within(side, levels[k].price, reference, bps)
    requires i < |levels| ==> !Within(side, levels[i].price, reference, bps)
    ensures BandOf(side, levels, reference, bps)
         == PriceBand(bps, Boundary(side, reference, bps), SumSize(levels[..i]), SumNotional(levels[..i]))
    ensures i == Reach(side, levels, reference, bps)
  {
    forall k | i <= k < |levels|
      ensures !Within(side, levels[k].price, reference, bps)
    {
      if k > i {
        assert Before(levels[i].price, levels[k].price, side.Bid?);
        BeyondStaysBeyond(side, levels[i].price, levels[k].price, reference, bps);
      }
    }
    MembersArePrefix(side, levels, reference, bps, i);
  }

  // ----- the walk -----

  lemma {:induction false} SumNotionalGrows(levels: seq<Level>, i: nat)
    requires i <= |levels| && AllValid(levels)
    ensures 0 <= SumNotional(levels[..i]) <= SumNotional(levels)
    decreases |levels|
  {
    if levels == [] {
    } else {
      var init, l := levels[..|levels| - 1], levels[|levels| - 1];
      assert IsValidLevel(l);
      MulLe(0, l.price, l.size);
      RoundBrackets(l.price * l.size, SIZE_SCALE);
      if i == |levels| {
        SumNotionalGrows(init, |init|);
        assert levels[..i] == levels && init[..|init|] == init;
      } else {
        SumNotionalGrows(init, i);
        assert init[..i] == levels[..i];
      }
    }
  }

  /** Levels the walk can need: those the widest threshold reaches, and the first one beyond. */
  function Needed(side: BandSide, levels: seq<Level>, reference: int, thresholds: seq<int>): (k: nat)
    ensures k <= |levels|
  {
    if thresholds == [] then 0 else Reach(side, levels, reference, thresholds[|thresholds| - 1])
  }

  function WalkedLevels(side: BandSide, levels: seq<Level>, reference: int, thresholds: seq<int>): (walked: nat)
    ensures walked <= |levels|
  {
    var k := Needed(side, levels, reference, thresholds);
    if k < |levels| then k + 1 else |levels|
  }

  /** Exactly when there is an answer: sane thresholds and reference, valid levels as far as they
      matter, boundaries and the deepest total in range. */
  ghost predicate Computable(side: BandSide, levels: seq<Level>, reference: int, thresholds: seq<int>) {
    && ThresholdsValid(side, thresholds) && reference > 0
    && AllValid(levels[..WalkedLevels(side, levels, reference, thresholds)])
    && (forall k :: 0 <= k < |thresholds| ==> FitsRaw(Boundary(side, reference, thresholds[k])))
    && SumNotional(levels[..Needed(side, levels, reference, thresholds)]) <= RAW_MAX
  }

  /** The bands for thresholds[..next] are final, each found at or before level i. */
  ghost predicate Emitted(
      side: BandSide, levels: seq<Level>, reference: int, thresholds: seq<int>, bands: seq<PriceBand>, i: nat) {
    && |bands| <= |thresholds|
    && forall k :: 0 <= k < |bands| ==>
         && bands[k] == BandOf(side, levels, reference, thresholds[k])
         && FitsRaw(Boundary(side, reference, thresholds[k]))
         && Reach(side, levels, reference, thresholds[k]) <= i
  }

  /** Every level before i is within every threshold from `next` on. */
  ghost predicate AllReached(
      side: BandSide, levels: seq<Level>, reference: int, thresholds: seq<int>, next: nat, i: nat) {
    i <= |levels| &&
    forall k, j :: next <= k < |thresholds| && 0 <= j < i ==> Within(side, levels[j].price, reference, thresholds[k])
  }

  lemma EmitOne(
      side: BandSide, levels: seq<Level>, reference: int, thresholds: seq<int>, bands: seq<PriceBand>, i: nat)
    requires BestFirst(levels, side.Bid?) && Emitted(side, levels, reference, thresholds, bands, i)
    requires |bands| < |thresholds| && AllReached(side, levels, reference, thresholds, |bands|, i)
    requires i < |levels| ==> !Within(side, levels[i].price, reference, thresholds[|bands|])
    requires FitsRaw(Boundary(side, reference, thresholds[|bands|]))
    ensures
      var bps := thresholds[|bands|];
      var band := PriceBand(bps, Boundary(side, reference, bps), SumSize(levels[..i]), SumNotional(levels[..i]));
      Emitted(side, levels, reference, thresholds, bands + [band], i)
  {
    StoppingPoint(side, levels, reference, thresholds[|bands|], i);
  }

  /** The inner loop at level i: emits every threshold this level lies beyond. */
  method EmitBeyond(side: BandSide, levels: seq<Level>, reference: int, thresholds: seq<int>, before: seq<PriceBand>,
                    i: nat, cumSize: int, cumNotional: int)
    returns (bands: seq<PriceBand>, fits: bool)
    requires BestFirst(levels, side.Bid?) && Emitted(side, levels, reference, thresholds, before, i)
    requires AllReached(side, levels, reference, thresholds, |before|, i)
    requires cumSize == SumSize(levels[..i]) && cumNotional == SumNotional(levels[..i])
    ensures !fits ==> exists k :: 0 <= k < |thresholds| && !FitsRaw(Boundary(side, reference, thresholds[k]))
    ensures fits ==> |before| <= |bands| && Emitted(side, levels, reference, thresholds, bands, i)
    ensures fits ==> AllReached(side, levels, reference, thresholds, |bands|, i)
    ensures fits && |bands| < |thresholds| ==> i < |levels| && Within(side, levels[i].price, reference, thresholds[|bands|])
  {
    bands := before;
    while |bands| < |thresholds|
      invariant |before| <= |bands| <= |thresholds| && Emitted(side, levels, reference, thresholds, bands, i)
      invariant AllReached(side, levels, reference, thresholds, |bands|, i)
      decreases |thresholds| - |bands|
    {
      var bps := thresholds[|bands|];
      if i < |levels| && Within(side, levels[i].price, reference, bps) { return bands, true; }
      var boundary := RoundInner(side, reference, bps);
      if boundary.Err? { return bands, false; }
      EmitOne(side, levels, reference, thresholds, bands, i);
      bands := bands + [PriceBand(bps, boundary.value, cumSize, cumNotional)];
    }
    fits := true;
  }

  lemma ReachedNext(side: BandSide, levels: seq<Level>, reference: int, thresholds: seq<int>, next: nat, i: nat)
    requires ThresholdsValid(side, thresholds) && reference > 0 && next < |thresholds| && i < |levels|
    requires AllReached(side, levels, reference, thresholds, next, i)
    requires Within(side, levels[i].price, reference, thresholds[next])
    ensures AllReached(side, levels, reference, thresholds, next, i + 1)
    ensures i < Needed(side, levels, reference, thresholds)
  {
    forall k | next <= k < |thresholds|
      ensures Within(side, levels[i].price, reference, thresholds[k])
    {
      WiderReachesFarther(side, reference, thresholds[next], thresholds[k]);
    }
    NeededCovers(side, levels, reference, thresholds, next, i + 1);
  }

  lemma NeededCovers(side: BandSide, levels: seq<Level>, reference: int, thresholds: seq<int>, next: nat, i: nat)
    requires next < |thresholds| && AllReached(side, levels, reference, thresholds, next, i)
    ensures i <= Needed(side, levels, reference, thresholds)
  {
    var k := |thresholds| - 1;
    var n := Reach(side, levels, reference, thresholds[k]);
    assert forall j :: 0 <= j < i ==> Within(side, levels[j].price, reference, thresholds[k]);
  }

  lemma BadLevelNotComputable(side: BandSide, levels: seq<Level>, reference: int, thresholds: seq<int>, i: nat)
    requires i < |levels| && !IsValidLevel(levels[i]) && i <= Needed(side, levels, reference, thresholds)
    ensures !Computable(side, levels, reference, thresholds)
  {
    var walked := levels[..WalkedLevels(side, levels, reference, thresholds)];
    assert walked[i] == levels[i];
  }

  lemma OverflowNotComputable(side: BandSide, levels: seq<Level>, reference: int, thresholds: seq<int>, i: nat)
    requires i < Needed(side, levels, reference, thresholds) && SumNotional(levels[..i + 1]) > RAW_MAX
    ensures !Computable(side, levels, reference, thresholds)
  {
    var n := Needed(side, levels, reference, thresholds);
    var walked := levels[..WalkedLevels(side, levels, reference, thresholds)];
    if AllValid(walked) {
      var deepest := levels[..n];
      assert forall k :: 0 <= k < n ==> deepest[k] == walked[k];
      SumNotionalGrows(deepest, i + 1);
      assert deepest[..i + 1] == levels[..i + 1];
    }
  }

  lemma DoneComputable(
      side: BandSide, levels: seq<Level>, reference: int, thresholds: seq<int>, bands: seq<PriceBand>, i: nat)
    requires ThresholdsValid(side, thresholds) && reference > 0
    requires |bands| == |thresholds| && Emitted(side, levels, reference, thresholds, bands, i)
    requires i <= |levels| && AllValid(levels[..i]) && (i < |levels| ==> IsValidLevel(levels[i]))
    requires SumNotional(levels[..i]) <= RAW_MAX
    ensures Computable(side, levels, reference, thresholds)
  {
    var n := Needed(side, levels, reference, thresholds);
    assert n <= i;
    var walked := levels[..WalkedLevels(side, levels, reference, thresholds)];
    forall k | 0 <= k < |walked|
      ensures IsValidLevel(walked[k])
    {
      assert k < i ==> walked[k] == levels[..i][k];
    }
    SumNotionalGrows(levels[..i], n);
    assert levels[..i][..n] == levels[..n];
  }

  lemma SumsSnoc(levels: seq<Level>, i: nat)
    requires i < |levels|
    ensures SumSize(levels[..i + 1]) == SumSize(levels[..i]) + levels[i].size
    ensures SumNotional(levels[..i + 1]) == SumNotional(levels[..i]) + LevelNotional(levels[i])
    ensures AllValid(levels[..i]) && IsValidLevel(levels[i]) ==> AllValid(levels[..i + 1])
  {
    assert levels[..i + 1][..i] == levels[..i];
    assert levels[..i + 1] == levels[..i] + [levels[i]];
  }

  /** The one-pass walk gives, exactly when there is an answer, every threshold the band its own
      definition asks for. */
  method PriceBandDepth(side: BandSide, levels: seq<Level>, reference: int, thresholds: seq<int>)
    returns (r: Result<seq<PriceBand>>)
    requires BestFirst(levels, side.Bid?)
    ensures r.Ok? <==> Computable(side, levels, reference, thresholds)
    ensures r.Ok? ==> |r.value| == |thresholds|
    ensures r.Ok? ==> forall k :: 0 <= k < |thresholds| ==> r.value[k] == BandOf(side, levels, reference, thresholds[k])
    ensures r.Ok? ==> forall k :: 0 <= k < |thresholds| ==> Reports(side, levels, reference, thresholds[k], r.value[k])
    ensures r.Err? && ThresholdsValid(side, thresholds) && reference > 0 && AllValid(levels) ==> r == Err(ResultOutOfRange)
    ensures r == Err(InvalidArgument) <==> !ThresholdsValid(side, thresholds)
    ensures ThresholdsValid(side, thresholds) && reference <= 0 ==> r == Err(ArgumentOutOfDomain)
  {
    if !ThresholdsValid(side, thresholds) { return Err(InvalidArgument); }
    if reference <= 0 { return Err(ArgumentOutOfDomain); }
    var bands, fits: bool, cumSize, cumNotional, i := [], true, 0, 0, 0;
    while i < |levels|
      invariant 0 <= i <= |levels| && AllValid(levels[..i])
      invariant Emitted(side, levels, reference, thresholds, bands, i)
      invariant AllReached(side, levels, reference, thresholds, |bands|, i)
      invariant cumSize == SumSize(levels[..i]) && cumNotional == SumNotional(levels[..i]) && cumNotional <= RAW_MAX
      invariant i <= Needed(side, levels, reference, thresholds)
    {
      if !IsValidLevel(levels[i]) {
        BadLevelNotComputable(side, levels, reference, thresholds, i);
        return Err(ArgumentOutOfDomain);
      }
      bands, fits := EmitBeyond(side, levels, reference, thresholds, bands, i, cumSize, cumNotional);
      if !fits { return Err(ResultOutOfRange); }
      if |bands| >= |thresholds| {
        DoneComputable(side, levels, reference, thresholds, bands, i);
        AllReport(side, levels, reference, thresholds, bands);
        return Ok(bands);
      }
      ReachedNext(side, levels, reference, thresholds, |bands|, i);
      SumsSnoc(levels, i);
      cumSize := cumSize + levels[i].size;
      var total := FromRawSafe(cumNotional + LevelNotional(levels[i]));
      SumNotionalGrows(levels[..i + 1], i + 1);
      assert levels[..i + 1][..i + 1] == levels[..i + 1];
      if total.Err? {
        OverflowNotComputable(side, levels, reference, thresholds, i);
        return Err(ResultOutOfRange);
      }
      cumNotional := total.value;
      i := i + 1;
    }
    bands, fits := EmitBeyond(side, levels, reference, thresholds, bands, i, cumSize, cumNotional);
    if !fits { return Err(ResultOutOfRange); }
    DoneComputable(side, levels, reference, thresholds, bands, i);
    AllReport(side, levels, reference, thresholds, bands);
    r := Ok(bands);
  }

  /** Bands against the side's own best price; an empty side has no bands, but its thresholds are
      still checked. */
  method BboPriceBandDepths(side: BandSide, book: Side, thresholds: seq<int>) returns (r: Result<seq<PriceBand>>)
    ensures book == map[] ==> r == if ThresholdsValid(side, thresholds) then Ok([]) else Err(InvalidArgument)
    ensures book != map[] ==>
      var levels, best := InOrder(book, side.Bid?), BestPrice(book, side.Bid?);
      && (r.Ok? <==> Computable(side, levels, best, thresholds))
      && (r.Ok? ==> |r.value| == |thresholds|)
      && (r.Ok? ==> forall k :: 0 <= k < |thresholds| ==> r.value[k] == BandOf(side, levels, best, thresholds[k]))
      && (r.Ok? ==> forall k :: 0 <= k < |thresholds| ==> Reports(side, levels, best, thresholds[k], r.value[k]))
  {
    if book == map[] {
      return if ThresholdsValid(side, thresholds) then Ok([]) else Err(InvalidArgument);
    }
    InOrderBestFirst(book, side.Bid?);
    r := PriceBandDepth(side, InOrder(book, side.Bid?), BestPrice(book, side.Bid?), thresholds);
  }
}
