/** VWAPs for reaching notional thresholds: the single-fraction partial fill, and the one-pass walk
    against its per-threshold definition. */
module VolumeBands {
  import opened Levels
  import opened Rounding
  import opened Decimal
  import opened PriceBands

  datatype VolumeBand = VolumeBand(threshold: int, vwap: Option<int>, filled: int)

  /** Notional / Size -> Price. */
  function DivideBySize(notional: int, size: int): Result<int> {
    if size <= 0 then Err(ArgumentOutOfDomain) else Ok(RoundDivNearestAway(notional * SIZE_SCALE, size))
  }

  /** VWAP of filling `remaining` at `price` on top of what is accumulated, rounded once. */
  function VwapAtPartialFill(cumNotional: int, cumSize: int, remaining: int, price: int): Result<int> {
    if price <= 0 then Err(ArgumentOutOfDomain)
    else
      var product := (cumNotional + remaining) * price;
      var limit := INT128_MAX / SIZE_SCALE;
      if product > limit || product < -limit then Err(ResultOutOfRange)
      else
        var denominator := cumSize * price + remaining * SIZE_SCALE;
        if denominator <= 0 then Err(ArgumentOutOfDomain)
        else Ok(RoundDivNearestAway(product * SIZE_SCALE, denominator))
  }

  /** What the walk guarantees when it asks for a partial fill. */
  predicate FillInvariants(cumNotional: int, cumSize: int, remaining: int, price: int) {
    0 <= cumNotional <= RAW_MAX && 0 <= cumSize <= RAW_MAX && 0 < remaining <= RAW_MAX && 0 < price <= RAW_MAX
  }

  /** Under those invariants every intermediate fits 128 bits, only the joint magnitude check can
      fail, and a returned value is the exact rational rounded to nearest, ties away from zero. */
  lemma PartialFillExact(cumNotional: int, cumSize: int, remaining: int, price: int)
    requires FillInvariants(cumNotional, cumSize, remaining, price)
    ensures
      var total, limit := cumNotional + remaining, INT128_MAX / SIZE_SCALE;
      var product, denominator := total * price, cumSize * price + remaining * SIZE_SCALE;
      var r := VwapAtPartialFill(cumNotional, cumSize, remaining, price);
      && IsInt128(total) && IsInt128(product) && IsInt128(cumSize * price) && IsInt128(remaining * SIZE_SCALE)
      && 0 < denominator && IsInt128(denominator)
      && (if product > limit then r == Err(ResultOutOfRange)
          else r.Ok? && IsInt128(product * SIZE_SCALE) && IsInt128(r.value)
               && IsNearestAway(product * SIZE_SCALE, denominator, r.value))
  {
    var total, limit := cumNotional + remaining, INT128_MAX / SIZE_SCALE;
    var product, denominator := total * price, cumSize * price + remaining * SIZE_SCALE;
    MulLe(0, total, price);
    MulLe(total, 2 * RAW_MAX, price);
    MulLe(price, RAW_MAX, 2 * RAW_MAX);
    MulLe(0, cumSize, price);
    MulLe(cumSize, RAW_MAX, price);
    MulLe(price, RAW_MAX, RAW_MAX);
    if product <= limit {
      RoundIsNearestAway(product * SIZE_SCALE, denominator);
      RoundStaysInRange(product * SIZE_SCALE, denominator);
    }
  }

  /** With x = N*S, y = P*C, w = R*S the fraction is (x + w)*P / (y + w): a mediant of x/C and P. */
  lemma Mediant(x: int, y: int, w: int, price: int, c: int)
    requires 0 <= x && 0 <= w && y == price * c
    ensures x <= y ==> (x + w) * price * 1 <= price * (y + w) || price < 0
    ensures x <= y ==> x * (y + w) <= (x + w) * price * c
    ensures x >= y ==> price * (y + w) <= (x + w) * price * 1 || price < 0
    ensures x >= y ==> (x + w) * price * c <= x * (y + w)
  {
    MulAssoc(x + w, price, c);
    assert (x + w) * y == x * y + w * y;
    assert x * (y + w) == x * y + w * x by { assert x * w == w * x; }
    if x <= y {
      MulLe(x, y, w);
      if price >= 0 { MulLe(x + w, y + w, price); }
    } else {
      MulLe(y, x, w);
      if price >= 0 { MulLe(y + w, x + w, price); }
    }
  }

  /** A partial fill's VWAP lies between the rounded average so far and the level's price. */
  lemma PartialFillBetween(cumNotional: int, cumSize: int, remaining: int, price: int)
    requires 0 <= cumNotional && 0 < cumSize && 0 < remaining && 0 < price
    requires VwapAtPartialFill(cumNotional, cumSize, remaining, price).Ok?
    ensures
      var average := RoundDivNearestAway(cumNotional * SIZE_SCALE, cumSize);
      var vwap := VwapAtPartialFill(cumNotional, cumSize, remaining, price).value;
      average <= vwap <= price || price <= vwap <= average
  {
    var x, y, w := cumNotional * SIZE_SCALE, price * cumSize, remaining * SIZE_SCALE;
    var num, den := (x + w) * price, y + w;
    MulLe(0, price, cumSize);
    MulLe(0, x + w, price);
    assert (cumNotional + remaining) * price * SIZE_SCALE == num by {
      MulAssoc(cumNotional + remaining, price, SIZE_SCALE);
      assert (cumNotional + remaining) * SIZE_SCALE == x + w;
    }
    assert cumSize * price == y;
    Mediant(x, y, w, price, cumSize);
    assert RoundDivNearestAway(price, 1) == price by { RoundExact(price, 1); }
    if x <= y {
      RoundMonotone(num, den, price, 1);
      RoundMonotone(x, cumSize, num, den);
    } else {
      RoundMonotone(price, 1, num, den);
      RoundMonotone(num, den, x, cumSize);
    }
  }

  /** Within the first level the VWAP is that level's price, exactly. */
  lemma FirstFillIsPrice(remaining: int, price: int)
    requires 0 < remaining && 0 < price && VwapAtPartialFill(0, 0, remaining, price).Ok?
    ensures VwapAtPartialFill(0, 0, remaining, price) == Ok(price)
  {
    var w := remaining * SIZE_SCALE;
    assert (0 + remaining) * price * SIZE_SCALE == price * w by { MulAssoc(remaining, price, SIZE_SCALE); MulAssoc(price, remaining, SIZE_SCALE); }
    assert 0 * price + w == w;
    RoundExact(price, w);
  }

  /** On sane totals only the joint magnitude check can fail. */
  lemma PartialFillFailsIff(cumNotional: int, cumSize: int, remaining: int, price: int)
    requires 0 <= cumNotional && 0 <= cumSize && 0 < remaining && 0 < price
    ensures
      var product, denominator := (cumNotional + remaining) * price, cumSize * price + remaining * SIZE_SCALE;
      && 0 < product && 0 < denominator
      && VwapAtPartialFill(cumNotional, cumSize, remaining, price)
         == if product > INT128_MAX / SIZE_SCALE then Err(ResultOutOfRange)
            else Ok(RoundDivNearestAway(product * SIZE_SCALE, denominator))
  {
    MulLt(0, cumNotional + remaining, price);
    MulLe(0, cumSize, price);
  }

  // ----- the per-threshold definition -----

  predicate ThresholdsPositive(thresholds: seq<int>) {
    && (forall i, j :: 0 <= i < j < |thresholds| ==> thresholds[i] <= thresholds[j])
    && (forall i :: 0 <= i < |thresholds| ==> thresholds[i] > 0)
  }

  /** The first level whose running total reaches `t`, or the number of levels. */
  function Crossing(levels: seq<Level>, t: int): (c: nat)
    ensures c <= |levels|
    ensures c < |levels| ==> SumNotional(levels[..c + 1]) >= t
    ensures forall i :: 0 < i <= c ==> SumNotional(levels[..i]) < t
  {
    if levels == [] then 0
    else
      var init := levels[..|levels| - 1];
      var c := Crossing(init, t);
      assert forall i :: 0 <= i <= |init| ==> init[..i] == levels[..i];
      assert levels[..|levels|] == levels;
      if c < |init| then c else if SumNotional(levels) >= t then |levels| - 1 else |levels|
  }

  /** VWAP of reaching `t` inside `level` on top of what is filled. */
  function VwapAt(filled: int, size: int, t: int, level: Level): Result<int> {
    if t - filled == LevelNotional(level) then DivideBySize(t, size + level.size)
    else VwapAtPartialFill(filled, size, t - filled, level.price)
  }

  function VwapOf(levels: seq<Level>, t: int, c: nat): Result<int>
    requires c < |levels|
  {
    VwapAt(SumNotional(levels[..c]), SumSize(levels[..c]), t, levels[c])
  }

  /** The band the specification asks for one threshold. */
  function BandFor(levels: seq<Level>, t: int): Result<VolumeBand> {
    var c := Crossing(levels, t);
    if c == |levels| then Ok(VolumeBand(t, None, SumNotional(levels)))
    else
      var vwap := VwapOf(levels, t, c);
      if vwap.Ok? then Ok(VolumeBand(t, Some(vwap.value), t)) else Err(vwap.error)
  }

  /** A threshold is crossed at some level iff the whole side's summed notional reaches it. */
  lemma CrossedIffReached(levels: seq<Level>, t: int)
    requires AllValid(levels) && t > 0
    ensures Crossing(levels, t) < |levels| <==> SumNotional(levels) >= t
  {
    var c := Crossing(levels, t);
    assert levels[..|levels|] == levels;
    if c < |levels| { SumNotionalGrows(levels, c + 1); }
  }

  /** At the crossing level the remainder is positive and at most that level's notional. */
  lemma RemainderBounds(levels: seq<Level>, t: int)
    requires t > 0 && Crossing(levels, t) < |levels|
    ensures
      var c := Crossing(levels, t);
      && 0 < t - SumNotional(levels[..c]) <= LevelNotional(levels[c])
      && (t - SumNotional(levels[..c]) == LevelNotional(levels[c]) <==> t == SumNotional(levels[..c + 1]))
  {
    SumsSnoc(levels, Crossing(levels, t));
  }

  /** So that level's size is positive, and dividing by the total size taken cannot fail. */
  lemma FullLevelDivides(levels: seq<Level>, t: int)
    requires t > 0 && Crossing(levels, t) < |levels| && AllValid(levels[..Crossing(levels, t) + 1])
    ensures
      var c := Crossing(levels, t);
      && levels[c].price > 0 && levels[c].size > 0 && SumSize(levels[..c]) >= 0
      && DivideBySize(t, SumSize(levels[..c]) + levels[c].size).Ok?
  {
    var c := Crossing(levels, t);
    RemainderBounds(levels, t);
    assert levels[..c + 1][c] == levels[c] && IsValidLevel(levels[c]);
    EmptyLevelIsWorthless(levels[c]);
    assert levels[..c + 1][..c] == levels[..c];
    SumSizeNonNegative(levels[..c]);
  }

  /** A partial fill whose notional times price leaves no room for the scaling. */
  predicate ProductTooLarge(levels: seq<Level>, t: int) {
    var c := Crossing(levels, t);
    c < |levels| && t < SumNotional(levels[..c + 1]) && t * levels[c].price > INT128_MAX / SIZE_SCALE
  }

  lemma FilledNonNegative(levels: seq<Level>, c: nat)
    requires c < |levels| && AllValid(levels[..c + 1])
    ensures SumNotional(levels[..c]) >= 0
  {
    SumNotionalGrows(levels[..c + 1], c);
    assert levels[..c + 1][..c] == levels[..c];
  }

  /** A threshold has no band exactly when its partial fill fails the magnitude check. */
  lemma BandFailsIff(levels: seq<Level>, t: int)
    requires t > 0 && (Crossing(levels, t) < |levels| ==> AllValid(levels[..Crossing(levels, t) + 1]))
    ensures BandFor(levels, t).Err? <==> ProductTooLarge(levels, t)
    ensures ProductTooLarge(levels, t) <==>
      Crossing(levels, t) < |levels| && t < SumNotional(levels[..Crossing(levels, t) + 1]) &&
      t * levels[Crossing(levels, t)].price * 1_000_000 > 170_141_183_460_469_231_731_687_303_715_884_105_727
    ensures BandFor(levels, t).Err? ==> BandFor(levels, t).error == ResultOutOfRange
  {
    var c := Crossing(levels, t);
    if c < |levels| {
      RemainderBounds(levels, t);
      FullLevelDivides(levels, t);
      FilledNonNegative(levels, c);
      PartialFillFailsIff(SumNotional(levels[..c]), SumSize(levels[..c]), t - SumNotional(levels[..c]), levels[c].price);
    }
  }

  // ----- every emitted VWAP is the exact rational, rounded once -----

  /** Prices, summed sizes and summed notionals all fit their raw types. */
  ghost predicate RawSide(levels: seq<Level>) {
    && AllValid(levels) && SumSize(levels) <= RAW_MAX && SumNotional(levels) <= RAW_MAX
    && forall i :: 0 <= i < |levels| ==> levels[i].price <= RAW_MAX
  }

  /** What a partial fill assumes holds at every crossing level. */
  lemma CrossingMeetsInvariants(levels: seq<Level>, t: int)
    requires RawSide(levels) && t > 0 && Crossing(levels, t) < |levels|
    ensures
      var c := Crossing(levels, t);
      var filled := SumNotional(levels[..c]);
      FillInvariants(filled, SumSize(levels[..c]), t - filled, levels[c].price)
  {
    var c := Crossing(levels, t);
    RemainderBounds(levels, t);
    FullLevelDivides(levels, t);
    FilledNonNegative(levels, c);
    SumNotionalGrows(levels, c + 1);
    SumSizeGrows(levels, c);
  }

  /** The exact rational a VWAP stands for: what was spent over what was bought. */
  function Spent(levels: seq<Level>, t: int): int
    requires Crossing(levels, t) < |levels|
  {
    var c := Crossing(levels, t);
    if t == SumNotional(levels[..c + 1]) then t * SIZE_SCALE else t * levels[c].price * SIZE_SCALE
  }

  function Bought(levels: seq<Level>, t: int): int
    requires Crossing(levels, t) < |levels|
  {
    var c := Crossing(levels, t);
    if t == SumNotional(levels[..c + 1]) then SumSize(levels[..c + 1])
    else SumSize(levels[..c]) * levels[c].price + (t - SumNotional(levels[..c])) * SIZE_SCALE
  }

  lemma EmittedVwap(levels: seq<Level>, t: int)
    requires t > 0 && Crossing(levels, t) < |levels| && AllValid(levels[..Crossing(levels, t) + 1])
    requires BandFor(levels, t).Ok?
    ensures Bought(levels, t) > 0 && Spent(levels, t) >= 0
    ensures BandFor(levels, t).value
         == VolumeBand(t, Some(RoundDivNearestAway(Spent(levels, t), Bought(levels, t))), t)
  {
    var c := Crossing(levels, t);
    var filled := SumNotional(levels[..c]);
    RemainderBounds(levels, t);
    FullLevelDivides(levels, t);
    FilledNonNegative(levels, c);
    SumsSnoc(levels, c);
    PartialFillFailsIff(filled, SumSize(levels[..c]), t - filled, levels[c].price);
    assert filled + (t - filled) == t;
  }

  /** Every VWAP the walk emits is that rational to the nearest integer, ties away from zero, and
      neither of its terms leaves the 128-bit range. */
  lemma EmittedVwapExact(levels: seq<Level>, t: int)
    requires RawSide(levels) && t > 0 && Crossing(levels, t) < |levels| && BandFor(levels, t).Ok?
    ensures
      var n, d := Spent(levels, t), Bought(levels, t);
      && 0 < d && IsInt128(n) && IsInt128(d)
      && BandFor(levels, t).value.vwap.Some? && IsNearestAway(n, d, BandFor(levels, t).value.vwap.value)
  {
    var c := Crossing(levels, t);
    var filled := SumNotional(levels[..c]);
    EmittedVwap(levels, t);
    RoundIsNearestAway(Spent(levels, t), Bought(levels, t));
    SumSizeGrows(levels, c + 1);
    CrossingMeetsInvariants(levels, t);
    FullSpendFits(levels, t);
    BandFailsIff(levels, t);
    PartialFillExact(filled, SumSize(levels[..c]), t - filled, levels[c].price);
  }

  lemma FullSpendFits(levels: seq<Level>, t: int)
    requires RawSide(levels) && t > 0 && Crossing(levels, t) < |levels|
    ensures IsInt128(t * SIZE_SCALE)
  {
    SumNotionalGrows(levels, Crossing(levels, t) + 1);
  }

  lemma {:induction false} SumSizeGrows(levels: seq<Level>, i: nat)
    requires AllValid(levels) && i <= |levels|
    ensures 0 <= SumSize(levels[..i]) <= SumSize(levels)
    decreases |levels|
  {
    if i == |levels| {
      assert levels[..i] == levels;
      SumSizeNonNegative(levels);
    } else {
      var init := levels[..|levels| - 1];
      SumSizeGrows(init, i);
      assert init[..i] == levels[..i];
      assert IsValidLevel(levels[|levels| - 1]);
    }
  }

  lemma EmptyLevelIsWorthless(level: Level)
    ensures level.size == 0 ==> LevelNotional(level) == 0
  {
  }

  lemma {:induction false} SumSizeNonNegative(levels: seq<Level>)
    requires AllValid(levels)
    ensures SumSize(levels) >= 0
  {
    if levels != [] {
      SumSizeNonNegative(levels[..|levels| - 1]);
      assert IsValidLevel(levels[|levels| - 1]);
    }
  }

  /** The level the walk stands on when it reaches `t` is the crossing level. */
  lemma CrossingAt(levels: seq<Level>, t: int, i: nat)
    requires i < |levels| && AllValid(levels[..i]) && SumNotional(levels[..i]) < t <= SumNotional(levels[..i + 1])
    ensures Crossing(levels, t) == i
  {
    var c := Crossing(levels, t);
    forall j | 0 < j <= i
      ensures SumNotional(levels[..j]) < t
    {
      SumNotionalGrows(levels[..i], j);
      assert levels[..i][..j] == levels[..j];
    }
    assert c <= i;
  }

  // ----- the walk -----

  ghost predicate BandsDone(levels: seq<Level>, thresholds: seq<int>, bands: seq<VolumeBand>) {
    |bands| <= |thresholds| && forall k :: 0 <= k < |bands| ==> BandFor(levels, thresholds[k]) == Ok(bands[k])
  }

  lemma BandsSnoc(levels: seq<Level>, thresholds: seq<int>, bands: seq<VolumeBand>, band: VolumeBand)
    requires BandsDone(levels, thresholds, bands) && |bands| < |thresholds|
    requires BandFor(levels, thresholds[|bands|]) == Ok(band)
    ensures BandsDone(levels, thresholds, bands + [band])
  {
  }

  /** The band of a threshold reached at level i. */
  lemma BandAt(levels: seq<Level>, t: int, i: nat)
    requires i < |levels| && AllValid(levels[..i]) && SumNotional(levels[..i]) < t <= SumNotional(levels[..i + 1])
    ensures
      var vwap := VwapOf(levels, t, i);
      BandFor(levels, t) == if vwap.Ok? then Ok(VolumeBand(t, Some(vwap.value), t)) else Err(vwap.error)
  {
    CrossingAt(levels, t, i);
  }

  /** The band of one crossed threshold, as the walk computes it from its running totals. */
  method CrossedBand(levels: seq<Level>, t: int, i: nat, cumNotional: int, cumSize: int) returns (r: Result<VolumeBand>)
    requires i < |levels| && AllValid(levels[..i])
    requires cumNotional == SumNotional(levels[..i]) < t <= SumNotional(levels[..i + 1]) && cumSize == SumSize(levels[..i])
    ensures r == BandFor(levels, t)
  {
    BandAt(levels, t, i);
    var remaining, vwap := t - cumNotional, Err(InvalidArgument);
    if remaining == LevelNotional(levels[i]) {
      vwap := DivideBySize(cumNotional + remaining, cumSize + levels[i].size);
    } else {
      vwap := VwapAtPartialFill(cumNotional, cumSize, remaining, levels[i].price);
    }
    assert vwap == VwapAt(cumNotional, cumSize, t, levels[i]);
    if vwap.Err? { return Err(vwap.error); }
    return Ok(VolumeBand(t, Some(vwap.value), t));
  }

  /** The inner loop at level i: every threshold the running total now reaches. */
  method EmitCrossed(levels: seq<Level>, thresholds: seq<int>, before: seq<VolumeBand>, i: nat,
                     cumNotional: int, cumSize: int, nextCum: int)
    returns (bands: seq<VolumeBand>, error: Option<Errc>)
    requires i < |levels| && AllValid(levels[..i + 1]) && BandsDone(levels, thresholds, before)
    requires forall k :: |before| <= k < |thresholds| ==> thresholds[k] > cumNotional
    requires 0 <= cumNotional == SumNotional(levels[..i]) && cumSize == SumSize(levels[..i])
    requires nextCum == SumNotional(levels[..i + 1])
    ensures error.None? ==> |before| <= |bands| && BandsDone(levels, thresholds, bands)
    ensures error.None? && |bands| < |thresholds| ==> thresholds[|bands|] > nextCum
    ensures error.Some? ==> error.value == ResultOutOfRange
    ensures error.Some? ==> exists k :: 0 <= k < |thresholds| && ProductTooLarge(levels, thresholds[k])
  {
    assert AllValid(levels[..i]) by { assert levels[..i + 1][..i] == levels[..i]; }
    bands := before;
    while |bands| < |thresholds| && nextCum >= thresholds[|bands|]
      invariant |before| <= |bands| <= |thresholds| && BandsDone(levels, thresholds, bands)
      decreases |thresholds| - |bands|
    {
      var band := CrossedBand(levels, thresholds[|bands|], i, cumNotional, cumSize);
      if band.Err? {
        FailedAt(levels, thresholds[|bands|], i);
        return bands, Some(band.error);
      }
      BandsSnoc(levels, thresholds, bands, band.value);
      bands := bands + [band.value];
    }
    error := None;
  }

  lemma FailedAt(levels: seq<Level>, t: int, i: nat)
    requires i < |levels| && AllValid(levels[..i + 1]) && BandFor(levels, t).Err?
    requires 0 <= SumNotional(levels[..i]) < t <= SumNotional(levels[..i + 1])
    ensures ProductTooLarge(levels, t) && BandFor(levels, t).error == ResultOutOfRange
  {
    assert AllValid(levels[..i]) by { assert levels[..i + 1][..i] == levels[..i]; }
    CrossingAt(levels, t, i);
    BandFailsIff(levels, t);
  }

  /** The thresholds the whole side never reached report what was filled. */
  method EmitUnreached(levels: seq<Level>, thresholds: seq<int>, before: seq<VolumeBand>, cumNotional: int)
    returns (bands: seq<VolumeBand>)
    requires AllValid(levels) && cumNotional == SumNotional(levels) && ThresholdsPositive(thresholds)
    requires BandsDone(levels, thresholds, before)
    requires |before| < |thresholds| ==> thresholds[|before|] > cumNotional
    ensures |bands| == |thresholds| && BandsDone(levels, thresholds, bands)
  {
    bands := before;
    while |bands| < |thresholds|
      invariant |before| <= |bands| <= |thresholds| && BandsDone(levels, thresholds, bands)
      decreases |thresholds| - |bands|
    {
      CrossedIffReached(levels, thresholds[|bands|]);
      BandsSnoc(levels, thresholds, bands, VolumeBand(thresholds[|bands|], None, cumNotional));
      bands := bands + [VolumeBand(thresholds[|bands|], None, cumNotional)];
    }
  }

  /** Every level is valid, their total fits, and no threshold's partial fill is too large to scale. */
  ghost predicate BandsExist(levels: seq<Level>, thresholds: seq<int>) {
    && AllValid(levels) && SumNotional(levels) <= RAW_MAX
    && forall k :: 0 <= k < |thresholds| ==> !ProductTooLarge(levels, thresholds[k])
  }

  lemma OverflowFails(levels: seq<Level>, thresholds: seq<int>, i: nat)
    requires i < |levels| && SumNotional(levels[..i + 1]) > RAW_MAX
    ensures !BandsExist(levels, thresholds)
  {
    if AllValid(levels) { SumNotionalGrows(levels, i + 1); }
  }

  lemma RunningTotal(levels: seq<Level>, i: nat)
    requires i < |levels| && AllValid(levels[..i]) && IsValidLevel(levels[i])
    ensures AllValid(levels[..i + 1])
    ensures SumSize(levels[..i + 1]) == SumSize(levels[..i]) + levels[i].size
    ensures 0 <= SumNotional(levels[..i + 1]) == SumNotional(levels[..i]) + LevelNotional(levels[i])
  {
    SumsSnoc(levels, i);
    SumNotionalGrows(levels[..i + 1], i + 1);
    assert levels[..i + 1][..i + 1] == levels[..i + 1];
  }

  /** A band echoes its threshold, has a VWAP unless the whole side falls short of it, and says how much
      was filled: all of the threshold, or all there is. */
  ghost predicate Reports(levels: seq<Level>, t: int, band: VolumeBand) {
    && band.threshold == t
    && (band.vwap.None? <==> SumNotional(levels) < t)
    && band.filled == (if SumNotional(levels) < t then SumNotional(levels) else t)
  }

  lemma BandReports(levels: seq<Level>, t: int)
    requires AllValid(levels) && t > 0 && BandFor(levels, t).Ok?
    ensures Reports(levels, t, BandFor(levels, t).value)
  {
    CrossedIffReached(levels, t);
  }

  lemma AllReport(levels: seq<Level>, thresholds: seq<int>, bands: seq<VolumeBand>)
    requires AllValid(levels) && ThresholdsPositive(thresholds)
    requires |bands| == |thresholds| && BandsDone(levels, thresholds, bands)
    ensures forall k :: 0 <= k < |thresholds| ==> Reports(levels, thresholds[k], bands[k])
  {
    forall k | 0 <= k < |thresholds|
      ensures Reports(levels, thresholds[k], bands[k])
    {
      assert BandFor(levels, thresholds[k]) == Ok(bands[k]);
      BandReports(levels, thresholds[k]);
    }
  }

  lemma AllBandsDone(levels: seq<Level>, thresholds: seq<int>, bands: seq<VolumeBand>)
    requires AllValid(levels) && SumNotional(levels) <= RAW_MAX && ThresholdsPositive(thresholds)
    requires |bands| == |thresholds| && BandsDone(levels, thresholds, bands)
    ensures BandsExist(levels, thresholds)
  {
    forall k | 0 <= k < |thresholds|
      ensures !ProductTooLarge(levels, thresholds[k])
    {
      assert BandFor(levels, thresholds[k]) == Ok(bands[k]);
      BandFailsIff(levels, thresholds[k]);
    }
  }

  /** The walk's state in front of level i. */
  ghost predicate Walked(
      levels: seq<Level>, thresholds: seq<int>, i: nat, bands: seq<VolumeBand>, cumNotional: int, cumSize: int) {
    && i <= |levels| && AllValid(levels[..i]) && BandsDone(levels, thresholds, bands)
    && 0 <= cumNotional == SumNotional(levels[..i]) <= RAW_MAX && cumSize == SumSize(levels[..i])
    && (|bands| < |thresholds| ==> thresholds[|bands|] > cumNotional)
  }

  /** One level of the walk. */
  method VisitLevel(levels: seq<Level>, thresholds: seq<int>, i: nat, before: seq<VolumeBand>,
                    cumNotional: int, cumSize: int)
    returns (r: Result<seq<VolumeBand>>, nextNotional: int, nextSize: int)
    requires i < |levels| && ThresholdsPositive(thresholds)
    requires Walked(levels, thresholds, i, before, cumNotional, cumSize)
    ensures r.Ok? ==> Walked(levels, thresholds, i + 1, r.value, nextNotional, nextSize)
    ensures r.Err? ==> !BandsExist(levels, thresholds) && r.error != InvalidArgument
    ensures r.Err? && AllValid(levels) ==> r.error == ResultOutOfRange
  {
    nextNotional, nextSize := cumNotional, cumSize + levels[i].size;
    if !IsValidLevel(levels[i]) { return Err(ArgumentOutOfDomain), nextNotional, nextSize; }
    RunningTotal(levels, i);
    var nextCum := FromRawSafe(cumNotional + LevelNotional(levels[i]));
    if nextCum.Err? {
      OverflowFails(levels, thresholds, i);
      return Err(ResultOutOfRange), nextNotional, nextSize;
    }
    nextNotional := nextCum.value;
    var bands, error := EmitCrossed(levels, thresholds, before, i, cumNotional, cumSize, nextNotional);
    if error.Some? { return Err(error.value), nextNotional, nextSize; }
    r := Ok(bands);
  }

  /** The one-pass walk gives every threshold the band its own definition asks for, and fails exactly
      when the thresholds, a level, the running total or one VWAP is unusable. */
  method VolumeBandPrices(levels: seq<Level>, thresholds: seq<int>) returns (r: Result<seq<VolumeBand>>)
    ensures r.Ok? <==> ThresholdsPositive(thresholds) && BandsExist(levels, thresholds)
    ensures r.Ok? ==> |r.value| == |thresholds|
    ensures r.Ok? ==> forall k :: 0 <= k < |thresholds| ==> BandFor(levels, thresholds[k]) == Ok(r.value[k])
    ensures r.Ok? ==> forall k :: 0 <= k < |thresholds| ==> Reports(levels, thresholds[k], r.value[k])
    ensures r == Err(InvalidArgument) <==> !ThresholdsPositive(thresholds)
    ensures r.Err? && ThresholdsPositive(thresholds) && AllValid(levels) ==> r.error == ResultOutOfRange
  {
    if !ThresholdsPositive(thresholds) { return Err(InvalidArgument); }
    var bands, cumNotional, cumSize, i := [], 0, 0, 0;
    while i < |levels|
      invariant 0 <= i <= |levels| && Walked(levels, thresholds, i, bands, cumNotional, cumSize)
    {
      r, cumNotional, cumSize := VisitLevel(levels, thresholds, i, bands, cumNotional, cumSize);
      if r.Err? { return; }
      bands := r.value;
      i := i + 1;
    }
    assert levels[..i] == levels;
    bands := EmitUnreached(levels, thresholds, bands, cumNotional);
    AllBandsDone(levels, thresholds, bands);
    AllReport(levels, thresholds, bands);
    r := Ok(bands);
  }
}
