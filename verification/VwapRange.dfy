/** How far the rounding of each level's notional can push a VWAP off the prices actually walked. */
module VwapRange {
  import opened Levels
  import opened Rounding
  import opened Decimal
  import opened PriceBands
  import opened VolumeBands

  /** The side's exact value, with no per-level rounding. */
  function ExactValue(levels: seq<Level>): int {
    if levels == [] then 0
    else ExactValue(levels[..|levels| - 1]) + levels[|levels| - 1].price * levels[|levels| - 1].size
  }

  predicate PricedWithin(levels: seq<Level>, lo: int, hi: int) {
    forall i :: 0 <= i < |levels| ==> lo <= levels[i].price <= hi
  }

  /** Each level adds at most half a notional unit of drift. */
  lemma {:induction false} NotionalDrift(levels: seq<Level>)
    requires AllValid(levels)
    ensures 2 * Abs(SumNotional(levels) * SIZE_SCALE - ExactValue(levels)) <= |levels| * SIZE_SCALE
  {
    if levels != [] {
      var last := levels[|levels| - 1];
      NotionalDrift(levels[..|levels| - 1]);
      RoundIsNearestAway(last.price * last.size, SIZE_SCALE);
    }
  }

  lemma {:induction false} ExactValueBetween(levels: seq<Level>, lo: int, hi: int)
    requires AllValid(levels) && PricedWithin(levels, lo, hi)
    ensures lo * SumSize(levels) <= ExactValue(levels) <= hi * SumSize(levels)
  {
    if levels != [] {
      var init, last := levels[..|levels| - 1], levels[|levels| - 1];
      ExactValueBetween(init, lo, hi);
      assert IsValidLevel(last);
      MulLe(lo, last.price, last.size);
      MulLe(last.price, hi, last.size);
      assert lo * (SumSize(init) + last.size) == lo * SumSize(init) + lo * last.size;
      assert hi * (SumSize(init) + last.size) == hi * SumSize(init) + hi * last.size;
    }
  }

  lemma RoundAtLeastIff(n: int, d: int, q: int)
    requires n >= 0 && d > 0
    ensures RoundDivNearestAway(n, d) >= q <==> (2 * q - 1) * d <= 2 * n
  {
    var r := RoundDivNearestAway(n, d);
    RoundBrackets(n, d);
    if r >= q {
      MulLe(2 * q - 1, 2 * r - 1, d);
    } else {
      MulLe(2 * r + 1, 2 * q - 1, d);
    }
  }

  lemma RoundWithinIff(n: int, d: int, lo: int, hi: int)
    requires n >= 0 && d > 0
    ensures (lo <= RoundDivNearestAway(n, d) <= hi) <==> (-d <= 2 * (n - lo * d) && 2 * (n - hi * d) < d)
  {
    RoundAtLeastIff(n, d, lo);
    RoundAtLeastIff(n, d, hi + 1);
    assert (2 * lo - 1) * d == 2 * (lo * d) - d;
    assert (2 * (hi + 1) - 1) * d == 2 * (hi * d) + d;
  }

  /** How much drift a band at `t` tolerates before it leaves [lo, hi]. On a full level the total
      notional may miss the range by half a price unit per unit of size. On a partial fill the miss of
      what was accumulated before, weighted by the level's price, is made up for by the remainder's
      own distance to the far end of the range, and half the rounding interval. */
  predicate DriftTolerable(levels: seq<Level>, t: int, lo: int, hi: int)
    requires Crossing(levels, t) < |levels|
  {
    var c := Crossing(levels, t);
    var filled, size := SumNotional(levels[..c]), SumSize(levels[..c]);
    if t == SumNotional(levels[..c + 1]) then
      var taken := size + levels[c].size;
      2 * (lo * taken - t * SIZE_SCALE) <= taken && 2 * (t * SIZE_SCALE - hi * taken) < taken
    else PartialTolerable(filled * SIZE_SCALE, (t - filled) * SIZE_SCALE, levels[c].price, size, lo, hi)
  }

  /** The same for a remainder `rest` at `price` on top of `filled` spent on `size`. */
  predicate PartialTolerable(filled: int, rest: int, price: int, size: int, lo: int, hi: int) {
    && 2 * price * (lo * size - filled) <= 2 * rest * (price - lo) + (size * price + rest)
    && 2 * price * (filled - hi * size) < 2 * rest * (hi - price) + (size * price + rest)
  }

  /** (filled + rest) * price over size * price + rest, against a bound. */
  lemma PartialMiss(filled: int, rest: int, price: int, size: int, bound: int)
    ensures (filled + rest) * price - bound * (size * price + rest)
         == price * (filled - bound * size) + rest * (price - bound)
  {
    assert (filled + rest) * price == price * filled + rest * price;
    assert bound * (size * price + rest) == bound * (size * price) + rest * bound;
    assert bound * (size * price) == price * (bound * size) by { MulAssoc(bound, size, price); }
    assert price * (filled - bound * size) == price * filled - price * (bound * size);
    assert rest * (price - bound) == rest * price - rest * bound;
  }

  lemma PartialWithinIff(filled: int, rest: int, price: int, size: int, lo: int, hi: int)
    requires filled >= 0 && rest > 0 && price > 0 && size >= 0
    ensures (filled + rest) * price >= 0 && size * price + rest > 0
    ensures (lo <= RoundDivNearestAway((filled + rest) * price, size * price + rest) <= hi)
       <==> PartialTolerable(filled, rest, price, size, lo, hi)
  {
    var n, taken := (filled + rest) * price, size * price + rest;
    MulLe(0, filled + rest, price);
    MulLe(0, size, price);
    RoundWithinIff(n, taken, lo, hi);
    PartialMiss(filled, rest, price, size, lo);
    PartialMiss(filled, rest, price, size, hi);
    Doubled(price, lo * size - filled, rest, price - lo);
    Doubled(price, filled - hi * size, rest, hi - price);
    Opposite(price, lo * size - filled, rest, price - hi);
  }

  lemma Doubled(a: int, b: int, c: int, d: int)
    ensures 2 * a * b == 2 * (a * b) && 2 * c * d == 2 * (c * d)
  {
    MulAssoc(2, a, b);
    MulAssoc(2, c, d);
  }

  lemma Opposite(a: int, b: int, c: int, d: int)
    ensures a * (-b) == -(a * b) && c * (-d) == -(c * d)
  {
  }

  /** Exactly when a band's VWAP stays inside [lo, hi], on both branches of the computation; with the
      range of the prices the walk took, both remainder distances are non-negative. */
  lemma BandWithinIff(levels: seq<Level>, t: int, lo: int, hi: int)
    requires t > 0 && Crossing(levels, t) < |levels| && AllValid(levels[..Crossing(levels, t) + 1])
    requires BandFor(levels, t).Ok?
    ensures BandFor(levels, t).value.vwap.Some?
    ensures (lo <= BandFor(levels, t).value.vwap.value <= hi) <==> DriftTolerable(levels, t, lo, hi)
  {
    var c := Crossing(levels, t);
    EmittedVwap(levels, t);
    if t == SumNotional(levels[..c + 1]) {
      SumsSnoc(levels, c);
      RoundWithinIff(Spent(levels, t), Bought(levels, t), lo, hi);
    } else {
      PartialBandWithinIff(levels, t, lo, hi);
    }
  }

  /** What a partial fill spends and buys, in the terms the tolerance speaks of. */
  lemma PartialTerms(levels: seq<Level>, t: int, lo: int, hi: int)
    returns (filled: int, rest: int, price: int, size: int)
    requires t > 0 && Crossing(levels, t) < |levels| && AllValid(levels[..Crossing(levels, t) + 1])
    requires t != SumNotional(levels[..Crossing(levels, t) + 1])
    ensures filled >= 0 && rest > 0 && price > 0 && size >= 0
    ensures Spent(levels, t) == (filled + rest) * price && Bought(levels, t) == size * price + rest
    ensures DriftTolerable(levels, t, lo, hi) == PartialTolerable(filled, rest, price, size, lo, hi)
  {
    var c := Crossing(levels, t);
    RemainderBounds(levels, t);
    FullLevelDivides(levels, t);
    FilledNonNegative(levels, c);
    SpentScaled(SumNotional(levels[..c]), t, levels[c].price);
    filled, rest := SumNotional(levels[..c]) * SIZE_SCALE, (t - SumNotional(levels[..c])) * SIZE_SCALE;
    price, size := levels[c].price, SumSize(levels[..c]);
  }

  lemma PartialBandWithinIff(levels: seq<Level>, t: int, lo: int, hi: int)
    requires t > 0 && Crossing(levels, t) < |levels| && AllValid(levels[..Crossing(levels, t) + 1])
    requires t != SumNotional(levels[..Crossing(levels, t) + 1]) && Bought(levels, t) > 0
    ensures (lo <= RoundDivNearestAway(Spent(levels, t), Bought(levels, t)) <= hi) <==> DriftTolerable(levels, t, lo, hi)
  {
    var filled, rest, price, size := PartialTerms(levels, t, lo, hi);
    PartialWithinIff(filled, rest, price, size, lo, hi);
  }

  lemma SpentScaled(filled: int, t: int, price: int)
    ensures t * price * SIZE_SCALE == (filled * SIZE_SCALE + (t - filled) * SIZE_SCALE) * price
  {
    MulAssoc(t, price, SIZE_SCALE);
    assert filled * SIZE_SCALE + (t - filled) * SIZE_SCALE == t * SIZE_SCALE;
  }

  // ----- sizes a caller can check -----

  /** Taking all of a list averaging more than one whole unit of size per level stays in range. */
  lemma LargeFillStaysWithin(levels: seq<Level>, lo: int, hi: int)
    requires AllValid(levels) && PricedWithin(levels, lo, hi)
    requires SumSize(levels) > |levels| * SIZE_SCALE
    ensures lo <= RoundDivNearestAway(SumNotional(levels) * SIZE_SCALE, SumSize(levels)) <= hi
  {
    NotionalDrift(levels);
    ExactValueBetween(levels, lo, hi);
    SumNotionalGrows(levels, |levels|);
    assert levels[..|levels|] == levels;
    RoundWithinIff(SumNotional(levels) * SIZE_SCALE, SumSize(levels), lo, hi);
  }

  /** Every prefix of the side averages more than one whole unit of size per level. */
  predicate Deep(levels: seq<Level>) {
    forall i :: 0 < i <= |levels| ==> SumSize(levels[..i]) > i * SIZE_SCALE
  }

  lemma DeepFullLevel(levels: seq<Level>, t: int, lo: int, hi: int)
    requires AllValid(levels) && Deep(levels) && t > 0 && Crossing(levels, t) < |levels| && BandFor(levels, t).Ok?
    requires PricedWithin(levels[..Crossing(levels, t) + 1], lo, hi)
    requires t == SumNotional(levels[..Crossing(levels, t) + 1])
    ensures lo <= BandFor(levels, t).value.vwap.value <= hi
  {
    var c := Crossing(levels, t);
    EmittedVwap(levels, t);
    LargeFillStaysWithin(levels[..c + 1], lo, hi);
  }

  lemma DeepPartialLevel(levels: seq<Level>, t: int, lo: int, hi: int)
    requires AllValid(levels) && Deep(levels) && t > 0 && Crossing(levels, t) < |levels| && BandFor(levels, t).Ok?
    requires PricedWithin(levels[..Crossing(levels, t) + 1], lo, hi)
    requires t != SumNotional(levels[..Crossing(levels, t) + 1])
    ensures lo <= BandFor(levels, t).value.vwap.value <= hi
  {
    var c := Crossing(levels, t);
    var filled, size, price := SumNotional(levels[..c]), SumSize(levels[..c]), levels[c].price;
    RemainderBounds(levels, t);
    FullLevelDivides(levels, t);
    FilledNonNegative(levels, c);
    assert levels[..c + 1][c] == levels[c];
    if c == 0 {
      FirstFillIsPrice(t, price);
    } else {
      assert forall i :: 0 <= i < c ==> levels[..c][i] == levels[..c + 1][i];
      LargeFillStaysWithin(levels[..c], lo, hi);
      PartialFillBetween(filled, size, t - filled, price);
    }
  }

  /** So on a deep enough side every band the walk emits shows a VWAP between prices it took. */
  lemma DeepSideStaysWithin(levels: seq<Level>, t: int, lo: int, hi: int)
    requires AllValid(levels) && Deep(levels) && t > 0 && Crossing(levels, t) < |levels| && BandFor(levels, t).Ok?
    requires PricedWithin(levels[..Crossing(levels, t) + 1], lo, hi)
    ensures BandFor(levels, t).value.vwap.Some? && lo <= BandFor(levels, t).value.vwap.value <= hi
  {
    EmittedVwap(levels, t);
    if t == SumNotional(levels[..Crossing(levels, t) + 1]) {
      DeepFullLevel(levels, t, lo, hi);
    } else {
      DeepPartialLevel(levels, t, lo, hi);
    }
  }

  // ----- both branches do leave the range -----

  lemma OneLevelTaken(level: Level)
    requires LevelNotional(level) > 0 && level.size > 0
    ensures
      var t := LevelNotional(level);
      BandFor([level], t) == Ok(VolumeBand(t, Some(RoundDivNearestAway(t * SIZE_SCALE, level.size)), t))
  {
    var levels, t := [level], LevelNotional(level);
    assert levels[..0] == [] && levels[..1] == levels;
    assert SumNotional(levels[..0]) == 0 && SumSize(levels[..0]) == 0 && SumNotional(levels[..1]) == t;
    BandAt(levels, t, 0);
  }

  /** Half a unit at one price unit, taken whole, is reported at twice the only price there is. */
  lemma SmallFillLeavesRange()
    ensures
      var levels := [Level(1, SIZE_SCALE / 2)];
      AllValid(levels) && BandFor(levels, 1) == Ok(VolumeBand(1, Some(2), 1))
  {
    var level := Level(1, SIZE_SCALE / 2);
    assert LevelNotional(level) == 1;
    OneLevelTaken(level);
    assert RoundDivNearestAway(1 * SIZE_SCALE, level.size) == 2;
  }

  /** A first level whose notional rounds to nothing still dilutes the partial fill behind it. */
  lemma PartialFillLeavesRange()
    ensures
      var levels := [Level(100, 4_999), Level(101, 1_000_000)];
      && AllValid(levels) && PricedWithin(levels, 100, 101)
      && BandFor(levels, 10) == Ok(VolumeBand(10, Some(96), 10))
  {
    var first, second := Level(100, 4_999), Level(101, 1_000_000);
    var levels := [first, second];
    assert LevelNotional(first) == 0 && LevelNotional(second) == 101;
    assert levels[..1] == [first] && levels[..2] == levels && [first][..0] == [];
    assert SumNotional([first]) == 0 && SumSize([first]) == 4_999;
    assert SumNotional(levels) == 101 by { assert levels[..|levels| - 1] == [first]; }
    CrossingAt(levels, 10, 1);
    assert VwapAtPartialFill(0, 4_999, 10, 101) == Ok(96);
  }
}
