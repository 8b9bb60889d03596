/** One side of a book, lists of levels, and what applying such a list means. */
module Levels {

  /** A (price, size) pair in raw fixed-point units. */
  datatype Level = Level(price: int, size: int)

  /** One side of an L2 book: price to size. */
  type Side = map<int, int>

  datatype Book = Book(bids: Side, asks: Side)

  const EMPTY_BOOK := Book(map[], map[])

  datatype Option<+T> = None | Some(value: T)

  predicate IsValidLevel(l: Level) {
    l.price > 0 && l.size >= 0
  }

  predicate AllValid(levels: seq<Level>) {
    forall i :: 0 <= i < |levels| ==> IsValidLevel(levels[i])
  }

  function SizeAt(side: Side, price: int): int {
    if price in side then side[price] else 0
  }

  ghost predicate WellFormed(side: Side) {
    forall p :: p in side ==> p > 0 && side[p] > 0
  }

  ghost predicate Lists(levels: seq<Level>, price: int) {
    exists i :: 0 <= i < |levels| && levels[i].price == price
  }

  /** No price occurs twice. */
  ghost predicate Distinct(levels: seq<Level>) {
    forall i, j :: 0 <= i < j < |levels| ==> levels[i].price != levels[j].price
  }

  /** Every listed size is the size `side` has at that price. */
  ghost predicate States(levels: seq<Level>, side: Side) {
    forall i :: 0 <= i < |levels| ==> levels[i].size == SizeAt(side, levels[i].price)
  }

  /** Absolute update of one level; a size of zero (or below) erases it. */
  function SetLevel(side: Side, l: Level): Side {
    if l.size <= 0 then side - {l.price} else side[l.price := l.size]
  }

  /** A batch: levels applied left to right, so the last entry for a price wins. */
  function ApplyLevels(side: Side, levels: seq<Level>): Side {
    if levels == [] then side
    else SetLevel(ApplyLevels(side, levels[..|levels| - 1]), levels[|levels| - 1])
  }

  function ApplyToBook(book: Book, bids: seq<Level>, asks: seq<Level>): Book {
    Book(ApplyLevels(book.bids, bids), ApplyLevels(book.asks, asks))
  }

  /** A range-constructed ordered map: the first entry for a price wins. */
  function FirstWins(levels: seq<Level>): map<int, int> {
    if levels == [] then map[]
    else
      var init, l := FirstWins(levels[..|levels| - 1]), levels[|levels| - 1];
      if l.price in init then init else init[l.price := l.size]
  }

  function PositivePart(m: map<int, int>): Side {
    map p | p in m && m[p] > 0 :: m[p]
  }

  /** The side a snapshot's level list denotes. */
  function SnapshotSide(levels: seq<Level>): Side {
    PositivePart(FirstWins(levels))
  }

  function SnapshotBook(bids: seq<Level>, asks: seq<Level>): Book {
    Book(SnapshotSide(bids), SnapshotSide(asks))
  }

  /** The size the last entry for `price` carries. */
  function LastSize(levels: seq<Level>, price: int, otherwise: int): int {
    if levels == [] then otherwise
    else if levels[|levels| - 1].price == price then levels[|levels| - 1].size
    else LastSize(levels[..|levels| - 1], price, otherwise)
  }

  lemma SidesEqual(a: Side, b: Side)
    requires WellFormed(a) && WellFormed(b)
    requires forall p :: SizeAt(a, p) == SizeAt(b, p)
    ensures a == b
  {
    forall p
      ensures p in a <==> p in b
      ensures p in a ==> a[p] == b[p]
    {
      assert SizeAt(a, p) == SizeAt(b, p);
    }
  }

  lemma {:induction false} ApplyLevelsWellFormed(side: Side, levels: seq<Level>)
    requires WellFormed(side) && AllValid(levels)
    ensures WellFormed(ApplyLevels(side, levels))
  {
    if levels != [] {
      ApplyLevelsWellFormed(side, levels[..|levels| - 1]);
    }
  }

  /** Last-wins: what a batch leaves at each price. */
  lemma {:induction false} ApplyLevelsSizeAt(side: Side, levels: seq<Level>, p: int)
    requires forall i :: 0 <= i < |levels| ==> levels[i].size >= 0
    ensures SizeAt(ApplyLevels(side, levels), p) == LastSize(levels, p, SizeAt(side, p))
  {
    if levels != [] {
      ApplyLevelsSizeAt(side, levels[..|levels| - 1], p);
    }
  }

  /** Entries that all state `side` leave `side`'s size wherever they list a price. */
  lemma {:induction false} LastSizeStates(levels: seq<Level>, side: Side, p: int, otherwise: int)
    requires States(levels, side)
    ensures Lists(levels, p) ==> LastSize(levels, p, otherwise) == SizeAt(side, p)
    ensures !Lists(levels, p) ==> LastSize(levels, p, otherwise) == otherwise
  {
    if levels != [] {
      var init := levels[..|levels| - 1];
      LastSizeStates(init, side, p, otherwise);
      if levels[|levels| - 1].price == p {
        assert Lists(levels, p);
      } else {
        assert Lists(levels, p) <==> Lists(init, p) by {
          if Lists(init, p) {
            var i :| 0 <= i < |init| && init[i].price == p;
            assert levels[i].price == p;
          }
          if Lists(levels, p) {
            var i :| 0 <= i < |levels| && levels[i].price == p;
            assert init[i].price == p;
          }
        }
      }
    }
  }

  lemma {:induction false} FirstWinsStates(levels: seq<Level>, side: Side)
    requires States(levels, side)
    ensures forall p :: p in FirstWins(levels) <==> Lists(levels, p)
    ensures forall p :: p in FirstWins(levels) ==> FirstWins(levels)[p] == SizeAt(side, p)
  {
    if levels != [] {
      var init, n := levels[..|levels| - 1], |levels| - 1;
      FirstWinsStates(init, side);
      forall p
        ensures p in FirstWins(levels) <==> Lists(levels, p)
      {
        if Lists(init, p) {
          var i :| 0 <= i < |init| && init[i].price == p;
          assert levels[i].price == p;
        }
        if Lists(levels, p) {
          var i :| 0 <= i < |levels| && levels[i].price == p;
          assert i < n ==> init[i].price == p;
        }
        if p == levels[n].price {
          assert Lists(levels, p);
        }
      }
    }
  }

  /** A snapshot list that states a side and lists all of it denotes that side. */
  lemma SnapshotDenotes(levels: seq<Level>, side: Side)
    requires WellFormed(side) && States(levels, side)
    requires forall p :: p in side ==> Lists(levels, p)
    ensures SnapshotSide(levels) == side
  {
    FirstWinsStates(levels, side);
    var s := SnapshotSide(levels);
    forall p
      ensures p in s <==> p in side
      ensures p in s ==> s[p] == side[p]
    {
      assert p in FirstWins(levels) ==> FirstWins(levels)[p] == SizeAt(side, p);
    }
  }

  // ----- iteration in the book's own order -----

  lemma Member<T>(s: set<T>) returns (x: T)
    requires s != {}
    ensures x in s
  {
    x :| x in s;
  }

  lemma MinExists(keys: set<int>) returns (k: int)
    requires keys != {}
    ensures k in keys && forall q :: q in keys ==> k <= q
  {
    var x := Member(keys);
    k := x;
    if keys - {x} != {} {
      var m := MinExists(keys - {x});
      if m < x { k := m; }
      assert forall q :: q in keys ==> q == x || q in keys - {x};
    } else {
      assert forall q :: q in keys ==> q in keys - {x} || q == x;
    }
  }

  lemma MaxExists(keys: set<int>) returns (k: int)
    requires keys != {}
    ensures k in keys && forall q :: q in keys ==> q <= k
  {
    var x := Member(keys);
    k := x;
    if keys - {x} != {} {
      var m := MaxExists(keys - {x});
      if m > x { k := m; }
      assert forall q :: q in keys ==> q == x || q in keys - {x};
    } else {
      assert forall q :: q in keys ==> q in keys - {x} || q == x;
    }
  }

  /** The first key of the side in ask order (`descending` false) or bid order (true). */
  function BestPrice(side: Side, descending: bool): (k: int)
    requires side != map[]
    ensures k in side
    ensures forall q :: q in side ==> if descending then q <= k else k <= q
  {
    assert exists k :: k in side && forall q :: q in side ==> if descending then q <= k else k <= q by {
      assert side.Keys != {};
      if descending { var k := MaxExists(side.Keys); assert k in side; }
      else { var k := MinExists(side.Keys); assert k in side; }
    }
    var k :| k in side && forall q :: q in side ==> if descending then q <= k else k <= q;
    k
  }

  /** All levels of a side, best price first. */
  function InOrder(side: Side, descending: bool): (levels: seq<Level>)
    ensures |levels| == |side|
    decreases |side|
  {
    if side == map[] then []
    else
      var k := BestPrice(side, descending);
      var rest := side - {k};
      assert side.Keys == rest.Keys + {k};
      [Level(k, side[k])] + InOrder(rest, descending)
  }

  ghost predicate Before(p: int, q: int, descending: bool) {
    if descending then p > q else p < q
  }

  ghost predicate BestFirst(levels: seq<Level>, descending: bool) {
    forall i, j :: 0 <= i < j < |levels| ==> Before(levels[i].price, levels[j].price, descending)
  }

  lemma ListsCons(l: Level, tail: seq<Level>, p: int)
    ensures Lists([l] + tail, p) <==> l.price == p || Lists(tail, p)
  {
    var all := [l] + tail;
    assert all[0] == l;
    if Lists(tail, p) {
      var i :| 0 <= i < |tail| && tail[i].price == p;
      assert all[i + 1].price == p;
    }
  }

  /** Putting one more price in front of a list that states and lists exactly the other prices. */
  lemma StatesCons(side: Side, k: int, tail: seq<Level>)
    requires k in side && States(tail, side - {k}) && forall p :: p in side - {k} <==> Lists(tail, p)
    ensures States([Level(k, side[k])] + tail, side)
    ensures forall p :: p in side <==> Lists([Level(k, side[k])] + tail, p)
  {
    forall i | 0 <= i < |tail|
      ensures tail[i].size == SizeAt(side, tail[i].price)
    {
      assert Lists(tail, tail[i].price);
    }
    forall p
      ensures p in side <==> Lists([Level(k, side[k])] + tail, p)
    {
      ListsCons(Level(k, side[k]), tail, p);
      assert p != k ==> (p in side <==> p in side - {k});
    }
  }

  /** Iteration lists exactly the side's levels, at their sizes. */
  lemma {:induction false} InOrderLists(side: Side, descending: bool)
    ensures States(InOrder(side, descending), side)
    ensures forall p :: p in side <==> Lists(InOrder(side, descending), p)
    decreases |side|
  {
    if side != map[] {
      var k := BestPrice(side, descending);
      assert side.Keys == (side - {k}).Keys + {k};
      InOrderLists(side - {k}, descending);
      StatesCons(side, k, InOrder(side - {k}, descending));
    }
  }

  lemma BestFirstCons(l: Level, tail: seq<Level>, descending: bool)
    requires BestFirst(tail, descending)
    requires forall p :: Lists(tail, p) ==> Before(l.price, p, descending)
    ensures BestFirst([l] + tail, descending)
  {
    var all := [l] + tail;
    forall i, j | 0 <= i < j < |all|
      ensures Before(all[i].price, all[j].price, descending)
    {
      assert Lists(tail, tail[j - 1].price);
    }
  }

  /** Iteration goes from the best price to the worst, each price once. */
  lemma {:induction false} InOrderBestFirst(side: Side, descending: bool)
    ensures BestFirst(InOrder(side, descending), descending)
    ensures Distinct(InOrder(side, descending))
    decreases |side|
  {
    if side != map[] {
      var k := BestPrice(side, descending);
      var rest := side - {k};
      assert side.Keys == rest.Keys + {k};
      InOrderBestFirst(rest, descending);
      InOrderLists(rest, descending);
      BestFirstCons(Level(k, side[k]), InOrder(rest, descending), descending);
    }
  }

  /** The size of the first entry for a price, zero if there is none. */
  function FirstSize(levels: seq<Level>, price: int): int {
    if levels == [] then 0
    else if levels[0].price == price then levels[0].size
    else FirstSize(levels[1..], price)
  }

  lemma {:induction false} FirstSizeSnoc(levels: seq<Level>, l: Level, p: int)
    ensures FirstSize(levels + [l], p)
         == if Lists(levels, p) then FirstSize(levels, p) else if l.price == p then l.size else 0
  {
    if levels == [] {
      assert (levels + [l])[1..] == [];
    } else {
      assert (levels + [l])[1..] == levels[1..] + [l];
      FirstSizeSnoc(levels[1..], l, p);
      assert levels == [levels[0]] + levels[1..];
      ListsCons(levels[0], levels[1..], p);
    }
  }

  lemma {:induction false} FirstWinsFirst(levels: seq<Level>, p: int)
    ensures p in FirstWins(levels) <==> Lists(levels, p)
    ensures SizeAt(FirstWins(levels), p) == FirstSize(levels, p)
  {
    if levels != [] {
      var init, l := levels[..|levels| - 1], levels[|levels| - 1];
      assert levels == init + [l];
      FirstWinsFirst(init, p);
      FirstSizeSnoc(init, l, p);
      if Lists(init, p) {
        var i :| 0 <= i < |init| && init[i].price == p;
        assert levels[i].price == p;
      }
      if Lists(levels, p) && l.price != p {
        var i :| 0 <= i < |levels| && levels[i].price == p;
        assert init[i].price == p;
      }
      if l.price == p { assert Lists(levels, p) by { assert levels[|levels| - 1].price == p; } }
    }
  }

  /** In a snapshot the first entry for a price decides its size. */
  lemma SnapshotFirstWins(levels: seq<Level>, p: int)
    requires AllValid(levels)
    ensures SizeAt(SnapshotSide(levels), p) == FirstSize(levels, p)
  {
    FirstWinsFirst(levels, p);
    FirstSizeNonNegative(levels, p);
  }

  lemma {:induction false} FirstSizeNonNegative(levels: seq<Level>, p: int)
    requires AllValid(levels)
    ensures FirstSize(levels, p) >= 0
  {
    if levels != [] {
      assert IsValidLevel(levels[0]);
      FirstSizeNonNegative(levels[1..], p);
    }
  }
}
