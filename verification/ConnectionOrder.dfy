/** The venues that trust connection order, whose ids may restart or be reused: exactly when their
    books stay true. */
module ConnectionOrder {
  import opened Levels
  import opened Resync
  import opened Truth

  // ----- a snapshot followed by one event -----

  /** A list holding a whole side, as a snapshot would carry it. */
  lemma SideListed(t: Tape, n: nat) returns (levels: seq<Level>)
    requires ValidTape(t)
    ensures SideSnapshot(t, levels, n)
  {
    var side := SideAt(t, n);
    SideAtWellFormed(t, n);
    levels := InOrder(side, false);
    InOrderLists(side, false);
    forall i | 0 <= i < |levels|
      ensures levels[i].price > 0
    {
      assert Lists(levels, levels[i].price);
    }
  }

  /** A snapshot first on the connection, then an event the policy accepts at its id. */
  lemma SnapshotThenEvent(kind: Kind, x: Exchange, snap: SnapshotMessage, e: DepthUpdate)
    requires InConnectionOrder(kind) && Acceptable(kind, e, snap.lastUpdateId)
    ensures Run(PolicyOf(kind), [Snapshot(snap), Depth(e)]).sync.live
    ensures Run(PolicyOf(kind), [Snapshot(snap), Depth(e)]).sync.lastFinalId == e.finalId
    ensures Shown(kind, [Snapshot(snap), Depth(e)])
         == Some(ApplyToBook(SnapshotBook(snap.bids, snap.asks), e.bids, e.asks))
  {
    var policy, inputs := PolicyOf(kind), [Snapshot(snap), Depth(e)];
    assert inputs[..1] == [Snapshot(snap)] && [Snapshot(snap)][..0] == [];
    assert Survivors(policy, [], snap) == [];
    assert Run(policy, [Snapshot(snap)]) == Outcome(Sync(true, [], snap.lastUpdateId, false), [] + [ApplySnapshot(snap)]);
    assert Run(policy, inputs).actions == [ApplySnapshot(snap)] + [ApplyDelta(e)];
    PerformConcat(x, None, [ApplySnapshot(snap)], [ApplyDelta(e)]);
    PerformOne(x, None, ApplySnapshot(snap));
    PerformOne(x, Perform(None, ApplySnapshot(snap)), ApplyDelta(e));
  }

  lemma FaithfulPair(kind: Kind, x: Exchange, snap: SnapshotMessage, e: DepthUpdate)
    requires FaithfulSnapshot(x, snap) && FaithfulEvent(kind, x, e)
    ensures FaithfulRun(kind, x, [Snapshot(snap), Depth(e)])
  {
  }

  // ----- the exact condition -----

  ghost predicate AlwaysTruthful(kind: Kind, x: Exchange) {
    forall inputs :: FaithfulRun(kind, x, inputs) && Run(PolicyOf(kind), inputs).sync.live ==>
      Reflects(x, Shown(kind, inputs), Run(PolicyOf(kind), inputs).sync.lastFinalId)
  }

  /** A faithful snapshot of revision m. */
  lemma SnapshotListed(x: Exchange, m: nat) returns (snap: SnapshotMessage)
    requires ValidExchange(x)
    ensures FaithfulSnapshot(x, snap) && snap.lastUpdateId == x.id(m)
    ensures SnapshotBook(snap.bids, snap.asks) == BookAt(x, m)
  {
    var bids := SideListed(x.bids, m);
    var asks := SideListed(x.asks, m);
    snap := SnapshotMessage(bids, asks, x.id(m));
    assert SnapshotOf(x, snap, m);
    SnapshotIsBook(x, snap, m);
  }

  /** If every run is truthful, the snapshot-then-event runs are, which is coherence. */
  lemma TruthfulEvent(kind: Kind, x: Exchange, e: DepthUpdate, m: nat)
    requires InConnectionOrder(kind) && ValidExchange(x) && AlwaysTruthful(kind, x)
    requires FaithfulEvent(kind, x, e) && Acceptable(kind, e, x.id(m))
    ensures Reflects(x, Some(ApplyToBook(BookAt(x, m), e.bids, e.asks)), e.finalId)
  {
    var snap := SnapshotListed(x, m);
    SnapshotThenEvent(kind, x, snap, e);
    FaithfulPair(kind, x, snap, e);
  }

  /** The sizes of `side` at the given prices, zero where it has none. */
  lemma PricesListed(side: Side, prices: set<int>) returns (levels: seq<Level>)
    requires forall p :: p in prices ==> p > 0
    ensures States(levels, side) && PricesOf(levels) == prices
    ensures forall i :: 0 <= i < |levels| ==> levels[i].price > 0
    ensures forall p :: p in prices ==> Lists(levels, p)
  {
    var sizes := map p | p in prices :: SizeAt(side, p);
    levels := InOrder(sizes, false);
    InOrderLists(sizes, false);
    forall i | 0 <= i < |levels|
      ensures levels[i].price in prices && levels[i].size == SizeAt(side, levels[i].price)
    {
      assert Lists(levels, levels[i].price);
    }
    forall p | p in prices
      ensures p in PricesOf(levels)
    {
      assert p in sizes && Lists(levels, p);
    }
  }

  /** Every mistakable pair and price set is one an event could report. */
  lemma TruthfulIsInterchangeable(kind: Kind, x: Exchange, m: nat, lo: nat, hi: nat, bids: set<int>, asks: set<int>)
    requires InConnectionOrder(kind) && ValidExchange(x) && AlwaysTruthful(kind, x)
    requires Mistakable(kind, x, m, lo, hi) && Spans(x.bids, lo, hi, bids) && Spans(x.asks, lo, hi, asks)
    ensures Reflects(x, Some(Overlaid(x, m, hi, bids, asks)), x.id(hi))
  {
    var bidLevels := PricesListed(SideAt(x.bids, hi), bids);
    var askLevels := PricesListed(SideAt(x.asks, hi), asks);
    var e := DepthUpdate(x.id(hi), x.id(hi), x.id(lo), bidLevels, askLevels);
    assert Covers(kind, x, e, lo, hi);
    EventOverlays(kind, x, e, m, lo, hi);
    TruthfulEvent(kind, x, e, m);
  }

  /** For Bybit and OKX, truth over every run of faithful messages holds exactly when revisions that
      pass for one another are interchangeable. */
  lemma ConnectionOrderTruthIff(kind: Kind, x: Exchange)
    requires InConnectionOrder(kind) && ValidExchange(x)
    ensures AlwaysTruthful(kind, x) <==> Interchangeable(kind, x)
  {
    if Interchangeable(kind, x) {
      ReliableIdsCohere(kind, x);
      forall inputs | FaithfulRun(kind, x, inputs) && Run(PolicyOf(kind), inputs).sync.live
        ensures Reflects(x, Shown(kind, inputs), Run(PolicyOf(kind), inputs).sync.lastFinalId)
      {
        CoherentRunTruthful(kind, x, inputs);
      }
    }
    if AlwaysTruthful(kind, x) {
      forall m: nat, lo: nat, hi: nat, bids: set<int>, asks: set<int>
        | Mistakable(kind, x, m, lo, hi) && Spans(x.bids, lo, hi, bids) && Spans(x.asks, lo, hi, asks)
        ensures Reflects(x, Some(Overlaid(x, m, hi, bids, asks)), x.id(hi))
      {
        TruthfulIsInterchangeable(kind, x, m, lo, hi, bids, asks);
      }
    }
  }

  // ----- restarts and reused ids -----

  /** An exchange whose only change is a bid added at revision k. */
  function AddingBidAt(k: nat, id: nat -> nat): Exchange {
    Exchange(
      Tape(map[], (n: nat) => if n == k then map[100 := 5] else map[]),
      Tape(map[], (n: nat) => map[]),
      id)
  }

  lemma {:induction false} BidStays(k: nat, id: nat -> nat, n: nat)
    requires n >= k > 0
    ensures 100 in SideAt(AddingBidAt(k, id).bids, n)
    decreases n
  {
    if n > k {
      BidStays(k, id, n - 1);
      assert AddingBidAt(k, id).bids.touched(n) == map[];
      SideAtWellFormed(AddingBidAt(k, id).bids, n - 1);
    }
  }

  lemma {:induction false} NoBidBefore(k: nat, id: nat -> nat, n: nat)
    requires n < k
    ensures SideAt(AddingBidAt(k, id).bids, n) == map[]
  {
    if n > 0 { NoBidBefore(k, id, n - 1); }
  }

  /** A revision before the bid that passes for one after it misleads, if every revision with the
      new id has the bid. */
  lemma MistakenRevisionMisleads(kind: Kind, k: nat, id: nat -> nat, m: nat, hi: nat)
    requires InConnectionOrder(kind) && m < k < hi
    requires Mistakable(kind, AddingBidAt(k, id), m, hi - 1, hi) && forall n: nat :: id(n) == id(hi) ==> n >= k
    ensures ValidExchange(AddingBidAt(k, id)) && !AlwaysTruthful(kind, AddingBidAt(k, id))
  {
    var x := AddingBidAt(k, id);
    assert x.bids.touched(hi) == map[] && x.asks.touched(hi) == map[];
    assert Spans(x.bids, hi - 1, hi, {}) && Spans(x.asks, hi - 1, hi, {});
    NoBidBefore(k, id, m);
    forall n: nat | x.id(n) == x.id(hi)
      ensures Overlaid(x, m, hi, {}, {}) != BookAt(x, n)
    {
      BidStays(k, id, n);
    }
    assert !Reflects(x, Some(Overlaid(x, m, hi, {}, {})), x.id(hi));
    ConnectionOrderTruthIff(kind, x);
  }

  /** OKX: revisions 0 and 2 share an id, so the event chained to revision 2 is accepted on revision
      0's book, which has not seen revision 1. */
  lemma OkxReusedIdMisleads()
    ensures
      var x := AddingBidAt(1, (n: nat) => if n == 0 || n == 2 then 7 else n + 10);
      ValidExchange(x) && !AlwaysTruthful(Okx, x)
  {
    MistakenRevisionMisleads(Okx, 1, (n: nat) => if n == 0 || n == 2 then 7 else n + 10, 0, 3);
  }

  /** Bybit: ids 1, 2 and, after a restart, 1, 2, 3, ...: with the restart's messages lost, id 3 is
      accepted on the old book at id 2. */
  lemma BybitRestartMisleads()
    ensures
      var x := AddingBidAt(2, (n: nat) => if n < 2 then n + 1 else n - 1);
      ValidExchange(x) && !AlwaysTruthful(Bybit, x)
  {
    MistakenRevisionMisleads(Bybit, 2, (n: nat) => if n < 2 then n + 1 else n - 1, 1, 4);
  }

  // ----- the restart event itself -----

  ghost predicate SnapshotIdsPositive(inputs: seq<Input>) {
    forall i :: 0 <= i < |inputs| && inputs[i].Snapshot? ==> inputs[i].snapshot.lastUpdateId >= 1
  }

  /** Every id a replay reaches follows the snapshot's or another event's. */
  lemma BybitReplayIdPositive(s: Sync, snap: SnapshotMessage, tail: seq<DepthUpdate>)
    requires tail != [] && PolicyOf(Bybit).bridgesSnapshot(tail[0], snap)
    ensures
      var out := Replay(PolicyOf(Bybit), s, snap, tail);
      out.sync.live ==> out.sync.lastFinalId >= 1
  {
    var n := RunLength(PolicyOf(Bybit), tail);
    var run := tail[..n];
    if n > 1 {
      assert PolicyOf(Bybit).isContiguous(run[n - 1], run[n - 2].finalId);
      assert run[n - 1] == tail[n - 1];
    }
  }

  lemma BybitStepKeepsIdPositive(s: Sync, input: Input)
    requires s.live ==> s.lastFinalId >= 1
    requires input.Snapshot? ==> input.snapshot.lastUpdateId >= 1
    ensures Step(PolicyOf(Bybit), s, input).sync.live ==> Step(PolicyOf(Bybit), s, input).sync.lastFinalId >= 1
  {
    if input.Snapshot? {
      var kept := Survivors(PolicyOf(Bybit), s.buffer, input.snapshot);
      var b := BridgeIndex(PolicyOf(Bybit), kept, input.snapshot);
      if b < |kept| { BybitReplayIdPositive(s, input.snapshot, kept[b..]); }
    }
  }

  lemma {:induction false} BybitIdPositive(inputs: seq<Input>)
    requires SnapshotIdsPositive(inputs)
    ensures Run(PolicyOf(Bybit), inputs).sync.live ==> Run(PolicyOf(Bybit), inputs).sync.lastFinalId >= 1
  {
    if inputs != [] {
      BybitIdPositive(inputs[..|inputs| - 1]);
      BybitStepKeepsIdPositive(Run(PolicyOf(Bybit), inputs[..|inputs| - 1]).sync, inputs[|inputs| - 1]);
    }
  }

  /** The restart itself needs no special case: after any run with real snapshot ids, an event with
      id 1 on a Live book is a gap, so the venue is invalidated and the event kept for the resync. Only
      a book at id 0 would take it for its next event. */
  lemma BybitRestartIsGap(inputs: seq<Input>, e: DepthUpdate)
    requires SnapshotIdsPositive(inputs) && Run(PolicyOf(Bybit), inputs).sync.live && e.finalId == 1
    ensures
      var s, out := Run(PolicyOf(Bybit), inputs).sync, Step(PolicyOf(Bybit), Run(PolicyOf(Bybit), inputs).sync, Depth(e));
      && out.sync.buffer == s.buffer + [e] && !out.sync.live && out.sync.lastFinalId == 0 && !out.sync.requested
      && out.actions == [InvalidateVenue]
  {
    BybitIdPositive(inputs);
  }
}
