/** The resync state machine against the exchange's own book: whatever is lost, a Live symbol's
    book is the exchange's book at the last applied id. */
module Truth {
  import opened Levels
  import opened Resync

  // ----- the exchange -----

  /** One side's history: `touched(n)` holds the prices revision n touches and their new absolute
      sizes, zero for a removal. */
  datatype Tape = Tape(initial: Side, touched: nat -> Side)

  /** Both sides and the id the exchange gives revision n. */
  datatype Exchange = Exchange(bids: Tape, asks: Tape, id: nat -> nat)

  ghost predicate ValidTape(t: Tape) {
    && WellFormed(t.initial)
    && forall n: nat, p :: p in t.touched(n) ==> p > 0 && t.touched(n)[p] >= 0
  }

  ghost predicate ValidExchange(x: Exchange) {
    ValidTape(x.bids) && ValidTape(x.asks)
  }

  ghost function SideAt(t: Tape, n: nat): Side {
    if n == 0 then t.initial else PositivePart(SideAt(t, n - 1) + t.touched(n))
  }

  ghost function BookAt(x: Exchange, n: nat): Book {
    Book(SideAt(x.bids, n), SideAt(x.asks, n))
  }

  // ----- faithful messages -----

  /** A level list for revisions lo+1..hi: absolute sizes at hi, for every price touched on the way. */
  ghost predicate SideFaithful(t: Tape, levels: seq<Level>, lo: nat, hi: nat) {
    && States(levels, SideAt(t, hi))
    && (forall i :: 0 <= i < |levels| ==> levels[i].price > 0)
    && (forall k: nat, p :: lo < k <= hi && p in t.touched(k) ==> Lists(levels, p))
  }

  /** Event `e` reports revisions lo+1..hi, with the ids this venue puts on the wire. */
  ghost predicate Covers(kind: Kind, x: Exchange, e: DepthUpdate, lo: nat, hi: nat) {
    && lo <= hi
    && x.id(hi) == e.finalId
    && SideFaithful(x.bids, e.bids, lo, hi)
    && SideFaithful(x.asks, e.asks, lo, hi)
    && match kind
       case BinanceSpot => lo + 1 == e.firstId <= e.finalId
       case BinanceFutures => x.id(lo) == e.prevFinalId && lo < e.firstId <= hi
       case Bybit => lo + 1 == hi && e.firstId == e.finalId
       case Okx => x.id(lo) == e.prevFinalId && e.firstId == e.finalId
  }

  ghost predicate FaithfulEvent(kind: Kind, x: Exchange, e: DepthUpdate) {
    exists lo: nat, hi: nat :: Covers(kind, x, e, lo, hi)
  }

  ghost predicate FaithfulEvents(kind: Kind, x: Exchange, events: seq<DepthUpdate>) {
    forall i :: 0 <= i < |events| ==> FaithfulEvent(kind, x, events[i])
  }

  /** A level list holding the whole side at revision n. */
  ghost predicate SideSnapshot(t: Tape, levels: seq<Level>, n: nat) {
    && States(levels, SideAt(t, n))
    && (forall i :: 0 <= i < |levels| ==> levels[i].price > 0)
    && (forall p :: p in SideAt(t, n) ==> Lists(levels, p))
  }

  ghost predicate SnapshotOf(x: Exchange, snap: SnapshotMessage, n: nat) {
    x.id(n) == snap.lastUpdateId && SideSnapshot(x.bids, snap.bids, n) && SideSnapshot(x.asks, snap.asks, n)
  }

  ghost predicate FaithfulSnapshot(x: Exchange, snap: SnapshotMessage) {
    exists n: nat :: SnapshotOf(x, snap, n)
  }

  ghost predicate FaithfulInput(kind: Kind, x: Exchange, input: Input) {
    match input
    case Depth(e) => FaithfulEvent(kind, x, e)
    case Snapshot(snap) => FaithfulSnapshot(x, snap)
    case _ => true
  }

  /** Every message is faithful; which ones arrive, how often and in what order is unconstrained. */
  ghost predicate FaithfulRun(kind: Kind, x: Exchange, inputs: seq<Input>) {
    forall i :: 0 <= i < |inputs| ==> FaithfulInput(kind, x, inputs[i])
  }

  /** The id is the revision number. */
  ghost predicate Consecutive(x: Exchange) {
    forall n: nat :: x.id(n) == n
  }

  /** Between restarts and resets: Binance and Bybit number revisions consecutively, OKX does not
      reuse an id. */
  ghost predicate OrdinaryIds(kind: Kind, x: Exchange) {
    if kind.Okx? then forall m: nat, n: nat :: x.id(m) == x.id(n) ==> m == n else Consecutive(x)
  }

  // ----- executing actions on the venue's book -----

  /** The venue's book under an action all of whose levels are valid. */
  function Perform(b: Option<Book>, a: Action): Option<Book> {
    match a
    case RequestSnapshot => b
    case ApplySnapshot(s) => Some(SnapshotBook(s.bids, s.asks))
    case ApplyDelta(e) => Some(ApplyToBook(if b.Some? then b.value else EMPTY_BOOK, e.bids, e.asks))
    case InvalidateVenue => None
  }

  function PerformAll(b: Option<Book>, actions: seq<Action>): Option<Book>
    decreases |actions|
  {
    if actions == [] then b else PerformAll(Perform(b, actions[0]), actions[1..])
  }

  /** The venue's book is the exchange's book at the revision that carries `id`. */
  ghost predicate Reflects(x: Exchange, b: Option<Book>, id: nat) {
    exists n: nat :: x.id(n) == id && b == Some(BookAt(x, n))
  }

  ghost predicate Harmless(x: Exchange, b: Option<Book>) {
    b.Some? ==> exists n: nat :: b == Some(BookAt(x, n))
  }

  /** At no point between two actions does the book show anything but a book the exchange had. */
  ghost predicate NeverWrong(x: Exchange, b: Option<Book>, actions: seq<Action>)
    decreases |actions|
  {
    Harmless(x, b) && (actions != [] ==> NeverWrong(x, Perform(b, actions[0]), actions[1..]))
  }

  ghost predicate Truthful(kind: Kind, x: Exchange, s: Sync, b: Option<Book>) {
    && FaithfulEvents(kind, x, s.buffer)
    && (s.live ==> s.buffer == [] && Reflects(x, b, s.lastFinalId))
    && (!s.live ==> b == None)
  }

  // ----- the exchange's book between revisions -----

  lemma {:induction false} SideAtWellFormed(t: Tape, n: nat)
    requires ValidTape(t)
    ensures WellFormed(SideAt(t, n))
  {
    if n > 0 {
      SideAtWellFormed(t, n - 1);
      var before, touched := SideAt(t, n - 1), t.touched(n);
      forall p | p in SideAt(t, n)
        ensures p > 0
      {
        if p in touched { assert p in t.touched(n); }
      }
    }
  }

  lemma {:induction false} Untouched(t: Tape, p: int, lo: nat, hi: nat)
    requires ValidTape(t) && lo <= hi
    requires forall k: nat :: lo < k <= hi ==> p !in t.touched(k)
    ensures SizeAt(SideAt(t, lo), p) == SizeAt(SideAt(t, hi), p)
    decreases hi
  {
    if lo < hi {
      Untouched(t, p, lo, hi - 1);
      SideAtWellFormed(t, hi - 1);
      assert p !in t.touched(hi);
    }
  }

  function PricesOf(levels: seq<Level>): set<int> {
    set i | 0 <= i < |levels| :: levels[i].price
  }

  /** `from`, with the given prices as they are in `to`. */
  function Overlay(from: Side, to: Side, prices: set<int>): Side {
    map p | p in from.Keys + to.Keys && p in (if p in prices then to else from) :: if p in prices then to[p] else from[p]
  }

  lemma OverlaySizes(from: Side, to: Side, prices: set<int>)
    requires WellFormed(from) && WellFormed(to)
    ensures WellFormed(Overlay(from, to, prices))
    ensures forall p :: SizeAt(Overlay(from, to, prices), p) == SizeAt(if p in prices then to else from, p)
  {
  }

  /** Applying absolute sizes taken from `to` overlays exactly the listed prices. */
  lemma ApplyOverlays(from: Side, to: Side, levels: seq<Level>)
    requires WellFormed(from) && WellFormed(to) && States(levels, to)
    requires forall i :: 0 <= i < |levels| ==> levels[i].price > 0
    ensures ApplyLevels(from, levels) == Overlay(from, to, PricesOf(levels))
  {
    var over := Overlay(from, to, PricesOf(levels));
    assert AllValid(levels) by {
      forall i | 0 <= i < |levels| ensures IsValidLevel(levels[i]) {
        assert levels[i].size == SizeAt(to, levels[i].price);
      }
    }
    ApplyLevelsWellFormed(from, levels);
    OverlaySizes(from, to, PricesOf(levels));
    forall p
      ensures SizeAt(ApplyLevels(from, levels), p) == SizeAt(over, p)
    {
      ApplyLevelsSizeAt(from, levels, p);
      LastSizeStates(levels, to, p, SizeAt(from, p));
      assert Lists(levels, p) <==> p in PricesOf(levels);
    }
    SidesEqual(ApplyLevels(from, levels), over);
  }

  /** Prices that include everything revisions lo+1..hi touch. */
  ghost predicate Spans(t: Tape, lo: nat, hi: nat, prices: set<int>) {
    && (forall p :: p in prices ==> p > 0)
    && (forall k: nat, p :: lo < k <= hi && p in t.touched(k) ==> p in prices)
  }

  /** Overlaying them on any revision from lo to hi lands exactly on hi. */
  lemma OverlayCatchesUp(t: Tape, lo: nat, m: nat, hi: nat, prices: set<int>)
    requires ValidTape(t) && lo <= m <= hi && Spans(t, lo, hi, prices)
    ensures Overlay(SideAt(t, m), SideAt(t, hi), prices) == SideAt(t, hi)
  {
    SideAtWellFormed(t, m);
    SideAtWellFormed(t, hi);
    OverlaySizes(SideAt(t, m), SideAt(t, hi), prices);
    forall p
      ensures SizeAt(Overlay(SideAt(t, m), SideAt(t, hi), prices), p) == SizeAt(SideAt(t, hi), p)
    {
      if p !in prices { Untouched(t, p, m, hi); }
    }
    SidesEqual(Overlay(SideAt(t, m), SideAt(t, hi), prices), SideAt(t, hi));
  }

  lemma FaithfulSpans(t: Tape, levels: seq<Level>, lo: nat, hi: nat)
    requires SideFaithful(t, levels, lo, hi)
    ensures Spans(t, lo, hi, PricesOf(levels))
  {
    forall k: nat, p | lo < k <= hi && p in t.touched(k)
      ensures p in PricesOf(levels)
    {
      assert Lists(levels, p);
    }
  }

  /** Applying a faithful list to any revision it overlaps or touches lands exactly on its end. */
  lemma SideCatchesUp(t: Tape, levels: seq<Level>, lo: nat, m: nat, hi: nat)
    requires ValidTape(t) && lo <= m <= hi && SideFaithful(t, levels, lo, hi)
    ensures ApplyLevels(SideAt(t, m), levels) == SideAt(t, hi)
  {
    SideAtWellFormed(t, m);
    SideAtWellFormed(t, hi);
    ApplyOverlays(SideAt(t, m), SideAt(t, hi), levels);
    FaithfulSpans(t, levels, lo, hi);
    OverlayCatchesUp(t, lo, m, hi, PricesOf(levels));
  }

  lemma SnapshotIsBook(x: Exchange, snap: SnapshotMessage, n: nat)
    requires ValidExchange(x) && SnapshotOf(x, snap, n)
    ensures SnapshotBook(snap.bids, snap.asks) == BookAt(x, n)
  {
    SideAtWellFormed(x.bids, n);
    SideAtWellFormed(x.asks, n);
    SnapshotDenotes(snap.bids, SideAt(x.bids, n));
    SnapshotDenotes(snap.asks, SideAt(x.asks, n));
  }

  // ----- when an accepted event is safe to apply -----

  /** The policy would apply `e` on top of a book at `id`, as a continuation or as a bridge. */
  predicate Acceptable(kind: Kind, e: DepthUpdate, id: nat) {
    PolicyOf(kind).isContiguous(e, id) || PolicyOf(kind).bridgesSnapshot(e, SnapshotMessage([], [], id))
  }

  /** Whatever faithful event the policy accepts at a revision leads to a revision with its id. */
  ghost predicate Coherent(kind: Kind, x: Exchange) {
    forall e: DepthUpdate, m: nat ::
      FaithfulEvent(kind, x, e) && Acceptable(kind, e, x.id(m)) ==>
        Reflects(x, Some(ApplyToBook(BookAt(x, m), e.bids, e.asks)), e.finalId)
  }

  lemma AcceptedEventOverlaps(kind: Kind, x: Exchange, e: DepthUpdate, m: nat, lo: nat, hi: nat)
    requires OrdinaryIds(kind, x) && Covers(kind, x, e, lo, hi) && Acceptable(kind, e, x.id(m))
    ensures lo <= m <= hi
  {
    if !kind.Okx? {
      assert x.id(m) == m && x.id(lo) == lo && x.id(hi) == hi;
    }
  }

  /** Bybit and OKX push their snapshot on the stream's own connection. */
  predicate InConnectionOrder(kind: Kind) {
    kind.Bybit? || kind.Okx?
  }

  /** By its ids alone, an event over revisions lo+1..hi passes for a continuation of revision m. */
  ghost predicate Mistakable(kind: Kind, x: Exchange, m: nat, lo: nat, hi: nat) {
    lo <= hi && if kind.Bybit? then lo + 1 == hi && x.id(hi) == x.id(m) + 1 else x.id(m) == x.id(lo)
  }

  /** Book m, with the given prices as they are in book hi. */
  ghost function Overlaid(x: Exchange, m: nat, hi: nat, bids: set<int>, asks: set<int>): Book {
    Book(Overlay(SideAt(x.bids, m), SideAt(x.bids, hi), bids), Overlay(SideAt(x.asks, m), SideAt(x.asks, hi), asks))
  }

  /** A condition on the exchange's ids and books alone: wherever one revision passes for another,
      its book with any set of prices that covers the change brought up to date is again a book the
      exchange had under the new id. */
  ghost predicate Interchangeable(kind: Kind, x: Exchange) {
    forall m: nat, lo: nat, hi: nat, bids: set<int>, asks: set<int> ::
      Mistakable(kind, x, m, lo, hi) && Spans(x.bids, lo, hi, bids) && Spans(x.asks, lo, hi, asks) ==>
        Reflects(x, Some(Overlaid(x, m, hi, bids, asks)), x.id(hi))
  }

  /** What the truth theorem needs of an exchange's ids: consecutive for Binance; for the
      connection-order venues restarts and resets are allowed as long as revisions that pass for one
      another are interchangeable. */
  ghost predicate ReliableIds(kind: Kind, x: Exchange) {
    if InConnectionOrder(kind) then Interchangeable(kind, x) else Consecutive(x)
  }

  /** Without a restart or a reuse the ids are reliable. */
  lemma OrdinaryIdsAreReliable(kind: Kind, x: Exchange)
    requires ValidExchange(x) && OrdinaryIds(kind, x)
    ensures ReliableIds(kind, x)
  {
    if InConnectionOrder(kind) {
      forall m: nat, lo: nat, hi: nat, bids: set<int>, asks: set<int>
        | Mistakable(kind, x, m, lo, hi) && Spans(x.bids, lo, hi, bids) && Spans(x.asks, lo, hi, asks)
        ensures Reflects(x, Some(Overlaid(x, m, hi, bids, asks)), x.id(hi))
      {
        assert x.id(m) == m || kind.Okx?;
        assert x.id(hi) == hi || kind.Okx?;
        assert lo == m;
        OverlayCatchesUp(x.bids, lo, m, hi, bids);
        OverlayCatchesUp(x.asks, lo, m, hi, asks);
        assert Overlaid(x, m, hi, bids, asks) == BookAt(x, hi);
      }
    }
  }

  /** What a faithful event does to any revision's book. */
  lemma EventOverlays(kind: Kind, x: Exchange, e: DepthUpdate, m: nat, lo: nat, hi: nat)
    requires ValidExchange(x) && Covers(kind, x, e, lo, hi)
    ensures Spans(x.bids, lo, hi, PricesOf(e.bids)) && Spans(x.asks, lo, hi, PricesOf(e.asks))
    ensures ApplyToBook(BookAt(x, m), e.bids, e.asks) == Overlaid(x, m, hi, PricesOf(e.bids), PricesOf(e.asks))
  {
    FaithfulSpans(x.bids, e.bids, lo, hi);
    FaithfulSpans(x.asks, e.asks, lo, hi);
    SideAtWellFormed(x.bids, m);
    SideAtWellFormed(x.bids, hi);
    SideAtWellFormed(x.asks, m);
    SideAtWellFormed(x.asks, hi);
    ApplyOverlays(SideAt(x.bids, m), SideAt(x.bids, hi), e.bids);
    ApplyOverlays(SideAt(x.asks, m), SideAt(x.asks, hi), e.asks);
  }

  lemma ReliableEvent(kind: Kind, x: Exchange, e: DepthUpdate, m: nat)
    requires ValidExchange(x) && ReliableIds(kind, x) && FaithfulEvent(kind, x, e) && Acceptable(kind, e, x.id(m))
    ensures Reflects(x, Some(ApplyToBook(BookAt(x, m), e.bids, e.asks)), e.finalId)
  {
    var lo: nat, hi: nat :| Covers(kind, x, e, lo, hi);
    EventOverlays(kind, x, e, m, lo, hi);
    if InConnectionOrder(kind) {
      assert Mistakable(kind, x, m, lo, hi);
    } else {
      AcceptedEventOverlaps(kind, x, e, m, lo, hi);
      OverlayCatchesUp(x.bids, lo, m, hi, PricesOf(e.bids));
      OverlayCatchesUp(x.asks, lo, m, hi, PricesOf(e.asks));
      assert x.id(hi) == e.finalId;
    }
  }

  lemma ReliableIdsCohere(kind: Kind, x: Exchange)
    requires ValidExchange(x) && ReliableIds(kind, x)
    ensures Coherent(kind, x)
  {
    forall e: DepthUpdate, m: nat | FaithfulEvent(kind, x, e) && Acceptable(kind, e, x.id(m))
      ensures Reflects(x, Some(ApplyToBook(BookAt(x, m), e.bids, e.asks)), e.finalId)
    {
      ReliableEvent(kind, x, e, m);
    }
  }

  // ----- the run -----

  lemma {:induction false} PerformConcat(x: Exchange, b: Option<Book>, p: seq<Action>, q: seq<Action>)
    ensures PerformAll(b, p + q) == PerformAll(PerformAll(b, p), q)
    ensures NeverWrong(x, b, p) && NeverWrong(x, PerformAll(b, p), q) ==> NeverWrong(x, b, p + q)
    decreases |p|
  {
    if p == [] {
      assert p + q == q;
    } else {
      assert (p + q)[0] == p[0] && (p + q)[1..] == p[1..] + q;
      PerformConcat(x, Perform(b, p[0]), p[1..], q);
    }
  }

  lemma PerformOne(x: Exchange, b: Option<Book>, a: Action)
    ensures PerformAll(b, [a]) == Perform(b, a)
    ensures Harmless(x, b) && Harmless(x, Perform(b, a)) ==> NeverWrong(x, b, [a])
  {
    assert [a][1..] == [];
  }

  lemma AcceptedDelta(kind: Kind, x: Exchange, b: Option<Book>, id: nat, e: DepthUpdate)
    requires Coherent(kind, x) && Reflects(x, b, id)
    requires FaithfulEvent(kind, x, e) && Acceptable(kind, e, id)
    ensures Reflects(x, Perform(b, ApplyDelta(e)), e.finalId)
  {
    var m: nat :| x.id(m) == id && b == Some(BookAt(x, m));
    CoherentEvent(kind, x, e, m);
  }

  lemma CoherentEvent(kind: Kind, x: Exchange, e: DepthUpdate, m: nat)
    requires Coherent(kind, x) && FaithfulEvent(kind, x, e) && Acceptable(kind, e, x.id(m))
    ensures Reflects(x, Perform(Some(BookAt(x, m)), ApplyDelta(e)), e.finalId)
  {
  }

  lemma NeverWrongCons(x: Exchange, b: Option<Book>, a: Action, rest: seq<Action>)
    requires Harmless(x, b) && NeverWrong(x, Perform(b, a), rest)
    ensures NeverWrong(x, b, [a] + rest) && PerformAll(b, [a] + rest) == PerformAll(Perform(b, a), rest)
  {
    assert ([a] + rest)[1..] == rest;
  }

  lemma ReflectsHarmless(x: Exchange, b: Option<Book>, id: nat)
    requires Reflects(x, b, id)
    ensures Harmless(x, b) && NeverWrong(x, b, [])
  {
  }

  lemma DeltasCons(events: seq<DepthUpdate>)
    requires events != []
    ensures Deltas(events) == [ApplyDelta(events[0])] + Deltas(events[1..])
  {
  }

  lemma {:induction false} DeltasTruthful(
      kind: Kind, x: Exchange, b: Option<Book>, id: nat, events: seq<DepthUpdate>)
    requires Coherent(kind, x) && Reflects(x, b, id)
    requires events != [] && Chained(PolicyOf(kind), events) && Acceptable(kind, events[0], id)
    requires FaithfulEvents(kind, x, events)
    ensures NeverWrong(x, b, Deltas(events))
    ensures Reflects(x, PerformAll(b, Deltas(events)), events[|events| - 1].finalId)
    decreases |events|
  {
    var e, rest := events[0], events[1..];
    var next := Perform(b, ApplyDelta(e));
    AcceptedDelta(kind, x, b, id, e);
    ReflectsHarmless(x, b, id);
    ReflectsHarmless(x, next, e.finalId);
    DeltasCons(events);
    if rest == [] {
      assert Deltas(rest) == [];
    } else {
      ChainedTail(PolicyOf(kind), events);
      FaithfulSlices(kind, x, events, 1);
      DeltasTruthful(kind, x, next, e.finalId, rest);
    }
    NeverWrongCons(x, b, ApplyDelta(e), Deltas(rest));
  }

  lemma FaithfulSlices(kind: Kind, x: Exchange, events: seq<DepthUpdate>, n: nat)
    requires n <= |events| && FaithfulEvents(kind, x, events)
    ensures FaithfulEvents(kind, x, events[..n]) && FaithfulEvents(kind, x, events[n..])
  {
  }

  lemma FaithfulSurvivors(kind: Kind, x: Exchange, buffer: seq<DepthUpdate>, snap: SnapshotMessage)
    requires FaithfulEvents(kind, x, buffer)
    ensures FaithfulEvents(kind, x, Survivors(PolicyOf(kind), buffer, snap))
  {
    var kept := Survivors(PolicyOf(kind), buffer, snap);
    forall i | 0 <= i < |kept|
      ensures FaithfulEvent(kind, x, kept[i])
    {
      assert kept[i] in kept;
    }
  }

  lemma FaithfulSnoc(kind: Kind, x: Exchange, events: seq<DepthUpdate>, e: DepthUpdate)
    requires FaithfulEvents(kind, x, events) && FaithfulEvent(kind, x, e)
    ensures FaithfulEvents(kind, x, events + [e])
  {
  }

  lemma ChainedTail(policy: SequencePolicy, events: seq<DepthUpdate>)
    requires Chained(policy, events) && |events| > 1
    ensures Chained(policy, events[1..]) && policy.isContiguous(events[1], events[0].finalId)
  {
    var rest := events[1..];
    forall i | 0 < i < |rest|
      ensures policy.isContiguous(rest[i], rest[i - 1].finalId)
    {
      assert rest[i] == events[i + 1] && rest[i - 1] == events[i];
    }
  }

  lemma SnapshotReflected(x: Exchange, b: Option<Book>, snap: SnapshotMessage)
    requires ValidExchange(x) && FaithfulSnapshot(x, snap)
    ensures Reflects(x, Perform(b, ApplySnapshot(snap)), snap.lastUpdateId)
  {
    var n: nat :| SnapshotOf(x, snap, n);
    SnapshotIsBook(x, snap, n);
  }

  /** No shipped policy looks at a snapshot's levels to find the bridge. */
  lemma BridgeByIdAlone(kind: Kind, e: DepthUpdate, snap: SnapshotMessage)
    requires PolicyOf(kind).bridgesSnapshot(e, snap)
    ensures Acceptable(kind, e, snap.lastUpdateId)
  {
  }

  /** The snapshot and the contiguous run behind it, before any gap is answered. */
  lemma ReplayRunTruthful(
      kind: Kind, x: Exchange, b: Option<Book>, snap: SnapshotMessage, run: seq<DepthUpdate>)
    requires ValidExchange(x) && Coherent(kind, x) && Harmless(x, b) && FaithfulSnapshot(x, snap)
    requires run != [] && PolicyOf(kind).bridgesSnapshot(run[0], snap) && Chained(PolicyOf(kind), run)
    requires FaithfulEvents(kind, x, run)
    ensures
      var applied := [ApplySnapshot(snap)] + Deltas(run);
      NeverWrong(x, b, applied) && Reflects(x, PerformAll(b, applied), run[|run| - 1].finalId)
  {
    var book := Perform(b, ApplySnapshot(snap));
    SnapshotReflected(x, b, snap);
    BridgeByIdAlone(kind, run[0], snap);
    DeltasTruthful(kind, x, book, snap.lastUpdateId, run);
    NeverWrongCons(x, b, ApplySnapshot(snap), Deltas(run));
  }

  lemma ReplayTruthful(
      kind: Kind, x: Exchange, s: Sync, b: Option<Book>, snap: SnapshotMessage, tail: seq<DepthUpdate>)
    requires ValidExchange(x) && Coherent(kind, x) && Harmless(x, b) && FaithfulSnapshot(x, snap)
    requires tail != [] && PolicyOf(kind).bridgesSnapshot(tail[0], snap) && FaithfulEvents(kind, x, tail)
    ensures
      var out := Replay(PolicyOf(kind), s, snap, tail);
      NeverWrong(x, b, out.actions) && Truthful(kind, x, out.sync, PerformAll(b, out.actions))
  {
    var n := RunLength(PolicyOf(kind), tail);
    var run := tail[..n];
    var applied := [ApplySnapshot(snap)] + Deltas(run);
    FaithfulSlices(kind, x, tail, n);
    ReplayRunTruthful(kind, x, b, snap, run);
    ReflectsHarmless(x, PerformAll(b, applied), run[n - 1].finalId);
    if n < |tail| {
      InvalidatedTruthful(kind, x, b, applied, tail[n..]);
    } else {
      LiveTruthful(kind, x, run[n - 1].finalId, s.requested, PerformAll(b, applied));
    }
  }

  lemma LiveTruthful(kind: Kind, x: Exchange, id: nat, requested: bool, b: Option<Book>)
    requires Reflects(x, b, id)
    ensures Truthful(kind, x, Sync(true, [], id, requested), b)
  {
  }

  lemma InvalidatedTruthful(kind: Kind, x: Exchange, b: Option<Book>, applied: seq<Action>, left: seq<DepthUpdate>)
    requires NeverWrong(x, b, applied) && Harmless(x, PerformAll(b, applied))
    requires FaithfulEvents(kind, x, left)
    ensures
      var out := Gap(left);
      NeverWrong(x, b, applied + out.actions) && Truthful(kind, x, out.sync, PerformAll(b, applied + out.actions))
  {
    PerformOne(x, PerformAll(b, applied), InvalidateVenue);
    PerformConcat(x, b, applied, [InvalidateVenue]);
  }

  lemma StepTruthful(kind: Kind, x: Exchange, s: Sync, b: Option<Book>, input: Input)
    requires ValidExchange(x) && Coherent(kind, x) && Truthful(kind, x, s, b) && FaithfulInput(kind, x, input)
    ensures
      var out := Step(PolicyOf(kind), s, input);
      NeverWrong(x, b, out.actions) && Truthful(kind, x, out.sync, PerformAll(b, out.actions))
  {
    var policy := PolicyOf(kind);
    var out := Step(policy, s, input);
    assert Harmless(x, b);
    match input
    case Connected =>
      PerformOne(x, b, RequestSnapshot);
    case Disconnected =>
      PerformOne(x, b, InvalidateVenue);
    case Depth(e) =>
      FaithfulSnoc(kind, x, s.buffer, e);
      if s.live {
        PerformOne(x, b, InvalidateVenue);
        if policy.isContiguous(e, s.lastFinalId) {
          AcceptedDelta(kind, x, b, s.lastFinalId, e);
          PerformOne(x, b, ApplyDelta(e));
        }
      }
    case Snapshot(snap) =>
      var kept := Survivors(policy, s.buffer, snap);
      FaithfulSurvivors(kind, x, s.buffer, snap);
      var k := BridgeIndex(policy, kept, snap);
      if k < |kept| {
        var tail := kept[k..];
        FaithfulSlices(kind, x, kept, k);
        ReplayTruthful(kind, x, s, b, snap, tail);
      } else {
        PerformOne(x, b, RequestSnapshot);
        PerformOne(x, b, InvalidateVenue);
        SnapshotReflected(x, b, snap);
        PerformOne(x, b, ApplySnapshot(snap));
      }
  }

  /** The book a venue contributes after a run. */
  function Shown(kind: Kind, inputs: seq<Input>): Option<Book> {
    PerformAll(None, Run(PolicyOf(kind), inputs).actions)
  }

  lemma {:induction false} CoherentRunTruthful(kind: Kind, x: Exchange, inputs: seq<Input>)
    requires ValidExchange(x) && Coherent(kind, x) && FaithfulRun(kind, x, inputs)
    ensures Truthful(kind, x, Run(PolicyOf(kind), inputs).sync, Shown(kind, inputs))
    ensures NeverWrong(x, None, Run(PolicyOf(kind), inputs).actions)
  {
    if inputs != [] {
      var init, last := inputs[..|inputs| - 1], inputs[|inputs| - 1];
      CoherentRunTruthful(kind, x, init);
      var before := Run(PolicyOf(kind), init);
      StepTruthful(kind, x, before.sync, Shown(kind, init), last);
      PerformConcat(x, None, before.actions, Step(PolicyOf(kind), before.sync, last).actions);
    }
  }

  /** Truth refinement: over every run of faithful messages, any of them lost, repeated, reordered
      or stale, a Live symbol's book is the exchange's book at the last applied id, a Buffering
      symbol contributes nothing, and no intermediate action ever shows a book the exchange never had. */
  lemma LiveBookIsExchangeBook(kind: Kind, x: Exchange, inputs: seq<Input>)
    requires ValidExchange(x) && ReliableIds(kind, x) && FaithfulRun(kind, x, inputs)
    ensures
      var s := Run(PolicyOf(kind), inputs).sync;
      && (s.live ==> Reflects(x, Shown(kind, inputs), s.lastFinalId))
      && (s.live && Consecutive(x) ==> Shown(kind, inputs) == Some(BookAt(x, s.lastFinalId)))
      && (!s.live ==> Shown(kind, inputs) == None)
    ensures NeverWrong(x, None, Run(PolicyOf(kind), inputs).actions)
  {
    ReliableIdsCohere(kind, x);
    CoherentRunTruthful(kind, x, inputs);
  }
}
