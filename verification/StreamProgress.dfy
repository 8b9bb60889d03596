/** What the resync state machine does get done: a Live symbol follows its stream, a buffering one
    comes back. */
module StreamProgress {
  import opened Levels
  import opened Resync
  import opened Traces
  import opened Truth
  import opened Conservation

  function Depths(events: seq<DepthUpdate>): seq<Input> {
    seq(|events|, i requires 0 <= i < |events| => Depth(events[i]))
  }

  function Snapshots(snaps: seq<SnapshotMessage>): seq<Input> {
    seq(|snaps|, i requires 0 <= i < |snaps| => Snapshot(snaps[i]))
  }

  // ----- a Live symbol follows its stream -----

  /** A depth event takes a Live symbol out of Live exactly when it does not continue the last id; it
      is then kept, and the venue invalidated. */
  lemma LiveStaysLiveIff(policy: SequencePolicy, inputs: seq<Input>, e: DepthUpdate)
    requires Run(policy, inputs).sync.live
    ensures
      var before, after := Run(policy, inputs), Run(policy, inputs + [Depth(e)]);
      && (after.sync.live <==> policy.isContiguous(e, before.sync.lastFinalId))
      && (after.sync.live ==> after.sync.lastFinalId == e.finalId && after.sync.buffer == []
                              && after.actions == before.actions + [ApplyDelta(e)])
      && (!after.sync.live ==> after.sync.lastFinalId == 0 && after.sync.buffer == [e] && !after.sync.requested
                               && after.actions == before.actions + [InvalidateVenue])
  {
    RunAccepted(policy, inputs);
    RunSnoc(policy, inputs, Depth(e));
    assert [] + [e] == [e];
  }

  /** Fed events that each continue the one before, a Live symbol stays Live, ends at the last event's
      id, and announces exactly one delta per event. */
  lemma {:induction false} LiveFollowsStream(policy: SequencePolicy, inputs: seq<Input>, events: seq<DepthUpdate>)
    requires Run(policy, inputs).sync.live && Chained(policy, events)
    requires events != [] ==> policy.isContiguous(events[0], Run(policy, inputs).sync.lastFinalId)
    ensures
      var before, after := Run(policy, inputs), Run(policy, inputs + Depths(events));
      && after.sync.live
      && after.sync.lastFinalId == (if events == [] then before.sync.lastFinalId else events[|events| - 1].finalId)
      && after.actions == before.actions + Deltas(events)
    decreases |events|
  {
    var before := Run(policy, inputs);
    if events == [] {
      assert inputs + Depths(events) == inputs && before.actions + Deltas(events) == before.actions;
    } else {
      var init, e := events[..|events| - 1], events[|events| - 1];
      assert inputs + Depths(events) == (inputs + Depths(init)) + [Depth(e)];
      LiveFollowsStream(policy, inputs, init);
      assert init != [] ==> policy.isContiguous(e, init[|init| - 1].finalId);
      LiveStaysLiveIff(policy, inputs + Depths(init), e);
      DeltasSnoc(events, |init|);
      assert events[..|init| + 1] == events;
      ConcatAssoc(before.actions, Deltas(init), [ApplyDelta(e)]);
    }
  }

  // ----- what a snapshot does to a buffering symbol -----

  /** The buffer bridges the snapshot at place b of what its filter keeps. */
  ghost predicate BridgedAt(policy: SequencePolicy, kept: seq<DepthUpdate>, snap: SnapshotMessage, b: nat) {
    && b < |kept| && policy.bridgesSnapshot(kept[b], snap)
    && forall i :: 0 <= i < b ==> !policy.bridgesSnapshot(kept[i], snap)
  }

  /** A snapshot takes a buffering symbol live exactly when the connection has delivered nothing before
      it and its order is trusted, or everything the filter kept from the first bridging event on is one
      unbroken run. */
  lemma SnapshotGoesLiveIff(policy: SequencePolicy, inputs: seq<Input>, snap: SnapshotMessage)
    requires !Run(policy, inputs).sync.live
    ensures
      var buffer := Run(policy, inputs).sync.buffer;
      var kept := Survivors(policy, buffer, snap);
      (Run(policy, inputs + [Snapshot(snap)]).sync.live)
        <==> ((policy.trustsConnectionOrder && buffer == []) || UnbrokenFromBridge(policy, kept, snap))
  {
    var s := Run(policy, inputs).sync;
    var kept := Survivors(policy, s.buffer, snap);
    RunSnoc(policy, inputs, Snapshot(snap));
    UnbrokenFromIndex(policy, kept, snap);
    NothingSurvivesEmpty(policy, snap);
  }

  lemma NothingSurvivesEmpty(policy: SequencePolicy, snap: SnapshotMessage)
    ensures Survivors(policy, [], snap) == []
  {
  }

  ghost predicate UnbrokenFromBridge(policy: SequencePolicy, kept: seq<DepthUpdate>, snap: SnapshotMessage) {
    exists b: nat :: BridgedAt(policy, kept, snap, b) && Chained(policy, kept[b..])
  }

  lemma UnbrokenFromIndex(policy: SequencePolicy, kept: seq<DepthUpdate>, snap: SnapshotMessage)
    ensures
      var b := BridgeIndex(policy, kept, snap);
      UnbrokenFromBridge(policy, kept, snap) <==> b < |kept| && RunLength(policy, kept[b..]) == |kept[b..]|
  {
    var b := BridgeIndex(policy, kept, snap);
    if b < |kept| {
      assert BridgedAt(policy, kept, snap, b);
      OnlyOneBridge(policy, kept, snap, b);
      UnbrokenIff(policy, kept[b..]);
    }
  }

  lemma OnlyOneBridge(policy: SequencePolicy, kept: seq<DepthUpdate>, snap: SnapshotMessage, b: nat)
    requires BridgedAt(policy, kept, snap, b)
    ensures forall c :: BridgedAt(policy, kept, snap, c) ==> c == b
  {
  }

  lemma UnbrokenIff(policy: SequencePolicy, tail: seq<DepthUpdate>)
    requires tail != []
    ensures RunLength(policy, tail) == |tail| <==> Chained(policy, tail)
  {
    var n := RunLength(policy, tail);
    if n == |tail| { assert tail[..n] == tail; }
  }

  /** A snapshot that nothing kept bridges leaves exactly the events it does not cover, in order. A
      REST venue asks again and changes nothing else; a venue that trusts connection order, unless
      nothing was ever buffered, invalidates. */
  lemma UnbridgedKeepsUncovered(policy: SequencePolicy, inputs: seq<Input>, snap: SnapshotMessage) returns (at: seq<nat>)
    requires
      var s := Run(policy, inputs).sync;
      && (forall e :: e in s.buffer && !policy.shouldDropBuffered(e, snap) ==> !policy.bridgesSnapshot(e, snap))
      && !(policy.trustsConnectionOrder && s.buffer == [])
    ensures
      var before, after := Run(policy, inputs), Run(policy, inputs + [Snapshot(snap)]);
      && Picks(before.sync.buffer, after.sync.buffer, at) && PicksAll(policy, before.sync.buffer, snap, at)
      && (if policy.trustsConnectionOrder
          then !after.sync.live && after.sync.lastFinalId == 0 && !after.sync.requested
               && after.actions == before.actions + [InvalidateVenue]
          else after.sync.live == before.sync.live && after.sync.lastFinalId == before.sync.lastFinalId
               && after.sync.requested == before.sync.requested && after.actions == before.actions + [RequestSnapshot])
  {
    var s := Run(policy, inputs).sync;
    var kept := Survivors(policy, s.buffer, snap);
    RunSnoc(policy, inputs, Snapshot(snap));
    at := SurvivorsInOrder(policy, s.buffer, snap);
    forall i | 0 <= i < |kept|
      ensures !policy.bridgesSnapshot(kept[i], snap)
    {
      assert kept[i] in kept;
    }
  }

  /** With nothing ever buffered, a trusted connection's snapshot is taken as it is. */
  lemma FirstSnapshotTaken(policy: SequencePolicy, inputs: seq<Input>, snap: SnapshotMessage)
    requires policy.trustsConnectionOrder && Run(policy, inputs).sync.buffer == []
    ensures
      var before, after := Run(policy, inputs), Run(policy, inputs + [Snapshot(snap)]);
      && after.sync.live && after.sync.lastFinalId == snap.lastUpdateId && after.sync.buffer == []
      && after.actions == before.actions + [ApplySnapshot(snap)]
  {
    RunSnoc(policy, inputs, Snapshot(snap));
  }

  // ----- a lossless Binance stream comes back -----

  /** The snapshot's next id, or on Futures its own, lies inside the buffered ids. */
  ghost predicate Inside(kind: Kind, buffer: seq<DepthUpdate>, snap: SnapshotMessage) {
    if kind.BinanceSpot?
    then buffer != [] && buffer[0].firstId <= snap.lastUpdateId + 1 <= buffer[|buffer| - 1].finalId
    else Straddled(buffer, snap.lastUpdateId)
  }

  ghost predicate Lossless(kind: Kind, buffer: seq<DepthUpdate>) {
    (kind.BinanceSpot? || kind.BinanceFutures?) && Increasing(buffer) && Chained(PolicyOf(kind), buffer)
  }

  /** The largest drop bound of several snapshots. */
  function MaxBound(kind: Kind, snaps: seq<SnapshotMessage>): nat {
    if snaps == [] then 0
    else Max(MaxBound(kind, snaps[..|snaps| - 1]), DropBound(kind, snaps[|snaps| - 1]))
  }

  function Max(a: nat, b: nat): nat {
    if b > a then b else a
  }

  /** The events of an increasing buffer from the first one ending at `bound` or later. */
  function Uncovered(buffer: seq<DepthUpdate>, bound: nat): seq<DepthUpdate> {
    buffer[CoveredCount(buffer, bound)..]
  }

  lemma LosslessSuffix(kind: Kind, buffer: seq<DepthUpdate>, k: nat)
    requires Lossless(kind, buffer) && k <= |buffer|
    ensures Lossless(kind, buffer[k..])
  {
    ChainedSuffix(PolicyOf(kind), buffer, k);
    assert forall i :: 0 <= i < |buffer| - k ==> buffer[k..][i] == buffer[k + i];
  }

  lemma InsideSuffix(kind: Kind, buffer: seq<DepthUpdate>, k: nat, snap: SnapshotMessage)
    requires Lossless(kind, buffer) && k <= |buffer| && Inside(kind, buffer[k..], snap)
    ensures Inside(kind, buffer, snap)
  {
    var rest := buffer[k..];
    if kind.BinanceSpot? {
      assert rest[0] == buffer[k] && rest[|rest| - 1] == buffer[|buffer| - 1];
      assert k > 0 ==> buffer[0].finalId < buffer[k].firstId;
    } else {
      var i :| 0 <= i < |rest| && rest[i].firstId <= snap.lastUpdateId <= rest[i].finalId;
      assert buffer[k + i] == rest[i];
    }
  }

  /** A lossless buffer goes live on a snapshot exactly when the snapshot lies inside it. */
  lemma LosslessLiveIff(kind: Kind, s: Sync, snap: SnapshotMessage)
    requires !s.live && Lossless(kind, s.buffer)
    ensures Step(PolicyOf(kind), s, Snapshot(snap)).sync.live <==> Inside(kind, s.buffer, snap)
  {
    if kind.BinanceFutures? {
      LosslessFuturesSnapshotGoesLiveIff(s, snap);
    } else if s.buffer != [] {
      LosslessSnapshotGoesLiveIff(s, snap);
    } else {
      assert Survivors(PolicyOf(kind), s.buffer, snap) == [];
    }
  }

  lemma {:induction false} CoveredTwice(buffer: seq<DepthUpdate>, a: nat, d: nat)
    requires Increasing(buffer)
    ensures CoveredCount(buffer, Max(a, d)) == CoveredCount(buffer, a) + CoveredCount(Uncovered(buffer, a), d)
    decreases |buffer|
  {
    if buffer == [] || buffer[0].finalId >= a {
      assert buffer[0..] == buffer;
      SameWhenFirstUncovered(buffer, a, d);
    } else {
      IncreasingTail(buffer);
      UncoveredTail(buffer, a);
      UncoveredTail(buffer, Max(a, d));
      CoveredTwice(buffer[1..], a, d);
    }
  }

  lemma UncoveredTail(buffer: seq<DepthUpdate>, a: nat)
    requires buffer != [] && buffer[0].finalId < a
    ensures CoveredCount(buffer, a) == 1 + CoveredCount(buffer[1..], a)
    ensures Uncovered(buffer, a) == Uncovered(buffer[1..], a)
  {
  }

  lemma SameWhenFirstUncovered(buffer: seq<DepthUpdate>, a: nat, d: nat)
    requires buffer != [] ==> buffer[0].finalId >= a
    ensures CoveredCount(buffer, a) == 0 && CoveredCount(buffer, Max(a, d)) == CoveredCount(buffer, d)
  {
  }

  lemma SuffixOfSuffix(buffer: seq<DepthUpdate>, k: nat, j: nat)
    requires k + j <= |buffer|
    ensures buffer[k..][j..] == buffer[k + j..]
  {
  }

  lemma UncoveredTwice(buffer: seq<DepthUpdate>, a: nat, d: nat)
    requires Increasing(buffer)
    ensures Uncovered(Uncovered(buffer, a), d) == Uncovered(buffer, Max(a, d))
  {
    CoveredTwice(buffer, a, d);
    SliceTwice(buffer, CoveredCount(buffer, a), CoveredCount(Uncovered(buffer, a), d), CoveredCount(buffer, Max(a, d)));
  }

  lemma SliceTwice(buffer: seq<DepthUpdate>, k: nat, j: nat, n: nat)
    requires k + j == n <= |buffer|
    ensures buffer[k..][j..] == buffer[n..]
  {
  }

  /** Snapshots that miss a lossless buffer only take away what they cover. */
  lemma {:induction false} MissesKeepUncovered(kind: Kind, inputs: seq<Input>, snaps: seq<SnapshotMessage>)
    requires !Run(PolicyOf(kind), inputs).sync.live && Lossless(kind, Run(PolicyOf(kind), inputs).sync.buffer)
    requires forall i :: 0 <= i < |snaps| ==> !Inside(kind, Run(PolicyOf(kind), inputs).sync.buffer, snaps[i])
    ensures
      var buffer := Run(PolicyOf(kind), inputs).sync.buffer;
      var after := Run(PolicyOf(kind), inputs + Snapshots(snaps)).sync;
      !after.live && after.buffer == Uncovered(buffer, MaxBound(kind, snaps))
    decreases |snaps|
  {
    var policy := PolicyOf(kind);
    var buffer := Run(policy, inputs).sync.buffer;
    if snaps == [] {
      assert inputs + Snapshots(snaps) == inputs;
      NothingBelowZero(buffer);
      assert buffer[0..] == buffer;
    } else {
      var init, snap := snaps[..|snaps| - 1], snaps[|snaps| - 1];
      assert inputs + Snapshots(snaps) == (inputs + Snapshots(init)) + [Snapshot(snap)];
      MissesKeepUncovered(kind, inputs, init);
      RunSnoc(policy, inputs + Snapshots(init), Snapshot(snap));
      MissKeepsUncovered(kind, Run(policy, inputs + Snapshots(init)).sync, snap, buffer, MaxBound(kind, init));
    }
  }

  lemma NothingBelowZero(buffer: seq<DepthUpdate>)
    ensures CoveredCount(buffer, 0) == 0
  {
  }

  /** One more miss: the uncovered suffix of an uncovered suffix. */
  lemma MissKeepsUncovered(kind: Kind, s: Sync, snap: SnapshotMessage, buffer: seq<DepthUpdate>, bound: nat)
    requires Lossless(kind, buffer) && !Inside(kind, buffer, snap)
    requires !s.live && s.buffer == Uncovered(buffer, bound)
    ensures
      var after := Step(PolicyOf(kind), s, Snapshot(snap)).sync;
      !after.live && after.buffer == Uncovered(buffer, Max(bound, DropBound(kind, snap)))
  {
    MissedBuffer(kind, s, snap, buffer, CoveredCount(buffer, bound));
    UncoveredTwice(buffer, bound, DropBound(kind, snap));
  }

  /** A lossless buffer that a snapshot misses keeps exactly its uncovered suffix. */
  lemma MissedBuffer(kind: Kind, s: Sync, snap: SnapshotMessage, buffer: seq<DepthUpdate>, k: nat)
    requires Lossless(kind, buffer) && !Inside(kind, buffer, snap)
    requires !s.live && k <= |buffer| && s.buffer == buffer[k..]
    ensures
      var after := Step(PolicyOf(kind), s, Snapshot(snap)).sync;
      !after.live && after.buffer == Uncovered(s.buffer, DropBound(kind, snap))
  {
    LosslessSuffix(kind, buffer, k);
    if Inside(kind, s.buffer, snap) { InsideSuffix(kind, buffer, k, snap); }
    LosslessLiveIff(kind, s, snap);
    LosslessOutcome(kind, s, snap);
  }

  /** Either the whole uncovered suffix is applied, or it is all kept. */
  lemma LosslessOutcome(kind: Kind, s: Sync, snap: SnapshotMessage)
    requires !s.live && Lossless(kind, s.buffer)
    ensures
      var after := Step(PolicyOf(kind), s, Snapshot(snap)).sync;
      if after.live then s.buffer != [] && after.lastFinalId == s.buffer[|s.buffer| - 1].finalId
      else after.buffer == Uncovered(s.buffer, DropBound(kind, snap))
  {
    var kept := Uncovered(s.buffer, DropBound(kind, snap));
    SurvivorsOfTiling(kind, s.buffer, snap);
    BridgeIsFirstSurvivor(kind, s, snap);
    ChainedSuffix(PolicyOf(kind), s.buffer, CoveredCount(s.buffer, DropBound(kind, snap)));
    AllOrNothing(PolicyOf(kind), s, snap, kept);
    assert kept != [] ==> kept[|kept| - 1] == s.buffer[|s.buffer| - 1];
  }

  lemma AllOrNothing(policy: SequencePolicy, s: Sync, snap: SnapshotMessage, kept: seq<DepthUpdate>)
    requires !policy.trustsConnectionOrder && kept == Survivors(policy, s.buffer, snap)
    requires kept != [] ==> RunLength(policy, kept) == |kept|
    requires BridgeIndex(policy, kept, snap) == 0 || BridgeIndex(policy, kept, snap) == |kept|
    ensures
      var after := Step(policy, s, Snapshot(snap)).sync;
      after == s.(buffer := kept) || (kept != [] && after == Sync(true, [], kept[|kept| - 1].finalId, s.requested))
  {
    assert kept[0..] == kept;
  }

  /** However many snapshots miss, the first one to fall inside what they left uncovered takes the
      symbol Live at the last buffered event's id. */
  lemma LosslessComesBack(kind: Kind, inputs: seq<Input>, misses: seq<SnapshotMessage>, snap: SnapshotMessage)
    requires !Run(PolicyOf(kind), inputs).sync.live && Lossless(kind, Run(PolicyOf(kind), inputs).sync.buffer)
    requires
      var buffer := Run(PolicyOf(kind), inputs).sync.buffer;
      && (forall i :: 0 <= i < |misses| ==> !Inside(kind, buffer, misses[i]))
      && Inside(kind, Uncovered(buffer, MaxBound(kind, misses)), snap)
    ensures
      var buffer := Run(PolicyOf(kind), inputs).sync.buffer;
      var after := Run(PolicyOf(kind), inputs + Snapshots(misses) + [Snapshot(snap)]).sync;
      buffer != [] && after.live && after.lastFinalId == buffer[|buffer| - 1].finalId
  {
    var policy := PolicyOf(kind);
    MissesKeepUncovered(kind, inputs, misses);
    RunSnoc(policy, inputs + Snapshots(misses), Snapshot(snap));
    HitGoesLive(kind, Run(policy, inputs + Snapshots(misses)).sync, snap, Run(policy, inputs).sync.buffer, MaxBound(kind, misses));
  }

  lemma HitGoesLive(kind: Kind, s: Sync, snap: SnapshotMessage, buffer: seq<DepthUpdate>, bound: nat)
    requires Lossless(kind, buffer) && !s.live && s.buffer == Uncovered(buffer, bound) && Inside(kind, s.buffer, snap)
    ensures
      var after := Step(PolicyOf(kind), s, Snapshot(snap)).sync;
      buffer != [] && after.live && after.lastFinalId == buffer[|buffer| - 1].finalId
  {
    var k := CoveredCount(buffer, bound);
    LosslessSuffix(kind, buffer, k);
    LosslessLiveIff(kind, s, snap);
    LosslessOutcome(kind, s, snap);
    assert s.buffer[|s.buffer| - 1] == buffer[|buffer| - 1];
  }

  /** For any shipped policy: if nothing was lost and something kept bridges the snapshot, the symbol goes
      live at the last buffered event's id. */
  lemma ChainedGoesLive(kind: Kind, inputs: seq<Input>, s: Sync, snap: SnapshotMessage, i: nat)
    requires s == Run(PolicyOf(kind), inputs).sync
    requires !s.live && Increasing(s.buffer) && Chained(PolicyOf(kind), s.buffer) && i < |s.buffer|
    requires PolicyOf(kind).bridgesSnapshot(s.buffer[i], snap) && !PolicyOf(kind).shouldDropBuffered(s.buffer[i], snap)
    ensures
      var after := Run(PolicyOf(kind), inputs + [Snapshot(snap)]).sync;
      after.live && after.lastFinalId == s.buffer[|s.buffer| - 1].finalId
  {
    ChainedStep(kind, s, snap, i);
    RunSnoc(PolicyOf(kind), inputs, Snapshot(snap));
  }

  /** What the filter keeps of a chained buffer holds every event it must, and is chained from any place on. */
  lemma KeptOfChained(kind: Kind, buffer: seq<DepthUpdate>, snap: SnapshotMessage, i: nat)
    returns (j: nat, kept: seq<DepthUpdate>)
    requires Increasing(buffer) && Chained(PolicyOf(kind), buffer) && i < |buffer|
    requires !PolicyOf(kind).shouldDropBuffered(buffer[i], snap)
    ensures kept == Survivors(PolicyOf(kind), buffer, snap) && Chained(PolicyOf(kind), kept)
    ensures j < |kept| && kept[j] == buffer[i] && kept[|kept| - 1] == buffer[|buffer| - 1]
  {
    var k := CoveredCount(buffer, DropBound(kind, snap));
    NotCovered(kind, buffer, snap, i);
    j, kept := i - k, buffer[k..];
    SurvivorsOfTiling(kind, buffer, snap);
    StillChained(PolicyOf(kind), buffer, k);
    SuffixPlaces(buffer, k, i, kept, j);
  }

  lemma StillChained(policy: SequencePolicy, events: seq<DepthUpdate>, k: nat)
    requires k <= |events| && Chained(policy, events)
    ensures Chained(policy, events[k..])
  {
    ChainedSuffix(policy, events, k);
  }

  lemma NotCovered(kind: Kind, buffer: seq<DepthUpdate>, snap: SnapshotMessage, i: nat)
    requires i < |buffer| && !PolicyOf(kind).shouldDropBuffered(buffer[i], snap)
    ensures CoveredCount(buffer, DropBound(kind, snap)) <= i
  {
    CoveredEndBelow(buffer, DropBound(kind, snap), i);
  }

  lemma SuffixPlaces(buffer: seq<DepthUpdate>, k: nat, i: nat, kept: seq<DepthUpdate>, j: nat)
    requires k <= i < |buffer| && kept == buffer[k..] && j == i - k
    ensures j < |kept| && kept[j] == buffer[i] && kept[|kept| - 1] == buffer[|buffer| - 1]
  {
  }

  /** A bridged, unbroken rest is applied to its end. */
  lemma BridgedToLast(policy: SequencePolicy, s: Sync, snap: SnapshotMessage, kept: seq<DepthUpdate>, j: nat)
    requires kept == Survivors(policy, s.buffer, snap) && Chained(policy, kept)
    requires j < |kept| && policy.bridgesSnapshot(kept[j], snap)
    ensures
      var after := Step(policy, s, Snapshot(snap)).sync;
      after.live && after.lastFinalId == kept[|kept| - 1].finalId
  {
    var b := BridgeIndex(policy, kept, snap);
    ChainedSuffix(policy, kept, b);
    ReplayToLast(policy, s, snap, kept[b..]);
    SuffixPlaces(kept, b, b, kept[b..], 0);
  }

  lemma ChainedStep(kind: Kind, s: Sync, snap: SnapshotMessage, i: nat)
    requires !s.live && Increasing(s.buffer) && Chained(PolicyOf(kind), s.buffer) && i < |s.buffer|
    requires PolicyOf(kind).bridgesSnapshot(s.buffer[i], snap) && !PolicyOf(kind).shouldDropBuffered(s.buffer[i], snap)
    ensures
      var after := Step(PolicyOf(kind), s, Snapshot(snap)).sync;
      after.live && after.lastFinalId == s.buffer[|s.buffer| - 1].finalId
  {
    var j, kept := KeptOfChained(kind, s.buffer, snap, i);
    BridgedToLast(PolicyOf(kind), s, snap, kept, j);
  }

  lemma ReplayToLast(policy: SequencePolicy, s: Sync, snap: SnapshotMessage, tail: seq<DepthUpdate>)
    requires tail != [] && RunLength(policy, tail) == |tail|
    ensures Replay(policy, s, snap, tail).sync == Sync(true, [], tail[|tail| - 1].finalId, s.requested)
  {
  }

  // ----- against the exchange -----

  /** Events that report one stretch of revisions after another, without a hole. */
  ghost predicate Reports(kind: Kind, x: Exchange, events: seq<DepthUpdate>, revs: seq<nat>) {
    && |revs| == |events| + 1
    && forall i :: 0 <= i < |events| ==> Covers(kind, x, events[i], revs[i], revs[i + 1])
  }

  /** Every policy takes the exchange's next event for a continuation. */
  lemma NextEventContinues(kind: Kind, x: Exchange, e: DepthUpdate, m: nat, hi: nat)
    requires OrdinaryIds(kind, x) && Covers(kind, x, e, m, hi)
    ensures PolicyOf(kind).isContiguous(e, x.id(m)) && e.finalId == x.id(hi)
  {
  }

  /** An event bridges a snapshot exactly when it moves the exchange's book on from the snapshot's
      revision: straight from it on Bybit and OKX, over it on Binance Spot; on Futures when its announced
      ids hold the snapshot's own. */
  lemma BridgesIff(kind: Kind, x: Exchange, e: DepthUpdate, lo: nat, hi: nat, snap: SnapshotMessage, m: nat)
    requires OrdinaryIds(kind, x) && Covers(kind, x, e, lo, hi) && snap.lastUpdateId == x.id(m)
    ensures PolicyOf(kind).bridgesSnapshot(e, snap) <==>
      match kind
      case BinanceSpot => lo <= m < hi
      case BinanceFutures => e.firstId <= m <= hi
      case _ => lo == m
  {
    if !kind.Okx? {
      assert x.id(m) == m && x.id(hi) == hi && x.id(lo) == lo;
    }
  }

  /** And the filter drops it, on Binance and Bybit, exactly when it ends too early to do so. */
  lemma DropsIff(kind: Kind, x: Exchange, e: DepthUpdate, lo: nat, hi: nat, snap: SnapshotMessage, m: nat)
    requires !kind.Okx? && Consecutive(x) && Covers(kind, x, e, lo, hi) && snap.lastUpdateId == x.id(m)
    ensures PolicyOf(kind).shouldDropBuffered(e, snap) <==> if kind.BinanceFutures? then hi < m else hi <= m
  {
    assert x.id(m) == m && x.id(hi) == hi;
  }

  lemma ReportsChain(kind: Kind, x: Exchange, events: seq<DepthUpdate>, revs: seq<nat>)
    requires OrdinaryIds(kind, x) && Reports(kind, x, events, revs)
    ensures Chained(PolicyOf(kind), events)
    ensures events != [] ==> PolicyOf(kind).isContiguous(events[0], x.id(revs[0]))
    ensures events != [] ==> events[|events| - 1].finalId == x.id(revs[|events|])
  {
    forall i | 0 <= i < |events|
      ensures PolicyOf(kind).isContiguous(events[i], x.id(revs[i])) && events[i].finalId == x.id(revs[i + 1])
    {
      NextEventContinues(kind, x, events[i], revs[i], revs[i + 1]);
    }
  }

  lemma {:induction false} ReportsAscend(kind: Kind, x: Exchange, events: seq<DepthUpdate>, revs: seq<nat>, i: nat, j: nat)
    requires Reports(kind, x, events, revs) && i <= j <= |events|
    ensures revs[i] <= revs[j]
    decreases j
  {
    if i < j {
      ReportsAscend(kind, x, events, revs, i, j - 1);
      assert Covers(kind, x, events[j - 1], revs[j - 1], revs[j]);
    }
  }

  /** On Binance their id ranges are increasing and disjoint as well. */
  lemma ReportsLossless(kind: Kind, x: Exchange, events: seq<DepthUpdate>, revs: seq<nat>)
    requires (kind.BinanceSpot? || kind.BinanceFutures?) && Consecutive(x) && Reports(kind, x, events, revs)
    ensures Lossless(kind, events)
  {
    ReportsChain(kind, x, events, revs);
    forall i | 0 <= i < |events|
      ensures revs[i] < events[i].firstId <= events[i].finalId == revs[i + 1]
    {
      assert Covers(kind, x, events[i], revs[i], revs[i + 1]);
      assert x.id(revs[i + 1]) == revs[i + 1];
    }
    forall i, j | 0 <= i < j < |events|
      ensures events[i].finalId < events[j].firstId
    {
      ReportsAscend(kind, x, events, revs, i + 1, j);
    }
  }

  lemma ReportsFaithful(kind: Kind, x: Exchange, inputs: seq<Input>, events: seq<DepthUpdate>, revs: seq<nat>)
    requires FaithfulRun(kind, x, inputs) && Reports(kind, x, events, revs)
    ensures FaithfulRun(kind, x, inputs + Depths(events))
  {
    var all := inputs + Depths(events);
    forall i | 0 <= i < |all|
      ensures FaithfulInput(kind, x, all[i])
    {
      if i >= |inputs| {
        var k := i - |inputs|;
        assert all[i] == Depth(events[k]);
        assert Covers(kind, x, events[k], revs[k], revs[k + 1]);
      }
    }
  }

  /** With ordinary ids a Live symbol's book is the one revision that has its id. */
  lemma LiveBookAt(kind: Kind, x: Exchange, inputs: seq<Input>, n: nat)
    requires ValidExchange(x) && OrdinaryIds(kind, x) && FaithfulRun(kind, x, inputs)
    requires Run(PolicyOf(kind), inputs).sync.live && Run(PolicyOf(kind), inputs).sync.lastFinalId == x.id(n)
    ensures Shown(kind, inputs) == Some(BookAt(x, n))
  {
    OrdinaryIdsAreReliable(kind, x);
    LiveBookIsExchangeBook(kind, x, inputs);
    var m: nat :| x.id(m) == x.id(n) && Shown(kind, inputs) == Some(BookAt(x, m));
    assert m == n by {
      if !kind.Okx? { assert x.id(m) == m && x.id(n) == n; }
    }
  }

  /** Fed what the exchange reports next, a Live symbol stays Live and shows the exchange's newest book. */
  lemma LiveFollowsExchange(kind: Kind, x: Exchange, inputs: seq<Input>, events: seq<DepthUpdate>, revs: seq<nat>)
    requires ValidExchange(x) && OrdinaryIds(kind, x) && FaithfulRun(kind, x, inputs)
    requires Reports(kind, x, events, revs)
    requires Run(PolicyOf(kind), inputs).sync.live && Run(PolicyOf(kind), inputs).sync.lastFinalId == x.id(revs[0])
    ensures Run(PolicyOf(kind), inputs + Depths(events)).sync.live
    ensures Shown(kind, inputs + Depths(events)) == Some(BookAt(x, revs[|events|]))
  {
    ReportsChain(kind, x, events, revs);
    LiveFollowsStream(PolicyOf(kind), inputs, events);
    ReportsFaithful(kind, x, inputs, events, revs);
    LiveBookAt(kind, x, inputs + Depths(events), revs[|events|]);
  }

  lemma FaithfulSnoc(kind: Kind, x: Exchange, inputs: seq<Input>, snap: SnapshotMessage, m: nat)
    requires FaithfulRun(kind, x, inputs) && SnapshotOf(x, snap, m)
    ensures FaithfulRun(kind, x, inputs + [Snapshot(snap)])
  {
  }

  /** Bybit and OKX: a fresh connection's snapshot and whatever the exchange reports after it end Live
      on the exchange's newest book. */
  lemma ConnectionOrderComesUp(
      kind: Kind, x: Exchange, inputs: seq<Input>, snap: SnapshotMessage, events: seq<DepthUpdate>, revs: seq<nat>)
    requires InConnectionOrder(kind) && ValidExchange(x) && OrdinaryIds(kind, x) && FaithfulRun(kind, x, inputs)
    requires Run(PolicyOf(kind), inputs).sync.buffer == []
    requires Reports(kind, x, events, revs) && SnapshotOf(x, snap, revs[0])
    ensures
      var all := inputs + [Snapshot(snap)] + Depths(events);
      Run(PolicyOf(kind), all).sync.live && Shown(kind, all) == Some(BookAt(x, revs[|events|]))
  {
    FirstSnapshotTaken(PolicyOf(kind), inputs, snap);
    FaithfulSnoc(kind, x, inputs, snap, revs[0]);
    LiveFollowsExchange(kind, x, inputs + [Snapshot(snap)], events, revs);
  }

  /** Binance: a buffering symbol that lost nothing and gets a snapshot inside its buffer ends Live on
      the exchange's book at the last buffered revision. */
  lemma BinanceComesBack(
      kind: Kind, x: Exchange, inputs: seq<Input>, revs: seq<nat>, snap: SnapshotMessage, m: nat)
    requires (kind.BinanceSpot? || kind.BinanceFutures?) && ValidExchange(x) && Consecutive(x)
    requires FaithfulRun(kind, x, inputs) && !Run(PolicyOf(kind), inputs).sync.live
    requires Reports(kind, x, Run(PolicyOf(kind), inputs).sync.buffer, revs)
    requires SnapshotOf(x, snap, m) && Inside(kind, Run(PolicyOf(kind), inputs).sync.buffer, snap)
    ensures
      var all := inputs + [Snapshot(snap)];
      Run(PolicyOf(kind), all).sync.live && Shown(kind, all) == Some(BookAt(x, revs[|revs| - 1]))
  {
    var s := Run(PolicyOf(kind), inputs).sync;
    ReportsLossless(kind, x, s.buffer, revs);
    ReportsChain(kind, x, s.buffer, revs);
    RunSnoc(PolicyOf(kind), inputs, Snapshot(snap));
    LosslessLiveIff(kind, s, snap);
    LosslessOutcome(kind, s, snap);
    FaithfulSnoc(kind, x, inputs, snap, m);
    LiveBookAt(kind, x, inputs + [Snapshot(snap)], revs[|revs| - 1]);
  }

  /** Bybit and OKX: a buffering symbol that lost nothing and gets the snapshot of any revision its
      buffer starts from or passes ends Live on the exchange's book at the last buffered revision. */
  lemma TrustedComesBack(
      kind: Kind, x: Exchange, inputs: seq<Input>, s: Sync, revs: seq<nat>, snap: SnapshotMessage, i: nat)
    requires InConnectionOrder(kind) && ValidExchange(x) && OrdinaryIds(kind, x) && FaithfulRun(kind, x, inputs)
    requires s == Run(PolicyOf(kind), inputs).sync && !s.live && Traces.Ascending(s.buffer)
    requires Reports(kind, x, s.buffer, revs) && i < |s.buffer| && SnapshotOf(x, snap, revs[i])
    ensures
      var all := inputs + [Snapshot(snap)];
      Run(PolicyOf(kind), all).sync.live && Shown(kind, all) == Some(BookAt(x, revs[|s.buffer|]))
  {
    TrustedGoesLive(kind, x, inputs, s, revs, snap, i);
    ReportsChain(kind, x, s.buffer, revs);
    FaithfulSnoc(kind, x, inputs, snap, revs[i]);
    LiveBookAt(kind, x, inputs + [Snapshot(snap)], revs[|s.buffer|]);
  }

  lemma TrustedGoesLive(
      kind: Kind, x: Exchange, inputs: seq<Input>, s: Sync, revs: seq<nat>, snap: SnapshotMessage, i: nat)
    requires InConnectionOrder(kind) && OrdinaryIds(kind, x)
    requires s == Run(PolicyOf(kind), inputs).sync && !s.live && Traces.Ascending(s.buffer)
    requires Reports(kind, x, s.buffer, revs) && i < |s.buffer| && snap.lastUpdateId == x.id(revs[i])
    ensures
      var after := Run(PolicyOf(kind), inputs + [Snapshot(snap)]).sync;
      after.live && after.lastFinalId == s.buffer[|s.buffer| - 1].finalId
  {
    ReportedBridges(kind, x, s.buffer, revs, snap, i);
    ReportsChain(kind, x, s.buffer, revs);
    ChainedGoesLive(kind, inputs, s, snap, i);
  }

  lemma ReportedBridges(
      kind: Kind, x: Exchange, events: seq<DepthUpdate>, revs: seq<nat>, snap: SnapshotMessage, i: nat)
    requires InConnectionOrder(kind) && OrdinaryIds(kind, x) && Reports(kind, x, events, revs) && Traces.Ascending(events)
    requires i < |events| && snap.lastUpdateId == x.id(revs[i])
    ensures PolicyOf(kind).bridgesSnapshot(events[i], snap) && !PolicyOf(kind).shouldDropBuffered(events[i], snap)
  {
    assert Covers(kind, x, events[i], revs[i], revs[i + 1]);
    BridgesIff(kind, x, events[i], revs[i], revs[i + 1], snap, revs[i]);
    NotDropped(kind, x, events[i], revs[i], revs[i + 1], snap);
  }

  lemma NotDropped(kind: Kind, x: Exchange, e: DepthUpdate, lo: nat, hi: nat, snap: SnapshotMessage)
    requires InConnectionOrder(kind) && OrdinaryIds(kind, x) && Covers(kind, x, e, lo, hi) && snap.lastUpdateId == x.id(lo)
    requires e.prevFinalId < e.finalId
    ensures !PolicyOf(kind).shouldDropBuffered(e, snap)
  {
    if kind.Bybit? { assert x.id(lo) == lo && x.id(hi) == hi; }
  }

  /** On Binance Spot every snapshot of a revision the buffer covers the successor of lies inside. */
  lemma SpotSnapshotInside(x: Exchange, events: seq<DepthUpdate>, revs: seq<nat>, snap: SnapshotMessage, m: nat)
    requires Consecutive(x) && Reports(BinanceSpot, x, events, revs) && SnapshotOf(x, snap, m)
    ensures Inside(BinanceSpot, events, snap) <==> revs[0] <= m < revs[|events|]
  {
    assert x.id(m) == m;
    if events != [] {
      assert Covers(BinanceSpot, x, events[0], revs[0], revs[1]);
      var last := |events| - 1;
      assert Covers(BinanceSpot, x, events[last], revs[last], revs[last + 1]);
      assert x.id(revs[last + 1]) == revs[last + 1];
    }
  }

  // ----- asking for snapshots -----

  /** A connect has asked for a snapshot since the last reset or gap. */
  ghost predicate Asked(policy: SequencePolicy, inputs: seq<Input>) {
    if inputs == [] then false
    else
      var init, last := inputs[..|inputs| - 1], inputs[|inputs| - 1];
      var news := Run(policy, inputs).actions[|Run(policy, init).actions|..];
      if InvalidateVenue in news then false
      else Asked(policy, init) || (last.Connected? && !Run(policy, init).sync.live)
  }

  lemma NewActions(policy: SequencePolicy, inputs: seq<Input>, input: Input)
    ensures
      var before, after := Run(policy, inputs), Run(policy, inputs + [input]);
      |before.actions| <= |after.actions| && after.actions[|before.actions|..] == Step(policy, before.sync, input).actions
  {
    RunSnoc(policy, inputs, input);
  }

  /** What one call does to the request flag. */
  lemma RequestedAfter(policy: SequencePolicy, s: Sync, input: Input)
    ensures
      var out := Step(policy, s, input);
      out.sync.requested <==>
        InvalidateVenue !in out.actions && (s.requested || (input.Connected? && !s.live))
  {
    if input.Snapshot? {
      var kept := Survivors(policy, s.buffer, input.snapshot);
      var b := BridgeIndex(policy, kept, input.snapshot);
      if b < |kept| { ReplayRequested(policy, s, input.snapshot, kept[b..]); }
    }
  }

  lemma ReplayRequested(policy: SequencePolicy, s: Sync, snap: SnapshotMessage, tail: seq<DepthUpdate>)
    requires tail != []
    ensures
      var out := Replay(policy, s, snap, tail);
      out.sync.requested <==> InvalidateVenue !in out.actions && s.requested
  {
    var n := RunLength(policy, tail);
    if n < |tail| {
      var acts := Replay(policy, s, snap, tail).actions;
      assert acts[|acts| - 1] == InvalidateVenue;
    }
  }

  /** A connect asks for a snapshot exactly when the symbol is buffering and no connect has asked since
      the last reset or gap: once per buffering period. */
  lemma {:induction false} AsksOncePerPeriod(policy: SequencePolicy, inputs: seq<Input>)
    ensures Run(policy, inputs).sync.requested <==> Asked(policy, inputs)
    ensures
      var before, after := Run(policy, inputs), Run(policy, inputs + [Connected]);
      after.actions == before.actions + (if !before.sync.live && !Asked(policy, inputs) then [RequestSnapshot] else [])
  {
    if inputs != [] {
      var init, last := inputs[..|inputs| - 1], inputs[|inputs| - 1];
      assert inputs == init + [last];
      AsksOncePerPeriod(policy, init);
      NewActions(policy, init, last);
      RunSnoc(policy, init, last);
      RequestedAfter(policy, Run(policy, init).sync, last);
    }
    RunSnoc(policy, inputs, Connected);
  }
}
