/** What the actions of a whole run look like, for any sequence policy. */
module Traces {
  import opened Resync

  /** What an observer of the actions knows about the venue's book. */
  datatype Observed = Absent | AtSnapshot(snapshot: SnapshotMessage) | AtDelta(id: nat)

  function IdOf(v: Observed): nat
    requires !v.Absent?
  {
    if v.AtSnapshot? then v.snapshot.lastUpdateId else v.id
  }

  /** The ordering contract: a delta only on top of a snapshot, and only if it bridges it or
      continues what was applied last. */
  predicate Permitted(policy: SequencePolicy, v: Observed, a: Action) {
    !a.ApplyDelta? ||
    match v
    case Absent => false
    case AtSnapshot(s) => policy.bridgesSnapshot(a.update, s) || policy.isContiguous(a.update, s.lastUpdateId)
    case AtDelta(id) => policy.isContiguous(a.update, id)
  }

  function After(v: Observed, a: Action): Observed {
    match a
    case RequestSnapshot => v
    case ApplySnapshot(s) => AtSnapshot(s)
    case ApplyDelta(e) => AtDelta(e.finalId)
    case InvalidateVenue => Absent
  }

  function AfterAll(v: Observed, actions: seq<Action>): Observed
    decreases |actions|
  {
    if actions == [] then v else AfterAll(After(v, actions[0]), actions[1..])
  }

  predicate Accepts(policy: SequencePolicy, v: Observed, actions: seq<Action>)
    decreases |actions|
  {
    actions == [] ||
    (Permitted(policy, v, actions[0]) && Accepts(policy, After(v, actions[0]), actions[1..]))
  }

  /** The machine's state agrees with what its actions have told the observer. */
  ghost predicate Matches(s: Sync, v: Observed) {
    && (s.live <==> !v.Absent?)
    && (s.live ==> s.buffer == [] && s.lastFinalId == IdOf(v))
    && (!s.live ==> s.lastFinalId == 0)
  }

  lemma {:induction false} AcceptsConcat(policy: SequencePolicy, v: Observed, a: seq<Action>, b: seq<Action>)
    ensures AfterAll(v, a + b) == AfterAll(AfterAll(v, a), b)
    ensures Accepts(policy, v, a + b) <==> Accepts(policy, v, a) && Accepts(policy, AfterAll(v, a), b)
    decreases |a|
  {
    if a == [] {
      assert a + b == b;
    } else {
      assert (a + b)[0] == a[0] && (a + b)[1..] == a[1..] + b;
      AcceptsConcat(policy, After(v, a[0]), a[1..], b);
    }
  }

  lemma {:induction false} DeltasAccepted(policy: SequencePolicy, v: Observed, events: seq<DepthUpdate>)
    requires events != [] && Chained(policy, events)
    requires Permitted(policy, v, ApplyDelta(events[0]))
    ensures Accepts(policy, v, Deltas(events))
    ensures AfterAll(v, Deltas(events)) == AtDelta(events[|events| - 1].finalId)
    decreases |events|
  {
    var acts, rest := Deltas(events), events[1..];
    assert acts[0] == ApplyDelta(events[0]) && acts[1..] == Deltas(rest);
    if rest != [] {
      assert policy.isContiguous(events[1], events[0].finalId);
      assert Chained(policy, rest) by {
        forall i | 0 < i < |rest| ensures policy.isContiguous(rest[i], rest[i - 1].finalId) {
          assert rest[i] == events[i + 1] && rest[i - 1] == events[i];
        }
      }
      DeltasAccepted(policy, AtDelta(events[0].finalId), rest);
    } else {
      assert acts[1..] == [];
    }
  }

  lemma ReplayAccepted(policy: SequencePolicy, v: Observed, s: Sync, snap: SnapshotMessage, tail: seq<DepthUpdate>)
    requires tail != [] && policy.bridgesSnapshot(tail[0], snap)
    ensures
      var out := Replay(policy, s, snap, tail);
      Accepts(policy, v, out.actions) && Matches(out.sync, AfterAll(v, out.actions))
  {
    var n := RunLength(policy, tail);
    var deltas := Deltas(tail[..n]);
    assert tail[..n][0] == tail[0] && tail[..n][n - 1] == tail[n - 1];
    DeltasAccepted(policy, AtSnapshot(snap), tail[..n]);
    AcceptsConcat(policy, v, [ApplySnapshot(snap)], deltas);
    assert AfterAll(v, [ApplySnapshot(snap)]) == AtSnapshot(snap);
    if n < |tail| {
      AcceptsConcat(policy, v, [ApplySnapshot(snap)] + deltas, [InvalidateVenue]);
    }
  }

  lemma SingleAccepted(policy: SequencePolicy, v: Observed, a: Action)
    ensures Accepts(policy, v, [a]) <==> Permitted(policy, v, a)
    ensures AfterAll(v, [a]) == After(v, a)
  {
    assert [a][1..] == [];
  }

  lemma SnapshotAccepted(policy: SequencePolicy, v: Observed, s: Sync, snap: SnapshotMessage)
    requires Matches(s, v)
    ensures
      var out := OnSnapshot(policy, s, snap);
      Accepts(policy, v, out.actions) && Matches(out.sync, AfterAll(v, out.actions))
  {
    var kept := Survivors(policy, s.buffer, snap);
    var b := BridgeIndex(policy, kept, snap);
    if b < |kept| {
      ReplayAccepted(policy, v, s, snap, kept[b..]);
    } else {
      assert kept != [] ==> kept[0] in s.buffer;
      SingleAccepted(policy, v, RequestSnapshot);
      SingleAccepted(policy, v, ApplySnapshot(snap));
      SingleAccepted(policy, v, InvalidateVenue);
    }
  }

  lemma StepAccepted(policy: SequencePolicy, v: Observed, s: Sync, input: Input)
    requires Matches(s, v)
    ensures
      var out := Step(policy, s, input);
      Accepts(policy, v, out.actions) && Matches(out.sync, AfterAll(v, out.actions))
  {
    match input
    case Snapshot(snap) => SnapshotAccepted(policy, v, s, snap);
    case Depth(e) =>
      SingleAccepted(policy, v, InvalidateVenue);
      SingleAccepted(policy, v, ApplyDelta(e));
    case Connected => SingleAccepted(policy, v, RequestSnapshot);
    case Disconnected => SingleAccepted(policy, v, InvalidateVenue);
  }

  /** Over every run of every policy the actions keep the ordering contract, and Live, the last id
      and the buffer always agree with what the actions have announced. */
  lemma {:induction false} RunAccepted(policy: SequencePolicy, inputs: seq<Input>)
    ensures Accepts(policy, Absent, Run(policy, inputs).actions)
    ensures Matches(Run(policy, inputs).sync, AfterAll(Absent, Run(policy, inputs).actions))
  {
    if inputs != [] {
      var init, last := inputs[..|inputs| - 1], inputs[|inputs| - 1];
      RunAccepted(policy, init);
      var before := Run(policy, init);
      var v := AfterAll(Absent, before.actions);
      StepAccepted(policy, v, before.sync, last);
      AcceptsConcat(policy, Absent, before.actions, Step(policy, before.sync, last).actions);
    }
  }

  // ----- where the bridge sits, and when a snapshot succeeds -----

  /** Ids of a lossy but ordered stream: ranges strictly increasing and disjoint. */
  ghost predicate Increasing(events: seq<DepthUpdate>) {
    && (forall i :: 0 <= i < |events| ==> events[i].firstId <= events[i].finalId)
    && (forall i, j :: 0 <= i < j < |events| ==> events[i].finalId < events[j].firstId)
  }

  lemma {:induction false} SurvivorsIncreasing(policy: SequencePolicy, buffer: seq<DepthUpdate>, snap: SnapshotMessage)
    requires Increasing(buffer)
    ensures Increasing(Survivors(policy, buffer, snap))
    decreases |buffer|
  {
    if buffer != [] {
      var rest := buffer[1..];
      assert forall i :: 0 <= i < |rest| ==> rest[i] == buffer[i + 1];
      SurvivorsIncreasing(policy, rest, snap);
      var tail, kept := Survivors(policy, rest, snap), Survivors(policy, buffer, snap);
      if !policy.shouldDropBuffered(buffer[0], snap) {
        forall i, j | 0 <= i < j < |kept|
          ensures kept[i].finalId < kept[j].firstId
        {
          assert kept[j] == tail[j - 1];
          if i == 0 {
            assert tail[j - 1] in rest;
          }
        }
      }
    }
  }

  /** For Binance and Bybit the bridge, if any, is the first survivor: a resync that succeeds
      applies every event the drop filter kept, in order. */
  lemma BridgeIsFirstSurvivor(kind: Kind, s: Sync, snap: SnapshotMessage)
    requires !kind.Okx? && Increasing(s.buffer)
    ensures
      var kept := Survivors(PolicyOf(kind), s.buffer, snap);
      var b := BridgeIndex(PolicyOf(kind), kept, snap);
      var out := OnSnapshot(PolicyOf(kind), s, snap);
      && (b == 0 || b == |kept|)
      && (b < |kept| && out.sync.live ==> out.actions == [ApplySnapshot(snap)] + Deltas(kept))
  {
    var policy := PolicyOf(kind);
    var kept := Survivors(policy, s.buffer, snap);
    var b := BridgeIndex(policy, kept, snap);
    SurvivorsIncreasing(policy, s.buffer, snap);
    forall i | 0 < i < |kept|
      ensures !policy.bridgesSnapshot(kept[i], snap)
    {
      assert kept[0] in kept;
      assert kept[0].finalId < kept[i].firstId;
    }
    if b < |kept| {
      assert kept[0..] == kept && kept[..|kept|] == kept;
    }
  }

  /** Every shipped drop filter is a bound on the final id: at most the snapshot's, or below it. */
  function DropBound(kind: Kind, snap: SnapshotMessage): nat {
    if kind.BinanceSpot? || kind.Bybit? then snap.lastUpdateId + 1 else snap.lastUpdateId
  }

  /** How many leading events end below `bound`. */
  function CoveredCount(buffer: seq<DepthUpdate>, bound: nat): (k: nat)
    ensures k <= |buffer|
    ensures k < |buffer| ==> buffer[k].finalId >= bound
    ensures k > 0 ==> buffer[k - 1].finalId < bound
  {
    if buffer == [] || buffer[0].finalId >= bound then 0 else 1 + CoveredCount(buffer[1..], bound)
  }

  lemma {:induction false} NoneDropped(kind: Kind, buffer: seq<DepthUpdate>, snap: SnapshotMessage)
    requires forall i :: 0 <= i < |buffer| ==> buffer[i].finalId >= DropBound(kind, snap)
    ensures Survivors(PolicyOf(kind), buffer, snap) == buffer
    decreases |buffer|
  {
    if buffer != [] {
      NoneDropped(kind, buffer[1..], snap);
      assert [buffer[0]] + buffer[1..] == buffer;
    }
  }

  lemma IncreasingTail(buffer: seq<DepthUpdate>)
    requires Increasing(buffer) && buffer != []
    ensures Increasing(buffer[1..])
    ensures forall i :: 0 < i < |buffer| ==> buffer[0].finalId < buffer[i].finalId
  {
    var rest := buffer[1..];
    assert forall i :: 0 <= i < |rest| ==> rest[i] == buffer[i + 1];
  }

  /** With increasing ids every shipped drop filter removes exactly the covered prefix of the buffer. */
  lemma {:induction false} SurvivorsOfTiling(kind: Kind, buffer: seq<DepthUpdate>, snap: SnapshotMessage)
    requires Increasing(buffer)
    ensures Survivors(PolicyOf(kind), buffer, snap) == buffer[CoveredCount(buffer, DropBound(kind, snap))..]
    decreases |buffer|
  {
    if buffer != [] {
      IncreasingTail(buffer);
      if buffer[0].finalId >= DropBound(kind, snap) {
        NoneDropped(kind, buffer, snap);
        assert buffer[0..] == buffer;
      } else {
        SurvivorsOfTiling(kind, buffer[1..], snap);
      }
    }
  }

  lemma ChainedSuffix(policy: SequencePolicy, events: seq<DepthUpdate>, k: nat)
    requires k <= |events| && Chained(policy, events)
    ensures Chained(policy, events[k..])
    ensures k < |events| ==> RunLength(policy, events[k..]) == |events[k..]|
  {
    var rest := events[k..];
    forall i | 0 < i < |rest|
      ensures policy.isContiguous(rest[i], rest[i - 1].finalId)
    {
      assert rest[i] == events[k + i] && rest[i - 1] == events[k + i - 1];
    }
  }

  /** The first uncovered event of a stream without losses starts right behind the covered ones. */
  lemma UncoveredBridgesIff(buffer: seq<DepthUpdate>, snap: SnapshotMessage)
    requires buffer != [] && Increasing(buffer) && Chained(PolicyOf(BinanceSpot), buffer)
    ensures
      var k, next := CoveredCount(buffer, snap.lastUpdateId + 1), snap.lastUpdateId + 1;
      (k < |buffer| && PolicyOf(BinanceSpot).bridgesSnapshot(buffer[k], snap))
        <==> (buffer[0].firstId <= next <= buffer[|buffer| - 1].finalId)
  {
    var k := CoveredCount(buffer, snap.lastUpdateId + 1);
    if k < |buffer| {
      assert k > 0 ==> PolicyOf(BinanceSpot).isContiguous(buffer[k], buffer[k - 1].finalId);
      assert k > 0 ==> buffer[0].firstId <= buffer[k - 1].finalId;
      assert buffer[k].finalId <= buffer[|buffer| - 1].finalId;
    }
  }

  /** On a Binance stream that lost nothing, a snapshot takes a buffering symbol live exactly when
      the first uncovered event bridges it. */
  lemma LosslessGoesLiveIff(kind: Kind, s: Sync, snap: SnapshotMessage)
    requires kind.BinanceSpot? || kind.BinanceFutures?
    requires !s.live && Increasing(s.buffer) && Chained(PolicyOf(kind), s.buffer)
    ensures
      var k := CoveredCount(s.buffer, DropBound(kind, snap));
      (OnSnapshot(PolicyOf(kind), s, snap).sync.live)
        <==> (k < |s.buffer| && PolicyOf(kind).bridgesSnapshot(s.buffer[k], snap))
  {
    var policy, k := PolicyOf(kind), CoveredCount(s.buffer, DropBound(kind, snap));
    var kept := s.buffer[k..];
    SurvivorsOfTiling(kind, s.buffer, snap);
    BridgeIsFirstSurvivor(kind, s, snap);
    ChainedSuffix(policy, s.buffer, k);
    if BridgeIndex(policy, kept, snap) == 0 && kept != [] {
      assert kept[0..] == kept;
    }
  }

  /** Progress: on a Binance Spot stream that lost nothing, a snapshot takes a buffering symbol
      live exactly when its next id falls inside the buffered ids. */
  lemma LosslessSnapshotGoesLiveIff(s: Sync, snap: SnapshotMessage)
    requires !s.live && s.buffer != [] && Increasing(s.buffer) && Chained(PolicyOf(BinanceSpot), s.buffer)
    ensures
      var next := snap.lastUpdateId + 1;
      var span := s.buffer[0].firstId <= next <= s.buffer[|s.buffer| - 1].finalId;
      OnSnapshot(PolicyOf(BinanceSpot), s, snap).sync.live == span
  {
    LosslessGoesLiveIff(BinanceSpot, s, snap);
    UncoveredBridgesIff(s.buffer, snap);
  }

  /** Some buffered event straddles the snapshot's id. */
  ghost predicate Straddled(buffer: seq<DepthUpdate>, id: nat) {
    exists i :: 0 <= i < |buffer| && buffer[i].firstId <= id <= buffer[i].finalId
  }

  /** With increasing ids, only the first uncovered event can straddle it. */
  lemma StraddledAtFirst(buffer: seq<DepthUpdate>, id: nat)
    requires Increasing(buffer)
    ensures
      var k := CoveredCount(buffer, id);
      Straddled(buffer, id) <==> k < |buffer| && buffer[k].firstId <= id
  {
    var k := CoveredCount(buffer, id);
    if Straddled(buffer, id) {
      var i :| 0 <= i < |buffer| && buffer[i].firstId <= id <= buffer[i].finalId;
      CoveredEndBelow(buffer, id, i);
      LaterEndsLater(buffer, k, i);
      assert i == k;
    } else if k < |buffer| {
      assert buffer[k].firstId > id;
    }
  }

  lemma {:induction false} CoveredEndBelow(buffer: seq<DepthUpdate>, bound: nat, i: nat)
    requires i < |buffer|
    ensures i < CoveredCount(buffer, bound) ==> buffer[i].finalId < bound
    decreases i
  {
    if i > 0 { CoveredEndBelow(buffer[1..], bound, i - 1); }
  }

  lemma LaterEndsLater(buffer: seq<DepthUpdate>, k: nat, i: nat)
    requires Increasing(buffer) && i < |buffer|
    ensures k < i ==> buffer[k].finalId < buffer[i].firstId <= buffer[i].finalId
  {
  }

  /** Progress on Binance Futures: on a stream that lost nothing, a snapshot takes a buffering symbol
      live exactly when its id lies inside a buffered event; an id between two events asks again. */
  lemma LosslessFuturesSnapshotGoesLiveIff(s: Sync, snap: SnapshotMessage)
    requires !s.live && Increasing(s.buffer) && Chained(PolicyOf(BinanceFutures), s.buffer)
    ensures OnSnapshot(PolicyOf(BinanceFutures), s, snap).sync.live <==> Straddled(s.buffer, snap.lastUpdateId)
  {
    LosslessGoesLiveIff(BinanceFutures, s, snap);
    StraddledAtFirst(s.buffer, snap.lastUpdateId);
  }

  /** Each event moves its own chain's id up. */
  ghost predicate Ascending(events: seq<DepthUpdate>) {
    Increasing(events) && forall i :: 0 <= i < |events| ==> events[i].prevFinalId < events[i].finalId
  }

  /** On OKX, with increasing chained ids, a bridge that is found is the first survivor exactly when
      the first buffered event already chains to the snapshot; otherwise it stands behind exactly one
      survivor, the event that carries the snapshot's own id, which the strict drop filter keeps. */
  lemma OkxBridgePosition(buffer: seq<DepthUpdate>, snap: SnapshotMessage)
    requires Ascending(buffer) && Chained(PolicyOf(Okx), buffer)
    requires
      var kept := Survivors(PolicyOf(Okx), buffer, snap);
      BridgeIndex(PolicyOf(Okx), kept, snap) < |kept|
    ensures
      var kept := Survivors(PolicyOf(Okx), buffer, snap);
      var b := BridgeIndex(PolicyOf(Okx), kept, snap);
      && buffer != [] && b == (if buffer[0].prevFinalId == snap.lastUpdateId then 0 else 1)
      && (b == 1 ==> kept[0].finalId == snap.lastUpdateId)
  {
    var k := CoveredCount(buffer, snap.lastUpdateId);
    SurvivorsOfTiling(Okx, buffer, snap);
    var kept := buffer[k..];
    assert Survivors(PolicyOf(Okx), buffer, snap) == kept;
    var b := BridgeIndex(PolicyOf(Okx), kept, snap);
    assert kept[b] == buffer[k + b] && kept[0] == buffer[k] && buffer[k + b].prevFinalId == snap.lastUpdateId;
    ChainedToId(buffer, snap.lastUpdateId, k + b);
  }

  /** The event chained to `id` is the first of all, or right behind the last covered one. */
  lemma ChainedToId(buffer: seq<DepthUpdate>, id: nat, at: nat)
    requires Ascending(buffer) && Chained(PolicyOf(Okx), buffer) && at < |buffer| && buffer[at].prevFinalId == id
    ensures at > 0 ==> CoveredCount(buffer, id) == at - 1 && buffer[at - 1].finalId == id && buffer[0].prevFinalId != id
  {
    if at > 0 {
      assert PolicyOf(Okx).isContiguous(buffer[at], buffer[at - 1].finalId);
      CoveredEndBelow(buffer, id, at - 1);
      LaterEndsLater(buffer, CoveredCount(buffer, id), at - 1);
      FirstNotChained(buffer, at - 1, id);
    }
  }

  lemma FirstNotChained(buffer: seq<DepthUpdate>, k: nat, id: nat)
    requires Ascending(buffer) && k < |buffer| && buffer[k].finalId == id
    ensures buffer[0].prevFinalId < id
  {
    assert k > 0 ==> buffer[0].finalId < buffer[k].firstId;
  }

  /** OKX keeps an event whose id equals the snapshot's, so even with increasing, chained ids the
      bridge can stand behind an event that is then discarded. */
  lemma OkxBridgeNeedNotBeFirst()
    ensures
      var covered, bridge := DepthUpdate(10, 10, 5, [], []), DepthUpdate(15, 15, 10, [], []);
      var snap := SnapshotMessage([], [], 10);
      && Increasing([covered, bridge]) && Chained(PolicyOf(Okx), [covered, bridge])
      && Survivors(PolicyOf(Okx), [covered, bridge], snap) == [covered, bridge]
      && BridgeIndex(PolicyOf(Okx), [covered, bridge], snap) == 1
  {
    var covered, bridge := DepthUpdate(10, 10, 5, [], []), DepthUpdate(15, 15, 10, [], []);
    var snap := SnapshotMessage([], [], 10);
    var policy := PolicyOf(Okx);
    assert [covered, bridge][1..] == [bridge] && [bridge][1..] == [];
    assert Survivors(policy, [bridge], snap) == [bridge];
    assert BridgeIndex(policy, [bridge], snap) == 0;
  }
}
