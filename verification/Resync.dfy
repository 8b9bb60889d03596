/** The per-(venue, symbol) resync state machine and the sequence policies it is instantiated with. */
module Resync {
  import opened Levels

  datatype DepthUpdate = DepthUpdate(
    firstId: nat, finalId: nat, prevFinalId: nat, bids: seq<Level>, asks: seq<Level>)

  datatype SnapshotMessage = SnapshotMessage(bids: seq<Level>, asks: seq<Level>, lastUpdateId: nat)

  /** What the state machine asks its driver to do. An apply action carries the message it came
      from; the driver reads only its levels, the ids serve the statements about traces. */
  datatype Action =
    | RequestSnapshot
    | ApplySnapshot(snapshot: SnapshotMessage)
    | ApplyDelta(update: DepthUpdate)
    | InvalidateVenue

  /** The venue-specific part: three predicates over ids and one flag. */
  datatype SequencePolicy = SequencePolicy(
    shouldDropBuffered: (DepthUpdate, SnapshotMessage) -> bool,
    bridgesSnapshot: (DepthUpdate, SnapshotMessage) -> bool,
    isContiguous: (DepthUpdate, nat) -> bool,
    trustsConnectionOrder: bool)

  datatype Kind = BinanceSpot | BinanceFutures | Bybit | Okx

  function PolicyOf(kind: Kind): SequencePolicy {
    match kind
    case BinanceSpot => SequencePolicy(
      (e: DepthUpdate, s: SnapshotMessage) => e.finalId <= s.lastUpdateId,
      (e: DepthUpdate, s: SnapshotMessage) => e.firstId <= s.lastUpdateId + 1 && e.finalId >= s.lastUpdateId + 1,
      (e: DepthUpdate, last: nat) => e.firstId == last + 1,
      false)
    case BinanceFutures => SequencePolicy(
      (e: DepthUpdate, s: SnapshotMessage) => e.finalId < s.lastUpdateId,
      (e: DepthUpdate, s: SnapshotMessage) => e.firstId <= s.lastUpdateId && e.finalId >= s.lastUpdateId,
      (e: DepthUpdate, last: nat) => e.prevFinalId == last,
      false)
    case Bybit => SequencePolicy(
      (e: DepthUpdate, s: SnapshotMessage) => e.finalId <= s.lastUpdateId,
      (e: DepthUpdate, s: SnapshotMessage) => e.finalId == s.lastUpdateId + 1,
      (e: DepthUpdate, last: nat) => e.finalId == last + 1,
      true)
    case Okx => SequencePolicy(
      (e: DepthUpdate, s: SnapshotMessage) => e.finalId < s.lastUpdateId,
      (e: DepthUpdate, s: SnapshotMessage) => e.prevFinalId == s.lastUpdateId,
      (e: DepthUpdate, last: nat) => e.prevFinalId == last,
      true)
  }

  datatype Sync = Sync(live: bool, buffer: seq<DepthUpdate>, lastFinalId: nat, requested: bool)

  const FRESH := Sync(false, [], 0, false)

  datatype Outcome = Outcome(sync: Sync, actions: seq<Action>)

  /** What the driver can feed in. */
  datatype Input =
    | Connected
    | Disconnected
    | Depth(update: DepthUpdate)
    | Snapshot(snapshot: SnapshotMessage)

  // ----- one-step specification -----

  function OnConnected(s: Sync): Outcome {
    if !s.live && !s.requested then Outcome(s.(requested := true), [RequestSnapshot]) else Outcome(s, [])
  }

  function OnDisconnected(): Outcome {
    Outcome(FRESH, [InvalidateVenue])
  }

  /** Invalidate, fall back to buffering, keep the unresolved events. */
  function Gap(unresolved: seq<DepthUpdate>): Outcome {
    Outcome(Sync(false, unresolved, 0, false), [InvalidateVenue])
  }

  function OnDepthUpdate(policy: SequencePolicy, s: Sync, e: DepthUpdate): Outcome {
    if !s.live then Outcome(s.(buffer := s.buffer + [e]), [])
    else if !policy.isContiguous(e, s.lastFinalId) then Gap(s.buffer + [e])
    else Outcome(s.(lastFinalId := e.finalId), [ApplyDelta(e)])
  }

  /** The buffered events the drop filter keeps, in order. */
  function Survivors(policy: SequencePolicy, buffer: seq<DepthUpdate>, snap: SnapshotMessage): (kept: seq<DepthUpdate>)
    ensures forall e :: e in kept <==> e in buffer && !policy.shouldDropBuffered(e, snap)
  {
    if buffer == [] then []
    else if policy.shouldDropBuffered(buffer[0], snap) then Survivors(policy, buffer[1..], snap)
    else [buffer[0]] + Survivors(policy, buffer[1..], snap)
  }

  /** `at` lists, in order, the places of `kept` in `buffer`. */
  ghost predicate Picks(buffer: seq<DepthUpdate>, kept: seq<DepthUpdate>, at: seq<nat>) {
    && |at| == |kept|
    && (forall i, j :: 0 <= i < j < |at| ==> at[i] < at[j])
    && (forall i :: 0 <= i < |at| ==> at[i] < |buffer| && kept[i] == buffer[at[i]])
  }

  /** ...and those are exactly the places of the events that must stay. */
  ghost predicate PicksAll(policy: SequencePolicy, buffer: seq<DepthUpdate>, snap: SnapshotMessage, at: seq<nat>) {
    forall k: nat :: k < |buffer| ==> (k in at <==> !policy.shouldDropBuffered(buffer[k], snap))
  }

  function Shifted(at: seq<nat>): seq<nat> {
    seq(|at|, i requires 0 <= i < |at| => at[i] + 1)
  }

  lemma PicksShifted(buffer: seq<DepthUpdate>, kept: seq<DepthUpdate>, at: seq<nat>)
    requires buffer != [] && Picks(buffer[1..], kept, at)
    ensures Picks(buffer, kept, Shifted(at)) && Picks(buffer, [buffer[0]] + kept, [0] + Shifted(at))
  {
  }

  lemma PicksAllShifted(policy: SequencePolicy, buffer: seq<DepthUpdate>, snap: SnapshotMessage, at: seq<nat>)
    requires buffer != [] && PicksAll(policy, buffer[1..], snap, at)
    ensures policy.shouldDropBuffered(buffer[0], snap) ==> PicksAll(policy, buffer, snap, Shifted(at))
    ensures !policy.shouldDropBuffered(buffer[0], snap) ==> PicksAll(policy, buffer, snap, [0] + Shifted(at))
  {
    forall k: nat | k < |buffer|
      ensures k in Shifted(at) <==> k > 0 && !policy.shouldDropBuffered(buffer[k], snap)
    {
      if k > 0 {
        assert buffer[k] == buffer[1..][k - 1];
        if k - 1 in at {
          var i :| 0 <= i < |at| && at[i] == k - 1;
          assert Shifted(at)[i] == k;
        }
      }
    }
  }

  /** The filter keeps every event it must, once and in order. */
  lemma {:induction false} SurvivorsInOrder(
      policy: SequencePolicy, buffer: seq<DepthUpdate>, snap: SnapshotMessage) returns (at: seq<nat>)
    ensures Picks(buffer, Survivors(policy, buffer, snap), at) && PicksAll(policy, buffer, snap, at)
    decreases |buffer|
  {
    at := [];
    if buffer != [] {
      var later := SurvivorsInOrder(policy, buffer[1..], snap);
      PicksShifted(buffer, Survivors(policy, buffer[1..], snap), later);
      PicksAllShifted(policy, buffer, snap, later);
      at := if policy.shouldDropBuffered(buffer[0], snap) then Shifted(later) else [0] + Shifted(later);
    }
  }

  /** Index of the first event that bridges the snapshot, or the length if none does. */
  function BridgeIndex(policy: SequencePolicy, events: seq<DepthUpdate>, snap: SnapshotMessage): (b: nat)
    ensures b <= |events|
    ensures b < |events| ==> policy.bridgesSnapshot(events[b], snap)
    ensures forall i :: 0 <= i < b ==> !policy.bridgesSnapshot(events[i], snap)
  {
    if events == [] then 0
    else if policy.bridgesSnapshot(events[0], snap) then 0
    else
      var b := BridgeIndex(policy, events[1..], snap);
      assert forall i :: 0 < i < |events| ==> events[i] == events[1..][i - 1];
      b + 1
  }

  ghost predicate Chained(policy: SequencePolicy, events: seq<DepthUpdate>) {
    forall i :: 0 < i < |events| ==> policy.isContiguous(events[i], events[i - 1].finalId)
  }

  /** Length of the longest prefix in which every event continues its predecessor. */
  function RunLength(policy: SequencePolicy, events: seq<DepthUpdate>): (n: nat)
    requires events != []
    ensures 1 <= n <= |events|
    ensures Chained(policy, events[..n])
    ensures n < |events| ==> !policy.isContiguous(events[n], events[n - 1].finalId)
  {
    if |events| > 1 && policy.isContiguous(events[1], events[0].finalId) then
      var n := RunLength(policy, events[1..]);
      assert forall i :: 0 < i < |events| ==> events[i] == events[1..][i - 1];
      n + 1
    else 1
  }

  function Deltas(events: seq<DepthUpdate>): seq<Action> {
    seq(|events|, i requires 0 <= i < |events| => ApplyDelta(events[i]))
  }

  lemma DeltasSnoc(events: seq<DepthUpdate>, k: nat)
    requires k < |events|
    ensures Deltas(events[..k + 1]) == Deltas(events[..k]) + [ApplyDelta(events[k])]
  {
  }

  lemma RunLengthAt(policy: SequencePolicy, events: seq<DepthUpdate>, k: nat)
    requires 1 <= k < |events| && k <= RunLength(policy, events)
    ensures k < RunLength(policy, events) <==> policy.isContiguous(events[k], events[k - 1].finalId)
  {
    var n := RunLength(policy, events);
    if k < n {
      assert events[..n][k] == events[k] && events[..n][k - 1] == events[k - 1];
    }
  }

  function Replay(policy: SequencePolicy, s: Sync, snap: SnapshotMessage, tail: seq<DepthUpdate>): Outcome
    requires tail != []
  {
    var n := RunLength(policy, tail);
    var applied := [ApplySnapshot(snap)] + Deltas(tail[..n]);
    if n == |tail| then Outcome(Sync(true, [], tail[n - 1].finalId, s.requested), applied)
    else
      var gap := Gap(tail[n..]);
      Outcome(gap.sync, applied + gap.actions)
  }

  /** The replay loop in front of event k of `tail`. */
  ghost predicate Replayed(
      policy: SequencePolicy, snap: SnapshotMessage, tail: seq<DepthUpdate>, k: nat, actions: seq<Action>, last: nat)
  {
    && tail != [] && k <= |tail| && k <= RunLength(policy, tail)
    && actions == [ApplySnapshot(snap)] + Deltas(tail[..k])
    && (k > 0 ==> last == tail[k - 1].finalId)
  }

  lemma ReplayedNothing(policy: SequencePolicy, snap: SnapshotMessage, tail: seq<DepthUpdate>, last: nat)
    requires tail != []
    ensures Replayed(policy, snap, tail, 0, [ApplySnapshot(snap)], last)
  {
    assert Deltas(tail[..0]) == [];
  }

  lemma ReplayedOneMore(
      policy: SequencePolicy, snap: SnapshotMessage, tail: seq<DepthUpdate>, k: nat, actions: seq<Action>, last: nat)
    requires Replayed(policy, snap, tail, k, actions, last) && k < |tail|
    requires k == 0 || policy.isContiguous(tail[k], last)
    ensures Replayed(policy, snap, tail, k + 1, actions + [ApplyDelta(tail[k])], tail[k].finalId)
  {
    DeltasSnoc(tail, k);
    if k > 0 { RunLengthAt(policy, tail, k); }
  }

  lemma ReplayedToTheEnd(
      policy: SequencePolicy, s: Sync, snap: SnapshotMessage, tail: seq<DepthUpdate>, actions: seq<Action>, last: nat)
    requires Replayed(policy, snap, tail, |tail|, actions, last)
    ensures Replay(policy, s, snap, tail) == Outcome(Sync(true, [], last, s.requested), actions)
  {
  }

  lemma ReplayedToABreak(
      policy: SequencePolicy, s: Sync, snap: SnapshotMessage, tail: seq<DepthUpdate>, k: nat, actions: seq<Action>,
      last: nat)
    requires Replayed(policy, snap, tail, k, actions, last)
    requires 0 < k < |tail| && !policy.isContiguous(tail[k], last)
    ensures Replay(policy, s, snap, tail) == Outcome(Gap(tail[k..]).sync, actions + Gap(tail[k..]).actions)
  {
    RunLengthAt(policy, tail, k);
  }

  function OnSnapshot(policy: SequencePolicy, s: Sync, snap: SnapshotMessage): Outcome {
    var kept := Survivors(policy, s.buffer, snap);
    var b := BridgeIndex(policy, kept, snap);
    if b < |kept| then Replay(policy, s, snap, kept[b..])
    else if !policy.trustsConnectionOrder then Outcome(s.(buffer := kept), [RequestSnapshot])
    else if s.buffer == [] then Outcome(Sync(true, kept, snap.lastUpdateId, s.requested), [ApplySnapshot(snap)])
    else Gap(kept)
  }

  function Step(policy: SequencePolicy, s: Sync, input: Input): Outcome {
    match input
    case Connected => OnConnected(s)
    case Disconnected => OnDisconnected()
    case Depth(e) => OnDepthUpdate(policy, s, e)
    case Snapshot(snap) => OnSnapshot(policy, s, snap)
  }

  /** A whole run from construction: final state and every action emitted, in order. */
  function Run(policy: SequencePolicy, inputs: seq<Input>): Outcome {
    if inputs == [] then Outcome(FRESH, [])
    else
      var before := Run(policy, inputs[..|inputs| - 1]);
      var out := Step(policy, before.sync, inputs[|inputs| - 1]);
      Outcome(out.sync, before.actions + out.actions)
  }
}
