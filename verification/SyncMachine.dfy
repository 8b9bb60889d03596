/** The state machine as an object: fields updated in place, proved against the functions of Resync. */
module SyncMachine {
  import opened Resync

  class SymbolSync {
    const policy: SequencePolicy
    var live: bool
    var buffer: seq<DepthUpdate>
    var lastFinalId: nat
    var requested: bool

    function State(): Sync
      reads this
    {
      Sync(live, buffer, lastFinalId, requested)
    }

    constructor (policy: SequencePolicy)
      ensures this.policy == policy && State() == FRESH
    {
      this.policy := policy;
      live, buffer, lastFinalId, requested := false, [], 0, false;
    }

    method OnConnected() returns (actions: seq<Action>)
      modifies this
      ensures Outcome(State(), actions) == Resync.OnConnected(old(State()))
    {
      if !live && !requested {
        requested := true;
        return [RequestSnapshot];
      }
      return [];
    }

    method OnDepthUpdate(update: DepthUpdate) returns (actions: seq<Action>)
      modifies this
      ensures Outcome(State(), actions) == Resync.OnDepthUpdate(policy, old(State()), update)
    {
      if !live {
        buffer := buffer + [update];
        return [];
      }
      if !policy.isContiguous(update, lastFinalId) {
        buffer := buffer + [update];
        actions := HandleGap(0);
        return;
      }
      lastFinalId := update.finalId;
      return [ApplyDelta(update)];
    }

    method OnSnapshot(snapshot: SnapshotMessage) returns (actions: seq<Action>)
      modifies this
      ensures Outcome(State(), actions) == Resync.OnSnapshot(policy, old(State()), snapshot)
    {
      var nothingWasEverBuffered := buffer == [];
      buffer := Survivors(policy, buffer, snapshot);
      var bridge := BridgeIndex(policy, buffer, snapshot);
      if bridge == |buffer| {
        if policy.trustsConnectionOrder {
          if nothingWasEverBuffered {
            lastFinalId := snapshot.lastUpdateId;
            live := true;
            return [ApplySnapshot(snapshot)];
          }
          actions := HandleGap(0);
          return;
        }
        return [RequestSnapshot];
      }

      actions := ReplayFrom(snapshot, bridge);
    }

    /** Applies the buffered events from `bridge` on, up to the end or the first one that does not
        continue its predecessor. */
    method ReplayRun(snapshot: SnapshotMessage, bridge: nat) returns (actions: seq<Action>, it: nat)
      requires bridge < |buffer|
      modifies this`lastFinalId
      ensures bridge < it <= |buffer|
      ensures Replayed(policy, snapshot, buffer[bridge..], it - bridge, actions, lastFinalId)
      ensures it < |buffer| ==> !policy.isContiguous(buffer[it], lastFinalId)
    {
      ghost var tail := buffer[bridge..];
      actions, it := [ApplySnapshot(snapshot)], bridge;
      ReplayedNothing(policy, snapshot, tail, lastFinalId);
      while it < |buffer| && (it == bridge || policy.isContiguous(buffer[it], lastFinalId))
        invariant bridge <= it <= |buffer|
        invariant Replayed(policy, snapshot, tail, it - bridge, actions, lastFinalId)
      {
        ReplayedOneMore(policy, snapshot, tail, it - bridge, actions, lastFinalId);
        lastFinalId := buffer[it].finalId;
        actions := actions + [ApplyDelta(buffer[it])];
        it := it + 1;
      }
    }

    /** Applies the snapshot and the buffered tail from `bridge` on, stopping at the first gap. */
    method ReplayFrom(snapshot: SnapshotMessage, bridge: nat) returns (actions: seq<Action>)
      requires bridge < |buffer|
      modifies this
      ensures Outcome(State(), actions) == Replay(policy, old(State()), snapshot, old(buffer)[bridge..])
    {
      ghost var tail, before := buffer[bridge..], State();
      var it: nat;
      actions, it := ReplayRun(snapshot, bridge);
      if it < |buffer| {
        ReplayedToABreak(policy, before, snapshot, tail, it - bridge, actions, lastFinalId);
        assert buffer[it..] == tail[it - bridge..];
        var gapActions := HandleGap(it);
        actions := actions + gapActions;
      } else {
        ReplayedToTheEnd(policy, before, snapshot, tail, actions, lastFinalId);
        buffer := [];
        live := true;
      }
    }

    method OnDisconnected() returns (actions: seq<Action>)
      modifies this
      ensures Outcome(State(), actions) == Resync.OnDisconnected()
    {
      live, buffer, lastFinalId, requested := false, [], 0, false;
      return [InvalidateVenue];
    }

    method HandleGap(firstUnresolved: nat) returns (actions: seq<Action>)
      requires firstUnresolved <= |buffer|
      modifies this
      ensures buffer == old(buffer)[firstUnresolved..] && !live && lastFinalId == 0 && !requested
      ensures actions == [InvalidateVenue]
    {
      buffer := buffer[firstUnresolved..];
      live, lastFinalId, requested := false, 0, false;
      return [InvalidateVenue];
    }
  }
}
