/** What every strand step of a venue's driver keeps, over every run. */
module SessionSafety {
  import opened Levels
  import opened Resync
  import opened Session
  import Traces

  // ----- the state machine's outcomes, as the driver sees them -----

  ghost predicate SyncOk(s: Sync) {
    if s.live then s.buffer == [] else s.lastFinalId == 0
  }

  function Observed(s: Sync): Traces.Observed {
    if s.live then Traces.AtDelta(s.lastFinalId) else Traces.Absent
  }

  lemma OutcomeOk(cfg: Config, s: Sync, input: Input)
    requires SyncOk(s)
    ensures SyncOk(Resync.Step(Policy(cfg), s, input).sync)
  {
    Traces.StepAccepted(Policy(cfg), Observed(s), s, input);
  }

  /** An outcome that invalidates leaves a state machine that will ask for a snapshot. */
  lemma InvalidationWantsSnapshot(policy: SequencePolicy, s: Sync, input: Input)
    requires InvalidateVenue in Resync.Step(policy, s, input).actions
    ensures WantsSnapshot(Resync.Step(policy, s, input).sync)
  {
  }

  /** A snapshot over REST ends Live, or asks for another one, or reports a gap. */
  lemma SnapshotOutcome(policy: SequencePolicy, s: Sync, snap: SnapshotMessage)
    ensures var out := OnSnapshot(policy, s, snap);
      || out.sync.live
      || InvalidateVenue in out.actions
      || (out.actions == [RequestSnapshot] && !policy.trustsConnectionOrder)
  {
    var out := OnSnapshot(policy, s, snap);
    var kept := Survivors(policy, s.buffer, snap);
    var b := BridgeIndex(policy, kept, snap);
    if b < |kept| && !out.sync.live {
      assert out.actions[|out.actions| - 1] == InvalidateVenue;
    }
  }

  lemma StepKeepsSymbols(cfg: Config, st: State, ev: Event)
    ensures Session.Step(cfg, st, ev).syncs.Keys == st.syncs.Keys
  {
  }

  // ----- the session invariant -----

  ghost predicate Sound(cfg: Config, st: State) {
    && (forall s :: s in st.books ==> s in st.syncs && s in cfg.registered)
    && (forall s :: s in st.syncs ==> SyncOk(st.syncs[s]))
    && (!st.phase.Online? ==> st.books == map[] && forall s :: s in st.syncs ==> st.syncs[s] == FRESH)
    && (forall s :: s in st.running ==> s in st.syncs)
    && (st.phase.Idle? || st.phase.Spawned? || st.phase.Done? ==> st.running == multiset{} && st.finished == 0)
    && (st.phase.Draining? || st.phase.Done? ==> st.stopping)
  }

  lemma DropSound(cfg: Config, st: State)
    requires forall s :: s in st.books ==> s in st.syncs && s in cfg.registered
    requires forall s :: s in st.running ==> s in st.syncs
    ensures Sound(cfg, DropConnection(st))
  {
    assert DropConnection(st).books == map[];
  }

  lemma RequestAgainKeeps(cfg: Config, st: State, symbol: Symbol)
    requires symbol in st.syncs
    ensures var b := RequestAgain(cfg, st, symbol);
      && TouchesOnly(cfg, st, b, symbol)
      && b.books == st.books
      && b.syncs[symbol] == OnConnected(st.syncs[symbol]).sync
      && (!st.stopping && WantsSnapshot(st.syncs[symbol]) ==> symbol in b.running)
  {
    var out := OnConnected(st.syncs[symbol]);
    var st1 := st.(syncs := st.syncs[symbol := out.sync]);
    if WantsSnapshot(st.syncs[symbol]) {
      assert [RequestSnapshot][..0] == [];
      assert ExecuteAll(cfg, st1, symbol, []) == Executed(st1, false);
    }
  }

  /** What settling an outcome does to the whole session, in its three cases. */
  lemma SettleCases(cfg: Config, st: State, symbol: Symbol, out: Outcome)
    requires symbol in st.syncs
    requires InvalidateVenue in out.actions ==> WantsSnapshot(out.sync)
    ensures
      var b := Settle(cfg, st, symbol, out);
      var gap := Rejected(cfg, symbol, out.actions) || InvalidateVenue in out.actions;
      var r := ExecuteAll(cfg, st.(syncs := st.syncs[symbol := out.sync]), symbol, out.actions).state;
      && TouchesOnly(cfg, st, r, symbol)
      && (!gap ==> b == r && b.syncs[symbol] == out.sync)
      && (gap && Trusts(cfg) ==> b == DropConnection(r))
      && (gap && !Trusts(cfg) ==>
          && TouchesOnly(cfg, st, b, symbol) && b.books == r.books
          && WantsSnapshot(r.syncs[symbol])
          && r.syncs[symbol] == (if Rejected(cfg, symbol, out.actions) then FRESH else out.sync)
          && b.syncs[symbol] == r.syncs[symbol].(requested := true)
          && (!st.stopping ==> symbol in b.running))
  {
    var st0 := st.(syncs := st.syncs[symbol := out.sync]);
    ExecuteKeeps(cfg, st0, symbol, out.actions);
    var r := ExecuteAll(cfg, st0, symbol, out.actions).state;
    TouchesTwice(cfg, st, st0, r, symbol);
    RequestAgainKeeps(cfg, r, symbol);
    TouchesTwice(cfg, st, r, RequestAgain(cfg, r, symbol), symbol);
  }

  /** The same, seen by one symbol `s`. */
  lemma SettledSymbol(cfg: Config, st: State, symbol: Symbol, out: Outcome, s: Symbol)
    requires s in st.syncs && symbol in st.syncs
    requires InvalidateVenue in out.actions ==> WantsSnapshot(out.sync)
    ensures
      var b := Settle(cfg, st, symbol, out);
      var lost := Trusts(cfg) && (Rejected(cfg, symbol, out.actions) || InvalidateVenue in out.actions);
      var r := ExecuteAll(cfg, st.(syncs := st.syncs[symbol := out.sync]), symbol, out.actions).state;
      && (s != symbol ==> Contribution(r, s) == Contribution(st, s))
      && (lost ==> b.syncs[s] == FRESH && Contribution(b, s) == None)
      && (!lost ==> Contribution(b, s) == Contribution(r, s))
      && (!lost && s != symbol ==> b.syncs[s] == st.syncs[s])
      && (!lost && s == symbol && !Rejected(cfg, symbol, out.actions) ==>
            b.syncs[s] == out.sync || b.syncs[s] == out.sync.(requested := true))
  {
    SettleCases(cfg, st, symbol, out);
  }

  lemma TouchedSound(cfg: Config, a: State, b: State, symbol: Symbol)
    requires Sound(cfg, a) && a.phase.Online? && symbol in a.syncs
    requires TouchesOnly(cfg, a, b, symbol) && SyncOk(b.syncs[symbol])
    ensures Sound(cfg, b)
  {
  }

  lemma SettleSound(cfg: Config, st: State, symbol: Symbol, out: Outcome)
    requires Sound(cfg, st) && st.phase.Online? && symbol in st.syncs
    requires SyncOk(out.sync) && (InvalidateVenue in out.actions ==> WantsSnapshot(out.sync))
    ensures Sound(cfg, Settle(cfg, st, symbol, out))
  {
    SettleCases(cfg, st, symbol, out);
    var b := Settle(cfg, st, symbol, out);
    var r := ExecuteAll(cfg, st.(syncs := st.syncs[symbol := out.sync]), symbol, out.actions).state;
    if !Trusts(cfg) || b == r {
      TouchedSound(cfg, st, b, symbol);
    } else {
      DropSound(cfg, r);
    }
  }

  /** A fetch returning while disconnected finds nothing to bridge and only asks again. */
  lemma OfflineFetch(cfg: Config, st: State, symbol: Symbol, snap: SnapshotMessage)
    requires ViaRest(cfg) && symbol in st.syncs && st.syncs[symbol] == FRESH && !st.stopping
    ensures Settle(cfg, st, symbol, OnSnapshot(Policy(cfg), FRESH, snap))
         == st.(running := st.running + multiset{symbol})
  {
    var out := OnSnapshot(Policy(cfg), FRESH, snap);
    assert out == Outcome(FRESH, [RequestSnapshot]);
    assert st.syncs[symbol := FRESH] == st.syncs;
    assert [RequestSnapshot][..0] == [];
    assert ExecuteAll(cfg, st, symbol, []) == Executed(st, false);
  }

  lemma FetchSound(cfg: Config, st: State, symbol: Symbol, body: Body)
    requires Sound(cfg, st) && symbol in st.running
    ensures Sound(cfg, FetchReturns(cfg, st, symbol, body))
  {
    var after := Returned(st, symbol);
    assert Sound(cfg, after);
    if !Discarded(cfg, st, symbol, body) {
      if st.phase.Online? {
        MessageSound(cfg, after, symbol, Snapshot(body.snapshot));
      } else {
        OfflineFetch(cfg, after, symbol, body.snapshot);
      }
    }
  }

  lemma MessageSound(cfg: Config, st: State, symbol: Symbol, input: Input)
    requires Sound(cfg, st) && st.phase.Online? && symbol in st.syncs
    ensures Sound(cfg, Settle(cfg, st, symbol, Resync.Step(Policy(cfg), st.syncs[symbol], input)))
  {
    var out := Resync.Step(Policy(cfg), st.syncs[symbol], input);
    OutcomeOk(cfg, st.syncs[symbol], input);
    if InvalidateVenue in out.actions { InvalidationWantsSnapshot(Policy(cfg), st.syncs[symbol], input); }
    SettleSound(cfg, st, symbol, out);
  }

  lemma QuietSound(cfg: Config, st: State, ev: Event)
    requires Sound(cfg, st)
    requires !ev.DepthArrives? && !ev.SnapshotArrives? && !ev.FetchDone? && !ev.Drop?
    ensures Sound(cfg, Session.Step(cfg, st, ev))
  {
  }

  lemma StepSound(cfg: Config, st: State, ev: Event)
    requires Sound(cfg, st)
    ensures Sound(cfg, Session.Step(cfg, st, ev))
  {
    match ev
    case DepthArrives(symbol, e) =>
      if st.phase.Online? && symbol in st.syncs { MessageSound(cfg, st, symbol, Depth(e)); }
    case SnapshotArrives(symbol, snap) =>
      if st.phase.Online? && symbol in st.syncs { MessageSound(cfg, st, symbol, Snapshot(snap)); }
    case FetchDone(symbol, body) =>
      if symbol in st.running { FetchSound(cfg, st, symbol, body); }
    case Drop => DropSound(cfg, st);
    case _ => QuietSound(cfg, st, ev);
  }

  lemma {:induction false} RunSound(cfg: Config, symbols: set<Symbol>, events: seq<Event>)
    ensures Sound(cfg, Reach(cfg, symbols, events))
  {
    if events != [] {
      RunSound(cfg, symbols, events[..|events| - 1]);
      StepSound(cfg, Reach(cfg, symbols, events[..|events| - 1]), events[|events| - 1]);
    }
  }

  // ----- shutdown -----

  /** Once completion has fired, nothing is in flight, no book holds this venue, and no later step
      changes anything. */
  lemma {:induction false} CompletionIsFinal(
      cfg: Config, symbols: set<Symbol>, events: seq<Event>, more: seq<Event>)
    requires Reach(cfg, symbols, events).phase.Done?
    ensures
      var st := Reach(cfg, symbols, events);
      && st.stopping && st.running == multiset{} && st.finished == 0 && st.books == map[]
      && Reach(cfg, symbols, events + more) == st
    decreases |more|
  {
    RunSound(cfg, symbols, events);
    if more == [] {
      assert events + more == events;
    } else {
      var init := more[..|more| - 1];
      assert (events + more)[..|events + more| - 1] == events + init;
      CompletionIsFinal(cfg, symbols, events, init);
    }
  }

  lemma SettleKeepsStopping(cfg: Config, st: State, symbol: Symbol, out: Outcome)
    requires symbol in st.syncs
    ensures
      var b := Settle(cfg, st, symbol, out);
      b.stopping == st.stopping && (st.stopping ==> b.running == st.running)
  {
    var st0 := st.(syncs := st.syncs[symbol := out.sync]);
    ExecuteKeeps(cfg, st0, symbol, out.actions);
    RequestAgainKeeps(cfg, ExecuteAll(cfg, st0, symbol, out.actions).state, symbol);
  }

  /** stop() is never undone, and from then on no step starts another fetch. */
  lemma StoppingStartsNothing(cfg: Config, st: State, ev: Event)
    requires st.stopping
    ensures Session.Step(cfg, st, ev).stopping && Session.Step(cfg, st, ev).running <= st.running
  {
    match ev
    case DepthArrives(symbol, e) =>
      if symbol in st.syncs {
        SettleKeepsStopping(cfg, st, symbol, OnDepthUpdate(Policy(cfg), st.syncs[symbol], e));
      }
    case SnapshotArrives(symbol, snap) =>
      if symbol in st.syncs {
        SettleKeepsStopping(cfg, st, symbol, OnSnapshot(Policy(cfg), st.syncs[symbol], snap));
      }
    case _ =>
  }

  function Outstanding(st: State): nat {
    2 * |st.running| + st.finished + (if st.phase.Draining? then 1 else 0)
  }

  /** While draining, a step either changes nothing or brings completion strictly closer, and with
      nothing left in flight the next poll completes. */
  lemma DrainingOnlyShrinks(cfg: Config, st: State, ev: Event)
    requires Sound(cfg, st) && st.phase.Draining?
    ensures
      var next := Session.Step(cfg, st, ev);
      && (next == st || Outstanding(next) < Outstanding(st))
      && next.books == map[] && next.stopping
      && (ev.DrainPoll? && Outstanding(st) == 1 ==> next.phase.Done?)
  {
    if ev.FetchDone? && ev.symbol in st.running {
      assert |st.running - multiset{ev.symbol}| == |st.running| - 1;
    }
  }

  // ----- never stuck -----

  ghost predicate Fetching(cfg: Config, st: State) {
    ViaRest(cfg) && st.phase.Online? && !st.stopping ==>
      forall s :: s in st.syncs && !st.syncs[s].live ==> s in st.running
  }

  lemma RestDoesNotTrust(cfg: Config)
    ensures ViaRest(cfg) <==> !Trusts(cfg)
  {
  }

  lemma SettleFetching(cfg: Config, st: State, symbol: Symbol, out: Outcome)
    requires ViaRest(cfg) && st.phase.Online? && !st.stopping && symbol in st.syncs
    requires forall s :: s in st.syncs && s != symbol && !st.syncs[s].live ==> s in st.running
    requires InvalidateVenue in out.actions ==> WantsSnapshot(out.sync)
    requires out.sync.live || InvalidateVenue in out.actions || out.actions == [RequestSnapshot] || symbol in st.running
    ensures Fetching(cfg, Settle(cfg, st, symbol, out))
  {
    RestDoesNotTrust(cfg);
    SettleCases(cfg, st, symbol, out);
    if out.actions == [RequestSnapshot] {
      var st0 := st.(syncs := st.syncs[symbol := out.sync]);
      assert out.actions[..0] == [];
      assert ExecuteAll(cfg, st0, symbol, []) == Executed(st0, false);
    }
  }

  lemma ConnectFetching(cfg: Config, st: State)
    requires Sound(cfg, st) && st.phase.Connecting?
    ensures Fetching(cfg, ConnectAll(st))
  {
    forall s | !st.stopping && s in st.syncs
      ensures s in ConnectAll(st).running
    {
      assert st.syncs[s] == FRESH;
    }
  }

  lemma FetchFetching(cfg: Config, st: State, symbol: Symbol, snap: SnapshotMessage)
    requires Sound(cfg, st) && Fetching(cfg, st) && ViaRest(cfg) && !st.stopping && symbol in st.running
    ensures Fetching(cfg, FetchReturns(cfg, st, symbol, Parsed(snap)))
  {
    var after := Returned(st, symbol);
    if st.phase.Online? {
      assert forall s :: s != symbol && s in st.running ==> s in after.running;
      var out := OnSnapshot(Policy(cfg), st.syncs[symbol], snap);
      SnapshotOutcome(Policy(cfg), st.syncs[symbol], snap);
      if InvalidateVenue in out.actions { InvalidationWantsSnapshot(Policy(cfg), st.syncs[symbol], Snapshot(snap)); }
      SettleFetching(cfg, after, symbol, out);
    } else {
      OfflineFetch(cfg, after, symbol, snap);
    }
  }

  lemma ParsedStepFetching(cfg: Config, st: State, ev: Event)
    requires Sound(cfg, st) && Fetching(cfg, st) && ViaRest(cfg) && !st.stopping
    requires ev.FetchDone? ==> ev.body.Parsed?
    ensures Fetching(cfg, Session.Step(cfg, st, ev))
  {
    match ev
    case ConnectOk =>
      if st.phase.Connecting? { ConnectFetching(cfg, st); }
    case DepthArrives(symbol, e) =>
      if st.phase.Online? && symbol in st.syncs {
        SettleFetching(cfg, st, symbol, OnDepthUpdate(Policy(cfg), st.syncs[symbol], e));
      }
    case SnapshotArrives(symbol, snap) =>
      if st.phase.Online? && symbol in st.syncs {
        SnapshotOutcome(Policy(cfg), st.syncs[symbol], snap);
        SettleFetching(cfg, st, symbol, OnSnapshot(Policy(cfg), st.syncs[symbol], snap));
      }
    case FetchDone(symbol, body) =>
      if symbol in st.running { FetchFetching(cfg, st, symbol, body.snapshot); }
    case _ =>
  }

  /** An unparseable body ends its fetch without a retry: nothing is stuck exactly when the symbol
      is Live or another fetch of it is in flight. */
  lemma UnparseableBodySticksIff(cfg: Config, st: State, symbol: Symbol)
    requires Sound(cfg, st) && Fetching(cfg, st)
    requires ViaRest(cfg) && st.phase.Online? && !st.stopping && symbol in st.running
    ensures Fetching(cfg, Session.Step(cfg, st, FetchDone(symbol, Unparseable)))
       <==> (st.syncs[symbol].live || st.running[symbol] > 1)
  {
    var next := Session.Step(cfg, st, FetchDone(symbol, Unparseable));
    assert next.running[symbol] == st.running[symbol] - 1;
    assert forall s :: s != symbol ==> next.running[s] == st.running[s];
  }

  /** An unparseable body for a Buffering symbol's only fetch, on a connected REST venue that is not
      stopping. */
  predicate StickingStep(cfg: Config, st: State, ev: Event) {
    && ViaRest(cfg) && st.phase.Online? && !st.stopping
    && ev.FetchDone? && ev.body.Unparseable? && st.running[ev.symbol] == 1
    && ev.symbol in st.syncs && !st.syncs[ev.symbol].live
  }

  lemma StepFetchingIff(cfg: Config, st: State, ev: Event)
    requires Sound(cfg, st) && Fetching(cfg, st)
    ensures Fetching(cfg, Session.Step(cfg, st, ev)) <==> !StickingStep(cfg, st, ev)
  {
    if st.stopping {
      StoppingStartsNothing(cfg, st, ev);
    } else if ViaRest(cfg) {
      if ev.FetchDone? && ev.body.Unparseable? {
        if st.phase.Online? && ev.symbol in st.running { UnparseableBodySticksIff(cfg, st, ev.symbol); }
      } else {
        ParsedStepFetching(cfg, st, ev);
      }
    }
  }

  /** Fetching after every prefix of the run. */
  ghost predicate AlwaysFetches(cfg: Config, symbols: set<Symbol>, events: seq<Event>) {
    Fetching(cfg, Reach(cfg, symbols, events)) &&
    (events != [] ==> AlwaysFetches(cfg, symbols, events[..|events| - 1]))
  }

  predicate NeverSticks(cfg: Config, symbols: set<Symbol>, events: seq<Event>) {
    events != [] ==>
      var init := events[..|events| - 1];
      !StickingStep(cfg, Reach(cfg, symbols, init), events[|events| - 1]) && NeverSticks(cfg, symbols, init)
  }

  /** Never stuck over a run, exactly: at every point every Buffering symbol of a connected,
      non-stopping REST venue has a fetch in flight, if and only if no unparseable body ever arrives
      for a Buffering symbol's only fetch. */
  lemma {:induction false} RunFetchesIff(cfg: Config, symbols: set<Symbol>, events: seq<Event>)
    ensures AlwaysFetches(cfg, symbols, events) <==> NeverSticks(cfg, symbols, events)
  {
    if events != [] {
      var init := events[..|events| - 1];
      RunFetchesIff(cfg, symbols, init);
      RunSound(cfg, symbols, init);
      if AlwaysFetches(cfg, symbols, init) {
        StepFetchingIff(cfg, Reach(cfg, symbols, init), events[|events| - 1]);
      }
    }
  }

  lemma {:induction false} ParsedNeverSticks(cfg: Config, symbols: set<Symbol>, events: seq<Event>)
    requires forall i :: 0 <= i < |events| && events[i].FetchDone? ==> events[i].body.Parsed?
    ensures NeverSticks(cfg, symbols, events)
  {
    if events != [] { ParsedNeverSticks(cfg, symbols, events[..|events| - 1]); }
  }

  /** In particular when every fetched body parses, rejected levels allowed. */
  lemma BufferingAlwaysFetches(cfg: Config, symbols: set<Symbol>, events: seq<Event>)
    requires forall i :: 0 <= i < |events| && events[i].FetchDone? ==> events[i].body.Parsed?
    ensures AlwaysFetches(cfg, symbols, events)
  {
    ParsedNeverSticks(cfg, symbols, events);
    RunFetchesIff(cfg, symbols, events);
  }

  /** Start and connect: one symbol, Buffering, with its snapshot fetch in flight. */
  lemma ConnectedOnce(cfg: Config)
    ensures Reach(cfg, {"S"}, [Start, Resume, ConnectOk])
         == State(Online, false, map["S" := FRESH.(requested := true)], map[], multiset{"S"}, 0)
  {
    var s2 := State(Connecting, false, map["S" := FRESH], map[], multiset{}, 0);
    assert Reach(cfg, {"S"}, []) == State(Idle, false, map["S" := FRESH], map[], multiset{}, 0);
    ReachSnoc(cfg, {"S"}, [], Start);
    ReachSnoc(cfg, {"S"}, [Start], Resume);
    assert [] + [Start] == [Start] && [Start] + [Resume] == [Start, Resume];
    assert Reach(cfg, {"S"}, [Start, Resume]) == s2;
    ReachSnoc(cfg, {"S"}, [Start, Resume], ConnectOk);
    assert [Start, Resume] + [ConnectOk] == [Start, Resume, ConnectOk];
    assert (set s | s in s2.syncs && WantsSnapshot(s2.syncs[s])) == {"S"};
  }

  /** A run that does get stuck: the first fetched body does not parse and nothing asks again. */
  lemma UnparseableBodySticks()
    ensures !AlwaysFetches(Config(BinanceSpot, {"S"}), {"S"}, [Start, Resume, ConnectOk, FetchDone("S", Unparseable)])
  {
    var cfg := Config(BinanceSpot, {"S"});
    var before := [Start, Resume, ConnectOk];
    var events := before + [FetchDone("S", Unparseable)];
    ConnectedOnce(cfg);
    assert events[..|events| - 1] == before;
    assert StickingStep(cfg, Reach(cfg, {"S"}, before), FetchDone("S", Unparseable));
    RunFetchesIff(cfg, {"S"}, events);
    assert events == [Start, Resume, ConnectOk, FetchDone("S", Unparseable)];
  }

  // ----- venues that trust connection order -----

  /** The symbol's snapshot has been delivered since the last connect. */
  predicate SnapshotSeen(events: seq<Event>, symbol: Symbol) {
    if events == [] then false
    else
      var last := events[|events| - 1];
      !last.ConnectOk? &&
      ((last.SnapshotArrives? && last.symbol == symbol) || SnapshotSeen(events[..|events| - 1], symbol))
  }

  /** A gap or a rejected level costs such a venue its connection, with every book cleared. */
  lemma GapDropsConnection(cfg: Config, st: State, symbol: Symbol, out: Outcome)
    requires Sound(cfg, st) && Trusts(cfg) && symbol in st.syncs
    requires Rejected(cfg, symbol, out.actions) || InvalidateVenue in out.actions
    ensures !Settle(cfg, st, symbol, out).phase.Online? && Settle(cfg, st, symbol, out).books == map[]
    ensures forall s :: s in st.syncs ==> Settle(cfg, st, symbol, out).syncs[s] == FRESH
  {
    ExecuteKeeps(cfg, st.(syncs := st.syncs[symbol := out.sync]), symbol, out.actions);
  }

  ghost predicate LiveOrOffline(st: State, symbol: Symbol) {
    symbol in st.syncs && (st.phase.Online? ==> st.syncs[symbol].live)
  }

  lemma TrustedSettles(cfg: Config, st: State, target: Symbol, input: Input, symbol: Symbol)
    requires Sound(cfg, st) && Trusts(cfg) && st.phase.Online? && target in st.syncs && symbol in st.syncs
    requires input.Depth? || input.Snapshot?
    requires LiveOrOffline(st, symbol) || (input.Snapshot? && target == symbol)
    ensures LiveOrOffline(Settle(cfg, st, target, Resync.Step(Policy(cfg), st.syncs[target], input)), symbol)
  {
    var out := Resync.Step(Policy(cfg), st.syncs[target], input);
    if Rejected(cfg, target, out.actions) || InvalidateVenue in out.actions {
      GapDropsConnection(cfg, st, target, out);
    } else {
      SettleCases(cfg, st, target, out);
      if input.Snapshot? { SnapshotOutcome(Policy(cfg), st.syncs[target], input.snapshot); }
    }
  }

  lemma TrustedStep(cfg: Config, st: State, ev: Event, symbol: Symbol)
    requires Sound(cfg, st) && Trusts(cfg) && symbol in st.syncs && !ev.ConnectOk?
    requires LiveOrOffline(st, symbol) || (ev.SnapshotArrives? && ev.symbol == symbol)
    ensures LiveOrOffline(Session.Step(cfg, st, ev), symbol)
  {
    RestDoesNotTrust(cfg);
    match ev
    case DepthArrives(target, e) =>
      if st.phase.Online? && target in st.syncs { TrustedSettles(cfg, st, target, Depth(e), symbol); }
    case SnapshotArrives(target, snap) =>
      if st.phase.Online? && target in st.syncs { TrustedSettles(cfg, st, target, Snapshot(snap), symbol); }
    case _ =>
  }

  /** So while such a venue stays online, a symbol whose snapshot has arrived is Live. */
  lemma {:induction false} TrustedSymbolStaysLive(
      cfg: Config, symbols: set<Symbol>, events: seq<Event>, symbol: Symbol)
    requires Trusts(cfg) && symbol in symbols
    ensures symbol in Reach(cfg, symbols, events).syncs
    ensures SnapshotSeen(events, symbol) ==> LiveOrOffline(Reach(cfg, symbols, events), symbol)
  {
    if events != [] {
      var init, ev := events[..|events| - 1], events[|events| - 1];
      TrustedSymbolStaysLive(cfg, symbols, init, symbol);
      RunSound(cfg, symbols, init);
      StepKeepsSymbols(cfg, Reach(cfg, symbols, init), ev);
      if SnapshotSeen(events, symbol) {
        TrustedStep(cfg, Reach(cfg, symbols, init), ev, symbol);
      }
    }
  }
}
