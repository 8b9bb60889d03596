/** What the driver does get done: every symbol's machine is fed exactly what the venue delivers, a
    started venue comes online, and a stopped one completes. */
module SessionProgress {
  import opened Levels
  import opened Resync
  import opened Session
  import opened SessionSafety
  import opened SessionTruth
  import opened StreamProgress
  import Conservation
  import Truth

  // ----- each symbol's machine is fed what the venue delivers -----

  /** What settling an input of `symbol` feeds the machine of `s`: the input itself; a disconnect if its
      levels were rejected; and the answer to a gap, a disconnect of every symbol where connection order
      is trusted, else one more connect of this one. */
  function Delivered(cfg: Config, st: State, symbol: Symbol, input: Input, s: Symbol): seq<Input>
    requires symbol in st.syncs
  {
    var actions := Resync.Step(Policy(cfg), st.syncs[symbol], input).actions;
    var rejected := Rejected(cfg, symbol, actions);
    (if s == symbol then [input] + (if rejected then [Disconnected] else []) else []) +
    (if !rejected && InvalidateVenue !in actions then []
     else if Trusts(cfg) then [Disconnected]
     else if s == symbol then [Connected] else [])
  }

  function DeliveredBy(cfg: Config, st: State, ev: Event, s: Symbol): seq<Input> {
    match ev
    case ConnectOk => if st.phase.Connecting? then [Connected] else []
    case Drop => if st.phase.Connecting? || st.phase.Online? then [Disconnected] else []
    case DepthArrives(symbol, e) =>
      if st.phase.Online? && symbol in st.syncs then Delivered(cfg, st, symbol, Depth(e), s) else []
    case SnapshotArrives(symbol, snap) =>
      if st.phase.Online? && symbol in st.syncs then Delivered(cfg, st, symbol, Snapshot(snap), s) else []
    case FetchDone(symbol, body) =>
      if symbol in st.running && symbol in st.syncs && ViaRest(cfg) && !st.stopping && body.Parsed?
      then Delivered(cfg, st, symbol, Snapshot(body.snapshot), s) else []
    case _ => []
  }

  /** Everything a run delivers to one symbol. */
  function Deliveries(cfg: Config, symbols: set<Symbol>, events: seq<Event>, s: Symbol): seq<Input> {
    if events == [] then []
    else
      var init := events[..|events| - 1];
      Deliveries(cfg, symbols, init, s) + DeliveredBy(cfg, Reach(cfg, symbols, init), events[|events| - 1], s)
  }

  /** Several inputs in a row. */
  function Feed(policy: SequencePolicy, s: Sync, inputs: seq<Input>): Sync {
    if inputs == [] then s else Resync.Step(policy, Feed(policy, s, inputs[..|inputs| - 1]), inputs[|inputs| - 1]).sync
  }

  lemma {:induction false} RunFeeds(policy: SequencePolicy, a: seq<Input>, b: seq<Input>)
    ensures Run(policy, a + b).sync == Feed(policy, Run(policy, a).sync, b)
    decreases |b|
  {
    if b == [] {
      assert a + b == a;
    } else {
      var init, last := b[..|b| - 1], b[|b| - 1];
      assert a + b == (a + init) + [last];
      RunFeeds(policy, a, init);
      Conservation.RunSnoc(policy, a + init, last);
    }
  }

  lemma FeedOne(policy: SequencePolicy, s: Sync, i: Input)
    ensures Feed(policy, s, []) == s
    ensures Feed(policy, s, [i]) == Resync.Step(policy, s, i).sync
  {
    assert [i][..0] == [];
  }

  lemma FeedMore(policy: SequencePolicy, s: Sync, inputs: seq<Input>, i: Input)
    ensures Feed(policy, s, inputs + [i]) == Resync.Step(policy, Feed(policy, s, inputs), i).sync
  {
    assert (inputs + [i])[..|inputs|] == inputs;
  }

  /** What a delivery leaves, in its three parts. */
  lemma DeliveredLeaves(cfg: Config, st: State, symbol: Symbol, input: Input, s: Symbol)
    requires symbol in st.syncs && s in st.syncs
    ensures
      var out := Resync.Step(Policy(cfg), st.syncs[symbol], input);
      var rejected := Rejected(cfg, symbol, out.actions);
      var gap := rejected || InvalidateVenue in out.actions;
      var own := if s != symbol then st.syncs[s] else if rejected then FRESH else out.sync;
      Feed(Policy(cfg), st.syncs[s], Delivered(cfg, st, symbol, input, s))
        == if gap && Trusts(cfg) then FRESH else if gap && s == symbol then OnConnected(own).sync else own
  {
    var policy, s0 := Policy(cfg), st.syncs[s];
    var out := Resync.Step(policy, st.syncs[symbol], input);
    var own := if s == symbol then [input] + (if Rejected(cfg, symbol, out.actions) then [Disconnected] else []) else [];
    FeedOne(policy, s0, input);
    FeedMore(policy, s0, [input], Disconnected);
    FeedMore(policy, s0, own, Disconnected);
    FeedMore(policy, s0, own, Connected);
    assert own + [] == own && [input] + [] == [input];
  }

  lemma SettleLeaves(cfg: Config, st: State, symbol: Symbol, input: Input, s: Symbol)
    requires symbol in st.syncs && s in st.syncs
    ensures
      var out := Resync.Step(Policy(cfg), st.syncs[symbol], input);
      var rejected := Rejected(cfg, symbol, out.actions);
      var gap := rejected || InvalidateVenue in out.actions;
      var own := if s != symbol then st.syncs[s] else if rejected then FRESH else out.sync;
      var b := Settle(cfg, st, symbol, out);
      && s in b.syncs
      && b.syncs[s] == if gap && Trusts(cfg) then FRESH else if gap && s == symbol then OnConnected(own).sync else own
  {
    var out := Resync.Step(Policy(cfg), st.syncs[symbol], input);
    if InvalidateVenue in out.actions { InvalidationWantsSnapshot(Policy(cfg), st.syncs[symbol], input); }
    SettleCases(cfg, st, symbol, out);
  }

  lemma SettleDelivers(cfg: Config, st: State, symbol: Symbol, input: Input, s: Symbol)
    requires symbol in st.syncs && s in st.syncs
    ensures
      var b := Settle(cfg, st, symbol, Resync.Step(Policy(cfg), st.syncs[symbol], input));
      s in b.syncs && b.syncs[s] == Feed(Policy(cfg), st.syncs[s], Delivered(cfg, st, symbol, input, s))
  {
    SettleLeaves(cfg, st, symbol, input, s);
    DeliveredLeaves(cfg, st, symbol, input, s);
  }

  lemma QuietDelivers(cfg: Config, st: State, ev: Event, s: Symbol)
    requires Sound(cfg, st) && s in st.syncs && !ev.DepthArrives? && !ev.SnapshotArrives? && !ev.FetchDone?
    ensures s in Session.Step(cfg, st, ev).syncs
    ensures Session.Step(cfg, st, ev).syncs[s] == Feed(Policy(cfg), st.syncs[s], DeliveredBy(cfg, st, ev, s))
  {
    FeedOne(Policy(cfg), st.syncs[s], Connected);
    FeedOne(Policy(cfg), st.syncs[s], Disconnected);
  }

  lemma FetchDelivers(cfg: Config, st: State, symbol: Symbol, body: Body, s: Symbol)
    requires Sound(cfg, st) && s in st.syncs && symbol in st.running
    ensures s in FetchReturns(cfg, st, symbol, body).syncs
    ensures FetchReturns(cfg, st, symbol, body).syncs[s]
         == Feed(Policy(cfg), st.syncs[s], DeliveredBy(cfg, st, FetchDone(symbol, body), s))
  {
    if !Discarded(cfg, st, symbol, body) {
      SettleDelivers(cfg, Returned(st, symbol), symbol, Snapshot(body.snapshot), s);
    }
  }

  lemma StepDelivers(cfg: Config, st: State, ev: Event, s: Symbol)
    requires Sound(cfg, st) && s in st.syncs
    ensures s in Session.Step(cfg, st, ev).syncs
    ensures Session.Step(cfg, st, ev).syncs[s] == Feed(Policy(cfg), st.syncs[s], DeliveredBy(cfg, st, ev, s))
  {
    match ev
    case DepthArrives(symbol, e) =>
      if st.phase.Online? && symbol in st.syncs { SettleDelivers(cfg, st, symbol, Depth(e), s); }
    case SnapshotArrives(symbol, snap) =>
      if st.phase.Online? && symbol in st.syncs { SettleDelivers(cfg, st, symbol, Snapshot(snap), s); }
    case FetchDone(symbol, body) =>
      if symbol in st.running { FetchDelivers(cfg, st, symbol, body, s); }
    case _ => QuietDelivers(cfg, st, ev, s);
  }

  /** Refinement: over every run of the driver each symbol's state machine is exactly where the state
      machine alone ends up on what was delivered to it. */
  lemma {:induction false} SymbolsRunTheirMachine(cfg: Config, symbols: set<Symbol>, events: seq<Event>, s: Symbol)
    requires s in symbols
    ensures s in Reach(cfg, symbols, events).syncs
    ensures Reach(cfg, symbols, events).syncs[s] == Run(Policy(cfg), Deliveries(cfg, symbols, events, s)).sync
  {
    if events != [] {
      var init, ev := events[..|events| - 1], events[|events| - 1];
      SymbolsRunTheirMachine(cfg, symbols, init, s);
      RunSound(cfg, symbols, init);
      StepDelivers(cfg, Reach(cfg, symbols, init), ev, s);
      RunFeeds(Policy(cfg), Deliveries(cfg, symbols, init, s), DeliveredBy(cfg, Reach(cfg, symbols, init), ev, s));
    }
  }

  // ----- every symbol online has been asked for -----

  /** Online, every symbol is Live or its snapshot has been requested. */
  ghost predicate AllAsked(st: State) {
    st.phase.Online? ==> forall s :: s in st.syncs ==> st.syncs[s].live || st.syncs[s].requested
  }

  lemma OutcomeAsked(policy: SequencePolicy, s: Sync, input: Input)
    requires (s.live || s.requested) && (input.Depth? || input.Snapshot?)
    ensures
      var out := Resync.Step(policy, s, input);
      out.sync.live || out.sync.requested || InvalidateVenue in out.actions
  {
    var out := Resync.Step(policy, s, input);
    RequestedAfter(policy, s, input);
    if input.Snapshot? { SnapshotOutcome(policy, s, input.snapshot); }
  }

  lemma SettleAsked(cfg: Config, st: State, symbol: Symbol, input: Input)
    requires symbol in st.syncs && (input.Depth? || input.Snapshot?)
    requires forall s :: s in st.syncs ==> st.syncs[s].live || st.syncs[s].requested
    ensures AllAsked(Settle(cfg, st, symbol, Resync.Step(Policy(cfg), st.syncs[symbol], input)))
  {
    var out := Resync.Step(Policy(cfg), st.syncs[symbol], input);
    OutcomeAsked(Policy(cfg), st.syncs[symbol], input);
    if InvalidateVenue in out.actions { InvalidationWantsSnapshot(Policy(cfg), st.syncs[symbol], input); }
    SettleCases(cfg, st, symbol, out);
  }

  lemma FetchAsked(cfg: Config, st: State, symbol: Symbol, body: Body)
    requires Sound(cfg, st) && AllAsked(st) && symbol in st.running
    ensures AllAsked(FetchReturns(cfg, st, symbol, body))
  {
    if !Discarded(cfg, st, symbol, body) {
      if st.phase.Online? {
        SettleAsked(cfg, Returned(st, symbol), symbol, Snapshot(body.snapshot));
      } else {
        OfflineFetch(cfg, Returned(st, symbol), symbol, body.snapshot);
      }
    }
  }

  lemma StepAsked(cfg: Config, st: State, ev: Event)
    requires Sound(cfg, st) && AllAsked(st)
    ensures AllAsked(Session.Step(cfg, st, ev))
  {
    match ev
    case DepthArrives(symbol, e) =>
      if st.phase.Online? && symbol in st.syncs { SettleAsked(cfg, st, symbol, Depth(e)); }
    case SnapshotArrives(symbol, snap) =>
      if st.phase.Online? && symbol in st.syncs { SettleAsked(cfg, st, symbol, Snapshot(snap)); }
    case FetchDone(symbol, body) =>
      if symbol in st.running { FetchAsked(cfg, st, symbol, body); }
    case _ =>
  }

  lemma {:induction false} RunAsked(cfg: Config, symbols: set<Symbol>, events: seq<Event>)
    ensures AllAsked(Reach(cfg, symbols, events))
  {
    if events != [] {
      var init := events[..|events| - 1];
      RunAsked(cfg, symbols, init);
      RunSound(cfg, symbols, init);
      StepAsked(cfg, Reach(cfg, symbols, init), events[|events| - 1]);
    }
  }

  // ----- coming online -----

  /** Several steps in a row. */
  function Steps(cfg: Config, st: State, events: seq<Event>): State {
    if events == [] then st
    else Session.Step(cfg, Steps(cfg, st, events[..|events| - 1]), events[|events| - 1])
  }

  lemma {:induction false} ReachSteps(cfg: Config, symbols: set<Symbol>, events: seq<Event>, more: seq<Event>)
    ensures Reach(cfg, symbols, events + more) == Steps(cfg, Reach(cfg, symbols, events), more)
    decreases |more|
  {
    if more == [] {
      assert events + more == events;
    } else {
      var init, last := more[..|more| - 1], more[|more| - 1];
      assert events + more == (events + init) + [last];
      ReachSteps(cfg, symbols, events, init);
      ReachSnoc(cfg, symbols, events + init, last);
    }
  }

  lemma StepsOne(cfg: Config, st: State, a: Event)
    ensures Steps(cfg, st, [a]) == Session.Step(cfg, st, a)
  {
    assert [a][..0] == [];
  }

  lemma {:induction false} StepsConcat(cfg: Config, st: State, a: seq<Event>, b: seq<Event>)
    ensures Steps(cfg, st, a + b) == Steps(cfg, Steps(cfg, st, a), b)
    decreases |b|
  {
    if b == [] {
      assert a + b == a;
    } else {
      var init, last := b[..|b| - 1], b[|b| - 1];
      assert (a + b)[..|a + b| - 1] == a + init;
      StepsConcat(cfg, st, a, init);
    }
  }

  /** What is left to wait for before the venue is connected: start, resume, the backoff, a connect. */
  function WaitsUp(phase: Phase): seq<Event> {
    match phase
    case Idle => [Start, Resume, ConnectOk]
    case Spawned => [Resume, ConnectOk]
    case Connecting => [ConnectOk]
    case BackingOff => [BackoffElapsed, ConnectOk]
    case _ => []
  }

  lemma WaitsReachConnecting(cfg: Config, st: State)
    requires !st.stopping && !st.phase.Online? && !st.phase.Draining? && !st.phase.Done?
    ensures
      var waits := WaitsUp(st.phase);
      Steps(cfg, st, waits) == ConnectAll(st.(phase := Connecting))
  {
    var waits := WaitsUp(st.phase);
    StepsOne(cfg, st.(phase := Connecting), ConnectOk);
    match st.phase
    case Idle =>
      assert waits == [Start] + [Resume] + [ConnectOk];
      StepsOne(cfg, st, Start);
      StepsOne(cfg, st.(phase := Spawned), Resume);
      StepsConcat(cfg, st, [Start], [Resume]);
      StepsConcat(cfg, st, [Start] + [Resume], [ConnectOk]);
    case Spawned =>
      assert waits == [Resume] + [ConnectOk];
      StepsOne(cfg, st, Resume);
      StepsConcat(cfg, st, [Resume], [ConnectOk]);
    case BackingOff =>
      assert waits == [BackoffElapsed] + [ConnectOk];
      StepsOne(cfg, st, BackoffElapsed);
      StepsConcat(cfg, st, [BackoffElapsed], [ConnectOk]);
    case Connecting =>
      assert st.(phase := Connecting) == st;
  }

  /** Progress: from every reachable state that is not stopping, the remaining waits bring the venue
      online, with every symbol Live or asked for; and on a fresh connection every symbol's snapshot
      fetch is in flight. */
  lemma ComesOnline(cfg: Config, symbols: set<Symbol>, events: seq<Event>)
    requires !Reach(cfg, symbols, events).stopping
    ensures
      var st := Reach(cfg, symbols, events);
      var up := Reach(cfg, symbols, events + WaitsUp(st.phase));
      && up.phase.Online? && !up.stopping
      && (forall s :: s in symbols ==> s in up.syncs && (up.syncs[s].live || up.syncs[s].requested))
      && (!st.phase.Online? ==> forall s :: s in symbols ==> s in up.running)
  {
    var st := Reach(cfg, symbols, events);
    var waits := WaitsUp(st.phase);
    RunSound(cfg, symbols, events);
    RunAsked(cfg, symbols, events + waits);
    ReachSteps(cfg, symbols, events, waits);
    forall s | s in symbols
      ensures s in Reach(cfg, symbols, events + waits).syncs && s in st.syncs
    {
      SymbolsRunTheirMachine(cfg, symbols, events + waits, s);
      SymbolsRunTheirMachine(cfg, symbols, events, s);
    }
    if !st.phase.Online? {
      WaitsReachConnecting(cfg, st);
      FreshConnectFetches(st.(phase := Connecting));
    } else {
      assert events + waits == events;
    }
  }

  lemma FreshConnectFetches(st: State)
    requires !st.stopping && forall s :: s in st.syncs ==> st.syncs[s] == FRESH
    ensures
      var up := ConnectAll(st);
      up.phase.Online? && !up.stopping && forall s :: s in st.syncs ==> s in up.running
  {
  }

  // ----- shutting down -----

  /** What is left to wait for once stopping, before fetches are drained. */
  function WaitsDown(phase: Phase): seq<Event> {
    match phase
    case Idle => [Start]
    case Spawned => [Resume]
    case Connecting => [Drop]
    case Online => [Drop]
    case BackingOff => [BackoffElapsed]
    case _ => []
  }

  /** A fetch returns, with any body, or leaves the list, or the drain poll comes round. */
  predicate Draining(ev: Event, body: Body) {
    (ev.FetchDone? && ev.body == body) || ev.FetchErased? || ev.DrainPoll?
  }

  lemma {:induction false} DrainCompletes(cfg: Config, st: State, body: Body) returns (rest: seq<Event>)
    requires st.stopping && st.phase.Draining?
    ensures Steps(cfg, st, rest).phase.Done?
    ensures forall i :: 0 <= i < |rest| ==> Draining(rest[i], body)
    decreases Outstanding(st)
  {
    var ev;
    if st.running != multiset{} {
      var symbol :| symbol in st.running;
      ev := FetchDone(symbol, body);
      assert |st.running - multiset{symbol}| == |st.running| - 1;
    } else if st.finished > 0 {
      ev := FetchErased;
    } else {
      ev := DrainPoll;
    }
    StepsOne(cfg, st, ev);
    var next := Session.Step(cfg, st, ev);
    if ev.DrainPoll? {
      rest := [ev];
    } else {
      var later := DrainCompletes(cfg, next, body);
      rest := [ev] + later;
      StepsConcat(cfg, st, [ev], later);
    }
  }

  /** Progress after stop(): from every reachable state, stopping, the one wait that is pending and the
      returns of whatever fetches are in flight, with any bodies, complete the session. */
  lemma StopCompletes(cfg: Config, symbols: set<Symbol>, events: seq<Event>, body: Body) returns (rest: seq<Event>)
    ensures forall i :: 0 <= i < |rest| ==> Draining(rest[i], body)
    ensures
      var waits := WaitsDown(Reach(cfg, symbols, events).phase);
      Reach(cfg, symbols, events + [Stop] + waits + rest).phase.Done?
  {
    var st := Reach(cfg, symbols, events);
    var waits := WaitsDown(st.phase);
    ReachSnoc(cfg, symbols, events, Stop);
    ReachSteps(cfg, symbols, events + [Stop], waits);
    if waits != [] { StepsOne(cfg, st.(stopping := true), waits[0]); }
    var down := Reach(cfg, symbols, events + [Stop] + waits);
    if down.phase.Done? {
      rest := [];
      assert events + [Stop] + waits + rest == events + [Stop] + waits;
    } else {
      rest := DrainCompletes(cfg, down, body);
      ReachSteps(cfg, symbols, events + [Stop] + waits, rest);
    }
  }
}
