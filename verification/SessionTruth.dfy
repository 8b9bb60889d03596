/** The driver's books against its state machines, and against the exchange. */
module SessionTruth {
  import opened Levels
  import opened Resync
  import opened Session
  import opened SessionSafety
  import Traces
  import opened Truth

  // ----- a batch decides whether the venue is in the book -----

  predicate IsApply(a: Action) {
    a.ApplySnapshot? || a.ApplyDelta?
  }

  predicate PresentAfter(before: bool, actions: seq<Action>) {
    if actions == [] then before
    else
      var a := actions[|actions| - 1];
      if a.RequestSnapshot? then PresentAfter(before, actions[..|actions| - 1]) else IsApply(a) && ValidAction(a)
  }

  lemma {:induction false} ExecutePresence(cfg: Config, st: State, symbol: Symbol, actions: seq<Action>)
    requires symbol in cfg.registered
    ensures symbol in ExecuteAll(cfg, st, symbol, actions).state.books <==> PresentAfter(symbol in st.books, actions)
  {
    if actions != [] {
      ExecutePresence(cfg, st, symbol, actions[..|actions| - 1]);
    }
  }

  lemma {:induction false} PresenceObserved(policy: SequencePolicy, v: Traces.Observed, actions: seq<Action>)
    requires forall i :: 0 <= i < |actions| ==> ValidAction(actions[i])
    ensures PresentAfter(!v.Absent?, actions) <==> !Traces.AfterAll(v, actions).Absent?
  {
    if actions != [] {
      var init, a := actions[..|actions| - 1], actions[|actions| - 1];
      PresenceObserved(policy, v, init);
      assert actions == init + [a] && [a][1..] == [];
      Traces.AcceptsConcat(policy, v, init, [a]);
      assert ValidAction(a);
    }
  }

  /** A request never shares a batch with an apply. */
  lemma RequestsAlone(policy: SequencePolicy, s: Sync, input: Input)
    ensures var acts := Resync.Step(policy, s, input).actions;
      acts != [] && acts[|acts| - 1] == RequestSnapshot ==> acts == [RequestSnapshot]
  {
    if input.Snapshot? {
      var kept := Survivors(policy, s.buffer, input.snapshot);
      var b := BridgeIndex(policy, kept, input.snapshot);
      if b < |kept| {
        var tail := kept[b..];
        var n := RunLength(policy, tail);
        var acts := Resync.Step(policy, s, input).actions;
        assert n == |tail| ==> acts[|acts| - 1] == Deltas(tail[..n])[n - 1];
      }
    }
  }

  // ----- driver/book agreement -----

  ghost predicate AgreesAt(cfg: Config, st: State, s: Symbol) {
    s in st.syncs && s in cfg.registered ==> (s in st.books <==> st.syncs[s].live)
  }

  /** The venue is in a symbol's book exactly when that symbol is Live. */
  ghost predicate Agrees(cfg: Config, st: State) {
    forall s :: AgreesAt(cfg, st, s)
  }

  /** A rejected action followed, at the end of the same batch, by one the book accepts. */
  predicate Revives(cfg: Config, symbol: Symbol, actions: seq<Action>) {
    Rejected(cfg, symbol, actions) && IsApply(actions[|actions| - 1]) && ValidAction(actions[|actions| - 1])
  }

  lemma BatchAgreesIff(cfg: Config, st: State, symbol: Symbol, input: Input)
    requires symbol in st.syncs && symbol in cfg.registered
    requires SyncOk(st.syncs[symbol]) && AgreesAt(cfg, st, symbol)
    ensures
      var out := Resync.Step(Policy(cfg), st.syncs[symbol], input);
      var r := ExecuteAll(cfg, st.(syncs := st.syncs[symbol := out.sync]), symbol, out.actions).state;
      AgreesAt(cfg, r, symbol) <==> !Revives(cfg, symbol, out.actions)
  {
    var s := st.syncs[symbol];
    var out := Resync.Step(Policy(cfg), s, input);
    var st0 := st.(syncs := st.syncs[symbol := out.sync]);
    ExecuteKeeps(cfg, st0, symbol, out.actions);
    ExecutePresence(cfg, st0, symbol, out.actions);
    if Rejected(cfg, symbol, out.actions) {
      RequestsAlone(Policy(cfg), s, input);
    } else {
      Traces.StepAccepted(Policy(cfg), Observed(s), s, input);
      PresenceObserved(Policy(cfg), Observed(s), out.actions);
    }
  }

  lemma SettleAgreesIff(cfg: Config, st: State, symbol: Symbol, input: Input)
    requires symbol in st.syncs && (forall s :: s in st.books ==> s in st.syncs)
    requires SyncOk(st.syncs[symbol]) && Agrees(cfg, st)
    ensures Agrees(cfg, Settle(cfg, st, symbol, Resync.Step(Policy(cfg), st.syncs[symbol], input)))
       <==> (Trusts(cfg) || !Revives(cfg, symbol, Resync.Step(Policy(cfg), st.syncs[symbol], input).actions))
  {
    var out := Resync.Step(Policy(cfg), st.syncs[symbol], input);
    SettleCases(cfg, st, symbol, out);
    var b := Settle(cfg, st, symbol, out);
    var r := ExecuteAll(cfg, st.(syncs := st.syncs[symbol := out.sync]), symbol, out.actions).state;
    if symbol in cfg.registered {
      BatchAgreesIff(cfg, st, symbol, input);
    }
    if (Rejected(cfg, symbol, out.actions) || InvalidateVenue in out.actions) && Trusts(cfg) {
      assert forall s :: s in b.syncs ==> b.syncs[s] == FRESH && s !in b.books;
    } else {
      forall s | s != symbol
        ensures AgreesAt(cfg, b, s)
      {
        assert AgreesAt(cfg, st, s);
      }
      assert AgreesAt(cfg, b, symbol) <==> AgreesAt(cfg, r, symbol);
    }
  }

  /** The actions a step executes. */
  function BatchOf(cfg: Config, st: State, ev: Event): seq<Action> {
    match ev
    case DepthArrives(symbol, e) =>
      if st.phase.Online? && symbol in st.syncs then OnDepthUpdate(Policy(cfg), st.syncs[symbol], e).actions else []
    case SnapshotArrives(symbol, snap) =>
      if st.phase.Online? && symbol in st.syncs then OnSnapshot(Policy(cfg), st.syncs[symbol], snap).actions else []
    case FetchDone(symbol, body) =>
      if symbol !in st.running || Discarded(cfg, st, symbol, body) then []
      else OnSnapshot(Policy(cfg), st.syncs[symbol], body.snapshot).actions
    case _ => []
  }

  predicate RevivingStep(cfg: Config, st: State, ev: Event) {
    !Trusts(cfg) && (ev.DepthArrives? || ev.SnapshotArrives? || ev.FetchDone?) &&
    Revives(cfg, ev.symbol, BatchOf(cfg, st, ev))
  }

  /** A fetched body that is not discarded settles like a snapshot on the wire. */
  lemma FetchSettles(cfg: Config, st: State, symbol: Symbol, snap: SnapshotMessage)
    requires symbol in st.running && symbol in st.syncs && ViaRest(cfg) && !st.stopping
    ensures
      var after := Returned(st, symbol);
      var out := Resync.Step(Policy(cfg), after.syncs[symbol], Snapshot(snap));
      && FetchReturns(cfg, st, symbol, Parsed(snap)) == Settle(cfg, after, symbol, out)
      && BatchOf(cfg, st, FetchDone(symbol, Parsed(snap))) == out.actions
      && !Trusts(cfg)
  {
  }

  lemma FetchAgreesIff(cfg: Config, st: State, symbol: Symbol, body: Body)
    requires Sound(cfg, st) && Agrees(cfg, st) && symbol in st.running
    ensures Agrees(cfg, FetchReturns(cfg, st, symbol, body)) <==> !RevivingStep(cfg, st, FetchDone(symbol, body))
  {
    var after := Returned(st, symbol);
    assert Agrees(cfg, after) by {
      assert forall s :: AgreesAt(cfg, after, s) <==> AgreesAt(cfg, st, s);
    }
    if ViaRest(cfg) && !st.stopping && body.Parsed? {
      FetchSettles(cfg, st, symbol, body.snapshot);
      SettleAgreesIff(cfg, after, symbol, Snapshot(body.snapshot));
    } else {
      assert BatchOf(cfg, st, FetchDone(symbol, body)) == [];
    }
  }

  lemma StepAgreesIff(cfg: Config, st: State, ev: Event)
    requires Sound(cfg, st) && Agrees(cfg, st)
    ensures Agrees(cfg, Session.Step(cfg, st, ev)) <==> !RevivingStep(cfg, st, ev)
  {
    match ev
    case DepthArrives(symbol, e) =>
      if st.phase.Online? && symbol in st.syncs { SettleAgreesIff(cfg, st, symbol, Depth(e)); }
    case SnapshotArrives(symbol, snap) =>
      if st.phase.Online? && symbol in st.syncs { SettleAgreesIff(cfg, st, symbol, Snapshot(snap)); }
    case FetchDone(symbol, body) =>
      if symbol in st.running { FetchAgreesIff(cfg, st, symbol, body); }
    case _ => AgreeQuietly(cfg, st, ev);
  }

  lemma AgreeQuietly(cfg: Config, st: State, ev: Event)
    requires Sound(cfg, st) && Agrees(cfg, st) && !ev.DepthArrives? && !ev.SnapshotArrives? && !ev.FetchDone?
    ensures Agrees(cfg, Session.Step(cfg, st, ev))
  {
    var next := Session.Step(cfg, st, ev);
    forall s
      ensures AgreesAt(cfg, next, s)
    {
      assert AgreesAt(cfg, st, s);
    }
  }

  /** Agreement after every step of the run. */
  ghost predicate AlwaysAgrees(cfg: Config, symbols: set<Symbol>, events: seq<Event>) {
    Agrees(cfg, Reach(cfg, symbols, events)) &&
    (events != [] ==> AlwaysAgrees(cfg, symbols, events[..|events| - 1]))
  }

  predicate NeverRevives(cfg: Config, symbols: set<Symbol>, events: seq<Event>) {
    events != [] ==>
      var init := events[..|events| - 1];
      !RevivingStep(cfg, Reach(cfg, symbols, init), events[|events| - 1]) && NeverRevives(cfg, symbols, init)
  }

  /** Driver/book agreement over a run, exactly: between any two strand steps the venue is in a
      symbol's book iff the symbol is Live, if and only if no step of a REST venue revives. */
  lemma {:induction false} RunAgreesIff(cfg: Config, symbols: set<Symbol>, events: seq<Event>)
    ensures AlwaysAgrees(cfg, symbols, events) <==> NeverRevives(cfg, symbols, events)
  {
    if events == [] {
      var st := Initial(symbols);
      assert forall s :: AgreesAt(cfg, st, s);
    } else {
      var init := events[..|events| - 1];
      RunAgreesIff(cfg, symbols, init);
      RunSound(cfg, symbols, init);
      if AlwaysAgrees(cfg, symbols, init) {
        StepAgreesIff(cfg, Reach(cfg, symbols, init), events[|events| - 1]);
      }
    }
  }

  // ----- valid levels never revive -----

  predicate ValidInput(input: Input) {
    match input
    case Depth(e) => ValidAction(ApplyDelta(e))
    case Snapshot(snap) => ValidAction(ApplySnapshot(snap))
    case _ => true
  }

  ghost predicate ValidBuffer(buffer: seq<DepthUpdate>) {
    forall i :: 0 <= i < |buffer| ==> ValidAction(ApplyDelta(buffer[i]))
  }

  ghost predicate ValidBatch(actions: seq<Action>) {
    forall i :: 0 <= i < |actions| ==> ValidAction(actions[i])
  }

  lemma ReplayValid(policy: SequencePolicy, s: Sync, snap: SnapshotMessage, tail: seq<DepthUpdate>)
    requires tail != [] && ValidBuffer(tail) && ValidAction(ApplySnapshot(snap))
    ensures ValidBuffer(Replay(policy, s, snap, tail).sync.buffer) && ValidBatch(Replay(policy, s, snap, tail).actions)
  {
    var n := RunLength(policy, tail);
    var deltas := Deltas(tail[..n]);
    assert ValidBatch(deltas) by {
      assert forall i :: 0 <= i < n ==> deltas[i] == ApplyDelta(tail[i]);
    }
    assert ValidAction(InvalidateVenue);
  }

  lemma OutcomeValid(policy: SequencePolicy, s: Sync, input: Input)
    requires ValidBuffer(s.buffer) && ValidInput(input)
    ensures ValidBuffer(Resync.Step(policy, s, input).sync.buffer)
    ensures ValidBatch(Resync.Step(policy, s, input).actions)
  {
    if input.Snapshot? {
      var kept := Survivors(policy, s.buffer, input.snapshot);
      assert ValidBuffer(kept) by {
        forall i | 0 <= i < |kept|
          ensures ValidAction(ApplyDelta(kept[i]))
        {
          assert kept[i] in kept;
        }
      }
      var b := BridgeIndex(policy, kept, input.snapshot);
      if b < |kept| { ReplayValid(policy, s, input.snapshot, kept[b..]); }
    }
  }

  function InputOf(ev: Event): Input {
    match ev
    case DepthArrives(_, e) => Depth(e)
    case SnapshotArrives(_, snap) => Snapshot(snap)
    case FetchDone(_, Parsed(snap)) => Snapshot(snap)
    case _ => Connected
  }

  ghost predicate ValidBuffers(st: State) {
    forall s :: s in st.syncs ==> ValidBuffer(st.syncs[s].buffer)
  }

  lemma SettleValid(cfg: Config, st: State, symbol: Symbol, input: Input)
    requires symbol in st.syncs && ValidBuffers(st) && ValidInput(input)
    ensures ValidBuffers(Settle(cfg, st, symbol, Resync.Step(Policy(cfg), st.syncs[symbol], input)))
    ensures !Rejected(cfg, symbol, Resync.Step(Policy(cfg), st.syncs[symbol], input).actions)
  {
    var out := Resync.Step(Policy(cfg), st.syncs[symbol], input);
    OutcomeValid(Policy(cfg), st.syncs[symbol], input);
    if InvalidateVenue in out.actions { InvalidationWantsSnapshot(Policy(cfg), st.syncs[symbol], input); }
    forall s | s in st.syncs
      ensures ValidBuffer(Settle(cfg, st, symbol, out).syncs[s].buffer)
    {
      SettledSymbol(cfg, st, symbol, out, s);
    }
  }

  lemma FetchValid(cfg: Config, st: State, symbol: Symbol, body: Body)
    requires ValidBuffers(st) && ValidInput(InputOf(FetchDone(symbol, body))) && symbol in st.running
    ensures ValidBuffers(FetchReturns(cfg, st, symbol, body)) && !RevivingStep(cfg, st, FetchDone(symbol, body))
  {
    var after := Returned(st, symbol);
    if symbol in st.syncs && ViaRest(cfg) && !st.stopping && body.Parsed? {
      FetchSettles(cfg, st, symbol, body.snapshot);
      SettleValid(cfg, after, symbol, Snapshot(body.snapshot));
    } else {
      assert BatchOf(cfg, st, FetchDone(symbol, body)) == [];
    }
  }

  lemma StepValid(cfg: Config, st: State, ev: Event)
    requires ValidBuffers(st) && ValidInput(InputOf(ev))
    ensures ValidBuffers(Session.Step(cfg, st, ev)) && !RevivingStep(cfg, st, ev)
  {
    match ev
    case DepthArrives(symbol, e) =>
      if symbol in st.syncs { SettleValid(cfg, st, symbol, Depth(e)); }
    case SnapshotArrives(symbol, snap) =>
      if symbol in st.syncs { SettleValid(cfg, st, symbol, Snapshot(snap)); }
    case FetchDone(symbol, body) =>
      if symbol in st.running {
        FetchValid(cfg, st, symbol, body);
      } else {
        assert BatchOf(cfg, st, ev) == [];
      }
    case _ =>
  }

  /** With valid levels every venue's books agree with its symbols at every point of every run. */
  lemma {:induction false} ValidLevelsAgree(cfg: Config, symbols: set<Symbol>, events: seq<Event>)
    requires forall i :: 0 <= i < |events| ==> ValidInput(InputOf(events[i]))
    ensures ValidBuffers(Reach(cfg, symbols, events))
    ensures AlwaysAgrees(cfg, symbols, events)
  {
    if events != [] {
      var init := events[..|events| - 1];
      ValidLevelsAgree(cfg, symbols, init);
      StepValid(cfg, Reach(cfg, symbols, init), events[|events| - 1]);
      RunAgreesIff(cfg, symbols, init);
    }
    RunAgreesIff(cfg, symbols, events);
  }

  /** Start, connect and buffer one event: the symbol is Buffering with its snapshot fetch in flight. */
  lemma BufferedOnce(cfg: Config, e: DepthUpdate)
    requires ViaRest(cfg)
    ensures Reach(cfg, {"S"}, [Start, Resume, ConnectOk, DepthArrives("S", e)])
         == State(Online, false, map["S" := Sync(false, [e], 0, true)], map[], multiset{"S"}, 0)
  {
    var s3 := State(Online, false, map["S" := FRESH.(requested := true)], map[], multiset{"S"}, 0);
    ConnectedOnce(cfg);
    ReachSnoc(cfg, {"S"}, [Start, Resume, ConnectOk], DepthArrives("S", e));
    assert [Start, Resume, ConnectOk] + [DepthArrives("S", e)] == [Start, Resume, ConnectOk, DepthArrives("S", e)];
    BufferingOneEvent(cfg, s3, e);
    assert [] + [e] == [e];
    assert s3.syncs["S" := Sync(false, [e], 0, true)] == map["S" := Sync(false, [e], 0, true)];
  }

  lemma BufferingOneEvent(cfg: Config, st: State, e: DepthUpdate)
    requires st.phase.Online? && "S" in st.syncs && !st.syncs["S"].live
    ensures Session.Step(cfg, st, DepthArrives("S", e))
         == st.(syncs := st.syncs["S" := st.syncs["S"].(buffer := st.syncs["S"].buffer + [e])])
  {
    var out := OnDepthUpdate(Policy(cfg), st.syncs["S"], e);
    assert out.actions == [];
    assert ExecuteAll(cfg, st.(syncs := st.syncs["S" := out.sync]), "S", []).gap == false;
  }

  /** The batch a snapshot bridged by the one buffered event asks for. */
  lemma BridgedBatch(e: DepthUpdate, snap: SnapshotMessage)
    requires PolicyOf(BinanceSpot).bridgesSnapshot(e, snap)
    ensures OnSnapshot(PolicyOf(BinanceSpot), Sync(false, [e], 0, true), snap).actions
         == [ApplySnapshot(snap), ApplyDelta(e)]
  {
    var policy := PolicyOf(BinanceSpot);
    assert [e][1..] == [];
    assert Survivors(policy, [e], snap) == [e];
    assert BridgeIndex(policy, [e], snap) == 0;
    assert [e][0..] == [e] && [e][..1] == [e];
    assert RunLength(policy, [e]) == 1;
  }

  /** Without them a run can leave a REST venue in the book while its symbol is Buffering: the
      snapshot is rejected, the bridging event behind it in the same batch is not. */
  lemma RejectedSnapshotRevivesVenue()
    ensures
      var e := DepthUpdate(5, 6, 0, [Level(100, 1)], []);
      var bad := SnapshotMessage([Level(100, -1)], [], 4);
      var events := [Start, Resume, ConnectOk, DepthArrives("S", e), FetchDone("S", Parsed(bad))];
      !AlwaysAgrees(Config(BinanceSpot, {"S"}), {"S"}, events)
  {
    var cfg := Config(BinanceSpot, {"S"});
    var e := DepthUpdate(5, 6, 0, [Level(100, 1)], []);
    var bad := SnapshotMessage([Level(100, -1)], [], 4);
    assert !IsValidLevel(bad.bids[0]) && IsValidLevel(e.bids[0]);
    var before := [Start, Resume, ConnectOk, DepthArrives("S", e)];
    var events := before + [FetchDone("S", Parsed(bad))];
    BufferedOnce(cfg, e);
    BadSnapshotRevives(cfg, Reach(cfg, {"S"}, before), e, bad);
    assert events[..|events| - 1] == before;
    RunAgreesIff(cfg, {"S"}, events);
    assert events == [Start, Resume, ConnectOk, DepthArrives("S", e), FetchDone("S", Parsed(bad))];
  }

  /** A rejected snapshot bridged by a valid buffered event revives. */
  lemma BadSnapshotRevives(cfg: Config, st: State, e: DepthUpdate, bad: SnapshotMessage)
    requires cfg == Config(BinanceSpot, {"S"}) && "S" in st.running && !st.stopping
    requires "S" in st.syncs && st.syncs["S"] == Sync(false, [e], 0, true)
    requires PolicyOf(BinanceSpot).bridgesSnapshot(e, bad)
    requires !ValidAction(ApplySnapshot(bad)) && ValidAction(ApplyDelta(e))
    ensures RevivingStep(cfg, st, FetchDone("S", Parsed(bad)))
  {
    BridgedBatch(e, bad);
    var acts := [ApplySnapshot(bad), ApplyDelta(e)];
    assert BatchOf(cfg, st, FetchDone("S", Parsed(bad))) == acts;
    assert !ValidAction(acts[0]) && ValidAction(acts[1]);
  }

  // ----- the driver against the exchange -----

  ghost predicate FaithfulBook(cfg: Config, xs: map<Symbol, Exchange>, st: State, s: Symbol) {
    s in st.syncs && s in cfg.registered ==>
      s in xs && Truthful(cfg.kind, xs[s], st.syncs[s], Contribution(st, s))
  }

  ghost predicate AllFaithful(cfg: Config, xs: map<Symbol, Exchange>, st: State) {
    forall s :: FaithfulBook(cfg, xs, st, s)
  }

  ghost predicate FaithfulMessage(cfg: Config, xs: map<Symbol, Exchange>, ev: Event) {
    (ev.DepthArrives? || ev.SnapshotArrives? || ev.FetchDone?) && ev.symbol in cfg.registered ==>
      ev.symbol in xs && FaithfulInput(cfg.kind, xs[ev.symbol], InputOf(ev))
  }

  ghost predicate ReliableExchanges(cfg: Config, xs: map<Symbol, Exchange>) {
    forall s :: s in xs ==> ValidExchange(xs[s]) && ReliableIds(cfg.kind, xs[s])
  }

  lemma FaithfulLevelsValid(t: Tape, levels: seq<Level>, n: nat)
    requires ValidTape(t) && States(levels, SideAt(t, n))
    requires forall i :: 0 <= i < |levels| ==> levels[i].price > 0
    ensures AllValid(levels)
  {
    SideAtWellFormed(t, n);
    forall i | 0 <= i < |levels|
      ensures IsValidLevel(levels[i])
    {
      assert levels[i].size == SizeAt(SideAt(t, n), levels[i].price);
    }
  }

  lemma FaithfulEventValid(kind: Kind, x: Exchange, e: DepthUpdate)
    requires ValidExchange(x) && FaithfulEvent(kind, x, e)
    ensures ValidAction(ApplyDelta(e))
  {
    var lo: nat, hi: nat :| Covers(kind, x, e, lo, hi);
    FaithfulLevelsValid(x.bids, e.bids, hi);
    FaithfulLevelsValid(x.asks, e.asks, hi);
  }

  lemma FaithfulSnapshotValid(x: Exchange, snap: SnapshotMessage)
    requires ValidExchange(x) && FaithfulSnapshot(x, snap)
    ensures ValidAction(ApplySnapshot(snap))
  {
    var n: nat :| SnapshotOf(x, snap, n);
    FaithfulLevelsValid(x.bids, snap.bids, n);
    FaithfulLevelsValid(x.asks, snap.asks, n);
  }

  lemma {:induction false} ExecuteIsPerform(cfg: Config, st: State, symbol: Symbol, actions: seq<Action>, x: Exchange)
    requires symbol in cfg.registered
    requires forall i :: 0 <= i < |actions| ==> ValidAction(actions[i])
    ensures Contribution(ExecuteAll(cfg, st, symbol, actions).state, symbol)
         == PerformAll(Contribution(st, symbol), actions)
  {
    if actions != [] {
      var init, a := actions[..|actions| - 1], actions[|actions| - 1];
      ExecuteIsPerform(cfg, st, symbol, init, x);
      assert actions == init + [a];
      PerformConcat(x, Contribution(st, symbol), init, [a]);
      PerformOne(x, PerformAll(Contribution(st, symbol), init), a);
      assert ValidAction(a);
    }
  }

  lemma SettleOneFaithful(cfg: Config, st: State, symbol: Symbol, input: Input, x: Exchange)
    requires symbol in st.syncs && symbol in cfg.registered
    requires ValidExchange(x) && ReliableIds(cfg.kind, x) && FaithfulInput(cfg.kind, x, input)
    requires Truthful(cfg.kind, x, st.syncs[symbol], Contribution(st, symbol))
    ensures
      var out := Resync.Step(Policy(cfg), st.syncs[symbol], input);
      var r := ExecuteAll(cfg, st.(syncs := st.syncs[symbol := out.sync]), symbol, out.actions).state;
      !Rejected(cfg, symbol, out.actions) && Truthful(cfg.kind, x, out.sync, Contribution(r, symbol))
  {
    var s := st.syncs[symbol];
    var out := Resync.Step(Policy(cfg), s, input);
    forall i | 0 <= i < |s.buffer|
      ensures ValidAction(ApplyDelta(s.buffer[i]))
    {
      FaithfulEventValid(cfg.kind, x, s.buffer[i]);
    }
    if input.Depth? { FaithfulEventValid(cfg.kind, x, input.update); }
    if input.Snapshot? { FaithfulSnapshotValid(x, input.snapshot); }
    OutcomeValid(Policy(cfg), s, input);
    ReliableIdsCohere(cfg.kind, x);
    StepTruthful(cfg.kind, x, s, Contribution(st, symbol), input);
    var st0 := st.(syncs := st.syncs[symbol := out.sync]);
    assert Contribution(st0, symbol) == Contribution(st, symbol);
    ExecuteIsPerform(cfg, st0, symbol, out.actions, x);
  }

  lemma SettleFaithful(cfg: Config, xs: map<Symbol, Exchange>, st: State, symbol: Symbol, input: Input)
    requires ReliableExchanges(cfg, xs) && AllFaithful(cfg, xs, st) && symbol in st.syncs
    requires forall s :: s in st.books ==> s in st.syncs
    requires symbol in cfg.registered ==> symbol in xs && FaithfulInput(cfg.kind, xs[symbol], input)
    ensures AllFaithful(cfg, xs, Settle(cfg, st, symbol, Resync.Step(Policy(cfg), st.syncs[symbol], input)))
  {
    var out := Resync.Step(Policy(cfg), st.syncs[symbol], input);
    if InvalidateVenue in out.actions { InvalidationWantsSnapshot(Policy(cfg), st.syncs[symbol], input); }
    forall s
      ensures FaithfulBook(cfg, xs, Settle(cfg, st, symbol, out), s)
    {
      assert FaithfulBook(cfg, xs, st, s);
      if s in st.syncs {
        SettledSymbol(cfg, st, symbol, out, s);
        if s == symbol && s in cfg.registered { SettleOneFaithful(cfg, st, symbol, input, xs[symbol]); }
      }
    }
  }

  lemma QuietFaithful(cfg: Config, xs: map<Symbol, Exchange>, st: State, ev: Event)
    requires Sound(cfg, st) && AllFaithful(cfg, xs, st)
    requires !ev.DepthArrives? && !ev.SnapshotArrives? && !ev.FetchDone?
    ensures AllFaithful(cfg, xs, Session.Step(cfg, st, ev))
  {
    var next := Session.Step(cfg, st, ev);
    forall s
      ensures FaithfulBook(cfg, xs, next, s)
    {
      assert FaithfulBook(cfg, xs, st, s);
    }
  }

  lemma FetchFaithful(cfg: Config, xs: map<Symbol, Exchange>, st: State, symbol: Symbol, body: Body)
    requires ReliableExchanges(cfg, xs) && Sound(cfg, st) && AllFaithful(cfg, xs, st) && symbol in st.running
    requires FaithfulMessage(cfg, xs, FetchDone(symbol, body))
    ensures AllFaithful(cfg, xs, FetchReturns(cfg, st, symbol, body))
  {
    var after := Returned(st, symbol);
    forall s
      ensures FaithfulBook(cfg, xs, after, s)
    {
      assert FaithfulBook(cfg, xs, st, s);
    }
    if ViaRest(cfg) && !st.stopping && body.Parsed? {
      SettleFaithful(cfg, xs, after, symbol, Snapshot(body.snapshot));
    }
  }

  lemma StepFaithful(cfg: Config, xs: map<Symbol, Exchange>, st: State, ev: Event)
    requires ReliableExchanges(cfg, xs) && Sound(cfg, st) && AllFaithful(cfg, xs, st) && FaithfulMessage(cfg, xs, ev)
    ensures AllFaithful(cfg, xs, Session.Step(cfg, st, ev))
  {
    match ev
    case DepthArrives(symbol, e) =>
      if st.phase.Online? && symbol in st.syncs { SettleFaithful(cfg, xs, st, symbol, Depth(e)); }
    case SnapshotArrives(symbol, snap) =>
      if st.phase.Online? && symbol in st.syncs { SettleFaithful(cfg, xs, st, symbol, Snapshot(snap)); }
    case FetchDone(symbol, body) =>
      if symbol in st.running { FetchFaithful(cfg, xs, st, symbol, body); }
    case _ => QuietFaithful(cfg, xs, st, ev);
  }

  lemma {:induction false} RunFaithful(
      cfg: Config, symbols: set<Symbol>, xs: map<Symbol, Exchange>, events: seq<Event>)
    requires ReliableExchanges(cfg, xs) && symbols * cfg.registered <= xs.Keys
    requires forall i :: 0 <= i < |events| ==> FaithfulMessage(cfg, xs, events[i])
    ensures AllFaithful(cfg, xs, Reach(cfg, symbols, events))
  {
    if events == [] {
      var st := Initial(symbols);
      assert forall s :: FaithfulBook(cfg, xs, st, s);
    } else {
      var init := events[..|events| - 1];
      RunFaithful(cfg, symbols, xs, init);
      RunSound(cfg, symbols, init);
      StepFaithful(cfg, xs, Reach(cfg, symbols, init), events[|events| - 1]);
    }
  }

  /** The driver end to end: over every run of connects, drops, gaps, retries and stops on faithful
      messages, each registered symbol's contribution is the exchange's book at the last applied id
      while the symbol is Live, and is absent otherwise, in particular whenever disconnected. */
  lemma SessionShowsExchangeBooks(
      cfg: Config, symbols: set<Symbol>, xs: map<Symbol, Exchange>, events: seq<Event>, symbol: Symbol)
    requires ReliableExchanges(cfg, xs) && symbols * cfg.registered <= xs.Keys
    requires forall i :: 0 <= i < |events| ==> FaithfulMessage(cfg, xs, events[i])
    requires symbol in cfg.registered && symbol in Reach(cfg, symbols, events).syncs
    ensures symbol in xs
    ensures
      var st := Reach(cfg, symbols, events);
      if st.syncs[symbol].live then
        && st.phase.Online?
        && Reflects(xs[symbol], Contribution(st, symbol), st.syncs[symbol].lastFinalId)
        && (Consecutive(xs[symbol]) ==>
              Contribution(st, symbol) == Some(BookAt(xs[symbol], st.syncs[symbol].lastFinalId)))
      else Contribution(st, symbol) == None
  {
    RunFaithful(cfg, symbols, xs, events);
    RunSound(cfg, symbols, events);
    assert FaithfulBook(cfg, xs, Reach(cfg, symbols, events), symbol);
  }
}
