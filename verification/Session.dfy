/** One venue's driver: every strand step (a dispatched message, a finished fetch, a drop, a stop)
    as an atomic transition over its symbols, their books, its connection and its fetches. */
module Session {
  import opened Levels
  import opened Resync

  type Symbol = string

  /** Where run() is: before start(), spawned but not resumed, connecting, reading, in the backoff
      wait, waiting for fetches after stop(), or completed. */
  datatype Phase = Idle | Spawned | Connecting | Online | BackingOff | Draining | Done

  /** The feed/policy pair and the symbols the registry has a book for. */
  datatype Config = Config(kind: Kind, registered: set<Symbol>)

  /** `books` holds this venue's contribution to each symbol's book; `running` the fetch coroutines
      in flight, `finished` those that returned but whose list entry is not erased yet. */
  datatype State = State(
    phase: Phase,
    stopping: bool,
    syncs: map<Symbol, Sync>,
    books: map<Symbol, Book>,
    running: multiset<Symbol>,
    finished: nat)

  datatype Body = Unparseable | Parsed(snapshot: SnapshotMessage)

  datatype Event =
    | Start
    | Resume
    | ConnectOk
    | Drop
    | BackoffElapsed
    | DepthArrives(symbol: Symbol, update: DepthUpdate)
    | SnapshotArrives(symbol: Symbol, snapshot: SnapshotMessage)
    | FetchDone(symbol: Symbol, body: Body)
    | FetchErased
    | Stop
    | DrainPoll

  function Policy(cfg: Config): SequencePolicy {
    PolicyOf(cfg.kind)
  }

  predicate Trusts(cfg: Config) {
    Policy(cfg).trustsConnectionOrder
  }

  /** The shipped feeds fetch over REST exactly when the policy does not trust connection order. */
  predicate ViaRest(cfg: Config) {
    cfg.kind.BinanceSpot? || cfg.kind.BinanceFutures?
  }

  function Initial(symbols: set<Symbol>): State {
    State(Idle, false, map s | s in symbols :: FRESH, map[], multiset{}, 0)
  }

  // ----- executing actions -----

  datatype Executed = Executed(state: State, gap: bool)

  predicate ValidAction(a: Action) {
    match a
    case ApplySnapshot(s) => AllValid(s.bids) && AllValid(s.asks)
    case ApplyDelta(e) => AllValid(e.bids) && AllValid(e.asks)
    case _ => true
  }

  function Contribution(st: State, symbol: Symbol): Option<Book> {
    if symbol in st.books then Some(st.books[symbol]) else None
  }

  /** The book refused the levels: treated as a disconnect of this one symbol. */
  function Reject(st: State, symbol: Symbol): State {
    st.(syncs := st.syncs[symbol := OnDisconnected().sync], books := st.books - {symbol})
  }

  function ExecuteAction(cfg: Config, st: State, symbol: Symbol, a: Action): Executed {
    match a
    case RequestSnapshot =>
      Executed(if st.stopping then st else st.(running := st.running + multiset{symbol}), false)
    case InvalidateVenue => Executed(st.(books := st.books - {symbol}), true)
    case ApplySnapshot(s) =>
      if symbol !in cfg.registered then Executed(st, false)
      else if !ValidAction(a) then Executed(Reject(st, symbol), true)
      else Executed(st.(books := st.books[symbol := SnapshotBook(s.bids, s.asks)]), false)
    case ApplyDelta(e) =>
      if symbol !in cfg.registered then Executed(st, false)
      else if !ValidAction(a) then Executed(Reject(st, symbol), true)
      else
        var before := Contribution(st, symbol);
        var book := if before.Some? then before.value else EMPTY_BOOK;
        Executed(st.(books := st.books[symbol := ApplyToBook(book, e.bids, e.asks)]), false)
  }

  /** Every action runs, whatever an earlier one of the batch did. */
  function ExecuteAll(cfg: Config, st: State, symbol: Symbol, actions: seq<Action>): Executed {
    if actions == [] then Executed(st, false)
    else
      var r := ExecuteAll(cfg, st, symbol, actions[..|actions| - 1]);
      var q := ExecuteAction(cfg, r.state, symbol, actions[|actions| - 1]);
      Executed(q.state, r.gap || q.gap)
  }

  lemma ExecuteSingle(cfg: Config, st: State, symbol: Symbol, a: Action)
    ensures ExecuteAll(cfg, st, symbol, [a]) == ExecuteAction(cfg, st, symbol, a)
    ensures ExecuteAll(cfg, st, symbol, []) == Executed(st, false)
  {
    assert [a][..0] == [];
  }

  // ----- steps -----

  function InvalidateAll(st: State): State {
    st.(syncs := map s | s in st.syncs :: OnDisconnected().sync, books := st.books - st.syncs.Keys)
  }

  /** The connection is gone: invalidate everything, then back off or start draining. */
  function DropConnection(st: State): State {
    InvalidateAll(st).(phase := if st.stopping then Draining else BackingOff)
  }

  predicate WantsSnapshot(s: Sync) {
    !s.live && !s.requested
  }

  function ConnectAll(st: State): State {
    var wanting := set s | s in st.syncs && WantsSnapshot(st.syncs[s]);
    st.(phase := Online,
        syncs := map s | s in st.syncs :: OnConnected(st.syncs[s]).sync,
        running := if st.stopping then st.running else st.running + multiset(wanting))
  }

  function RequestAgain(cfg: Config, st: State, symbol: Symbol): State
    requires symbol in st.syncs
  {
    var out := OnConnected(st.syncs[symbol]);
    ExecuteAll(cfg, st.(syncs := st.syncs[symbol := out.sync]), symbol, out.actions).state
  }

  /** Executes one outcome of a symbol's state machine, then answers a gap: a venue that trusts
      connection order loses its connection, a REST venue requests another snapshot. */
  function Settle(cfg: Config, st: State, symbol: Symbol, out: Outcome): State
    requires symbol in st.syncs
    ensures Settle(cfg, st, symbol, out).syncs.Keys == st.syncs.Keys
  {
    var r := ExecuteAll(cfg, st.(syncs := st.syncs[symbol := out.sync]), symbol, out.actions);
    ExecuteKeepsSymbols(cfg, st.(syncs := st.syncs[symbol := out.sync]), symbol, out.actions);
    if !r.gap then r.state
    else if Trusts(cfg) then DropConnection(r.state)
    else
      var again := OnConnected(r.state.syncs[symbol]);
      ExecuteKeepsSymbols(cfg, r.state.(syncs := r.state.syncs[symbol := again.sync]), symbol, again.actions);
      RequestAgain(cfg, r.state, symbol)
  }

  /** A fetch coroutine has returned; its list entry is erased later. */
  function Returned(st: State, symbol: Symbol): (after: State)
    ensures after.phase == st.phase && after.stopping == st.stopping
    ensures after.syncs == st.syncs && after.books == st.books
  {
    st.(running := st.running - multiset{symbol}, finished := st.finished + 1)
  }

  predicate Discarded(cfg: Config, st: State, symbol: Symbol, body: Body) {
    st.stopping || !ViaRest(cfg) || body.Unparseable? || symbol !in st.syncs
  }

  function FetchReturns(cfg: Config, st: State, symbol: Symbol, body: Body): State {
    if Discarded(cfg, st, symbol, body) then Returned(st, symbol)
    else Settle(cfg, Returned(st, symbol), symbol, OnSnapshot(Policy(cfg), st.syncs[symbol], body.snapshot))
  }

  /** One strand step; an event that cannot happen in this state changes nothing. */
  function Step(cfg: Config, st: State, ev: Event): State {
    match ev
    case Start => if st.phase.Idle? then st.(phase := if st.stopping then Done else Spawned) else st
    case Resume => if st.phase.Spawned? then st.(phase := if st.stopping then Done else Connecting) else st
    case ConnectOk => if st.phase.Connecting? then ConnectAll(st) else st
    case Drop => if st.phase.Connecting? || st.phase.Online? then DropConnection(st) else st
    case BackoffElapsed => if st.phase.BackingOff? then st.(phase := if st.stopping then Draining else Connecting) else st
    case DepthArrives(symbol, e) =>
      if st.phase.Online? && symbol in st.syncs
      then Settle(cfg, st, symbol, OnDepthUpdate(Policy(cfg), st.syncs[symbol], e)) else st
    case SnapshotArrives(symbol, snap) =>
      if st.phase.Online? && symbol in st.syncs
      then Settle(cfg, st, symbol, OnSnapshot(Policy(cfg), st.syncs[symbol], snap)) else st
    case FetchDone(symbol, body) => if symbol in st.running then FetchReturns(cfg, st, symbol, body) else st
    case FetchErased => if st.finished > 0 then st.(finished := st.finished - 1) else st
    case Stop => st.(stopping := true)
    case DrainPoll =>
      if st.phase.Draining? && st.running == multiset{} && st.finished == 0 then st.(phase := Done) else st
  }

  function Reach(cfg: Config, symbols: set<Symbol>, events: seq<Event>): State {
    if events == [] then Initial(symbols)
    else Step(cfg, Reach(cfg, symbols, events[..|events| - 1]), events[|events| - 1])
  }

  lemma ReachSnoc(cfg: Config, symbols: set<Symbol>, events: seq<Event>, ev: Event)
    ensures Reach(cfg, symbols, events + [ev]) == Step(cfg, Reach(cfg, symbols, events), ev)
  {
    assert (events + [ev])[..|events|] == events;
  }

  // ----- what executing a batch changes -----

  /** Only this symbol's sync and contribution change, and only by a rejection for the sync. */
  ghost predicate TouchesOnly(cfg: Config, a: State, b: State, symbol: Symbol) {
    && a.phase == b.phase && a.stopping == b.stopping && a.finished == b.finished
    && b.syncs.Keys == a.syncs.Keys + {symbol}
    && (forall s :: s in a.syncs && s != symbol ==> b.syncs[s] == a.syncs[s])
    && (forall s :: s in b.books ==> s in a.books || (s == symbol && symbol in cfg.registered))
    && (forall s :: s in a.books && s != symbol ==> s in b.books && b.books[s] == a.books[s])
    && a.running <= b.running
    && (forall s :: s in b.running ==> s in a.running || s == symbol)
    && (a.stopping ==> a.running == b.running)
  }

  predicate Rejected(cfg: Config, symbol: Symbol, actions: seq<Action>) {
    symbol in cfg.registered && exists i :: 0 <= i < |actions| && !ValidAction(actions[i])
  }

  lemma RejectedSnoc(cfg: Config, symbol: Symbol, actions: seq<Action>)
    requires actions != []
    ensures
      var init, a := actions[..|actions| - 1], actions[|actions| - 1];
      && (InvalidateVenue in actions <==> InvalidateVenue in init || a == InvalidateVenue)
      && (Rejected(cfg, symbol, actions) <==>
          Rejected(cfg, symbol, init) || (symbol in cfg.registered && !ValidAction(a)))
  {
    var init, a := actions[..|actions| - 1], actions[|actions| - 1];
    assert actions == init + [a];
    if Rejected(cfg, symbol, init) {
      var i :| 0 <= i < |init| && !ValidAction(init[i]);
      assert actions[i] == init[i];
    }
  }

  lemma ExecuteOneKeeps(cfg: Config, st: State, symbol: Symbol, a: Action)
    requires symbol in st.syncs
    ensures TouchesOnly(cfg, st, ExecuteAction(cfg, st, symbol, a).state, symbol)
  {
  }

  lemma TouchesTwice(cfg: Config, a: State, b: State, c: State, symbol: Symbol)
    requires TouchesOnly(cfg, a, b, symbol) && TouchesOnly(cfg, b, c, symbol)
    ensures TouchesOnly(cfg, a, c, symbol)
  {
  }

  lemma {:induction false} ExecuteKeepsSymbols(cfg: Config, st: State, symbol: Symbol, actions: seq<Action>)
    requires symbol in st.syncs
    ensures ExecuteAll(cfg, st, symbol, actions).state.syncs.Keys == st.syncs.Keys
  {
    if actions != [] { ExecuteKeepsSymbols(cfg, st, symbol, actions[..|actions| - 1]); }
  }

  lemma {:induction false} ExecuteTouches(cfg: Config, st: State, symbol: Symbol, actions: seq<Action>)
    requires symbol in st.syncs
    ensures TouchesOnly(cfg, st, ExecuteAll(cfg, st, symbol, actions).state, symbol)
  {
    if actions != [] {
      var init, a := actions[..|actions| - 1], actions[|actions| - 1];
      ExecuteTouches(cfg, st, symbol, init);
      var r := ExecuteAll(cfg, st, symbol, init);
      ExecuteOneKeeps(cfg, r.state, symbol, a);
      TouchesTwice(cfg, st, r.state, ExecuteAction(cfg, r.state, symbol, a).state, symbol);
    }
  }

  /** The batch resets the sync iff an action was rejected, and reports a gap iff one was or the
      state machine invalidated. */
  lemma {:induction false} ExecuteVerdict(cfg: Config, st: State, symbol: Symbol, actions: seq<Action>)
    requires symbol in st.syncs
    ensures
      var r := ExecuteAll(cfg, st, symbol, actions);
      && symbol in r.state.syncs
      && r.state.syncs[symbol] == (if Rejected(cfg, symbol, actions) then FRESH else st.syncs[symbol])
      && r.gap == (Rejected(cfg, symbol, actions) || InvalidateVenue in actions)
  {
    if actions != [] {
      ExecuteVerdict(cfg, st, symbol, actions[..|actions| - 1]);
      RejectedSnoc(cfg, symbol, actions);
    }
  }

  lemma ExecuteKeeps(cfg: Config, st: State, symbol: Symbol, actions: seq<Action>)
    requires symbol in st.syncs
    ensures TouchesOnly(cfg, st, ExecuteAll(cfg, st, symbol, actions).state, symbol)
    ensures ExecuteAll(cfg, st, symbol, actions).state.syncs[symbol]
         == (if Rejected(cfg, symbol, actions) then FRESH else st.syncs[symbol])
    ensures ExecuteAll(cfg, st, symbol, actions).gap
         == (Rejected(cfg, symbol, actions) || InvalidateVenue in actions)
  {
    ExecuteTouches(cfg, st, symbol, actions);
    ExecuteVerdict(cfg, st, symbol, actions);
  }
}
