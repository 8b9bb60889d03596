/** The driver as an object: strand steps that update its fields, proved against Session.Step. */
module Driver {
  import opened Levels
  import opened Resync
  import opened Session

  /** The session once the symbols in `done` have been told of the connection. */
  ghost function Wanting(syncs: map<Symbol, Sync>, done: set<Symbol>): set<Symbol> {
    set s | s in syncs && s in done && WantsSnapshot(syncs[s])
  }

  ghost function ConnectedSyncs(syncs: map<Symbol, Sync>, done: set<Symbol>): map<Symbol, Sync> {
    map s | s in syncs :: if s in done then OnConnected(syncs[s]).sync else syncs[s]
  }

  ghost function ConnectSome(st: State, done: set<Symbol>): State {
    st.(syncs := ConnectedSyncs(st.syncs, done),
        running := if st.stopping then st.running else st.running + multiset(Wanting(st.syncs, done)))
  }

  ghost function ConnectOne(st: State, symbol: Symbol): State
    requires symbol in st.syncs
  {
    st.(syncs := st.syncs[symbol := OnConnected(st.syncs[symbol]).sync],
        running := if WantsSnapshot(st.syncs[symbol]) && !st.stopping then st.running + multiset{symbol} else st.running)
  }

  lemma ConnectNone(st: State)
    ensures ConnectSome(st, st.syncs.Keys - st.syncs.Keys) == st
  {
    var none := st.syncs.Keys - st.syncs.Keys;
    assert Wanting(st.syncs, none) == {};
    assert ConnectedSyncs(st.syncs, none) == st.syncs;
  }

  lemma ConnectEvery(st: State)
    ensures ConnectSome(st.(phase := Online), st.syncs.Keys) == ConnectAll(st)
  {
    assert Wanting(st.syncs, st.syncs.Keys) == set s | s in st.syncs && WantsSnapshot(st.syncs[s]);
    assert ConnectedSyncs(st.syncs, st.syncs.Keys) == map s | s in st.syncs :: OnConnected(st.syncs[s]).sync;
  }

  lemma WantingOneMore(syncs: map<Symbol, Sync>, done: set<Symbol>, symbol: Symbol)
    requires symbol in syncs && symbol !in done
    ensures Wanting(syncs, done + {symbol}) == Wanting(syncs, done) + (if WantsSnapshot(syncs[symbol]) then {symbol} else {})
    ensures ConnectedSyncs(syncs, done + {symbol}) == ConnectedSyncs(syncs, done)[symbol := OnConnected(syncs[symbol]).sync]
    ensures symbol !in Wanting(syncs, done) && ConnectedSyncs(syncs, done)[symbol] == syncs[symbol]
  {
  }

  lemma ConnectOneMore(st: State, done: set<Symbol>, symbol: Symbol)
    requires symbol in st.syncs && symbol !in done
    ensures ConnectOne(ConnectSome(st, done), symbol) == ConnectSome(st, done + {symbol})
  {
    WantingOneMore(st.syncs, done, symbol);
    var wanting := Wanting(st.syncs, done);
    assert multiset(wanting + {symbol}) == multiset(wanting) + multiset{symbol};
    assert wanting + {} == wanting;
  }

  class VenueSession {
    const cfg: Config
    var phase: Phase
    var stopping: bool
    var syncs: map<Symbol, Sync>
    var books: map<Symbol, Book>
    var running: multiset<Symbol>
    var finished: nat

    function View(): State
      reads this
    {
      State(phase, stopping, syncs, books, running, finished)
    }

    constructor (cfg: Config, symbols: set<Symbol>)
      ensures this.cfg == cfg && View() == Initial(symbols)
    {
      this.cfg := cfg;
      phase, stopping, syncs, books := Idle, false, map s | s in symbols :: FRESH, map[];
      running, finished := multiset{}, 0;
    }

    method Start()
      modifies this`phase
      ensures View() == Session.Step(cfg, old(View()), Event.Start)
    {
      if phase.Idle? { phase := if stopping then Done else Spawned; }
    }

    method Stop()
      modifies this`stopping
      ensures View() == Session.Step(cfg, old(View()), Event.Stop)
    {
      stopping := true;
    }

    method EraseFetch()
      requires finished > 0
      modifies this`finished
      ensures View() == Session.Step(cfg, old(View()), FetchErased)
    {
      finished := finished - 1;
    }

    method ExecuteAction(symbol: Symbol, action: Action) returns (gap: bool)
      modifies this
      ensures Executed(View(), gap) == Session.ExecuteAction(cfg, old(View()), symbol, action)
    {
      var applyFailed := false;
      match action {
        case RequestSnapshot =>
          if !stopping { running := running + multiset{symbol}; }
          return false;
        case ApplySnapshot(s) =>
          if symbol in cfg.registered {
            applyFailed := !ValidAction(action);
            if !applyFailed { books := books[symbol := SnapshotBook(s.bids, s.asks)]; }
          }
        case ApplyDelta(e) =>
          if symbol in cfg.registered {
            applyFailed := !ValidAction(action);
            if !applyFailed {
              var book := if symbol in books then books[symbol] else EMPTY_BOOK;
              books := books[symbol := ApplyToBook(book, e.bids, e.asks)];
            }
          }
        case InvalidateVenue =>
          books := books - {symbol};
      }
      if !applyFailed { return action.InvalidateVenue?; }
      syncs := syncs[symbol := OnDisconnected().sync];
      books := books - {symbol};
      return true;
    }

    method ExecuteActions(symbol: Symbol, actions: seq<Action>) returns (gap: bool)
      modifies this
      ensures Executed(View(), gap) == ExecuteAll(cfg, old(View()), symbol, actions)
    {
      gap := false;
      var i := 0;
      while i < |actions|
        invariant 0 <= i <= |actions|
        invariant Executed(View(), gap) == ExecuteAll(cfg, old(View()), symbol, actions[..i])
      {
        var g := ExecuteAction(symbol, actions[i]);
        assert actions[..i + 1][..i] == actions[..i];
        gap := gap || g;
        i := i + 1;
      }
      assert actions[..|actions|] == actions;
    }

    method InvalidateSymbol(symbol: Symbol)
      modifies this
      ensures View() == old(View()).(syncs := old(syncs)[symbol := FRESH], books := old(books) - {symbol})
    {
      var out := OnDisconnected();
      syncs := syncs[symbol := out.sync];
      ExecuteSingle(cfg, View(), symbol, InvalidateVenue);
      var _ := ExecuteActions(symbol, out.actions);
    }

    method InvalidateEverySymbol()
      modifies this
      ensures View() == Session.InvalidateAll(old(View()))
    {
      var left := syncs.Keys;
      while left != {}
        invariant left <= old(syncs).Keys && syncs.Keys == old(syncs).Keys
        invariant unchanged(`phase) && unchanged(`stopping) && unchanged(`running) && unchanged(`finished)
        invariant forall s :: s in syncs && s !in left ==> syncs[s] == FRESH
        invariant books == old(books) - (old(syncs).Keys - left)
        decreases |left|
      {
        var symbol :| symbol in left;
        InvalidateSymbol(symbol);
        left := left - {symbol};
      }
      assert syncs == map s | s in old(syncs) :: FRESH;
      assert old(syncs).Keys - left == old(syncs).Keys;
    }

    method ConnectSymbol(symbol: Symbol)
      requires symbol in syncs
      modifies this
      ensures View() == ConnectOne(old(View()), symbol)
    {
      var out := OnConnected(syncs[symbol]);
      syncs := syncs[symbol := out.sync];
      ExecuteSingle(cfg, View(), symbol, RequestSnapshot);
      var _ := ExecuteActions(symbol, out.actions);
    }

    method ConnectEverySymbol()
      modifies this
      ensures View() == Session.ConnectAll(old(View()))
    {
      phase := Online;
      ghost var before := View();
      var left := syncs.Keys;
      ConnectNone(before);
      while left != {}
        invariant left <= before.syncs.Keys && View() == ConnectSome(before, before.syncs.Keys - left)
        decreases |left|
      {
        left := ConnectNext(before, left);
      }
      assert before.syncs.Keys - left == before.syncs.Keys;
      ConnectEvery(old(View()));
    }

    method ConnectNext(ghost before: State, left: set<Symbol>) returns (left': set<Symbol>)
      requires left != {} && left <= before.syncs.Keys && View() == ConnectSome(before, before.syncs.Keys - left)
      modifies this
      ensures left' <= left && |left'| < |left| && View() == ConnectSome(before, before.syncs.Keys - left')
    {
      var symbol :| symbol in left;
      ConnectSymbol(symbol);
      ConnectOneMore(before, before.syncs.Keys - left, symbol);
      assert before.syncs.Keys - left + {symbol} == before.syncs.Keys - (left - {symbol});
      left' := left - {symbol};
    }

    method LoseConnection()
      modifies this
      ensures View() == DropConnection(old(View()))
    {
      InvalidateEverySymbol();
      phase := if stopping then Draining else BackingOff;
    }

    /** Executes an outcome's actions and answers a gap. */
    method ExecuteAndMaybeForceReconnect(symbol: Symbol, out: Outcome)
      requires symbol in syncs
      modifies this
      ensures View() == Settle(cfg, old(View()), symbol, out)
    {
      syncs := syncs[symbol := out.sync];
      ghost var st0 := View();
      var gap := ExecuteActions(symbol, out.actions);
      ExecuteKeeps(cfg, st0, symbol, out.actions);
      if gap {
        if Trusts(cfg) {
          LoseConnection();
        } else {
          var again := Resync.OnConnected(syncs[symbol]);
          syncs := syncs[symbol := again.sync];
          var _ := ExecuteActions(symbol, again.actions);
        }
      }
    }

    method DispatchDepthUpdate(symbol: Symbol, update: DepthUpdate)
      modifies this
      ensures View() == Session.Step(cfg, old(View()), DepthArrives(symbol, update))
    {
      if phase.Online? && symbol in syncs {
        ExecuteAndMaybeForceReconnect(symbol, Resync.OnDepthUpdate(Policy(cfg), syncs[symbol], update));
      }
    }

    method DispatchSnapshot(symbol: Symbol, snapshot: SnapshotMessage)
      modifies this
      ensures View() == Session.Step(cfg, old(View()), SnapshotArrives(symbol, snapshot))
    {
      if phase.Online? && symbol in syncs {
        ExecuteAndMaybeForceReconnect(symbol, Resync.OnSnapshot(Policy(cfg), syncs[symbol], snapshot));
      }
    }

    /** A fetch coroutine returns: discarded once stopping, dropped if it does not parse. */
    method HandleRequestSnapshot(symbol: Symbol, body: Body)
      requires symbol in running
      modifies this
      ensures View() == Session.Step(cfg, old(View()), FetchDone(symbol, body))
    {
      running, finished := running - multiset{symbol}, finished + 1;
      if !ViaRest(cfg) || stopping { return; }
      if body.Unparseable? || symbol !in syncs { return; }
      ExecuteAndMaybeForceReconnect(symbol, Resync.OnSnapshot(Policy(cfg), syncs[symbol], body.snapshot));
    }

    /** run() between suspension points: `ok` tells whether the awaited connect or wait succeeded. */
    method RunStep(ok: bool)
      requires phase.Spawned? || phase.Connecting? || phase.Online? || phase.BackingOff? || phase.Draining?
      requires phase.Online? ==> !ok
      modifies this
      ensures View() == Session.Step(cfg, old(View()),
        match old(phase)
        case Spawned => Resume
        case Connecting => if ok then ConnectOk else Drop
        case Online => Drop
        case BackingOff => BackoffElapsed
        case _ => DrainPoll)
    {
      match phase {
        case Spawned => phase := if stopping then Done else Connecting;
        case Connecting => if ok { ConnectEverySymbol(); } else { LoseConnection(); }
        case Online => LoseConnection();
        case BackingOff => phase := if stopping then Draining else Connecting;
        case Draining => if running == multiset{} && finished == 0 { phase := Done; }
      }
    }
  }
}
