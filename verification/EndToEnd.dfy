/** From the exchanges to the client: every venue's strand, the shared book, the queues and the
    replica together, under every interleaving of their steps. */
module EndToEnd {
  import opened Levels
  import opened Resync
  import opened Truth
  import opened Aggregate
  import opened AggregateBook
  import Session
  import opened SessionSafety
  import opened SessionTruth
  import Publishing
  import Replication
  import Delivery
  import Wire

  type Symbol = Session.Symbol

  /** One venue feeding the book of the symbol under study: its driver and the exchanges behind it. */
  datatype Feed = Feed(cfg: Session.Config, symbols: set<Symbol>, exchanges: map<Symbol, Exchange>)

  /** `pending` holds the calls a venue's current strand step has still to make on the shared book;
      other venues' calls may come in between. `trace` is what the book has been through. */
  datatype World = World(
    sessions: map<VenueId, Session.State>,
    pending: map<VenueId, seq<Op>>,
    trace: seq<Publishing.Event>)

  datatype Event = StrandStep(venue: VenueId, step: Session.Event) | BookStep(call: Publishing.Event)

  // ----- the calls a strand step makes on one symbol's book -----

  /** A refused call is followed by an invalidation. */
  function OpsOf(v: VenueId, actions: seq<Action>): seq<Op>
    decreases |actions|
  {
    if actions == [] then []
    else
      var first := match actions[0]
        case RequestSnapshot => []
        case InvalidateVenue => [InvalidateOp(v)]
        case ApplySnapshot(s) => [SnapshotOp(v, s.bids, s.asks)]
        case ApplyDelta(e) => [BatchOp(v, e.bids, e.asks)];
      var rejected := if Session.ValidAction(actions[0]) then [] else [InvalidateOp(v)];
      first + rejected + OpsOf(v, actions[1..])
  }

  /** Settling an outcome of `symbol`, seen from the book of `sym`. */
  function SettleOps(feed: Feed, v: VenueId, sym: Symbol, symbol: Symbol, out: Outcome): seq<Op> {
    var gap := Session.Rejected(feed.cfg, symbol, out.actions) || InvalidateVenue in out.actions;
    (if symbol == sym then OpsOf(v, out.actions) else []) +
    (if gap && Session.Trusts(feed.cfg) then [InvalidateOp(v)] else [])
  }

  function StepOps(feed: Feed, v: VenueId, sym: Symbol, st: Session.State, ev: Session.Event): seq<Op> {
    var policy := Session.Policy(feed.cfg);
    match ev
    case Drop => if st.phase.Connecting? || st.phase.Online? then [InvalidateOp(v)] else []
    case DepthArrives(symbol, e) =>
      if st.phase.Online? && symbol in st.syncs
      then SettleOps(feed, v, sym, symbol, OnDepthUpdate(policy, st.syncs[symbol], e)) else []
    case SnapshotArrives(symbol, snap) =>
      if st.phase.Online? && symbol in st.syncs
      then SettleOps(feed, v, sym, symbol, OnSnapshot(policy, st.syncs[symbol], snap)) else []
    case FetchDone(symbol, body) =>
      if symbol !in st.running || Session.Discarded(feed.cfg, st, symbol, body) then []
      else SettleOps(feed, v, sym, symbol, OnSnapshot(policy, st.syncs[symbol], body.snapshot))
    case _ => []
  }

  // ----- the world -----

  type Feeds = map<VenueId, Feed>

  function Begin(feeds: Feeds): World {
    World(map v | v in feeds :: Session.Initial(feeds[v].symbols), map v | v in feeds :: [], [])
  }

  /** A strand that still has calls to make takes no other step; an ingest is some venue's next
      call; everything else on the book happens freely. */
  function Step(feeds: Feeds, sym: Symbol, w: World, ev: Event): World {
    match ev
    case StrandStep(v, step) =>
      if v !in feeds || v !in w.sessions || v !in w.pending || w.pending[v] != [] then w
      else w.(sessions := w.sessions[v := Session.Step(feeds[v].cfg, w.sessions[v], step)],
              pending := w.pending[v := StepOps(feeds[v], v, sym, w.sessions[v], step)])
    case BookStep(call) =>
      if !call.Ingest? then w.(trace := w.trace + [call])
      else
        var v := call.op.venue;
        if v !in w.pending || w.pending[v] == [] || w.pending[v][0] != call.op then w
        else w.(pending := w.pending[v := w.pending[v][1..]], trace := w.trace + [call])
  }

  function Reach(feeds: Feeds, sym: Symbol, events: seq<Event>): World {
    if events == [] then Begin(feeds)
    else Step(feeds, sym, Reach(feeds, sym, events[..|events| - 1]), events[|events| - 1])
  }

  function Server(w: World): Publishing.Server {
    Publishing.Reach(w.trace)
  }

  /** Messages are faithful to their exchange, and a book call does what the book promises. */
  ghost predicate Allowed(feeds: Feeds, w: World, ev: Event) {
    match ev
    case StrandStep(v, step) => v in feeds ==> FaithfulMessage(feeds[v].cfg, feeds[v].exchanges, step)
    case BookStep(call) => Publishing.Legal(Server(w), call)
  }

  ghost predicate AllowedRun(feeds: Feeds, sym: Symbol, events: seq<Event>) {
    events != [] ==>
      && AllowedRun(feeds, sym, events[..|events| - 1])
      && Allowed(feeds, Reach(feeds, sym, events[..|events| - 1]), events[|events| - 1])
  }

  /** The feed covers the symbol, has a book for it, and faces exchanges with reliable ids. */
  ghost predicate FeedOk(feed: Feed, sym: Symbol) {
    && sym in feed.symbols && sym in feed.cfg.registered
    && feed.symbols * feed.cfg.registered <= feed.exchanges.Keys
    && ReliableExchanges(feed.cfg, feed.exchanges)
  }

  ghost predicate Wired(feeds: Feeds, sym: Symbol) {
    forall v :: v in feeds ==> FeedOk(feeds[v], sym)
  }

  // ----- calls on the book, seen by one venue -----

  function Held(venues: Venues, v: VenueId): Option<Book> {
    if v in venues then Some(venues[v]) else None
  }

  function DoOp(b: Option<Book>, op: Op): Option<Book> {
    if !Accepted(op) then b
    else
      match op
      case SnapshotOp(_, bids, asks) => Some(SnapshotBook(bids, asks))
      case BatchOp(_, bids, asks) => Some(ApplyToBook(if b.Some? then b.value else EMPTY_BOOK, bids, asks))
      case InvalidateOp(_) => None
  }

  lemma OpTouchesItsVenue(venues: Venues, op: Op, v: VenueId)
    ensures Held(NextVenues(venues, op), v) == if op.venue == v then DoOp(Held(venues, v), op) else Held(venues, v)
  {
  }

  /** These calls of venue v pass only through books the exchange had, and end in `last`. */
  ghost predicate Passes(x: Exchange, v: VenueId, b: Option<Book>, ops: seq<Op>, last: Option<Book>)
    decreases |ops|
  {
    && Harmless(x, b)
    && if ops == [] then b == last else ops[0].venue == v && Passes(x, v, DoOp(b, ops[0]), ops[1..], last)
  }

  lemma {:induction false} PassesThenInvalidated(x: Exchange, v: VenueId, b: Option<Book>, ops: seq<Op>, last: Option<Book>)
    requires Passes(x, v, b, ops, last)
    ensures Passes(x, v, b, ops + [InvalidateOp(v)], None)
    decreases |ops|
  {
    var all := ops + [InvalidateOp(v)];
    if ops == [] {
      assert all[0] == InvalidateOp(v) && all[1..] == [];
      assert Passes(x, v, None, [], None);
    } else {
      assert all[0] == ops[0] && all[1..] == ops[1..] + [InvalidateOp(v)];
      PassesThenInvalidated(x, v, DoOp(b, ops[0]), ops[1..], last);
    }
  }

  lemma {:induction false} ActionsPass(x: Exchange, v: VenueId, b: Option<Book>, actions: seq<Action>)
    requires NeverWrong(x, b, actions)
    requires forall i :: 0 <= i < |actions| ==> Session.ValidAction(actions[i])
    ensures Passes(x, v, b, OpsOf(v, actions), PerformAll(b, actions))
    decreases |actions|
  {
    if actions != [] {
      var a, rest := actions[0], actions[1..];
      assert Session.ValidAction(a);
      ActionsPass(x, v, Perform(b, a), rest);
      var ops := OpsOf(v, actions);
      if a.RequestSnapshot? {
        assert ops == OpsOf(v, rest);
      } else {
        assert ops[1..] == OpsOf(v, rest);
        assert DoOp(b, ops[0]) == Perform(b, a);
      }
    }
  }

  // ----- one strand step -----

  /** What holds of a venue's driver between its strand steps. */
  ghost predicate StrandOk(feed: Feed, sym: Symbol, st: Session.State) {
    && FeedOk(feed, sym) && sym in feed.exchanges && st.syncs.Keys == feed.symbols
    && Sound(feed.cfg, st) && AllFaithful(feed.cfg, feed.exchanges, st)
  }

  lemma HarmlessContribution(feed: Feed, sym: Symbol, st: Session.State)
    requires StrandOk(feed, sym, st)
    ensures Harmless(feed.exchanges[sym], Session.Contribution(st, sym))
  {
    assert FaithfulBook(feed.cfg, feed.exchanges, st, sym);
  }

  lemma BatchPasses(feed: Feed, v: VenueId, sym: Symbol, st: Session.State, input: Input)
    requires StrandOk(feed, sym, st) && FaithfulInput(feed.cfg.kind, feed.exchanges[sym], input)
    ensures
      var out := Resync.Step(Session.Policy(feed.cfg), st.syncs[sym], input);
      var r := Session.ExecuteAll(feed.cfg, st.(syncs := st.syncs[sym := out.sync]), sym, out.actions).state;
      Passes(feed.exchanges[sym], v, Session.Contribution(st, sym), OpsOf(v, out.actions), Session.Contribution(r, sym))
  {
    var cfg, x, b := feed.cfg, feed.exchanges[sym], Session.Contribution(st, sym);
    var out := Resync.Step(Session.Policy(cfg), st.syncs[sym], input);
    assert FaithfulBook(cfg, feed.exchanges, st, sym);
    SettleOneFaithful(cfg, st, sym, input, x);
    ReliableIdsCohere(cfg.kind, x);
    StepTruthful(cfg.kind, x, st.syncs[sym], b, input);
    assert forall i :: 0 <= i < |out.actions| ==> Session.ValidAction(out.actions[i]);
    ActionsPass(x, v, b, out.actions);
    ExecuteIsPerform(cfg, st.(syncs := st.syncs[sym := out.sync]), sym, out.actions, x);
  }

  lemma SettlePasses(feed: Feed, v: VenueId, sym: Symbol, st: Session.State, symbol: Symbol, input: Input)
    requires StrandOk(feed, sym, st) && symbol in st.syncs
    requires symbol == sym ==> FaithfulInput(feed.cfg.kind, feed.exchanges[sym], input)
    ensures
      var out := Resync.Step(Session.Policy(feed.cfg), st.syncs[symbol], input);
      Passes(feed.exchanges[sym], v, Session.Contribution(st, sym), SettleOps(feed, v, sym, symbol, out),
             Session.Contribution(Session.Settle(feed.cfg, st, symbol, out), sym))
  {
    var cfg, x, b := feed.cfg, feed.exchanges[sym], Session.Contribution(st, sym);
    var out := Resync.Step(Session.Policy(cfg), st.syncs[symbol], input);
    var r := Session.ExecuteAll(cfg, st.(syncs := st.syncs[symbol := out.sync]), symbol, out.actions).state;
    if InvalidateVenue in out.actions { InvalidationWantsSnapshot(Session.Policy(cfg), st.syncs[symbol], input); }
    SettledSymbol(cfg, st, symbol, out, sym);
    var ops := if symbol == sym then OpsOf(v, out.actions) else [];
    assert Passes(x, v, b, ops, Session.Contribution(r, sym)) by {
      HarmlessContribution(feed, sym, st);
      if symbol == sym { BatchPasses(feed, v, sym, st, input); }
    }
    PassesThenInvalidated(x, v, b, ops, Session.Contribution(r, sym));
    assert ops + [] == ops;
  }

  /** The calls a strand step makes take the book's view of the venue to the driver's own, through
      nothing but books the exchange had. */
  lemma StrandStepPasses(feed: Feed, v: VenueId, sym: Symbol, st: Session.State, ev: Session.Event)
    requires StrandOk(feed, sym, st) && FaithfulMessage(feed.cfg, feed.exchanges, ev)
    ensures StrandOk(feed, sym, Session.Step(feed.cfg, st, ev))
    ensures Passes(feed.exchanges[sym], v, Session.Contribution(st, sym), StepOps(feed, v, sym, st, ev),
                   Session.Contribution(Session.Step(feed.cfg, st, ev), sym))
  {
    StepKeepsSymbols(feed.cfg, st, ev);
    StepSound(feed.cfg, st, ev);
    StepFaithful(feed.cfg, feed.exchanges, st, ev);
    StepCallsPass(feed, v, sym, st, ev);
  }

  lemma StepCallsPass(feed: Feed, v: VenueId, sym: Symbol, st: Session.State, ev: Session.Event)
    requires StrandOk(feed, sym, st) && FaithfulMessage(feed.cfg, feed.exchanges, ev)
    ensures Passes(feed.exchanges[sym], v, Session.Contribution(st, sym), StepOps(feed, v, sym, st, ev),
                   Session.Contribution(Session.Step(feed.cfg, st, ev), sym))
  {
    HarmlessContribution(feed, sym, st);
    match ev
    case DepthArrives(symbol, e) =>
      if st.phase.Online? && symbol in st.syncs { SettlePasses(feed, v, sym, st, symbol, Depth(e)); }
    case SnapshotArrives(symbol, snap) =>
      if st.phase.Online? && symbol in st.syncs { SettlePasses(feed, v, sym, st, symbol, Snapshot(snap)); }
    case FetchDone(symbol, body) =>
      if symbol in st.running {
        ReturnedStrandOk(feed, sym, st, symbol);
        if !Session.Discarded(feed.cfg, st, symbol, body) { FetchPasses(feed, v, sym, st, symbol, body); }
      }
    case Drop =>
      PassesThenInvalidated(feed.exchanges[sym], v, Session.Contribution(st, sym), [], Session.Contribution(st, sym));
    case _ =>
  }

  lemma ReturnedStrandOk(feed: Feed, sym: Symbol, st: Session.State, symbol: Symbol)
    requires StrandOk(feed, sym, st) && symbol in st.running
    ensures StrandOk(feed, sym, Session.Returned(st, symbol))
    ensures Session.Contribution(Session.Returned(st, symbol), sym) == Session.Contribution(st, sym)
  {
    forall q
      ensures FaithfulBook(feed.cfg, feed.exchanges, Session.Returned(st, symbol), q)
    {
      assert FaithfulBook(feed.cfg, feed.exchanges, st, q);
    }
  }

  lemma FetchPasses(feed: Feed, v: VenueId, sym: Symbol, st: Session.State, symbol: Symbol, body: Session.Body)
    requires StrandOk(feed, sym, st) && symbol in st.running && !Session.Discarded(feed.cfg, st, symbol, body)
    requires FaithfulMessage(feed.cfg, feed.exchanges, Session.FetchDone(symbol, body))
    ensures
      var out := OnSnapshot(Session.Policy(feed.cfg), st.syncs[symbol], body.snapshot);
      Passes(feed.exchanges[sym], v, Session.Contribution(st, sym), SettleOps(feed, v, sym, symbol, out),
             Session.Contribution(Session.FetchReturns(feed.cfg, st, symbol, body), sym))
  {
    ReturnedStrandOk(feed, sym, st, symbol);
    SettlePasses(feed, v, sym, Session.Returned(st, symbol), symbol, Snapshot(body.snapshot));
  }

  // ----- every interleaving -----

  /** The books these venues' exchanges had at the given revisions. */
  ghost function BooksAt(feeds: Feeds, sym: Symbol, at: map<VenueId, nat>): Venues {
    map v | v in at && v in feeds && sym in feeds[v].exchanges :: BookAt(feeds[v].exchanges[sym], at[v])
  }

  /** `book` is, price by price, the sum of one book per exchange, each of which the exchange had. */
  ghost predicate TrueSum(feeds: Feeds, sym: Symbol, book: Book) {
    exists at: map<VenueId, nat> :: at.Keys <= feeds.Keys && Aggregates(BooksAt(feeds, sym, at), book)
  }

  ghost predicate VenueOk(feeds: Feeds, sym: Symbol, w: World, v: VenueId) {
    v in feeds ==>
      && v in w.sessions && v in w.pending
      && StrandOk(feeds[v], sym, w.sessions[v])
      && Passes(feeds[v].exchanges[sym], v, Held(Server(w).venues, v), w.pending[v],
                Session.Contribution(w.sessions[v], sym))
  }

  ghost predicate VenuesOk(feeds: Feeds, sym: Symbol, w: World) {
    w.pending.Keys <= feeds.Keys && Server(w).venues.Keys <= feeds.Keys && forall v :: VenueOk(feeds, sym, w, v)
  }

  ghost predicate HistoryTrue(feeds: Feeds, sym: Symbol, history: seq<Book>) {
    forall k :: 0 <= k < |history| ==> TrueSum(feeds, sym, history[k])
  }

  ghost function RevisionOf(x: Exchange, book: Book): (n: nat)
    requires Harmless(x, Some(book))
    ensures BookAt(x, n) == book
  {
    var n: nat :| Some(book) == Some(BookAt(x, n));
    n
  }

  lemma HeldAreTrue(feeds: Feeds, sym: Symbol, w: World, v: VenueId)
    requires VenuesOk(feeds, sym, w) && v in Server(w).venues
    ensures v in feeds && sym in feeds[v].exchanges && Harmless(feeds[v].exchanges[sym], Some(Server(w).venues[v]))
  {
    assert VenueOk(feeds, sym, w, v);
  }

  lemma HeldRevisions(feeds: Feeds, sym: Symbol, venues: Venues) returns (at: map<VenueId, nat>)
    requires forall v :: v in venues ==>
      v in feeds && sym in feeds[v].exchanges && Harmless(feeds[v].exchanges[sym], Some(venues[v]))
    ensures at.Keys <= feeds.Keys && BooksAt(feeds, sym, at) == venues
  {
    at := map v | v in venues :: RevisionOf(feeds[v].exchanges[sym], venues[v]);
  }

  lemma AggregateIsTrueSum(feeds: Feeds, sym: Symbol, w: World, book: Book)
    requires VenuesOk(feeds, sym, w) && Aggregates(Server(w).venues, book)
    ensures TrueSum(feeds, sym, book)
  {
    forall v | v in Server(w).venues
      ensures v in feeds && sym in feeds[v].exchanges && Harmless(feeds[v].exchanges[sym], Some(Server(w).venues[v]))
    {
      HeldAreTrue(feeds, sym, w, v);
    }
    var at := HeldRevisions(feeds, sym, Server(w).venues);
  }

  lemma BookStepReached(trace: seq<Publishing.Event>, call: Publishing.Event)
    requires Publishing.LegalRun(trace) && Publishing.Legal(Publishing.Reach(trace), call)
    ensures Publishing.LegalRun(trace + [call])
    ensures Publishing.Reach(trace + [call]) == Publishing.Step(Publishing.Reach(trace), call)
  {
    assert (trace + [call])[..|trace|] == trace;
  }

  lemma StrandStepOk(feeds: Feeds, sym: Symbol, w: World, ev: Event)
    requires VenuesOk(feeds, sym, w) && Allowed(feeds, w, ev) && ev.StrandStep?
    ensures VenuesOk(feeds, sym, Step(feeds, sym, w, ev))
  {
    var next := Step(feeds, sym, w, ev);
    assert VenueOk(feeds, sym, w, ev.venue);
    forall v
      ensures VenueOk(feeds, sym, next, v)
    {
      assert VenueOk(feeds, sym, w, v);
      if v == ev.venue && next != w {
        StrandStepPasses(feeds[v], v, sym, w.sessions[v], ev.step);
      }
    }
  }

  lemma IngestVenuesOk(feeds: Feeds, sym: Symbol, w: World, call: Publishing.Event)
    requires VenuesOk(feeds, sym, w) && Publishing.LegalRun(w.trace)
    requires call.Ingest? && Publishing.Legal(Server(w), call)
    ensures VenuesOk(feeds, sym, Step(feeds, sym, w, BookStep(call)))
  {
    var next, u := Step(feeds, sym, w, BookStep(call)), call.op.venue;
    if next != w {
      BookStepReached(w.trace, call);
      Publishing.PublishEffect(Server(w).(venues := call.venues, agg := call.agg), call.bids, call.asks);
      assert Server(next).venues == NextVenues(Server(w).venues, call.op);
      forall v
        ensures VenueOk(feeds, sym, next, v)
      {
        assert VenueOk(feeds, sym, w, v);
        OpTouchesItsVenue(Server(w).venues, call.op, v);
      }
    }
  }

  lemma HistoryTrueSnoc(feeds: Feeds, sym: Symbol, history: seq<Book>, book: Book)
    requires HistoryTrue(feeds, sym, history) && TrueSum(feeds, sym, book)
    ensures HistoryTrue(feeds, sym, history + [book])
  {
  }

  /** The server after an ingest that was some venue's next call. */
  lemma IngestEffect(feeds: Feeds, sym: Symbol, w: World, call: Publishing.Event)
    requires Publishing.LegalRun(w.trace) && call.Ingest? && Publishing.Legal(Server(w), call)
    ensures
      var next := Step(feeds, sym, w, BookStep(call));
      next == w ||
      (Aggregates(Server(next).venues, call.agg) &&
       (Server(next).history == Server(w).history || Server(next).history == Server(w).history + [call.agg]))
  {
    BookStepReached(w.trace, call);
    Publishing.PublishEffect(Server(w).(venues := call.venues, agg := call.agg), call.bids, call.asks);
  }

  lemma IngestHistoryTrue(feeds: Feeds, sym: Symbol, w: World, call: Publishing.Event)
    requires VenuesOk(feeds, sym, w) && Publishing.LegalRun(w.trace) && HistoryTrue(feeds, sym, Server(w).history)
    requires call.Ingest? && Publishing.Legal(Server(w), call)
    requires VenuesOk(feeds, sym, Step(feeds, sym, w, BookStep(call)))
    ensures HistoryTrue(feeds, sym, Server(Step(feeds, sym, w, BookStep(call))).history)
  {
    var next := Step(feeds, sym, w, BookStep(call));
    IngestEffect(feeds, sym, w, call);
    if next != w {
      AggregateIsTrueSum(feeds, sym, next, call.agg);
      HistoryTrueSnoc(feeds, sym, Server(w).history, call.agg);
    }
  }

  lemma FreeStepOk(feeds: Feeds, sym: Symbol, w: World, call: Publishing.Event)
    requires VenuesOk(feeds, sym, w) && Publishing.LegalRun(w.trace) && !call.Ingest?
    ensures VenuesOk(feeds, sym, Step(feeds, sym, w, BookStep(call)))
    ensures Server(Step(feeds, sym, w, BookStep(call))).history == Server(w).history
  {
    var next := Step(feeds, sym, w, BookStep(call));
    BookStepReached(w.trace, call);
    Publishing.OnlyIngestTouchesBook(Server(w), call);
    forall v
      ensures VenueOk(feeds, sym, next, v)
    {
      assert VenueOk(feeds, sym, w, v);
    }
  }

  lemma BookStepOk(feeds: Feeds, sym: Symbol, w: World, call: Publishing.Event)
    requires VenuesOk(feeds, sym, w) && Publishing.LegalRun(w.trace) && HistoryTrue(feeds, sym, Server(w).history)
    requires Publishing.Legal(Server(w), call)
    ensures
      var next := Step(feeds, sym, w, BookStep(call));
      VenuesOk(feeds, sym, next) && Publishing.LegalRun(next.trace) && HistoryTrue(feeds, sym, Server(next).history)
  {
    BookStepReached(w.trace, call);
    if call.Ingest? {
      IngestVenuesOk(feeds, sym, w, call);
      IngestHistoryTrue(feeds, sym, w, call);
    } else {
      FreeStepOk(feeds, sym, w, call);
    }
  }

  lemma BeginOk(feeds: Feeds, sym: Symbol)
    requires Wired(feeds, sym)
    ensures VenuesOk(feeds, sym, Begin(feeds)) && HistoryTrue(feeds, sym, Server(Begin(feeds)).history)
  {
    var w := Begin(feeds);
    forall v
      ensures VenueOk(feeds, sym, w, v)
    {
      if v in feeds {
        assert FeedOk(feeds[v], sym);
        RunFaithful(feeds[v].cfg, feeds[v].symbols, feeds[v].exchanges, []);
        RunSound(feeds[v].cfg, feeds[v].symbols, []);
      }
    }
    Publishing.RunBookOk([]);
    AggregateIsTrueSum(feeds, sym, w, EMPTY_BOOK);
  }

  lemma {:induction false} RunOk(feeds: Feeds, sym: Symbol, events: seq<Event>)
    requires Wired(feeds, sym) && AllowedRun(feeds, sym, events)
    ensures
      var w := Reach(feeds, sym, events);
      VenuesOk(feeds, sym, w) && Publishing.LegalRun(w.trace) && HistoryTrue(feeds, sym, Server(w).history)
  {
    if events == [] {
      BeginOk(feeds, sym);
    } else {
      var init, ev := events[..|events| - 1], events[|events| - 1];
      RunOk(feeds, sym, init);
      var w := Reach(feeds, sym, init);
      if ev.StrandStep? {
        StrandStepOk(feeds, sym, w, ev);
      } else {
        BookStepOk(feeds, sym, w, ev.call);
      }
    }
  }

  // ----- what a client sees -----

  /** At every moment of every interleaving, even in the middle of a venue's batch, the book a client
      holds is the sum of books its exchanges really had. */
  lemma ClientHoldsTrueBooks(feeds: Feeds, sym: Symbol, events: seq<Event>, id: nat)
    requires Wired(feeds, sym) && AllowedRun(feeds, sym, events)
    requires id in Server(Reach(feeds, sym, events)).l2
    ensures
      var client := Server(Reach(feeds, sym, events)).l2[id].client;
      !client.stopped && (client.last.Some? ==> TrueSum(feeds, sym, client.book))
  {
    RunOk(feeds, sym, events);
    var s := Server(Reach(feeds, sym, events));
    var t := s.l2[id];
    Replication.RunStreamsOk(Reach(feeds, sym, events).trace);
    assert Replication.StreamOk(s.history, t);
    if t.client.last.Some? {
      Replication.FollowsBounded(s.history, t.client.last.value, Replication.Pending(t));
    }
  }

  ghost predicate LiveAt(feeds: Feeds, sym: Symbol, w: World, v: VenueId) {
    v in feeds && v in w.sessions && sym in w.sessions[v].syncs && w.sessions[v].syncs[sym].live
  }

  /** Revision n of v's exchange carries the id v applied last. */
  ghost predicate CarriesLastId(feeds: Feeds, sym: Symbol, w: World, v: VenueId, n: nat) {
    && v in feeds && v in w.sessions && sym in w.sessions[v].syncs && sym in feeds[v].exchanges
    && feeds[v].exchanges[sym].id(n) == w.sessions[v].syncs[sym].lastFinalId
  }

  /** Each venue whose symbol is Live, at a revision carrying its last applied id; no other venue. */
  ghost predicate LiveRevisions(feeds: Feeds, sym: Symbol, w: World, at: map<VenueId, nat>) {
    && (forall v :: v in at <==> LiveAt(feeds, sym, w, v))
    && (forall v :: v in at ==> CarriesLastId(feeds, sym, w, v, at[v]))
  }

  lemma SettledVenue(feeds: Feeds, sym: Symbol, w: World, v: VenueId)
    requires VenuesOk(feeds, sym, w) && v in feeds && v in w.pending && w.pending[v] == []
    ensures v in w.sessions && sym in w.sessions[v].syncs && sym in feeds[v].exchanges
    ensures
      var sync := w.sessions[v].syncs[sym];
      if sync.live then Reflects(feeds[v].exchanges[sym], Held(Server(w).venues, v), sync.lastFinalId)
      else v !in Server(w).venues
  {
    assert VenueOk(feeds, sym, w, v);
    assert FaithfulBook(feeds[v].cfg, feeds[v].exchanges, w.sessions[v], sym);
  }

  ghost function LiveRevision(x: Exchange, b: Option<Book>, id: nat): (n: nat)
    requires Reflects(x, b, id)
    ensures x.id(n) == id && b == Some(BookAt(x, n))
  {
    var n: nat :| x.id(n) == id && b == Some(BookAt(x, n));
    n
  }

  /** What SettledVenue establishes of one venue. */
  ghost predicate Settled(feeds: Feeds, sym: Symbol, w: World, venues: Venues, v: VenueId) {
    && v in feeds && v in w.sessions && sym in w.sessions[v].syncs && sym in feeds[v].exchanges
    && (v in venues <==> w.sessions[v].syncs[sym].live)
    && (v in venues ==>
          Reflects(feeds[v].exchanges[sym], Some(venues[v]), w.sessions[v].syncs[sym].lastFinalId))
  }

  /** Revision n is the book the server holds for v, and carries the id v applied last. */
  ghost predicate ShownRevision(feeds: Feeds, sym: Symbol, w: World, venues: Venues, v: VenueId, n: nat) {
    CarriesLastId(feeds, sym, w, v, n) && v in venues && BookAt(feeds[v].exchanges[sym], n) == venues[v]
  }

  lemma SettledIsShown(feeds: Feeds, sym: Symbol, w: World, venues: Venues, v: VenueId)
    requires v in venues && Settled(feeds, sym, w, venues, v)
    ensures exists n: nat :: ShownRevision(feeds, sym, w, venues, v, n)
  {
    var n := LiveRevision(feeds[v].exchanges[sym], Some(venues[v]), w.sessions[v].syncs[sym].lastFinalId);
    assert ShownRevision(feeds, sym, w, venues, v, n);
  }

  ghost function RevisionIn(feeds: Feeds, sym: Symbol, w: World, venues: Venues, v: VenueId): (n: nat)
    requires exists n: nat :: ShownRevision(feeds, sym, w, venues, v, n)
    ensures ShownRevision(feeds, sym, w, venues, v, n)
  {
    var n: nat :| ShownRevision(feeds, sym, w, venues, v, n);
    n
  }

  lemma ChooseRevisions(feeds: Feeds, sym: Symbol, w: World, venues: Venues) returns (at: map<VenueId, nat>)
    requires forall v :: v in venues ==> exists n: nat :: ShownRevision(feeds, sym, w, venues, v, n)
    ensures at.Keys == venues.Keys && forall v :: v in at ==> ShownRevision(feeds, sym, w, venues, v, at[v])
  {
    at := map v | v in venues :: RevisionIn(feeds, sym, w, venues, v);
  }

  lemma ShownRevisionsAreLive(feeds: Feeds, sym: Symbol, w: World, venues: Venues, at: map<VenueId, nat>)
    requires forall v :: v in venues <==> LiveAt(feeds, sym, w, v)
    requires at.Keys == venues.Keys && forall v :: v in at ==> ShownRevision(feeds, sym, w, venues, v, at[v])
    ensures LiveRevisions(feeds, sym, w, at)
  {
    forall v | v in at
      ensures CarriesLastId(feeds, sym, w, v, at[v])
    {
      assert ShownRevision(feeds, sym, w, venues, v, at[v]);
    }
  }

  lemma ShownRevisionsAreHeld(feeds: Feeds, sym: Symbol, w: World, venues: Venues, at: map<VenueId, nat>)
    requires at.Keys == venues.Keys && forall v :: v in at ==> ShownRevision(feeds, sym, w, venues, v, at[v])
    ensures BooksAt(feeds, sym, at) == venues
  {
    var books := BooksAt(feeds, sym, at);
    forall v | v in venues
      ensures v in books && books[v] == venues[v]
    {
      assert v in at;
      assert ShownRevision(feeds, sym, w, venues, v, at[v]);
    }
  }

  lemma SettledRevisions(feeds: Feeds, sym: Symbol, w: World, venues: Venues) returns (at: map<VenueId, nat>)
    requires venues.Keys <= feeds.Keys && forall v :: v in feeds ==> Settled(feeds, sym, w, venues, v)
    ensures LiveRevisions(feeds, sym, w, at) && BooksAt(feeds, sym, at) == venues
  {
    forall v | v in venues
      ensures exists n: nat :: ShownRevision(feeds, sym, w, venues, v, n)
    {
      SettledIsShown(feeds, sym, w, venues, v);
    }
    forall v
      ensures v in venues <==> LiveAt(feeds, sym, w, v)
    {
      if v in feeds { assert Settled(feeds, sym, w, venues, v); }
    }
    at := ChooseRevisions(feeds, sym, w, venues);
    ShownRevisionsAreLive(feeds, sym, w, venues, at);
    ShownRevisionsAreHeld(feeds, sym, w, venues, at);
  }

  lemma SettledBook(feeds: Feeds, sym: Symbol, w: World) returns (at: map<VenueId, nat>)
    requires VenuesOk(feeds, sym, w) && forall v :: v in feeds ==> v in w.pending && w.pending[v] == []
    ensures LiveRevisions(feeds, sym, w, at) && BooksAt(feeds, sym, at) == Server(w).venues
  {
    forall v | v in feeds
      ensures Settled(feeds, sym, w, Server(w).venues, v)
    {
      SettledVenue(feeds, sym, w, v);
    }
    at := SettledRevisions(feeds, sym, w, Server(w).venues);
  }

  /** Once no strand is in the middle of a step, a client that is caught up
      holds exactly the sum of the Live venues' exchange books at their last applied ids. */
  lemma SettledClientShowsLiveVenues(feeds: Feeds, sym: Symbol, events: seq<Event>, id: nat)
    requires Wired(feeds, sym) && AllowedRun(feeds, sym, events)
    requires
      var w := Reach(feeds, sym, events);
      && (forall v :: v in feeds ==> v in w.pending && w.pending[v] == [])
      && id in Server(w).l2
      && Delivery.CaughtUp(Server(w).l2[id])
    ensures
      var w := Reach(feeds, sym, events);
      exists at :: LiveRevisions(feeds, sym, w, at)
                && Aggregates(BooksAt(feeds, sym, at), Server(w).l2[id].client.book)
  {
    var w := Reach(feeds, sym, events);
    RunOk(feeds, sym, events);
    var at := SettledBook(feeds, sym, w);
    Publishing.RunBookOk(w.trace);
    Replication.ReplicaIsAggregate(w.trace, id, 0);
  }

  /** And a heartbeat sent at such a moment lists exactly the venues whose symbol is Live. */
  lemma SettledHeartbeatListsLiveVenues(feeds: Feeds, sym: Symbol, events: seq<Event>)
    requires Wired(feeds, sym) && AllowedRun(feeds, sym, events)
    requires
      var w := Reach(feeds, sym, events);
      forall v :: v in feeds ==> v in w.pending && w.pending[v] == []
    ensures
      var w := Reach(feeds, sym, events);
      var live := set v | v in feeds && LiveAt(feeds, sym, w, v);
      var next := Publishing.Step(Server(w), Publishing.SendHeartbeat);
      && next.l2 == Publishing.BroadcastL2(Server(w).l2, Wire.L2Heartbeat(live))
      && next.bbo == Publishing.BroadcastBbo(Server(w).bbo, Wire.BboHeartbeat(live))
  {
    var w := Reach(feeds, sym, events);
    RunOk(feeds, sym, events);
    var at := SettledBook(feeds, sym, w);
    BooksAtKeys(feeds, sym, at, w);
    assert Server(w).venues.Keys == set v | v in feeds && LiveAt(feeds, sym, w, v);
  }

  lemma BooksAtKeys(feeds: Feeds, sym: Symbol, at: map<VenueId, nat>, w: World)
    requires LiveRevisions(feeds, sym, w, at)
    ensures BooksAt(feeds, sym, at).Keys == at.Keys
  {
    forall v | v in at
      ensures v in BooksAt(feeds, sym, at)
    {
      assert CarriesLastId(feeds, sym, w, v, at[v]);
    }
  }
}
