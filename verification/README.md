# Verified model of the hermeneutic order-book aggregator

The aggregator keeps one book per symbol, fed by several exchange venues, and streams it to clients.
This project models its logic in Dafny and proves what the pieces promise, alone and together.

* **Resync** (`Resync`, `SyncMachine`, `Traces`, `Conservation`, `Truth`, `ConnectionOrder`,
  `StreamProgress`): the per-venue state machine that buffers depth events until a snapshot can be bridged,
  with its four sequence policies. Its theorems are about truth, about losing nothing, and about progress: a
  ghost exchange history gives every revision the prices it touches, an event is faithful when it states
  absolute sizes at its last revision for everything touched on the way, and a Live book is the exchange's
  book.
* **Driver** (`Session`, `SessionSafety`, `SessionTruth`, `SessionProgress`, `Driver`): one venue's strand. Every
  dispatched message, finished fetch, drop or stop is one atomic step over syncs, contributions, connection
  and fetches in flight.
* **Aggregate** (`Levels`, `Aggregate`, `AggregateBook`): the cross-venue sum kept by deltas, against the
  simple sum it stands for, and its change reports.
* **Publishing** (`Queues`, `Fanouts`, `Wire`, `Publishing`, `SymbolBooks`, `Replication`, `Delivery`,
  `TopOfBook`): revisions, bounded queues, handlers and the client's replica as interleaved steps.
* **End to end** (`EndToEnd`): all of the above composed, from exchange histories to the book in a client's
  memory, with other venues' calls interleaved inside a venue's batch.
* **Arithmetic** (`Rounding`, `Decimal`, `PriceBands`, `VolumeBands`, `VwapRange`): 128-bit rounding division,
  the decimal parser and the two one-pass band walks against their per-threshold definitions.

Classes hold what the program updates in place; each method's postcondition ties its new state to a
specification function, and the theorems are about those functions and the state machines built from them.

Where the code and its comments or intent part ways, the model follows the code:

* After a book rejects one action of a batch, the remaining actions still run. For a REST venue the venue can
  so be left in the book while its symbol is Buffering (`SessionTruth.RunAgreesIff` says exactly when).
* A REST body that does not parse ends its fetch without a retry (`SessionSafety.RunFetchesIff`).
* OKX documents that ids may move backward and Bybit that a restart resets them; a reused id can make either
  policy accept an event on the wrong book (`ConnectionOrder.ConnectionOrderTruthIff` says exactly when it
  cannot). Bybit's claim that the restart event itself is a gap does hold (`ConnectionOrder.BybitRestartIsGap`).
* A snapshot is accepted in Live too, and an old fetch survives a reconnect; neither breaks the theorems.
* A VWAP can fall outside the walked prices because each level's notional is rounded
  (`VwapRange.BandWithinIff`).

`dafny verify dfyconfig.toml` checks the whole project.

## Model

| member | source | states |
|---|---|---|
| `EndToEnd.ClientHoldsTrueBooks` | apps/aggregator/aggregator_service.hpp:605-632 | Whole system, every interleaving of venue strands, book calls, heartbeats, subscriptions, writes, drains, closes and reads on faithful messages: an L2 client never stops on a gap, and whatever revision it is at, even one published in the middle of a venue's action batch, its book is price by price the sum of one book per exchange, each a book that exchange really had |
| `EndToEnd.SettledClientShowsLiveVenues` | include/bobby/hermeneutic/ingestion/venue_session.hpp:336-390 | When no strand is inside a step and an open stream has nothing on its way, the client holds exactly the sum of the Live venues' exchange books at revisions carrying their last applied ids; every other venue contributes nothing |
| `EndToEnd.SettledHeartbeatListsLiveVenues` | apps/aggregator/aggregator_service.hpp:369-394 | A heartbeat sent at such a moment lists, on both streams, exactly the venues whose symbol is Live |
| `EndToEnd.StrandStepPasses` | include/bobby/hermeneutic/ingestion/venue_session.hpp:415-536 | The calls one strand step makes on a symbol's book take the book's view of the venue to the driver's own view, passing only through books the exchange had |
| `EndToEnd.RunOk` | include/bobby/hermeneutic/ingestion/venue_session.hpp:336-390 | Invariant behind both: pending calls of every venue lead from what the server holds for it to what its driver believes, and every revision ever published is a true sum |
| `Truth.LiveBookIsExchangeBook` | include/bobby/hermeneutic/book/symbol_sync.hpp:97-235 | Truth refinement for all four policies: over every run of faithful messages, any lost, repeated, reordered or stale, a Live symbol's book is the exchange's book at a revision carrying last_final_id_ (at that very revision when ids are consecutive), a Buffering symbol contributes nothing, and no intermediate action shows a book the exchange never had; Binance ids are consecutive, Bybit and OKX ids may restart or repeat as long as the exact condition below holds |
| `Truth.SideCatchesUp` | include/bobby/hermeneutic/book/symbol_sync.hpp:192-235 | An event applied on any revision it overlaps or touches (the overlapping bridge included) lands exactly on the exchange's side at its final id |
| `Truth.SnapshotIsBook` | include/bobby/hermeneutic/book/aggregate_order_book.hpp:294-313 | A faithful snapshot installs exactly the exchange's book at its id |
| `Truth.AcceptedEventOverlaps` | include/bobby/hermeneutic/exchange/binance/binance_spot_sequence_policy.hpp:39-49 | With ordinary ids whatever a policy accepts as bridge or continuation covers the id the book is at; for Binance Spot, Binance Futures, Bybit, and OKX with unique ids |
| `Truth.OrdinaryIdsAreReliable` | include/bobby/hermeneutic/exchange/bybit/bybit_sequence_policy.hpp:11-14 | Consecutive Bybit ids and unique OKX ids meet the condition the truth theorem needs |
| `Truth.EventOverlays` | include/bobby/hermeneutic/book/aggregate_order_book.hpp:174-199 | A faithful event overlays, on any revision's book, exactly its prices as they are at its last revision |
| `Truth.StepTruthful` | include/bobby/hermeneutic/book/symbol_sync.hpp:97-285 | One call of any kind keeps buffer, liveness and book true to the exchange |
| `ConnectionOrder.ConnectionOrderTruthIff` | include/bobby/hermeneutic/exchange/okx/okx_sequence_policy.hpp:47-57 | Bybit and OKX: truth over every run holds if and only if, wherever one revision passes for another by its ids alone, its book with any price set covering the change brought up to date is again a book the exchange had under the new id; the condition speaks of the exchange's ids and books only |
| `ConnectionOrder.OkxReusedIdMisleads` | include/bobby/hermeneutic/exchange/okx/okx_sequence_policy.hpp:13-20 | A concrete valid exchange reusing one id on which a Live book is wrong |
| `ConnectionOrder.BybitRestartMisleads` | include/bobby/hermeneutic/exchange/bybit/bybit_sequence_policy.hpp:11-14 | A concrete Bybit restart (ids 1, 2, 1, 2, 3) whose lost messages leave a Live book wrong |
| `ConnectionOrder.BybitRestartIsGap` | include/bobby/hermeneutic/exchange/bybit/bybit_sequence_policy.hpp:23-26 | The documented claim: after any run with real snapshot ids, an event with u = 1 on a Live book invalidates the venue, is kept in the buffer, and the symbol is Buffering at id 0 |
| `Traces.RunAccepted` | include/bobby/hermeneutic/book/symbol_sync.hpp:97-285 | For any policy and any run: every ApplyDelta follows an ApplySnapshot with no InvalidateVenue between, bridges it or continues its id, each later one continues its predecessor; Live means an empty buffer and last_final_id_ equal to the announced id, Buffering means it is 0 |
| `Traces.StepAccepted` | include/bobby/hermeneutic/book/symbol_sync.hpp:97-285 | The same, per call |
| `Traces.BridgeIsFirstSurvivor` | include/bobby/hermeneutic/book/symbol_sync.hpp:137-143 | Binance and Bybit, increasing disjoint ids: the bridge, if any, is the first survivor of the drop filter, and a successful resync applies every survivor in order |
| `Traces.OkxBridgeNeedNotBeFirst` | include/bobby/hermeneutic/exchange/okx/okx_sequence_policy.hpp:47-53 | On OKX, even with increasing chained ids, an event whose id equals the snapshot's survives in front of the bridge and is discarded |
| `Traces.OkxBridgePosition` | include/bobby/hermeneutic/exchange/okx/okx_sequence_policy.hpp:47-57 | Exactly where: with increasing chained ids a bridge that is found is first iff the first buffered event chains to the snapshot, otherwise second, behind the one event carrying the snapshot's id |
| `Traces.LosslessSnapshotGoesLiveIff` | include/bobby/hermeneutic/book/symbol_sync.hpp:126-239 | On a Binance Spot stream that lost nothing, a snapshot takes a Buffering symbol Live if and only if its next id lies within the buffered ids |
| `Traces.LosslessFuturesSnapshotGoesLiveIff` | include/bobby/hermeneutic/exchange/binance/binance_futures_sequence_policy.hpp:32-42 | On a Binance Futures stream that lost nothing, a snapshot takes a Buffering symbol Live if and only if its id lies inside a buffered event; an id between two events asks again |
| `Traces.SurvivorsOfTiling` | include/bobby/hermeneutic/book/symbol_sync.hpp:137-139 | With increasing ids each of the four drop filters removes exactly the prefix the snapshot covers |
| `Conservation.EventsConserved` | include/bobby/hermeneutic/book/symbol_sync.hpp:97-285 | Conservation, for any policy over every run since the last reset: every event fed in was applied, dropped by the filter of a snapshot that arrived, passed over in front of a bridge that was applied, or is still in the buffer; the applied and the buffered ones in order of arrival |
| `Conservation.ResetForgets` | include/bobby/hermeneutic/book/symbol_sync.hpp:241-245 | A disconnect forgets everything before it, so the law holds from each reset on |
| `StreamProgress.LiveStaysLiveIff` | include/bobby/hermeneutic/book/symbol_sync.hpp:97-124 | A depth event takes a Live symbol out of Live if and only if it does not continue the last id; it is then kept and the venue invalidated, otherwise announced as one delta |
| `StreamProgress.LiveFollowsStream` | include/bobby/hermeneutic/book/symbol_sync.hpp:97-124 | Fed events that each continue the one before, a Live symbol stays Live at the last event's id and announces exactly one delta per event |
| `StreamProgress.SnapshotGoesLiveIff` | include/bobby/hermeneutic/book/symbol_sync.hpp:126-239 | A snapshot takes a Buffering symbol Live if and only if connection order is trusted and nothing was ever buffered, or what the filter kept is unbroken from the first bridging event on |
| `StreamProgress.UnbridgedKeepsUncovered` | include/bobby/hermeneutic/book/symbol_sync.hpp:145-190 | A snapshot that nothing bridges leaves exactly the events it does not cover, in order; REST asks again and changes nothing else, a trusted connection invalidates |
| `StreamProgress.FirstSnapshotTaken` | include/bobby/hermeneutic/book/symbol_sync.hpp:160-172 | With nothing ever buffered a trusted connection's snapshot is applied as it is |
| `StreamProgress.LosslessComesBack` | include/bobby/hermeneutic/book/symbol_sync.hpp:126-239 | Binance, nothing lost: after any number of snapshots that miss, the first one inside what they left uncovered takes the symbol Live at the last buffered event's id |
| `StreamProgress.MissesKeepUncovered` | include/bobby/hermeneutic/book/symbol_sync.hpp:184-190 | Those that miss only take away what they cover |
| `StreamProgress.ChainedGoesLive` | include/bobby/hermeneutic/book/symbol_sync.hpp:137-239 | For every shipped policy, if nothing was lost and something kept bridges the snapshot, the symbol goes Live at the last buffered event's id |
| `StreamProgress.NextEventContinues` | include/bobby/hermeneutic/exchange/binance/binance_spot_sequence_policy.hpp:47-49 | Every policy takes the exchange's next event for a continuation |
| `StreamProgress.BridgesIff` | include/bobby/hermeneutic/exchange/binance/binance_spot_sequence_policy.hpp:43-45 | Every policy's bridge test accepts exactly the events that move the exchange's book on from the snapshot's revision; on Futures those whose announced ids hold the snapshot's own |
| `StreamProgress.DropsIff` | include/bobby/hermeneutic/exchange/binance/binance_spot_sequence_policy.hpp:39-41 | The filter drops exactly the events that end too early for that |
| `StreamProgress.LiveFollowsExchange` | include/bobby/hermeneutic/book/symbol_sync.hpp:97-124 | Fed what the exchange reports next, a Live symbol stays Live on the exchange's newest book |
| `StreamProgress.ConnectionOrderComesUp` | include/bobby/hermeneutic/book/symbol_sync.hpp:160-172 | Bybit and OKX: a fresh connection's snapshot and what is reported after it end Live on the exchange's newest book |
| `StreamProgress.TrustedComesBack` | include/bobby/hermeneutic/book/symbol_sync.hpp:192-239 | Bybit and OKX: a lossless buffer and the snapshot of a revision it starts from or passes end Live on the exchange's book at the last buffered revision |
| `StreamProgress.BinanceComesBack` | include/bobby/hermeneutic/book/symbol_sync.hpp:192-239 | Binance: a lossless buffer and a snapshot inside it end Live on the exchange's book at the last buffered revision |
| `StreamProgress.SpotSnapshotInside` | include/bobby/hermeneutic/exchange/binance/binance_spot_sequence_policy.hpp:43-45 | On Spot a snapshot lies inside exactly when the buffer covers the successor of its revision |
| `StreamProgress.AsksOncePerPeriod` | include/bobby/hermeneutic/book/symbol_sync.hpp:89-95 | A connect asks for a snapshot if and only if the symbol is Buffering and no connect has asked since the last reset or gap |
| `SyncMachine.SymbolSync.OnConnected` | include/bobby/hermeneutic/book/symbol_sync.hpp:89-95 | Requests a snapshot once per Buffering period; state and actions are those of the specified transition |
| `SyncMachine.SymbolSync.OnDepthUpdate` | include/bobby/hermeneutic/book/symbol_sync.hpp:97-124 | Buffers, applies or reports a gap as the specified transition does |
| `SyncMachine.SymbolSync.OnSnapshot` | include/bobby/hermeneutic/book/symbol_sync.hpp:126-239 | Filter, bridge search, connection-order special case and replay agree with the specified transition in state and actions |
| `SyncMachine.SymbolSync.ReplayFrom` | include/bobby/hermeneutic/book/symbol_sync.hpp:192-235 | The replay applies the longest contiguous run, then goes Live or keeps exactly the unresolved tail |
| `SyncMachine.SymbolSync.ReplayRun` | include/bobby/hermeneutic/book/symbol_sync.hpp:217-228 | The replay loop stops at the end or at the first event that does not continue its predecessor, having applied everything before it |
| `SyncMachine.SymbolSync.OnDisconnected` | include/bobby/hermeneutic/book/symbol_sync.hpp:241-245 | Full reset and one InvalidateVenue |
| `SyncMachine.SymbolSync.HandleGap` | include/bobby/hermeneutic/book/symbol_sync.hpp:272-285 | Keeps exactly the unresolved events, goes Buffering at id 0 with no request pending, and announces one InvalidateVenue |
| `Resync.RunLength` | include/bobby/hermeneutic/book/symbol_sync.hpp:217-228 | Longest prefix in which every event continues its predecessor, maximal |
| `Resync.BridgeIndex` | include/bobby/hermeneutic/book/symbol_sync.hpp:141-143 | First bridging event, or none |
| `Resync.Survivors` | include/bobby/hermeneutic/book/symbol_sync.hpp:137-139 | An event is kept if and only if it was buffered and is not droppable |
| `Resync.SurvivorsInOrder` | include/bobby/hermeneutic/book/symbol_sync.hpp:137-139 | Every place holding an event that is not droppable is kept exactly once, in buffer order |
| `SessionSafety.RunSound` | include/bobby/hermeneutic/ingestion/venue_session.hpp:194-309 | Over every run: contributions only for known registered symbols, sync states well formed, nothing contributed and every sync fresh whenever not connected, no fetch before start or after completion |
| `SessionSafety.CompletionIsFinal` | include/bobby/hermeneutic/ingestion/venue_session.hpp:146-185 | Once completion fires: stop was called, no fetch is in flight or unerased, no book holds the venue, and no later step changes anything |
| `SessionSafety.StoppingStartsNothing` | include/bobby/hermeneutic/ingestion/venue_session.hpp:415-452 | After stop() no step starts another fetch, and stopping is never undone |
| `SessionSafety.DrainingOnlyShrinks` | include/bobby/hermeneutic/ingestion/venue_session.hpp:651-658 | While draining every step changes nothing or brings completion strictly closer, and with nothing left the next poll completes |
| `SessionSafety.RunFetchesIff` | include/bobby/hermeneutic/ingestion/venue_session.hpp:353-390 | Never stuck, exactly: after every prefix of a run each Buffering symbol of a connected, non-stopping REST venue has a snapshot fetch in flight, if and only if no unparseable body ever arrives for a Buffering symbol's only fetch |
| `SessionSafety.UnparseableBodySticks` | include/bobby/hermeneutic/ingestion/venue_session.hpp:584-585 | A concrete run from construction that does get stuck: the first fetched body does not parse |
| `SessionSafety.BufferingAlwaysFetches` | include/bobby/hermeneutic/ingestion/venue_session.hpp:353-390 | In particular with parseable bodies, rejected levels allowed |
| `SessionSafety.UnparseableBodySticksIff` | include/bobby/hermeneutic/ingestion/venue_session.hpp:584-585 | The step behind it: an unparseable body leaves the venue unstuck if and only if the symbol is Live or another fetch of it is in flight |
| `SessionSafety.GapDropsConnection` | include/bobby/hermeneutic/ingestion/venue_session.hpp:380-390 | A gap or rejected level costs a connection-order venue its connection, every book cleared and every sync fresh |
| `SessionSafety.TrustedSymbolStaysLive` | include/bobby/hermeneutic/ingestion/venue_session.hpp:380-390 | So while such a venue stays online, a symbol whose snapshot has arrived since connecting is Live |
| `SessionSafety.OfflineFetch` | include/bobby/hermeneutic/ingestion/venue_session.hpp:549-616 | A fetch that outlived its connection finds nothing to bridge and only asks again |
| `SessionSafety.SettleCases` | include/bobby/hermeneutic/ingestion/venue_session.hpp:353-390 | What executing an outcome does to the whole session: no gap, gap with reconnect, gap with another snapshot request |
| `SessionTruth.RunAgreesIff` | include/bobby/hermeneutic/ingestion/venue_session.hpp:336-341 | Between any two steps the venue is in a symbol's book exactly when the symbol is Live, if and only if no REST step executes a batch that has a rejected action and ends in an accepted one |
| `SessionTruth.ValidLevelsAgree` | include/bobby/hermeneutic/ingestion/venue_session.hpp:415-536 | In particular always, when every level received is valid |
| `SessionTruth.RejectedSnapshotRevivesVenue` | include/bobby/hermeneutic/ingestion/venue_session.hpp:501-533 | A concrete run from construction (start, resume, connect, one depth event, one fetched snapshot) that leaves a Buffering venue in the book |
| `SessionTruth.BatchAgreesIff` | include/bobby/hermeneutic/ingestion/venue_session.hpp:336-342 | The same if and only if for one executed batch |
| `SessionTruth.SessionShowsExchangeBooks` | include/bobby/hermeneutic/ingestion/venue_session.hpp:194-309 | Over every run of connects, drops, gaps, retries and stops on faithful messages, each contribution is the exchange's book at the last applied id while Live (and then the session is online), and absent otherwise |
| `Session.ExecuteKeeps` | include/bobby/hermeneutic/ingestion/venue_session.hpp:336-342 | A batch touches one symbol only, resets its sync iff a level was rejected, and reports a gap iff one was rejected or the venue was invalidated |
| `SessionProgress.SymbolsRunTheirMachine` | include/bobby/hermeneutic/ingestion/venue_session.hpp:194-616 | Refinement: over every run of the driver each symbol's machine is exactly where the machine alone ends up on what was delivered to it (connects, drops, messages, fetched snapshots, and the answers to gaps and rejected levels) |
| `SessionProgress.ComesOnline` | include/bobby/hermeneutic/ingestion/venue_session.hpp:196-284 | Progress: from every reachable state that is not stopping the remaining waits bring the venue online with every symbol Live or asked for, and on a fresh connection with every symbol's fetch in flight |
| `SessionProgress.StopCompletes` | include/bobby/hermeneutic/ingestion/venue_session.hpp:146-185 | Progress after stop(): from every reachable state the pending wait and the returns of the fetches in flight, with any bodies, complete the session |
| `SessionProgress.RunAsked` | include/bobby/hermeneutic/ingestion/venue_session.hpp:353-390 | While online every symbol is Live or its snapshot has been requested |
| `Driver.VenueSession.constructor` | include/bobby/hermeneutic/ingestion/venue_session.hpp:109-144 | Starts idle with fresh syncs and no contribution |
| `Driver.VenueSession.Start` | include/bobby/hermeneutic/ingestion/venue_session.hpp:146-168 | Completes at once if already stopping, else spawns run() |
| `Driver.VenueSession.Stop` | include/bobby/hermeneutic/ingestion/venue_session.hpp:170-185 | Only sets the stop flag; cancellation shows up as later steps |
| `Driver.VenueSession.ExecuteAction` | include/bobby/hermeneutic/ingestion/venue_session.hpp:415-536 | One action on book, syncs and fetches, with the rejected-apply path, as specified |
| `Driver.VenueSession.ExecuteActions` | include/bobby/hermeneutic/ingestion/venue_session.hpp:336-342 | Every action runs whatever an earlier one did; any gap is remembered |
| `Driver.VenueSession.InvalidateEverySymbol` | include/bobby/hermeneutic/ingestion/venue_session.hpp:305-309 | All syncs reset, all contributions gone, in any order |
| `Driver.VenueSession.ConnectEverySymbol` | include/bobby/hermeneutic/ingestion/venue_session.hpp:215-217 | Every Buffering symbol without a request gets one fetch, in any order |
| `Driver.VenueSession.ExecuteAndMaybeForceReconnect` | include/bobby/hermeneutic/ingestion/venue_session.hpp:380-390 | Outcome executed and gap answered by reconnect or re-fetch, as specified |
| `Driver.VenueSession.DispatchDepthUpdate` | include/bobby/hermeneutic/ingestion/venue_session.hpp:402-407 | One strand step for a depth message |
| `Driver.VenueSession.DispatchSnapshot` | include/bobby/hermeneutic/ingestion/venue_session.hpp:395-400 | One strand step for a pushed snapshot |
| `Driver.VenueSession.HandleRequestSnapshot` | include/bobby/hermeneutic/ingestion/venue_session.hpp:549-616 | A returned fetch: discarded when stopping or not REST, dropped when unparseable, else executed and its gap answered |
| `Driver.VenueSession.RunStep` | include/bobby/hermeneutic/ingestion/venue_session.hpp:194-299 | run() between suspension points: connect, drop, backoff, drain poll |
| `Driver.VenueSession.EraseFetch` | include/bobby/hermeneutic/ingestion/venue_session.hpp:441-451 | A finished fetch leaves the in-flight list |
| `Aggregate.AggregateUnique` | include/bobby/hermeneutic/book/aggregate_order_book.hpp:211-313 | The venues determine the aggregate: a price is a key if and only if the venues' sum there is positive |
| `Aggregate.FoldTracks` | include/bobby/hermeneutic/book/aggregate_order_book.hpp:243-272 | Folding any valid batch leaves the other venues' share of every price untouched, keeps every stored size positive, and replaying its reports on the old aggregate gives the new one |
| `Aggregate.ReportedIff` | include/bobby/hermeneutic/book/aggregate_order_book.hpp:265-272 | A price is reported if and only if some entry for it differs from what the venue had there |
| `Aggregate.DistinctFoldExact` | include/bobby/hermeneutic/book/aggregate_order_book.hpp:265-272 | Without duplicate prices each price is reported exactly once iff its aggregate size changed |
| `Aggregate.DuplicateReportsSpuriously` | include/bobby/hermeneutic/book/aggregate_order_book.hpp:189-194 | With duplicates a price can be reported although nothing changed |
| `AggregateBook.AggregateOrderBook.constructor` | include/bobby/hermeneutic/book/aggregate_order_book.hpp:52-62 | Empty, and the empty sum |
| `AggregateBook.AggregateOrderBook.ApplySnapshot` | include/bobby/hermeneutic/book/aggregate_order_book.hpp:128-148 | Venue book replaced (first duplicate wins), aggregate again the sum over all venues, reports exact and replayable; a rejected call changes nothing |
| `AggregateBook.AggregateOrderBook.ApplyBatch` | include/bobby/hermeneutic/book/aggregate_order_book.hpp:174-199 | Venue book updated (last duplicate wins), aggregate again the sum, reports replayable and exact for duplicate-free batches; a rejected call changes nothing |
| `AggregateBook.AggregateOrderBook.InvalidateVenue` | include/bobby/hermeneutic/book/aggregate_order_book.hpp:87-110 | Venue gone, aggregate again the sum of the others, reports exact and replayable; unknown venue changes nothing |
| `AggregateBook.ResyncSide` | include/bobby/hermeneutic/book/aggregate_order_book.hpp:294-313 | The erase-while-iterating resync, in any order, equals folding some valid duplicate-free list of entries, and leaves the venue's side at the snapshot's positive part (first duplicate wins) |
| `AggregateBook.InvalidateSide` | include/bobby/hermeneutic/book/aggregate_order_book.hpp:96-105 | Subtracting every level, in any order, equals folding some valid duplicate-free list of entries, and leaves the venue's side empty |
| `AggregateBook.ApplySide` | include/bobby/hermeneutic/book/aggregate_order_book.hpp:189-194 | The batch loop is the fold |
| `Levels.SnapshotDenotes` | include/bobby/hermeneutic/book/aggregate_order_book.hpp:297-297 | A list stating a side and covering its prices rebuilds exactly that side |
| `Levels.SnapshotFirstWins` | include/bobby/hermeneutic/book/aggregate_order_book.hpp:294-313 | In a snapshot the first entry for a price decides its size |
| `Levels.ApplyLevelsSizeAt` | include/bobby/hermeneutic/book/aggregate_order_book.hpp:211-223 | After a batch the size at a price is its last entry's, or unchanged |
| `Levels.InOrderBestFirst` | include/bobby/hermeneutic/book/l2_order_book.hpp:12-34 | Iterating a side goes from its best price to its worst, each price once |
| `Publishing.SeqAdvancesIff` | apps/aggregator/aggregator_service.hpp:605-619 | Snapshots, invalidations and duplicate-free batches advance the sequence number if and only if the aggregate changed; any batch if and only if some entry differs from what the venue had |
| `Publishing.RunBookOk` | apps/aggregator/aggregator_service.hpp:605-632 | At every lock release the aggregate is the sum over venues and the cached best bid and ask are its best levels |
| `Publishing.HistoryRemembers` | apps/aggregator/aggregator_service.hpp:605-619 | A revision number stands for one aggregate, for ever |
| `Replication.ReplicaIsAggregate` | apps/aggregator/client_main.cpp:671-712 | Replica correctness over every interleaving: the client never sees a gap, its book at revision k is the server's aggregate whenever the server was at k, and an open stream with nothing on its way has its client at the current revision |
| `Replication.WrittenStreamIsPrefix` | apps/aggregator/aggregator_service.hpp:692-719 | What is on the wire continues from where the client is: a snapshot, then consecutive revisions and heartbeats |
| `Delivery.ClientCatchesUp` | apps/aggregator/aggregator_service.hpp:692-719 | Delivery: from every reachable state of an open stream its handler's writes and drains and its client's reads bring the client to the server's aggregate at the server's revision |
| `Delivery.OverflownStreamEnds` | apps/aggregator/aggregator_service.hpp:703-708 | And end a stream closed by an overflow, with everything it wrote read |
| `Delivery.FailuresEnd` | apps/aggregator/aggregator_service.hpp:709-718 | A failed write and a cancelled call end the stream |
| `Replication.OfferOk` | apps/aggregator/aggregator_service.hpp:99-128 | Broadcasting a revision or heartbeat keeps a stream on track, also when the queue overflows and closes |
| `Replication.SubscribeOk` | apps/aggregator/aggregator_service.hpp:458-475 | Capturing the snapshot and registering the queue under one lock starts a stream on track |
| `Wire.DiffSideReplays` | apps/aggregator/aggregator_service.hpp:493-536 | A diff built from the collected reports takes a replica from the old aggregate side to the new one |
| `Wire.SnapshotRoundTrip` | apps/aggregator/aggregator_service.hpp:556-571 | A replica that reads a snapshot holds the aggregate it was built from |
| `Wire.MessagesSorted` | apps/aggregator/aggregator_service.hpp:493-536 | Snapshots and diffs list bids from the highest price down and asks from the lowest up, each price once |
| `Wire.DiffListsChanges` | apps/aggregator/aggregator_service.hpp:493-536 | A diff built from exact reports lists exactly the prices that changed, at their new sizes |
| `Wire.BestIsTop` | apps/aggregator/aggregator_service.hpp:573-585 | The best levels are the highest bid and the lowest ask with their sizes, or none on an empty side |
| `Wire.WrongRevisionStops` | apps/aggregator/client_book.hpp:52-54 | A client stops exactly on a diff that is not its next revision, keeping what it has; any other diff moves it to that revision |
| `Wire.CollectedEmpty` | apps/aggregator/aggregator_service.hpp:605-606 | The collected change list is empty exactly when nothing was reported, so the early return on an empty list is the same test as on the reports |
| `Wire.ApplyWireLevels` | apps/aggregator/client_book.hpp:36-46 | The in-place level loop computes the specified replica side |
| `Wire.L2Client.OnUpdate` | apps/aggregator/client_main.cpp:671-712 | One round of the read loop: snapshot replaces, diff applies or stops on a gap, heartbeat changes nothing |
| `TopOfBook.LatestBboIsBest` | apps/aggregator/aggregator_service.hpp:573-632 | The latest Bbo offered to a subscriber is the aggregate's highest bid and lowest ask; its handler has taken it or it is still queued, unless at least 256 newer messages, all heartbeats, followed it; the queue never closes and never exceeds 1024 |
| `TopOfBook.OffersExactlyOnMove` | apps/aggregator/aggregator_service.hpp:621-632 | An ingest offers every subscriber one Bbo, the new top under the new revision, exactly when the highest bid or lowest ask changed |
| `Queues.DropOldestHoldsNewest` | apps/aggregator/aggregator_service.hpp:99-151 | A DropOldest queue never closes and always holds a contiguous suffix of what was pushed since the last drain, at least the newest min(n, capacity), at most 4*capacity |
| `Queues.LostOnlyBehindCapacity` | apps/aggregator/aggregator_service.hpp:99-128 | A message is gone only if at least capacity newer ones followed it |
| `Queues.CloseLosesNothing` | apps/aggregator/aggregator_service.hpp:99-151 | A Close queue holds everything pushed since the last drain until it closes, and is empty from then on |
| `Queues.ClosesExactlyAtLimit` | apps/aggregator/aggregator_service.hpp:99-128 | A Close queue closes exactly when one more message arrives on top of its limit pushed since the last drain: four times the capacity until the bootstrap ends, the capacity from then on |
| `Queues.DropOldestExactly` | apps/aggregator/aggregator_service.hpp:99-128 | A DropOldest queue holds exactly the newest messages up to four times the capacity while bootstrapping, and up to the capacity from the first drain after it |
| `Fanouts.SubscriberQueue.PushOrClose` | apps/aggregator/aggregator_service.hpp:99-128 | Push, drop or close as specified, with the result code telling which |
| `Fanouts.SubscriberQueue.EndBootstrap` | apps/aggregator/aggregator_service.hpp:132-135 | Only the limit changes: an over-full queue keeps its messages |
| `Fanouts.SubscriberQueue.WaitAndDrain` | apps/aggregator/aggregator_service.hpp:141-151 | Everything queued, front first, or nothing from a closed queue |
| `Fanouts.Fanout.Subscribe` | apps/aggregator/aggregator_service.hpp:192-196 | A fresh queue is registered, no other touched |
| `Fanouts.Fanout.Unsubscribe` | apps/aggregator/aggregator_service.hpp:202-202 | Only this queue is dropped, no other touched |
| `Fanouts.Fanout.Broadcast` | apps/aggregator/aggregator_service.hpp:224-233 | Every subscriber's queue gets the message once, no other is touched; those already closed are not notified |
| `SymbolBooks.SymbolBook.ApplySnapshot` | apps/aggregator/aggregator_service.hpp:274-298 | One critical section: the aggregate's promise for the operation, then its reports published; the cached best levels stay the aggregate's |
| `SymbolBooks.SymbolBook.ApplyBatch` | apps/aggregator/aggregator_service.hpp:309-339 | One critical section: the aggregate's promise for the operation, then its reports published; the cached best levels stay the aggregate's |
| `SymbolBooks.SymbolBook.InvalidateVenue` | apps/aggregator/aggregator_service.hpp:345-356 | One critical section: the aggregate's promise for the operation, then its reports published; the cached best levels stay the aggregate's |
| `SymbolBooks.SymbolBook.Publish` | apps/aggregator/aggregator_service.hpp:605-632 | Nothing without reports; otherwise one revision, its diff in every L2 queue, a Bbo in every top-of-book queue iff the best bid or ask moved |
| `SymbolBooks.SymbolBook.SendHeartbeat` | apps/aggregator/aggregator_service.hpp:369-394 | One heartbeat with the live venues into every queue of both streams, nothing else changed |
| `SymbolBooks.IngestSimulated` | apps/aggregator/aggregator_service.hpp:605-632 | What the three operations do to the object's view is the state machine's ingest step, queue by queue |
| `SymbolBooks.HeartbeatSimulated` | apps/aggregator/aggregator_service.hpp:369-394 | What a heartbeat does to it is the machine's heartbeat step |
| `SymbolBooks.SubscribeSimulated` | apps/aggregator/aggregator_service.hpp:458-467 | What subscribing does to it is the machine's subscribe step, with the same captured snapshot |
| `SymbolBooks.SubscribeTopSimulated` | apps/aggregator/aggregator_service.hpp:458-467 | The same for the top of book |
| `SymbolBooks.UnsubscribeSimulated` | apps/aggregator/aggregator_service.hpp:410-413 | What unsubscribing does to it is what any step of the machine that ends the stream does |
| `SymbolBooks.UnsubscribeTopSimulated` | apps/aggregator/aggregator_service.hpp:427-430 | The same for the top of book |
| `SymbolBooks.SymbolBook.Unsubscribe` | apps/aggregator/aggregator_service.hpp:410-413 | Only this queue is dropped |
| `SymbolBooks.SymbolBook.UnsubscribeTop` | apps/aggregator/aggregator_service.hpp:427-430 | Only this queue is dropped |
| `SymbolBooks.SymbolBook.Subscribe` | apps/aggregator/aggregator_service.hpp:458-475 | Snapshot of the current revision and a fresh registered queue in one critical section |
| `SymbolBooks.SymbolBook.SubscribeTop` | apps/aggregator/aggregator_service.hpp:420-423 | The same for the top of book |
| `PriceBands.PriceBandDepth` | include/bobby/hermeneutic/book/price_bands.hpp:228-284 | Succeeds iff the thresholds are sorted and in range, the reference positive, the levels the walk reaches valid, the boundaries and the deepest total in range; then band k reports its threshold, the farthest member price, and the totals of exactly the levels whose distance is at most that many ten-thousandths of the reference |
| `PriceBands.BboPriceBandDepths` | include/bobby/hermeneutic/book/price_bands.hpp:155-165 | The same against the side's own best price; an empty side gives no bands but still checks its thresholds |
| `PriceBands.BoundaryDecidesMembership` | include/bobby/hermeneutic/book/price_bands.hpp:86-134 | An ask is within the threshold iff its price is at most the floored boundary, a bid iff at least the ceiled one |
| `PriceBands.MembershipInBasisPoints` | include/bobby/hermeneutic/book/price_bands.hpp:86-97 | A price is a member iff its distance beyond the reference, times 10000, is at most the reference times the threshold |
| `PriceBands.BoundaryIsFarthest` | include/bobby/hermeneutic/book/price_bands.hpp:63-83 | The boundary is the farthest member price |
| `PriceBands.ThresholdsInBasisPoints` | include/bobby/hermeneutic/book/price_bands.hpp:142-149 | Thresholds must be sorted and not negative, and on the bid side below 10000 |
| `PriceBands.NotionalIsNearest` | include/bobby/hermeneutic/core/fixed_point.hpp:266-281 | A level's notional is price times size over a million, to the nearest integer, ties away from zero |
| `PriceBands.WiderReachesFarther` | include/bobby/hermeneutic/book/price_bands.hpp:63-134 | Boundaries and membership are monotone in the threshold |
| `PriceBands.MembersArePrefix` | include/bobby/hermeneutic/book/price_bands.hpp:251-270 | The levels within a threshold are the prefix the walk stops at |
| `VolumeBands.VolumeBandPrices` | include/bobby/hermeneutic/book/volume_bands.hpp:162-227 | Succeeds iff the thresholds are sorted and positive, every level is valid, the total is in range and no threshold's partial fill fails the magnitude guard; then one band per threshold, echoing it, with a VWAP unless the side's summed notional falls short of it, and filled the smaller of the two; each equal to its per-threshold definition; with valid levels the only other failure is out of range |
| `VolumeBands.BandFailsIff` | include/bobby/hermeneutic/book/volume_bands.hpp:76-129 | A threshold has no band if and only if it is reached inside a level and threshold times that level's price exceeds the 128-bit limit over the scale |
| `VolumeBands.CrossingMeetsInvariants` | include/bobby/hermeneutic/book/volume_bands.hpp:186-214 | What a partial fill assumes of its arguments holds at every crossing level of a side in raw range |
| `VolumeBands.EmittedVwapExact` | include/bobby/hermeneutic/book/volume_bands.hpp:186-214 | Every VWAP emitted, on either branch, is the exact rational of spent over bought, to the nearest integer, ties away from zero, with no term leaving 128 bits |
| `VolumeBands.CrossedIffReached` | include/bobby/hermeneutic/book/volume_bands.hpp:188-219 | A threshold has a VWAP iff the whole side's summed level notional reaches it |
| `VolumeBands.Crossing` | include/bobby/hermeneutic/book/volume_bands.hpp:177-190 | The crossing level is the first whose running total reaches the threshold |
| `VolumeBands.RemainderBounds` | include/bobby/hermeneutic/book/volume_bands.hpp:191-191 | The remainder at the crossing level is in (0, level notional] |
| `VolumeBands.FullLevelDivides` | include/bobby/hermeneutic/book/volume_bands.hpp:194-207 | The crossing level has positive size, so the full-level division cannot fail |
| `VolumeBands.PartialFillExact` | include/bobby/hermeneutic/book/volume_bands.hpp:76-129 | Under the caller's invariants no intermediate leaves 128 bits, only the joint magnitude check can fail, and a returned value is the exact rational rounded to nearest, ties away from zero |
| `VolumeBands.PartialFillBetween` | include/bobby/hermeneutic/book/volume_bands.hpp:76-129 | With something accumulated the VWAP lies between the rounded average so far and the level price |
| `VolumeBands.FirstFillIsPrice` | include/bobby/hermeneutic/book/volume_bands.hpp:76-129 | With nothing accumulated it is the level price exactly |
| `VolumeBands.CrossedBand` | include/bobby/hermeneutic/book/volume_bands.hpp:191-214 | The two-way VWAP computation from running totals gives the threshold's own band |
| `VwapRange.BandWithinIff` | include/bobby/hermeneutic/book/volume_bands.hpp:186-214 | A band's VWAP stays within [lo, hi] if and only if the drift is tolerable: on a full level the total notional misses the range by at most half a price unit per size, on a partial fill the earlier levels' miss, weighted by the price, is covered by the remainder's distance to the range and half the rounding interval |
| `VwapRange.LargeFillStaysWithin` | include/bobby/hermeneutic/book/volume_bands.hpp:194-207 | Taking a whole list averaging more than one unit of size per level stays within its prices |
| `VwapRange.DeepSideStaysWithin` | include/bobby/hermeneutic/book/volume_bands.hpp:186-214 | If every prefix of the side averages more than one unit of size per level, every band, on either branch, shows a VWAP within the prices it took |
| `VwapRange.SmallFillLeavesRange` | include/bobby/hermeneutic/book/volume_bands.hpp:194-207 | A concrete single level, taken whole, whose VWAP is twice its only price |
| `VwapRange.PartialFillLeavesRange` | include/bobby/hermeneutic/book/volume_bands.hpp:208-210 | A concrete partial fill whose VWAP is below every price, because an earlier level's notional rounds to nothing and its size still dilutes |
| `VwapRange.NotionalDrift` | include/bobby/hermeneutic/core/fixed_point.hpp:266-281 | Rounding each level's notional drifts the total by at most half a unit per level |
| `Decimal.FromDecimalString` | include/bobby/hermeneutic/core/fixed_point.hpp:92-188 | Succeeds iff the text is in the grammar and its exact rational times 10^decimals, rounded half away from zero, has magnitude at most int64 max, and returns that value with the text's sign, for any fraction length; text in the grammar fails only as out of range, and invalid-argument means it is not in the grammar |
| `Decimal.ReadBack` | include/bobby/hermeneutic/core/fixed_point.hpp:92-188 | Round trip: every raw value but the lowest reads back from its own digits |
| `Decimal.DigitsAreTheTen` | include/bobby/hermeneutic/core/fixed_point.hpp:122-124 | The digits are the ten decimal ones |
| `Decimal.ParsesIffInGrammar` | include/bobby/hermeneutic/core/fixed_point.hpp:98-116 | Splitting at the sign and first point accepts exactly the grammar |
| `Decimal.FracValueExact` | include/bobby/hermeneutic/core/fixed_point.hpp:136-163 | Using at most decimals+1 fraction digits gives the same rounding as the whole fraction |
| `Decimal.MagnitudeSplits` | include/bobby/hermeneutic/core/fixed_point.hpp:165-186 | Integer part and rounded fraction add up to the rounded whole, carry included |
| `Decimal.ParseInteger` | include/bobby/hermeneutic/core/fixed_point.hpp:122-130 | The integer loop gives up exactly on a non-digit or beyond int64 max |
| `Decimal.ParseFraction` | include/bobby/hermeneutic/core/fixed_point.hpp:136-143 | The fraction loop reads the first decimals+1 digits and checks the rest |
| `Decimal.RoundFraction` | include/bobby/hermeneutic/core/fixed_point.hpp:145-163 | Rounding or padding yields the rounded fraction |
| `Decimal.Assemble` | include/bobby/hermeneutic/core/fixed_point.hpp:165-186 | Carry, range check and sign without leaving 128 bits |
| `Rounding.RoundIsNearestAway` | include/bobby/hermeneutic/core/rounding.hpp:21-33 | The result is the nearest integer, ties away from zero, for either sign |
| `Rounding.NearestAwayUnique` | include/bobby/hermeneutic/core/rounding.hpp:21-33 | And the only such integer |
| `Rounding.RoundStaysInRange` | include/bobby/hermeneutic/core/rounding.hpp:21-33 | No intermediate leaves the 128-bit range, for every 128-bit numerator and positive denominator |
| `Rounding.RoundMonotone` | include/bobby/hermeneutic/core/rounding.hpp:21-33 | Rounding preserves the order of fractions |

## Left out

- Sockets, TLS, HTTP, WebSocket timeouts, cancellation latching, backoff timing and the healthy-uptime counter: only that a connect succeeds, a drop happens, a wait ends or a fetch returns.
- The retry loop inside a fetch: a fetch stays in flight until it returns a body or is discarded.
- JSON feed parsing, configuration, command-line flags, symbol naming and wire id conversion.
- The ingestion runner, the server's main program and the client's signal and canceller threads.
- Mutexes and condition variables: each critical section is one atomic step; wake-up timing is not modelled.
- Allocation failure, which the source documents as not rolled back; logging, hashing, wall-clock timestamps and doubles.
- Wrap-around of 64-bit sequence ids, and 64-bit overflow where the source only asserts (`from_raw_checked`, summed sizes): ids are naturals and sizes unbounded there. Checked ranges (`from_raw_safe`, the 128-bit guard, the parser) are modelled.
- Truth.AcceptedEventOverlaps: needs ordinary ids; with restarted or reused ids what is accepted is decided by `ConnectionOrder.ConnectionOrderTruthIff`.
- Actions carry the whole message, ids included, so that the ordering theorem can speak about them; the driver reads only the levels.
- The iteration order of the symbol, venue and subscriber maps is left open: the loops pick any element next, and the results hold for every order.
- Driver.VenueSession.Stop: does not model the cancellation of waits; the woken coroutine is the next step.
- A failed write and the unsubscribe that follows it are one step; what is pushed in between reaches nobody.
- Syncs, books and queues are values inside the driver and server state machines; the classes show the same operations in place.
- Reading the top-of-book stream at the client and printing bands: no state beyond the message shown.
- Truth.LiveBookIsExchangeBook: for Bybit and OKX it assumes the condition that `ConnectionOrder.ConnectionOrderTruthIff` shows to be exact; for Binance it assumes consecutive ids, as its documentation promises.
- VwapRange.DeepSideStaysWithin: a sufficient condition on sizes; the exact one is `VwapRange.BandWithinIff`.
