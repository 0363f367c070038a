# A verified model of the local exchange

This project models a small exchange: a single-writer matching engine, the pooled
order book under it, a market-data replica fed by a lossy delta stream, a client-side
order manager, a write-ahead journal with startup replay, the single-producer
single-consumer queues between the server's threads, and the reconstruction of books
from exchange feeds. `dafny verify dfyconfig.toml` checks everything.

## How it is laid out

* **Values.** `Types`, `Book` (price-time queues), `Position` (fills, cash, PnL), `Sums`.
* **The exchange.** `EngineSpec` and `Exchange` give the meaning of one command as a pure
  function `Exchange.Process`, written as the simple rule "repeatedly take the best-priced,
  oldest crossing opposite order". `Engine` holds the class `MatchingEngine`, which plans
  the sweep, reserves the resting node first (so the book is crossed for a while), cancels
  a replaced order and then commits fill by fill; every method is proved against the pure
  function through the commutation lemmas of `Refinement`. `Agreement` and `Exposure` hold
  the inductive invariant, `Outcome` and `Sequencing` what callers may rely on, `Audit` the
  engine's own consistency check.
* **What it all means.** Told of orders, limits, queues, trades, bytes and records alone,
  without the functions that compute them: `BookLaws` (book operations, level by level),
  `Accounting` (positions), `Limits` (when an order is admitted), `CancelLaws`, `SweepLaws`,
  `EntryLaws`, `CommandLaws` (the whole effect of each command), `LocalCheck` (the client's
  check before sending), `ReplicaFreshness` (when a replica may call itself synchronised),
  `FrameLayout` (every byte of a frame and of a journal), `FeedLaws` and `ItchLaws` (feed
  events and messages).
* **Replicas of that state.** `Deltas`, `Replica`, `ReplicaSafety`, `MarketReplica`
  (market data); `Manager`, `ManagerSimulation`, `OrderManager`, `Admission` (one client's
  orders and positions); `Replay`, `Journal`, `Restart`, `Retries` (the whole engine from
  disk, and what a client may rely on across a crash).
* **Data structures.** `OrderBook`, `PooledBook`, `BookQueries`, `BookAudit` (levels, FIFO
  lists, index, slots, failing allocations, the price-time visitor); `Pool` (fixed-slot
  pool); `LFQueue` (the ring as interleaved atomic steps), `SpscQueue` (the ring as an
  object); `Codec` (the 96-byte frame); `Arithmetic`.
* **Threads.** `Drain`: the I/O, engine and publisher loops with their stop flags;
  `DrainProgress`: why draining them cannot get stuck.
* **Feeds.** `FeedSpec`, `FeedFilter`, `FeedAgreement`, `FeedBooks` (reconstruction and
  symbol filter); `Itch`, `ItchDecoder`, `Extraction` (Nasdaq TotalView-ITCH 5.0 records
  and the extraction of one symbol's sample).

## What is assumed

* Cash is an exact integer; average price and PnL are exact reals (the program uses
  `long double`). A fill of size zero never occurs: the engine plans none.
* Counters and identifiers are unbounded except where wrapping is the point (`LFQueue`,
  `SpscQueue`), where width decides the outcome (`Codec`, `Journal`, `FeedSpec`), and where
  the exposure bound shows that nothing can overflow.
* At engine level the only failing allocation is an exhausted book pool, and the engine's
  and the replica's books have the same number of slots; the order book itself is proved
  against every choice of failing allocations.
* The order server hands the engine nothing but commands (src/trading/server.cpp:324-330).
* Threads interleave at single atomic actions (sequential consistency); a thread may throw
  between any two of them.

## Findings about the program

* A refused out-of-sequence command, or one with request number zero, is answered with a
  `Complete` that repeats the command's own `remaining` (src/trading/engine.cpp:335-348).
  A client whose order manager consumes it drops or resizes an order that is still resting
  (`ManagerSimulation.RefusedCommandEchoes` says exactly how,
  `ManagerSimulation.SkippedRequestLosesOrder` gives a command that loses an order), and
  `ManagerSimulation.ProcessInStep` is the exact condition under which manager and engine
  stay in step.
* When the slot size is not a multiple of the alignment, the pool hands out misaligned
  slots and then ignores their return. `Pool.SlotsAligned` is the exact condition,
  `Pool.LeakMisalignedSlot` the pool of two slots that is left with one, and by the contract
  of `Pool.FixedSlotPool.Deallocate` no later call brings the other back. This is a property
  of the pool's own interface: its only caller, the allocator adaptor, asks for the size and
  alignment of a type, and a type's size is a multiple of its alignment.
* A crash while a new journal is getting its header leaves one to fifteen bytes that every
  later start refuses, although nothing has been lost (`Restart.TornHeaderRefused`).
* `Journal::append` does not look at the message: appending anything but an effective
  command makes the whole file unreadable (`JournalFile.Journal.Append`). The server never
  does.

## Model

| member | source | states |
|---|---|---|
| BookModel.InsertAtPrice | src/core/order_book.cpp:78-117 | a new order joins the end of its own price level and no other level changes |
| BookModel.LevelsDetermine | include/order_book/core/order_book.hpp:79-89 | a price-time queue is determined by its FIFO levels: two queues with equal levels are equal |
| BookModel.AddKeeps | src/core/order_book.cpp:78-117 | adding keeps priority order, unique identifiers and live quantities, and counts one more order exactly on success |
| BookModel.CancelKeeps | src/core/order_book.cpp:118-157 | cancelling keeps the book consistent and removes exactly the one order |
| BookModel.ExecuteKeeps | src/core/order_book.cpp:158-201 | executing keeps the book consistent, also when the order is used up |
| BookModel.UncrossedEverywhere | src/trading/engine.cpp:419-420 | comparing the two best prices is the same as comparing every bid with every ask |
| BookLaws.AddLaw | src/core/order_book.cpp:78-117 | an addition is refused for exactly one of quantity, price, identifier or room, in that order; otherwise the order stands last at its price and every other level is unchanged |
| BookLaws.CancelLaw | src/core/order_book.cpp:118-157 | a cancel takes one position out of one level, and what is behind it moves up |
| BookLaws.UnknownLaw | src/core/order_book.cpp:118-123 | an order that does not stand in the book can be neither cancelled nor executed nor replaced |
| BookLaws.ExecuteAnswer | src/core/order_book.cpp:158-170 | an execution is accepted for any part of what is left, up to all of it, and for nothing else |
| BookLaws.ExecutePart | src/core/order_book.cpp:158-201 | a partial execution takes the quantity off in place |
| BookLaws.ExecuteWhole | src/core/order_book.cpp:158-201 | a full execution takes the order out of its level |
| BookLaws.ReplaceAnswer | src/core/order_book.cpp:19-42 | exactly which replacements are accepted; the others change nothing |
| BookLaws.ReplaceInPlace | src/core/order_book.cpp:19-42 | with priority kept, one position changes its quantity |
| BookLaws.LevelsTell | include/order_book/core/order_book.hpp:79-89 | two consistent books with the same FIFO levels are the same book, so the levels tell everything |
| BookLaws.ReplaceBehind | src/core/order_book.cpp:43-69 | without it, the order leaves its position and stands last at the new price |
| Positions.FillSound | src/trading/engine.cpp:82-103 | the balance of one fill: whether it extends, reduces, closes or flips a position, cash plus quantity times average price equals realised PnL and a flat position has average price zero (what the two are is said by the Accounting rows) |
| Positions.FillsSound | src/trading/engine.cpp:82-104 | the same balance over every sequence of fills from a balanced position |
| Accounting.FillsAddUp | src/trading/engine.cpp:82-103 | after any fills, quantity, cash and volume have moved by the signed sum of sizes, minus the signed sum of price times size, and the sum of sizes |
| Accounting.ExtendingFill | src/trading/engine.cpp:88-90 | a fill in the direction of the position realises nothing and adds its price times size to the cost of the open quantity |
| Accounting.BuildingUp | src/trading/engine.cpp:88-90 | so do any fills of one direction: average price times open quantity grows by the sum of price times size |
| Accounting.BoughtFromFlat | src/trading/engine.cpp:88-90 | from flat: average price times quantity is the sum of price times size, and nothing is realised |
| Accounting.PartialClose | src/trading/engine.cpp:91-94 | a partial close leaves the average price and realises price minus average price on what it closes |
| Accounting.FullClose | src/trading/engine.cpp:91-96 | a full close realises it on everything and ends at average price zero |
| Accounting.Flip | src/trading/engine.cpp:91-98 | a flip realises it on everything that was open and ends at the price of the fill |
| Accounting.RoundTrip | src/trading/engine.cpp:82-103 | every sequence of fills from flat back to flat realises exactly what was received minus what was paid |
| Accounting.MarkedProfit | src/trading/engine.cpp:104 | the profit at a mark is what has been realised plus the gain on the open quantity, and also the net quantity at the mark minus the net cost |
| Positions.TradeBalances | src/trading/engine.cpp:300-301 | the two legs of a trade keep every instrument's positions and cash summing to zero |
| Positions.ZeroSum | src/trading/engine.cpp:437-444 | if positions and cash cancel, the PnL of all clients of an instrument is zero at every mark |
| AgreementLemmas.ExecuteAgreement | src/trading/engine.cpp:283-305 | a fill keeps books and owner records one to one |
| AgreementLemmas.CancelAgreement | src/trading/engine.cpp:149-159 | a cancel keeps books and owner records one to one |
| AgreementLemmas.AddAgreement | src/trading/engine.cpp:251-267 | resting an order keeps books and owner records one to one |
| Exchange.CancelSucceeds | src/trading/engine.cpp:149-159 | the internal check of a cancel cannot fail: an order that is on record is in its book |
| Exchange.ExecuteSucceeds | src/trading/engine.cpp:283-286 | the internal check of a fill cannot fail: the best opposite order is on record and holds the quantity |
| Exchange.MatchAllStops | src/trading/engine.cpp:281-308 | a sweep ends with the order filled or nothing left that it crosses, so a residual that rests leaves the book uncrossed |
| Exchange.EnterCore | src/trading/engine.cpp:218-320 | an admitted order, from acceptance over all fills to rest or expiry, keeps the structural invariant: consistent uncrossed books, owners, client index, issued numbers, accounts, zero sums |
| Exchange.AmendCore | src/trading/engine.cpp:199-217 | an in-place reduction keeps the structural invariant |
| Exchange.SubmitCore | src/trading/engine.cpp:160-320 | every outcome of a submission keeps the structural invariant |
| Exchange.CancelAllCore | src/trading/engine.cpp:362-368 | cancelling all of a client's orders keeps the structural invariant |
| Exchange.AnswerKeeps | src/trading/engine.cpp:325-349 | a command without effect leaves the market as it was and publishes nothing |
| Exchange.ProcessCore | src/trading/engine.cpp:321-383 | every command, valid or not, keeps the structural invariant |
| Limits.LeftLaw | src/trading/engine.cpp:223-240 | what a sweep leaves is the quantity beyond what is offered at acceptable prices |
| Limits.SweepLaw | src/trading/engine.cpp:226-240 | a sweep is refused for post-only exactly if the best price is acceptable, and for self-trade exactly if an own order is reached before the order is filled |
| Limits.RiskLaw | src/trading/engine.cpp:160-202 | the checks that need no book pass if and only if the order is well formed, in whole lots, on tick within the price band, within quantity, notional (a market order at the highest price), order-number, open-order and worst-position limits and stays on its instrument and side; a refusal names a limit that is broken |
| Limits.BookLaw | src/trading/engine.cpp:223-267 | the checks against the book pass if and only if post-only meets nothing acceptable, no own order is reached, fill-or-kill is wholly offered and a residual finds room |
| Limits.EntryLaw | src/trading/engine.cpp:160-267 | of a whole command: an effective new order or replacement is not refused if and only if it meets all of that (a replacement must name an own open order, and one that only shrinks it does not meet the book), and a refusal is the only answer before the completion and names a demand that is not met |
| CancelLaws.CancelAllLaw | src/trading/engine.cpp:362-368 | an effective cancel-all takes out exactly the client's orders on the named instrument, or on all for instrument zero, in number order: one report and one delta each, every queue without them and otherwise as it was, positions, counters and all other orders unchanged |
| CancelLaws.CancelOneLaw | src/trading/engine.cpp:149-159 | an effective cancel takes out exactly the order it names |
| CancelLaws.CancelNoneLaw | src/trading/engine.cpp:353-357 | and is refused as unknown, without effect, if the client has no such open order on the instrument |
| SweepLaws.SweepTells | src/trading/engine.cpp:281-300 | each planned fill is told twice privately and published twice: resting order first, its own fields with size and rest, then the incoming order at the resting price with what is left; consecutive report, delta and trade numbers; deltas name nobody |
| SweepLaws.SweepReduces | src/trading/engine.cpp:282-308 | after a sweep every resting order has lost exactly what the fills took and is gone if that was all; trades and volume are counted |
| SweepLaws.SweepBooks | src/trading/engine.cpp:300-301 | every account has been moved by its own legs of the fills, in order, and by nothing else |
| SweepLaws.SweepShortens | src/trading/engine.cpp:286-287 | the opposite queue has lost the filled orders from its front, the last one possibly only in part, and no other book changes |
| EntryLaws.EnteredLaw | src/trading/engine.cpp:218-320 | the whole effect of an effective order that may enter: every report and delta in order and field by field, and the state left of orders, queues, accounts, client and counters |
| CommandLaws.FillsAllowed | src/trading/engine.cpp:226-240 | an order that may enter never trades with its own client, and a post-only one never trades |
| CommandLaws.AmendedLaw | src/trading/engine.cpp:199-217 | an effective replacement that only shrinks its order changes that order's quantity in place and nothing else; it is acknowledged, and published only if it shrank |
| CommandLaws.CompletionLaw | src/trading/engine.cpp:371-378 | every effective command is counted, remembered, and ends with one report that echoes it with number and open quantity of the client's order of that name, if it is open afterwards |
| CommandLaws.QueryLaw | src/trading/engine.cpp:325-349 | exactly what is answered to every other command: one refusal, a status, a refusal with completion, or the remembered reports, and how it is counted |
| CommandLaws.StatusLaw | src/trading/engine.cpp:329-333 | after every run, a status query reports the client's last request that took effect, or zero |
| Exposure.MatchAllCovered | src/trading/engine.cpp:281-308 | during a sweep, filled plus still wanted plus reserved stays within every client's limit on both sides |
| Exposure.ProcessKeepsInv | src/trading/engine.cpp:185-197 | every command keeps position plus open bids at most, and position minus open asks at least minus, the position limit |
| Exposure.ReachableWithinLimits | src/trading/engine.cpp:185-197 | in every state of every run the exposure bound holds for every client and instrument, so no sequence of passive fills breaches the limit |
| Refinement.ExecuteCommutes | src/trading/engine.cpp:251-267 | filling the opposite side commutes with having rested the residual first |
| Refinement.CommitStep | src/trading/engine.cpp:282-308 | one planned fill, committed on the temporarily crossed book, is one step of the simple rule seen through the reservation |
| Refinement.EnterAhead | src/trading/engine.cpp:218-320 | reserve, cancel the replaced order, commit all planned fills: the same state and messages as the simple rule followed by resting the residual |
| MatchingEngines.MatchingEngine.constructor | src/trading/engine.cpp:105-117 | a new engine is the fresh state and satisfies the invariant |
| MatchingEngines.MatchingEngine.Cancel | src/trading/engine.cpp:149-159 | refines the cancel step: book, owner, index, one delta, one report |
| MatchingEngines.MatchingEngine.CheckRisk | src/trading/engine.cpp:160-197 | returns exactly the reason the rules give, with reservations counted by a loop over all resting orders (what the rules are is said by Limits.RiskLaw) |
| MatchingEngines.MatchingEngine.PlanSweep | src/trading/engine.cpp:223-240 | the visitor loop finds exactly the planned fills, what is left, and post-only or self-trade refusals |
| MatchingEngines.MatchingEngine.ReserveRest | src/trading/engine.cpp:243-267 | reserves the residual's node, or on an exhausted pool undoes everything but the opened account |
| MatchingEngines.MatchingEngine.CommitFills | src/trading/engine.cpp:281-308 | committing the plan fill by fill equals the sweep of the simple rule |
| MatchingEngines.MatchingEngine.EnterOrder | src/trading/engine.cpp:243-320 | reservation, acknowledgement, fills and residual refine the admitted-order step |
| MatchingEngines.MatchingEngine.AmendInPlace | src/trading/engine.cpp:199-217 | refines the in-place reduction |
| MatchingEngines.MatchingEngine.Submit | src/trading/engine.cpp:160-320 | refines submission: the same new state, reports and deltas for every command |
| MatchingEngines.MatchingEngine.CancelEach | src/trading/engine.cpp:362-368 | the cancel-all loop refines cancelling the client's orders one by one in number order |
| MatchingEngines.MatchingEngine.Snapshot | src/trading/engine.cpp:384-410 | the listing loops produce the snapshot rows: instruments in order, bids before asks, price-time within a side |
| MatchingEngines.MatchingEngine.Process | src/trading/engine.cpp:321-383 | refines the pure meaning of a command exactly and keeps the invariant; no internal lookup or check can fail (what each command means is said by Limits.EntryLaw and the CancelLaws, EntryLaws and CommandLaws rows) |
| Outcome.PlanFollowsPriority | src/trading/engine.cpp:223-240 | the plan takes a prefix of the opposite queue in price-time order at maker prices, all but the last in full |
| Outcome.PlanConserves | src/trading/engine.cpp:223-243 | planned quantity plus what is left is the order's quantity |
| Outcome.LeavesOnlyWhenExhausted | src/trading/engine.cpp:226-240 | something is left only when every crossing order has been used up |
| Outcome.MatchAllExecutes | src/trading/engine.cpp:281-308 | the executions published by a sweep are the plan, fill for fill |
| Outcome.OrderOutcome | src/trading/engine.cpp:218-320 | an admitted order's published executions are the plan; fills plus residual make its quantity; fill-or-kill fills fully; only a good-till-cancelled limit residual rests, with exactly the left quantity; any other residual expires under exactly one Cancelled report that carries it, and no other report cancels anything |
| Outcome.CommandOutcome | src/trading/engine.cpp:321-383 | of a whole command: every effective new order or replacement that gives up its place either reports a refusal or trades exactly so |
| Outcome.RejectionIsInert | src/trading/engine.cpp:160-267 | a command that is reported Rejected publishes nothing and leaves books, owners, index, holdings, sequence and order and trade counters unchanged, a failed replace included |
| Sequencing.ExactlyOnce | src/trading/engine.cpp:340-378 | in every run the requests of a client that take effect are the consecutive numbers after its last one, once each |
| Sequencing.ExactlyOnceFromStart | src/trading/engine.cpp:340-378 | from a fresh engine these are exactly 1 to the last request |
| Sequencing.PerformMemory | src/trading/engine.cpp:377-381 | an effective command becomes its client's last one with its private reports, and no other client's memory changes |
| Sequencing.PerformCompletes | src/trading/engine.cpp:371-376 | the private reports of an effective command end in its only Complete |
| Sequencing.RetryIsIdempotent | src/trading/engine.cpp:340-344 | after any run in which no other request of the client took effect, resending the last command changes no state, publishes nothing and returns the same private reports |
| AuditModel.ValidateInvariants | src/trading/engine.cpp:411-446 | the audit loops accept exactly the states in which books are consistent and uncrossed, owners and index agree, counts match and positions and cash cancel |
| AuditModel.ReachablePassesAudit | src/trading/engine.cpp:411-446 | every state of every run passes the audit |
| AuditModel.AuditMeansAgreement | src/trading/engine.cpp:411-436 | the audit misses nothing: in every state that passes, reachable or not, books and owner records are one to one and the client index is their inverse |
| AuditModel.ReachableZeroSum | src/trading/engine.cpp:437-444 | in every state of every run, at every mark, PnL over all clients of an instrument is zero and every account is sound |
| DeltaStream.ProcessTracks | src/trading/engine.cpp:135-159 | replaying a command's deltas on any copy of the books gives the engine's new books |
| DeltaStream.ProcessContinues | src/trading/engine.cpp:135-144 | a command's deltas are numbered consecutively from the engine's sequence |
| DeltaStream.LogIsFaithful | src/trading/engine.cpp:135-320 | over every run the published log is consecutive and replays to the engine's books |
| ReplicaModel.RestoreRebuilds | src/trading/replica.cpp:7-36 | a snapshot of consistent, uncrossed books is accepted and restores them, FIFO order included |
| ReplicaSafety.MangledRefused | src/trading/replica.cpp:7-36 | a snapshot of which any row was lost or repeated is refused, also when as many rows arrive as were sent |
| ReplicaSafety.ConsumeSafe | src/trading/replica.cpp:37-83 | one datagram, whatever its place in the stream, never makes a synchronised replica differ from the replay of the log |
| ReplicaSafety.SynchronizedMeansEqual | src/trading/replica.cpp:7-83 | for every lossy, duplicated, reordered or mixed-epoch input: whenever synchronised at sequence k, the books are the replay of the first k deltas |
| ReplicaSafety.UnbrokenFeedKeepsUp | src/trading/replica.cpp:37-83 | an unbroken stream keeps a synchronised replica synchronised up to the last delta |
| ReplicaFreshness.DeltaApplies | src/trading/replica.cpp:56-76 | exactly which deltas fit the books |
| ReplicaFreshness.DatagramLaw | src/trading/replica.cpp:37-83 | a synchronised replica stays so exactly on a heartbeat that announces nothing new, a delta it has seen, or the next delta if it fits; anything else ends it |
| ReplicaFreshness.ConsumeConsistent | src/trading/replica.cpp:56-76 | no datagram, whatever it says, makes a book of the replica inconsistent |
| ReplicaFreshness.SynchronizedMeansFresh | src/trading/replica.cpp:7-83 | over every feed: a replica that is synchronised at sequence k of an epoch has, since it was last restored, received only deltas and heartbeats of that epoch, none beyond k |
| ReplicaFreshness.GapIsNoticed | src/trading/replica.cpp:43-46 | after every feed, a heartbeat that announces more than was seen ends synchronisation |
| ReplicaFreshness.LoadExact | src/trading/replica.cpp:13-25 | exactly which rows load, and the queue they load into each level |
| ReplicaFreshness.RestoreExact | src/trading/replica.cpp:7-36 | exactly which snapshots are accepted, and what the replica then is |
| ReplicaSafety.LogsOfRunsGenuine | src/trading/engine.cpp:135-144 | the logs of any family of runs, one for each epoch, are consecutive and replayable |
| ReplicaSafety.ReplicaMirrorsEngine | src/trading/replica.cpp:96-121 | for every family of runs, one for each incarnation, and every command boundary of one of them: the snapshot there is a genuine input, and a replica fed any genuine inputs of any of the epochs that is synchronised at that epoch and sequence lists the engine's snapshot row for row |
| MarketReplicas.MarketReplica.Restore | src/trading/replica.cpp:7-36 | the restore loop refines the restore function and leaves the old books when it refuses |
| MarketReplicas.MarketReplica.Consume | src/trading/replica.cpp:37-83 | refines the consume function: apply the next delta, ignore what is old, lose synchronisation on a gap or on anything foreign (exactly when is said by ReplicaFreshness.DatagramLaw) |
| MarketReplicas.MarketReplica.Snapshot | src/trading/replica.cpp:96-121 | lists the replica's rows, or nothing when it is not synchronised |
| ManagerModel.RedeliveryIgnored | src/trading/strategy.cpp:8-11 | reports that were seen before change nothing |
| ManagerSimulation.PerformInStep | src/trading/engine.cpp:279-319 | after every effective command, the client fed its reports holds exactly its open orders and positions |
| ManagerSimulation.ProcessInStep | src/trading/engine.cpp:335-381 | manager and engine stay in step through a command if and only if the command is effective, foreign, a status or snapshot query, an exact retry, or a refused one that happens to state the right remaining quantity |
| ManagerSimulation.RefusedCommandEchoes | src/trading/engine.cpp:335-348 | a command refused for its request number leaves the order open in the engine and makes the manager believe whatever remaining quantity the command stated |
| ManagerSimulation.SkippedRequestLosesOrder | src/trading/engine.cpp:345-348 | a client that skips a request number while naming an open order no longer sees the order, while the engine keeps it open unchanged |
| ManagerSimulation.ManagerFollowsEngine | src/trading/strategy.cpp:8-31 | over every run of such commands the manager keeps the engine's open orders and positions of the client |
| ManagerSimulation.FreshInStep | src/trading/strategy.cpp:8-31 | a fresh manager is in step with a fresh engine |
| OrderManagers.OrderManager.Consume | src/trading/strategy.cpp:8-31 | the object refines the consume function |
| OrderManagers.OrderManager.Check | src/trading/strategy.cpp:36-63 | returns exactly the local refusal, with reservations counted by a loop, and no refusal exactly for cancellations and for orders that may be sent |
| LocalCheck.CheckLaw | src/trading/strategy.cpp:36-63 | cancellations always pass; anything else passes if and only if the replica is synchronised, quantity and notional are within limits, the client marked at the middle of a two-sided book (else the order's price, else the average price) has not lost more than it may, and open orders and worst position are within limits |
| LocalCheck.RefusalLaw | src/trading/strategy.cpp:36-63 | every local refusal names a limit that is broken |
| Admission.LocalAdmissionIsStable | src/trading/strategy.cpp:36-63 | a new order that passes the local check is never refused by the engine for quantity, notional, open orders or position, whatever other clients do in between |
| Admission.WorstCaseStable | src/trading/engine.cpp:185-197 | fills of resting orders never move the client's worst case outwards |
| DurableReplay.TwinProcess | src/trading/engine.cpp:321-383 | engines that differ only in epoch, report numbers and stamps of cached reports stay so through every command |
| DurableReplay.ReplaySimulates | src/trading/server.cpp:69-73 | replaying only the journalled commands of any run on a fresh engine gives the live engine up to epoch and report numbers |
| DurableReplay.WriteAheadKept | src/trading/server.cpp:112-129 | every step of the engine thread keeps the journal equal to everything processed and at most one command more |
| DurableReplay.EveryLifeKeepsItsPast | src/trading/server.cpp:69-129 | through any number of crashes and restarts the journal stays ahead of the engine and what was processed before is never lost, doubled or reordered |
| DurableReplay.EveryCrashRecovers | src/trading/server.cpp:69-129 | a crash at any step of any incarnation, and a restart under any epoch, resumes the engine with at most the one command that had been written |
| Codec.ValueOfBigEndian | src/trading/messages.cpp:8-18 | writing and reading back a number that fits its field gives the number |
| Codec.PackedField | src/trading/messages.cpp:20-48 | for every layout, slicing a packed record apart gives back every value |
| Codec.PackUnpack | src/trading/messages.cpp:50-76 | for every layout, packing the slices gives back the bytes |
| Codec.EncodeDecode | src/trading/messages.cpp:20-76 | decoding the frame of a message gives the message |
| Codec.DecodeEncode | src/trading/messages.cpp:20-76 | every accepted frame is the frame of the message read from it, so there is one frame per message |
| FrameLayout.FrameLaw | src/trading/messages.cpp:20-45 | every byte of every frame: magic, version, the code of each enumerator, flags, zeros, and each number at its place, most significant byte first |
| Codec.Put | src/trading/messages.cpp:8-13 | the loop writes the big-endian bytes in place and touches nothing else |
| Codec.Get | src/trading/messages.cpp:14-18 | the loop reads the big-endian number without losing a bit |
| Codec.Encode | src/trading/messages.cpp:20-48 | fills the message's frame in place; its self-check never fails |
| Codec.Decode | src/trading/messages.cpp:49-76 | returns the message of an accepted frame and refuses every other one |
| JournalFile.FnvSeesOneByte | src/trading/journal.cpp:50-57 | the checksum changes with every change of one byte, because every step is injective |
| FrameLayout.FnvLaw | src/trading/journal.cpp:50-57 | the checksum starts at the offset basis, and each byte is exclusive-ored in bit by bit before the prime is multiplied in modulo 2^32 |
| JournalFile.Checksum | src/trading/journal.cpp:50-57 | the loop computes the FNV-1a hash |
| JournalFile.RecordReads | src/trading/journal.cpp:91-103 | a written record reads back as its command, or is refused if it is not an effective command |
| JournalFile.AcceptedIffWritten | src/trading/journal.cpp:62-118 | a file recovers to a list of commands if and only if it is the header followed by exactly their records, or empty |
| FrameLayout.FileLaw | src/trading/journal.cpp:67-103 | the bytes of every file that opens: the header, then each command's frame and checksum at its place, and only commands that enter, cancel or replace |
| FrameLayout.ReadBackLaw | src/trading/journal.cpp:91-98 | a written record is read back exactly if it holds a command that enters, cancels or replaces |
| JournalFile.OneByteRefused | src/trading/journal.cpp:67-103 | a change of exactly one byte anywhere in an accepted file is refused |
| JournalFile.Truncated | src/trading/journal.cpp:32-48 | the exact outcome of every truncation: torn, missing checksum, or the commands of the whole records |
| JournalFile.CheckRecord | src/trading/journal.cpp:91-103 | reads one frame and checksum, or refuses them |
| JournalFile.Journal.constructor | src/trading/journal.cpp:62-108 | opens a file with the outcome of recovery; an empty file gets its header |
| JournalFile.Journal.Recover | src/trading/journal.cpp:91-103 | the recovery loop computes the outcome of the whole log |
| JournalFile.Journal.Append | src/trading/journal.cpp:109-118 | appends one record; the file then recovers to its commands and this one, or to nothing if the message does not belong there |
| Restart.EveryRestartResumes | src/trading/server.cpp:69-129 | however often the exchange has crashed before, and whatever bytes a crash leaves, even part of a record or of the first header: the file is refused only if its last record is torn, which never happens to a processed command, or its header is, which only happens before the first command; otherwise what it returns is what a restart may replay, and replay gives the engine that crashed with at most that one command |
| Restart.TornHeaderRefused | src/trading/journal.cpp:71-72 | a file that got only a part of its header is refused |
| Retries.RebornIsTwin | src/trading/server.cpp:69-73 | the restarted engine is the engine that crashed up to epoch and report numbers, after the command being appended exactly if that command survived |
| Retries.RetryAfterRestart | src/trading/engine.cpp:340-344 | in any life of the exchange, resending a client's last command after a restart changes nothing, publishes nothing and returns its cached reports up to stamps |
| Retries.ResentAfterCrash | src/trading/engine.cpp:340-378 | a command that was being appended at the crash and is sent again takes effect exactly once, whether or not it survived, and the client gets the reports of that one performance |
| OrderBooks.RepConsistent | src/core/order_book.cpp:274-390 | a consistent representation shows a consistent book |
| OrderBooks.AppendOutcome | src/core/order_book.cpp:78-117 | appending a node keeps representation and slots consistent and shows the abstract addition |
| OrderBooks.EraseOutcome | src/core/order_book.cpp:118-157 | erasing through the index keeps them consistent and shows the abstract cancel, also when the level empties |
| OrderBooks.ExecuteOutcome | src/core/order_book.cpp:158-201 | reducing or erasing keeps them consistent and shows the abstract execution |
| OrderBooks.MoveOutcome | src/core/order_book.cpp:43-69 | moving an order, within or across levels, under the same or a new number, keeps them consistent and shows the abstract replacement |
| PooledBooks.OrderBook.Add | src/core/order_book.cpp:78-117 | for every choice of failing allocations, adds the order or leaves the book exactly as it was |
| PooledBooks.OrderBook.Cancel | src/core/order_book.cpp:118-157 | removes the order through the index, or reports it unknown and changes nothing |
| PooledBooks.OrderBook.Execute | src/core/order_book.cpp:158-201 | reduces or removes the order, or reports the error and changes nothing |
| PooledBooks.OrderBook.Replace | src/core/order_book.cpp:19-70 | for every choice of failing allocations, replaces the order, in place or behind its new level, or leaves the book exactly as it was |
| BookQueries.PricesInOrder | include/order_book/core/order_book.hpp:79-89 | the prices of a level map in the order of iteration, whose levels joined are the price-time queue |
| BookQueries.Visit | include/order_book/core/order_book.hpp:79-89 | the nested loop visits a prefix of the price-time queue, up to and including the first order at which the visitor stops |
| BookQueries.ListLevels | src/core/order_book.cpp:243-259 | the level views, best first, with their cached aggregates, list the whole queue |
| BookQueries.BestAggregate | src/core/order_book.cpp:203-207 | the cached aggregate of the first level is the displayed quantity at the best price |
| PooledBooks.OrderBook.ForEachOrder | include/order_book/core/order_book.hpp:79-89 | the visitor over the representation visits the book's queue in price-time order until it stops |
| PooledBooks.OrderBook.BestPrice | src/core/order_book.cpp:209-217 | the price of the first order of the queue, or nothing |
| PooledBooks.OrderBook.BestQuantity | src/core/order_book.cpp:203-207 | the sum of the displayed quantities at the best price |
| PooledBooks.OrderBook.Order | src/core/order_book.cpp:230-235 | finds exactly the orders of the book, with side, price and remaining quantity |
| PooledBooks.OrderBook.RemainingQuantity | src/core/order_book.cpp:219-224 | the remaining quantity of an order, or nothing |
| PooledBooks.OrderBook.OrderCount | src/core/order_book.cpp:226-228 | the size of the index is the number of orders on both sides |
| PooledBooks.OrderBook.Front | src/core/order_book.cpp:237-241 | the first order of the queue through the index, or nothing |
| PooledBooks.OrderBook.Snapshot | src/core/order_book.cpp:243-259 | bid levels before ask levels, each side the whole queue |
| BookAudit.ValidateInvariants | src/core/order_book.cpp:274-390 | accepts exactly the consistent representations |
| Pool.SlotsAligned | include/order_book/memory/fixed_slot_pool.hpp:53-75 | all slots are aligned if and only if there is one slot or the slot size is a multiple of the alignment |
| Pool.FixedSlotPool.Carve | include/order_book/memory/fixed_slot_pool.hpp:53-75 | the first request carves the block into slots that fit, all free, or changes nothing |
| Pool.LeakMisalignedSlot | include/order_book/memory/fixed_slot_pool.hpp:50-143 | two slots of twelve bytes under alignment eight are handed out and returned, and the misaligned one stays live: one free slot of two is left |
| Pool.FixedSlotPool.Allocate | include/order_book/memory/fixed_slot_pool.hpp:50-83 | a slot that was not live becomes live, or the call fails and no live slot changes; a first request succeeds exactly when the block can be carved for it, a later one exactly when it has the first one's shape and a slot is free; a carved block is never carved again, one slot is taken on success, and free plus live is the number of slots |
| Pool.FixedSlotPool.TryAllocate | include/order_book/memory/fixed_slot_pool.hpp:86-123 | the same, with a null pointer for every failure |
| Pool.FixedSlotPool.Deallocate | include/order_book/memory/fixed_slot_pool.hpp:125-143 | for any address and size, exactly the addressed live aligned slot stops being live and becomes free, or nothing changes; the slots stay as carved and free plus live is their number; the free stack is never indexed out of range |
| Pool.FixedSlotPool.CountSlots | include/order_book/memory/fixed_slot_pool.hpp:50-145 | in every state, free plus live is the number of slots |
| Pool.FixedSlotPool.LiveSlots | include/order_book/memory/fixed_slot_pool.hpp:50-143 | live slots are inside the block, never overlap, and are aligned when the slot size is a multiple of the alignment |
| Ring.ProducerStep | include/order_book/core/lfqueue.hpp:38-46 | every atomic action of the producer keeps the ring's invariant and is an atomic or invisible step of a bounded queue |
| Ring.ConsumerStep | include/order_book/core/lfqueue.hpp:48-56 | every atomic action of the consumer does too |
| Ring.EveryInterleaving | include/order_book/core/lfqueue.hpp:38-56 | under every schedule, with wrapping indices and word-by-word copies, what was popped is a prefix of what was pushed and no unread slot is overwritten |
| Ring.EveryAnswerTrue | include/order_book/core/lfqueue.hpp:32-56 | every answer is true of the bounded queue when it is given: full only when full, a popped item only from the front |
| Ring.EmptyWhenLoaded | include/order_book/core/lfqueue.hpp:48-51 | "empty" was true when the producer's index was loaded |
| Ring.WrappedDistance | include/order_book/core/lfqueue.hpp:32-36 | the wrapped difference of two indices is the number of unread items |
| SpscQueue.LFQueue.TryPush | include/order_book/core/lfqueue.hpp:38-46 | appends the item exactly when there is room |
| SpscQueue.LFQueue.TryPop | include/order_book/core/lfqueue.hpp:48-56 | takes the oldest item exactly when there is one |
| Drain.StepKeeps | src/trading/server.cpp:107-181 | every step of every thread keeps the flags meaningful and loses, doubles or reorders nothing |
| Drain.EveryScheduleInOrder | src/trading/server.cpp:107-255 | under every schedule, even after a failure, requests are handled in admission order at most once, responses arrive in order and published deltas are consecutive |
| Drain.CleanDrain | src/trading/server.cpp:225-255 | if all threads stop without the fatal flag, every admitted request was handled once and in order, every response was taken and every delta published |
| Drain.NobodyLeavesEarly | src/trading/server.cpp:109-255 | without an alarm no thread leaves its loop before what it waits for: I/O drained with no output pending, engine and publisher with their queue empty after the flag before them |
| Drain.SeenFlags | src/trading/server.cpp:111-235 | what a thread decides by is the flag it read and the queue it found empty after reading it |
| Drain.DrainingAdmitsNothing | src/trading/server.cpp:226-230 | once draining has begun nothing more is admitted |
| Drain.OneAnswered | src/trading/server.cpp:119-140 | the answer to one request is its command's reports or the snapshot, in order, the latter without effect |
| Drain.AnswersGoHome | src/trading/server.cpp:119-138 | under every schedule everything delivered answers an admitted request: it names the connection that asked, or no connection if it concerns another client |
| DrainProgress.PlanAdvances | src/trading/server.cpp:107-255 | in every state without the alarm that has not stopped, some thread can make a step that brings the end nearer, however full the queues are |
| DrainProgress.CleanStopAlwaysPossible | src/trading/server.cpp:107-255 | every schedule that has not raised the alarm can be continued to a clean stop: the bounded queues cannot deadlock the drain |
| FeedFilter.FilterCommutes | src/feed/books.cpp:28-95 | a stream that the unfiltered reconstruction accepts is accepted under every symbol filter, with identical books of the symbol and exactly the updates that concern it |
| FeedFilter.FilterExact | src/feed/books.cpp:28-95 | the unfiltered reconstruction accepts a stream if and only if the reconstruction of every single symbol does |
| FeedAgreement.BookFollows | src/feed/books.cpp:58-94 | what a follow-up event does to an order in its core book |
| FeedAgreement.RoutingFollows | src/feed/books.cpp:58-94 | and that it does the same to the routing table |
| FeedAgreement.RebuildAgrees | src/feed/books.cpp:28-95 | in every accepted run, routing and core books agree order by order |
| FeedLaws.EventLaw | src/feed/books.cpp:28-95 | one event after any accepted stream: it is accepted if and only if it fits, and then exactly the named order is added, reduced, removed, resized or moved, with its place in the queue, a clear drops exactly its venue and channel, and nothing else changes |
| FeedBooks.Books.Consume | src/feed/books.cpp:23-27 | one event; a failure poisons the books for good |
| FeedBooks.Books.ApplyEvent | src/feed/books.cpp:28-95 | the object refines the meaning of an event |
| FeedBooks.Books.ValidateInvariants | src/feed/books.cpp:96-120 | the audit loops decide exactly the audit |
| FeedBooks.RebuildPassesAudit | src/feed/books.cpp:96-120 | every reconstruction that has not failed passes the audit |
| FeedBooks.AuditMeansAgreement | src/feed/books.cpp:96-120 | of states in which orders are routed within their venue and channel and only selected symbols have books, the audit misses nothing: what passes holds exactly the routed orders as routed |
| ItchDecoder.ReadOrder | src/feed/itch.cpp:62-93 | decodes every order and trade message |
| ItchDecoder.ReadSymbol | src/feed/bytes.hpp:22-34 | reads a symbol field or refuses it |
| ItchLaws.SymbolLaw | src/feed/bytes.hpp:20-31 | a symbol is read exactly from a field of visible characters with blanks behind them |
| ItchLaws.LengthLaw | src/feed/itch.cpp:11-38 | the length of each message type |
| ItchLaws.OrderLaw | src/feed/itch.cpp:59-93 | the event of every message about orders or trades: kind, side, numbers and prices from their bytes, and no event from a field that says nothing valid |
| ItchLaws.MessageLaw | src/feed/itch.cpp:5-96 | every message at every point of a session: exactly when it is accepted, the event it becomes and what is remembered of the stock directory |
| ItchLaws.SessionLaw | src/feed/itch.cpp:39-49 | an archive that replays opens with the start of messages and is complete exactly when its last message is the end of messages, which comes nowhere else |
| ItchDecoder.Itch50Decoder.Decode | src/feed/itch.cpp:5-95 | refines the decoder's meaning; a failure poisons it |
| Extraction.Extract | tools/extract_itch_sample.cpp:82-119 | the selection loop computes the sample or refuses |
| ItchLaws.ExtractedLaw | tools/extract_itch_sample.cpp:75-119 | extraction succeeds exactly for a legible symbol in the directory of a whole session whose every record may come where it does; the sample is exactly the records for every stock and those under the symbol's locate from its introduction on, in order |
| Extraction.SampleReplays | tools/extract_itch_sample.cpp:82-119 | if the full archive replays to its end for a symbol and extraction succeeds, the sample replays to its end with the same books and the same number of updates |

## Left out

- Sockets, polling, eventfd, multicast, deadlines and the connection and route maps of the server and the client: foreign calls and timing; only the queue and flag steps are modelled, with deadline and pending output as choices of the scheduler.
- `fdatasync`, `flock`, file descriptors, gzip and directory syncing: the journal is a byte string and an archive a sequence of records.
- Enumeration values outside their declared range: the enumerations are datatypes, so the engine's checks for undefined codes and the encoder's exception have no counterpart; the decoder's refusal of such codes is modelled.
- Positions.FillSound: does not model `long double` rounding, nor the division by zero of a zero-size fill on a flat position, which the engine never makes.
- MatchingEngines.MatchingEngine.Process: works on book values; that the pooled book refines those values is proved separately (PooledBooks.OrderBook), and a heap exception other than pool exhaustion is not modelled.
- MatchingEngines.MatchingEngine.constructor: requires a valid configuration instead of throwing, and does not model the rejection of epoch zero.
- MatchingEngines.MatchingEngine.Snapshot: does not truncate the order count to 32 bits.
- DurableReplay.EveryCrashRecovers: covers messages of kind Command only, which is what the server admits.
- FeedBooks.AuditMeansAgreement: assumes that orders are routed within their venue and channel and that only selected symbols have books, which the audit does not look at and every reconstruction keeps (FeedAgreement.RebuildAgrees).
- ItchDecoder.ReadOrder: drops the match number of an execution or trade, which reconstruction never reads.
- BookAudit.ValidateInvariants: does not model the 64-bit overflow check of the aggregate; the aggregate is an unbounded number.
- Ring.EveryInterleaving: does not model memory orderings weaker than sequential consistency.
- Drain.CleanDrain: takes the queues as atomic bounded FIFO queues, which is what Ring.EveryAnswerTrue justifies, and does not follow a response into its connection's socket.
- ItchDecoder.Itch50Decoder.Decode: leaves out the sequence, timestamp and match number of an event, which reconstruction never reads.
- The move operations and level counts of the order book and `OrderRegistry`: thin wrappers.
- The logger, the maker, taker and random strategies, features, histograms, benchmarks, reports and command lines: measurement, presentation or short numeric helpers.
- The LOB1 codec, the CSV codec and the PITCH byte tables: smaller repeats of the frame codec; PITCH events enter as events of the reconstruction.
- The configuration fingerprint: the journal header takes it as a number.
