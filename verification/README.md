# Atomic Mesh: verification of the deterministic core

Atomic Mesh is an event-sourced trading engine whose core is a set of integer state machines. This project models
that core in Dafny and proves what its parts promise each other. `dafny verify dfyconfig.toml` checks all of it.

| files | component |
|---|---|
| Types, PriceLevels, Matching, Exchange | the simulated exchange: books as maps from price to quantity, the matcher, resting orders |
| ExchangeBooks, Submissions, Sweeps | what its updates, submissions and sweeps do, told by prices, orders and reports alone |
| Lifecycle, Histories, Listing, OrderIds, Execution | the execution engine: order life cycle, the histories it accepts, canonical serialization, generated ids, snapshot and restore |
| Lockstep, LockstepSubmit, LockstepRuns, OrphanRuns, Node | exchange and engine together, over every run |
| Confluence | determinism although both walk hash maps |
| Pnl, PnlRuns | the books of a node, and where they depend on the order of fills |
| ClosedLoop, LoopOutcomes, LoopDeterminism, LoopDivergence, Positions, TestNode | the whole node in a loop with its market: its outcomes, exactly when they are the same, two that differ, the accounts it keeps of its position, and the node as objects |
| Bits, Ring, RingSteps, SpscRing, HpRing | the two single-producer single-consumer rings |
| FlatLevels, FlatBook, OrderBook | the flat 40-level book and the map book it speeds up; fill simulation |
| Sweep, Router | the liquidity sweep and why it is optimal |
| Dedup, Recovery, RecoveredIds | deduplication, crash recovery, and the order ids generated after it |
| TradeFlow, Toxicity, Inventory, Pacing, QuoteRules, Quoting, Microprice | the hot-path quoting engine and its Rust twins |
| Risk | pre-trade risk gates, rate limit and circuit breaker |

Code that updates state in place is a class or a method with loops; what it computes is named by a function on
values, and the properties are lemmas about those functions. The order in which a hash map is walked is left open
wherever the source walks one.

## How the parts fit together

- **Lockstep.** `Lockstep.Step` is one action of a node: feed a book, submit, cancel, cancel all, drain reports,
  deliver one report. `Node` shows that the two classes perform exactly such steps. The invariant looks ahead to
  the time when all reports on the way are delivered. One half of it, that the engine accepts every report and then
  holds every resting order open, is kept by every action except the submission under an id in use. The other
  half, that it holds nothing else open, is lost exactly when an order is orphaned, and then for ever.
- **Seen from outside.** The exchange's and the engine's answers are also described without their functions, and the
  description has one outcome. `Submissions.IsSubmission` speaks of the order, the two sides of its book and a match;
  `Sweeps.IsSweep` of which orders leave and what is reported of them; `ExchangeBooks` of the updates a pair has seen;
  `Histories` of which events may follow which, and of the order they add up to.
- **Determinism.** An order's entry depends only on its own events, and a sweep makes at most one report per order, so
  the settled engine does not depend on the walk. Two runs with the same inputs stay twins as long as no id is used
  twice; orders may be orphaned.
- **The closed loop.** In the whole node, fills feed back into inventory, quotes and books. At most one own bid and one
  own ask rest, so a walk can change nothing but the order of two fills: every event has at most two outcomes, both of
  which occur. From that follows, as an if and only if over all runs, when nodes on the same market events agree and when
  they are equal, realized profit included. On a market whose book never crosses they always are. Whatever the market does,
  the position in the books is what the engine's orders record as bought minus sold (`Positions`). `TestNode` shows that
  the objects carry out exactly these steps.
- **Rings.** Every load, slot access and store is a step of its own and any interleaving may happen. Every step
  is a step of a bounded queue, except a pop of the C++ ring that comes back empty after 2^32 pushes.
- **Quoting.** Which book updates are quoted is a function of the fair values alone (`Pacing`), and every answer a
  function of the fair values, trades and fills so far (`QuoteRules`); the engine with its counters, circular buffer
  and flat book is shown to give these answers (`Quoting`).

## Where code and documentation disagree

The model follows the code in each case.

- The header promises warmup ticks before the first quote (cpp/include/hotpath.h:78); the code quotes the first fair
  value at once (cpp/src/engine.cpp:89). `Pacing.WarmupExactly` says when the promise holds.
- The unfilled remainder of a market or stop order that is good till canceled vanishes without a report
  (crates/atomic-execution/src/simulator.rs:316), and so does an order of quantity zero. `LockstepRuns.SubmitExactlyWhen`
  gives the exact condition.
- The C++ ring compares its wrapped 32-bit counters with `t >= h` (cpp/src/ringbuf.cpp:75). It never delivers its 2^32nd
  element, and from the 2^32nd push on every pop comes back empty: `RingSteps.RunsAreSafe`, `RingSteps.PopsStopAfterWrap`.
- The flat book drops a new level when it holds 40 (cpp/src/orderbook.cpp:71): `FlatLevels.DropExactly`.
- `max_total_notional` is documented as a limit across all positions (crates/atomic-risk/src/limits.rs:13), but it is
  compared with the notional of one symbol: `Risk.AggregateExceeded` exceeds it, `Risk.AggregateExactly` says when it is kept.
- The limits per symbol (crates/atomic-risk/src/limits.rs:9-11) are not checked for an order without a position, which is
  how the node passes an empty one (crates/atomic-node/src/main.rs:712-729): `Risk.SymbolLimitsExactly`.
- The determinism test expects equal hashes and equal PnL of all nodes (crates/atomic-node/tests/determinism.rs:191-192).
  `LoopDivergence.SameEventsTwoNodes` gives four book updates, one of them crossed, after which two nodes have different
  order maps, positions and profits. `LoopDeterminism.RunsAlikeExactly` and `LoopDeterminism.RunsEqualExactly` say when the test's claim holds:
  it does on every market that does not cross, `LoopDeterminism.UncrossedMarketSameNode`.
- Replaying an order from the log does not advance the counter of generated ids
  (crates/atomic-execution/src/state_machine.rs:298-333). `RecoveredIds.NextIdInUseExactly` says when the first id after a
  restart is in use already.
- `simulate_fill` is documented to answer None without enough liquidity (crates/atomic-orderbook/src/book.rs:146), but
  answers with what there is: `OrderBook.PartIsAnswered`, and exactly when it is right: `OrderBook.NoneForTooLittleExactly`.
- The Rust spread multiplier is documented to be in [10000, 30000] (crates/atomic-strategy/src/toxicity.rs:84); that holds
  exactly for averaging weights from 0 to 1, `TradeFlow.RangeExactly`, and the constructor takes any.
- The Rust inventory ratio is documented to be in [-10000, 10000] (crates/atomic-strategy/src/inventory.rs:48), but nothing
  keeps the position below the maximum: `Inventory.RatioExceeded`, `Inventory.RatioInRangeExactly`.

## Model

| member | source | states |
|---|---|---|
| PriceLevels.LastUpdateWins | crates/atomic-execution/src/simulator.rs:60-79 | After a batch of level updates every price holds what the last update naming it says: nothing for a zero quantity, else that quantity; prices not named keep what they had. |
| PriceLevels.ApplyLevels | crates/atomic-execution/src/simulator.rs:66-79 | The loop over a batch computes exactly that map, and stored quantities stay positive. |
| Matching.MatchedIsMatch | crates/atomic-execution/src/simulator.rs:95-139 | A match conserves quantity in total and price by price, fills strictly best price first and within the limit, takes whole levels except possibly the last, and leaves a remainder only if no matchable level is left. |
| Matching.MatchIsUnique | crates/atomic-execution/src/simulator.rs:95-139 | Those properties determine fills, remainder and book: there is no second match. |
| Matching.LeftOver | crates/atomic-execution/src/simulator.rs:95-139 | The remainder is the quantity minus the liquidity within the limit, or zero; so an order whose quantity passes the liquidity check is always filled completely. |
| Matching.VisitsAreMatch | crates/atomic-execution/src/simulator.rs:103-139 | Collecting the prices first and visiting them in order, while the book changes under way, fills what repeatedly taking the best level fills. |
| Matching.MatchOrder | crates/atomic-execution/src/simulator.rs:95-139 | The matching loop, which collects the prices first and edits the book in place, computes the unique match. |
| Exchange.SumWithin | crates/atomic-execution/src/simulator.rs:193-206 | The filtered sum over the levels, walked in price order, equals the total liquidity within the limit. |
| Exchange.SimulatedExchange.constructor | crates/atomic-execution/src/simulator.rs:155-163 | A new exchange has no books, no resting orders and no reports, and numbers orders from 1. |
| Exchange.SimulatedExchange.OnBookUpdate | crates/atomic-execution/src/simulator.rs:166-179 | At every price of that pair each side holds what the last level of the batch naming it says, else nothing after a snapshot and what it held after a delta; other pairs keep their books. A sweep over that pair's resting orders follows, in some order of the map. |
| Exchange.SimulatedExchange.CheckRestingOrders | crates/atomic-execution/src/simulator.rs:338-391 | Whatever order the map is walked in, the result is that of looking at those orders one by one. |
| Exchange.SimulatedExchange.CheckLiquidity | crates/atomic-execution/src/simulator.rs:192-237 | Fill or kill is refused exactly if the match would leave something over, else a market order exactly if the side it faces is empty, and nothing else is; so the sum over the levels within the limit decides as the match would. |
| Exchange.SimulatedExchange.MatchAgainstBook | crates/atomic-execution/src/simulator.rs:251-281 | The book of the pair is left as the match leaves it and one report is queued per fill. |
| Exchange.SimulatedExchange.HandleRemainder | crates/atomic-execution/src/simulator.rs:284-318 | A remainder expires with a report, rests, or is dropped without a report, by time in force and order type. |
| Exchange.SimulatedExchange.SubmitOrder | crates/atomic-execution/src/simulator.rs:182-319 | The whole new state of a submission, which is the one that `Submissions.IsSubmission` describes; a rejected order leaves books and resting orders unchanged. |
| Exchange.SimulatedExchange.CancelOrder | crates/atomic-execution/src/simulator.rs:322-335 | A resting order is withdrawn with a report; any other id changes nothing. |
| Exchange.SimulatedExchange.DrainEvents | crates/atomic-execution/src/simulator.rs:394-403 | The queued reports come out in order, each with its timestamp and payload and numbered consecutively from the given number, and the queue is empty. |
| Exchange.FedBooksHold | crates/atomic-execution/src/simulator.rs:60-79 | Feeding a book changes it price by price as said, on both sides, and no other pair. |
| ExchangeBooks.BooksAreRuns | crates/atomic-execution/src/simulator.rs:166-179 | After any updates, each followed by a sweep over any orders, both sides of every pair are what that pair's updates alone say. |
| ExchangeBooks.SnapshotReadsAlikeExactly | crates/atomic-orderbook/src/book.rs:31-47 | A snapshot reads the same into the exchange and into the map book if and only if it takes no level back: the exchange removes a level that a later line of the snapshot sets to zero, the map book keeps it. |
| ExchangeBooks.AlikeThroughoutExactly | crates/atomic-orderbook/src/book.rs:31-67 | Over every history of snapshots and deltas the exchange's side equals the map book's after every update if and only if no snapshot of the history takes a level back. |
| ExchangeBooks.BooksAreMapBooks | crates/atomic-execution/src/simulator.rs:60-79 | So with snapshots that take nothing back the exchange's books are the map books, pair by pair and side by side. |
| Submissions.RejectedExactly | crates/atomic-execution/src/simulator.rs:192-237 | A fill-or-kill order is unfillable exactly if its match leaves something over, a market order finds no liquidity exactly if the side it faces is empty, and nothing else is rejected. |
| Submissions.SubmittedIsSubmission | crates/atomic-execution/src/simulator.rs:182-319 | A submission is answered by a rejection that changes nothing, or by an acknowledgement, one report per fill of the match with its price, quantity, fee and remainder, and for what is left a cancellation, a resting order or nothing; the match is taken from the side the order faces and nothing else moves. |
| Submissions.SubmissionIsUnique | crates/atomic-execution/src/simulator.rs:182-319 | That account has one outcome: match, reports and new state follow from it. |
| Submissions.ReportsAccountForAll | crates/atomic-execution/src/simulator.rs:251-281 | The fills reported of an order that is not rejected add up to its quantity minus what the match leaves over. |
| Submissions.AllOrNothing | crates/atomic-execution/src/simulator.rs:192-225 | A fill-or-kill order is filled completely, with nothing resting, exactly if the match leaves nothing over, and otherwise changes neither books nor resting orders; a market order facing an empty side aside, which is refused. |
| Submissions.PricesWithinBound | crates/atomic-execution/src/simulator.rs:95-139 | No limit or stop-limit order is filled at a price worse than its own. |
| Submissions.FeeIs | crates/atomic-execution/src/simulator.rs:262-281 | The fee is price times quantity times basis points over 10,000, rounded towards zero. |
| Sweeps.CheckedIsSweep | crates/atomic-execution/src/simulator.rs:338-391 | Every walk over the resting orders of a pair removes exactly the purchases with an ask at or below their price and the sales with a bid at or above it, reports each once, whole, at its own price and the maker fee, and leaves all other orders and all books alone. |
| Sweeps.WithdrawnIs | crates/atomic-execution/src/simulator.rs:322-335 | Withdrawing a resting order removes it and reports one cancellation; for any other id nothing changes. |
| Lifecycle.EntryFollowsProjection | crates/atomic-execution/src/state_machine.rs:298-333 | The engine's entry for an order is a function of that order's own events, whatever other events come between them. |
| Lifecycle.SameProjectionsSameOrders | crates/atomic-execution/src/state_machine.rs:298-333 | Two event streams that agree order by order lead to the same order map. |
| Lifecycle.RunKeepsSound | crates/atomic-execution/src/state_machine.rs:128-202 | After any event stream, refused events included, remaining quantity is original minus filled (not below zero), and filled, partial and new states have the quantities their names say. |
| Lifecycle.TerminalIsFinal | crates/atomic-execution/src/state_machine.rs:22-38 | No event stream changes a filled, canceled or rejected order. |
| Histories.EngineTellsHistory | crates/atomic-execution/src/state_machine.rs:298-333 | After any event stream, refused events and other orders in between, an order's entry can be read off the events about it that were taken; its filled quantity is the sum over their fills of both kinds. |
| Histories.AcceptedExactly | crates/atomic-execution/src/state_machine.rs:128-202 | An event is accepted if and only if it may follow those taken before it of the same order: a registration, then an acknowledgement or a rejection, then fills until they add up to the order, or a cancellation. |
| Histories.FillKindsAlike | crates/atomic-execution/src/state_machine.rs:319-320 | A fill and a partial fill with the same report lead to the same entry. |
| Execution.ExecutionEngine.NextOrderId | crates/atomic-execution/src/state_machine.rs:112-116 | The id names the venue and the counter, which advances; it differs from every id of that venue with a smaller number. |
| Execution.ExecutionEngine.RegisterOrder | crates/atomic-execution/src/state_machine.rs:119-125 | A known id is refused and nothing changes; else the order is stored under its id. |
| Execution.ExecutionEngine.OnAck | crates/atomic-execution/src/state_machine.rs:128-141 | Success and the new entry exactly if the order is known and may be acknowledged; else nothing changes. |
| Execution.ExecutionEngine.OnFill | crates/atomic-execution/src/state_machine.rs:143-175 | Success says whether the order is now filled; a refused fill leaves the map unchanged. |
| Execution.ExecutionEngine.OnCancel | crates/atomic-execution/src/state_machine.rs:177-189 | Success exactly if the order is known and cancelable. |
| Execution.ExecutionEngine.OnReject | crates/atomic-execution/src/state_machine.rs:191-202 | Success exactly if the order is known and rejectable. |
| Execution.ExecutionEngine.ProcessEvent | crates/atomic-execution/src/state_machine.rs:298-333 | Ok(true) exactly for an accepted execution event, Ok(false) exactly for other events, and an error leaves the orders unchanged. |
| Execution.ExecutionEngine.OpenOrderIds | crates/atomic-execution/src/state_machine.rs:216-222 | Every order that is not terminal is listed once, in no particular order. |
| Execution.ExecutionEngine.SerializeState | crates/atomic-execution/src/state_machine.rs:251-260 | The order map as the listing sorted by id, whatever order the map was read in. |
| Execution.ExecutionEngine.Snapshot | crates/atomic-execution/src/state_machine.rs:269-279 | The snapshot holds that listing and the next local id. |
| Execution.ExecutionEngine.Restore | crates/atomic-execution/src/state_machine.rs:282-294 | Whatever the engine held, afterwards it holds the order map whose listing the snapshot is. |
| Listing.ListingUnique | crates/atomic-execution/src/state_machine.rs:251-260 | A map has one sorted listing, so equal maps serialize equally. |
| Listing.PrecedesExactly | crates/atomic-execution/src/state_machine.rs:251-260 | Ids are sorted by the first character in which they differ, a proper prefix first. |
| Listing.LoadedListing | crates/atomic-execution/src/state_machine.rs:282-294 | Loading a listing gives back the map that was listed. |
| LockstepSubmit.FillsAreTruthful | crates/atomic-execution/src/simulator.rs:262-281 | The engine accepts every fill report of a submission, and the remainder a report states is what the engine then has left. |
| LockstepSubmit.ReportsAreTruthful | crates/atomic-execution/src/simulator.rs:182-319 | The engine accepts all reports of a submission in order, and they lead the order to its outcome at the exchange. |
| LockstepSubmit.SubmitLinks | crates/atomic-execution/src/simulator.rs:182-319 | After a submission under an unused id the engine accepts all reports due and covers all resting orders; an order is lost from sight exactly if one was before or this one is orphaned. |
| LockstepSubmit.ReusedIdRefused | crates/atomic-execution/src/state_machine.rs:298-333 | Under an id in use the registration is refused and the engine will refuse the first report of the submission. |
| Lockstep.RegisterAhead | crates/atomic-execution/src/state_machine.rs:119-125 | Registering a new order ahead of reports still in flight does not disturb them. |
| Lockstep.CloseOne | crates/atomic-execution/src/simulator.rs:322-391 | A report that fills or cancels a resting order is accepted once it arrives, keeps the other resting orders covered, and loses none. |
| LockstepRuns.CheckedLeaves | crates/atomic-execution/src/simulator.rs:338-391 | A sweep removes exactly the listed orders that can cross, whatever order it visits them in. |
| LockstepRuns.StepKeepsExchange | crates/atomic-execution/src/simulator.rs:166-391 | Every call keeps: stored levels positive, every resting order open for more than zero, and none able to trade with its book. |
| LockstepRuns.StepKeepsLinked | crates/atomic-execution/src/simulator.rs:166-403 | Every call and every delivery, with unused ids but whatever is orphaned, keeps the engine accepting all reports due and covering all resting orders; no order is lost unless one is orphaned. |
| LockstepRuns.SubmitExactlyWhen | crates/atomic-execution/src/simulator.rs:284-318 | A submission keeps the engine accepting if and only if its id is unused, and keeps exchange and engine in agreement if and only if moreover it is not orphaned: accepted, and then either of zero quantity or a good-till order that is not a limit order and exceeds the liquidity within its limit. |
| LockstepRuns.RunsNeverCross | crates/atomic-execution/src/simulator.rs:166-391 | In every run, whatever is submitted, no resting buy reaches its pair's best ask and no resting sell its best bid. |
| LockstepRuns.EveryReportAccepted | crates/atomic-execution/src/state_machine.rs:298-333 | In every run under unused ids, orphans included and reports delivered at any pace, the engine accepts each report; when none is due, every order that rests with remainder r is open in the engine with remainder r. |
| LockstepRuns.RunsStayInLockstep | crates/atomic-execution/src/state_machine.rs:298-333 | If moreover no order was orphaned, an order rests with remainder r exactly if the engine holds it open with remainder r. |
| OrphanRuns.StepKeepsLost | crates/atomic-execution/src/simulator.rs:297-316 | An order that is open in the engine but does not rest stays so under every further call and delivery. |
| OrphanRuns.InLockstepExactly | crates/atomic-execution/src/simulator.rs:297-316 | In every run under unused ids, exchange and engine agree up to reports on the way if and only if no order was orphaned so far. |
| OrphanRuns.EveryRunSettles | crates/atomic-execution/src/simulator.rs:394-403 | Draining and delivering completes every run without changing where it leads. |
| OrphanRuns.OrphansComeToLight | crates/atomic-execution/src/simulator.rs:297-316 | Every run that orphaned an order leads by deliveries alone to a state with nothing on its way in which the engine holds an order open that does not rest. |
| OrphanRuns.OrphanExample | crates/atomic-execution/src/simulator.rs:297-316 | Such a run: one offer of 1 and a market order for 2 that is good till canceled. |
| Node.Node.Perform | crates/atomic-node/tests/determinism.rs:45-106 | Every action carried out by the two objects is a step of the model. |
| Node.Node.Play | crates/atomic-node/tests/determinism.rs:45-106 | A session of any actions is a run; under unused ids and with no report due, the engine covers every resting order, and holds nothing else open exactly if nothing was orphaned. |
| Confluence.GatheredAnyOrder | crates/atomic-execution/src/simulator.rs:338-391 | Reports about different orders lead to the same order map in whatever order they were gathered. |
| Confluence.RestingIsOpen | crates/atomic-node/tests/determinism.rs:61-64 | Cancel-all over the engine's open orders reaches every resting order, however far the engine lags behind, orphans or not. |
| Confluence.TwinStep | crates/atomic-execution/src/simulator.rs:166-391 | One action under an unused id, carried out by two nodes with different map orders, keeps them twins: same books, same resting orders, same settled engine. |
| Confluence.TransportKeepsTwin | crates/atomic-execution/src/simulator.rs:394-403 | The pace at which reports are drained and delivered leaves no trace. |
| Confluence.SameInputsSameState | crates/atomic-node/tests/determinism.rs:176-194 | Two runs on the same inputs, with any map orders and any delivery pace, reach twin states; the only condition is that no id is submitted twice. |
| Confluence.SameInputsSameListing | crates/atomic-node/tests/determinism.rs:176-194 | Once no report is due, both serialize the same canonical state, which is what the state hash is taken of. |
| Pnl.Bookkeeper.OnFill | crates/atomic-node/tests/determinism.rs:95-104 | One fill moves the position by its signed quantity and cost minus realized profit by what was paid; when the position reaches or passes zero all of the cost is realized, else the realized profit stays. |
| Pnl.BooksBalance | crates/atomic-node/tests/determinism.rs:95-104 | Whatever the order of fills, the position and the cost less realized profit are sums over them. |
| Pnl.RealizedIs | crates/atomic-node/tests/determinism.rs:95-104 | From an empty position the cost is what was paid since the position last reached or passed zero, and the realized profit what was received up to then. |
| Pnl.BooksAgreeExactly | crates/atomic-node/tests/determinism.rs:95-104 | Position, cost and realized profit are independent of the order of two fills if and only if both orders end flat, both carry the cost on, or the amounts happen to meet the condition listed for the ways they end. |
| Pnl.QuantitiesAgreeExactly | crates/atomic-node/tests/determinism.rs:95-104 | Whatever costs and prices are, the order of two fills does not matter if and only if both orders end flat, both carry the cost on, or the fill that might reopen the position is empty. |
| Pnl.SwapBooksExactly | crates/atomic-node/tests/determinism.rs:95-104 | With later fills after them, two fills may be booked in either order if and only if they may be exchanged, or the position reaches or passes zero later on. |
| PnlRuns.WalksDiffer | crates/atomic-execution/src/simulator.rs:338-391 | Two runs with the same five actions, unused ids, and two orders in which the last book update walks the two resting sales: one realizes 100, the other 210. |
| ClosedLoop.LoopKeepsInv | crates/atomic-node/tests/determinism.rs:45-109 | Every market event keeps: the engine accepts all reports and covers all resting orders, generated ids are unused, at most one own quote rests on either side and the bid is below the ask, nothing rests while the hot path counts no quotes, and the position is within its limits. |
| LoopOutcomes.EventEnds | crates/atomic-node/tests/determinism.rs:45-109 | Whatever walks are taken, an event ends in one of two ways, which differ only in the order in which the own two quotes are filled. |
| LoopOutcomes.EventCanEnd | crates/atomic-execution/src/simulator.rs:338-391 | Every event can be carried out from every such state, and both ways do occur. |
| LoopDeterminism.LoopsStayTwins | crates/atomic-node/tests/determinism.rs:45-109 | Two nodes that agree up to the split of cost and profit still do after an event, if at one of them it fills at most one own quote, or there is room for both fills, or the trades of its new quotes take the position to the same limit either way. |
| LoopDeterminism.TwinsExactly | cpp/src/signal.cpp:115-127 | That condition, on the state before the event, holds if and only if all outcomes of the event agree. |
| LoopDeterminism.OutcomesEqualExactly | crates/atomic-node/tests/determinism.rs:95-104 | All outcomes are equal, realized profit and fill count included, if and only if moreover the two fills may be booked in either order or a later fill of the event takes the position to or past zero. |
| LoopDeterminism.SameMarketSameNode | crates/atomic-node/tests/determinism.rs:176-194 | Two whole runs on the same market events agree after each of them as long as that condition held along one of the two. |
| LoopDeterminism.RunsAlikeExactly | crates/atomic-node/tests/determinism.rs:176-194 | All nodes that see these events agree after each of them if and only if, at any one of them, the condition holds before each event. |
| LoopDeterminism.RunsEqualExactly | crates/atomic-node/tests/determinism.rs:189-192 | They are all equal, profit and number of fills included, if and only if both conditions do. |
| LoopDeterminism.UncrossedMarketSameNode | crates/atomic-node/tests/determinism.rs:176-194 | If no update leaves the exchange's book crossed, all nodes are equal. |
| LoopDivergence.SameEventsTwoNodes | crates/atomic-node/tests/determinism.rs:189-192 | Two runs of a node from its start on the same four snapshots: one fills its bid first and has position 0 and profit 0, the other its ask and has position 2 and profit 4; after the fourth they hold different orders and serialize differently. |
| Positions.StepKeepsSided | crates/atomic-execution/src/simulator.rs:166-403 | Every call and every delivery under unused ids keeps each due report, and each resting order, about an order the engine knows, on the side the engine has it on. |
| Positions.RunNet | crates/atomic-execution/src/state_machine.rs:298-333 | Delivering such reports moves what the engine's orders add up to, bought minus sold, by exactly the quantities reported filled. |
| Positions.PositionIsNetFilled | crates/atomic-node/tests/determinism.rs:45-106 | After every event of every run, sweeps in any order and orders of any fate, the books' position is what the engine's orders record as filled, purchases minus sales. |
| Positions.InventoryIsPosition | crates/atomic-node/tests/determinism.rs:45-106 | As long as every event had room in the limits for its purchases and for its sales, the hot path's inventory is the same number too. |
| TestNode.TestNode.ProcessEvent | crates/atomic-node/tests/determinism.rs:45-109 | One market event, carried out by hot path, exchange, engine and books as objects, is a step of the closed loop. |
| TestNode.TestNode.Play | crates/atomic-node/tests/determinism.rs:181-187 | A session of market events is a run of the closed loop. |
| Bits.MaskIsMod | crates/atomic-bus/src/ring.rs:36-36 | Masking with one less than a power of two is the remainder by that power. |
| Ring.FullExact | crates/atomic-bus/src/ring.rs:36-40 | The full test of either ring is exact, also after the counters wrapped. |
| Ring.FreeEmptyTestExact | cpp/src/ringbuf.cpp:75-77 | The test `t >= h` on wrapped counters is right exactly if both counts are in the same lap of 2^32. |
| Ring.FreeEmptyTestFails | cpp/src/ringbuf.cpp:75-77 | A concrete pair of counters where it calls a ring with one element empty. |
| Ring.EmptyTest | cpp/src/ringbuf.cpp:71-77 | Before the 2^32nd push the test is exact; from then on it always says empty. |
| Ring.SizeExact | cpp/src/ringbuf.cpp:84-88 | The size read from the wrapped counters is the number of elements. |
| RingSteps.StepKeepsInv | crates/atomic-bus/src/ring.rs:33-62 | Every load, slot access and store of either thread keeps the invariant that ties counters, slots and history together. |
| RingSteps.RunsAreSafe | crates/atomic-bus/src/ring.rs:33-62 | In every interleaving pops are a prefix of pushes, occupancy stays within capacity - 1 (4096 for the C++ ring), a pop never takes an empty slot and the threads never touch the same slot; the C++ ring pops fewer than 2^32 elements in any run. |
| RingSteps.PopsStopAfterWrap | cpp/src/ringbuf.cpp:71-82 | Once 2^32 elements were pushed, no pop of the C++ ring that starts then or later succeeds. |
| RingSteps.ElementLost | cpp/src/ringbuf.cpp:71-82 | A run that gets there: 2^32 - 1 round trips and one push, after which a pop is told the ring is empty while the element is in it. |
| RingSteps.StepRefinesQueue | crates/atomic-bus/src/ring.rs:33-62 | Every atomic step is a step of a bounded FIFO queue if and only if it is not a pop of the C++ ring that comes back empty after 2^32 pushes. |
| SpscRing.Log2Up | crates/atomic-bus/src/ring.rs:20-21 | The capacity is the least power of two that is not below the one asked for. |
| SpscRing.SpscRing.constructor | crates/atomic-bus/src/ring.rs:20-30 | An empty ring of at least the capacity asked for and less than twice it. |
| SpscRing.SpscRing.TryPush | crates/atomic-bus/src/ring.rs:33-47 | Appends exactly if fewer than capacity - 1 elements are queued, else hands the value back; the call is its four atomic steps in a row. |
| SpscRing.SpscRing.TryPop | crates/atomic-bus/src/ring.rs:50-62 | Takes the oldest element, or none exactly if the queue is empty. |
| SpscRing.SpscRing.Len | crates/atomic-bus/src/ring.rs:65-69 | The number of queued elements. |
| HpRing.HpRing.Push | cpp/src/ringbuf.cpp:58-69 | Appends exactly if fewer than 4096 elements are queued, with no bound on the number of pushes. |
| HpRing.HpRing.Pop | cpp/src/ringbuf.cpp:71-82 | Succeeds, with the oldest element, exactly if the queue is not empty and fewer than 2^32 elements were ever pushed; else nothing changes. |
| HpRing.HpRing.Size | cpp/src/ringbuf.cpp:84-88 | The number of queued elements. |
| FlatLevels.FrontIsBest | cpp/src/orderbook.cpp:89-93 | The first slot of a sorted side holds its best price. |
| FlatLevels.SnapshotListed | crates/atomic-orderbook/src/book.rs:31-47 | A sorted snapshot reads the same into the map as into the array. |
| FlatLevels.DropExactly | cpp/src/orderbook.cpp:61-80 | One update leaves array and map apart exactly if the array is full and the price new, which is exactly if the map would hold more than 40 levels. |
| FlatLevels.CappedStaysSmall | cpp/src/orderbook.cpp:61-81 | No batch makes a side longer than 40. |
| FlatLevels.FlatIsPart | cpp/src/orderbook.cpp:33-87 | After any history of snapshots and deltas the array side is a part of the map side and at most 40 long. |
| FlatLevels.FlatIsExact | cpp/src/orderbook.cpp:33-87 | As long as the map side never outgrows 40 levels, the two sides are equal. |
| FlatLevels.SameThroughoutExactly | cpp/src/orderbook.cpp:33-87 | Over every history the array equals the map after every single update if and only if the map never held more than 40 levels and no snapshot was longer. |
| FlatLevels.HidesExactly | cpp/src/orderbook.cpp:89-94 | One update makes the array stop showing the map's best price if and only if it is dropped although better than all the array holds, or takes away the best level while the next best one had been dropped. |
| FlatLevels.HidesFirst | cpp/src/orderbook.cpp:71-79 | While nothing has been dropped, only the first happens: the array is full and the new price better than its best. |
| FlatLevels.BestThroughoutExactly | cpp/src/orderbook.cpp:33-94 | Over every history the array shows the map's best price after each update if and only if no update does that. |
| FlatLevels.BestBidDropped | cpp/src/orderbook.cpp:71-79 | A history of one snapshot and one update after which the map's best bid is 101 and the array still shows 100. |
| FlatBook.FindSlot | cpp/src/orderbook.cpp:49-59 | Bisection as the code does it on any array; on a sorted one it finds the slot of a price or the place where it belongs, in either sort direction. |
| FlatBook.UpdatedIsCapped | cpp/src/orderbook.cpp:46-80 | What an update makes of a sorted side is sorted, free of empty levels, and the update of the capped map it stands for. |
| FlatBook.ApplyUpdate | cpp/src/orderbook.cpp:46-80 | Removing, replacing or inserting with shifts in place changes any side as `Updated` says, and a sorted side as one update of the capped map does. |
| FlatBook.ApplyDeltaSide | cpp/src/orderbook.cpp:42-81 | So does a whole batch. |
| FlatBook.FlatBook.ApplySnapshot | cpp/src/orderbook.cpp:33-40 | The first 40 levels of each side are copied as given; a well-formed snapshot gives a valid book. |
| FlatBook.FlatBook.ApplyDelta | cpp/src/orderbook.cpp:83-87 | Both sides change as the updates say, whatever they held; a valid book stays valid and follows the capped map. |
| FlatBook.FlatBook.BestBid | cpp/src/orderbook.cpp:89-91 | The first slot or 0, which in a valid book is the highest bid of the map. |
| FlatBook.FlatBook.BestAsk | cpp/src/orderbook.cpp:92-94 | The first slot or 0, which in a valid book is the lowest ask of the map. |
| OrderBook.OrderBook.ApplySnapshot | crates/atomic-orderbook/src/book.rs:31-47 | Each side becomes the snapshot's levels without the empty ones, the last one winning. |
| OrderBook.OrderBook.ApplyDelta | crates/atomic-orderbook/src/book.rs:49-67 | Each side changes by the updates in order. |
| OrderBook.OrderBook.BestBid | crates/atomic-orderbook/src/book.rs:69-75 | The highest bid with its quantity, or none exactly if there is no bid. |
| OrderBook.OrderBook.BestAsk | crates/atomic-orderbook/src/book.rs:77-83 | The lowest ask with its quantity, or none exactly if there is no ask. |
| OrderBook.TopLevelsAreBest | crates/atomic-orderbook/src/book.rs:101-118 | The top n levels are in the book, strictly best first, and every level left out is worse than all of them. |
| OrderBook.WalkIsMatch | crates/atomic-orderbook/src/book.rs:147-173 | Walking down the ranked levels takes exactly the fills of the exchange's matcher without a limit. |
| OrderBook.OrderBook.SimulateFill | crates/atomic-orderbook/src/book.rs:147-173 | The answer is the truncated average price and the total of the matcher's fills, or none if it would fill nothing. |
| OrderBook.AverageIsAPrice | crates/atomic-orderbook/src/book.rs:147-173 | The simulated quantity is the order minus the matcher's remainder, and the average lies between the first and the last fill price, negative prices included. |
| OrderBook.SummaryIs | crates/atomic-orderbook/src/book.rs:147-173 | The average is the cost of the fills over their quantity, rounded towards zero. |
| OrderBook.NoneForTooLittleExactly | crates/atomic-orderbook/src/book.rs:146-173 | The answer is None exactly for too little liquidity, as documented, if and only if the order is not empty and the book fills it completely or not at all. |
| OrderBook.PartIsAnswered | crates/atomic-orderbook/src/book.rs:146-173 | An order for 2 on a book of 1 is answered with 1. |
| Sweep.GreedyTotal | crates/atomic-router/src/router.rs:192-210 | The greedy pass takes at most what each level holds and in total the smaller of order and liquidity. |
| Sweep.Threshold | crates/atomic-router/src/router.rs:186-210 | There is a price such that better levels are taken whole and worse ones not at all. |
| Sweep.ExchangeArgument | crates/atomic-router/src/router.rs:169-213 | Moving quantity away from an allocation with such a threshold never helps. |
| Sweep.GreedyIsOptimal | crates/atomic-router/src/router.rs:169-213 | No allocation of the same total over the same levels costs a buyer less or earns a seller more. |
| Sweep.GreedyBestExactly | crates/atomic-router/src/router.rs:169-213 | Against further levels that were left out, the greedy pass is optimal if and only if none of them is better than one it takes from. |
| Router.SmartOrderRouter.CollectQuotes | crates/atomic-router/src/router.rs:171-184 | Exactly the top 20 levels of every venue of the pair, each once, whatever order the map is walked in. |
| Router.SortQuotes | crates/atomic-router/src/router.rs:186-190 | A permutation, best for the taker first. |
| Router.SmartOrderRouter.RouteSweep | crates/atomic-router/src/router.rs:169-213 | Slices follow the sorted levels, each within its level, total the smaller of order and liquidity, and no allocation of that total is better for the taker. |
| Router.SweepBestExactly | crates/atomic-router/src/router.rs:175-213 | Over the whole books of all venues the sweep is optimal if and only if no level below the top 20 of its venue is better than one the sweep uses. |
| Router.TopOrLeftOut | crates/atomic-router/src/router.rs:175-213 | The quotes a sweep may use and those it leaves out are together the levels of the side it trades against, venue by venue, each with its quantity. |
| Router.SweepIsMatch | crates/atomic-router/src/router.rs:169-213 | Swept alone, a venue of at most 20 levels fills as much as its matcher would, at the same cost. |
| Dedup.StepKeepsInv | crates/atomic-node/src/recovery.rs:176-190 | No call leaves more than 100,000 entries or one above the maximum. |
| Types.IntervalSize | crates/atomic-node/src/recovery.rs:183-187 | Pruning is enough, because an interval of 50,000 numbers holds at most 50,000 of them. |
| Dedup.AcceptedOnce | crates/atomic-node/src/recovery.rs:176-190 | In no sequence of calls is a number accepted twice while it is less than 50,000 behind the maximum. |
| Dedup.NothingForgotten | crates/atomic-node/src/recovery.rs:176-190 | As long as at most 100,000 numbers were seen, exactly the numbers seen are remembered. |
| Dedup.PruneKeepsRecent | crates/atomic-node/src/recovery.rs:176-190 | When one more would be too many, exactly the numbers less than 50,000 behind the maximum are kept. |
| Dedup.IncreasingStreamAccepted | crates/atomic-node/src/recovery.rs:176-190 | A strictly increasing stream is accepted in full. |
| Dedup.EventDeduplicator.Check | crates/atomic-node/src/recovery.rs:176-190 | True exactly for a number that is not remembered, and the new memory. |
| Recovery.PlanRecovery | crates/atomic-node/src/recovery.rs:97-150 | The events to replay are those after the snapshot; peer sync is asked for exactly if they are not numbered without a gap from there, and in an increasing log from the least missing number. |
| Recovery.ReplayIsHistory | crates/atomic-node/src/recovery.rs:97-149 | Without a gap the replayed events are exactly the stretch of history after the snapshot. |
| Recovery.RecoveryEqualsFullReplay | crates/atomic-node/src/main.rs:176-206 | Restoring a snapshot, or starting without one, and replaying a gapless plan gives the order map of replaying the whole history. |
| Recovery.IncreasingPasses | crates/atomic-node/src/main.rs:190-195 | A deduplicator started below an increasing stream lets all of it through. |
| Recovery.Replay | crates/atomic-node/src/main.rs:188-204 | The replay loop applies exactly the events its deduplicator lets through, in order, for any log. |
| Recovery.Recover | crates/atomic-node/src/main.rs:160-206 | Startup leaves the engine, with or without a snapshot and whenever no peer sync is needed, with the orders of the whole history up to the next number expected. |
| RecoveredIds.KnownExactly | crates/atomic-execution/src/state_machine.rs:298-315 | The engine knows exactly the ids that some event registered. |
| RecoveredIds.NextIdInUseExactly | crates/atomic-execution/src/state_machine.rs:112-116 | After a gapless recovery the next id generated for a venue is in use if and only if an event after the snapshot registers it. |
| RecoveredIds.FirstOrderAfterRestart | crates/atomic-node/src/main.rs:749-765 | The first order for a venue after such a restart is then refused, and only then. |
| RecoveredIds.FirstIdReused | crates/atomic-node/src/main.rs:749-784 | Such a restart: no snapshot, and a log that holds one order. |
| TradeFlow.VolumeSlides | cpp/src/signal.cpp:42-68 | A trade changes a windowed volume by itself minus the trade that leaves the window, which had been counted. |
| TradeFlow.VpinRange | cpp/src/signal.cpp:79-84 | VPIN is in [0, 10000], 0 for balanced and 10000 for one-sided flow. |
| TradeFlow.VpinIs | cpp/src/signal.cpp:79-84 | In between it is 10,000 times the share of the imbalance in the volume, rounded down. |
| TradeFlow.ToxicExactly | cpp/src/signal.cpp:86-90 | Flow is toxic exactly if more than eight tenths of the volume, counted in steps of a ten-thousandth, is imbalance. |
| TradeFlow.MultiplierRange | cpp/src/signal.cpp:92-100 | The multiplier is in [10000, 20000], above 10000 only in toxic flow and 20000 at full imbalance. |
| TradeFlow.MultiplierIs | cpp/src/signal.cpp:92-100 | From the threshold on it rises by five for every point of VPIN. |
| TradeFlow.MultiplierRustIs | crates/atomic-strategy/src/toxicity.rs:83-90 | The Rust multiplier is 10,000 plus the VPIN plus fifty times the volatility, the last up to 10,000. |
| TradeFlow.EmasAgree | cpp/src/signal.cpp:70-76 | On positive prices the two volatility averages agree. |
| TradeFlow.EmaStepIs | crates/atomic-strategy/src/toxicity.rs:41-51 | An average moves towards the price change by the averaging weight's share of the way, rounded towards zero, for every weight. |
| TradeFlow.EmaNonNegative | crates/atomic-strategy/src/toxicity.rs:41-51 | The volatility average never becomes negative. |
| TradeFlow.RangeExactly | crates/atomic-strategy/src/toxicity.rs:83-90 | The Rust multiplier is in [10000, 30000] after every history of trades if and only if the averaging weight is from 0 to 1. |
| Toxicity.StoreKeeps | cpp/src/signal.cpp:53-68 | Overwriting the oldest slot of the circular buffer keeps the last 200 trades at their places. |
| Toxicity.ToxicityState.OnTrade | cpp/src/signal.cpp:42-77 | After every trade the running volumes equal the sums over the last min(n, 200) trades and the average follows all prices. |
| Toxicity.ToxicityState.CurrentVpin | cpp/src/signal.cpp:79-84 | The scaled imbalance of the two volumes, in [0, 10000]. |
| Toxicity.ToxicityState.SpreadMultiplier | cpp/src/signal.cpp:92-100 | The multiplier of the current VPIN, in [10000, 20000]. |
| Toxicity.ToxicityTracker.OnTrade | crates/atomic-strategy/src/toxicity.rs:41-66 | The same for a window of any length kept in a deque. |
| Toxicity.ToxicityTracker.EvictOld | crates/atomic-strategy/src/toxicity.rs:57-65 | Eviction leaves the last trades and their volumes: no saturating subtraction ever saturates. |
| Toxicity.ToxicityTracker.CurrentVpin | crates/atomic-strategy/src/toxicity.rs:69-76 | The scaled imbalance of the windowed volumes, in [0, 10000]. |
| Toxicity.ToxicityTracker.SpreadMultiplier | crates/atomic-strategy/src/toxicity.rs:85-90 | The multiplier of the trades so far, at most 30000, and at least 10000 + VPIN for every averaging weight from 0 to 1. |
| Toxicity.TrackersAgree | crates/atomic-strategy/src/toxicity.rs:41-90 | On the same positively priced trades, window 200 and the same average, both trackers have equal volumes, VPIN, volatility and, at the same threshold, toxicity. |
| Inventory.SkewsClose | crates/atomic-strategy/src/inventory.rs:44-51 | For nonnegative inputs the C++ skew is never below the Rust skew and, if above, exceeds it by less than 1 + (gamma + 10000) * half_spread / 100000000. |
| Inventory.SkewsAgree | cpp/src/signal.cpp:134-139 | With at most full inventory, gamma at most 10000 and half-spread at most 5000 the skews are at most one pipette apart. |
| Inventory.SkewsDiffer | crates/atomic-strategy/src/inventory.rs:44-51 | Inputs for which that pipette of difference occurs. |
| Inventory.SkewWithinSpread | cpp/src/signal.cpp:134-139 | A clamped position and |gamma| at most 10000 keep the skew within the half-spread. |
| Inventory.SkewLeansAgainst | cpp/src/signal.cpp:129-139 | The skew, by which both quotes are lowered, is not negative for a long position and not positive for a short one. |
| Inventory.SkewIs | cpp/src/signal.cpp:134-139 | The skew is gamma times position times half-spread over 10,000 times the maximum, rounded towards zero, and zero if nothing may be held. |
| Inventory.SkewRises | cpp/src/signal.cpp:134-139 | A larger position has no smaller skew. |
| Inventory.RatioInRangeExactly | crates/atomic-strategy/src/inventory.rs:48-49 | The Rust inventory ratio of a spot position is in its documented range if and only if the position is at most the maximum, up to rounding. |
| Inventory.RatioExceeded | crates/atomic-strategy/src/inventory.rs:28-49 | One purchase after which the ratio is 20000. |
| Inventory.FillsCommuteExactly | cpp/src/signal.cpp:115-127 | Two fills lead to the same clamped position in either order if and only if they are on the same side, one is empty, nothing may be held, or neither would be clamped on its own. |
| Inventory.OrdersAgreeExactly | cpp/src/signal.cpp:115-127 | Any number of fills lead to the same clamped position in all their orders if and only if nothing may be held, or all are on one side, or there is room for all purchases and for all sales. |
| Inventory.SwapAgreesExactly | cpp/src/signal.cpp:115-127 | A purchase and a sale lead, with the fills after them, to the same position in either order if and only if they may be exchanged or the later fills take the lower position up to the limit or the higher one down to it. |
| Inventory.InventoryState.OnFill | cpp/src/signal.cpp:115-127 | The position moves by the fill, clamped to the limit on either side. |
| Inventory.InventoryState.ComputeSkew | cpp/src/signal.cpp:134-139 | The C++ skew, within the half-spread for |gamma| at most 10000. |
| Inventory.InventoryManager.OnFill | crates/atomic-strategy/src/inventory.rs:28-37 | A sale takes away at most what is held, so a spot position is never short. |
| Inventory.InventoryManager.ComputeSkew | crates/atomic-strategy/src/inventory.rs:44-51 | The Rust skew of the current position. |
| Pacing.BatchesNameUpdates | cpp/src/engine.cpp:199-245 | Every batch is caused by the book update it names, and by a fair value that is not zero. |
| Pacing.BatchesArePaced | cpp/src/engine.cpp:87-104 | After the first, every batch comes after warmup, at least the cooldown after the one before, and with at least the threshold's change of fair value. |
| Pacing.NoQuoteMissed | cpp/src/engine.cpp:87-104 | A fair value that leads to no batch comes before warmup, within the cooldown or with too small a change. |
| Pacing.BatchesBounded | cpp/src/engine.cpp:87-104 | n book updates lead to at most 1 + (n - 1) / cooldown batches. |
| Pacing.BoundIsMet | cpp/src/engine.cpp:87-104 | That bound is met for every n and every cooldown. |
| Pacing.WarmupExactly | cpp/include/hotpath.h:78-78 | No quote comes before warmup if and only if no fair value does: the header promises more than the code keeps. |
| Pacing.WarmupIgnored | cpp/src/engine.cpp:88-91 | A concrete quote on the first tick of a warmup of 100. |
| Quoting.CountersDecide | cpp/src/engine.cpp:87-104 | The engine's three counters decide as the whole history of fair values does. |
| QuoteRules.HalfSpreadRange | cpp/src/engine.cpp:115-119 | The half-spread is once to twice the configured one, and at least 1. |
| QuoteRules.HalfSpreadIs | cpp/src/engine.cpp:115-119 | It is the configured half-spread, at least 1, times the multiplier over 10,000, rounded down. |
| QuoteRules.BatchIs | cpp/src/engine.cpp:127-155 | Cancel-all exactly if quotes are active, a bid exactly below the maximum position and an ask exactly above the minimum, one half-spread below and above the fair value, both lowered by the skew. |
| QuoteRules.QuotesLean | cpp/src/engine.cpp:127-139 | With a risk aversion that is not negative no quote of a batch rises when the position rises, so a long position leaves bid and ask no higher than an empty one and a short one no lower. |
| QuoteRules.FullSkew | cpp/src/signal.cpp:134-139 | At the maximum, a position moves both quotes by gamma times the half-spread over 10,000. |
| QuoteRules.QuotesStraddle | cpp/src/engine.cpp:127-155 | A batch has at most three commands, its quotes are two half-spreads apart, and with a skew within the half-spread they lie on both sides of the fair value. |
| QuoteRules.BatchIsSound | cpp/src/engine.cpp:108-165 | So does every batch that any history of trades and fills can lead to, for every |gamma| at most 10000. |
| QuoteRules.QuotesKeepLedger | cpp/src/engine.cpp:127-162 | A batch never leaves two live quotes on a side. |
| QuoteRules.RunsQuoteOnce | cpp/src/engine.cpp:199-279 | In every run of fair values, trades and fills the position stays within its limits, at no point of the stream more than one quote is live on a side, and at most three commands are sent per input. |
| QuoteRules.CancelledBetween | cpp/src/engine.cpp:127-162 | In every such stream, between two quotes on the same side lies a cancel-all. |
| Quoting.HotPathEngine.GenerateQuotes | cpp/src/engine.cpp:108-165 | The batch that the history makes, the skew and half-spread reported with it, and the state it leaves. |
| Quoting.HotPathEngine.OnBookUpdate | cpp/src/engine.cpp:199-245 | For any update, sorted or not, the engine's book changes as the flat book does; on the fair value of that book, 0 for an empty side, the answer is the one the history of fair values, trades and fills makes due. A batch is sound as above, every bid is the fair value minus half-spread minus skew, every ask the fair value plus half-spread minus skew, and the skew has the sign of the position for a nonnegative risk aversion and limit. |
| Quoting.HotPathEngine.OnTrade | cpp/src/engine.cpp:247-270 | The trade joins the history; cancel-all exactly if the flow is now toxic and quotes are active; in toxic flow nothing stays live. |
| Quoting.HotPathEngine.OnFill | cpp/src/engine.cpp:272-279 | The position moves by the fill, up for a purchase and down for a sale, within the limits, and every invariant is kept. |
| Risk.AcceptKeepsRate | crates/atomic-risk/src/limits.rs:186-202 | An accepted order comes at least a second after the one accepted max_orders_per_second before it. |
| Risk.WindowHoldsRate | crates/atomic-risk/src/limits.rs:186-202 | So every half-open one-second window holds at most that many accepted orders. |
| Risk.PruneKeeps | crates/atomic-risk/src/limits.rs:186-191 | Forgetting timestamps a second old loses nothing: the count that stays reaches the limit exactly if the last second was busy. |
| Risk.RiskEngine.RateIsLimited | crates/atomic-risk/src/limits.rs:186-202 | In every state that a run with nondecreasing times can reach, no one-second window holds more accepted orders than allowed. |
| Risk.AnswerIsUnique | crates/atomic-risk/src/limits.rs:104-204 | An order has one right answer: accepted if no gate objects, else refused by the first that does. |
| Risk.ResultingIs | crates/atomic-risk/src/limits.rs:139-150 | With bought positive and sold negative, the resulting position is the size of the signed position plus the signed order. |
| Risk.ClosingNeverRefused | crates/atomic-risk/src/limits.rs:139-153 | An order against a position within the limit, of at most twice its size, is never refused for the position, and leaves no more than there was. |
| Risk.RiskEngine.CheckOrder | crates/atomic-risk/src/limits.rs:104-204 | The answer is that one; only acceptance is recorded, and only a loss beyond the limit throws the kill switch. |
| Risk.AcceptedMeans | crates/atomic-risk/src/limits.rs:104-204 | An order is accepted if and only if the gates that do not look at it are open and its size, position and notional fit. |
| Risk.AcceptedExactly | crates/atomic-risk/src/limits.rs:104-204 | The same in the readings and the order alone: signed position plus signed order within the position limit, and its notional within both notional limits. |
| Risk.AggregateExactly | crates/atomic-risk/src/limits.rs:12-13 | With any notional held in other symbols, all accepted orders on top of a position keep the aggregate limit if and only if nothing is accepted at all or what the others hold leaves room for the largest notional one symbol may have. |
| Risk.AggregateExceeded | crates/atomic-risk/src/limits.rs:164-171 | With the default limits, 800 billion held elsewhere and an accepted order that makes it 1,100 of 1,000 billion. |
| Risk.SymbolLimitsExactly | crates/atomic-risk/src/limits.rs:139-171 | Acceptance keeps the position limit per symbol if and only if orders may not be larger than it, and the notional limit if and only if orders are empty, unless nothing is accepted: the first order of a symbol is not checked against them. |
| Risk.DrawdownMeans | crates/atomic-risk/src/limits.rs:214-235 | With a limit of at most 100 percent the drawdown breaker fires exactly if profit fell by more than the limit between some two times since the reset. |
| Risk.DrawdownExactly | crates/atomic-risk/src/limits.rs:214-235 | With any limit it fires exactly if at some time profit was by more than the limit below the highest it had been since the reset. |
| Risk.StreakMeans | crates/atomic-risk/src/limits.rs:243-254 | The loss breaker fires exactly if there is a limit and that many losing round-trips came in a row since the reset. |
| Risk.RiskEngine.UpdatePnl | crates/atomic-risk/src/limits.rs:214-235 | Total, peak and breaker say what all profits since the reset say. |
| Risk.RiskEngine.RecordWin | crates/atomic-risk/src/limits.rs:238-240 | A win ends the losing streak and does not close the breaker. |
| Risk.RiskEngine.RecordLoss | crates/atomic-risk/src/limits.rs:243-254 | A loss extends the streak and may open the breaker. |
| Risk.RiskEngine.DailyReset | crates/atomic-risk/src/limits.rs:263-269 | Breaker, streak and profits start afresh; kill switch and rate limiter are untouched. |
| Microprice.ComputeWeighted | crates/atomic-strategy/src/microprice.rs:22-46 | The loop computes the weighted average over the levels used, with its three fallbacks. |
| Microprice.WeightedBetween | crates/atomic-strategy/src/microprice.rs:22-46 | The microprice lies between any two prices that all levels used lie between, fallbacks included. |
| Microprice.WeightedInSortedBook | crates/atomic-strategy/src/microprice.rs:22-46 | In a sorted book it lies between the lowest bid and the highest ask used. |
| Microprice.TopOfBookBoundsExactly | crates/atomic-strategy/src/microprice.rs:22-46 | Whatever the quantities, the microprice stays between best bid and best ask if and only if all prices used do. |
| Microprice.TopOfBookIsNoBound | crates/atomic-strategy/src/microprice.rs:22-46 | A book whose microprice is far above its best ask. |
| Microprice.ComputeBetween | crates/atomic-strategy/src/microprice.rs:9-17 | The top-of-book microprice lies between bid and ask. |
| Microprice.ComputeIs | crates/atomic-strategy/src/microprice.rs:9-17 | On nonnegative prices it divides the spread as the quantities are divided, rounded down: more on the bid moves it towards the ask. |
| Microprice.ComputeRounds | crates/atomic-strategy/src/microprice.rs:9-17 | At any prices, negative ones included, the exact value is rounded towards zero; without quantity on either side it is the middle. |
| Microprice.WeightedShifts | crates/atomic-strategy/src/microprice.rs:22-46 | On nonnegative prices it moves by k when every price moves by k. |
| Microprice.Imbalance | crates/atomic-strategy/src/microprice.rs:51-67 | The loop computes the scaled imbalance of the two volumes used. |
| Microprice.ImbalanceMeaning | crates/atomic-strategy/src/microprice.rs:51-67 | It lies in [-10000, 10000], leans to the heavier side, and only changes its sign when the sides are exchanged. |

## Left out

- HpRing.HpRing.Pop: does not promise that an element in the queue comes out after 2^32 pushes, because the code does not deliver it.
- FlatLevels.FlatIsPart: assumes snapshots that are sorted, as the header demands (cpp/include/hotpath.h:99), without duplicates or empty levels, because the code copies snapshots unchecked; `FlatBook.FlatBook.ApplySnapshot` says what it does with any other.
- FlatLevels.FlatIsExact: assumes the same of snapshots.
- FlatLevels.SameThroughoutExactly: assumes the same of snapshots.
- FlatLevels.BestThroughoutExactly: assumes the same of snapshots; `FlatBook.FlatBook.ApplyDelta` and `Quoting.HotPathEngine.OnBookUpdate` are stated for any.
- Confluence.SameInputsSameState: assumes that no id is submitted twice; with a reused id, cancel-all may reach a resting order at one node and not at another that has heard more reports.
- LockstepRuns.EveryReportAccepted: assumes unused ids; what happens under an id in use is `LockstepSubmit.ReusedIdRefused`, and when generated ids are in use after a restart `RecoveredIds.NextIdInUseExactly`.
- Risk.RiskEngine.CheckOrder: requires a time no earlier than the timestamps kept, because the code subtracts unsigned times; the rate limit is claimed for nondecreasing times.
- Toxicity.TrackersAgree: assumes positive prices, because the trackers treat a last price that is not positive differently.
- Quoting.HotPathEngine.OnBookUpdate: leaves open which function of the two sides of the book the floating-point microprice is, apart from 0 for an empty side.
- 64-bit and 32-bit overflow outside the C++ ring's counters: quantities, prices, ticks and ids are unbounded integers.
- Weak memory: the rings are modelled under sequentially consistent interleaving.
- Binary encoding and hashing: the sorted listing stands for the bytes, and snapshots are values.
- Event `source` fields, venue fields of reports, clocks, latencies, metrics and logging.
- File scanning and file errors of recovery: snapshot and log are inputs.
- VWAP, TWAP and best-venue routing, spread and depth queries, the floating-point PnL of the live node: they would add only easy members.
- The Rust market maker's event handling: it combines parts modelled here.
- Transports, consensus votes, replication, heartbeats, state verifier, event sequencer, dashboard and configuration.
