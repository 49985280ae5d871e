/** The closed loop of the determinism test (crates/atomic-node/tests/determinism.rs, `TestNode::process_event`): market
    events go to the exchange and the hot path, the hot path's commands become orders and cancels, all reports are
    delivered, and their fills go back to the hot path and to the books. */
module ClosedLoop {
  import opened Types
  import opened PriceLevels
  import opened Matching
  import opened Lifecycle
  import opened Exchange
  import opened Lockstep
  import opened LockstepSubmit
  import opened LockstepRuns
  import opened Confluence
  import opened OrderIds
  import opened FlatBook
  import opened Pnl
  import Inventory
  import QuoteRules
  import TradeFlow

  /** `price` is the microprice of the two sides of the flat book, left open. */
  datatype LoopConfig = LoopConfig(cfg: Config, hc: QuoteRules.HotConfig, symbol: Symbol, price: (seq<Level>, seq<Level>) -> int)

  datatype Loop = Loop(sys: System, hot: QuoteRules.Hot, flat: FlatSides, books: Books, fillCount: nat, nextLocal: nat)

  datatype Market =
    | BookUpdate(symbol: Symbol, bids: seq<Level>, asks: seq<Level>, isSnapshot: bool)
    | TradeTick(side: Side, price: int, qty: nat)

  function FlatAfter(l: Loop, m: Market): FlatSides {
    match m
    case BookUpdate(_, bids, asks, isSnapshot) => SidesFed(l.flat, bids, asks, isSnapshot)
    case TradeTick(_, _, _) => l.flat
  }

  function Answered(lc: LoopConfig, l: Loop, m: Market): (QuoteRules.Hot, seq<QuoteRules.Command>) {
    match m
    case BookUpdate(_, _, _, _) => QuoteRules.OnTick(lc.hc, l.hot, QuoteRules.FairValue(lc.price, FlatAfter(l, m)))
    case TradeTick(side, price, qty) => QuoteRules.OnPrint(lc.hc, l.hot, TradeFlow.Trade(side, qty, price))
  }

  // ---- From commands to actions ----

  function OrderFor(lc: LoopConfig, n: nat, c: QuoteRules.Command): NewOrder
    requires !c.CancelAll?
  {
    NewOrder(OrderId(Simulated, n), lc.symbol, if c.PlaceBid? then Buy else Sell, Limit, c.price, c.qty, GoodTilCancel, Simulated)
  }

  function ActionFor(lc: LoopConfig, n: nat, c: QuoteRules.Command, ts: nat): Action {
    if c.CancelAll? then CancelAll(ts) else Submit(OrderFor(lc, n, c), ts)
  }

  function NextAfter(n: nat, c: QuoteRules.Command): nat { if c.CancelAll? then n else n + 1 }

  /** The commands are carried out one after the other, each map walk in an order of its own. */
  ghost predicate CarriedOut(lc: LoopConfig, s: System, n: nat, cs: seq<QuoteRules.Command>, ts: nat, s': System, n': nat)
    decreases |cs|
  {
    if cs == [] then s' == s && n' == n
    else exists mid :: Step(lc.cfg, s, ActionFor(lc, n, cs[0], ts), mid)
                       && CarriedOut(lc, mid, NextAfter(n, cs[0]), cs[1..], ts, s', n')
  }

  /** The exchange takes a market event: a sweep in any order, or nothing. */
  ghost predicate Taken(lc: LoopConfig, s: System, m: Market, s': System) {
    match m
    case BookUpdate(symbol, bids, asks, isSnapshot) => Step(lc.cfg, s, Feed(symbol, bids, asks, isSnapshot), s')
    case TradeTick(_, _, _) => s' == s
  }

  // ---- One event ----

  function Amounts(fs: seq<FillReport>): seq<int> {
    if fs == [] then [] else [Signed(fs[0])] + Amounts(fs[1..])
  }

  lemma {:induction false} AmountsConcat(a: seq<FillReport>, b: seq<FillReport>)
    ensures Amounts(a + b) == Amounts(a) + Amounts(b)
  {
    if a == [] {
      assert a + b == b;
    } else {
      assert (a + b)[0] == a[0] && (a + b)[1..] == a[1..] + b;
      AmountsConcat(a[1..], b);
    }
  }

  function FilledAll(hc: QuoteRules.HotConfig, h: QuoteRules.Hot, fs: seq<FillReport>): QuoteRules.Hot {
    h.(position := Inventory.Walked(hc.maxInventory, h.position, Amounts(fs)))
  }

  /** All that was reported is delivered. */
  function Delivered(s: System): System {
    System(s.ex.(pending := []), [], Run(s.orders, s.ex.pending))
  }

  ghost predicate LoopStepVia(lc: LoopConfig, l: Loop, m: Market, ts: nat, fed: System, done: System, l': Loop) {
    var (h, cs) := Answered(lc, l, m);
    var fills := Fills(done.ex.pending);
    && Taken(lc, l.sys, m, fed)
    && CarriedOut(lc, fed, l.nextLocal, cs, ts, done, l'.nextLocal)
    && l' == Loop(Delivered(done), FilledAll(lc.hc, h, fills), FlatAfter(l, m), BookedAll(l.books, fills),
                  l.fillCount + |fills|, l'.nextLocal)
  }

  ghost predicate LoopStep(lc: LoopConfig, l: Loop, m: Market, ts: nat, l': Loop) {
    exists fed, done :: LoopStepVia(lc, l, m, ts, fed, done, l')
  }

  // ---- What every event keeps ----

  /** Every order was numbered below the counter. */
  ghost predicate KnownIds(orders: Orders, n: nat) {
    forall id :: id in orders ==> IdBelow(Simulated, id, n)
  }

  lemma NextIdUnused(orders: Orders, n: nat)
    requires KnownIds(orders, n)
    ensures OrderId(Simulated, n) !in orders
  {
    if OrderId(Simulated, n) in orders {
      var m :| 0 <= m < n && OrderId(Simulated, n) == OrderId(Simulated, m);
      IdsDiffer(Simulated, m, n);
      assert false;
    }
  }

  /** At most one purchase and one sale rest, at these prices. */
  ghost predicate RestAt(lc: LoopConfig, resting: map<string, SimOrder>, bidPrice: int, askPrice: int) {
    && (forall id :: id in resting ==> resting[id].symbol == lc.symbol
                                       && resting[id].price == if resting[id].side.Buy? then bidPrice else askPrice)
    && (forall i, j :: i in resting && j in resting && resting[i].side == resting[j].side ==> i == j)
  }

  /** At most one quote rests on each side, and the bid is below the ask. */
  ghost predicate QuotePair(lc: LoopConfig, resting: map<string, SimOrder>) {
    exists bidPrice, askPrice :: bidPrice < askPrice && RestAt(lc, resting, bidPrice, askPrice)
  }

  ghost predicate LoopInv(lc: LoopConfig, l: Loop) {
    && HalfInv(l.sys) && Due(l.sys) == [] && KnownIds(l.sys.orders, l.nextLocal)
    && QuotePair(lc, l.sys.ex.resting) && (!l.hot.active ==> l.sys.ex.resting == map[])
    && Abs(l.hot.position) <= Abs(lc.hc.maxInventory)
  }

  /** The state in the middle of an event: nothing was delivered yet. */
  ghost predicate MidEvent(s: System, n: nat) {
    HalfInv(s) && s.inflight == [] && KnownIds(s.orders, n)
  }

  lemma ActionKeepsIds(lc: LoopConfig, s: System, n: nat, c: QuoteRules.Command, ts: nat, s': System)
    requires KnownIds(s.orders, n) && Step(lc.cfg, s, ActionFor(lc, n, c, ts), s')
    ensures Unused(s, ActionFor(lc, n, c, ts)) && KnownIds(s'.orders, NextAfter(n, c))
  {
    NextIdUnused(s.orders, n);
    forall id | id in s'.orders ensures IdBelow(Simulated, id, NextAfter(n, c)) {
      if id in s.orders {
        var m :| 0 <= m < n && id == OrderId(Simulated, m);
        assert IdBelow(Simulated, id, NextAfter(n, c));
      } else {
        assert id == OrderId(Simulated, n);
      }
    }
  }

  lemma CommandKeepsMidEvent(lc: LoopConfig, s: System, n: nat, c: QuoteRules.Command, ts: nat, s': System)
    requires MidEvent(s, n) && Step(lc.cfg, s, ActionFor(lc, n, c, ts), s')
    ensures MidEvent(s', NextAfter(n, c))
  {
    ActionKeepsIds(lc, s, n, c, ts, s');
    StepKeepsHalf(lc.cfg, s, ActionFor(lc, n, c, ts), s');
  }

  lemma TakenKeepsMidEvent(lc: LoopConfig, s: System, n: nat, m: Market, s': System)
    requires MidEvent(s, n) && Taken(lc, s, m, s')
    ensures MidEvent(s', n) && s'.orders == s.orders
    ensures IsPart(s'.ex.resting, s.ex.resting)
  {
    match m
    case BookUpdate(symbol, bids, asks, isSnapshot) =>
      var a := Feed(symbol, bids, asks, isSnapshot);
      StepKeepsHalf(lc.cfg, s, a, s');
      var ids :| ListsResting(ids, s.ex.resting, symbol.Pair())
                 && s' == s.(ex := Checked(lc.cfg, BookFed(s.ex, symbol.Pair(), bids, asks, isSnapshot), ids));
      CheckedLeaves(lc.cfg, BookFed(s.ex, symbol.Pair(), bids, asks, isSnapshot), ids);
    case TradeTick(_, _, _) =>
  }

  /** Cancel-all leaves nothing resting. */
  lemma CancelClears(cfg: Config, s: System, ts: nat, s': System)
    requires HalfInv(s) && Step(cfg, s, CancelAll(ts), s')
    ensures s'.ex.resting == map[] && s'.ex.books == s.ex.books && s'.ex.nextId == s.ex.nextId && s'.orders == s.orders
    ensures Fills(s'.ex.pending) == Fills(s.ex.pending)
  {
    var ids :| ListsOpen(ids, s.orders) && s' == s.(ex := WithdrawnAll(cfg, s.ex, ids, ts));
    WithdrawnReports(cfg, s.ex, ids, ts);
    forall id | id in s.ex.resting ensures id in ids {
      RestingIsOpen(s, id);
    }
    CancelsAreNoFills(Cancels(cfg, s.ex, ts), ids);
    FillsConcat(s.ex.pending, Gathered(Cancels(cfg, s.ex, ts), ids));
  }

  lemma {:induction false} CancelsAreNoFills(events: map<string, Event>, ids: seq<string>)
    requires forall id :: id in events ==> events[id].payload.OrderCancel?
    ensures Fills(Gathered(events, ids)) == []
  {
    if ids != [] {
      CancelsAreNoFills(events, ids[1..]);
      var head := if ids[0] in events then [events[ids[0]]] else [];
      FillsConcat(head, Gathered(events, ids[1..]));
    }
  }

  /** The commands still to come quote at these prices, and on no side that has a quote resting. */
  ghost predicate Quotable(lc: LoopConfig, resting: map<string, SimOrder>, cs: seq<QuoteRules.Command>, bidPrice: int, askPrice: int) {
    && (forall i, j :: 0 <= i < j < |cs| ==> QuoteRules.Kind(cs[i]) < QuoteRules.Kind(cs[j]))
    && (forall c :: c in cs ==> (c.PlaceBid? ==> c.price == bidPrice) && (c.PlaceAsk? ==> c.price == askPrice))
    && ((cs != [] && cs[0].CancelAll?)
        || (RestAt(lc, resting, bidPrice, askPrice)
            && forall c, id :: c in cs && id in resting
                               ==> (c.PlaceBid? ==> resting[id].side.Sell?) && (c.PlaceAsk? ==> resting[id].side.Buy?)))
  }

  lemma Placed(lc: LoopConfig, s: System, n: nat, c: QuoteRules.Command, ts: nat, s': System) returns (o: SimOrder)
    requires !c.CancelAll? && Step(lc.cfg, s, ActionFor(lc, n, c, ts), s')
    ensures s'.ex.resting == s.ex.resting || s'.ex.resting == s.ex.resting[OrderId(Simulated, n) := o]
    ensures o.symbol == lc.symbol && o.side == (if c.PlaceBid? then Buy else Sell) && o.price == c.price
  {
    var order := OrderFor(lc, n, c);
    o := Resting(order, MatchFor(s.ex.books, order).remaining, ts);
  }

  lemma TailIsQuotable(lc: LoopConfig, resting: map<string, SimOrder>, cs: seq<QuoteRules.Command>, bidPrice: int, askPrice: int)
    requires cs != [] && Quotable(lc, resting, cs, bidPrice, askPrice)
    ensures Quotable(lc, if cs[0].CancelAll? then map[] else resting, cs[1..], bidPrice, askPrice)
    ensures forall c :: c in cs[1..] ==> QuoteRules.Kind(cs[0]) < QuoteRules.Kind(c)
  {
    var rest := cs[1..];
    assert forall i :: 0 <= i < |rest| ==> rest[i] == cs[i + 1];
  }

  lemma AddedIsQuotable(lc: LoopConfig, resting: map<string, SimOrder>, cs: seq<QuoteRules.Command>, bidPrice: int, askPrice: int,
                        id: string, o: SimOrder)
    requires cs != [] && !cs[0].CancelAll? && Quotable(lc, resting, cs, bidPrice, askPrice)
    requires o.symbol == lc.symbol && o.side == (if cs[0].PlaceBid? then Buy else Sell) && o.price == cs[0].price
    ensures Quotable(lc, resting[id := o], cs[1..], bidPrice, askPrice)
  {
    TailIsQuotable(lc, resting, cs, bidPrice, askPrice);
    assert cs[0] in cs;
    AddedRestsAt(lc, resting, bidPrice, askPrice, id, o);
  }

  lemma AddedRestsAt(lc: LoopConfig, resting: map<string, SimOrder>, bidPrice: int, askPrice: int, id: string, o: SimOrder)
    requires RestAt(lc, resting, bidPrice, askPrice)
    requires o.symbol == lc.symbol && o.price == (if o.side.Buy? then bidPrice else askPrice)
    requires forall i :: i in resting ==> resting[i].side != o.side
    ensures RestAt(lc, resting[id := o], bidPrice, askPrice)
  {
  }

  lemma CommandKeepsQuotable(lc: LoopConfig, s: System, n: nat, cs: seq<QuoteRules.Command>, ts: nat, s': System, bidPrice: int, askPrice: int)
    requires HalfInv(s) && cs != [] && Quotable(lc, s.ex.resting, cs, bidPrice, askPrice)
    requires Step(lc.cfg, s, ActionFor(lc, n, cs[0], ts), s')
    ensures Quotable(lc, s'.ex.resting, cs[1..], bidPrice, askPrice)
  {
    TailIsQuotable(lc, s.ex.resting, cs, bidPrice, askPrice);
    if cs[0].CancelAll? {
      CancelClears(lc.cfg, s, ts, s');
    } else {
      var o := Placed(lc, s, n, cs[0], ts, s');
      AddedIsQuotable(lc, s.ex.resting, cs, bidPrice, askPrice, OrderId(Simulated, n), o);
    }
  }

  /** Whatever the commands of an event are, they leave one quote a side. */
  lemma {:induction false} CarriedKeeps(lc: LoopConfig, s: System, n: nat, cs: seq<QuoteRules.Command>, ts: nat, s': System, n': nat,
                                        bidPrice: int, askPrice: int)
    requires MidEvent(s, n) && CarriedOut(lc, s, n, cs, ts, s', n') && Quotable(lc, s.ex.resting, cs, bidPrice, askPrice)
    ensures MidEvent(s', n') && RestAt(lc, s'.ex.resting, bidPrice, askPrice)
    decreases |cs|
  {
    if cs != [] {
      var mid :| Step(lc.cfg, s, ActionFor(lc, n, cs[0], ts), mid) && CarriedOut(lc, mid, NextAfter(n, cs[0]), cs[1..], ts, s', n');
      CommandKeepsMidEvent(lc, s, n, cs[0], ts, mid);
      CommandKeepsQuotable(lc, s, n, cs, ts, mid, bidPrice, askPrice);
      CarriedKeeps(lc, mid, NextAfter(n, cs[0]), cs[1..], ts, s', n', bidPrice, askPrice);
    }
  }

  ghost predicate IsPart(a: map<string, SimOrder>, b: map<string, SimOrder>) {
    forall id :: id in a ==> id in b && a[id] == b[id]
  }

  lemma PartRestsAt(lc: LoopConfig, a: map<string, SimOrder>, b: map<string, SimOrder>, bidPrice: int, askPrice: int)
    requires IsPart(a, b) && RestAt(lc, b, bidPrice, askPrice)
    ensures RestAt(lc, a, bidPrice, askPrice)
  {
  }

  lemma BatchIsQuotable(lc: LoopConfig, l: Loop, v: int, resting: map<string, SimOrder>) returns (bidPrice: int, askPrice: int)
    requires l.hot.active || resting == map[]
    ensures bidPrice < askPrice && Quotable(lc, resting, QuoteRules.BatchNow(lc.hc, l.hot, v), bidPrice, askPrice)
  {
    var hs := QuoteRules.HalfSpreadNow(lc.hc, l.hot);
    var skew := Inventory.SkewCpp(lc.hc.gamma, l.hot.position, lc.hc.maxInventory, hs);
    QuoteRules.SpreadIsPositive(lc.hc, l.hot);
    QuoteRules.QuotesInOrder(l.hot.active, l.hot.position >= lc.hc.maxInventory, l.hot.position <= -lc.hc.maxInventory, v, hs, skew,
                             lc.hc.params.orderQty);
    bidPrice, askPrice := v - hs - skew, v + hs - skew;
    InOrderIsQuotable(lc, resting, QuoteRules.BatchNow(lc.hc, l.hot, v), bidPrice, askPrice);
  }

  lemma InOrderIsQuotable(lc: LoopConfig, resting: map<string, SimOrder>, cs: seq<QuoteRules.Command>, bidPrice: int, askPrice: int)
    requires forall i, j :: 0 <= i < j < |cs| ==> QuoteRules.Kind(cs[i]) < QuoteRules.Kind(cs[j])
    requires forall c :: c in cs ==> (c.PlaceBid? ==> c.price == bidPrice) && (c.PlaceAsk? ==> c.price == askPrice)
    requires (cs != [] && cs[0].CancelAll?) || resting == map[]
    ensures Quotable(lc, resting, cs, bidPrice, askPrice)
  {
  }

  /** An answer quotes a pair of prices from scratch, or takes back, or says nothing. */
  lemma AnswerQuotes(lc: LoopConfig, l: Loop, m: Market, resting: map<string, SimOrder>) returns (bidPrice: int, askPrice: int)
    requires LoopInv(lc, l) && IsPart(resting, l.sys.ex.resting)
    ensures bidPrice < askPrice && Quotable(lc, resting, Answered(lc, l, m).1, bidPrice, askPrice)
  {
    bidPrice, askPrice :| bidPrice < askPrice && RestAt(lc, l.sys.ex.resting, bidPrice, askPrice);
    PartRestsAt(lc, resting, l.sys.ex.resting, bidPrice, askPrice);
    if m.BookUpdate? {
      var v := QuoteRules.FairValue(lc.price, FlatAfter(l, m));
      if QuoteRules.DueNow(lc.hc, l.hot, v) {
        assert !l.hot.active ==> resting.Keys == {};
        bidPrice, askPrice := BatchIsQuotable(lc, l, v, resting);
      }
    }
  }

  lemma AnswerTellsActive(lc: LoopConfig, l: Loop, m: Market)
    requires LoopInv(lc, l)
    ensures Answered(lc, l, m).0.position == l.hot.position
    ensures !Answered(lc, l, m).0.active
            ==> Answered(lc, l, m).1 == [QuoteRules.CancelAll] || (Answered(lc, l, m).1 == [] && l.sys.ex.resting == map[])
  {
  }

  lemma DeliveredKeeps(s: System, n: nat)
    requires MidEvent(s, n)
    ensures HalfInv(Delivered(s)) && Due(Delivered(s)) == [] && KnownIds(Delivered(s).orders, n)
    ensures Delivered(s).orders == Settled(s)
  {
    assert Due(s) == s.ex.pending;
    RunKeepsSound(s.orders, s.ex.pending);
    ReportsKeepIds(s.orders, s.ex.pending);
  }

  lemma {:induction false} WalkedWithin(limit: int, position: int, fills: seq<int>)
    requires Abs(position) <= Abs(limit)
    ensures Abs(Inventory.Walked(limit, position, fills)) <= Abs(limit)
    decreases |fills|
  {
    if fills != [] {
      WalkedWithin(limit, Inventory.Clamped(limit, position + fills[0]), fills[1..]);
    }
  }

  /** Every market event keeps: the engine accepts all reports and covers all resting orders, ids are not reused, at most
      one own quote rests on either side with the bid below the ask, nothing rests while the hot path believes that it
      has no quotes, and the position is within its limits. */
  lemma LoopKeepsInv(lc: LoopConfig, l: Loop, m: Market, ts: nat, l': Loop)
    requires LoopInv(lc, l) && LoopStep(lc, l, m, ts, l')
    ensures LoopInv(lc, l')
  {
    var fed, done :| LoopStepVia(lc, l, m, ts, fed, done, l');
    var (h, cs) := Answered(lc, l, m);
    TakenKeepsMidEvent(lc, l.sys, l.nextLocal, m, fed);
    var bidPrice, askPrice := AnswerQuotes(lc, l, m, fed.ex.resting);
    AnswerTellsActive(lc, l, m);
    CarriedKeeps(lc, fed, l.nextLocal, cs, ts, done, l'.nextLocal, bidPrice, askPrice);
    DeliveredKeeps(done, l'.nextLocal);
    WalkedWithin(lc.hc.maxInventory, h.position, Amounts(Fills(done.ex.pending)));
    if !l'.hot.active {
      NothingLeftResting(lc, l, m, ts, fed, done, l'.nextLocal);
    }
  }

  lemma NothingLeftResting(lc: LoopConfig, l: Loop, m: Market, ts: nat, fed: System, done: System, n': nat)
    requires LoopInv(lc, l) && !Answered(lc, l, m).0.active
    requires Taken(lc, l.sys, m, fed) && CarriedOut(lc, fed, l.nextLocal, Answered(lc, l, m).1, ts, done, n')
    ensures done.ex.resting == map[]
  {
    var cs := Answered(lc, l, m).1;
    AnswerTellsActive(lc, l, m);
    TakenKeepsMidEvent(lc, l.sys, l.nextLocal, m, fed);
    if cs == [] {
      assert fed.ex.resting.Keys == {};
    } else {
      var mid :| Step(lc.cfg, fed, ActionFor(lc, l.nextLocal, cs[0], ts), mid)
                 && CarriedOut(lc, mid, NextAfter(l.nextLocal, cs[0]), cs[1..], ts, done, n');
      CancelClears(lc.cfg, fed, ts, mid);
    }
  }

  // ---- Two nodes before delivery ----

  ghost predicate Even(s: System, t: System) {
    && HalfInv(s) && HalfInv(t) && Twin(s, t)
    && s.inflight == [] && t.inflight == [] && s.orders.Keys == t.orders.Keys
  }

  lemma StepKeepsEven(cfg: Config, s: System, t: System, a: Action, s': System, t': System)
    requires Even(s, t) && (a.Feed? || a.Submit? || a.CancelAll?) && Unused(s, a)
    requires Step(cfg, s, a, s') && Step(cfg, t, a, t')
    ensures Even(s', t')
  {
    InputCase(cfg, s, t, a, s', t');
  }

  /** The same commands, carried out at two nodes, keep them even. */
  lemma {:induction false} CarriedEven(lc: LoopConfig, s: System, t: System, n: nat, cs: seq<QuoteRules.Command>, ts: nat,
                                       s': System, t': System, n': nat, k': nat)
    requires Even(s, t) && KnownIds(s.orders, n) && KnownIds(t.orders, n)
    requires CarriedOut(lc, s, n, cs, ts, s', n') && CarriedOut(lc, t, n, cs, ts, t', k')
    ensures Even(s', t') && n' == k' && KnownIds(s'.orders, n') && KnownIds(t'.orders, n')
    decreases |cs|
  {
    if cs != [] {
      var a := ActionFor(lc, n, cs[0], ts);
      var x :| Step(lc.cfg, s, a, x) && CarriedOut(lc, x, NextAfter(n, cs[0]), cs[1..], ts, s', n');
      var y :| Step(lc.cfg, t, a, y) && CarriedOut(lc, y, NextAfter(n, cs[0]), cs[1..], ts, t', k');
      ActionKeepsIds(lc, s, n, cs[0], ts, x);
      ActionKeepsIds(lc, t, n, cs[0], ts, y);
      StepKeepsEven(lc.cfg, s, t, a, x, y);
      CarriedEven(lc, x, y, NextAfter(n, cs[0]), cs[1..], ts, s', t', n', k');
    }
  }

  lemma TakenEven(lc: LoopConfig, s: System, t: System, m: Market, s': System, t': System)
    requires Even(s, t) && Taken(lc, s, m, s') && Taken(lc, t, m, t')
    ensures Even(s', t') && s'.orders == s.orders && t'.orders == t.orders
  {
    match m
    case BookUpdate(symbol, bids, asks, isSnapshot) =>
      StepKeepsEven(lc.cfg, s, t, Feed(symbol, bids, asks, isSnapshot), s', t');
    case TradeTick(_, _, _) =>
  }

  lemma SettlesSame(s: System, t: System, n: nat)
    requires Even(s, t) && KnownIds(s.orders, n) && KnownIds(t.orders, n)
    ensures Delivered(s) == Delivered(t)
  {
    DeliveredKeeps(s, n);
    DeliveredKeeps(t, n);
  }

  /** From the same exchange and the same orders, the same event leads to the same exchange and the same orders, however
      the maps are walked. */
  lemma SameSystems(lc: LoopConfig, l: Loop, t: Loop, m: Market, ts: nat, l': Loop, t': Loop)
    requires LoopInv(lc, l) && t == l.(books := t.books)
    requires LoopStep(lc, l, m, ts, l') && LoopStep(lc, t, m, ts, t')
    ensures l'.sys == t'.sys && l'.nextLocal == t'.nextLocal
  {
    var fed, done :| LoopStepVia(lc, l, m, ts, fed, done, l');
    var fed', done' :| LoopStepVia(lc, t, m, ts, fed', done', t');
    assert Answered(lc, l, m) == Answered(lc, t, m);
    assert Even(l.sys, t.sys);
    TakenEven(lc, l.sys, t.sys, m, fed, fed');
    CarriedEven(lc, fed, fed', l.nextLocal, Answered(lc, l, m).1, ts, done, done', l'.nextLocal, t'.nextLocal);
    SettlesSame(done, done', l'.nextLocal);
  }
}
