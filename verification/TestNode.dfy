/** The node of the determinism test (crates/atomic-node/tests/determinism.rs, `TestNode`): hot path, exchange, execution
    engine and books as objects, driven by market events. */
module TestNode {
  import opened Types
  import opened Lifecycle
  import opened Exchange
  import opened Execution
  import opened Lockstep
  import opened OrderIds
  import opened FlatBook
  import opened Pnl
  import opened ClosedLoop
  import Inventory
  import QuoteRules
  import LoopDeterminism
  import Quoting
  import Pacing
  import TradeFlow
  import Node

  // ---- Facts about the loops ----

  lemma CommandFirst(lc: LoopConfig, s: System, n: nat, c: QuoteRules.Command, rest: seq<QuoteRules.Command>, ts: nat,
                     x: System, s': System, n': nat)
    requires Step(lc.cfg, s, ActionFor(lc, n, c, ts), x) && CarriedOut(lc, x, NextAfter(n, c), rest, ts, s', n')
    ensures CarriedOut(lc, s, n, [c] + rest, ts, s', n')
  {
    var cs := [c] + rest;
    assert cs[0] == c && cs[1..] == rest;
  }

  lemma {:induction false} OneMoreCommand(lc: LoopConfig, s: System, n: nat, cs: seq<QuoteRules.Command>, ts: nat, mid: System, k: nat,
                                          c: QuoteRules.Command, s': System)
    requires CarriedOut(lc, s, n, cs, ts, mid, k) && Step(lc.cfg, mid, ActionFor(lc, k, c, ts), s')
    ensures CarriedOut(lc, s, n, cs + [c], ts, s', NextAfter(k, c))
    decreases |cs|
  {
    if cs == [] {
      CommandFirst(lc, s, n, c, [], ts, s', s', NextAfter(k, c));
      assert [] + [c] == [c] + [];
    } else {
      var x :| Step(lc.cfg, s, ActionFor(lc, n, cs[0], ts), x) && CarriedOut(lc, x, NextAfter(n, cs[0]), cs[1..], ts, mid, k);
      OneMoreCommand(lc, x, NextAfter(n, cs[0]), cs[1..], ts, mid, k, c, s');
      CommandFirst(lc, s, n, cs[0], cs[1..] + [c], ts, x, s', NextAfter(k, c));
      assert [cs[0]] + (cs[1..] + [c]) == cs + [c];
    }
  }

  lemma {:induction false} NumbersAreNoFills(es: seq<Event>, start: nat)
    ensures Fills(Numbered(es, start)) == Fills(es)
  {
    if es != [] {
      NumbersAreNoFills(es[1..], start + 1);
      assert Numbered(es, start)[1..] == Numbered(es[1..], start + 1);
    }
  }

  // ---- What one report means to books, hot path and fill count ----

  function FillOf(e: Event): seq<FillReport> { Fills([e]) }

  lemma NextReport(es: seq<Event>, i: nat)
    requires i < |es|
    ensures Fills(es[i..]) == FillOf(es[i]) + Fills(es[i + 1..])
    ensures es[i..][0] == es[i] && es[i..][1..] == es[i + 1..]
  {
    assert es[i..] == [es[i]] + es[i + 1..];
    FillsConcat([es[i]], es[i + 1..]);
  }

  lemma FilledConcat(hc: QuoteRules.HotConfig, h: QuoteRules.Hot, a: seq<FillReport>, b: seq<FillReport>)
    ensures FilledAll(hc, h, a + b) == FilledAll(hc, FilledAll(hc, h, a), b)
  {
    AmountsConcat(a, b);
    Inventory.WalkedConcat(hc.maxInventory, h.position, Amounts(a), Amounts(b));
  }

  lemma OneFilled(hc: QuoteRules.HotConfig, h: QuoteRules.Hot, f: FillReport)
    ensures FilledAll(hc, h, [f]) == QuoteRules.AfterFill(hc, h, Signed(f))
  {
    var q := Signed(f);
    assert [f][1..] == [] && [q] + [] == [q] && [q][1..] == [];
    assert Amounts([f]) == [q];
    assert Inventory.Walked(hc.maxInventory, h.position, [q]) == Inventory.Clamped(hc.maxInventory, h.position + q);
  }

  /** The step to the state after an event, from its three parts. */
  lemma StepOfParts(lc: LoopConfig, l: Loop, m: Market, ts: nat, fed: System, h: QuoteRules.Hot, cs: seq<QuoteRules.Command>,
                    done: System, l': Loop)
    requires Taken(lc, l.sys, m, fed) && (h, cs) == Answered(lc, l, m)
    requires CarriedOut(lc, fed, l.nextLocal, cs, ts, done, l'.nextLocal)
    requires l'.sys == Delivered(done) && l'.flat == FlatAfter(l, m) && l'.hot == FilledAll(lc.hc, h, Fills(done.ex.pending))
    requires l'.books == BookedAll(l.books, Fills(done.ex.pending)) && l'.fillCount == l.fillCount + |Fills(done.ex.pending)|
    ensures LoopStep(lc, l, m, ts, l')
  {
    assert LoopStepVia(lc, l, m, ts, fed, done, l');
  }

  class TestNode {
    const hotpath: Quoting.HotPathEngine
    const core: Node.Node
    const books: Bookkeeper
    const symbol: Symbol
    var fillCount: nat
    var nextSeq: nat

    ghost predicate Valid()
      reads this, core, core.exchange, hotpath, hotpath.inventory, hotpath.toxicity, hotpath.toxicity.tradeSides,
            hotpath.toxicity.tradeQtys, hotpath.book
    {
      hotpath.Valid() && core.inflight == [] && core.exchange.pending == []
    }

    ghost function Config(): LoopConfig
      reads hotpath.toxicity
    {
      LoopConfig(core.exchange.cfg, hotpath.Config(), symbol, hotpath.price)
    }

    ghost function Value(): Loop
      requires hotpath.book.Shaped()
      reads this, core, core.exchange, core.engine, books, hotpath, hotpath.inventory, hotpath.toxicity, hotpath.book,
            hotpath.book.bids, hotpath.book.asks
    {
      Loop(core.Value(), hotpath.Value(), hotpath.book.Sides(), books.Value(), fillCount, core.engine.nextLocalId)
    }

    constructor (symbol: Symbol, cfg: Config, params: Pacing.Params, maxInventory: int, gamma: int, vpinEnabled: bool,
                 price: (seq<Level>, seq<Level>) -> int)
      ensures Valid() && Value() == LoopDeterminism.Start()
      ensures Config() == LoopConfig(cfg, QuoteRules.HotConfig(params, maxInventory, gamma, vpinEnabled), symbol, price)
    {
      hotpath := new Quoting.HotPathEngine(params, maxInventory, gamma, vpinEnabled, price);
      core := new Node.Node(cfg);
      books := new Bookkeeper();
      this.symbol, fillCount, nextSeq := symbol, 0, 100000;
    }

    /** One market event, from the market to the books, is a step of the closed loop. */
    method ProcessEvent(m: Market, ts: nat)
      requires Valid()
      modifies this, core, core.exchange, core.engine, books, hotpath, hotpath.inventory, hotpath.toxicity,
               hotpath.toxicity.tradeSides, hotpath.toxicity.tradeQtys, hotpath.book, hotpath.book.bids, hotpath.book.asks
      ensures Valid() && Config() == old(Config())
      ensures LoopStep(Config(), old(Value()), m, ts, Value())
    {
      ghost var l, lc := Value(), Config();
      ghost var fed, h, cs := React(m, ts);
      ghost var done := core.Value();
      DeliverAll();
      StepOfParts(lc, l, m, ts, fed, h, cs, done, Value());
    }

    /** Everything up to the delivery of the reports. */
    method React(m: Market, ts: nat) returns (ghost fed: System, ghost h: QuoteRules.Hot, ghost cs: seq<QuoteRules.Command>)
      requires Valid()
      modifies core, core.exchange, core.engine, hotpath, hotpath.toxicity,
               hotpath.toxicity.tradeSides, hotpath.toxicity.tradeQtys, hotpath.book, hotpath.book.bids, hotpath.book.asks
      ensures hotpath.Valid() && Config() == old(Config()) && core.inflight == []
      ensures Taken(Config(), old(core.Value()), m, fed) && (h, cs) == Answered(Config(), old(Value()), m)
      ensures CarriedOut(Config(), fed, old(core.engine.nextLocalId), cs, ts, core.Value(), core.engine.nextLocalId)
      ensures hotpath.Value() == h && hotpath.book.Sides() == FlatAfter(old(Value()), m)
    {
      var commands := TakeEvent(m);
      fed, h, cs := core.Value(), hotpath.Value(), commands;
      CarryOut(commands, ts);
    }

    /** A session of market events is a run of the closed loop. */
    method Play(ms: seq<(Market, nat)>) returns (ghost trace: seq<Loop>)
      requires Valid() && Value() == LoopDeterminism.Start()
      modifies this, core, core.exchange, core.engine, books, hotpath, hotpath.inventory, hotpath.toxicity,
               hotpath.toxicity.tradeSides, hotpath.toxicity.tradeQtys, hotpath.book, hotpath.book.bids, hotpath.book.asks
      ensures Valid() && Config() == old(Config())
      ensures LoopDeterminism.IsLoopRun(Config(), trace, ms) && trace[|ms|] == Value()
    {
      ghost var lc := Config();
      trace := [Value()];
      for i := 0 to |ms|
        invariant Valid() && Config() == lc && LoopDeterminism.IsLoopRun(lc, trace, ms[..i]) && trace[i] == Value()
      {
        ProcessEvent(ms[i].0, ms[i].1);
        LoopDeterminism.OneMoreEvent(lc, ms, trace, i, Value());
        trace := trace + [Value()];
      }
      assert ms[..|ms|] == ms;
    }

    /** Exchange and hot path see the event. */
    method TakeEvent(m: Market) returns (commands: seq<QuoteRules.Command>)
      requires Valid()
      modifies core.exchange, hotpath, hotpath.toxicity,
               hotpath.toxicity.tradeSides, hotpath.toxicity.tradeQtys, hotpath.book, hotpath.book.bids, hotpath.book.asks
      ensures hotpath.Valid() && Config() == old(Config()) && core.inflight == []
      ensures Taken(Config(), old(core.Value()), m, core.Value())
      ensures (hotpath.Value(), commands) == Answered(Config(), old(Value()), m)
      ensures hotpath.book.Sides() == FlatAfter(old(Value()), m)
    {
      if m.BookUpdate? {
        commands := TakeUpdate(m);
      } else {
        commands := TakeTrade(m);
      }
    }

    method TakeUpdate(m: Market) returns (commands: seq<QuoteRules.Command>)
      requires Valid() && m.BookUpdate?
      modifies core.exchange, hotpath, hotpath.book, hotpath.book.bids, hotpath.book.asks
      ensures hotpath.Valid() && Config() == old(Config()) && core.inflight == []
      ensures Taken(Config(), old(core.Value()), m, core.Value())
      ensures (hotpath.Value(), commands) == Answered(Config(), old(Value()), m)
      ensures hotpath.book.Sides() == FlatAfter(old(Value()), m)
    {
      UpdateExchange(m.symbol, m.bids, m.asks, m.isSnapshot);
      commands := UpdateQuotes(m.bids, m.asks, m.isSnapshot);
    }

    method UpdateQuotes(bids: seq<Level>, asks: seq<Level>, isSnapshot: bool) returns (commands: seq<QuoteRules.Command>)
      requires hotpath.Valid()
      modifies hotpath, hotpath.book, hotpath.book.bids, hotpath.book.asks
      ensures hotpath.Valid() && hotpath.Config() == old(hotpath.Config())
      ensures hotpath.book.Sides() == SidesFed(old(hotpath.book.Sides()), bids, asks, isSnapshot)
      ensures (hotpath.Value(), commands)
              == QuoteRules.OnTick(hotpath.Config(), old(hotpath.Value()), QuoteRules.FairValue(hotpath.price, hotpath.book.Sides()))
    {
      var r := hotpath.OnBookUpdate(bids, asks, isSnapshot);
      commands := r.commands;
    }

    method UpdateExchange(symbol: Symbol, bids: seq<Level>, asks: seq<Level>, isSnapshot: bool)
      modifies core.exchange
      ensures Step(core.exchange.cfg, old(core.Value()), Feed(symbol, bids, asks, isSnapshot), core.Value())
    {
      ghost var ids := core.exchange.OnBookUpdate(symbol, bids, asks, isSnapshot);
      assert ListsResting(ids, old(core.Value()).ex.resting, symbol.Pair());
    }

    method TakeTrade(m: Market) returns (commands: seq<QuoteRules.Command>)
      requires Valid() && m.TradeTick?
      modifies hotpath, hotpath.toxicity, hotpath.toxicity.tradeSides, hotpath.toxicity.tradeQtys
      ensures hotpath.Valid() && Config() == old(Config()) && core.inflight == []
      ensures Taken(Config(), old(core.Value()), m, core.Value())
      ensures (hotpath.Value(), commands) == Answered(Config(), old(Value()), m)
      ensures hotpath.book.Sides() == FlatAfter(old(Value()), m)
    {
      commands := SeeTrade(m.side, m.price, m.qty);
    }

    method SeeTrade(side: Side, price: int, qty: nat) returns (commands: seq<QuoteRules.Command>)
      requires hotpath.Valid()
      modifies hotpath, hotpath.toxicity, hotpath.toxicity.tradeSides, hotpath.toxicity.tradeQtys
      ensures hotpath.Valid() && hotpath.Config() == old(hotpath.Config()) && hotpath.book.Sides() == old(hotpath.book.Sides())
      ensures (hotpath.Value(), commands)
              == QuoteRules.OnPrint(hotpath.Config(), old(hotpath.Value()), TradeFlow.Trade(side, qty, price))
    {
      var r := hotpath.OnTrade(side, price, qty);
      commands := r.commands;
    }

    /** Commands become cancels and orders. */
    method CarryOut(commands: seq<QuoteRules.Command>, ts: nat)
      requires core.inflight == []
      modifies core, core.exchange, core.engine
      ensures core.inflight == []
      ensures CarriedOut(Config(), old(core.Value()), old(core.engine.nextLocalId), commands, ts, core.Value(), core.engine.nextLocalId)
    {
      ghost var lc, s, n := Config(), core.Value(), core.engine.nextLocalId;
      ghost var sent: seq<QuoteRules.Command> := [];
      for i := 0 to |commands|
        invariant Config() == lc && core.inflight == [] && sent == commands[..i]
        invariant CarriedOut(lc, s, n, sent, ts, core.Value(), core.engine.nextLocalId)
      {
        SendNext(commands[i], ts, lc, s, n, sent);
        sent := sent + [commands[i]];
      }
      assert sent == commands;
    }

    method SendNext(c: QuoteRules.Command, ts: nat, ghost lc: LoopConfig, ghost s: System, ghost n: nat, ghost sent: seq<QuoteRules.Command>)
      requires core.inflight == [] && lc == Config() && CarriedOut(lc, s, n, sent, ts, core.Value(), core.engine.nextLocalId)
      modifies core, core.exchange, core.engine
      ensures core.inflight == [] && CarriedOut(lc, s, n, sent + [c], ts, core.Value(), core.engine.nextLocalId)
    {
      ghost var mid, k := core.Value(), core.engine.nextLocalId;
      SendCommand(c, ts);
      OneMoreCommand(lc, s, n, sent, ts, mid, k, c, core.Value());
    }

    method SendCommand(c: QuoteRules.Command, ts: nat)
      requires core.inflight == []
      modifies core, core.exchange, core.engine
      ensures core.inflight == []
      ensures Step(core.exchange.cfg, old(core.Value()), ActionFor(Config(), old(core.engine.nextLocalId), c, ts), core.Value())
      ensures core.engine.nextLocalId == NextAfter(old(core.engine.nextLocalId), c)
    {
      if c.CancelAll? {
        core.Perform(CancelAll(ts));
      } else {
        var id := core.engine.NextOrderId(Simulated);
        var o := NewOrder(id, symbol, if c.PlaceBid? then Buy else Sell, Limit, c.price, c.qty, GoodTilCancel, Simulated);
        core.Perform(Submit(o, ts));
      }
    }

    /** All reports are drained and handed to the engine, their fills to the books and to the hot path. */
    method DeliverAll()
      requires hotpath.Valid() && core.inflight == []
      modifies this, core.exchange, core.engine, books, hotpath.inventory
      ensures Valid() && Config() == old(Config()) && core.Value() == Delivered(old(core.Value()))
      ensures core.engine.nextLocalId == old(core.engine.nextLocalId) && hotpath.book.Sides() == old(hotpath.book.Sides())
      ensures hotpath.Value() == FilledAll(Config().hc, old(hotpath.Value()), Fills(old(core.exchange.pending)))
      ensures books.Value() == BookedAll(old(books.Value()), Fills(old(core.exchange.pending)))
      ensures fillCount == old(fillCount) + |Fills(old(core.exchange.pending))|
    {
      ghost var pending, orders, h, b := core.exchange.pending, core.engine.orders, hotpath.Value(), books.Value();
      ghost var hc := hotpath.Config();
      var events := core.exchange.DrainEvents(nextSeq);
      NumbersAreNoFills(pending, nextSeq);
      NumberingIsInvisible(orders, pending, nextSeq);
      nextSeq := nextSeq + |events|;
      for i := 0 to |events|
        invariant Valid() && hotpath.Config() == hc && core.engine.nextLocalId == old(core.engine.nextLocalId)
        invariant core.exchange.State() == old(core.exchange.State()).(pending := [])
        invariant Run(orders, events) == Run(core.engine.orders, events[i..])
        invariant BookedAll(b, Fills(events)) == BookedAll(books.Value(), Fills(events[i..]))
        invariant FilledAll(hc, h, Fills(events)) == FilledAll(hc, hotpath.Value(), Fills(events[i..]))
        invariant fillCount + |Fills(events[i..])| == old(fillCount) + |Fills(events)|
      {
        ghost var books0, hot0 := books.Value(), hotpath.Value();
        NextReport(events, i);
        HandOver(events[i]);
        BookedConcat(books0, FillOf(events[i]), Fills(events[i + 1..]));
        FilledConcat(hc, hot0, FillOf(events[i]), Fills(events[i + 1..]));
      }
    }

    /** One report goes to the engine, and if it is a fill to the books and to the hot path. */
    method HandOver(e: Event)
      requires hotpath.Valid()
      modifies this`fillCount, core.engine, books, hotpath.inventory
      ensures hotpath.Valid() && hotpath.Config() == old(hotpath.Config())
      ensures core.engine.orders == Post(old(core.engine.orders), e) && core.engine.nextLocalId == old(core.engine.nextLocalId)
      ensures books.Value() == BookedAll(old(books.Value()), FillOf(e))
      ensures hotpath.Value() == FilledAll(hotpath.Config(), old(hotpath.Value()), FillOf(e))
      ensures fillCount == old(fillCount) + |FillOf(e)|
    {
      OneReport(e);
      var _ := core.engine.ProcessEvent(e);
      if e.payload.OrderFill? {
        OneFilled(hotpath.Config(), hotpath.Value(), e.payload.fill);
        TakeFill(e.payload.fill);
      }
    }

    method TakeFill(fill: FillReport)
      requires hotpath.Valid()
      modifies this`fillCount, books, hotpath.inventory
      ensures hotpath.Valid() && hotpath.Config() == old(hotpath.Config())
      ensures fillCount == old(fillCount) + 1 && books.Value() == BookedOne(old(books.Value()), fill)
      ensures hotpath.Value() == QuoteRules.AfterFill(hotpath.Config(), old(hotpath.Value()), Signed(fill))
    {
      fillCount := fillCount + 1;
      books.OnFill(fill);
      hotpath.OnFill(fill.side, fill.qty);
    }
  }
}
