/** The position of the books of a node (crates/atomic-node/tests/determinism.rs) and the quantities that its execution
    engine holds filled (crates/atomic-execution/src/state_machine.rs) are two accounts of the same fills. */
module Positions {
  import opened Types
  import opened Lifecycle
  import opened Exchange
  import opened Lockstep
  import opened LockstepRuns
  import opened Pnl
  import opened ClosedLoop
  import opened LoopDeterminism
  import Inventory
  import QuoteRules

  // ---- What the engine's orders add up to ----

  function SignedFilled(o: LiveOrder): int { if o.side.Buy? then o.filledQty else 0 - o.filledQty }

  /** What was filled of purchases minus what was filled of sales. */
  ghost function NetFilled(orders: Orders): int
    decreases orders.Keys
  {
    if orders == map[] then 0
    else
      var id :| id in orders;
      assert (orders - {id}).Keys == orders.Keys - {id};
      SignedFilled(orders[id]) + NetFilled(orders - {id})
  }

  lemma {:induction false} NetFilledWithout(orders: Orders, id: string)
    requires id in orders
    ensures NetFilled(orders) == SignedFilled(orders[id]) + NetFilled(orders - {id})
    decreases orders.Keys
  {
    var x :| x in orders && NetFilled(orders) == SignedFilled(orders[x]) + NetFilled(orders - {x});
    if x != id {
      assert (orders - {x}).Keys == orders.Keys - {x} && (orders - {id}).Keys == orders.Keys - {id};
      NetFilledWithout(orders - {x}, id);
      NetFilledWithout(orders - {id}, x);
      assert orders - {x} - {id} == orders - {id} - {x};
    }
  }

  lemma NetFilledWith(orders: Orders, id: string, o: LiveOrder)
    ensures NetFilled(orders[id := o])
            == NetFilled(orders) + SignedFilled(o) - if id in orders then SignedFilled(orders[id]) else 0
  {
    NetFilledWithout(orders[id := o], id);
    assert orders[id := o] - {id} == orders - {id};
    if id in orders {
      NetFilledWithout(orders, id);
    } else {
      assert orders - {id} == orders;
    }
  }

  // ---- Reports are about orders on the side they say ----

  predicate SideTrue(orders: Orders, e: Event) {
    && !e.payload.OrderNew? && !e.payload.OrderPartialFill?
    && (e.payload.OrderFill? ==> e.payload.fillId in orders && orders[e.payload.fillId].side == e.payload.fill.side)
  }

  ghost predicate SidesTrue(orders: Orders, es: seq<Event>) {
    forall i :: 0 <= i < |es| ==> SideTrue(orders, es[i])
  }

  ghost predicate RestTrue(orders: Orders, resting: map<string, SimOrder>) {
    forall id :: id in resting ==> resting[id].orderId == id && id in orders && orders[id].side == resting[id].side
  }

  ghost predicate Sided(s: System) {
    RestTrue(s.orders, s.ex.resting) && SidesTrue(s.orders, Due(s))
  }

  /** The same orders on the same sides, and maybe more. */
  ghost predicate Extends(after: Orders, before: Orders) {
    forall id :: id in before ==> id in after && after[id].side == before[id].side
  }

  lemma ReportExtends(orders: Orders, e: Event)
    requires !e.payload.OrderNew?
    ensures Extends(Post(orders, e), orders)
  {
  }

  /** A report that is accepted moves the net quantity by what it reports filled. */
  lemma OneReportNet(orders: Orders, e: Event)
    requires SideTrue(orders, e) && Accepted(orders, e)
    ensures NetFilled(Post(orders, e)) == NetFilled(orders) + NetQty(Fills([e]))
  {
    OneReport(e);
    var id := Subject(e.payload).value;
    var entry := Advance(Lookup(orders, id), e.timestamp, e.payload).value;
    NetFilledWith(orders, id, entry);
    if e.payload.OrderFill? {
      assert [e.payload.fill][1..] == [];
    }
  }

  /** So the reports that are due lead to the position that the engine has plus what they report. */
  lemma {:induction false} RunNet(orders: Orders, es: seq<Event>)
    requires SidesTrue(orders, es) && AllTruthful(orders, es)
    ensures NetFilled(Run(orders, es)) == NetFilled(orders) + NetQty(Fills(es)) && Extends(Run(orders, es), orders)
    decreases |es|
  {
    if es != [] {
      OneReportNet(orders, es[0]);
      ReportExtends(orders, es[0]);
      RunNet(Post(orders, es[0]), es[1..]);
      assert [es[0]] + es[1..] == es;
      FillsConcat([es[0]], es[1..]);
      NetConcat(Fills([es[0]]), Fills(es[1..]));
    }
  }

  lemma {:induction false} NetConcat(a: seq<FillReport>, b: seq<FillReport>)
    ensures NetQty(a + b) == NetQty(a) + NetQty(b)
  {
    if a == [] {
      assert a + b == b;
    } else {
      assert (a + b)[0] == a[0] && (a + b)[1..] == a[1..] + b;
      NetConcat(a[1..], b);
    }
  }

  // ---- Every step keeps that ----

  lemma {:induction false} FillsAreSided(cfg: Config, orders: Orders, o: NewOrder, fills: seq<Matching.Fill>, before: nat, ts: nat)
    requires o.orderId in orders && orders[o.orderId].side == o.side
    ensures SidesTrue(orders, FillEvents(cfg, o, fills, before, ts))
  {
    if fills != [] {
      FillsAreSided(cfg, orders, o, fills[1..], SaturatingSub(before, fills[0].qty), ts);
    }
  }

  lemma SubmitIsSided(cfg: Config, orders: Orders, st: ExchangeState, o: NewOrder, ts: nat)
    requires o.orderId in orders && orders[o.orderId].side == o.side
    ensures SidesTrue(orders, SubmitReports(cfg, st, o, ts))
  {
    FillsAreSided(cfg, orders, o, MatchFor(st.books, o).fills, o.qty, ts + cfg.fillLatency);
  }

  lemma OneMoreSided(orders: Orders, inflight: seq<Event>, pending: seq<Event>, e: Event)
    requires SidesTrue(orders, inflight + pending) && SideTrue(orders, e)
    ensures SidesTrue(orders, inflight + (pending + [e]))
  {
    assert inflight + (pending + [e]) == inflight + pending + [e];
  }

  lemma {:induction false} SweepIsSided(cfg: Config, orders: Orders, inflight: seq<Event>, st: ExchangeState, ids: seq<string>)
    requires RestTrue(orders, st.resting) && SidesTrue(orders, inflight + st.pending)
    ensures RestTrue(orders, Checked(cfg, st, ids).resting) && SidesTrue(orders, inflight + Checked(cfg, st, ids).pending)
    decreases |ids|
  {
    if ids != [] {
      if ids[0] in st.resting {
        OneMoreSided(orders, inflight, st.pending, MakerFill(cfg, st.resting[ids[0]]));
      }
      SweepIsSided(cfg, orders, inflight, CheckOne(cfg, st, ids[0]), ids[1..]);
    }
  }

  lemma {:induction false} CancelsAreSided(cfg: Config, orders: Orders, inflight: seq<Event>, st: ExchangeState, ids: seq<string>, ts: nat)
    requires RestTrue(orders, st.resting) && SidesTrue(orders, inflight + st.pending)
    ensures var st' := WithdrawnAll(cfg, st, ids, ts); RestTrue(orders, st'.resting) && SidesTrue(orders, inflight + st'.pending)
    decreases |ids|
  {
    if ids != [] {
      OneMoreSided(orders, inflight, st.pending, CancelEvent(cfg, ids[0], ts));
      CancelsAreSided(cfg, orders, inflight, Withdrawn(cfg, st, ids[0], ts), ids[1..], ts);
    }
  }

  /** Every action under unused ids keeps every report, and every resting order, on the side of the engine's order. */
  lemma StepKeepsSided(cfg: Config, s: System, a: Action, s': System)
    requires Sided(s) && Step(cfg, s, a, s') && Unused(s, a)
    ensures Sided(s')
  {
    match a
    case Feed(symbol, bids, asks, isSnapshot) =>
      var st := BookFed(s.ex, symbol.Pair(), bids, asks, isSnapshot);
      var ids :| ListsResting(ids, s.ex.resting, symbol.Pair()) && s' == s.(ex := Checked(cfg, st, ids));
      SweepIsSided(cfg, s.orders, s.inflight, st, ids);
    case Submit(o, ts) =>
      SubmitKeepsSided(cfg, s, o, ts, s');
    case Cancel(id, ts) =>
      CancelsAreSided(cfg, s.orders, s.inflight, s.ex, [id], ts);
    case CancelAll(ts) =>
      var ids :| ListsOpen(ids, s.orders) && s' == s.(ex := WithdrawnAll(cfg, s.ex, ids, ts));
      CancelsAreSided(cfg, s.orders, s.inflight, s.ex, ids, ts);
    case Drain(start) =>
      forall i | 0 <= i < |Due(s')| ensures SideTrue(s'.orders, Due(s')[i]) {
        assert SideTrue(s.orders, Due(s)[i]);
      }
    case Deliver =>
      if s.inflight != [] { DeliveryKeepsSided(s, s'); }
  }

  lemma SubmitKeepsSided(cfg: Config, s: System, o: NewOrder, ts: nat, s': System)
    requires Sided(s) && Step(cfg, s, Submit(o, ts), s') && o.orderId !in s.orders
    ensures Sided(s')
  {
    assert s'.orders == s.orders[o.orderId := Fresh(o, ts)];
    SubmitIsSided(cfg, s'.orders, s.ex, o, ts);
    assert Due(s') == Due(s) + SubmitReports(cfg, s.ex, o, ts);
  }

  lemma DeliveryKeepsSided(s: System, s': System)
    requires Sided(s) && s.inflight != []
    requires s' == s.(inflight := s.inflight[1..], orders := Post(s.orders, s.inflight[0]))
    ensures Sided(s')
  {
    assert Due(s)[0] == s.inflight[0] && Due(s') == Due(s)[1..];
    ReportExtends(s.orders, s.inflight[0]);
  }

  // ---- The closed loop ----

  /** The position in the books is what the orders add up to. */
  ghost predicate Balanced(l: Loop) {
    Sided(l.sys) && l.books.position == NetFilled(l.sys.orders)
  }

  lemma CommandBalances(lc: LoopConfig, s: System, n: nat, c: QuoteRules.Command, ts: nat, s': System)
    requires MidEvent(s, n) && Sided(s) && Step(lc.cfg, s, ActionFor(lc, n, c, ts), s')
    ensures MidEvent(s', NextAfter(n, c)) && Sided(s') && NetFilled(s'.orders) == NetFilled(s.orders)
  {
    var a := ActionFor(lc, n, c, ts);
    ActionKeepsIds(lc, s, n, c, ts, s');
    CommandKeepsMidEvent(lc, s, n, c, ts, s');
    StepKeepsSided(lc.cfg, s, a, s');
    if a.Submit? {
      NetFilledWith(s.orders, a.order.orderId, Fresh(a.order, ts));
    }
  }

  /** Placing quotes registers orders of which nothing is filled. */
  lemma {:induction false} CarriedBalances(lc: LoopConfig, s: System, n: nat, cs: seq<QuoteRules.Command>, ts: nat, s': System, n': nat)
    requires MidEvent(s, n) && Sided(s) && CarriedOut(lc, s, n, cs, ts, s', n')
    ensures MidEvent(s', n') && Sided(s') && NetFilled(s'.orders) == NetFilled(s.orders)
    decreases |cs|
  {
    if cs != [] {
      var a := ActionFor(lc, n, cs[0], ts);
      var mid :| Step(lc.cfg, s, a, mid) && CarriedOut(lc, mid, NextAfter(n, cs[0]), cs[1..], ts, s', n');
      CommandBalances(lc, s, n, cs[0], ts, mid);
      CarriedBalances(lc, mid, NextAfter(n, cs[0]), cs[1..], ts, s', n');
    }
  }

  lemma TakenBalances(lc: LoopConfig, s: System, m: Market, s': System)
    requires Sided(s) && Taken(lc, s, m, s')
    ensures Sided(s') && s'.orders == s.orders
  {
    match m
    case BookUpdate(symbol, bids, asks, isSnapshot) =>
      StepKeepsSided(lc.cfg, s, Feed(symbol, bids, asks, isSnapshot), s');
    case TradeTick(_, _, _) =>
  }

  lemma EventKeepsBalance(lc: LoopConfig, l: Loop, m: Market, ts: nat, l': Loop)
    requires LoopInv(lc, l) && Balanced(l) && LoopStep(lc, l, m, ts, l')
    ensures Balanced(l')
  {
    var fed, done :| LoopStepVia(lc, l, m, ts, fed, done, l');
    TakenBalances(lc, l.sys, m, fed);
    TakenKeepsMidEvent(lc, l.sys, l.nextLocal, m, fed);
    CarriedBalances(lc, fed, l.nextLocal, Answered(lc, l, m).1, ts, done, l'.nextLocal);
    DeliveryBalances(done, l'.nextLocal);
    BooksBalance(l.books, Fills(done.ex.pending));
  }

  lemma DeliveryBalances(s: System, n: nat)
    requires MidEvent(s, n) && Sided(s)
    ensures Sided(Delivered(s)) && NetFilled(Delivered(s).orders) == NetFilled(s.orders) + NetQty(Fills(s.ex.pending))
  {
    assert Due(s) == s.ex.pending;
    RunNet(s.orders, s.ex.pending);
  }

  lemma StartBalances()
    ensures Balanced(Start())
  {
  }

  lemma BalanceAt(lc: LoopConfig, loops: seq<Loop>, ms: seq<(Market, nat)>, k: nat)
    requires IsLoopRun(lc, loops, ms) && k < |ms| && Balanced(loops[k])
    ensures Balanced(loops[k + 1])
  {
    RunKeepsInv(lc, loops, ms, k);
    assert LoopStepAt(lc, loops, ms, k);
    EventKeepsBalance(lc, loops[k], ms[k].0, ms[k].1, loops[k + 1]);
  }

  /** After every event of every run the books' position is what the engine's orders record as bought minus sold. */
  lemma {:induction false} PositionIsNetFilled(lc: LoopConfig, loops: seq<Loop>, ms: seq<(Market, nat)>, k: nat)
    requires IsLoopRun(lc, loops, ms) && k < |loops|
    ensures Balanced(loops[k])
    decreases k
  {
    if k == 0 {
      StartBalances();
    } else {
      PositionIsNetFilled(lc, loops, ms, k - 1);
      BalanceAt(lc, loops, ms, k - 1);
    }
  }

  // ---- The hot path's inventory ----

  lemma {:induction false} AmountsNet(fs: seq<FillReport>)
    ensures Inventory.Bought(Amounts(fs)) - Inventory.Sold(Amounts(fs)) == NetQty(fs)
  {
    if fs != [] {
      AmountsNet(fs[1..]);
      assert Amounts(fs) == [Signed(fs[0])] + Amounts(fs[1..]);
      Inventory.OneMoreFill(Signed(fs[0]), Amounts(fs[1..]));
    }
  }

  /** The event can have gone this way, with room for all its purchases and for all its sales. */
  ghost predicate HasRoom(lc: LoopConfig, l: Loop, m: Market, ts: nat, fed: System, done: System, l': Loop) {
    var amounts := Amounts(Fills(done.ex.pending));
    && LoopStepVia(lc, l, m, ts, fed, done, l')
    && l.hot.position + Inventory.Bought(amounts) <= lc.hc.maxInventory
    && l.hot.position - Inventory.Sold(amounts) >= -lc.hc.maxInventory
  }

  ghost predicate Roomy(lc: LoopConfig, l: Loop, m: Market, ts: nat, l': Loop) {
    exists fed, done :: HasRoom(lc, l, m, ts, fed, done, l')
  }

  ghost predicate RoomyAt(lc: LoopConfig, loops: seq<Loop>, ms: seq<(Market, nat)>, i: int)
    requires 0 <= i < |ms| < |loops|
  {
    Roomy(lc, loops[i], ms[i].0, ms[i].1, loops[i + 1])
  }

  lemma InventoryFollows(lc: LoopConfig, l: Loop, m: Market, ts: nat, l': Loop)
    requires Roomy(lc, l, m, ts, l')
    ensures l'.hot.position - l.hot.position == l'.books.position - l.books.position
  {
    var fed, done :| HasRoom(lc, l, m, ts, fed, done, l');
    var fills := Fills(done.ex.pending);
    Inventory.RoomForAll(lc.hc.maxInventory, l.hot.position, Amounts(fills));
    AmountsNet(fills);
    BooksBalance(l.books, fills);
  }

  lemma InventoryFollowsAt(lc: LoopConfig, loops: seq<Loop>, ms: seq<(Market, nat)>, k: nat)
    requires k < |ms| < |loops| && RoomyAt(lc, loops, ms, k) && loops[k].hot.position == loops[k].books.position
    ensures loops[k + 1].hot.position == loops[k + 1].books.position
  {
    InventoryFollows(lc, loops[k], ms[k].0, ms[k].1, loops[k + 1]);
  }

  /** As long as every event had room for its fills, the hot path's inventory, the books' position and what the engine's
      orders record are one number. */
  lemma InventoryIsPosition(lc: LoopConfig, loops: seq<Loop>, ms: seq<(Market, nat)>, k: nat)
    requires IsLoopRun(lc, loops, ms) && k < |loops| && forall i :: 0 <= i < k ==> RoomyAt(lc, loops, ms, i)
    ensures loops[k].hot.position == loops[k].books.position == NetFilled(loops[k].sys.orders)
  {
    for i := 0 to k
      invariant loops[i].hot.position == loops[i].books.position
    {
      assert RoomyAt(lc, loops, ms, i);
      InventoryFollowsAt(lc, loops, ms, i);
    }
    PositionIsNetFilled(lc, loops, ms, k);
  }
}
