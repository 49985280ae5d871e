/** Two runs on the same inputs whose books differ: one book update fills two resting orders, and each run walks the
    hash map of resting orders in its own order (crates/atomic-execution/src/simulator.rs, `check_resting_orders`). */
module PnlRuns {
  import opened Types
  import opened PriceLevels
  import opened Matching
  import opened Lifecycle
  import opened Exchange
  import opened Lockstep
  import opened LockstepRuns
  import opened OrphanRuns
  import opened Pnl

  function Pair(): Symbol { Symbol("BTC", "USDT", Simulated) }

  function Offer(id: string, side: Side, price: int, qty: nat): NewOrder {
    NewOrder(id, Pair(), side, Limit, price, qty, GoodTilCancel, Simulated)
  }

  const BUY: NewOrder := Offer("simulated-1", Buy, 100, 5)
  const SELL_SIX: NewOrder := Offer("simulated-2", Sell, 100, 6)
  const SELL_ONE: NewOrder := Offer("simulated-3", Sell, 110, 1)

  /** An order that faces an empty side is acknowledged and rests. */
  lemma RestsAlone(cfg: Config, ex: ExchangeState, o: NewOrder)
    requires Facing(ex.books, o.symbol.Pair(), o.side) == map[]
    requires o.orderType.Limit? && o.tif.GoodTilCancel? && o.qty > 0
    ensures Submitted(cfg, ex, o, 0)
            == ExchangeState(ex.books, ex.resting[o.orderId := Resting(o, o.qty, 0)],
                             ex.pending + [AckEvent(cfg, o, ex.nextId, 0)], ex.nextId + 1)
  {
    var pair := o.symbol.Pair();
    var r := MatchFor(ex.books, o);
    assert r == MatchResult([], o.qty, map[]);
    if pair in ex.books {
      assert WithOpposite(ex.books[pair], o.side, map[]) == ex.books[pair];
      assert ex.books[pair := ex.books[pair]] == ex.books;
    }
    var ack := AckEvent(cfg, o, ex.nextId, 0);
    assert SubmitReports(cfg, ex, o, 0) == [ack];
  }

  ghost function Fed(cfg: Config, ex: ExchangeState, bids: seq<Level>, asks: seq<Level>, ids: seq<string>): ExchangeState {
    Checked(cfg, BookFed(ex, Pair().Pair(), bids, asks, true), ids)
  }

  lemma OneCrosses(cfg: Config, ex: ExchangeState, id: string)
    requires id in ex.resting && CanCross(ex.books, ex.resting[id])
    ensures Checked(cfg, ex, [id]) == ex.(resting := ex.resting - {id}, pending := ex.pending + [MakerFill(cfg, ex.resting[id])])
  {
    var st := CheckOne(cfg, ex, id);
    assert [id][1..] == [];
    assert Checked(cfg, st, []) == st;
  }

  lemma TwoCross(cfg: Config, ex: ExchangeState, a: string, b: string)
    requires a != b && a in ex.resting && b in ex.resting
    requires CanCross(ex.books, ex.resting[a]) && CanCross(ex.books, ex.resting[b])
    ensures Checked(cfg, ex, [a, b]).pending == ex.pending + [MakerFill(cfg, ex.resting[a]), MakerFill(cfg, ex.resting[b])]
  {
    assert [a, b][0] == a && [a, b][1..] == [b];
    OneCrosses(cfg, CheckOne(cfg, ex, a), b);
  }

  lemma SideOf(l: Level)
    requires l.qty > 0
    ensures AppliedAll(map[], [l]) == map[l.price := l.qty]
  {
    var levels: Levels := map[];
    assert [l][1..] == [];
    assert AppliedAll(levels, [l]) == AppliedAll(Applied(levels, l), []);
  }

  lemma CrossesOnly(books: map<string, Book>, o: SimOrder, p: int, q: Positive)
    requires Facing(books, o.symbol.Pair(), o.side) == map[p := q] && Within(o.side, Some(o.price), p)
    ensures CanCross(books, o)
  {
    var facing := Facing(books, o.symbol.Pair(), o.side);
    assert facing.Keys == {p};
    assert Best(o.side, facing.Keys) in facing;
  }

  /** The exchange after a purchase of 5 at 100 that rested and was filled, with two sales resting. */
  function Prepared(cfg: Config): ExchangeState {
    var bought := Resting(BUY, 5, 0);
    ExchangeState(
      map[Pair().Pair() := Book(map[], map[100 := 1])],
      map[SELL_SIX.orderId := Resting(SELL_SIX, 6, 0), SELL_ONE.orderId := Resting(SELL_ONE, 1, 0)],
      [AckEvent(cfg, BUY, 1, 0), MakerFill(cfg, bought), AckEvent(cfg, SELL_SIX, 2, 0), AckEvent(cfg, SELL_ONE, 3, 0)], 4)
  }

  lemma DistinctIds()
    ensures BUY.orderId != SELL_SIX.orderId && SELL_SIX.orderId != SELL_ONE.orderId && BUY.orderId != SELL_ONE.orderId
  {
    assert BUY.orderId[10] == '1' && SELL_SIX.orderId[10] == '2' && SELL_ONE.orderId[10] == '3';
  }

  lemma BoughtFive(cfg: Config)
    ensures var ex0 := ExchangeState(map[], map[], [], 1);
            var ex1 := Submitted(cfg, ex0, BUY, 0);
            && ListsResting([BUY.orderId], ex1.resting, Pair().Pair())
            && Fed(cfg, ex1, [], [Level(100, 1)], [BUY.orderId])
               == ExchangeState(map[Pair().Pair() := Book(map[], map[100 := 1])], map[],
                                [AckEvent(cfg, BUY, 1, 0), MakerFill(cfg, Resting(BUY, 5, 0))], 2)
  {
    var ex0 := ExchangeState(map[], map[], [], 1);
    RestsAlone(cfg, ex0, BUY);
    var ex1 := Submitted(cfg, ex0, BUY, 0);
    SideOf(Level(100, 1));
    var fed := BookFed(ex1, Pair().Pair(), [], [Level(100, 1)], true);
    assert fed.books == map[Pair().Pair() := Book(map[], map[100 := 1])];
    CrossesOnly(fed.books, Resting(BUY, 5, 0), 100, 1);
    OneCrosses(cfg, fed, BUY.orderId);
    assert fed.resting - {BUY.orderId} == map[];
  }

  lemma TwoSalesRest(cfg: Config, ex: ExchangeState)
    requires ex == ExchangeState(map[Pair().Pair() := Book(map[], map[100 := 1])], map[],
                                 [AckEvent(cfg, BUY, 1, 0), MakerFill(cfg, Resting(BUY, 5, 0))], 2)
    ensures Submitted(cfg, Submitted(cfg, ex, SELL_SIX, 0), SELL_ONE, 0) == Prepared(cfg)
  {
    DistinctIds();
    RestsAlone(cfg, ex, SELL_SIX);
    RestsAlone(cfg, Submitted(cfg, ex, SELL_SIX, 0), SELL_ONE);
  }

  /** A bid of 120 fills both sales at their own limits, in the order of the walk. */
  lemma BothSold(cfg: Config, a: NewOrder, b: NewOrder)
    requires (a == SELL_SIX && b == SELL_ONE) || (a == SELL_ONE && b == SELL_SIX)
    ensures ListsResting([a.orderId, b.orderId], Prepared(cfg).resting, Pair().Pair())
    ensures Fed(cfg, Prepared(cfg), [Level(120, 1)], [], [a.orderId, b.orderId]).pending
            == Prepared(cfg).pending + [MakerFill(cfg, Resting(a, a.qty, 0)), MakerFill(cfg, Resting(b, b.qty, 0))]
  {
    DistinctIds();
    SideOf(Level(120, 1));
    var fed := BookFed(Prepared(cfg), Pair().Pair(), [Level(120, 1)], [], true);
    assert fed.books[Pair().Pair()] == Book(map[120 := 1], map[]);
    CrossesOnly(fed.books, Resting(a, a.qty, 0), 120, 1);
    CrossesOnly(fed.books, Resting(b, b.qty, 0), 120, 1);
    TwoCross(cfg, fed, a.orderId, b.orderId);
  }

  lemma PreparedBooks(cfg: Config)
    ensures BookedAll(Books(0, 0, 0), Fills(Prepared(cfg).pending)) == Books(5, 500, 0)
  {
    var es := Prepared(cfg).pending;
    var fill := es[1].payload.fill;
    OneReport(es[0]);
    OneReport(es[1]);
    OneReport(es[2]);
    OneReport(es[3]);
    TwoReports(es[0], es[1]);
    TwoReports(es[2], es[3]);
    FillsConcat([es[0], es[1]], [es[2], es[3]]);
    assert [es[0], es[1]] + [es[2], es[3]] == es;
    assert Fills(es) == [fill] && [fill][1..] == [];
  }

  lemma SoldBooks(cfg: Config, b: Books, x: NewOrder, y: NewOrder)
    requires x.side.Sell? && y.side.Sell?
    ensures BookedAll(b, Fills([MakerFill(cfg, Resting(x, x.qty, 0)), MakerFill(cfg, Resting(y, y.qty, 0))]))
            == Booked(Booked(b, 0 - x.qty, x.price), 0 - y.qty, y.price)
  {
    var e, f := MakerFill(cfg, Resting(x, x.qty, 0)), MakerFill(cfg, Resting(y, y.qty, 0));
    var u, v := e.payload.fill, f.payload.fill;
    TwoReports(e, f);
    OneReport(e);
    OneReport(f);
    assert [u] + [v] == [u, v];
    TwoBookedThen(b, u, v, []);
    assert [u, v] + [] == [u, v];
  }

  ghost function Steps(): seq<Action> {
    [Submit(BUY, 0), Feed(Pair(), [], [Level(100, 1)], true), Submit(SELL_SIX, 0), Submit(SELL_ONE, 0),
     Feed(Pair(), [Level(120, 1)], [], true)]
  }

  function Bought(cfg: Config): ExchangeState {
    ExchangeState(map[Pair().Pair() := Book(map[], map[100 := 1])], map[],
                  [AckEvent(cfg, BUY, 1, 0), MakerFill(cfg, Resting(BUY, 5, 0))], 2)
  }

  lemma BoughtRun(cfg: Config) returns (states: seq<System>)
    ensures IsRun(cfg, states, Steps()[..2]) && FreshIds(states, Steps()[..2], 2)
    ensures states[2].ex == Bought(cfg) && states[2].inflight == [] && states[2].orders.Keys == {BUY.orderId}
  {
    var first: seq<Action> := [Submit(BUY, 0)];
    BoughtFive(cfg);
    states := [System(ExchangeState(map[], map[], [], 1), [], map[])];
    states := AddSubmit(cfg, states, [], BUY);
    assert [] + first == first;
    states := AddFeed(cfg, states, first, Pair(), [], [Level(100, 1)], [BUY.orderId]);
    assert Steps()[..2] == first + [Feed(Pair(), [], [Level(100, 1)], true)];
  }

  lemma StepsGrow(k: nat)
    requires k < 5
    ensures |Steps()| == 5 && Steps()[..k] + [Steps()[k]] == Steps()[..k + 1] && Steps()[..5] == Steps()
    ensures Steps()[2] == Submit(SELL_SIX, 0) && Steps()[3] == Submit(SELL_ONE, 0)
  {
  }

  /** One more sale is submitted. */
  lemma SaleAdded(cfg: Config, states: seq<System>, k: nat, o: NewOrder) returns (ss: seq<System>)
    requires k < 5 && Steps()[k] == Submit(o, 0)
    requires IsRun(cfg, states, Steps()[..k]) && FreshIds(states, Steps()[..k], k) && o.orderId !in states[k].orders
    ensures IsRun(cfg, ss, Steps()[..k + 1]) && FreshIds(ss, Steps()[..k + 1], k + 1)
    ensures ss[k + 1].ex == Submitted(cfg, states[k].ex, o, 0) && ss[k + 1].inflight == states[k].inflight
    ensures ss[k + 1].orders.Keys == states[k].orders.Keys + {o.orderId}
  {
    StepsGrow(k);
    ss := AddSubmit(cfg, states, Steps()[..k], o);
  }

  /** The run up to the last book update. */
  lemma PreparedRun(cfg: Config) returns (states: seq<System>)
    ensures IsRun(cfg, states, Steps()[..4]) && FreshIds(states, Steps()[..4], 4)
    ensures states[4].ex == Prepared(cfg) && states[4].inflight == []
  {
    DistinctIds();
    StepsGrow(4);
    states := BoughtRun(cfg);
    states := SaleAdded(cfg, states, 2, SELL_SIX);
    states := SaleAdded(cfg, states, 3, SELL_ONE);
    TwoSalesRest(cfg, Bought(cfg));
  }

  /** A run of those actions under unused ids after which the reports on their way bring these books. */
  ghost predicate RunEndsWith(cfg: Config, ss: seq<System>, books: Books) {
    && IsRun(cfg, ss, Steps()) && FreshIds(ss, Steps(), 5)
    && BookedAll(Books(0, 0, 0), Fills(Due(ss[5]))) == books
  }

  /** Two runs with the same actions, each under unused ids, that differ only in the order in which the last book update
      walks the two sales; one realizes a profit of 100, the other of 210. */
  lemma WalksDiffer(cfg: Config) returns (ss: seq<System>, ts: seq<System>)
    ensures RunEndsWith(cfg, ss, Books(-2, -110, 100)) && RunEndsWith(cfg, ts, Books(-2, 0, 210))
  {
    var states := PreparedRun(cfg);
    ss := LastWalk(cfg, states, SELL_SIX, SELL_ONE);
    ts := LastWalk(cfg, states, SELL_ONE, SELL_SIX);
  }

  lemma LastWalk(cfg: Config, states: seq<System>, a: NewOrder, b: NewOrder) returns (ss: seq<System>)
    requires (a == SELL_SIX && b == SELL_ONE) || (a == SELL_ONE && b == SELL_SIX)
    requires IsRun(cfg, states, Steps()[..4]) && FreshIds(states, Steps()[..4], 4)
    requires states[4].ex == Prepared(cfg) && states[4].inflight == []
    ensures RunEndsWith(cfg, ss, Booked(Booked(Books(5, 500, 0), 0 - a.qty, a.price), 0 - b.qty, b.price))
  {
    BothSold(cfg, a, b);
    StepsGrow(4);
    ss := AddFeed(cfg, states, Steps()[..4], Pair(), [Level(120, 1)], [], [a.orderId, b.orderId]);
    FinalBooks(cfg, a, b);
  }

  lemma FinalBooks(cfg: Config, a: NewOrder, b: NewOrder)
    requires a.side.Sell? && b.side.Sell?
    ensures BookedAll(Books(0, 0, 0),
                      Fills([] + (Prepared(cfg).pending + [MakerFill(cfg, Resting(a, a.qty, 0)), MakerFill(cfg, Resting(b, b.qty, 0))])))
            == Booked(Booked(Books(5, 500, 0), 0 - a.qty, a.price), 0 - b.qty, b.price)
  {
    var fills := [MakerFill(cfg, Resting(a, a.qty, 0)), MakerFill(cfg, Resting(b, b.qty, 0))];
    FillsConcat(Prepared(cfg).pending, fills);
    BookedConcat(Books(0, 0, 0), Fills(Prepared(cfg).pending), Fills(fills));
    PreparedBooks(cfg);
    SoldBooks(cfg, Books(5, 500, 0), a, b);
    assert [] + (Prepared(cfg).pending + fills) == Prepared(cfg).pending + fills;
  }
}
