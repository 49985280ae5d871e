/** Where the closed loop is not deterministic: one list of market events and two runs of the node on it, from its start, that
    end with different orders, positions and profits (crates/atomic-execution/src/simulator.rs, cpp/src/signal.cpp). */
module LoopDivergence {
  import opened Types
  import opened PriceLevels
  import opened Matching
  import opened Lifecycle
  import opened Listing
  import opened Exchange
  import opened Lockstep
  import opened LockstepRuns
  import opened Confluence
  import opened OrderIds
  import opened FlatBook
  import opened Pnl
  import opened ClosedLoop
  import opened LoopOutcomes
  import opened LoopDeterminism
  import PnlRuns
  import Inventory
  import TradeFlow
  import Pacing
  import QuoteRules

  function Pair(): Symbol { PnlRuns.Pair() }

  /** Halfway between best bid and best ask, as the microprice is when both hold the same quantity. */
  function Mid(bids: seq<Level>, asks: seq<Level>): int {
    if bids == [] || asks == [] then 0 else (bids[0].price + asks[0].price) / 2
  }

  /** Quotes for 2, three pipettes off the fair value, whenever it moved by 4; at most 2 may be held. */
  function Demo(cfg: Config): LoopConfig {
    LoopConfig(cfg, QuoteRules.HotConfig(Pacing.Params(2, 3, 0, 1, 4), 2, 0, false), Pair(), Mid)
  }

  /** A snapshot with one level a side. */
  function Quote(bid: int, ask: int): Market { BookUpdate(Pair(), [Level(bid, 1)], [Level(ask, 1)], true) }

  function Events(): seq<(Market, nat)> {
    [(Quote(99, 101), 0), (Quote(95, 97), 0), (Quote(102, 90), 0), (Quote(99, 101), 0)]
  }

  // ---- What a snapshot means to exchange and hot path ----

  lemma SnapshotSeen(cfg: Config, l: Loop, bid: int, ask: int)
    ensures var books := Fed(l, Quote(bid, ask)).books;
            Pair().Pair() in books && books[Pair().Pair()] == Book(map[bid := 1], map[ask := 1])
    ensures FlatAfter(l, Quote(bid, ask)) == FlatSides([Level(bid, 1)], [Level(ask, 1)])
    ensures QuoteRules.FairValue(Mid, FlatAfter(l, Quote(bid, ask))) == (bid + ask) / 2
  {
    PnlRuns.SideOf(Level(bid, 1));
    PnlRuns.SideOf(Level(ask, 1));
    assert [Level(bid, 1)][..1] == [Level(bid, 1)] && [Level(ask, 1)][..1] == [Level(ask, 1)];
  }

  lemma CrossesIff(books: map<string, Book>, o: SimOrder, bid: int, ask: int)
    requires o.symbol == Pair() && Pair().Pair() in books && books[Pair().Pair()] == Book(map[bid := 1], map[ask := 1])
    ensures CanCross(books, o) <==> if o.side.Buy? then ask <= o.price else bid >= o.price
  {
    var facing := Facing(books, o.symbol.Pair(), o.side);
    assert facing.Keys == {if o.side.Buy? then ask else bid};
    assert Best(o.side, facing.Keys) in facing;
  }

  /** An order that reaches nobody is acknowledged and rests. */
  lemma Rests(lc: LoopConfig, ex: ExchangeState, n: nat, c: QuoteRules.Command, bid: int, ask: int)
    requires lc.symbol == Pair() && Pair().Pair() in ex.books && ex.books[Pair().Pair()] == Book(map[bid := 1], map[ask := 1])
    requires !c.CancelAll? && c.qty > 0 && (if c.PlaceBid? then c.price < ask else c.price > bid)
    ensures var ex' := CarriedOne(lc, ex, n, c, 0);
            && ex'.books == ex.books && Fills(ex'.pending) == Fills(ex.pending)
            && ex'.resting == ex.resting[OrderId(Simulated, n) := Resting(OrderFor(lc, n, c), c.qty, 0)]
  {
    var o := OrderFor(lc, n, c);
    var facing := Facing(ex.books, Pair().Pair(), o.side);
    assert facing.Keys == {if o.side.Buy? then ask else bid};
    assert Best(o.side, facing.Keys) in facing;
    assert MatchFor(ex.books, o) == MatchResult([], c.qty, facing);
    assert WithOpposite(ex.books[Pair().Pair()], o.side, facing) == ex.books[Pair().Pair()];
    assert ex.books[Pair().Pair() := ex.books[Pair().Pair()]] == ex.books;
    AckIsNoFill(lc.cfg, ex, o);
  }

  lemma AckIsNoFill(cfg: Config, ex: ExchangeState, o: NewOrder)
    requires RejectReason(ex.books, o).None? && MatchFor(ex.books, o).fills == [] && o.tif.GoodTilCancel?
    ensures Fills(ex.pending + SubmitReports(cfg, ex, o, 0)) == Fills(ex.pending)
  {
    var ack := AckEvent(cfg, o, ex.nextId, 0);
    assert SubmitReports(cfg, ex, o, 0) == [ack] && [ack][1..] == [];
    FillsConcat(ex.pending, [ack]);
  }

  // ---- The answers ----

  /** A batch quotes three pipettes off, on both sides unless the inventory is full. */
  lemma BatchIs(cfg: Config, l: Loop, v: int)
    requires l.hot.trades == [] && 0 <= l.hot.position <= 2
    ensures QuoteRules.BatchNow(Demo(cfg).hc, l.hot, v)
            == (if l.hot.active then [QuoteRules.CancelAll] else [])
               + (if l.hot.position == 2 then [] else [QuoteRules.PlaceBid(v - 3, 2)]) + [QuoteRules.PlaceAsk(v + 3, 2)]
  {
    assert QuoteRules.HalfSpreadNow(Demo(cfg).hc, l.hot) == TruncDiv(3 * 10000, 10000) == 3;
    assert Inventory.SkewCpp(0, l.hot.position, 2, 3) == 0;
  }

  /** The fair values seen and the batches they led to. */
  ghost predicate Paced(l: Loop, values: seq<int>, batches: seq<Pacing.Batch>) {
    l.hot.values == values && Pacing.Batches(Demo(Config(0, 0, 0, 0)).hc.params, values) == batches && l.hot.trades == []
  }

  lemma AnswerIs(cfg: Config, l: Loop, bid: int, ask: int, batches: seq<Pacing.Batch>)
    requires Paced(l, l.hot.values, batches)
    ensures var (v, p) := ((bid + ask) / 2, Demo(cfg).hc.params);
            && Answered(Demo(cfg), l, Quote(bid, ask))
               == (if Pacing.Due(p, batches, |l.hot.values| + 1, v)
                   then (l.hot.(values := l.hot.values + [v], active := true), QuoteRules.BatchNow(Demo(cfg).hc, l.hot, v))
                   else (l.hot.(values := l.hot.values + [v]), []))
            && Pacing.Batches(p, l.hot.values + [v])
               == batches + if Pacing.Due(p, batches, |l.hot.values| + 1, v) then [Pacing.Batch(|l.hot.values| + 1, v)] else []
  {
    SnapshotSeen(cfg, l, bid, ask);
    Pacing.BatchesAppend(Demo(cfg).hc.params, l.hot.values, (bid + ask) / 2);
  }

  // ---- The stages of the two runs ----

  /** The two quotes of a batch, numbered from n. */
  function Quotes(lc: LoopConfig, n: nat, bid: int, ask: int): map<string, SimOrder> {
    map[OrderId(Simulated, n) := Resting(OrderFor(lc, n, QuoteRules.PlaceBid(bid, 2)), 2, 0),
        OrderId(Simulated, n + 1) := Resting(OrderFor(lc, n + 1, QuoteRules.PlaceAsk(ask, 2)), 2, 0)]
  }

  /** A bid and an ask that reach nobody, after everything else was withdrawn. */
  lemma PairRests(cfg: Config, ex: ExchangeState, n: nat, bid: int, ask: int, b: int, a: int)
    requires Pair().Pair() in ex.books && ex.books[Pair().Pair()] == Book(map[b := 1], map[a := 1]) && bid < a && ask > b
    ensures var lc := Demo(cfg);
            var ex' := CarriedOne(lc, CarriedOne(lc, ex.(resting := map[]), n, QuoteRules.PlaceBid(bid, 2), 0), n + 1, QuoteRules.PlaceAsk(ask, 2), 0);
            ex'.resting == Quotes(lc, n, bid, ask) && Fills(ex'.pending) == Fills(ex.pending)
  {
    var lc := Demo(cfg);
    var ex1 := CarriedOne(lc, ex.(resting := map[]), n, QuoteRules.PlaceBid(bid, 2), 0);
    Rests(lc, ex.(resting := map[]), n, QuoteRules.PlaceBid(bid, 2), b, a);
    Rests(lc, ex1, n + 1, QuoteRules.PlaceAsk(ask, 2), b, a);
  }

  lemma PairCarried(lc: LoopConfig, ex: ExchangeState, n: nat, bid: QuoteRules.Command, ask: QuoteRules.Command)
    requires !bid.CancelAll? && !ask.CancelAll?
    ensures Carriage(lc, ex, n, [bid, ask], 0) == CarriedOne(lc, CarriedOne(lc, ex, n, bid, 0), n + 1, ask, 0)
    ensures NextAll(n, [bid, ask]) == n + 2
  {
    var ex1 := CarriedOne(lc, ex, n, bid, 0);
    assert [bid, ask][1..] == [ask] && [ask][1..] == [];
    assert Carriage(lc, ex1, n + 1, [ask], 0) == CarriedOne(lc, ex1, n + 1, ask, 0);
    assert NextAll(n + 1, [ask]) == n + 2;
  }

  /** A whole batch on the exchange. */
  lemma BatchCarried(cfg: Config, ex: ExchangeState, n: nat, active: bool, bid: int, ask: int, b: int, a: int)
    requires Pair().Pair() in ex.books && ex.books[Pair().Pair()] == Book(map[b := 1], map[a := 1]) && bid < a && ask > b
    requires ex.pending == [] && (!active ==> ex.resting == map[])
    ensures var cs := (if active then [QuoteRules.CancelAll] else []) + [QuoteRules.PlaceBid(bid, 2)] + [QuoteRules.PlaceAsk(ask, 2)];
            var ex' := Carriage(Demo(cfg), ex, n, cs, 0);
            ex'.resting == Quotes(Demo(cfg), n, bid, ask) && Fills(ex'.pending) == [] && NextAll(n, cs) == n + 2
  {
    var quotes := [QuoteRules.PlaceBid(bid, 2), QuoteRules.PlaceAsk(ask, 2)];
    var cs := (if active then [QuoteRules.CancelAll] else []) + [QuoteRules.PlaceBid(bid, 2)] + [QuoteRules.PlaceAsk(ask, 2)];
    PairCarried(Demo(cfg), ex.(resting := map[]), n, quotes[0], quotes[1]);
    PairRests(cfg, ex, n, bid, ask, b, a);
    if active {
      assert cs[0] == QuoteRules.CancelAll && cs[1..] == quotes;
    } else {
      assert cs == quotes && ex == ex.(resting := map[]);
    }
  }

  // ---- Which quotes an update hits ----

  function QuoteFill(cfg: Config, n: nat, side: Side, price: int): FillReport {
    var c := if side.Buy? then QuoteRules.PlaceBid(price, 2) else QuoteRules.PlaceAsk(price, 2);
    MakerFill(cfg, Resting(OrderFor(Demo(cfg), n, c), 2, 0)).payload.fill
  }

  lemma HitsOf(cfg: Config, l: Loop, n: nat, bp: int, ap: int, bid: int, ask: int)
    requires l.sys.ex.resting == Quotes(Demo(cfg), n, bp, ap) && bp < ap
    ensures HitOn(Demo(cfg), l, Quote(bid, ask), Buy) == if ask <= bp then [QuoteFill(cfg, n, Buy, bp)] else []
    ensures HitOn(Demo(cfg), l, Quote(bid, ask), Sell) == if bid >= ap then [QuoteFill(cfg, n + 1, Sell, ap)] else []
  {
    var lc, m, resting := Demo(cfg), Quote(bid, ask), l.sys.ex.resting;
    var b, a := OrderId(Simulated, n), OrderId(Simulated, n + 1);
    IdsDiffer(Simulated, n, n + 1);
    SnapshotSeen(cfg, l, bid, ask);
    CrossesIff(Fed(l, m).books, resting[b], bid, ask);
    CrossesIff(Fed(l, m).books, resting[a], bid, ask);
    assert RestAt(lc, resting, bp, ap);
    HitOfOne(lc, l, m, Buy, b, ask <= bp);
    HitOfOne(lc, l, m, Sell, a, bid >= ap);
  }

  lemma HitOfOne(lc: LoopConfig, l: Loop, m: Market, side: Side, id: string, hit: bool)
    requires QuotePair(lc, l.sys.ex.resting) && id in l.sys.ex.resting && l.sys.ex.resting[id].side == side
    requires hit <==> m.BookUpdate? && CanCross(Fed(l, m).books, l.sys.ex.resting[id])
    ensures HitOn(lc, l, m, side) == if hit then [MakerFill(lc.cfg, l.sys.ex.resting[id]).payload.fill] else []
  {
    var bidPrice, askPrice :| bidPrice < askPrice && RestAt(lc, l.sys.ex.resting, bidPrice, askPrice);
    if hit {
      assert IsHit(lc, l, m, side, id);
      HitIs(lc, l, m, side, id);
      assert [Hits(lc, l, m)[id]][1..] == [];
    } else {
      NoHit(lc, l, m, side);
    }
  }

  lemma NoHits(lc: LoopConfig, l: Loop, m: Market)
    requires l.sys.ex.resting == map[]
    ensures HitOn(lc, l, m, Buy) == [] && HitOn(lc, l, m, Sell) == []
  {
    NoHit(lc, l, m, Buy);
    NoHit(lc, l, m, Sell);
  }

  // ---- One event at a time ----

  /** What is known of the node: fair values, batches, position, books, the next id, and what rests. */
  ghost predicate At(cfg: Config, l: Loop, values: seq<int>, batches: seq<Pacing.Batch>, position: int, books: Books, n: nat,
                     resting: map<string, SimOrder>) {
    && LoopInv(Demo(cfg), l) && Paced(l, values, batches)
    && l.hot.position == position && l.books == books && l.nextLocal == n && l.sys.ex.resting == resting
    && (batches != [] ==> l.hot.active)
  }

  /** What the fills of a sweep make of position and books. */
  ghost predicate FillsTo(cfg: Config, l: Loop, m: Market, x: bool, position: int, books: Books) {
    var fills := Sweep(Demo(cfg), l, m, x);
    Inventory.Walked(2, l.hot.position, Amounts(fills)) == position && BookedAll(l.books, fills) == books
  }

  /** An update that makes a batch due, while there is room on both sides. */
  lemma Requoted(cfg: Config, l: Loop, bid: int, ask: int, v: int, batches: seq<Pacing.Batch>, x: bool, position: int, books: Books)
    returns (l': Loop)
    requires LoopInv(Demo(cfg), l) && Paced(l, l.hot.values, batches) && 0 <= l.hot.position < 2 && bid <= ask && v == (bid + ask) / 2
    requires Pacing.Due(Demo(cfg).hc.params, batches, |l.hot.values| + 1, v)
    requires FillsTo(cfg, l, Quote(bid, ask), x, position, books)
    ensures LoopStep(Demo(cfg), l, Quote(bid, ask), 0, l')
    ensures At(cfg, l', l.hot.values + [v], batches + [Pacing.Batch(|l.hot.values| + 1, v)], position, books, l.nextLocal + 2,
               Quotes(Demo(cfg), l.nextLocal, v - 3, v + 3))
  {
    var lc, m := Demo(cfg), Quote(bid, ask);
    l' := EventCanEnd(lc, l, m, 0, x);
    LoopKeepsInv(lc, l, m, 0, l');
    AnswerIs(cfg, l, bid, ask, batches);
    RequotedExchange(cfg, l, bid, ask, v, batches);
    var fills := Sweep(lc, l, m, x);
    assert fills + [] == fills;
  }

  lemma RequotedExchange(cfg: Config, l: Loop, bid: int, ask: int, v: int, batches: seq<Pacing.Batch>)
    requires Paced(l, l.hot.values, batches) && 0 <= l.hot.position < 2 && bid <= ask
    requires !l.hot.active ==> l.sys.ex.resting == map[]
    requires v == (bid + ask) / 2 && Pacing.Due(Demo(cfg).hc.params, batches, |l.hot.values| + 1, v)
    ensures var (lc, m) := (Demo(cfg), Quote(bid, ask));
            && AfterEvent(lc, l, m, 0).resting == Quotes(lc, l.nextLocal, v - 3, v + 3)
            && TakerFills(lc, l, m, 0) == [] && NextAll(l.nextLocal, Answered(lc, l, m).1) == l.nextLocal + 2
  {
    var lc, m := Demo(cfg), Quote(bid, ask);
    AnswerIs(cfg, l, bid, ask, batches);
    BatchIs(cfg, l, v);
    SnapshotSeen(cfg, l, bid, ask);
    assert !l.hot.active ==> Swept(lc, l, m).resting.Keys == {};
    BatchCarried(cfg, Swept(lc, l, m), l.nextLocal, l.hot.active, v - 3, v + 3, bid, ask);
  }

  /** An update that makes no batch due. */
  lemma Silent(cfg: Config, l: Loop, bid: int, ask: int, v: int, batches: seq<Pacing.Batch>, x: bool, position: int, books: Books)
    returns (l': Loop)
    requires LoopInv(Demo(cfg), l) && Paced(l, l.hot.values, batches) && (batches != [] ==> l.hot.active) && v == (bid + ask) / 2
    requires !Pacing.Due(Demo(cfg).hc.params, batches, |l.hot.values| + 1, v)
    requires FillsTo(cfg, l, Quote(bid, ask), x, position, books)
    ensures LoopStep(Demo(cfg), l, Quote(bid, ask), 0, l')
    ensures At(cfg, l', l.hot.values + [v], batches, position, books, l.nextLocal,
               l.sys.ex.resting - Hits(Demo(cfg), l, Quote(bid, ask)).Keys)
  {
    var lc, m := Demo(cfg), Quote(bid, ask);
    l' := EventCanEnd(lc, l, m, 0, x);
    LoopKeepsInv(lc, l, m, 0, l');
    AnswerIs(cfg, l, bid, ask, batches);
    assert AfterEvent(lc, l, m, 0) == Swept(lc, l, m) && TakerFills(lc, l, m, 0) == [];
    var fills := Sweep(lc, l, m, x);
    assert fills + [] == fills;
  }

  /** An update that makes a batch due, while the inventory is full: an ask and no bid. */
  lemma OneSided(cfg: Config, l: Loop, bid: int, ask: int, batches: seq<Pacing.Batch>) returns (l': Loop)
    requires LoopInv(Demo(cfg), l) && Paced(l, l.hot.values, batches) && l.hot.position == 2 && l.hot.active
    requires Pacing.Due(Demo(cfg).hc.params, batches, |l.hot.values| + 1, (bid + ask) / 2)
    ensures LoopStep(Demo(cfg), l, Quote(bid, ask), 0, l') && LoopInv(Demo(cfg), l') && l'.nextLocal == l.nextLocal + 1
  {
    var lc, m, v := Demo(cfg), Quote(bid, ask), (bid + ask) / 2;
    l' := EventCanEnd(lc, l, m, 0, true);
    LoopKeepsInv(lc, l, m, 0, l');
    AnswerIs(cfg, l, bid, ask, batches);
    BatchIs(cfg, l, v);
    var cs := Answered(lc, l, m).1;
    assert cs == [QuoteRules.CancelAll, QuoteRules.PlaceAsk(v + 3, 2)];
    assert cs[1..][0] == cs[1] && cs[1..][1..] == [];
    assert NextAll(l.nextLocal, cs[1..]) == l.nextLocal + 1;
  }

  // ---- The two runs ----

  const B1: Pacing.Batch := Pacing.Batch(1, 100)
  const B2: Pacing.Batch := Pacing.Batch(2, 96)

  /** Quotes around 100. */
  lemma First(cfg: Config) returns (l: Loop)
    ensures LoopStep(Demo(cfg), Start(), Quote(99, 101), 0, l)
    ensures At(cfg, l, [100], [B1], 0, Books(0, 0, 0), 3, Quotes(Demo(cfg), 1, 97, 103))
  {
    StartKeepsInv(Demo(cfg));
    NoHits(Demo(cfg), Start(), Quote(99, 101));
    l := Requoted(cfg, Start(), 99, 101, 100, [], true, 0, Books(0, 0, 0));
  }

  lemma OneFill(f: FillReport, position: int, books: Books)
    ensures Inventory.Walked(2, position, Amounts([f])) == Inventory.Clamped(2, position + Signed(f))
    ensures BookedAll(books, [f]) == BookedOne(books, f)
  {
    assert [f][1..] == [] && Amounts([f]) == [Signed(f)] && [Signed(f)][1..] == [];
  }

  lemma SecondFills(cfg: Config, l: Loop)
    requires l.sys.ex.resting == Quotes(Demo(cfg), 1, 97, 103) && l.hot.position == 0 && l.books == Books(0, 0, 0)
    ensures FillsTo(cfg, l, Quote(95, 97), true, 2, Books(2, 194, 0))
  {
    HitsOf(cfg, l, 1, 97, 103, 95, 97);
    var f := QuoteFill(cfg, 1, Buy, 97);
    assert Sweep(Demo(cfg), l, Quote(95, 97), true) == [f];
    OneFill(f, 0, Books(0, 0, 0));
  }

  lemma Lists()
    ensures [100] + [96] == [100, 96] && [B1] + [B2] == [B1, B2] && [100, 96] + [96] == [100, 96, 96]
  {
  }

  /** The bid of 97 is filled; quotes around 96. */
  lemma Second(cfg: Config, l: Loop) returns (l': Loop)
    requires At(cfg, l, [100], [B1], 0, Books(0, 0, 0), 3, Quotes(Demo(cfg), 1, 97, 103))
    ensures LoopStep(Demo(cfg), l, Quote(95, 97), 0, l')
    ensures At(cfg, l', [100, 96], [B1, B2], 2, Books(2, 194, 0), 5, Quotes(Demo(cfg), 3, 93, 99))
  {
    Lists();
    SecondFills(cfg, l);
    l' := Requoted(cfg, l, 95, 97, 96, [B1], true, 2, Books(2, 194, 0));
  }

  lemma TwoFills(f: FillReport, g: FillReport, position: int, books: Books)
    ensures Inventory.Walked(2, position, Amounts([f, g])) == Inventory.Clamped(2, Inventory.Clamped(2, position + Signed(f)) + Signed(g))
    ensures BookedAll(books, [f, g]) == BookedOne(BookedOne(books, f), g)
  {
    AmountsOfTwo(f, g, []);
    Inventory.TwoThen(2, position, [Signed(f), Signed(g)], Signed(f), Signed(g), [],
                      Inventory.Clamped(2, Inventory.Clamped(2, position + Signed(f)) + Signed(g)));
    TwoBookedThen(books, f, g, []);
    assert [f, g] + [] == [f, g] && Amounts([]) == [] && [Signed(f), Signed(g)] + [] == [Signed(f), Signed(g)];
  }

  lemma ThirdHits(cfg: Config, l: Loop) returns (b: FillReport, s: FillReport)
    requires l.sys.ex.resting == Quotes(Demo(cfg), 3, 93, 99)
    ensures Sweep(Demo(cfg), l, Quote(102, 90), true) == [b, s] && Sweep(Demo(cfg), l, Quote(102, 90), false) == [s, b]
    ensures Signed(b) == 2 && b.price == 93 && Signed(s) == -2 && s.price == 99
  {
    HitsOf(cfg, l, 3, 93, 99, 102, 90);
    b, s := QuoteFill(cfg, 3, Buy, 93), QuoteFill(cfg, 4, Sell, 99);
  }

  lemma ThirdFills(cfg: Config, l: Loop)
    requires l.sys.ex.resting == Quotes(Demo(cfg), 3, 93, 99) && l.hot.position == 2 && l.books == Books(2, 194, 0)
    ensures FillsTo(cfg, l, Quote(102, 90), true, 0, Books(2, 182, 0)) && FillsTo(cfg, l, Quote(102, 90), false, 2, Books(2, 186, 4))
  {
    var b, s := ThirdHits(cfg, l);
    TwoFills(b, s, 2, Books(2, 194, 0));
    TwoFills(s, b, 2, Books(2, 194, 0));
  }

  /** A crossed update fills both quotes, in the order of the walk; the fair value has not moved. */
  lemma Third(cfg: Config, l: Loop, x: bool) returns (l': Loop)
    requires At(cfg, l, [100, 96], [B1, B2], 2, Books(2, 194, 0), 5, Quotes(Demo(cfg), 3, 93, 99))
    ensures LoopStep(Demo(cfg), l, Quote(102, 90), 0, l') && LoopInv(Demo(cfg), l')
    ensures Paced(l', [100, 96, 96], [B1, B2]) && l'.hot.active && l'.nextLocal == 5
    ensures l'.hot.position == (if x then 0 else 2) && l'.books == if x then Books(2, 182, 0) else Books(2, 186, 4)
  {
    Lists();
    ThirdFills(cfg, l);
    l' := Silent(cfg, l, 102, 90, 96, [B1, B2], x, if x then 0 else 2, if x then Books(2, 182, 0) else Books(2, 186, 4));
  }

  /** With nothing held, bid and ask are sent once more. */
  lemma FourthEmpty(cfg: Config, l: Loop) returns (l': Loop)
    requires LoopInv(Demo(cfg), l) && Paced(l, [100, 96, 96], [B1, B2]) && l.hot.active && l.nextLocal == 5 && l.hot.position == 0
    ensures LoopStep(Demo(cfg), l, Quote(99, 101), 0, l') && OrderId(Simulated, 6) in l'.sys.orders
  {
    var m := Quote(99, 101);
    var fills := Sweep(Demo(cfg), l, m, true);
    l' := Requoted(cfg, l, 99, 101, 100, [B1, B2], true, Inventory.Walked(2, 0, Amounts(fills)), BookedAll(l.books, fills));
    RestingIsKnown(Demo(cfg), l', OrderId(Simulated, 6));
  }

  lemma RestingIsKnown(lc: LoopConfig, l: Loop, id: string)
    requires LoopInv(lc, l) && id in l.sys.ex.resting
    ensures id in l.sys.orders
  {
    RestingIsOpen(l.sys, id);
  }

  /** With a full inventory, only an ask is sent. */
  lemma FourthFull(cfg: Config, l: Loop) returns (l': Loop)
    requires LoopInv(Demo(cfg), l) && Paced(l, [100, 96, 96], [B1, B2]) && l.hot.active && l.nextLocal == 5 && l.hot.position == 2
    ensures LoopStep(Demo(cfg), l, Quote(99, 101), 0, l') && OrderId(Simulated, 6) !in l'.sys.orders
  {
    l' := OneSided(cfg, l, 99, 101, [B1, B2]);
    NextIdUnused(l'.sys.orders, 6);
  }

  lemma OneHoldsMore(m: Orders, n: Orders, id: string)
    requires id in m && id !in n
    ensures forall a, b :: IsListing(a, m) && IsListing(b, n) ==> a != b
  {
    forall a, b | IsListing(a, m) && IsListing(b, n) ensures a != b {
      ListingsDiffer(a, b, m, n);
    }
  }

  lemma OneStep(cfg: Config, front: seq<Loop>, k: nat, l: Loop, m: Market, l': Loop) returns (r: seq<Loop>)
    requires k < 4 && IsLoopRun(Demo(cfg), front, Events()[..k]) && front[k] == l && Events()[k] == (m, 0)
    requires LoopStep(Demo(cfg), l, m, 0, l')
    ensures IsLoopRun(Demo(cfg), r, Events()[..k + 1]) && r[k + 1] == l' && front <= r
  {
    OneMoreEvent(Demo(cfg), Events(), front, k, l');
    r := front + [l'];
  }

  lemma NoStep(cfg: Config)
    ensures IsLoopRun(Demo(cfg), [Start()], Events()[..0]) && Events()[..4] == Events()
  {
  }

  lemma FirstTwo(cfg: Config, l1: Loop, l2: Loop) returns (r: seq<Loop>)
    requires LoopStep(Demo(cfg), Start(), Quote(99, 101), 0, l1) && LoopStep(Demo(cfg), l1, Quote(95, 97), 0, l2)
    ensures IsLoopRun(Demo(cfg), r, Events()[..2]) && r[2] == l2
  {
    NoStep(cfg);
    r := OneStep(cfg, [Start()], 0, Start(), Quote(99, 101), l1);
    r := OneStep(cfg, r, 1, l1, Quote(95, 97), l2);
  }

  lemma LastTwo(cfg: Config, front: seq<Loop>, l2: Loop, l3: Loop, l4: Loop) returns (r: seq<Loop>)
    requires IsLoopRun(Demo(cfg), front, Events()[..2]) && front[2] == l2
    requires LoopStep(Demo(cfg), l2, Quote(102, 90), 0, l3) && LoopStep(Demo(cfg), l3, Quote(99, 101), 0, l4)
    ensures IsLoopRun(Demo(cfg), r, Events()) && r[3] == l3 && r[4] == l4
  {
    NoStep(cfg);
    r := OneStep(cfg, front, 2, l2, Quote(102, 90), l3);
    r := OneStep(cfg, r, 3, l3, Quote(99, 101), l4);
  }

  lemma BuyFirstRun(cfg: Config) returns (r: seq<Loop>)
    ensures IsLoopRun(Demo(cfg), r, Events()) && r[3].hot.position == 0 && r[3].books == Books(2, 182, 0)
    ensures OrderId(Simulated, 6) in r[4].sys.orders
  {
    var l1 := First(cfg);
    var l2 := Second(cfg, l1);
    var l3 := Third(cfg, l2, true);
    var l4 := FourthEmpty(cfg, l3);
    r := FirstTwo(cfg, l1, l2);
    r := LastTwo(cfg, r, l2, l3, l4);
  }

  lemma SaleFirstRun(cfg: Config) returns (r: seq<Loop>)
    ensures IsLoopRun(Demo(cfg), r, Events()) && r[3].hot.position == 2 && r[3].books == Books(2, 186, 4)
    ensures OrderId(Simulated, 6) !in r[4].sys.orders
  {
    var l1 := First(cfg);
    var l2 := Second(cfg, l1);
    var l3 := Third(cfg, l2, false);
    var l4 := FourthFull(cfg, l3);
    r := FirstTwo(cfg, l1, l2);
    r := LastTwo(cfg, r, l2, l3, l4);
  }

  /** Two runs of a node on the same four snapshots. The third one fills both quotes at once, in two orders: one run then
      holds nothing and has realized nothing, the other is full and has realized 4. After the fourth the engines hold
      different orders, so that no listing of the one is a listing of the other: two hashes. */
  lemma SameEventsTwoNodes(cfg: Config) returns (r: seq<Loop>, q: seq<Loop>)
    ensures IsLoopRun(Demo(cfg), r, Events()) && IsLoopRun(Demo(cfg), q, Events())
    ensures r[3].hot.position == 0 && q[3].hot.position == 2
    ensures r[3].books == Books(2, 182, 0) && q[3].books == Books(2, 186, 4)
    ensures forall a, b :: IsListing(a, r[4].sys.orders) && IsListing(b, q[4].sys.orders) ==> a != b
  {
    r := BuyFirstRun(cfg);
    q := SaleFirstRun(cfg);
    OneHoldsMore(r[4].sys.orders, q[4].sys.orders, OrderId(Simulated, 6));
  }

  lemma ListingsDiffer(a: seq<LiveOrder>, b: seq<LiveOrder>, m: Orders, n: Orders)
    requires IsListing(a, m) && IsListing(b, n) && m != n
    ensures a != b
  {
    LoadedListing(map[], a, m);
    LoadedListing(map[], b, n);
    assert map[] + m == m && map[] + n == n;
  }
}
