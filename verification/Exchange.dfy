/** The simulated exchange (crates/atomic-execution/src/simulator.rs). The functions
    say what each call does to the exchange as a value; the class does it in place. */
module Exchange {
  import opened Types
  import opened PriceLevels
  import opened Matching
  import opened OrderIds

  datatype Config = Config(ackLatency: nat, fillLatency: nat, makerFeeBps: int, takerFeeBps: int)

  datatype SimOrder = SimOrder(orderId: string, symbol: Symbol, side: Side, orderType: OrderType, price: int,
                               qty: nat, remaining: nat, tif: TimeInForce, submittedAt: nat)

  datatype ExchangeState = ExchangeState(books: map<string, Book>, resting: map<string, SimOrder>,
                                         pending: seq<Event>, nextId: nat)

  function ExchangeId(n: nat): string { "SIM-" + Digits(n) }

  function Fee(price: int, qty: nat, bps: int): int { TruncDiv(price * qty * bps, 10000) }

  function LimitOf(o: NewOrder): Option<int> {
    match o.orderType
    case Market => None
    case StopMarket => None
    case Limit => Some(o.price)
    case StopLimit => Some(o.price)
  }

  /** The levels an order on this side of this pair meets; none when the pair has no book. */
  function Facing(books: map<string, Book>, pair: string, side: Side): Levels {
    if pair in books then Opposite(books[pair], side) else map[]
  }

  function WithOpposite(book: Book, side: Side, levels: Levels): Book {
    if side.Buy? then book.(asks := levels) else book.(bids := levels)
  }

  // ---- Submitting ----

  function RejectReason(books: map<string, Book>, o: NewOrder): Option<string> {
    var facing := Facing(books, o.symbol.Pair(), o.side);
    if o.tif.FillOrKill? && Available(facing, o.side, LimitOf(o)) < o.qty then Some("fok_unfillable")
    else if o.orderType.Market? && facing == map[] then Some("no_liquidity")
    else None
  }

  function MatchFor(books: map<string, Book>, o: NewOrder): MatchResult {
    Matched(Facing(books, o.symbol.Pair(), o.side), o.side, o.qty, LimitOf(o))
  }

  function FillEvent(cfg: Config, o: NewOrder, f: Fill, remaining: nat, ts: nat): Event {
    Event(0, ts, OrderFill(o.orderId,
      FillReport(o.symbol, o.side, f.price, f.qty, remaining, Fee(f.price, f.qty, cfg.takerFeeBps), false)))
  }

  function FillEvents(cfg: Config, o: NewOrder, fills: seq<Fill>, before: nat, ts: nat): seq<Event> {
    if fills == [] then []
    else
      var remaining := SaturatingSub(before, fills[0].qty);
      [FillEvent(cfg, o, fills[0], remaining, ts)] + FillEvents(cfg, o, fills[1..], remaining, ts)
  }

  predicate Rests(o: NewOrder, remaining: nat) {
    remaining > 0 && (o.tif.GoodTilCancel? || o.tif.GoodTilDate?) && o.orderType.Limit?
  }

  function AckEvent(cfg: Config, o: NewOrder, n: nat, ts: nat): Event {
    Event(0, ts + cfg.ackLatency, OrderAck(o.orderId, ExchangeId(n)))
  }

  function ExpiryEvents(cfg: Config, o: NewOrder, remaining: nat, ts: nat): seq<Event> {
    if remaining > 0 && o.tif.ImmediateOrCancel?
    then [Event(0, ts + cfg.fillLatency, OrderCancel(o.orderId, "ioc_expired"))]
    else []
  }

  function SubmitReports(cfg: Config, st: ExchangeState, o: NewOrder, ts: nat): seq<Event> {
    var reason := RejectReason(st.books, o);
    if reason.Some? then [Event(0, ts + cfg.ackLatency, OrderReject(o.orderId, reason.value))]
    else
      var r := MatchFor(st.books, o);
      [AckEvent(cfg, o, st.nextId, ts)] + FillEvents(cfg, o, r.fills, o.qty, ts + cfg.fillLatency)
      + ExpiryEvents(cfg, o, r.remaining, ts)
  }

  function Resting(o: NewOrder, remaining: nat, ts: nat): SimOrder {
    SimOrder(o.orderId, o.symbol, o.side, o.orderType, o.price, o.qty, remaining, o.tif, ts)
  }

  function Submitted(cfg: Config, st: ExchangeState, o: NewOrder, ts: nat): ExchangeState {
    var reports := st.pending + SubmitReports(cfg, st, o, ts);
    if RejectReason(st.books, o).Some? then st.(pending := reports)
    else
      var r := MatchFor(st.books, o);
      var pair := o.symbol.Pair();
      ExchangeState(
        if pair in st.books then st.books[pair := WithOpposite(st.books[pair], o.side, r.levels)] else st.books,
        if Rests(o, r.remaining) then st.resting[o.orderId := Resting(o, r.remaining, ts)] else st.resting,
        reports, st.nextId + 1)
  }

  // ---- Canceling ----

  function CancelEvent(cfg: Config, id: string, ts: nat): Event {
    Event(0, ts + cfg.ackLatency, OrderCancel(id, "user_cancel"))
  }

  function Withdrawn(cfg: Config, st: ExchangeState, id: string, ts: nat): ExchangeState {
    if id in st.resting
    then st.(resting := st.resting - {id}, pending := st.pending + [CancelEvent(cfg, id, ts)])
    else st
  }

  // ---- Book updates ----

  predicate CanCross(books: map<string, Book>, o: SimOrder) {
    var facing := Facing(books, o.symbol.Pair(), o.side);
    facing != map[] && Within(o.side, Some(o.price), Best(o.side, facing.Keys))
  }

  function MakerFill(cfg: Config, o: SimOrder): Event {
    Event(0, o.submittedAt + cfg.fillLatency, OrderFill(o.orderId,
      FillReport(o.symbol, o.side, o.price, o.remaining, 0, Fee(o.price, o.remaining, cfg.makerFeeBps), true)))
  }

  /** One resting order is looked at: it is filled whole at its own limit, or left alone. */
  function CheckOne(cfg: Config, st: ExchangeState, id: string): ExchangeState {
    if id in st.resting && CanCross(st.books, st.resting[id])
    then st.(resting := st.resting - {id}, pending := st.pending + [MakerFill(cfg, st.resting[id])])
    else st
  }

  function Checked(cfg: Config, st: ExchangeState, ids: seq<string>): ExchangeState
    decreases |ids|
  {
    if ids == [] then st else Checked(cfg, CheckOne(cfg, st, ids[0]), ids[1..])
  }

  /** `ids` lists the resting orders of a pair, in some order of the hash map. */
  predicate ListsResting(ids: seq<string>, resting: map<string, SimOrder>, pair: string) {
    && (forall i, j :: 0 <= i < j < |ids| ==> ids[i] != ids[j])
    && (forall id :: id in ids ==> id in resting && resting[id].symbol.Pair() == pair)
    && (forall id :: id in resting && resting[id].symbol.Pair() == pair ==> id in ids)
  }

  function UpdatedBook(books: map<string, Book>, pair: string, bids: seq<Level>, asks: seq<Level>, isSnapshot: bool): Book {
    var before := if pair in books && !isSnapshot then books[pair] else Book(map[], map[]);
    Book(AppliedAll(before.bids, bids), AppliedAll(before.asks, asks))
  }

  function BookFed(st: ExchangeState, pair: string, bids: seq<Level>, asks: seq<Level>, isSnapshot: bool): ExchangeState {
    st.(books := st.books[pair := UpdatedBook(st.books, pair, bids, asks, isSnapshot)])
  }

  // ---- What a book update leaves, price by price ----

  /** The last level of a batch that names a price, or -1 if none does. */
  predicate LastNaming(us: seq<Level>, p: int, k: int) {
    && -1 <= k < |us| && (k >= 0 ==> us[k].price == p)
    && forall j :: k < j < |us| ==> us[j].price != p
  }

  function BidsOf(books: map<string, Book>, pair: string): Levels {
    if pair in books then books[pair].bids else map[]
  }

  function AsksOf(books: map<string, Book>, pair: string): Levels {
    if pair in books then books[pair].asks else map[]
  }

  /** At every price the side holds what the last level naming it says; otherwise nothing after a snapshot, and what it
      held before after a delta. */
  ghost predicate SideHolds(after: Levels, before: Levels, us: seq<Level>, isSnapshot: bool) {
    forall p, k :: LastNaming(us, p, k)
                   ==> QtyAt(after, p) == if k >= 0 then us[k].qty else if isSnapshot then 0 else QtyAt(before, p)
  }

  /** Both sides of the pair hold that, and the books of other pairs are what they were. */
  ghost predicate BooksHold(after: map<string, Book>, before: map<string, Book>, pair: string,
                            bids: seq<Level>, asks: seq<Level>, isSnapshot: bool) {
    && after.Keys == before.Keys + {pair}
    && SideHolds(BidsOf(after, pair), BidsOf(before, pair), bids, isSnapshot)
    && SideHolds(AsksOf(after, pair), AsksOf(before, pair), asks, isSnapshot)
    && forall q :: q in before && q != pair ==> after[q] == before[q]
  }

  lemma BatchHolds(levels: Levels, us: seq<Level>, before: Levels, isSnapshot: bool)
    requires levels == if isSnapshot then map[] else before
    ensures SideHolds(AppliedAll(levels, us), before, us, isSnapshot)
  {
    forall p, k | LastNaming(us, p, k)
      ensures QtyAt(AppliedAll(levels, us), p) == if k >= 0 then us[k].qty else if isSnapshot then 0 else QtyAt(before, p)
    {
      LastUpdateWins(levels, us, p, k);
    }
  }

  lemma FedBooksHold(st: ExchangeState, pair: string, bids: seq<Level>, asks: seq<Level>, isSnapshot: bool)
    ensures BooksHold(BookFed(st, pair, bids, asks, isSnapshot).books, st.books, pair, bids, asks, isSnapshot)
  {
    var before, after := st.books, BookFed(st, pair, bids, asks, isSnapshot).books;
    BatchHolds(if isSnapshot then map[] else BidsOf(before, pair), bids, BidsOf(before, pair), isSnapshot);
    BatchHolds(if isSnapshot then map[] else AsksOf(before, pair), asks, AsksOf(before, pair), isSnapshot);
  }

  lemma {:induction false} SweepsLeaveBooks(cfg: Config, st: ExchangeState, ids: seq<string>)
    ensures Checked(cfg, st, ids).books == st.books
    decreases |ids|
  {
    if ids != [] {
      SweepsLeaveBooks(cfg, CheckOne(cfg, st, ids[0]), ids[1..]);
    }
  }

  // ---- Draining ----

  function Numbered(es: seq<Event>, start: nat): seq<Event> {
    seq(|es|, i requires 0 <= i < |es| => es[i].(seqNo := start + i))
  }

  class SimulatedExchange {
    const cfg: Config
    var books: map<string, Book>
    var resting: map<string, SimOrder>
    var pending: seq<Event>
    var nextExchangeId: nat

    ghost function State(): ExchangeState
      reads this
    {
      ExchangeState(books, resting, pending, nextExchangeId)
    }

    constructor (cfg: Config)
      ensures this.cfg == cfg && State() == ExchangeState(map[], map[], [], 1)
    {
      this.cfg := cfg;
      books, resting, pending, nextExchangeId := map[], map[], [], 1;
    }

    /** Returns, for the record, the order in which the resting orders were looked at. */
    method OnBookUpdate(symbol: Symbol, bids: seq<Level>, asks: seq<Level>, isSnapshot: bool) returns (ghost ids: seq<string>)
      modifies this
      ensures ListsResting(ids, old(resting), symbol.Pair())
      ensures State() == Checked(cfg, BookFed(old(State()), symbol.Pair(), bids, asks, isSnapshot), ids)
      ensures BooksHold(books, old(books), symbol.Pair(), bids, asks, isSnapshot)
    {
      FedBooksHold(State(), symbol.Pair(), bids, asks, isSnapshot);
      var key := symbol.Pair();
      var book := if key in books then books[key] else Book(map[], map[]);
      if isSnapshot {
        book := Book(map[], map[]);
      }
      var bidLevels := ApplyLevels(book.bids, bids);
      var askLevels := ApplyLevels(book.asks, asks);
      books := books[key := Book(bidLevels, askLevels)];
      ghost var fed := State();
      ids := CheckRestingOrders(key);
      SweepsLeaveBooks(cfg, fed, ids);
    }

    method CheckRestingOrders(pair: string) returns (ghost ids: seq<string>)
      modifies this
      ensures ListsResting(ids, old(resting), pair)
      ensures State() == Checked(cfg, old(State()), ids)
    {
      var orderIds := RestingIds(pair);
      ids := orderIds;
      var i := 0;
      while i < |orderIds|
        invariant 0 <= i <= |orderIds|
        invariant Checked(cfg, old(State()), ids) == Checked(cfg, State(), ids[i..])
      {
        var oid := orderIds[i];
        ghost var before := State();
        if oid in resting {
          var order := resting[oid];
          var levels := Facing(books, order.symbol.Pair(), order.side);
          if levels != map[] && Within(order.side, Some(order.price), Best(order.side, levels.Keys)) {
            var report := FillReport(order.symbol, order.side, order.price, order.remaining, 0,
                                     Fee(order.price, order.remaining, cfg.makerFeeBps), true);
            pending := pending + [Event(0, order.submittedAt + cfg.fillLatency, OrderFill(order.orderId, report))];
            resting := resting - {oid};
          }
        }
        assert State() == CheckOne(cfg, before, ids[i]);
        assert ids[i..][0] == ids[i] && ids[i..][1..] == ids[i + 1..];
        i := i + 1;
      }
    }

    method RestingIds(pair: string) returns (ids: seq<string>)
      ensures ListsResting(ids, resting, pair)
    {
      ids := [];
      var rest := resting.Keys;
      while rest != {}
        invariant rest <= resting.Keys
        invariant forall i, j :: 0 <= i < j < |ids| ==> ids[i] != ids[j]
        invariant forall id :: id in ids <==> id in resting && id !in rest && resting[id].symbol.Pair() == pair
        decreases |rest|
      {
        var id :| id in rest;
        rest := rest - {id};
        if resting[id].symbol.Pair() == pair {
          ids := ids + [id];
        }
      }
    }

    method SubmitOrder(o: NewOrder, ts: nat)
      modifies this
      ensures State() == Submitted(cfg, old(State()), o, ts)
    {
      var reason := CheckLiquidity(o);
      if reason.Some? {
        pending := pending + [Event(0, ts + cfg.ackLatency, OrderReject(o.orderId, reason.value))];
        return;
      }
      pending := pending + [Event(0, ts + cfg.ackLatency, OrderAck(o.orderId, ExchangeId(nextExchangeId)))];
      nextExchangeId := nextExchangeId + 1;
      var remaining := MatchAgainstBook(o, ts);
      HandleRemainder(o, remaining, ts);
    }

    /** What is left of the order expires, rests or is lost without a report. */
    method HandleRemainder(o: NewOrder, remaining: nat, ts: nat)
      modifies this`pending, this`resting
      ensures pending == old(pending) + ExpiryEvents(cfg, o, remaining, ts)
      ensures resting == if Rests(o, remaining) then old(resting)[o.orderId := Resting(o, remaining, ts)] else old(resting)
    {
      if remaining > 0 {
        match o.tif {
          case ImmediateOrCancel =>
            pending := pending + [Event(0, ts + cfg.fillLatency, OrderCancel(o.orderId, "ioc_expired"))];
          case FillOrKill =>
          case _ =>
            if o.orderType.Limit? {
              resting := resting[o.orderId := SimOrder(o.orderId, o.symbol, o.side, o.orderType, o.price, o.qty, remaining, o.tif, ts)];
            }
        }
      }
    }

    /** The checks made before the book is touched: fill-or-kill first, then market orders. */
    method CheckLiquidity(o: NewOrder) returns (reason: Option<string>)
      ensures reason == RejectReason(books, o)
      ensures var unfillable := o.tif.FillOrKill? && MatchFor(books, o).remaining > 0;
              var facing := if o.side.Buy? then AsksOf(books, o.symbol.Pair()) else BidsOf(books, o.symbol.Pair());
              reason == if unfillable then Some("fok_unfillable")
                        else if o.orderType.Market? && facing == map[] then Some("no_liquidity") else None
    {
      var facing := Facing(books, o.symbol.Pair(), o.side);
      LeftOver(facing, o.side, o.qty, LimitOf(o));
      if o.tif.FillOrKill? {
        var available := SumWithin(facing, o.side, LimitOf(o));
        if available < o.qty {
          return Some("fok_unfillable");
        }
      }
      if o.orderType.Market? && facing == map[] {
        return Some("no_liquidity");
      }
      return None;
    }

    method MatchAgainstBook(o: NewOrder, ts: nat) returns (remaining: nat)
      modifies this`books, this`pending
      ensures var r := MatchFor(old(books), o);
              && remaining == r.remaining
              && pending == old(pending) + FillEvents(cfg, o, r.fills, o.qty, ts + cfg.fillLatency)
              && books == var pair := o.symbol.Pair();
                          if pair in old(books) then old(books)[pair := WithOpposite(old(books)[pair], o.side, r.levels)]
                          else old(books)
    {
      var key := o.symbol.Pair();
      var r := MatchOrder(Facing(books, key, o.side), o.side, o.qty, LimitOf(o));
      if key in books {
        books := books[key := WithOpposite(books[key], o.side, r.levels)];
      }
      ReportFills(o, r.fills, ts + cfg.fillLatency);
      remaining := r.remaining;
    }

    method ReportFills(o: NewOrder, fills: seq<Fill>, ts: nat)
      modifies this`pending
      ensures pending == old(pending) + FillEvents(cfg, o, fills, o.qty, ts)
    {
      var remaining := o.qty;
      for i := 0 to |fills|
        invariant remaining >= 0
        invariant old(pending) + FillEvents(cfg, o, fills, o.qty, ts) == pending + FillEvents(cfg, o, fills[i..], remaining, ts)
      {
        var fill := fills[i];
        assert fills[i..][0] == fill && fills[i..][1..] == fills[i + 1..];
        remaining := SaturatingSub(remaining, fill.qty);
        var fee := TruncDiv(fill.price * fill.qty * cfg.takerFeeBps, 10000);
        pending := pending + [Event(0, ts, OrderFill(o.orderId,
                                FillReport(o.symbol, o.side, fill.price, fill.qty, remaining, fee, false)))];
      }
    }

    method CancelOrder(id: string, ts: nat)
      modifies this
      ensures State() == Withdrawn(cfg, old(State()), id, ts)
    {
      if id in resting {
        resting := resting - {id};
        pending := pending + [Event(0, ts + cfg.ackLatency, OrderCancel(id, "user_cancel"))];
      }
    }

    method DrainEvents(start: nat) returns (events: seq<Event>)
      modifies this`pending
      ensures events == Numbered(old(pending), start) && pending == []
      ensures |events| == |old(pending)|
      ensures forall i :: 0 <= i < |events| ==> events[i] == Event(start + i, old(pending)[i].timestamp, old(pending)[i].payload)
    {
      var next := start;
      events := [];
      while pending != []
        invariant |events| + |pending| == |old(pending)| && next == start + |events|
        invariant pending == old(pending)[|events|..]
        invariant events == Numbered(old(pending), start)[..|events|]
        decreases |pending|
      {
        var event := pending[0];
        pending := pending[1..];
        events := events + [event.(seqNo := next)];
        next := next + 1;
      }
    }
  }

  /** What the levels at these prices hold within the limit. */
  function HeldAt(prices: seq<int>, levels: Levels, side: Side, limit: Option<int>): nat {
    if prices == [] then 0
    else (if Within(side, limit, prices[0]) then QtyAt(levels, prices[0]) else 0) + HeldAt(prices[1..], levels, side, limit)
  }

  lemma {:induction false} HeldIsAvailable(taker: Side, rest: Levels, levels: Levels, side: Side, limit: Option<int>)
    requires forall p :: p in rest ==> p in levels && levels[p] == rest[p]
    ensures HeldAt(BestFirst(taker, rest.Keys), levels, side, limit) == Available(rest, side, limit)
    decreases |rest.Keys|
  {
    if rest == map[] {
      assert Matchable(rest, side, limit) == map[];
    } else {
      var p := Best(taker, rest.Keys);
      FirstPrice(taker, rest, p);
      AvailableWithout(rest, side, limit, p);
      HeldIsAvailable(taker, rest - {p}, levels, side, limit);
    }
  }

  /** The liquidity check of a fill-or-kill order: every level is visited, in price order. */
  method SumWithin(levels: Levels, side: Side, limit: Option<int>) returns (sum: nat)
    ensures sum == Available(levels, side, limit)
  {
    var prices := BestFirst(Buy, levels.Keys);
    HeldIsAvailable(Buy, levels, levels, side, limit);
    AllInFirst(levels, Buy);
    assert prices[0..] == prices;
    sum := 0;
    for i := 0 to |prices|
      invariant HeldAt(prices, levels, side, limit) == sum + HeldAt(prices[i..], levels, side, limit)
    {
      assert prices[i..][0] == prices[i] && prices[i..][1..] == prices[i + 1..];
      if Within(side, limit, prices[i]) {
        sum := sum + levels[prices[i]];
      }
    }
  }

  lemma AvailableWithout(levels: Levels, side: Side, limit: Option<int>, p: int)
    requires p in levels
    ensures Available(levels, side, limit)
            == (if Within(side, limit, p) then levels[p] else 0) + Available(levels - {p}, side, limit)
  {
    if Within(side, limit, p) {
      AvailableSplit(levels, side, limit, p);
    } else {
      assert Matchable(levels, side, limit) == Matchable(levels - {p}, side, limit);
    }
  }
}
