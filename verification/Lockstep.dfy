/** The simulated exchange and the execution engine run side by side: the exchange's
    reports travel through a queue to the engine, while book updates, new orders and
    cancels go on. Everything here is about every run of that pair. */
module Lockstep {
  import opened Types
  import opened PriceLevels
  import opened Matching
  import opened Lifecycle
  import opened Exchange

  datatype System = System(ex: ExchangeState, inflight: seq<Event>, orders: Orders)

  /** Reports that the engine has not seen yet, oldest first. */
  function Due(s: System): seq<Event> { s.inflight + s.ex.pending }

  predicate Working(state: OrderState) { state.Ack? || state.PartialFill? }

  predicate SameOrder(e: LiveOrder, o: SimOrder) {
    e.remainingQty == o.remaining && e.symbol == o.symbol && e.side == o.side && e.price == o.price
  }

  /** Every order that rests is open in the engine, with the same remainder, and none waits to be acknowledged. */
  ghost predicate Covers(resting: map<string, SimOrder>, orders: Orders) {
    && (forall id :: id in resting ==> id in orders && Working(orders[id].state) && SameOrder(orders[id], resting[id]))
    && (forall id :: id in orders ==> !orders[id].state.New?)
  }

  /** No order is open in the engine that does not rest. */
  ghost predicate NoneLost(resting: map<string, SimOrder>, orders: Orders) {
    forall id :: id in orders && Working(orders[id].state) ==> id in resting
  }

  /** The exchange rests exactly the orders that the engine holds open, quantity for quantity. */
  ghost predicate Agree(resting: map<string, SimOrder>, orders: Orders) {
    Covers(resting, orders) && NoneLost(resting, orders)
  }

  /** The engine accepts this report, and what it says is left is what the engine then has left. */
  predicate Truthful(orders: Orders, e: Event) {
    && !e.payload.OrderNew?
    && Accepted(orders, e)
    && (e.payload.OrderFill? ==> Post(orders, e)[e.payload.fillId].remainingQty == e.payload.fill.remaining)
  }

  predicate AllTruthful(orders: Orders, es: seq<Event>)
    decreases |es|
  {
    es == [] || (Truthful(orders, es[0]) && AllTruthful(Post(orders, es[0]), es[1..]))
  }

  /** The engine accepts all due reports, and once they have arrived it holds every resting order open. */
  ghost predicate Covered(orders: Orders, due: seq<Event>, resting: map<string, SimOrder>) {
    AllSound(orders) && AllTruthful(orders, due) && Covers(resting, Run(orders, due))
  }

  /** No resting order could trade with the book it faces. */
  ghost predicate NoCross(books: map<string, Book>, resting: map<string, SimOrder>) {
    forall id, p :: id in resting && p in Facing(books, resting[id].symbol.Pair(), resting[id].side)
                    ==> !Within(resting[id].side, Some(resting[id].price), p)
  }

  ghost predicate ExchangeInv(ex: ExchangeState) {
    && (forall id :: id in ex.resting ==> ex.resting[id].orderId == id && ex.resting[id].remaining > 0)
    && NoCross(ex.books, ex.resting)
  }

  /** What every run with unused ids keeps. */
  ghost predicate HalfInv(s: System) {
    ExchangeInv(s.ex) && Covered(s.orders, Due(s), s.ex.resting)
  }

  /** What it keeps as long as no order is orphaned: once all due reports have arrived, engine and exchange agree. */
  ghost predicate Inv(s: System) {
    HalfInv(s) && NoneLost(s.ex.resting, Run(s.orders, Due(s)))
  }

  datatype Action =
    | Feed(symbol: Symbol, bids: seq<Level>, asks: seq<Level>, isSnapshot: bool)
    | Submit(order: NewOrder, submitTs: nat)
    | Cancel(id: string, cancelTs: nat)
    | CancelAll(ts: nat)
    | Drain(start: nat)
    | Deliver

  function WithdrawnAll(cfg: Config, st: ExchangeState, ids: seq<string>, ts: nat): ExchangeState
    decreases |ids|
  {
    if ids == [] then st else WithdrawnAll(cfg, Withdrawn(cfg, st, ids[0], ts), ids[1..], ts)
  }

  /** `ids` lists the open orders of the engine, in some order of the hash map. */
  ghost predicate ListsOpen(ids: seq<string>, orders: Orders) {
    && (forall i, j :: 0 <= i < j < |ids| ==> ids[i] != ids[j])
    && (forall id :: id in ids <==> id in orders && !IsTerminal(orders[id].state))
  }

  function Registration(o: NewOrder, ts: nat): Event { Event(0, ts, OrderNew(o)) }

  ghost predicate Step(cfg: Config, s: System, a: Action, s': System) {
    match a
    case Feed(symbol, bids, asks, isSnapshot) =>
      exists ids :: ListsResting(ids, s.ex.resting, symbol.Pair())
                    && s' == s.(ex := Checked(cfg, BookFed(s.ex, symbol.Pair(), bids, asks, isSnapshot), ids))
    case Submit(o, ts) =>
      s' == s.(orders := Post(s.orders, Registration(o, ts)), ex := Submitted(cfg, s.ex, o, ts))
    case Cancel(id, ts) =>
      s' == s.(ex := Withdrawn(cfg, s.ex, id, ts))
    case CancelAll(ts) =>
      exists ids :: ListsOpen(ids, s.orders) && s' == s.(ex := WithdrawnAll(cfg, s.ex, ids, ts))
    case Drain(start) =>
      s' == s.(ex := s.ex.(pending := []), inflight := s.inflight + Numbered(s.ex.pending, start))
    case Deliver =>
      s' == if s.inflight == [] then s
            else s.(inflight := s.inflight[1..], orders := Post(s.orders, s.inflight[0]))
  }

  /** Orders that the exchange accepts and then loses sight of: nothing rests, and no report
      ever closes them. Everything here can be checked before the order is sent. */
  predicate Orphans(ex: ExchangeState, o: NewOrder) {
    && RejectReason(ex.books, o).None?
    && (o.qty == 0
        || (&& Available(Facing(ex.books, o.symbol.Pair(), o.side), o.side, LimitOf(o)) < o.qty
            && (o.tif.GoodTilCancel? || o.tif.GoodTilDate?)
            && !o.orderType.Limit?))
  }

  /** The engine does not know the id of a submitted order. */
  predicate Unused(s: System, a: Action) {
    a.Submit? ==> a.order.orderId !in s.orders
  }

  predicate Orphaning(s: System, a: Action) {
    a.Submit? && Orphans(s.ex, a.order)
  }

  // ---- Streams of truthful reports ----

  lemma {:induction false} TruthfulConcat(orders: Orders, a: seq<Event>, b: seq<Event>)
    ensures AllTruthful(orders, a + b) <==> AllTruthful(orders, a) && AllTruthful(Run(orders, a), b)
    decreases |a|
  {
    if a == [] {
      assert a + b == b;
    } else {
      assert (a + b)[0] == a[0] && (a + b)[1..] == a[1..] + b;
      TruthfulConcat(Post(orders, a[0]), a[1..], b);
    }
  }

  lemma {:induction false} NumberingIsInvisible(orders: Orders, es: seq<Event>, start: nat)
    ensures Run(orders, Numbered(es, start)) == Run(orders, es)
    ensures AllTruthful(orders, Numbered(es, start)) <==> AllTruthful(orders, es)
    decreases |es|
  {
    var ns := Numbered(es, start);
    if es != [] {
      assert ns[1..] == Numbered(es[1..], start + 1);
      assert Post(orders, ns[0]) == Post(orders, es[0]);
      NumberingIsInvisible(Post(orders, es[0]), es[1..], start + 1);
    }
  }

  /** Registering a new order does not disturb reports that are still on their way. */
  lemma {:induction false} RegisterAhead(orders: Orders, es: seq<Event>, id: string, o: LiveOrder)
    requires AllTruthful(orders, es) && id !in orders
    ensures AllTruthful(orders[id := o], es)
    ensures Run(orders[id := o], es) == Run(orders, es)[id := o]
    ensures Run(orders, es).Keys == orders.Keys
    decreases |es|
  {
    if es != [] {
      var e := es[0];
      assert Subject(e.payload).value in orders;
      assert Post(orders[id := o], e) == Post(orders, e)[id := o];
      assert Post(orders, e).Keys == orders.Keys;
      RegisterAhead(Post(orders, e), es[1..], id, o);
    }
  }

  /** A report that closes a resting order, by filling or by canceling it. */
  predicate Closes(e: Event, id: string, o: SimOrder) {
    || (e.payload.OrderCancel? && e.payload.cancelId == id)
    || (e.payload.OrderFill? && e.payload.fillId == id && e.payload.fill.qty == o.remaining && e.payload.fill.remaining == 0)
  }

  lemma CloseEntry(m: Orders, resting: map<string, SimOrder>, id: string, e: Event)
    requires AllSound(m) && Covers(resting, m) && id in resting && resting[id].remaining > 0 && Closes(e, id, resting[id])
    ensures Truthful(m, e) && id in Post(m, e) && IsTerminal(Post(m, e)[id].state) && Post(m, e) == m[id := Post(m, e)[id]]
  {
    assert Subject(e.payload) == Some(id);
    assert Lookup(m, id) == Some(m[id]);
  }

  /** One more closing report at the end of the queue. */
  lemma CloseOne(orders: Orders, due: seq<Event>, resting: map<string, SimOrder>, id: string, e: Event)
    requires Covered(orders, due, resting) && id in resting && resting[id].remaining > 0 && Closes(e, id, resting[id])
    ensures Covered(orders, due + [e], resting - {id})
    ensures NoneLost(resting, Run(orders, due)) ==> NoneLost(resting - {id}, Run(orders, due + [e]))
  {
    var m := Run(orders, due);
    RunKeepsSound(orders, due);
    RunConcat(orders, due, [e]);
    TruthfulConcat(orders, due, [e]);
    CloseEntry(m, resting, id, e);
    assert [e][1..] == [];
    assert Run(m, [e]) == Post(m, e);
    assert AllTruthful(m, [e]);
  }
}
