/** The order life cycle of crates/atomic-execution/src/state_machine.rs on values:
    what one event does to one order, what a stream of events does to all orders,
    and the laws that hold for every stream. */
module Lifecycle {
  import opened Types

  datatype OrderState = New | Ack | PartialFill | Filled | Canceled | Rejected

  predicate IsTerminal(s: OrderState) {
    s.Filled? || s.Canceled? || s.Rejected?
  }

  predicate CanTransition(from: OrderState, to: OrderState) {
    match from
    case New => to.Ack? || to.Rejected?
    case Ack => to.PartialFill? || to.Filled? || to.Canceled?
    case PartialFill => to.PartialFill? || to.Filled? || to.Canceled?
    case _ => false
  }

  datatype LiveOrder = LiveOrder(orderId: string, exchangeOrderId: Option<string>, symbol: Symbol,
                                 side: Side, orderType: OrderType, price: int, originalQty: nat,
                                 filledQty: nat, remainingQty: nat, tif: TimeInForce, venue: Venue,
                                 state: OrderState, createdAt: nat, updatedAt: nat)

  type Orders = map<string, LiveOrder>

  datatype Refusal = AlreadyExists | NotFound | InvalidTransition(from: OrderState, to: OrderState) | NotRelevant

  function Fresh(o: NewOrder, ts: nat): LiveOrder {
    LiveOrder(o.orderId, None, o.symbol, o.side, o.orderType, o.price, o.qty, 0, o.qty, o.tif, o.venue, New, ts, ts)
  }

  function Allowed(entry: Option<LiveOrder>, to: OrderState): Result<LiveOrder, Refusal> {
    if entry.None? then Failure(NotFound)
    else if !CanTransition(entry.value.state, to) then Failure(InvalidTransition(entry.value.state, to))
    else Success(entry.value)
  }

  function Acked(entry: Option<LiveOrder>, exchangeId: string, ts: nat): Result<LiveOrder, Refusal> {
    var o :- Allowed(entry, Ack);
    Success(o.(state := Ack, exchangeOrderId := Some(exchangeId), updatedAt := ts))
  }

  function FilledBy(entry: Option<LiveOrder>, qty: nat, ts: nat): Result<LiveOrder, Refusal> {
    if entry.None? then Failure(NotFound)
    else
      var filled := entry.value.filledQty + qty;
      var to := if filled >= entry.value.originalQty then Filled else PartialFill;
      var o :- Allowed(entry, to);
      Success(o.(filledQty := filled, remainingQty := SaturatingSub(o.originalQty, filled), state := to, updatedAt := ts))
  }

  function Closed(entry: Option<LiveOrder>, to: OrderState, ts: nat): Result<LiveOrder, Refusal> {
    var o :- Allowed(entry, to);
    Success(o.(state := to, updatedAt := ts))
  }

  /** What one event does to the entry of the order that it is about. */
  function Advance(entry: Option<LiveOrder>, ts: nat, p: Payload): Result<LiveOrder, Refusal> {
    match p
    case OrderNew(o) => if entry.Some? then Failure(AlreadyExists) else Success(Fresh(o, ts))
    case OrderAck(_, exchangeId) => Acked(entry, exchangeId, ts)
    case OrderFill(_, f) => FilledBy(entry, f.qty, ts)
    case OrderPartialFill(_, f) => FilledBy(entry, f.qty, ts)
    case OrderCancel(_, _) => Closed(entry, Canceled, ts)
    case OrderReject(_, _) => Closed(entry, Rejected, ts)
    case NotExecution => Failure(NotRelevant)
  }

  function Lookup(orders: Orders, id: string): Option<LiveOrder> {
    if id in orders then Some(orders[id]) else None
  }

  function Entered(orders: Orders, id: string, r: Result<LiveOrder, Refusal>): Orders {
    if r.Success? then orders[id := r.value] else orders
  }

  /** Whether the engine answers Ok(true). */
  predicate Accepted(orders: Orders, e: Event) {
    Subject(e.payload).Some? && Advance(Lookup(orders, Subject(e.payload).value), e.timestamp, e.payload).Success?
  }

  /** The orders after one event; an event that is refused changes nothing. */
  function Post(orders: Orders, e: Event): Orders {
    match Subject(e.payload)
    case None => orders
    case Some(id) => Entered(orders, id, Advance(Lookup(orders, id), e.timestamp, e.payload))
  }

  function Run(orders: Orders, es: seq<Event>): Orders
    decreases |es|
  {
    if es == [] then orders else Run(Post(orders, es[0]), es[1..])
  }

  predicate AllAccepted(orders: Orders, es: seq<Event>)
    decreases |es|
  {
    es == [] || (Accepted(orders, es[0]) && AllAccepted(Post(orders, es[0]), es[1..]))
  }

  lemma {:induction false} RunConcat(orders: Orders, a: seq<Event>, b: seq<Event>)
    ensures Run(orders, a + b) == Run(Run(orders, a), b)
    ensures AllAccepted(orders, a + b) <==> AllAccepted(orders, a) && AllAccepted(Run(orders, a), b)
    decreases |a|
  {
    if a == [] {
      assert a + b == b;
    } else {
      assert (a + b)[0] == a[0] && (a + b)[1..] == a[1..] + b;
      RunConcat(Post(orders, a[0]), a[1..], b);
    }
  }

  // ---- One order sees only its own events ----

  datatype Stamped = Stamped(timestamp: nat, payload: Payload)

  /** The events about one order, without their sequence numbers. */
  function Projection(es: seq<Event>, id: string): seq<Stamped> {
    if es == [] then []
    else if Subject(es[0].payload) == Some(id)
    then [Stamped(es[0].timestamp, es[0].payload)] + Projection(es[1..], id)
    else Projection(es[1..], id)
  }

  function Next(entry: Option<LiveOrder>, s: Stamped): Option<LiveOrder> {
    var r := Advance(entry, s.timestamp, s.payload);
    if r.Success? then Some(r.value) else entry
  }

  function History(entry: Option<LiveOrder>, ss: seq<Stamped>): Option<LiveOrder>
    decreases |ss|
  {
    if ss == [] then entry else History(Next(entry, ss[0]), ss[1..])
  }

  /** The engine's entry for an order is a function of that order's events alone. */
  lemma {:induction false} EntryFollowsProjection(orders: Orders, es: seq<Event>, id: string)
    ensures Lookup(Run(orders, es), id) == History(Lookup(orders, id), Projection(es, id))
    decreases |es|
  {
    if es != [] {
      EntryFollowsProjection(Post(orders, es[0]), es[1..], id);
      if Subject(es[0].payload) == Some(id) {
        var s := Stamped(es[0].timestamp, es[0].payload);
        assert ([s] + Projection(es[1..], id))[1..] == Projection(es[1..], id);
      }
    }
  }

  /** Streams that agree order by order lead to the same engine, however they interleave. */
  lemma SameProjectionsSameOrders(orders: Orders, a: seq<Event>, b: seq<Event>)
    requires forall id :: Projection(a, id) == Projection(b, id)
    ensures Run(orders, a) == Run(orders, b)
  {
    var ra, rb := Run(orders, a), Run(orders, b);
    forall id ensures Lookup(ra, id) == Lookup(rb, id) {
      EntryFollowsProjection(orders, a, id);
      EntryFollowsProjection(orders, b, id);
    }
    LookupDecides(ra, rb);
  }

  lemma LookupDecides(a: Orders, b: Orders)
    requires forall id :: Lookup(a, id) == Lookup(b, id)
    ensures a == b
  {
    forall id ensures id in a <==> id in b {
      assert Lookup(a, id) == Lookup(b, id);
    }
    forall id | id in a ensures a[id] == b[id] {
      assert Lookup(a, id) == Lookup(b, id);
    }
  }

  lemma {:induction false} ProjectionConcat(a: seq<Event>, b: seq<Event>, id: string)
    ensures Projection(a + b, id) == Projection(a, id) + Projection(b, id)
  {
    if a == [] {
      assert a + b == b;
    } else {
      assert (a + b)[0] == a[0] && (a + b)[1..] == a[1..] + b;
      ProjectionConcat(a[1..], b, id);
    }
  }

  // ---- Laws of the life cycle ----

  /** Quantities of an order agree with each other and with its state. */
  predicate Sound(o: LiveOrder) {
    && o.remainingQty == SaturatingSub(o.originalQty, o.filledQty)
    && (o.state.New? || o.state.Ack? || o.state.Rejected? ==> o.filledQty == 0)
    && (o.state.PartialFill? ==> o.filledQty < o.originalQty)
    && (o.state.Filled? ==> o.filledQty >= o.originalQty)
    && (o.state.Canceled? ==> o.filledQty == 0 || o.filledQty < o.originalQty)
  }

  /** Every order is stored under its own id. */
  predicate Keyed(orders: Orders) {
    forall id :: id in orders ==> orders[id].orderId == id
  }

  predicate AllSound(orders: Orders) {
    Keyed(orders) && forall id :: id in orders ==> Sound(orders[id])
  }

  lemma {:induction false} RunKeepsSound(orders: Orders, es: seq<Event>)
    requires AllSound(orders)
    ensures AllSound(Run(orders, es))
    decreases |es|
  {
    if es != [] {
      PostKeepsSound(orders, es[0]);
      RunKeepsSound(Post(orders, es[0]), es[1..]);
    }
  }

  lemma AdvanceKeepsSound(entry: Option<LiveOrder>, timestamp: nat, payload: Payload)
    requires entry.Some? ==> Sound(entry.value) && Subject(payload) == Some(entry.value.orderId)
    ensures var r := Advance(entry, timestamp, payload);
            r.Success? ==> Sound(r.value) && Subject(payload) == Some(r.value.orderId)
  {
  }

  lemma PostKeepsSound(orders: Orders, e: Event)
    requires AllSound(orders)
    ensures AllSound(Post(orders, e))
  {
    var s := Subject(e.payload);
    if s.Some? {
      AdvanceKeepsSound(Lookup(orders, s.value), e.timestamp, e.payload);
    }
  }

  /** Filled, canceled and rejected are final: no event stream changes such an order. */
  lemma {:induction false} TerminalIsFinal(orders: Orders, es: seq<Event>, id: string)
    requires id in orders && IsTerminal(orders[id].state)
    ensures Lookup(Run(orders, es), id) == Some(orders[id])
    decreases |es|
  {
    if es != [] {
      assert Lookup(Post(orders, es[0]), id) == Some(orders[id]);
      TerminalIsFinal(Post(orders, es[0]), es[1..], id);
    }
  }
}
