/** The execution engine (crates/atomic-execution/src/state_machine.rs): the map of
    all orders, changed in place by registrations and exchange reports. */
module Execution {
  import opened Types
  import opened Lifecycle
  import opened Listing
  import opened OrderIds

  /** What a snapshot carries: the listed orders and the id counter. */
  datatype EngineSnapshot = EngineSnapshot(seqNo: nat, timestamp: nat, orders: seq<LiveOrder>, nextLocalId: nat)

  class ExecutionEngine {
    var orders: Orders
    var nextLocalId: nat

    constructor ()
      ensures orders == map[] && nextLocalId == 1
    {
      orders := map[];
      nextLocalId := 1;
    }

    /** Two calls never return the same id, as long as the counter is not set back. */
    method NextOrderId(venue: Venue) returns (id: string)
      modifies this`nextLocalId
      ensures id == OrderId(venue, old(nextLocalId)) && nextLocalId == old(nextLocalId) + 1
      ensures forall n :: 0 <= n < old(nextLocalId) ==> id != OrderId(venue, n)
    {
      forall n | 0 <= n < nextLocalId ensures OrderId(venue, nextLocalId) != OrderId(venue, n) {
        IdsDiffer(venue, nextLocalId, n);
      }
      id := VenueName(venue) + "-" + Digits(nextLocalId);
      nextLocalId := nextLocalId + 1;
    }

    /** `r` answers a request about one order whose outcome is `a`. */
    ghost predicate Answers(r: Result<bool, Refusal>, a: Result<LiveOrder, Refusal>) {
      match a
      case Success(_) => r.Success?
      case Failure(e) => r == Failure(e)
    }

    method RegisterOrder(order: LiveOrder) returns (r: Result<bool, Refusal>)
      modifies this`orders
      ensures if order.orderId in old(orders) then r == Failure(AlreadyExists) && orders == old(orders)
              else r == Success(true) && orders == old(orders)[order.orderId := order]
    {
      if order.orderId in orders {
        return Failure(AlreadyExists);
      }
      orders := orders[order.orderId := order];
      return Success(true);
    }

    method OnAck(id: string, exchangeId: string, ts: nat) returns (r: Result<bool, Refusal>)
      modifies this`orders
      ensures orders == Entered(old(orders), id, Acked(Lookup(old(orders), id), exchangeId, ts))
      ensures Answers(r, Acked(Lookup(old(orders), id), exchangeId, ts))
    {
      if id !in orders { return Failure(NotFound); }
      var order := orders[id];
      if !CanTransition(order.state, Ack) {
        return Failure(InvalidTransition(order.state, Ack));
      }
      orders := orders[id := order.(state := Ack, exchangeOrderId := Some(exchangeId), updatedAt := ts)];
      return Success(true);
    }

    /** Success carries whether the order is now complete. */
    method OnFill(id: string, qty: nat, ts: nat) returns (r: Result<bool, Refusal>)
      modifies this`orders
      ensures orders == Entered(old(orders), id, FilledBy(Lookup(old(orders), id), qty, ts))
      ensures Answers(r, FilledBy(Lookup(old(orders), id), qty, ts))
      ensures r.Success? ==> (r.value <==> orders[id].state == Filled)
    {
      if id !in orders { return Failure(NotFound); }
      var order := orders[id];
      var newFilled := order.filledQty + qty;
      var isComplete := newFilled >= order.originalQty;
      var target := if isComplete then Filled else PartialFill;
      if !CanTransition(order.state, target) {
        return Failure(InvalidTransition(order.state, target));
      }
      order := order.(filledQty := newFilled);
      order := order.(remainingQty := SaturatingSub(order.originalQty, newFilled));
      order := order.(state := target, updatedAt := ts);
      orders := orders[id := order];
      return Success(isComplete);
    }

    method OnCancel(id: string, ts: nat) returns (r: Result<bool, Refusal>)
      modifies this`orders
      ensures orders == Entered(old(orders), id, Closed(Lookup(old(orders), id), Canceled, ts))
      ensures Answers(r, Closed(Lookup(old(orders), id), Canceled, ts))
    {
      if id !in orders { return Failure(NotFound); }
      var order := orders[id];
      if !CanTransition(order.state, Canceled) {
        return Failure(InvalidTransition(order.state, Canceled));
      }
      orders := orders[id := order.(state := Canceled, updatedAt := ts)];
      return Success(true);
    }

    method OnReject(id: string, ts: nat) returns (r: Result<bool, Refusal>)
      modifies this`orders
      ensures orders == Entered(old(orders), id, Closed(Lookup(old(orders), id), Rejected, ts))
      ensures Answers(r, Closed(Lookup(old(orders), id), Rejected, ts))
    {
      if id !in orders { return Failure(NotFound); }
      var order := orders[id];
      if !CanTransition(order.state, Rejected) {
        return Failure(InvalidTransition(order.state, Rejected));
      }
      orders := orders[id := order.(state := Rejected, updatedAt := ts)];
      return Success(true);
    }

    /** Success(true): the event was relevant and changed an order. */
    method ProcessEvent(e: Event) returns (r: Result<bool, Refusal>)
      modifies this`orders
      ensures orders == Post(old(orders), e)
      ensures r == Success(true) <==> Accepted(old(orders), e)
      ensures r == Success(false) <==> e.payload.NotExecution?
    {
      match e.payload
      case OrderNew(o) =>
        var _ :- RegisterOrder(Fresh(o, e.timestamp));
        return Success(true);
      case OrderAck(id, exchangeId) =>
        var _ :- OnAck(id, exchangeId, e.timestamp);
        return Success(true);
      case OrderFill(id, f) =>
        var _ :- OnFill(id, f.qty, e.timestamp);
        return Success(true);
      case OrderPartialFill(id, f) =>
        var _ :- OnFill(id, f.qty, e.timestamp);
        return Success(true);
      case OrderCancel(id, _) =>
        var _ :- OnCancel(id, e.timestamp);
        return Success(true);
      case OrderReject(id, _) =>
        var _ :- OnReject(id, e.timestamp);
        return Success(true);
      case NotExecution =>
        return Success(false);
    }

    /** The ids of all open orders, in whatever order the map yields them. */
    method OpenOrderIds() returns (ids: seq<string>)
      ensures forall i, j :: 0 <= i < j < |ids| ==> ids[i] != ids[j]
      ensures forall id :: id in ids <==> id in orders && !IsTerminal(orders[id].state)
    {
      ids := [];
      var rest := orders.Keys;
      while rest != {}
        invariant rest <= orders.Keys
        invariant forall i, j :: 0 <= i < j < |ids| ==> ids[i] != ids[j]
        invariant forall id :: id in ids <==> id in orders && id !in rest && !IsTerminal(orders[id].state)
        decreases |rest|
      {
        var id :| id in rest;
        rest := rest - {id};
        if !IsTerminal(orders[id].state) {
          ids := ids + [id];
        }
      }
    }

    /** The orders are read in arbitrary map order and sorted by id. */
    method SerializeState() returns (l: seq<LiveOrder>)
      requires Keyed(orders)
      ensures IsListing(l, orders)
    {
      l := [];
      var rest := orders.Keys;
      ghost var done: Orders := map[];
      while rest != {}
        invariant rest <= orders.Keys
        invariant done == map id | id in orders && id !in rest :: orders[id]
        invariant IsListing(l, done)
        decreases |rest|
      {
        var id :| id in rest;
        rest := rest - {id};
        InsertListing(l, done, orders[id]);
        done := done[id := orders[id]];
        l := Insert(l, orders[id]);
      }
      assert done == orders;
    }

    method Snapshot(seqNo: nat, ts: nat) returns (s: EngineSnapshot)
      requires Keyed(orders)
      ensures s.seqNo == seqNo && s.timestamp == ts && s.nextLocalId == nextLocalId
      ensures IsListing(s.orders, orders)
    {
      var l := SerializeState();
      s := EngineSnapshot(seqNo, ts, l, nextLocalId);
    }

    /** Whatever the engine held, restoring a snapshot of some engine makes it that engine. */
    method Restore(s: EngineSnapshot)
      modifies this
      ensures orders == Loaded(map[], s.orders) && nextLocalId == s.nextLocalId
      ensures forall taken: Orders :: IsListing(s.orders, taken) ==> orders == taken
    {
      orders := map[];
      for i := 0 to |s.orders|
        invariant Loaded(map[], s.orders) == Loaded(orders, s.orders[i..])
      {
        orders := orders[s.orders[i].orderId := s.orders[i]];
      }
      nextLocalId := s.nextLocalId;
      forall taken: Orders | IsListing(s.orders, taken) ensures orders == taken {
        LoadedListing(map[], s.orders, taken);
        assert map[] + taken == taken;
      }
    }
  }
}
