/** Order ids after a restart (crates/atomic-execution/src/state_machine.rs, `next_order_id` and `process_event`): replaying an
    order does not advance the counter that generates ids. */
module RecoveredIds {
  import opened Types
  import opened Lifecycle
  import opened Execution
  import opened OrderIds
  import opened Recovery
  import Dedup

  /** Some event registers an order under this id. */
  predicate Registers(es: seq<Event>, id: string) {
    exists i :: 0 <= i < |es| && IsRegistration(es[i], id)
  }

  predicate IsRegistration(e: Event, id: string) {
    e.payload.OrderNew? && e.payload.order.orderId == id
  }

  lemma RegistersNext(es: seq<Event>, id: string)
    requires es != []
    ensures Registers(es, id) <==> IsRegistration(es[0], id) || Registers(es[1..], id)
  {
    if Registers(es, id) && !IsRegistration(es[0], id) {
      var i :| 0 <= i < |es| && IsRegistration(es[i], id);
      assert es[1..][i - 1] == es[i];
    }
    if Registers(es[1..], id) {
      var i :| 0 <= i < |es[1..]| && IsRegistration(es[1..][i], id);
      assert es[i + 1] == es[1..][i];
    }
  }

  /** The engine knows exactly the ids that were registered, accepted or not. */
  lemma {:induction false} KnownExactly(orders: Orders, es: seq<Event>, id: string)
    ensures id in Run(orders, es) <==> id in orders || Registers(es, id)
    decreases |es|
  {
    if es != [] {
      RegistersNext(es, id);
      KnownExactly(Post(orders, es[0]), es[1..], id);
    }
  }

  /** Every generated id that was registered has a number below the counter. */
  ghost predicate Counted(es: seq<Event>, next: nat) {
    forall v, n: nat :: Registers(es, OrderId(v, n)) ==> n < next
  }

  /** A restart without a gap, from a snapshot whose counter covers what was registered before it. */
  ghost predicate GaplessRestart(history: seq<Event>, log: seq<Event>, snapshot: Option<EngineSnapshot>, orders: Orders, next: nat) {
    var k := SnapshotSeq(snapshot);
    && LogOf(log, history) && TakenFrom(snapshot, orders, history) && Consecutive(Later(log, k), k + 1)
    && k <= |history| && Counted(history[..k], Counter(snapshot, next))
  }

  /** The next id that is generated for a venue is then in use exactly if an event after the snapshot registers it. */
  lemma NextIdInUseExactly(history: seq<Event>, log: seq<Event>, snapshot: Option<EngineSnapshot>, orders: Orders, next: nat, v: Venue)
    requires GaplessRestart(history, log, snapshot, orders, next)
    ensures OrderId(v, Counter(snapshot, next)) in Recovered(snapshot, log, orders)
            <==> Registers(Later(log, SnapshotSeq(snapshot)), OrderId(v, Counter(snapshot, next)))
  {
    var k, id := SnapshotSeq(snapshot), OrderId(v, Counter(snapshot, next));
    GaplessIsIncreasing(Later(log, k), k + 1);
    IncreasingPasses(Dedup.DedupState({}, k), Later(log, k));
    RestoredIsPrefix(snapshot, orders, history);
    KnownExactly(map[], history[..k], id);
    KnownExactly(Restored(snapshot, orders), Later(log, k), id);
  }

  /** The first order for a venue after such a restart is refused exactly if an event that was replayed registers the id that
      is generated for it; its reports then go to that order. */
  method FirstOrderAfterRestart(engine: ExecutionEngine, snapshot: Option<EngineSnapshot>, log: seq<Event>, ghost history: seq<Event>,
                                venue: Venue, order: LiveOrder) returns (id: string, r: Result<bool, Refusal>)
    modifies engine
    ensures id == OrderId(venue, Counter(snapshot, old(engine.nextLocalId)))
    ensures GaplessRestart(history, log, snapshot, old(engine.orders), old(engine.nextLocalId))
            ==> (r == Failure(AlreadyExists) <==> Registers(Later(log, SnapshotSeq(snapshot)), id))
  {
    ghost var orders, next := engine.orders, engine.nextLocalId;
    var plan := Recover(engine, snapshot, log, history);
    id := engine.NextOrderId(venue);
    r := engine.RegisterOrder(order.(orderId := id));
    if GaplessRestart(history, log, snapshot, orders, next) {
      NextIdInUseExactly(history, log, snapshot, orders, next, venue);
    }
  }

  /** Such a restart: no snapshot, and a log with the first order of a venue. */
  lemma FirstIdReused(o: NewOrder, ts: nat)
    requires o.orderId == OrderId(o.venue, 1)
    ensures var log := [Event(1, ts, OrderNew(o))];
            GaplessRestart(log, log, None, map[], 1) && OrderId(o.venue, 1) in Recovered(None, log, map[])
  {
    var log := [Event(1, ts, OrderNew(o))];
    assert log[1..] == [] && Later([], 0) == [] && Later(log, 0) == log;
    assert log[..0] == [];
    assert IsRegistration(log[0], o.orderId);
    NextIdInUseExactly(log, log, None, map[], 1, o.venue);
  }
}
