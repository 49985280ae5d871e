/** One node: a simulated exchange and an execution engine, driven as the determinism
    test drives them (crates/atomic-node/tests/determinism.rs, `TestNode`). */
module Node {
  import opened Types
  import opened Lifecycle
  import opened Execution
  import opened Exchange
  import opened Lockstep
  import opened LockstepRuns
  import opened OrphanRuns

  class Node {
    const exchange: SimulatedExchange
    const engine: ExecutionEngine
    var inflight: seq<Event>

    ghost function Value(): System
      reads this, exchange, engine
    {
      System(exchange.State(), inflight, engine.orders)
    }

    constructor (cfg: Config)
      ensures fresh(exchange) && fresh(engine) && exchange.cfg == cfg
      ensures Value() == System(ExchangeState(map[], map[], [], 1), [], map[]) && engine.nextLocalId == 1
    {
      exchange := new SimulatedExchange(cfg);
      engine := new ExecutionEngine();
      inflight := [];
    }

    /** Every action, carried out by the two objects, is a step of the model. */
    method Perform(a: Action)
      modifies this, exchange, engine
      ensures Step(exchange.cfg, old(Value()), a, Value()) && engine.nextLocalId == old(engine.nextLocalId)
    {
      match a
      case Feed(symbol, bids, asks, isSnapshot) =>
        ghost var ids := exchange.OnBookUpdate(symbol, bids, asks, isSnapshot);
        assert ListsResting(ids, old(Value()).ex.resting, symbol.Pair());
      case Submit(o, ts) =>
        var _ := engine.ProcessEvent(Event(0, ts, OrderNew(o)));
        exchange.SubmitOrder(o, ts);
      case Cancel(id, ts) =>
        exchange.CancelOrder(id, ts);
      case CancelAll(ts) =>
        CancelOpenOrders(ts);
      case Drain(start) =>
        var events := exchange.DrainEvents(start);
        inflight := inflight + events;
      case Deliver =>
        if inflight != [] {
          var _ := engine.ProcessEvent(inflight[0]);
          inflight := inflight[1..];
        }
    }

    method CancelOpenOrders(ts: nat)
      modifies exchange
      ensures Step(exchange.cfg, old(Value()), CancelAll(ts), Value())
    {
      var ids := engine.OpenOrderIds();
      ghost var cfg, before := exchange.cfg, exchange.State();
      for i := 0 to |ids|
        invariant WithdrawnAll(cfg, before, ids, ts) == WithdrawnAll(cfg, exchange.State(), ids[i..], ts)
      {
        assert ids[i..][0] == ids[i] && ids[i..][1..] == ids[i + 1..];
        exchange.CancelOrder(ids[i], ts);
      }
      assert ListsOpen(ids, engine.orders);
      assert Value() == old(Value()).(ex := WithdrawnAll(cfg, old(Value()).ex, ids, ts));
    }

    /** A whole session. Under unused ids the engine ends up holding every resting order, and nothing else exactly
        if no order was orphaned on the way. */
    method Play(actions: seq<Action>) returns (ghost trace: seq<System>)
      requires Value() == System(ExchangeState(map[], map[], [], 1), [], map[])
      modifies this, exchange, engine
      ensures IsRun(exchange.cfg, trace, actions) && trace[|actions|] == Value()
      ensures FreshIds(trace, actions, |actions|) && Due(Value()) == []
              ==> Covers(exchange.resting, engine.orders)
                  && (NoOrphans(trace, actions, |actions|) <==> NoneLost(exchange.resting, engine.orders))
    {
      trace := [Value()];
      for i := 0 to |actions|
        invariant IsRun(exchange.cfg, trace, actions[..i]) && trace[i] == Value()
      {
        Perform(actions[i]);
        Extend(exchange.cfg, trace, actions[..i], actions[i], Value());
        assert actions[..i] + [actions[i]] == actions[..i + 1];
        trace := trace + [Value()];
      }
      assert actions[..|actions|] == actions;
      if FreshIds(trace, actions, |actions|) && Due(Value()) == [] {
        InLockstepExactly(exchange.cfg, trace, actions, |actions|);
      }
    }
  }
}
