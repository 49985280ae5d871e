/** What a sweep over resting orders does, in terms of the orders and the two sides of the book alone
    (crates/atomic-execution/src/simulator.rs, `check_resting_orders`). */
module Sweeps {
  import opened Types
  import opened PriceLevels
  import opened Matching
  import opened Lifecycle
  import opened Exchange
  import opened Lockstep
  import opened LockstepRuns
  import opened Confluence
  import opened Submissions

  /** A resting purchase is reached by an ask at or below its price, a resting sale by a bid at or above it. */
  ghost predicate Reached(books: map<string, Book>, o: SimOrder) {
    if o.side.Buy? then exists p :: p in AsksOf(books, o.symbol.Pair()) && p <= o.price
    else exists p :: p in BidsOf(books, o.symbol.Pair()) && p >= o.price
  }

  /** The one report about an order that was filled: whole, at its own price, as a maker. */
  predicate ReportsMaker(cfg: Config, o: SimOrder, e: Stamped) {
    && e.timestamp == o.submittedAt + cfg.fillLatency && e.payload.OrderFill? && e.payload.fillId == o.orderId
    && (var f := e.payload.fill;
        && f.symbol == o.symbol && f.side == o.side && f.price == o.price && f.qty == o.remaining && f.remaining == 0
        && f.isMaker && IsFee(o.price, o.remaining, cfg.makerFeeBps, f.fee))
  }

  /** A sweep of a pair: the orders of the pair that are reached leave with one such report each, all others stay as they
      are and are not reported. */
  ghost predicate IsSweep(cfg: Config, st: ExchangeState, pair: string, reports: seq<Event>, st': ExchangeState) {
    && st'.books == st.books && st'.nextId == st.nextId && st'.pending == st.pending + reports
    && forall id :: SweptOne(cfg, st, pair, reports, st', id)
  }

  ghost predicate SweptOne(cfg: Config, st: ExchangeState, pair: string, reports: seq<Event>, st': ExchangeState, id: string) {
    if id in st.resting && st.resting[id].symbol.Pair() == pair && Reached(st.books, st.resting[id])
    then id !in st'.resting && |Projection(reports, id)| == 1 && ReportsMaker(cfg, st.resting[id], Projection(reports, id)[0])
    else Projection(reports, id) == [] && (id in st'.resting <==> id in st.resting)
         && (id in st.resting ==> st'.resting[id] == st.resting[id])
  }

  lemma ReachedExactly(books: map<string, Book>, o: SimOrder)
    ensures CanCross(books, o) <==> Reached(books, o)
  {
    CrossMeansMatchable(books, o);
    if p :| p in Facing(books, o.symbol.Pair(), o.side) && Within(o.side, Some(o.price), p) {
      if o.side.Buy? {
        assert p in AsksOf(books, o.symbol.Pair()) && p <= o.price;
      } else {
        assert p in BidsOf(books, o.symbol.Pair()) && p >= o.price;
      }
    }
    if Reached(books, o) {
      var p :| p in Facing(books, o.symbol.Pair(), o.side) && if o.side.Buy? then p <= o.price else p >= o.price;
      assert Within(o.side, Some(o.price), p);
    }
  }

  /** Every walk over the resting orders of a pair is such a sweep. */
  lemma CheckedIsSweep(cfg: Config, st: ExchangeState, pair: string, ids: seq<string>)
    requires ListsResting(ids, st.resting, pair) && forall id :: id in st.resting ==> st.resting[id].orderId == id
    ensures IsSweep(cfg, st, pair, Gathered(Crossing(cfg, st), ids), Checked(cfg, st, ids))
  {
    CheckedLeaves(cfg, st, ids);
    CheckedReports(cfg, st, ids);
    ReportsAboutKeys(cfg, st, 0);
    forall id ensures SweptOne(cfg, st, pair, Gathered(Crossing(cfg, st), ids), Checked(cfg, st, ids), id) {
      GatheredProjection(Crossing(cfg, st), ids, id);
      if id in st.resting {
        var o := st.resting[id];
        ReachedExactly(st.books, o);
        FeeIs(o.price, o.remaining, cfg.makerFeeBps);
      }
    }
  }

  /** A resting order that is withdrawn is reported canceled and leaves; nothing else changes. */
  lemma WithdrawnIs(cfg: Config, st: ExchangeState, id: string, ts: nat)
    ensures Withdrawn(cfg, st, id, ts)
            == if id !in st.resting then st
               else st.(resting := map x | x in st.resting && x != id :: st.resting[x],
                        pending := st.pending + [Event(0, ts + cfg.ackLatency, OrderCancel(id, "user_cancel"))])
  {
  }
}
