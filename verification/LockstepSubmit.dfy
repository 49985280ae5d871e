/** What submitting one order does to the exchange and, through its reports, to the
    engine: acknowledgement, fills, expiry, rest or rejection. */
module LockstepSubmit {
  import opened Types
  import opened PriceLevels
  import opened Matching
  import opened Lifecycle
  import opened Exchange
  import opened Lockstep

  /** The engine's entry after a run of fills. */
  function Filling(e: LiveOrder, fills: seq<Fill>, ts: nat): LiveOrder {
    if fills == [] then e
    else
      var filled := e.filledQty + FilledQty(fills);
      e.(filledQty := filled, remainingQty := SaturatingSub(e.originalQty, filled),
         state := if filled >= e.originalQty then Filled else PartialFill, updatedAt := ts)
  }

  lemma {:induction false} FillsAreTruthful(cfg: Config, m: Orders, o: NewOrder, fills: seq<Fill>, before: nat, ts: nat)
    requires o.orderId in m && Working(m[o.orderId].state)
    requires m[o.orderId].filledQty + before == m[o.orderId].originalQty
    requires FilledQty(fills) <= before && forall i :: 0 <= i < |fills| ==> fills[i].qty > 0
    ensures AllTruthful(m, FillEvents(cfg, o, fills, before, ts))
    ensures Run(m, FillEvents(cfg, o, fills, before, ts)) == m[o.orderId := Filling(m[o.orderId], fills, ts)]
    decreases |fills|
  {
    var id := o.orderId;
    if fills == [] {
      assert m == m[id := m[id]];
    } else {
      var rest := SaturatingSub(before, fills[0].qty);
      var e := FillEvent(cfg, o, fills[0], rest, ts);
      var es := FillEvents(cfg, o, fills, before, ts);
      assert es[0] == e && es[1..] == FillEvents(cfg, o, fills[1..], rest, ts);
      OneFill(cfg, m, o, fills[0], before, ts);
      if fills[1..] == [] {
        assert es[1..] == [];
        assert Run(m, es) == Post(m, e);
      } else {
        SomeFilled(fills[1..]);
        var m' := Post(m, e);
        FillsAreTruthful(cfg, m', o, fills[1..], rest, ts);
        assert m'[id := Filling(m'[id], fills[1..], ts)] == m[id := Filling(m[id], fills, ts)];
      }
    }
  }

  lemma SomeFilled(fills: seq<Fill>)
    requires fills != [] && forall i :: 0 <= i < |fills| ==> fills[i].qty > 0
    ensures FilledQty(fills) > 0
  {
  }

  lemma OneFill(cfg: Config, m: Orders, o: NewOrder, f: Fill, before: nat, ts: nat)
    requires o.orderId in m && Working(m[o.orderId].state)
    requires m[o.orderId].filledQty + before == m[o.orderId].originalQty
    requires f.qty <= before
    ensures var e := FillEvent(cfg, o, f, SaturatingSub(before, f.qty), ts);
            && Truthful(m, e) && Post(m, e) == m[o.orderId := Filling(m[o.orderId], [f], ts)]
            && (f.qty < before ==> Working(Post(m, e)[o.orderId].state))
  {
    assert [f][1..] == [];
    assert FilledQty([f]) == f.qty;
  }

  /** How an accepted order ends up in the engine once its own reports have arrived. */
  function Outcome(cfg: Config, ex: ExchangeState, o: NewOrder, ts: nat): LiveOrder {
    var born := Fresh(o, ts);
    if RejectReason(ex.books, o).Some? then born.(state := Rejected, updatedAt := ts + cfg.ackLatency)
    else
      var r := MatchFor(ex.books, o);
      var acked := born.(state := Ack, exchangeOrderId := Some(ExchangeId(ex.nextId)), updatedAt := ts + cfg.ackLatency);
      var filled := Filling(acked, r.fills, ts + cfg.fillLatency);
      if r.remaining > 0 && o.tif.ImmediateOrCancel?
      then filled.(state := Canceled, updatedAt := ts + cfg.fillLatency)
      else filled
  }

  lemma OutcomeState(cfg: Config, ex: ExchangeState, o: NewOrder, ts: nat)
    ensures var e := Outcome(cfg, ex, o, ts);
            var r := MatchFor(ex.books, o);
            && !e.state.New? && e.symbol == o.symbol && e.side == o.side && e.price == o.price
            && (RejectReason(ex.books, o).None? ==> e.remainingQty == r.remaining)
            && (Working(e.state) <==> RejectReason(ex.books, o).None? && !(r.remaining > 0 && o.tif.ImmediateOrCancel?)
                                      && (r.remaining > 0 || o.qty == 0))
  {
    var r := MatchFor(ex.books, o);
    MatchedIsMatch(Facing(ex.books, o.symbol.Pair(), o.side), o.side, o.qty, LimitOf(o));
    if r.fills == [] {
      assert FilledQty(r.fills) == 0;
    } else {
      SomeFilled(r.fills);
    }
  }

  lemma ReportsAreTruthful(cfg: Config, m: Orders, ex: ExchangeState, o: NewOrder, ts: nat)
    requires o.orderId in m && m[o.orderId] == Fresh(o, ts)
    ensures AllTruthful(m, SubmitReports(cfg, ex, o, ts))
    ensures Run(m, SubmitReports(cfg, ex, o, ts)) == m[o.orderId := Outcome(cfg, ex, o, ts)]
  {
    var es := SubmitReports(cfg, ex, o, ts);
    if RejectReason(ex.books, o).Some? {
      assert es[1..] == [];
      assert Run(m, es) == Post(m, es[0]);
    } else {
      AcceptedReports(cfg, m, ex, o, ts);
    }
  }

  lemma AckIsTruthful(cfg: Config, m: Orders, ex: ExchangeState, o: NewOrder, ts: nat)
    requires o.orderId in m && m[o.orderId] == Fresh(o, ts)
    ensures var acked := Fresh(o, ts).(state := Ack, exchangeOrderId := Some(ExchangeId(ex.nextId)), updatedAt := ts + cfg.ackLatency);
            && AllTruthful(m, [AckEvent(cfg, o, ex.nextId, ts)])
            && Run(m, [AckEvent(cfg, o, ex.nextId, ts)]) == m[o.orderId := acked]
  {
    var ack := AckEvent(cfg, o, ex.nextId, ts);
    assert Truthful(m, ack);
    assert [ack][1..] == [];
  }

  /** The fills of an accepted order and its expiry, if it comes to that. */
  lemma FillsAndExpiry(cfg: Config, m: Orders, acked: LiveOrder, o: NewOrder, r: MatchResult, ts: nat)
    requires o.orderId in m && m[o.orderId] == acked && acked.state.Ack? && acked.filledQty == 0
    requires acked.originalQty == acked.remainingQty == o.qty && acked.orderId == o.orderId
    requires FilledQty(r.fills) + r.remaining == o.qty && forall i :: 0 <= i < |r.fills| ==> r.fills[i].qty > 0
    ensures var fills := FillEvents(cfg, o, r.fills, o.qty, ts + cfg.fillLatency);
            var expiry := ExpiryEvents(cfg, o, r.remaining, ts);
            var filled := Filling(acked, r.fills, ts + cfg.fillLatency);
            && AllTruthful(m, fills) && AllTruthful(Run(m, fills), expiry)
            && Run(Run(m, fills), expiry)
               == m[o.orderId := if expiry == [] then filled else filled.(state := Canceled, updatedAt := ts + cfg.fillLatency)]
  {
    FillsAreTruthful(cfg, m, o, r.fills, o.qty, ts + cfg.fillLatency);
    ExpiryIsTruthful(cfg, Run(m, FillEvents(cfg, o, r.fills, o.qty, ts + cfg.fillLatency)), o, r.remaining, ts);
  }

  lemma OutcomeIs(cfg: Config, ex: ExchangeState, o: NewOrder, ts: nat, acked: LiveOrder, r: MatchResult)
    requires RejectReason(ex.books, o).None? && r == MatchFor(ex.books, o)
    requires acked == Fresh(o, ts).(state := Ack, exchangeOrderId := Some(ExchangeId(ex.nextId)), updatedAt := ts + cfg.ackLatency)
    ensures var filled := Filling(acked, r.fills, ts + cfg.fillLatency);
            Outcome(cfg, ex, o, ts)
            == if ExpiryEvents(cfg, o, r.remaining, ts) == [] then filled
               else filled.(state := Canceled, updatedAt := ts + cfg.fillLatency)
  {
  }

  lemma ReportsInOrder(cfg: Config, ex: ExchangeState, o: NewOrder, ts: nat)
    requires RejectReason(ex.books, o).None?
    ensures var r := MatchFor(ex.books, o);
            SubmitReports(cfg, ex, o, ts)
            == [AckEvent(cfg, o, ex.nextId, ts)] + FillEvents(cfg, o, r.fills, o.qty, ts + cfg.fillLatency)
               + ExpiryEvents(cfg, o, r.remaining, ts)
  {
  }

  lemma FillsAddUp(ex: ExchangeState, o: NewOrder)
    ensures var r := MatchFor(ex.books, o);
            FilledQty(r.fills) + r.remaining == o.qty && forall i :: 0 <= i < |r.fills| ==> r.fills[i].qty > 0
  {
    MatchedIsMatch(Facing(ex.books, o.symbol.Pair(), o.side), o.side, o.qty, LimitOf(o));
  }

  lemma AcceptedReports(cfg: Config, m: Orders, ex: ExchangeState, o: NewOrder, ts: nat)
    requires o.orderId in m && m[o.orderId] == Fresh(o, ts)
    requires RejectReason(ex.books, o).None?
    ensures AllTruthful(m, SubmitReports(cfg, ex, o, ts))
    ensures Run(m, SubmitReports(cfg, ex, o, ts)) == m[o.orderId := Outcome(cfg, ex, o, ts)]
  {
    var r := MatchFor(ex.books, o);
    ReportsInOrder(cfg, ex, o, ts);
    FillsAddUp(ex, o);
    AckIsTruthful(cfg, m, ex, o, ts);
    var acked := Fresh(o, ts).(state := Ack, exchangeOrderId := Some(ExchangeId(ex.nextId)), updatedAt := ts + cfg.ackLatency);
    FillsAndExpiry(cfg, m[o.orderId := acked], acked, o, r, ts);
    OutcomeIs(cfg, ex, o, ts, acked, r);
    var fills, expiry := FillEvents(cfg, o, r.fills, o.qty, ts + cfg.fillLatency), ExpiryEvents(cfg, o, r.remaining, ts);
    Chain(m, [AckEvent(cfg, o, ex.nextId, ts)], fills, expiry);
  }

  lemma Chain(m: Orders, a: seq<Event>, b: seq<Event>, c: seq<Event>)
    ensures Run(m, a + b + c) == Run(Run(Run(m, a), b), c)
    ensures AllTruthful(m, a + b + c) <==> AllTruthful(m, a) && AllTruthful(Run(m, a), b) && AllTruthful(Run(Run(m, a), b), c)
  {
    RunConcat(m, a, b);
    RunConcat(m, a + b, c);
    TruthfulConcat(m, a, b);
    TruthfulConcat(m, a + b, c);
  }

  lemma ExpiryIsTruthful(cfg: Config, m: Orders, o: NewOrder, remaining: nat, ts: nat)
    requires o.orderId in m && (remaining > 0 ==> Working(m[o.orderId].state))
    ensures var es := ExpiryEvents(cfg, o, remaining, ts);
            && AllTruthful(m, es)
            && Run(m, es) == if es == [] then m
                             else m[o.orderId := m[o.orderId].(state := Canceled, updatedAt := ts + cfg.fillLatency)]
  {
    var es := ExpiryEvents(cfg, o, remaining, ts);
    if es != [] {
      assert es[1..] == [];
      assert Run(m, es) == Post(m, es[0]);
    }
  }

  /** A submission under an unused id keeps the resting orders covered, and loses track of an order exactly
      when the order is orphaned. */
  lemma SubmitLinks(cfg: Config, s: System, o: NewOrder, ts: nat)
    requires HalfInv(s) && o.orderId !in s.orders
    ensures var ex' := Submitted(cfg, s.ex, o, ts);
            var orders' := Post(s.orders, Registration(o, ts));
            && Covered(orders', s.inflight + ex'.pending, ex'.resting)
            && (NoneLost(ex'.resting, Run(orders', s.inflight + ex'.pending))
                <==> NoneLost(s.ex.resting, Run(s.orders, Due(s))) && !Orphans(s.ex, o))
  {
    SubmitSettles(cfg, s.orders, s.inflight, s.ex, o, ts);
    CoversAfterSubmit(cfg, s.ex, Run(s.orders, Due(s)), o, ts);
    LostAfterSubmit(cfg, s.ex, Run(s.orders, Due(s)), o, ts);
  }

  /** Under an id that is in use, the acknowledgement or rejection of a submission is refused. */
  lemma ReusedIdRefused(cfg: Config, s: System, o: NewOrder, ts: nat)
    requires HalfInv(s) && o.orderId in s.orders
    ensures var ex' := Submitted(cfg, s.ex, o, ts);
            Post(s.orders, Registration(o, ts)) == s.orders && !AllTruthful(s.orders, s.inflight + ex'.pending)
  {
    var reports := SubmitReports(cfg, s.ex, o, ts);
    var m := Run(s.orders, Due(s));
    QueueAfterSubmit(cfg, s.inflight, s.ex, o, ts);
    TruthfulConcat(s.orders, Due(s), reports);
    ReportsKeepIds(s.orders, Due(s));
    FirstReportRefused(cfg, m, s.ex, o, ts);
  }

  lemma FirstReportRefused(cfg: Config, m: Orders, ex: ExchangeState, o: NewOrder, ts: nat)
    requires o.orderId in m && !m[o.orderId].state.New?
    ensures SubmitReports(cfg, ex, o, ts) != [] && !Truthful(m, SubmitReports(cfg, ex, o, ts)[0])
  {
    var e := SubmitReports(cfg, ex, o, ts)[0];
    assert Subject(e.payload) == Some(o.orderId);
    assert Lookup(m, o.orderId) == Some(m[o.orderId]);
  }

  lemma {:induction false} ReportsKeepIds(orders: Orders, es: seq<Event>)
    requires AllTruthful(orders, es)
    ensures Run(orders, es).Keys == orders.Keys
    decreases |es|
  {
    if es != [] {
      assert Post(orders, es[0]).Keys == orders.Keys;
      ReportsKeepIds(Post(orders, es[0]), es[1..]);
    }
  }

  /** Reports of a new order queue up behind those already due and leave them undisturbed. */
  lemma SubmitSettles(cfg: Config, orders: Orders, inflight: seq<Event>, ex: ExchangeState, o: NewOrder, ts: nat)
    requires AllSound(orders) && o.orderId !in orders && AllTruthful(orders, inflight + ex.pending)
    ensures var orders' := Post(orders, Registration(o, ts));
            var due' := inflight + Submitted(cfg, ex, o, ts).pending;
            && AllSound(orders') && AllTruthful(orders', due')
            && o.orderId !in Run(orders, inflight + ex.pending)
            && Run(orders', due') == Run(orders, inflight + ex.pending)[o.orderId := Outcome(cfg, ex, o, ts)]
  {
    var due := inflight + ex.pending;
    RegisterSettles(orders, due, o, ts);
    ReportsAreTruthful(cfg, Run(orders, due)[o.orderId := Fresh(o, ts)], ex, o, ts);
    Enqueue(Post(orders, Registration(o, ts)), due, SubmitReports(cfg, ex, o, ts));
    QueueAfterSubmit(cfg, inflight, ex, o, ts);
  }

  lemma QueueAfterSubmit(cfg: Config, inflight: seq<Event>, ex: ExchangeState, o: NewOrder, ts: nat)
    ensures inflight + Submitted(cfg, ex, o, ts).pending == inflight + ex.pending + SubmitReports(cfg, ex, o, ts)
  {
  }

  lemma RegisterSettles(orders: Orders, due: seq<Event>, o: NewOrder, ts: nat)
    requires AllSound(orders) && o.orderId !in orders && AllTruthful(orders, due)
    ensures var orders' := Post(orders, Registration(o, ts));
            && AllSound(orders') && AllTruthful(orders', due)
            && o.orderId !in Run(orders, due)
            && Run(orders', due) == Run(orders, due)[o.orderId := Fresh(o, ts)]
  {
    PostKeepsSound(orders, Registration(o, ts));
    assert Post(orders, Registration(o, ts)) == orders[o.orderId := Fresh(o, ts)];
    RegisterAhead(orders, due, o.orderId, Fresh(o, ts));
  }

  lemma Enqueue(orders: Orders, due: seq<Event>, reports: seq<Event>)
    requires AllTruthful(orders, due) && AllTruthful(Run(orders, due), reports)
    ensures AllTruthful(orders, due + reports)
    ensures Run(orders, due + reports) == Run(Run(orders, due), reports)
  {
    RunConcat(orders, due, reports);
    TruthfulConcat(orders, due, reports);
  }

  lemma CoversAfterSubmit(cfg: Config, ex: ExchangeState, m: Orders, o: NewOrder, ts: nat)
    requires Covers(ex.resting, m) && o.orderId !in m
    ensures Covers(Submitted(cfg, ex, o, ts).resting, m[o.orderId := Outcome(cfg, ex, o, ts)])
  {
    OutcomeState(cfg, ex, o, ts);
  }

  lemma LostAfterSubmit(cfg: Config, ex: ExchangeState, m: Orders, o: NewOrder, ts: nat)
    requires Covers(ex.resting, m) && o.orderId !in m
    ensures NoneLost(Submitted(cfg, ex, o, ts).resting, m[o.orderId := Outcome(cfg, ex, o, ts)])
            <==> NoneLost(ex.resting, m) && !Orphans(ex, o)
  {
    var id := o.orderId;
    var m' := m[id := Outcome(cfg, ex, o, ts)];
    var resting' := Submitted(cfg, ex, o, ts).resting;
    OrphanIsLost(cfg, ex, o, ts);
    assert id !in ex.resting;
    if NoneLost(resting', m') {
      assert id in m';
      forall x | x in m && Working(m[x].state) ensures x in ex.resting {
        assert m'[x] == m[x];
      }
    }
  }

  /** An order is orphaned if it ends up open in the engine without resting in the exchange. */
  lemma OrphanIsLost(cfg: Config, ex: ExchangeState, o: NewOrder, ts: nat)
    requires o.orderId !in ex.resting
    ensures Working(Outcome(cfg, ex, o, ts).state) && o.orderId !in Submitted(cfg, ex, o, ts).resting <==> Orphans(ex, o)
    ensures o.orderId in Submitted(cfg, ex, o, ts).resting ==> Working(Outcome(cfg, ex, o, ts).state)
  {
    var r := MatchFor(ex.books, o);
    OutcomeState(cfg, ex, o, ts);
    LeftOver(Facing(ex.books, o.symbol.Pair(), o.side), o.side, o.qty, LimitOf(o));
    assert o.orderId in Submitted(cfg, ex, o, ts).resting <==> RejectReason(ex.books, o).None? && Rests(o, r.remaining);
  }
}
