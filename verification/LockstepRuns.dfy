/** The two theorems about every run of exchange and engine: no resting order ever
    crosses, and the engine never refuses a report and ends up agreeing with the exchange. */
module LockstepRuns {
  import opened Types
  import opened PriceLevels
  import opened Matching
  import opened Lifecycle
  import opened Exchange
  import opened Lockstep
  import opened LockstepSubmit

  // ---- What a sweep over resting orders leaves ----

  /** A sweep removes exactly the listed orders that can cross, in whatever order it visits them. */
  lemma {:induction false} CheckedLeaves(cfg: Config, st: ExchangeState, ids: seq<string>)
    ensures var st' := Checked(cfg, st, ids);
            && st'.books == st.books && st'.nextId == st.nextId
            && st'.resting == map id | id in st.resting && !(id in ids && CanCross(st.books, st.resting[id])) :: st.resting[id]
    decreases |ids|
  {
    if ids == [] {
      assert st.resting == map id | id in st.resting :: st.resting[id];
    } else {
      CheckedLeaves(cfg, CheckOne(cfg, st, ids[0]), ids[1..]);
      assert forall id :: id in ids <==> id == ids[0] || id in ids[1..];
    }
  }

  lemma CrossMeansMatchable(books: map<string, Book>, o: SimOrder)
    ensures CanCross(books, o) <==> exists p :: p in Facing(books, o.symbol.Pair(), o.side) && Within(o.side, Some(o.price), p)
  {
    var facing := Facing(books, o.symbol.Pair(), o.side);
    if facing != map[] {
      var b := Best(o.side, facing.Keys);
      if p :| p in facing && Within(o.side, Some(o.price), p) {
        assert NoWorse(o.side, b, p);
      }
    }
  }

  // ---- No resting order crosses ----

  lemma FeedKeepsExchange(cfg: Config, ex: ExchangeState, pair: string, bids: seq<Level>, asks: seq<Level>, isSnapshot: bool, ids: seq<string>)
    requires ExchangeInv(ex) && ListsResting(ids, ex.resting, pair)
    ensures ExchangeInv(Checked(cfg, BookFed(ex, pair, bids, asks, isSnapshot), ids))
  {
    var fed := BookFed(ex, pair, bids, asks, isSnapshot);
    var ex' := Checked(cfg, fed, ids);
    CheckedLeaves(cfg, fed, ids);
    forall id, p | id in ex'.resting && p in Facing(ex'.books, ex'.resting[id].symbol.Pair(), ex'.resting[id].side)
      ensures !Within(ex'.resting[id].side, Some(ex'.resting[id].price), p)
    {
      var o := ex.resting[id];
      if o.symbol.Pair() == pair {
        assert id in ids;
        CrossMeansMatchable(fed.books, o);
      } else {
        assert Facing(fed.books, o.symbol.Pair(), o.side) == Facing(ex.books, o.symbol.Pair(), o.side);
      }
    }
  }

  lemma MatchedShrinks(levels: Levels, side: Side, qty: nat, limit: Option<int>, p: int)
    requires p in Matched(levels, side, qty, limit).levels
    ensures p in levels
    ensures Matched(levels, side, qty, limit).remaining > 0 ==> !Within(side, limit, p)
  {
    MatchedIsMatch(levels, side, qty, limit);
    assert QtyAt(levels, p) > 0;
  }

  lemma SubmitKeepsExchange(cfg: Config, ex: ExchangeState, o: NewOrder, ts: nat)
    requires ExchangeInv(ex)
    ensures ExchangeInv(Submitted(cfg, ex, o, ts))
  {
    if RejectReason(ex.books, o).None? {
      var ex' := Submitted(cfg, ex, o, ts);
      forall id, p | id in ex'.resting && p in Facing(ex'.books, ex'.resting[id].symbol.Pair(), ex'.resting[id].side)
        ensures !Within(ex'.resting[id].side, Some(ex'.resting[id].price), p)
      {
        FacingAfterSubmit(cfg, ex, o, ts, ex'.resting[id].symbol.Pair(), ex'.resting[id].side, p);
      }
    }
  }

  /** A submission takes liquidity away and adds none; what it leaves for itself it could not match. */
  lemma FacingAfterSubmit(cfg: Config, ex: ExchangeState, o: NewOrder, ts: nat, pair: string, side: Side, p: int)
    requires RejectReason(ex.books, o).None?
    requires p in Facing(Submitted(cfg, ex, o, ts).books, pair, side)
    ensures p in Facing(ex.books, pair, side)
    ensures pair == o.symbol.Pair() && side == o.side && MatchFor(ex.books, o).remaining > 0
            ==> !Within(side, LimitOf(o), p)
  {
    if pair == o.symbol.Pair() && side == o.side {
      assert p in MatchFor(ex.books, o).levels;
      MatchedShrinks(Facing(ex.books, pair, side), side, o.qty, LimitOf(o), p);
    }
  }

  lemma {:induction false} CancelsKeepExchange(cfg: Config, ex: ExchangeState, ids: seq<string>, ts: nat)
    requires ExchangeInv(ex)
    ensures ExchangeInv(WithdrawnAll(cfg, ex, ids, ts))
    decreases |ids|
  {
    if ids != [] {
      CancelsKeepExchange(cfg, Withdrawn(cfg, ex, ids[0], ts), ids[1..], ts);
    }
  }

  lemma StepKeepsExchange(cfg: Config, s: System, a: Action, s': System)
    requires ExchangeInv(s.ex) && Step(cfg, s, a, s')
    ensures ExchangeInv(s'.ex)
  {
    match a
    case Feed(symbol, bids, asks, isSnapshot) =>
      var ids :| ListsResting(ids, s.ex.resting, symbol.Pair())
                 && s' == s.(ex := Checked(cfg, BookFed(s.ex, symbol.Pair(), bids, asks, isSnapshot), ids));
      FeedKeepsExchange(cfg, s.ex, symbol.Pair(), bids, asks, isSnapshot, ids);
    case Submit(o, ts) =>
      SubmitKeepsExchange(cfg, s.ex, o, ts);
    case Cancel(id, ts) =>
      CancelsKeepExchange(cfg, s.ex, [id], ts);
      assert Withdrawn(cfg, s.ex, id, ts) == WithdrawnAll(cfg, s.ex, [id], ts);
    case CancelAll(ts) =>
      var ids :| ListsOpen(ids, s.orders) && s' == s.(ex := WithdrawnAll(cfg, s.ex, ids, ts));
      CancelsKeepExchange(cfg, s.ex, ids, ts);
    case _ =>
  }

  // ---- Exchange and engine stay linked ----

  /** Going from one queue and set of resting orders to another loses nothing: what was covered stays covered,
      and where no order was lost none is. */
  ghost predicate Keeps(orders: Orders, due: seq<Event>, resting: map<string, SimOrder>,
                        due': seq<Event>, resting': map<string, SimOrder>) {
    && Covered(orders, due', resting')
    && (NoneLost(resting, Run(orders, due)) ==> NoneLost(resting', Run(orders, due')))
  }

  ghost predicate WellKept(resting: map<string, SimOrder>) {
    forall id :: id in resting ==> resting[id].orderId == id && resting[id].remaining > 0
  }

  lemma {:induction false} SweepLinks(cfg: Config, orders: Orders, inflight: seq<Event>, st: ExchangeState, ids: seq<string>)
    requires Covered(orders, inflight + st.pending, st.resting) && WellKept(st.resting)
    ensures Keeps(orders, inflight + st.pending, st.resting,
                  inflight + Checked(cfg, st, ids).pending, Checked(cfg, st, ids).resting)
    decreases |ids|
  {
    if ids != [] {
      var id := ids[0];
      var st' := CheckOne(cfg, st, id);
      if id in st.resting && CanCross(st.books, st.resting[id]) {
        var e := MakerFill(cfg, st.resting[id]);
        CloseOne(orders, inflight + st.pending, st.resting, id, e);
        assert inflight + st.pending + [e] == inflight + st'.pending;
      }
      SweepLinks(cfg, orders, inflight, st', ids[1..]);
    }
  }

  lemma {:induction false} CancelsLink(cfg: Config, orders: Orders, inflight: seq<Event>, st: ExchangeState, ids: seq<string>, ts: nat)
    requires Covered(orders, inflight + st.pending, st.resting) && WellKept(st.resting)
    ensures Keeps(orders, inflight + st.pending, st.resting,
                  inflight + WithdrawnAll(cfg, st, ids, ts).pending, WithdrawnAll(cfg, st, ids, ts).resting)
    decreases |ids|
  {
    if ids != [] {
      var id := ids[0];
      var st' := Withdrawn(cfg, st, id, ts);
      if id in st.resting {
        var e := CancelEvent(cfg, id, ts);
        CloseOne(orders, inflight + st.pending, st.resting, id, e);
        assert inflight + st.pending + [e] == inflight + st'.pending;
      }
      CancelsLink(cfg, orders, inflight, st', ids[1..], ts);
    }
  }

  lemma DrainLinks(s: System, start: nat)
    requires Covered(s.orders, Due(s), s.ex.resting)
    ensures Keeps(s.orders, Due(s), s.ex.resting, s.inflight + Numbered(s.ex.pending, start), s.ex.resting)
  {
    RunConcat(s.orders, s.inflight, s.ex.pending);
    TruthfulConcat(s.orders, s.inflight, s.ex.pending);
    NumberingIsInvisible(Run(s.orders, s.inflight), s.ex.pending, start);
    RunConcat(s.orders, s.inflight, Numbered(s.ex.pending, start));
    TruthfulConcat(s.orders, s.inflight, Numbered(s.ex.pending, start));
  }

  /** The next report is one that the engine accepts, and taking it in changes nothing about
      where both sides are heading. */
  lemma DeliverLinks(s: System)
    requires Covered(s.orders, Due(s), s.ex.resting) && s.inflight != []
    ensures Truthful(s.orders, s.inflight[0])
    ensures Covered(Post(s.orders, s.inflight[0]), s.inflight[1..] + s.ex.pending, s.ex.resting)
    ensures Run(Post(s.orders, s.inflight[0]), s.inflight[1..] + s.ex.pending) == Run(s.orders, Due(s))
  {
    assert Due(s)[0] == s.inflight[0] && Due(s)[1..] == s.inflight[1..] + s.ex.pending;
    PostKeepsSound(s.orders, s.inflight[0]);
  }

  /** Every action under unused ids keeps the resting orders covered, and loses no order unless it orphans one. */
  lemma StepKeepsLinked(cfg: Config, s: System, a: Action, s': System)
    requires HalfInv(s) && Step(cfg, s, a, s') && Unused(s, a)
    ensures Covered(s'.orders, Due(s'), s'.ex.resting)
    ensures NoneLost(s.ex.resting, Run(s.orders, Due(s))) && !Orphaning(s, a) ==> NoneLost(s'.ex.resting, Run(s'.orders, Due(s')))
  {
    match a
    case Feed(symbol, bids, asks, isSnapshot) =>
      var ids :| ListsResting(ids, s.ex.resting, symbol.Pair())
                 && s' == s.(ex := Checked(cfg, BookFed(s.ex, symbol.Pair(), bids, asks, isSnapshot), ids));
      SweepLinks(cfg, s.orders, s.inflight, BookFed(s.ex, symbol.Pair(), bids, asks, isSnapshot), ids);
    case Submit(o, ts) =>
      SubmitLinks(cfg, s, o, ts);
    case Cancel(id, ts) =>
      CancelsLink(cfg, s.orders, s.inflight, s.ex, [id], ts);
      assert Withdrawn(cfg, s.ex, id, ts) == WithdrawnAll(cfg, s.ex, [id], ts);
    case CancelAll(ts) =>
      var ids :| ListsOpen(ids, s.orders) && s' == s.(ex := WithdrawnAll(cfg, s.ex, ids, ts));
      CancelsLink(cfg, s.orders, s.inflight, s.ex, ids, ts);
    case Drain(start) =>
      DrainLinks(s, start);
      assert Due(s') == s.inflight + Numbered(s.ex.pending, start);
    case Deliver =>
      if s.inflight != [] {
        DeliverLinks(s);
      }
  }

  /** Submitting keeps the engine accepting exactly when the id is unused, and keeps the pair in step exactly when
      moreover the order is not orphaned. */
  lemma SubmitExactlyWhen(cfg: Config, s: System, o: NewOrder, ts: nat, s': System)
    requires HalfInv(s) && Step(cfg, s, Submit(o, ts), s')
    ensures HalfInv(s') <==> o.orderId !in s.orders
    ensures Inv(s) ==> (Inv(s') <==> o.orderId !in s.orders && !Orphans(s.ex, o))
  {
    SubmitKeepsExchange(cfg, s.ex, o, ts);
    if o.orderId in s.orders {
      ReusedIdRefused(cfg, s, o, ts);
    } else {
      SubmitLinks(cfg, s, o, ts);
    }
  }

  // ---- Runs ----

  ghost predicate IsRun(cfg: Config, states: seq<System>, actions: seq<Action>) {
    && |states| == |actions| + 1
    && states[0] == System(ExchangeState(map[], map[], [], 1), [], map[])
    && forall i :: 0 <= i < |actions| ==> StepAt(cfg, states, actions, i)
  }

  ghost predicate StepAt(cfg: Config, states: seq<System>, actions: seq<Action>, i: int)
    requires 0 <= i < |actions| && |states| == |actions| + 1
  {
    Step(cfg, states[i], actions[i], states[i + 1])
  }

  /** In every run, whatever is submitted, no resting order can trade with its book. */
  lemma {:induction false} RunsNeverCross(cfg: Config, states: seq<System>, actions: seq<Action>, k: nat)
    requires IsRun(cfg, states, actions) && k < |states|
    ensures ExchangeInv(states[k].ex)
    decreases k
  {
    if k > 0 {
      RunsNeverCross(cfg, states, actions, k - 1);
      StepOf(cfg, states, actions, k);
      StepKeepsExchange(cfg, states[k - 1], actions[k - 1], states[k]);
    }
  }

  lemma StepOf(cfg: Config, states: seq<System>, actions: seq<Action>, k: nat)
    requires IsRun(cfg, states, actions) && 0 < k < |states|
    ensures Step(cfg, states[k - 1], actions[k - 1], states[k])
  {
    assert StepAt(cfg, states, actions, k - 1);
  }

  /** No order is submitted under an id that is in use. */
  ghost predicate FreshIds(states: seq<System>, actions: seq<Action>, k: nat)
    requires k <= |actions| && k <= |states|
  {
    k == 0 || (FreshIds(states, actions, k - 1) && Unused(states[k - 1], actions[k - 1]))
  }

  ghost predicate NoOrphans(states: seq<System>, actions: seq<Action>, k: nat)
    requires k <= |actions| && k <= |states|
  {
    k == 0 || (NoOrphans(states, actions, k - 1) && !Orphaning(states[k - 1], actions[k - 1]))
  }

  lemma StepKeepsHalf(cfg: Config, s: System, a: Action, s': System)
    requires HalfInv(s) && Step(cfg, s, a, s') && Unused(s, a)
    ensures HalfInv(s')
    ensures Inv(s) && !Orphaning(s, a) ==> Inv(s')
  {
    StepKeepsExchange(cfg, s, a, s');
    StepKeepsLinked(cfg, s, a, s');
  }

  lemma {:induction false} RunsKeepHalf(cfg: Config, states: seq<System>, actions: seq<Action>, k: nat)
    requires IsRun(cfg, states, actions) && k < |states| && FreshIds(states, actions, k)
    ensures HalfInv(states[k])
    ensures NoOrphans(states, actions, k) ==> Inv(states[k])
    decreases k
  {
    if k > 0 {
      RunsKeepHalf(cfg, states, actions, k - 1);
      HalfAt(cfg, states, actions, k);
    }
  }

  lemma HalfAt(cfg: Config, states: seq<System>, actions: seq<Action>, k: nat)
    requires IsRun(cfg, states, actions) && 0 < k < |states| && FreshIds(states, actions, k) && HalfInv(states[k - 1])
    ensures HalfInv(states[k])
    ensures Inv(states[k - 1]) && NoOrphans(states, actions, k) ==> Inv(states[k])
  {
    StepOf(cfg, states, actions, k);
    StepKeepsHalf(cfg, states[k - 1], actions[k - 1], states[k]);
  }

  /** In every run under unused ids, with the reports delivered at any pace and whatever was orphaned: the engine
      accepts each report it is handed, and once all are delivered it holds every resting order open with its remainder. */
  lemma EveryReportAccepted(cfg: Config, states: seq<System>, actions: seq<Action>, k: nat)
    requires IsRun(cfg, states, actions) && k < |states| && FreshIds(states, actions, k)
    ensures states[k].inflight != [] ==> Truthful(states[k].orders, states[k].inflight[0])
    ensures Due(states[k]) == [] ==> Covers(states[k].ex.resting, states[k].orders)
  {
    RunsKeepHalf(cfg, states, actions, k);
    if states[k].inflight != [] {
      DeliverLinks(states[k]);
    }
  }

  /** If no order was orphaned either, then whenever no report is due the exchange rests exactly the orders the
      engine holds open. */
  lemma RunsStayInLockstep(cfg: Config, states: seq<System>, actions: seq<Action>, k: nat)
    requires IsRun(cfg, states, actions) && k < |states|
    requires FreshIds(states, actions, k) && NoOrphans(states, actions, k)
    ensures Due(states[k]) == [] ==> Agree(states[k].ex.resting, states[k].orders)
  {
    RunsKeepHalf(cfg, states, actions, k);
  }
}
