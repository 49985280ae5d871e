/** An order that the exchange has lost sight of stays lost: no later report is about it. So exchange and engine
    agree exactly as long as no order was orphaned. */
module OrphanRuns {
  import opened Types
  import opened PriceLevels
  import opened Matching
  import opened Lifecycle
  import opened Exchange
  import opened Lockstep
  import opened LockstepSubmit
  import opened LockstepRuns
  import opened Confluence

  /** The engine holds the order open, or will once all due reports have arrived, but it does not rest. */
  predicate Lost(s: System, id: string) {
    var m := Settled(s);
    id in m && Working(m[id].state) && id !in s.ex.resting
  }

  lemma NoneLostMeans(s: System)
    ensures NoneLost(s.ex.resting, Settled(s)) <==> !exists id :: Lost(s, id)
  {
    if !NoneLost(s.ex.resting, Settled(s)) {
      var id :| id in Settled(s) && Working(Settled(s)[id].state) && id !in s.ex.resting;
      assert Lost(s, id);
    }
  }

  /** Reports about other orders leave an entry alone. */
  lemma GatheredElsewhere(m: Orders, events: map<string, Event>, ids: seq<string>, id: string)
    requires AboutKeys(events) && id !in events
    requires forall i, j :: 0 <= i < j < |ids| ==> ids[i] != ids[j]
    ensures Lookup(Run(m, Gathered(events, ids)), id) == Lookup(m, id)
  {
    GatheredProjection(events, ids, id);
    EntryFollowsProjection(m, Gathered(events, ids), id);
  }

  lemma FeedKeepsLost(cfg: Config, s: System, pair: string, bids: seq<Level>, asks: seq<Level>, isSnapshot: bool,
                      ids: seq<string>, s': System, id: string)
    requires WellKept(s.ex.resting) && ListsResting(ids, s.ex.resting, pair)
    requires FedBy(cfg, s, pair, bids, asks, isSnapshot, ids, s') && Lost(s, id)
    ensures Lost(s', id)
  {
    var fed := BookFed(s.ex, pair, bids, asks, isSnapshot);
    CheckedLeaves(cfg, fed, ids);
    CheckedReports(cfg, fed, ids);
    SettleAfter(s, Gathered(Crossing(cfg, fed), ids), s');
    GatheredElsewhere(Settled(s), Crossing(cfg, fed), ids, id);
  }

  lemma CancelsKeepLost(cfg: Config, s: System, ids: seq<string>, ts: nat, s': System, id: string)
    requires WellKept(s.ex.resting) && forall i, j :: 0 <= i < j < |ids| ==> ids[i] != ids[j]
    requires s' == System(WithdrawnAll(cfg, s.ex, ids, ts), s.inflight, s.orders) && Lost(s, id)
    ensures Lost(s', id)
  {
    WithdrawnReports(cfg, s.ex, ids, ts);
    SettleAfter(s, Gathered(Cancels(cfg, s.ex, ts), ids), s');
    GatheredElsewhere(Settled(s), Cancels(cfg, s.ex, ts), ids, id);
  }

  lemma SubmitKeepsLost(cfg: Config, s: System, o: NewOrder, ts: nat, s': System, id: string)
    requires HalfInv(s) && o.orderId !in s.orders && Step(cfg, s, Submit(o, ts), s') && Lost(s, id)
    ensures Lost(s', id)
  {
    SubmitSettles(cfg, s.orders, s.inflight, s.ex, o, ts);
  }

  lemma TransportKeepsLost(cfg: Config, s: System, a: Action, s': System, id: string)
    requires IsTransport(a) && Step(cfg, s, a, s') && Lost(s, id)
    ensures Lost(s', id)
  {
    TransportKeepsTwin(cfg, s, s, a, s');
  }

  lemma StepKeepsLost(cfg: Config, s: System, a: Action, s': System, id: string)
    requires HalfInv(s) && Unused(s, a) && Step(cfg, s, a, s') && Lost(s, id)
    ensures Lost(s', id)
  {
    match a
    case Feed(symbol, bids, asks, isSnapshot) =>
      var x :| ListsResting(x, s.ex.resting, symbol.Pair())
               && s' == s.(ex := Checked(cfg, BookFed(s.ex, symbol.Pair(), bids, asks, isSnapshot), x));
      FeedKeepsLost(cfg, s, symbol.Pair(), bids, asks, isSnapshot, x, s', id);
    case Submit(o, ts) =>
      SubmitKeepsLost(cfg, s, o, ts, s', id);
    case Cancel(x, ts) =>
      assert Withdrawn(cfg, s.ex, x, ts) == WithdrawnAll(cfg, s.ex, [x], ts);
      CancelsKeepLost(cfg, s, [x], ts, s', id);
    case CancelAll(ts) =>
      var x :| ListsOpen(x, s.orders) && s' == s.(ex := WithdrawnAll(cfg, s.ex, x, ts));
      CancelsKeepLost(cfg, s, x, ts, s', id);
    case _ =>
      TransportKeepsLost(cfg, s, a, s', id);
  }

  /** One step keeps exchange and engine in agreement exactly if it orphans no order. */
  lemma StepInvExactly(cfg: Config, s: System, a: Action, s': System)
    requires HalfInv(s) && Unused(s, a) && Step(cfg, s, a, s')
    ensures HalfInv(s') && (Inv(s') <==> Inv(s) && !Orphaning(s, a))
  {
    StepKeepsHalf(cfg, s, a, s');
    NoneLostMeans(s);
    NoneLostMeans(s');
    if !Inv(s) {
      var id :| Lost(s, id);
      StepKeepsLost(cfg, s, a, s', id);
    } else if a.Submit? {
      SubmitExactlyWhen(cfg, s, a.order, a.submitTs, s');
    }
  }

  /** In every run under unused ids, exchange and engine agree up to reports on the way exactly if no order was
      orphaned so far; so an orphan is never healed. */
  lemma {:induction false} InLockstepExactly(cfg: Config, states: seq<System>, actions: seq<Action>, k: nat)
    requires IsRun(cfg, states, actions) && k < |states| && FreshIds(states, actions, k)
    ensures HalfInv(states[k]) && (Inv(states[k]) <==> NoOrphans(states, actions, k))
    decreases k
  {
    if k == 0 {
      RunsKeepHalf(cfg, states, actions, 0);
    } else {
      InLockstepExactly(cfg, states, actions, k - 1);
      InvAt(cfg, states, actions, k);
    }
  }

  lemma InvAt(cfg: Config, states: seq<System>, actions: seq<Action>, k: nat)
    requires IsRun(cfg, states, actions) && 0 < k < |states| && FreshIds(states, actions, k) && HalfInv(states[k - 1])
    ensures HalfInv(states[k]) && (Inv(states[k]) <==> Inv(states[k - 1]) && !Orphaning(states[k - 1], actions[k - 1]))
  {
    StepOf(cfg, states, actions, k);
    StepInvExactly(cfg, states[k - 1], actions[k - 1], states[k]);
  }

  // ---- An orphan that comes to light ----

  lemma Extend(cfg: Config, states: seq<System>, actions: seq<Action>, a: Action, s': System)
    requires IsRun(cfg, states, actions) && Step(cfg, states[|actions|], a, s')
    ensures IsRun(cfg, states + [s'], actions + [a])
  {
    var ss, xs := states + [s'], actions + [a];
    forall i | 0 <= i < |xs| ensures StepAt(cfg, ss, xs, i) {
      if i < |actions| {
        assert StepAt(cfg, states, actions, i);
      }
    }
  }

  lemma {:induction false} SamePrefix(states: seq<System>, actions: seq<Action>, ss: seq<System>, xs: seq<Action>, k: nat)
    requires k <= |actions| <= |xs| && k <= |states| <= |ss| && states <= ss && actions <= xs
    ensures FreshIds(ss, xs, k) == FreshIds(states, actions, k) && NoOrphans(ss, xs, k) == NoOrphans(states, actions, k)
  {
    if k > 0 {
      SamePrefix(states, actions, ss, xs, k - 1);
    }
  }

  /** Draining and delivering can complete every run, and change nothing but what is still on its way. */
  lemma {:induction false} EveryRunSettles(cfg: Config, states: seq<System>, actions: seq<Action>) returns (ss: seq<System>, xs: seq<Action>)
    requires IsRun(cfg, states, actions)
    ensures IsRun(cfg, ss, xs) && states <= ss && actions <= xs
    ensures FreshIds(states, actions, |actions|) ==> FreshIds(ss, xs, |xs|)
    ensures NoOrphans(states, actions, |actions|) <==> NoOrphans(ss, xs, |xs|)
    ensures Due(ss[|xs|]) == [] && Twin(ss[|xs|], states[|actions|])
    decreases 2 * |states[|actions|].ex.pending| + |states[|actions|].inflight|
  {
    var s := states[|actions|];
    if s.ex.pending == [] && s.inflight == [] {
      return states, actions;
    }
    var a := if s.ex.pending != [] then Drain(0) else Deliver;
    var s' := if s.ex.pending != [] then s.(ex := s.ex.(pending := []), inflight := s.inflight + Numbered(s.ex.pending, 0))
              else s.(inflight := s.inflight[1..], orders := Post(s.orders, s.inflight[0]));
    Extend(cfg, states, actions, a, s');
    TransportKeepsTwin(cfg, s, s, a, s');
    SamePrefix(states, actions, states + [s'], actions + [a], |actions|);
    ss, xs := EveryRunSettles(cfg, states + [s'], actions + [a]);
  }

  /** Every run that orphaned an order leads, by deliveries alone, to a state in which nothing is on its way and the
      engine still holds an order open that does not rest. */
  lemma OrphansComeToLight(cfg: Config, states: seq<System>, actions: seq<Action>) returns (ss: seq<System>, xs: seq<Action>, id: string)
    requires IsRun(cfg, states, actions) && FreshIds(states, actions, |actions|) && !NoOrphans(states, actions, |actions|)
    ensures IsRun(cfg, ss, xs) && states <= ss && actions <= xs && Due(ss[|xs|]) == []
    ensures id in ss[|xs|].orders && Working(ss[|xs|].orders[id].state) && id !in ss[|xs|].ex.resting
  {
    ss, xs := EveryRunSettles(cfg, states, actions);
    InLockstepExactly(cfg, ss, xs, |xs|);
    NoneLostMeans(ss[|xs|]);
    id :| Lost(ss[|xs|], id);
  }

  lemma AddAction(cfg: Config, states: seq<System>, actions: seq<Action>, a: Action, s': System) returns (ss: seq<System>)
    requires IsRun(cfg, states, actions) && FreshIds(states, actions, |actions|)
    requires Step(cfg, states[|actions|], a, s') && Unused(states[|actions|], a)
    ensures IsRun(cfg, ss, actions + [a]) && FreshIds(ss, actions + [a], |actions| + 1) && ss[|actions| + 1] == s'
  {
    Extend(cfg, states, actions, a, s');
    ss := states + [s'];
    SamePrefix(states, actions, ss, actions + [a], |actions|);
  }

  lemma AddSubmit(cfg: Config, states: seq<System>, actions: seq<Action>, o: NewOrder) returns (ss: seq<System>)
    requires IsRun(cfg, states, actions) && FreshIds(states, actions, |actions|)
    requires o.orderId !in states[|actions|].orders
    ensures IsRun(cfg, ss, actions + [Submit(o, 0)]) && FreshIds(ss, actions + [Submit(o, 0)], |actions| + 1)
    ensures var (s, s') := (states[|actions|], ss[|actions| + 1]);
            && s'.ex == Submitted(cfg, s.ex, o, 0) && s'.inflight == s.inflight
            && s'.orders.Keys == s.orders.Keys + {o.orderId}
  {
    var s := states[|actions|];
    ss := AddAction(cfg, states, actions, Submit(o, 0),
                    s.(orders := Post(s.orders, Registration(o, 0)), ex := Submitted(cfg, s.ex, o, 0)));
  }

  lemma AddFeed(cfg: Config, states: seq<System>, actions: seq<Action>, symbol: Symbol, bids: seq<Level>, asks: seq<Level>,
                ids: seq<string>) returns (ss: seq<System>)
    requires IsRun(cfg, states, actions) && FreshIds(states, actions, |actions|)
    requires ListsResting(ids, states[|actions|].ex.resting, symbol.Pair())
    ensures var a := Feed(symbol, bids, asks, true);
            IsRun(cfg, ss, actions + [a]) && FreshIds(ss, actions + [a], |actions| + 1)
    ensures ss[|actions| + 1] == states[|actions|].(ex := Checked(cfg, BookFed(states[|actions|].ex, symbol.Pair(), bids, asks, true), ids))
  {
    var s := states[|actions|];
    ss := AddAction(cfg, states, actions, Feed(symbol, bids, asks, true), s.(ex := Checked(cfg, BookFed(s.ex, symbol.Pair(), bids, asks, true), ids)));
  }

  /** Such a run: one offer of 1, and a market order to buy 2 that is good till canceled. */
  lemma OrphanExample(cfg: Config) returns (states: seq<System>, actions: seq<Action>)
    ensures IsRun(cfg, states, actions) && FreshIds(states, actions, |actions|) && !NoOrphans(states, actions, |actions|)
  {
    var symbol := Symbol("BTC", "USDT", Simulated);
    var o := NewOrder("simulated-1", symbol, Buy, Market, 0, 2, GoodTilCancel, Simulated);
    var feed := Feed(symbol, [], [Level(100, 1)], true);
    states := [System(ExchangeState(map[], map[], [], 1), [], map[])];
    states := AddFeed(cfg, states, [], symbol, [], [Level(100, 1)], []);
    assert [] + [feed] == [feed];
    OneOffer(states[1].ex, o);
    states := OrphanAdded(cfg, states, feed, o);
    actions := [feed] + [Submit(o, 0)];
  }

  lemma OrphanAdded(cfg: Config, states: seq<System>, first: Action, o: NewOrder) returns (ss: seq<System>)
    requires IsRun(cfg, states, [first]) && FreshIds(states, [first], 1)
    requires o.orderId !in states[1].orders && Orphans(states[1].ex, o)
    ensures var actions := [first] + [Submit(o, 0)];
            IsRun(cfg, ss, actions) && FreshIds(ss, actions, 2) && !NoOrphans(ss, actions, 2)
  {
    var s := states[1];
    var s' := s.(orders := Post(s.orders, Registration(o, 0)), ex := Submitted(cfg, s.ex, o, 0));
    Extend(cfg, states, [first], Submit(o, 0), s');
    ss := states + [s'];
    SamePrefix(states, [first], ss, [first] + [Submit(o, 0)], 1);
    assert Orphaning(ss[1], Submit(o, 0));
  }

  lemma OneOffer(ex: ExchangeState, o: NewOrder)
    requires Facing(ex.books, o.symbol.Pair(), Buy) == map[100 := 1]
    requires o.side == Buy && o.orderType == Market && o.qty == 2 && o.tif == GoodTilCancel
    ensures Orphans(ex, o)
  {
    var asks: Levels := map[100 := 1];
    assert Matchable(asks, Buy, None) == asks;
    TotalSplit(asks, 100);
    assert asks - {100} == map[];
  }
}
