/** Determinism: two nodes that receive the same inputs agree, although each walks its
    hash maps in an order of its own and receives reports at a pace of its own. */
module Confluence {
  import opened Types
  import opened PriceLevels
  import opened Matching
  import opened Lifecycle
  import opened Listing
  import opened Exchange
  import opened Lockstep
  import opened LockstepSubmit
  import opened LockstepRuns

  /** The engine as it will be when every due report has arrived. */
  function Settled(s: System): Orders { Run(s.orders, Due(s)) }

  ghost predicate Twin(s: System, t: System) {
    && s.ex.books == t.ex.books
    && s.ex.resting == t.ex.resting
    && s.ex.nextId == t.ex.nextId
    && Settled(s) == Settled(t)
  }

  predicate IsTransport(a: Action) { a.Drain? || a.Deliver? }

  // ---- Reports gathered in the order of a hash map ----

  function Gathered(events: map<string, Event>, ids: seq<string>): seq<Event> {
    if ids == [] then []
    else (if ids[0] in events then [events[ids[0]]] else []) + Gathered(events, ids[1..])
  }

  lemma {:induction false} GatheredWithout(events: map<string, Event>, ids: seq<string>, id: string)
    requires id !in ids
    ensures Gathered(events - {id}, ids) == Gathered(events, ids)
  {
    if ids != [] {
      assert ids[0] in ids;
      GatheredWithout(events, ids[1..], id);
    }
  }

  ghost predicate AboutKeys(events: map<string, Event>) {
    forall id :: id in events ==> Subject(events[id].payload) == Some(id)
  }

  /** Seen from one order, it does not matter where in the walk its report was made. */
  lemma {:induction false} GatheredProjection(events: map<string, Event>, ids: seq<string>, k: string)
    requires AboutKeys(events)
    requires forall i, j :: 0 <= i < j < |ids| ==> ids[i] != ids[j]
    ensures Projection(Gathered(events, ids), k)
            == if k in ids && k in events then [Stamped(events[k].timestamp, events[k].payload)] else []
  {
    if ids != [] {
      var id := ids[0];
      GatheredProjection(events, ids[1..], k);
      assert k in ids <==> k == id || k in ids[1..];
      assert k == id ==> k !in ids[1..];
      var head := if id in events then [events[id]] else [];
      ProjectionConcat(head, Gathered(events, ids[1..]), k);
      if id in events {
        assert head[1..] == [];
      }
    }
  }

  lemma GatheredAnyOrder(orders: Orders, events: map<string, Event>, a: seq<string>, b: seq<string>)
    requires AboutKeys(events)
    requires forall i, j :: 0 <= i < j < |a| ==> a[i] != a[j]
    requires forall i, j :: 0 <= i < j < |b| ==> b[i] != b[j]
    requires forall id :: id in events ==> (id in a <==> id in b)
    ensures Run(orders, Gathered(events, a)) == Run(orders, Gathered(events, b))
  {
    forall k ensures Projection(Gathered(events, a), k) == Projection(Gathered(events, b), k) {
      GatheredProjection(events, a, k);
      GatheredProjection(events, b, k);
    }
    SameProjectionsSameOrders(orders, Gathered(events, a), Gathered(events, b));
  }

  // ---- Sweeps and mass cancels ----

  function Crossing(cfg: Config, st: ExchangeState): map<string, Event> {
    map id | id in st.resting && CanCross(st.books, st.resting[id]) :: MakerFill(cfg, st.resting[id])
  }

  function Cancels(cfg: Config, st: ExchangeState, ts: nat): map<string, Event> {
    map id | id in st.resting :: CancelEvent(cfg, id, ts)
  }

  lemma CrossingAfter(cfg: Config, st: ExchangeState, id: string)
    requires id in Crossing(cfg, st)
    ensures Crossing(cfg, CheckOne(cfg, st, id)) == Crossing(cfg, st) - {id}
  {
  }

  lemma ReportsAboutKeys(cfg: Config, st: ExchangeState, ts: nat)
    requires forall id :: id in st.resting ==> st.resting[id].orderId == id
    ensures AboutKeys(Crossing(cfg, st)) && AboutKeys(Cancels(cfg, st, ts))
  {
  }

  lemma {:induction false} CheckedReports(cfg: Config, st: ExchangeState, ids: seq<string>)
    requires forall i, j :: 0 <= i < j < |ids| ==> ids[i] != ids[j]
    ensures Checked(cfg, st, ids).pending == st.pending + Gathered(Crossing(cfg, st), ids)
    decreases |ids|
  {
    if ids != [] {
      var id := ids[0];
      var st' := CheckOne(cfg, st, id);
      CheckedReports(cfg, st', ids[1..]);
      if id in Crossing(cfg, st) {
        CrossingAfter(cfg, st, id);
        GatheredWithout(Crossing(cfg, st), ids[1..], id);
      }
    }
  }

  lemma {:induction false} WithdrawnReports(cfg: Config, st: ExchangeState, ids: seq<string>, ts: nat)
    requires forall i, j :: 0 <= i < j < |ids| ==> ids[i] != ids[j]
    ensures var st' := WithdrawnAll(cfg, st, ids, ts);
            && st'.pending == st.pending + Gathered(Cancels(cfg, st, ts), ids)
            && st'.books == st.books && st'.nextId == st.nextId
            && st'.resting == map id | id in st.resting && id !in ids :: st.resting[id]
    decreases |ids|
  {
    if ids == [] {
      assert st.resting == map id | id in st.resting :: st.resting[id];
    } else {
      var id := ids[0];
      var st' := Withdrawn(cfg, st, id, ts);
      WithdrawnReports(cfg, st', ids[1..], ts);
      assert forall x :: x in ids <==> x == id || x in ids[1..];
      if id in st.resting {
        assert Cancels(cfg, st', ts) == Cancels(cfg, st, ts) - {id};
        GatheredWithout(Cancels(cfg, st, ts), ids[1..], id);
      }
    }
  }

  /** Cancel-all reaches every resting order, however far the engine lags behind. */
  lemma RestingIsOpen(s: System, id: string)
    requires HalfInv(s) && id in s.ex.resting
    ensures id in s.orders && !IsTerminal(s.orders[id].state)
  {
    ReportsKeepIds(s.orders, Due(s));
    if IsTerminal(s.orders[id].state) {
      TerminalIsFinal(s.orders, Due(s), id);
    }
  }

  lemma SettleAfter(s: System, reports: seq<Event>, s': System)
    requires s'.orders == s.orders && s'.inflight == s.inflight && s'.ex.pending == s.ex.pending + reports
    ensures Settled(s') == Run(Settled(s), reports)
  {
    assert Due(s') == Due(s) + reports;
    RunConcat(s.orders, Due(s), reports);
  }

  // ---- One input, two nodes ----

  lemma TwinReports(s: System, t: System, events: map<string, Event>, a: seq<string>, b: seq<string>, s': System, t': System)
    requires Settled(s) == Settled(t) && AboutKeys(events)
    requires forall i, j :: 0 <= i < j < |a| ==> a[i] != a[j]
    requires forall i, j :: 0 <= i < j < |b| ==> b[i] != b[j]
    requires forall id :: id in events ==> (id in a <==> id in b)
    requires s'.orders == s.orders && s'.inflight == s.inflight && s'.ex.pending == s.ex.pending + Gathered(events, a)
    requires t'.orders == t.orders && t'.inflight == t.inflight && t'.ex.pending == t.ex.pending + Gathered(events, b)
    ensures Settled(s') == Settled(t')
  {
    SettleAfter(s, Gathered(events, a), s');
    SettleAfter(t, Gathered(events, b), t');
    GatheredAnyOrder(Settled(s), events, a, b);
  }

  /** Two sweeps over the same exchange leave it the same, but for the order of their reports. */
  lemma SweepsAgree(cfg: Config, u: ExchangeState, v: ExchangeState, pair: string, a: seq<string>, b: seq<string>)
    requires u.books == v.books && u.resting == v.resting && u.nextId == v.nextId
    requires ListsResting(a, u.resting, pair) && ListsResting(b, v.resting, pair)
    ensures var (u', v') := (Checked(cfg, u, a), Checked(cfg, v, b));
            && u'.books == v'.books && u'.resting == v'.resting && u'.nextId == v'.nextId
            && u'.pending == u.pending + Gathered(Crossing(cfg, u), a)
            && v'.pending == v.pending + Gathered(Crossing(cfg, u), b)
    ensures forall id :: id in Crossing(cfg, u) ==> (id in a <==> id in b)
  {
    CheckedLeaves(cfg, u, a);
    CheckedLeaves(cfg, v, b);
    CheckedReports(cfg, u, a);
    CheckedReports(cfg, v, b);
    assert Crossing(cfg, u) == Crossing(cfg, v);
  }

  ghost predicate FedBy(cfg: Config, s: System, pair: string, bids: seq<Level>, asks: seq<Level>, isSnapshot: bool,
                        ids: seq<string>, s': System) {
    && s'.orders == s.orders && s'.inflight == s.inflight
    && s'.ex == Checked(cfg, BookFed(s.ex, pair, bids, asks, isSnapshot), ids)
  }

  lemma TwinFeed(cfg: Config, s: System, t: System, pair: string, bids: seq<Level>, asks: seq<Level>, isSnapshot: bool,
                 a: seq<string>, b: seq<string>, s': System, t': System)
    requires forall id :: id in s.ex.resting ==> s.ex.resting[id].orderId == id
    requires Twin(s, t)
    requires ListsResting(a, s.ex.resting, pair) && ListsResting(b, t.ex.resting, pair)
    requires FedBy(cfg, s, pair, bids, asks, isSnapshot, a, s') && FedBy(cfg, t, pair, bids, asks, isSnapshot, b, t')
    ensures Twin(s', t')
  {
    var fs, ft := BookFed(s.ex, pair, bids, asks, isSnapshot), BookFed(t.ex, pair, bids, asks, isSnapshot);
    ReportsAboutKeys(cfg, fs, 0);
    SweepsAgree(cfg, fs, ft, pair, a, b);
    TwinReports(s, t, Crossing(cfg, fs), a, b, s', t');
  }

  lemma TwinCancelAll(cfg: Config, s: System, t: System, ts: nat, a: seq<string>, b: seq<string>, s': System, t': System)
    requires Twin(s, t) && ListsOpen(a, s.orders) && ListsOpen(b, t.orders)
    requires forall id :: id in s.ex.resting ==> id in a && id in b && s.ex.resting[id].orderId == id
    requires s' == System(WithdrawnAll(cfg, s.ex, a, ts), s.inflight, s.orders)
    requires t' == System(WithdrawnAll(cfg, t.ex, b, ts), t.inflight, t.orders)
    ensures Twin(s', t')
  {
    WithdrawnReports(cfg, s.ex, a, ts);
    WithdrawnReports(cfg, t.ex, b, ts);
    assert Cancels(cfg, s.ex, ts) == Cancels(cfg, t.ex, ts);
    ReportsAboutKeys(cfg, s.ex, ts);
    TwinReports(s, t, Cancels(cfg, s.ex, ts), a, b, s', t');
  }

  lemma TwinCancel(cfg: Config, s: System, t: System, id: string, ts: nat)
    requires Twin(s, t)
    ensures Twin(s.(ex := Withdrawn(cfg, s.ex, id, ts)), t.(ex := Withdrawn(cfg, t.ex, id, ts)))
  {
    if id in s.ex.resting {
      var reports := [CancelEvent(cfg, id, ts)];
      SettleAfter(s, reports, s.(ex := Withdrawn(cfg, s.ex, id, ts)));
      SettleAfter(t, reports, t.(ex := Withdrawn(cfg, t.ex, id, ts)));
    }
  }

  lemma TwinUnused(s: System, t: System, a: Action)
    requires HalfInv(s) && HalfInv(t) && Twin(s, t) && Unused(s, a)
    ensures Unused(t, a)
  {
    ReportsKeepIds(s.orders, Due(s));
    ReportsKeepIds(t.orders, Due(t));
  }

  lemma TwinSubmit(cfg: Config, s: System, t: System, o: NewOrder, ts: nat)
    requires HalfInv(s) && HalfInv(t) && Twin(s, t) && o.orderId !in s.orders && o.orderId !in t.orders
    ensures Twin(s.(orders := Post(s.orders, Registration(o, ts)), ex := Submitted(cfg, s.ex, o, ts)),
                 t.(orders := Post(t.orders, Registration(o, ts)), ex := Submitted(cfg, t.ex, o, ts)))
  {
    SubmitSettles(cfg, s.orders, s.inflight, s.ex, o, ts);
    SubmitSettles(cfg, t.orders, t.inflight, t.ex, o, ts);
    SameSubmission(cfg, s.ex, t.ex, o, ts);
  }

  /** What a submission does depends on neither side's queue of reports. */
  lemma SameSubmission(cfg: Config, u: ExchangeState, v: ExchangeState, o: NewOrder, ts: nat)
    requires u.books == v.books && u.resting == v.resting && u.nextId == v.nextId
    ensures var (u', v') := (Submitted(cfg, u, o, ts), Submitted(cfg, v, o, ts));
            u'.books == v'.books && u'.resting == v'.resting && u'.nextId == v'.nextId
    ensures SubmitReports(cfg, u, o, ts) == SubmitReports(cfg, v, o, ts)
    ensures Outcome(cfg, u, o, ts) == Outcome(cfg, v, o, ts)
  {
  }

  lemma TwinStep(cfg: Config, s: System, t: System, a: Action, s': System, t': System)
    requires HalfInv(s) && HalfInv(t) && Twin(s, t) && !IsTransport(a) && Unused(s, a)
    requires Step(cfg, s, a, s') && Step(cfg, t, a, t')
    ensures Twin(s', t')
  {
    match a
    case Feed(symbol, bids, asks, isSnapshot) =>
      var x :| ListsResting(x, s.ex.resting, symbol.Pair())
               && s' == s.(ex := Checked(cfg, BookFed(s.ex, symbol.Pair(), bids, asks, isSnapshot), x));
      var y :| ListsResting(y, t.ex.resting, symbol.Pair())
               && t' == t.(ex := Checked(cfg, BookFed(t.ex, symbol.Pair(), bids, asks, isSnapshot), y));
      TwinFeed(cfg, s, t, symbol.Pair(), bids, asks, isSnapshot, x, y, s', t');
    case Submit(o, ts) =>
      TwinUnused(s, t, a);
      TwinSubmit(cfg, s, t, o, ts);
    case Cancel(id, ts) =>
      TwinCancel(cfg, s, t, id, ts);
    case CancelAll(ts) =>
      var x :| ListsOpen(x, s.orders) && s' == s.(ex := WithdrawnAll(cfg, s.ex, x, ts));
      var y :| ListsOpen(y, t.orders) && t' == t.(ex := WithdrawnAll(cfg, t.ex, y, ts));
      forall id | id in s.ex.resting ensures id in x && id in y {
        RestingIsOpen(s, id);
        RestingIsOpen(t, id);
      }
      TwinCancelAll(cfg, s, t, ts, x, y, s', t');
  }

  /** Moving reports along the queue changes nothing about where a node is heading. */
  lemma TransportKeepsTwin(cfg: Config, s: System, t: System, a: Action, s': System)
    requires Twin(s, t) && IsTransport(a) && Step(cfg, s, a, s')
    ensures Twin(s', t)
  {
    match a
    case Drain(start) =>
      RunConcat(s.orders, s.inflight, s.ex.pending);
      NumberingIsInvisible(Run(s.orders, s.inflight), s.ex.pending, start);
      RunConcat(s.orders, s.inflight, Numbered(s.ex.pending, start));
      assert Due(s') == s.inflight + Numbered(s.ex.pending, start);
    case Deliver =>
      if s.inflight != [] {
        assert Due(s)[0] == s.inflight[0] && Due(s)[1..] == Due(s');
      }
  }

  // ---- Whole runs ----

  /** The first k actions without the transport steps. */
  function Inputs(actions: seq<Action>, k: nat): seq<Action>
    requires k <= |actions|
  {
    if k == 0 then []
    else Inputs(actions, k - 1) + if IsTransport(actions[k - 1]) then [] else [actions[k - 1]]
  }

  ghost predicate Paired(s: System, t: System) {
    HalfInv(s) && HalfInv(t) && Twin(s, t)
  }

  lemma PairedSwaps(s: System, t: System)
    requires Paired(s, t)
    ensures Paired(t, s)
  {
  }

  lemma RunsStartPaired(cfg: Config, ss: seq<System>, xs: seq<Action>, ts: seq<System>, ys: seq<Action>)
    requires IsRun(cfg, ss, xs) && IsRun(cfg, ts, ys)
    ensures Paired(ss[0], ts[0])
  {
    RunsKeepHalf(cfg, ss, xs, 0);
    RunsKeepHalf(cfg, ts, ys, 0);
  }

  /** Runs with the same inputs reach twin states: neither the order in which a hash map is
      walked nor the pace of delivery leaves a trace. All it takes is that ids are not used twice. */
  lemma {:induction false} SameInputsSameState(cfg: Config, ss: seq<System>, xs: seq<Action>, j: nat,
                                               ts: seq<System>, ys: seq<Action>, k: nat)
    requires IsRun(cfg, ss, xs) && j < |ss| && IsRun(cfg, ts, ys) && k < |ts|
    requires Inputs(xs, j) == Inputs(ys, k) && FreshIds(ss, xs, j)
    ensures Paired(ss[j], ts[k])
    decreases j + k
  {
    if j > 0 && IsTransport(xs[j - 1]) {
      SameInputsSameState(cfg, ss, xs, j - 1, ts, ys, k);
      TransportAt(cfg, ss, xs, j, ts[k]);
    } else if k > 0 && IsTransport(ys[k - 1]) {
      SameInputsSameState(cfg, ss, xs, j, ts, ys, k - 1);
      PairedSwaps(ss[j], ts[k - 1]);
      TransportAt(cfg, ts, ys, k, ss[j]);
      PairedSwaps(ts[k], ss[j]);
    } else if j > 0 && k > 0 {
      SameLastInput(Inputs(xs, j - 1), xs[j - 1], Inputs(ys, k - 1), ys[k - 1]);
      SameInputsSameState(cfg, ss, xs, j - 1, ts, ys, k - 1);
      InputAt(cfg, ss, xs, j, ts, ys, k);
    } else {
      assert j == 0 && k == 0;
      RunsStartPaired(cfg, ss, xs, ts, ys);
    }
  }

  lemma TransportAt(cfg: Config, ss: seq<System>, xs: seq<Action>, j: nat, t: System)
    requires IsRun(cfg, ss, xs) && 0 < j < |ss| && IsTransport(xs[j - 1])
    requires Paired(ss[j - 1], t)
    ensures Paired(ss[j], t)
  {
    StepOf(cfg, ss, xs, j);
    TransportCase(cfg, ss[j - 1], t, xs[j - 1], ss[j]);
  }

  lemma InputAt(cfg: Config, ss: seq<System>, xs: seq<Action>, j: nat, ts: seq<System>, ys: seq<Action>, k: nat)
    requires IsRun(cfg, ss, xs) && 0 < j < |ss| && IsRun(cfg, ts, ys) && 0 < k < |ts|
    requires Paired(ss[j - 1], ts[k - 1])
    requires xs[j - 1] == ys[k - 1] && !IsTransport(xs[j - 1]) && FreshIds(ss, xs, j)
    ensures Paired(ss[j], ts[k])
  {
    StepOf(cfg, ss, xs, j);
    StepOf(cfg, ts, ys, k);
    InputCase(cfg, ss[j - 1], ts[k - 1], xs[j - 1], ss[j], ts[k]);
  }

  lemma SameLastInput(a: seq<Action>, x: Action, b: seq<Action>, y: Action)
    requires a + [x] == b + [y]
    ensures a == b && x == y
  {
    assert (a + [x])[|a|] == x && (b + [y])[|b|] == y;
    assert (a + [x])[..|a|] == a && (b + [y])[..|b|] == b;
  }

  lemma TransportCase(cfg: Config, s: System, t: System, a: Action, s': System)
    requires HalfInv(s) && Twin(s, t) && IsTransport(a) && Step(cfg, s, a, s')
    ensures HalfInv(s') && Twin(s', t) && Twin(t, s')
  {
    StepKeepsHalf(cfg, s, a, s');
    TransportKeepsTwin(cfg, s, t, a, s');
  }

  lemma InputCase(cfg: Config, s: System, t: System, a: Action, s': System, t': System)
    requires HalfInv(s) && HalfInv(t) && Twin(s, t) && !IsTransport(a) && Unused(s, a)
    requires Step(cfg, s, a, s') && Step(cfg, t, a, t')
    ensures HalfInv(s') && HalfInv(t') && Twin(s', t')
  {
    TwinUnused(s, t, a);
    StepKeepsHalf(cfg, s, a, s');
    StepKeepsHalf(cfg, t, a, t');
    TwinStep(cfg, s, t, a, s', t');
  }

  /** Once neither node has a report on the way, both write the same canonical state. */
  lemma SameInputsSameListing(cfg: Config, ss: seq<System>, xs: seq<Action>, ts: seq<System>, ys: seq<Action>,
                              a: seq<LiveOrder>, b: seq<LiveOrder>)
    requires IsRun(cfg, ss, xs) && IsRun(cfg, ts, ys)
    requires Inputs(xs, |xs|) == Inputs(ys, |ys|) && FreshIds(ss, xs, |xs|)
    requires Due(ss[|xs|]) == [] && Due(ts[|ys|]) == []
    requires IsListing(a, ss[|xs|].orders) && IsListing(b, ts[|ys|].orders)
    ensures a == b
  {
    SameInputsSameState(cfg, ss, xs, |xs|, ts, ys, |ys|);
    ListingUnique(a, b, ss[|xs|].orders);
  }
}
