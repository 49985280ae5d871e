/** All the outcomes that one market event can have at a node: the walks of its hash maps can change nothing but the order
    in which its own two resting quotes are filled. */
module LoopOutcomes {
  import opened Types
  import opened PriceLevels
  import opened Matching
  import opened Lifecycle
  import opened Exchange
  import opened Lockstep
  import opened LockstepSubmit
  import opened LockstepRuns
  import opened Confluence
  import opened OrderIds
  import opened FlatBook
  import opened Pnl
  import opened ClosedLoop
  import Inventory
  import QuoteRules

  // ---- What an event makes of the exchange, as a function ----

  /** The commands of an event, carried out on the exchange alone; withdrawing is not reported. */
  function Carriage(lc: LoopConfig, ex: ExchangeState, n: nat, cs: seq<QuoteRules.Command>, ts: nat): ExchangeState
    decreases |cs|
  {
    if cs == [] then ex
    else Carriage(lc, CarriedOne(lc, ex, n, cs[0], ts), NextAfter(n, cs[0]), cs[1..], ts)
  }

  function CarriedOne(lc: LoopConfig, ex: ExchangeState, n: nat, c: QuoteRules.Command, ts: nat): ExchangeState {
    if c.CancelAll? then ex.(resting := map[]) else Submitted(lc.cfg, ex, OrderFor(lc, n, c), ts)
  }

  function NextAll(n: nat, cs: seq<QuoteRules.Command>): nat
    decreases |cs|
  {
    if cs == [] then n else NextAll(NextAfter(n, cs[0]), cs[1..])
  }

  function Fed(l: Loop, m: Market): ExchangeState {
    match m
    case BookUpdate(symbol, bids, asks, isSnapshot) => BookFed(l.sys.ex, symbol.Pair(), bids, asks, isSnapshot)
    case TradeTick(_, _, _) => l.sys.ex
  }

  /** The fills of the own resting quotes that the event brings about. */
  function Hits(lc: LoopConfig, l: Loop, m: Market): map<string, Event> {
    if m.BookUpdate? then Crossing(lc.cfg, Fed(l, m)) else map[]
  }

  /** The exchange after the sweep, with an empty queue. */
  function Swept(lc: LoopConfig, l: Loop, m: Market): ExchangeState {
    Fed(l, m).(resting := l.sys.ex.resting - Hits(lc, l, m).Keys, pending := [])
  }

  function AfterEvent(lc: LoopConfig, l: Loop, m: Market, ts: nat): ExchangeState {
    Carriage(lc, Swept(lc, l, m), l.nextLocal, Answered(lc, l, m).1, ts)
  }

  /** What the quotes of this event trade at once. */
  function TakerFills(lc: LoopConfig, l: Loop, m: Market, ts: nat): seq<FillReport> {
    Fills(AfterEvent(lc, l, m, ts).pending)
  }

  predicate IsHit(lc: LoopConfig, l: Loop, m: Market, side: Side, id: string) {
    id in Hits(lc, l, m) && id in l.sys.ex.resting && l.sys.ex.resting[id].side == side
  }

  /** The fill of the quote that rests on this side, if the event brings it about. */
  ghost function HitOn(lc: LoopConfig, l: Loop, m: Market, side: Side): seq<FillReport> {
    if exists id :: IsHit(lc, l, m, side, id)
    then
      var id :| IsHit(lc, l, m, side, id);
      Fills([Hits(lc, l, m)[id]])
    else []
  }

  ghost function Sweep(lc: LoopConfig, l: Loop, m: Market, buyFirst: bool): seq<FillReport> {
    if buyFirst then HitOn(lc, l, m, Buy) + HitOn(lc, l, m, Sell) else HitOn(lc, l, m, Sell) + HitOn(lc, l, m, Buy)
  }

  /** All fills of an event, in one of the two orders. */
  ghost function FillsOf(lc: LoopConfig, l: Loop, m: Market, ts: nat, buyFirst: bool): seq<FillReport> {
    Sweep(lc, l, m, buyFirst) + TakerFills(lc, l, m, ts)
  }

  predicate SameCore(u: ExchangeState, v: ExchangeState) {
    u.books == v.books && u.resting == v.resting && u.nextId == v.nextId
  }

  // ---- Every walk gathers the hits in one of two orders ----

  lemma {:induction false} NothingGathered(events: map<string, Event>, ids: seq<string>)
    requires forall id :: id in ids ==> id !in events
    ensures Gathered(events, ids) == []
  {
    if ids != [] {
      assert ids[0] in ids;
      NothingGathered(events, ids[1..]);
    }
  }

  lemma {:induction false} GatheredConcat(events: map<string, Event>, a: seq<string>, b: seq<string>)
    ensures Gathered(events, a + b) == Gathered(events, a) + Gathered(events, b)
  {
    if a == [] {
      assert a + b == b;
    } else {
      assert (a + b)[0] == a[0] && (a + b)[1..] == a[1..] + b;
      GatheredConcat(events, a[1..], b);
    }
  }

  lemma GatheredAround(events: map<string, Event>, ids: seq<string>, k: nat)
    requires k < |ids| && ids[k] in events
    ensures Gathered(events, ids) == Gathered(events, ids[..k]) + [events[ids[k]]] + Gathered(events, ids[k + 1..])
  {
    assert ids == ids[..k] + ([ids[k]] + ids[k + 1..]);
    GatheredConcat(events, ids[..k], [ids[k]] + ids[k + 1..]);
    GatheredConcat(events, [ids[k]], ids[k + 1..]);
    assert [ids[k]][1..] == [];
  }

  lemma OneGathered(events: map<string, Event>, ids: seq<string>, x: string)
    requires x in events && x in ids && forall i, j :: 0 <= i < j < |ids| ==> ids[i] != ids[j]
    requires forall id :: id in ids && id in events ==> id == x
    ensures Gathered(events, ids) == [events[x]]
  {
    var k :| 0 <= k < |ids| && ids[k] == x;
    GatheredAround(events, ids, k);
    assert forall i :: 0 <= i < k ==> ids[..k][i] == ids[i];
    var back := ids[k + 1..];
    assert forall i :: 0 <= i < |back| ==> back[i] == ids[i + k + 1];
    NothingGathered(events, ids[..k]);
    NothingGathered(events, back);
  }

  lemma TwoGathered(events: map<string, Event>, ids: seq<string>, x: string, y: string, k: nat, n: nat)
    requires x in events && y in events && x != y && k < n < |ids| && ids[k] == x && ids[n] == y
    requires forall i, j :: 0 <= i < j < |ids| ==> ids[i] != ids[j]
    requires forall id :: id in ids && id in events ==> id == x || id == y
    ensures Gathered(events, ids) == [events[x], events[y]]
  {
    var front, back := ids[..k], ids[k + 1..];
    GatheredAround(events, ids, k);
    assert forall i :: 0 <= i < k ==> front[i] == ids[i];
    assert forall i :: 0 <= i < |back| ==> back[i] == ids[i + k + 1];
    NothingGathered(events, front);
    assert back[n - k - 1] == y;
    OneGathered(events, back, y);
  }

  /** At most one hit a side. */
  lemma HitsAreFew(lc: LoopConfig, l: Loop, m: Market)
    requires QuotePair(lc, l.sys.ex.resting)
    ensures forall side, i, j :: IsHit(lc, l, m, side, i) && IsHit(lc, l, m, side, j) ==> i == j
  {
    var bidPrice, askPrice :| bidPrice < askPrice && RestAt(lc, l.sys.ex.resting, bidPrice, askPrice);
  }

  lemma HitRests(lc: LoopConfig, l: Loop, m: Market, id: string)
    requires id in Hits(lc, l, m)
    ensures id in l.sys.ex.resting && IsHit(lc, l, m, l.sys.ex.resting[id].side, id)
    ensures Hits(lc, l, m)[id] == MakerFill(lc.cfg, l.sys.ex.resting[id]) && CanCross(Fed(l, m).books, l.sys.ex.resting[id])
  {
  }

  /** An order of another pair than the one that was updated does not cross. */
  lemma HitsAreListed(lc: LoopConfig, l: Loop, m: Market, ids: seq<string>)
    requires ExchangeInv(l.sys.ex) && m.BookUpdate? && ListsResting(ids, l.sys.ex.resting, m.symbol.Pair())
    ensures forall id :: id in Hits(lc, l, m) ==> id in ids
  {
    forall id | id in Hits(lc, l, m) ensures id in ids {
      HitRests(lc, l, m, id);
      if l.sys.ex.resting[id].symbol.Pair() != m.symbol.Pair() {
        OtherPairsRest(l, m, id);
        assert false;
      }
    }
  }

  lemma OtherPairsRest(l: Loop, m: Market, id: string)
    requires ExchangeInv(l.sys.ex) && m.BookUpdate? && id in l.sys.ex.resting
    requires l.sys.ex.resting[id].symbol.Pair() != m.symbol.Pair()
    ensures !CanCross(Fed(l, m).books, l.sys.ex.resting[id])
  {
    var o := l.sys.ex.resting[id];
    assert Facing(Fed(l, m).books, o.symbol.Pair(), o.side) == Facing(l.sys.ex.books, o.symbol.Pair(), o.side);
    CrossMeansMatchable(Fed(l, m).books, o);
  }

  lemma HitIs(lc: LoopConfig, l: Loop, m: Market, side: Side, id: string)
    requires QuotePair(lc, l.sys.ex.resting) && IsHit(lc, l, m, side, id)
    ensures HitOn(lc, l, m, side) == Fills([Hits(lc, l, m)[id]])
  {
    HitsAreFew(lc, l, m);
  }

  lemma NoHit(lc: LoopConfig, l: Loop, m: Market, side: Side)
    requires forall id :: id in Hits(lc, l, m) ==> !IsHit(lc, l, m, side, id)
    ensures HitOn(lc, l, m, side) == []
  {
  }

  ghost predicate DistinctIds(ids: seq<string>) {
    forall i, j :: 0 <= i < j < |ids| ==> ids[i] != ids[j]
  }

  /** Both quotes are hit. */
  lemma BothGathered(lc: LoopConfig, l: Loop, m: Market, ids: seq<string>, b: string, a: string) returns (buyFirst: bool)
    requires QuotePair(lc, l.sys.ex.resting) && IsHit(lc, l, m, Buy, b) && IsHit(lc, l, m, Sell, a)
    requires b in ids && a in ids && DistinctIds(ids)
    ensures Fills(Gathered(Hits(lc, l, m), ids)) == Sweep(lc, l, m, buyFirst)
    ensures |ids| == 2 ==> buyFirst == (ids[0] == b)
  {
    var events := Hits(lc, l, m);
    HitsAreFew(lc, l, m);
    HitIs(lc, l, m, Buy, b);
    HitIs(lc, l, m, Sell, a);
    forall id | id in ids && id in events ensures id == a || id == b {
      HitRests(lc, l, m, id);
    }
    var k :| 0 <= k < |ids| && ids[k] == b;
    var n :| 0 <= n < |ids| && ids[n] == a;
    buyFirst := k < n;
    if buyFirst {
      TwoGathered(events, ids, b, a, k, n);
      TwoReports(events[b], events[a]);
    } else {
      TwoGathered(events, ids, a, b, n, k);
      TwoReports(events[a], events[b]);
    }
  }

  /** No quote is hit, or the one on this side. */
  lemma LoneGathered(lc: LoopConfig, l: Loop, m: Market, ids: seq<string>, side: Side)
    requires QuotePair(lc, l.sys.ex.resting) && DistinctIds(ids)
    requires forall id :: id in Hits(lc, l, m) ==> id in ids && IsHit(lc, l, m, side, id)
    ensures Fills(Gathered(Hits(lc, l, m), ids)) == HitOn(lc, l, m, side)
    ensures HitOn(lc, l, m, if side.Buy? then Sell else Buy) == []
  {
    var events := Hits(lc, l, m);
    HitsAreFew(lc, l, m);
    if id :| id in events {
      HitIs(lc, l, m, side, id);
      OneGathered(events, ids, id);
    } else {
      NoHit(lc, l, m, side);
      NothingGathered(events, ids);
    }
  }

  lemma LoneSweep(lc: LoopConfig, l: Loop, m: Market, ids: seq<string>, side: Side)
    requires QuotePair(lc, l.sys.ex.resting) && DistinctIds(ids)
    requires forall id :: id in Hits(lc, l, m) ==> id in ids && IsHit(lc, l, m, side, id)
    ensures Fills(Gathered(Hits(lc, l, m), ids)) == Sweep(lc, l, m, true) == Sweep(lc, l, m, false)
  {
    LoneGathered(lc, l, m, ids, side);
  }

  /** Any walk meets the hits in one order; which one it is matters only if there are two. */
  lemma AllGathered(lc: LoopConfig, l: Loop, m: Market, ids: seq<string>) returns (buyFirst: bool)
    requires QuotePair(lc, l.sys.ex.resting) && DistinctIds(ids)
    requires forall id :: id in Hits(lc, l, m) ==> id in ids
    ensures Fills(Gathered(Hits(lc, l, m), ids)) == Sweep(lc, l, m, buyFirst)
  {
    buyFirst := true;
    forall id | id in Hits(lc, l, m) ensures IsHit(lc, l, m, Buy, id) || IsHit(lc, l, m, Sell, id) {
      HitRests(lc, l, m, id);
    }
    if b :| IsHit(lc, l, m, Buy, b) {
      if a :| IsHit(lc, l, m, Sell, a) {
        buyFirst := BothGathered(lc, l, m, ids, b, a);
      } else {
        LoneSweep(lc, l, m, ids, Buy);
      }
    } else {
      LoneSweep(lc, l, m, ids, Sell);
    }
  }

  // ---- Every outcome is one of two ----

  lemma SweepIs(lc: LoopConfig, l: Loop, m: Market, fed: System) returns (buyFirst: bool)
    requires LoopInv(lc, l) && Taken(lc, l.sys, m, fed)
    ensures SameCore(fed.ex, Swept(lc, l, m)) && Fills(fed.ex.pending) == Sweep(lc, l, m, buyFirst)
  {
    match m
    case BookUpdate(symbol, bids, asks, isSnapshot) =>
      var ids :| ListsResting(ids, l.sys.ex.resting, symbol.Pair())
                 && fed == l.sys.(ex := Checked(lc.cfg, BookFed(l.sys.ex, symbol.Pair(), bids, asks, isSnapshot), ids));
      buyFirst := WalkIs(lc, l, m, ids);
    case TradeTick(_, _, _) =>
      buyFirst := true;
      LoneSweep(lc, l, m, [], Buy);
  }

  lemma WalkIs(lc: LoopConfig, l: Loop, m: Market, ids: seq<string>) returns (buyFirst: bool)
    requires ExchangeInv(l.sys.ex) && l.sys.ex.pending == [] && QuotePair(lc, l.sys.ex.resting)
    requires m.BookUpdate? && ListsResting(ids, l.sys.ex.resting, m.symbol.Pair())
    ensures SweptBy(lc, l, m, ids) && Fills(Gathered(Hits(lc, l, m), ids)) == Sweep(lc, l, m, buyFirst)
  {
    HitsAreListed(lc, l, m, ids);
    WalkSweeps(lc, l, m, ids);
    buyFirst := AllGathered(lc, l, m, ids);
  }

  /** The walk removes the hits and reports them in its order. */
  ghost predicate SweptBy(lc: LoopConfig, l: Loop, m: Market, ids: seq<string>) {
    var ex := Checked(lc.cfg, Fed(l, m), ids);
    SameCore(ex, Swept(lc, l, m)) && ex.pending == Gathered(Hits(lc, l, m), ids)
  }

  lemma WalkSweeps(lc: LoopConfig, l: Loop, m: Market, ids: seq<string>)
    requires m.BookUpdate? && l.sys.ex.pending == [] && DistinctIds(ids)
    requires forall id :: id in Hits(lc, l, m) ==> id in ids
    ensures SweptBy(lc, l, m, ids)
  {
    CheckedLeaves(lc.cfg, Fed(l, m), ids);
    CheckedReports(lc.cfg, Fed(l, m), ids);
    assert [] + Gathered(Hits(lc, l, m), ids) == Gathered(Hits(lc, l, m), ids);
    assert Checked(lc.cfg, Fed(l, m), ids).resting == Swept(lc, l, m).resting;
  }

  lemma SubmissionIs(cfg: Config, u: ExchangeState, v: ExchangeState, o: NewOrder, ts: nat, pre: seq<FillReport>)
    requires SameCore(u, v) && Fills(u.pending) == pre + Fills(v.pending)
    ensures SameCore(Submitted(cfg, u, o, ts), Submitted(cfg, v, o, ts))
    ensures Fills(Submitted(cfg, u, o, ts).pending) == pre + Fills(Submitted(cfg, v, o, ts).pending)
  {
    SameSubmission(cfg, u, v, o, ts);
    FillsConcat(u.pending, SubmitReports(cfg, u, o, ts));
    FillsConcat(v.pending, SubmitReports(cfg, v, o, ts));
  }

  lemma CommandIs(lc: LoopConfig, s: System, n: nat, c: QuoteRules.Command, ts: nat, s': System, ex: ExchangeState, pre: seq<FillReport>)
    requires HalfInv(s) && Step(lc.cfg, s, ActionFor(lc, n, c, ts), s')
    requires SameCore(s.ex, ex) && Fills(s.ex.pending) == pre + Fills(ex.pending)
    ensures SameCore(s'.ex, CarriedOne(lc, ex, n, c, ts))
    ensures Fills(s'.ex.pending) == pre + Fills(CarriedOne(lc, ex, n, c, ts).pending)
  {
    if c.CancelAll? {
      CancelClears(lc.cfg, s, ts, s');
    } else {
      SubmissionIs(lc.cfg, s.ex, ex, OrderFor(lc, n, c), ts, pre);
    }
  }

  lemma {:induction false} CarriedIs(lc: LoopConfig, s: System, n: nat, cs: seq<QuoteRules.Command>, ts: nat, s': System, n': nat,
                                     ex: ExchangeState, pre: seq<FillReport>)
    requires MidEvent(s, n) && CarriedOut(lc, s, n, cs, ts, s', n')
    requires SameCore(s.ex, ex) && Fills(s.ex.pending) == pre + Fills(ex.pending)
    ensures SameCore(s'.ex, Carriage(lc, ex, n, cs, ts))
    ensures Fills(s'.ex.pending) == pre + Fills(Carriage(lc, ex, n, cs, ts).pending) && n' == NextAll(n, cs)
    decreases |cs|
  {
    if cs != [] {
      var mid :| Step(lc.cfg, s, ActionFor(lc, n, cs[0], ts), mid) && CarriedOut(lc, mid, NextAfter(n, cs[0]), cs[1..], ts, s', n');
      CommandKeepsMidEvent(lc, s, n, cs[0], ts, mid);
      CommandIs(lc, s, n, cs[0], ts, mid, ex, pre);
      CarriedIs(lc, mid, NextAfter(n, cs[0]), cs[1..], ts, s', n', CarriedOne(lc, ex, n, cs[0], ts), pre);
    }
  }

  /** The state after an event, up to the orders, if its fills came in this order. */
  ghost predicate EndsIn(lc: LoopConfig, l: Loop, m: Market, ts: nat, buyFirst: bool, l': Loop) {
    var fills := FillsOf(lc, l, m, ts, buyFirst);
    && SameCore(l'.sys.ex, AfterEvent(lc, l, m, ts)) && Due(l'.sys) == []
    && l'.hot == FilledAll(lc.hc, Answered(lc, l, m).0, fills) && l'.flat == FlatAfter(l, m)
    && l'.books == BookedAll(l.books, fills) && l'.fillCount == l.fillCount + |fills|
    && l'.nextLocal == NextAll(l.nextLocal, Answered(lc, l, m).1)
  }

  /** Whatever walks are taken, an event ends in one of two ways. */
  lemma EventEnds(lc: LoopConfig, l: Loop, m: Market, ts: nat, l': Loop) returns (buyFirst: bool)
    requires LoopInv(lc, l) && LoopStep(lc, l, m, ts, l')
    ensures EndsIn(lc, l, m, ts, buyFirst, l')
  {
    var fed, done :| LoopStepVia(lc, l, m, ts, fed, done, l');
    buyFirst := SweepIs(lc, l, m, fed);
    ViaEnds(lc, l, m, ts, fed, done, l', buyFirst);
  }

  lemma ViaEnds(lc: LoopConfig, l: Loop, m: Market, ts: nat, fed: System, done: System, l': Loop, buyFirst: bool)
    requires LoopInv(lc, l) && LoopStepVia(lc, l, m, ts, fed, done, l')
    requires SameCore(fed.ex, Swept(lc, l, m)) && Fills(fed.ex.pending) == Sweep(lc, l, m, buyFirst)
    ensures EndsIn(lc, l, m, ts, buyFirst, l')
  {
    TakenKeepsMidEvent(lc, l.sys, l.nextLocal, m, fed);
    SweepThenCommands(lc, l, m, ts, fed, done, l'.nextLocal, buyFirst);
  }

  lemma SweepThenCommands(lc: LoopConfig, l: Loop, m: Market, ts: nat, fed: System, done: System, n': nat, buyFirst: bool)
    requires MidEvent(fed, l.nextLocal) && CarriedOut(lc, fed, l.nextLocal, Answered(lc, l, m).1, ts, done, n')
    requires SameCore(fed.ex, Swept(lc, l, m)) && Fills(fed.ex.pending) == Sweep(lc, l, m, buyFirst)
    ensures SameCore(done.ex, AfterEvent(lc, l, m, ts)) && Fills(done.ex.pending) == FillsOf(lc, l, m, ts, buyFirst)
    ensures n' == NextAll(l.nextLocal, Answered(lc, l, m).1)
  {
    assert Sweep(lc, l, m, buyFirst) + [] == Sweep(lc, l, m, buyFirst);
    CarriedIs(lc, fed, l.nextLocal, Answered(lc, l, m).1, ts, done, n', Swept(lc, l, m), Sweep(lc, l, m, buyFirst));
  }

  // ---- Both ways can happen ----

  lemma {:induction false} SomeListing(ids: set<string>) returns (l: seq<string>)
    ensures forall i, j :: 0 <= i < j < |l| ==> l[i] != l[j]
    ensures forall id :: id in l <==> id in ids
  {
    if ids == {} {
      l := [];
    } else {
      var id :| id in ids;
      l := SomeListing(ids - {id});
      l := l + [id];
    }
  }

  lemma {:induction false} CommandsGoOn(lc: LoopConfig, s: System, n: nat, cs: seq<QuoteRules.Command>, ts: nat) returns (s': System, n': nat)
    ensures CarriedOut(lc, s, n, cs, ts, s', n')
    decreases |cs|
  {
    if cs == [] {
      s', n' := s, n;
    } else {
      var mid;
      if cs[0].CancelAll? {
        var ids := SomeListing(set id | id in s.orders && !IsTerminal(s.orders[id].state));
        mid := s.(ex := WithdrawnAll(lc.cfg, s.ex, ids, ts));
        assert ListsOpen(ids, s.orders);
      } else {
        var o := OrderFor(lc, n, cs[0]);
        mid := s.(orders := Post(s.orders, Registration(o, ts)), ex := Submitted(lc.cfg, s.ex, o, ts));
      }
      assert Step(lc.cfg, s, ActionFor(lc, n, cs[0], ts), mid);
      s', n' := CommandsGoOn(lc, mid, NextAfter(n, cs[0]), cs[1..], ts);
    }
  }

  /** A walk that fills the two quotes in this order, if both are hit. */
  lemma WalkFor(lc: LoopConfig, l: Loop, m: Market, buyFirst: bool) returns (ids: seq<string>)
    requires ExchangeInv(l.sys.ex) && QuotePair(lc, l.sys.ex.resting) && m.BookUpdate?
    ensures ListsResting(ids, l.sys.ex.resting, m.symbol.Pair())
    ensures Fills(Gathered(Hits(lc, l, m), ids)) == Sweep(lc, l, m, buyFirst)
  {
    var resting := l.sys.ex.resting;
    ids := SomeListing(set id | id in resting && resting[id].symbol.Pair() == m.symbol.Pair());
    HitsAreListed(lc, l, m, ids);
    forall id | id in Hits(lc, l, m) ensures IsHit(lc, l, m, Buy, id) || IsHit(lc, l, m, Sell, id) {
      HitRests(lc, l, m, id);
    }
    if b :| IsHit(lc, l, m, Buy, b) {
      if a :| IsHit(lc, l, m, Sell, a) {
        OnlyQuotes(lc, resting, ids, m.symbol.Pair(), b, a);
        ids := if buyFirst then [b, a] else [a, b];
        var x := BothGathered(lc, l, m, ids, b, a);
      } else {
        LoneSweep(lc, l, m, ids, Buy);
      }
    } else {
      LoneSweep(lc, l, m, ids, Sell);
    }
  }

  lemma OnlyQuotes(lc: LoopConfig, resting: map<string, SimOrder>, ids: seq<string>, pair: string, b: string, a: string)
    requires QuotePair(lc, resting) && ListsResting(ids, resting, pair) && b in ids && a in ids
    requires resting[b].side.Buy? && resting[a].side.Sell?
    ensures ListsResting([b, a], resting, pair) && ListsResting([a, b], resting, pair)
  {
    var bidPrice, askPrice :| bidPrice < askPrice && RestAt(lc, resting, bidPrice, askPrice);
    forall id | id in resting ensures id == a || id == b {
      assert resting[id].side.Buy? || resting[id].side.Sell?;
    }
  }

  lemma SweepGoesOn(lc: LoopConfig, l: Loop, m: Market, buyFirst: bool) returns (fed: System)
    requires ExchangeInv(l.sys.ex) && l.sys.ex.pending == [] && QuotePair(lc, l.sys.ex.resting)
    ensures Taken(lc, l.sys, m, fed) && SameCore(fed.ex, Swept(lc, l, m)) && Fills(fed.ex.pending) == Sweep(lc, l, m, buyFirst)
  {
    fed := l.sys;
    if m.BookUpdate? {
      var ids := WalkFor(lc, l, m, buyFirst);
      fed := l.sys.(ex := Checked(lc.cfg, Fed(l, m), ids));
      assert Step(lc.cfg, l.sys, Feed(m.symbol, m.bids, m.asks, m.isSnapshot), fed);
      var x := WalkIs(lc, l, m, ids);
    } else {
      LoneSweep(lc, l, m, [], Buy);
      assert Swept(lc, l, m).resting == l.sys.ex.resting;
    }
  }

  /** For either order there are walks that end in it: every event can be taken, in both ways. */
  lemma EventCanEnd(lc: LoopConfig, l: Loop, m: Market, ts: nat, buyFirst: bool) returns (l': Loop)
    requires LoopInv(lc, l)
    ensures LoopStep(lc, l, m, ts, l') && EndsIn(lc, l, m, ts, buyFirst, l')
  {
    var fed := SweepGoesOn(lc, l, m, buyFirst);
    var done;
    done, l' := StepGoesOn(lc, l, m, ts, fed);
    ViaEnds(lc, l, m, ts, fed, done, l', buyFirst);
  }

  lemma StepGoesOn(lc: LoopConfig, l: Loop, m: Market, ts: nat, fed: System) returns (done: System, l': Loop)
    requires Taken(lc, l.sys, m, fed)
    ensures LoopStepVia(lc, l, m, ts, fed, done, l')
  {
    var (h, cs) := Answered(lc, l, m);
    var n';
    done, n' := CommandsGoOn(lc, fed, l.nextLocal, cs, ts);
    var fills := Fills(done.ex.pending);
    l' := Loop(Delivered(done), FilledAll(lc.hc, h, fills), FlatAfter(l, m), BookedAll(l.books, fills), l.fillCount + |fills|, n');
  }
}
