/** Determinism of the closed loop (crates/atomic-node/tests/determinism.rs, `two_nodes_same_events_same_hash`): exactly when
    nodes that are handed the same market events stay the same. */
module LoopDeterminism {
  import opened Types
  import opened PriceLevels
  import opened Lifecycle
  import opened Exchange
  import opened Lockstep
  import opened LockstepRuns
  import opened Confluence
  import opened FlatBook
  import opened Pnl
  import opened ClosedLoop
  import opened LoopOutcomes
  import Inventory
  import QuoteRules

  /** The same node, but for how cost less realized profit is split up. */
  ghost predicate Alike(l: Loop, t: Loop) {
    t == l.(books := t.books) && SameBooks(l.books, t.books)
  }

  // ---- The conditions, all of them about the state before the event ----

  /** At most one of the own quotes is filled, or there is room for both fills, or the later fills take the position to the
      same limit either way. */
  predicate PositionMeets(limit: int, p: int, buys: seq<FillReport>, sales: seq<FillReport>, later: seq<FillReport>) {
    buys == [] || sales == [] || Inventory.SwapSettled(limit, p, buys[0].qty, sales[0].qty, Amounts(later))
  }

  /** At most one of the own quotes is filled, or the two fills may be booked in either order, or a later fill takes the
      position to or past zero. */
  predicate BooksMeet(books: Books, buys: seq<FillReport>, sales: seq<FillReport>, later: seq<FillReport>) {
    || buys == [] || sales == []
    || (var b, s := buys[0], sales[0];
        || Exchangeable(books, Signed(b), Signed(b) * b.price, Signed(s), Signed(s) * s.price)
        || PassesZero(books.position + Signed(b) + Signed(s), later))
  }

  ghost predicate PositionSettled(lc: LoopConfig, l: Loop, m: Market, ts: nat) {
    PositionMeets(lc.hc.maxInventory, l.hot.position, HitOn(lc, l, m, Buy), HitOn(lc, l, m, Sell), TakerFills(lc, l, m, ts))
  }

  ghost predicate BooksSettled(lc: LoopConfig, l: Loop, m: Market, ts: nat) {
    BooksMeet(l.books, HitOn(lc, l, m, Buy), HitOn(lc, l, m, Sell), TakerFills(lc, l, m, ts))
  }

  // ---- Two orders of the same fills ----

  predicate AtMostOne(fs: seq<FillReport>, side: Side) {
    fs == [] || (|fs| == 1 && fs[0].side == side && fs[0].qty > 0)
  }

  lemma AmountsOfTwo(x: FillReport, y: FillReport, later: seq<FillReport>)
    ensures Amounts([x, y] + later) == [Signed(x), Signed(y)] + Amounts(later)
  {
    AmountsConcat([x, y], later);
    assert [x, y][1..] == [y] && [y][1..] == [];
  }

  lemma NetOfTwo(x: FillReport, y: FillReport, later: seq<FillReport>)
    ensures NetQty([x, y] + later) == Signed(x) + Signed(y) + NetQty(later)
    ensures NetCash([x, y] + later) == Signed(x) * x.price + Signed(y) * y.price + NetCash(later)
  {
    var all := [x, y] + later;
    assert all[0] == x && all[1..] == [y] + later && ([y] + later)[1..] == later;
  }

  lemma InPairs(buys: seq<FillReport>, sales: seq<FillReport>, later: seq<FillReport>)
    requires AtMostOne(buys, Buy) && AtMostOne(sales, Sell)
    ensures buys == [] || sales == [] ==> buys + sales + later == sales + buys + later
    ensures buys != [] && sales != [] ==> buys + sales + later == [buys[0], sales[0]] + later
                                          && sales + buys + later == [sales[0], buys[0]] + later
  {
  }

  lemma SwapMeets(limit: int, p: int, b: FillReport, s: FillReport, later: seq<FillReport>)
    requires Abs(p) <= Abs(limit) && b.side.Buy? && s.side.Sell? && b.qty > 0 && s.qty > 0
    ensures Inventory.Walked(limit, p, Amounts([b, s] + later)) == Inventory.Walked(limit, p, Amounts([s, b] + later))
            <==> PositionMeets(limit, p, [b], [s], later)
  {
    var x: int, y: int := b.qty, s.qty;
    var bs, sb := Amounts([b, s] + later), Amounts([s, b] + later);
    AmountsOfTwo(b, s, later);
    AmountsOfTwo(s, b, later);
    Inventory.SwapAgreesExactly(limit, p, x, y, Amounts(later), bs, sb);
  }

  lemma PositionMeetsExactly(limit: int, p: int, buys: seq<FillReport>, sales: seq<FillReport>, later: seq<FillReport>)
    requires Abs(p) <= Abs(limit) && AtMostOne(buys, Buy) && AtMostOne(sales, Sell)
    ensures Inventory.Walked(limit, p, Amounts(buys + sales + later)) == Inventory.Walked(limit, p, Amounts(sales + buys + later))
            <==> PositionMeets(limit, p, buys, sales, later)
  {
    InPairs(buys, sales, later);
    if buys != [] && sales != [] {
      assert buys == [buys[0]] && sales == [sales[0]];
      SwapMeets(limit, p, buys[0], sales[0], later);
    }
  }

  /** The same sums in both orders. */
  ghost predicate SameSums(fs: seq<FillReport>, gs: seq<FillReport>) {
    |fs| == |gs| && NetQty(fs) == NetQty(gs) && NetCash(fs) == NetCash(gs)
  }

  lemma BooksMeetOutright(books: Books, buys: seq<FillReport>, sales: seq<FillReport>, later: seq<FillReport>)
    requires AtMostOne(buys, Buy) && AtMostOne(sales, Sell)
    ensures BookedAll(books, buys + sales + later) == BookedAll(books, sales + buys + later) <==> BooksMeet(books, buys, sales, later)
    ensures SameSums(buys + sales + later, sales + buys + later)
  {
    InPairs(buys, sales, later);
    if buys != [] && sales != [] {
      SwapBooksExactly(books, buys[0], sales[0], later);
      NetOfTwo(buys[0], sales[0], later);
      NetOfTwo(sales[0], buys[0], later);
    }
  }

  // ---- What a hit is ----

  lemma HitShape(lc: LoopConfig, l: Loop, m: Market, side: Side)
    requires ExchangeInv(l.sys.ex) && QuotePair(lc, l.sys.ex.resting)
    ensures AtMostOne(HitOn(lc, l, m, side), side)
  {
    if id :| IsHit(lc, l, m, side, id) {
      HitIs(lc, l, m, side, id);
      HitRests(lc, l, m, id);
      assert [Hits(lc, l, m)[id]][1..] == [];
    }
  }

  lemma SameHits(lc: LoopConfig, l: Loop, t: Loop, m: Market, side: Side)
    requires QuotePair(lc, l.sys.ex.resting) && t == l.(books := t.books)
    ensures HitOn(lc, l, m, side) == HitOn(lc, t, m, side)
  {
    assert Hits(lc, l, m) == Hits(lc, t, m);
    if id :| IsHit(lc, l, m, side, id) {
      assert IsHit(lc, t, m, side, id);
      HitIs(lc, l, m, side, id);
      HitIs(lc, t, m, side, id);
    } else {
      assert forall id :: IsHit(lc, t, m, side, id) ==> IsHit(lc, l, m, side, id);
    }
  }

  lemma SameFills(lc: LoopConfig, l: Loop, t: Loop, m: Market, ts: nat, buyFirst: bool)
    requires QuotePair(lc, l.sys.ex.resting) && t == l.(books := t.books)
    ensures FillsOf(lc, l, m, ts, buyFirst) == FillsOf(lc, t, m, ts, buyFirst)
  {
    SameHits(lc, l, t, m, Buy);
    SameHits(lc, l, t, m, Sell);
    assert Swept(lc, l, m) == Swept(lc, t, m) && Answered(lc, l, m) == Answered(lc, t, m);
  }

  ghost function EndPosition(lc: LoopConfig, l: Loop, m: Market, ts: nat, buyFirst: bool): int {
    Inventory.Walked(lc.hc.maxInventory, l.hot.position, Amounts(FillsOf(lc, l, m, ts, buyFirst)))
  }

  ghost function EndBooks(lc: LoopConfig, l: Loop, m: Market, ts: nat, buyFirst: bool): Books {
    BookedAll(l.books, FillsOf(lc, l, m, ts, buyFirst))
  }

  /** Position and books come out the same in both orders exactly if they are settled. */
  ghost predicate Decided(lc: LoopConfig, l: Loop, m: Market, ts: nat) {
    && (EndPosition(lc, l, m, ts, true) == EndPosition(lc, l, m, ts, false) <==> PositionSettled(lc, l, m, ts))
    && (EndBooks(lc, l, m, ts, true) == EndBooks(lc, l, m, ts, false) <==> BooksSettled(lc, l, m, ts))
    && SameSums(FillsOf(lc, l, m, ts, true), FillsOf(lc, l, m, ts, false))
  }

  lemma DecidedBefore(lc: LoopConfig, l: Loop, m: Market, ts: nat)
    requires LoopInv(lc, l)
    ensures Decided(lc, l, m, ts)
  {
    HitShape(lc, l, m, Buy);
    HitShape(lc, l, m, Sell);
    ShapesDecide(lc, l, m, ts);
  }

  lemma ShapesDecide(lc: LoopConfig, l: Loop, m: Market, ts: nat)
    requires Abs(l.hot.position) <= Abs(lc.hc.maxInventory)
    requires AtMostOne(HitOn(lc, l, m, Buy), Buy) && AtMostOne(HitOn(lc, l, m, Sell), Sell)
    ensures Decided(lc, l, m, ts)
  {
    PositionMeetsExactly(lc.hc.maxInventory, l.hot.position, HitOn(lc, l, m, Buy), HitOn(lc, l, m, Sell), TakerFills(lc, l, m, ts));
    BooksMeetOutright(l.books, HitOn(lc, l, m, Buy), HitOn(lc, l, m, Sell), TakerFills(lc, l, m, ts));
  }

  // ---- One event ----

  lemma AlikeKeepsInv(lc: LoopConfig, l: Loop, t: Loop)
    requires LoopInv(lc, l) && Alike(l, t)
    ensures LoopInv(lc, t)
  {
  }

  /** The same node, but for position and books, and the same sums behind the books. */
  ghost predicate NearlyAlike(l: Loop, t: Loop) {
    t == l.(hot := l.hot.(position := t.hot.position), books := t.books) && SameBooks(l.books, t.books)
  }

  /** Two outcomes of an event agree in all but position and books, and in the sums behind the books. */
  lemma OutcomesAgree(lc: LoopConfig, l: Loop, t: Loop, m: Market, ts: nat, l': Loop, t': Loop, x: bool, y: bool)
    requires LoopInv(lc, l) && Alike(l, t) && LoopStep(lc, l, m, ts, l') && LoopStep(lc, t, m, ts, t')
    requires EndsIn(lc, l, m, ts, x, l') && EndsIn(lc, t, m, ts, y, t')
    ensures NearlyAlike(l', t')
    ensures t'.hot.position == EndPosition(lc, l, m, ts, y)
  {
    SameSystems(lc, l, t, m, ts, l', t');
    SameFills(lc, l, t, m, ts, y);
    DecidedBefore(lc, l, m, ts);
    AnswerTellsActive(lc, l, m);
    SameAnswers(lc, l, t, m);
    EndsAt(lc, l, m, ts, x, l');
    EndsAt(lc, t, m, ts, y, t');
    SumsAreAlike(l.books, t.books, FillsOf(lc, l, m, ts, x), FillsOf(lc, l, m, ts, y));
    AlikePiecewise(l', t', Answered(lc, l, m).0, EndPosition(lc, l, m, ts, x), EndPosition(lc, l, m, ts, y));
  }

  lemma EndsAt(lc: LoopConfig, l: Loop, m: Market, ts: nat, x: bool, l': Loop)
    requires EndsIn(lc, l, m, ts, x, l') && Answered(lc, l, m).0.position == l.hot.position
    ensures l'.hot == Answered(lc, l, m).0.(position := EndPosition(lc, l, m, ts, x))
    ensures l'.fillCount == l.fillCount + |FillsOf(lc, l, m, ts, x)| && l'.books == EndBooks(lc, l, m, ts, x)
    ensures l'.flat == FlatAfter(l, m)
  {
  }

  lemma AlikePiecewise(l: Loop, t: Loop, h: QuoteRules.Hot, p: int, q: int)
    requires l.sys == t.sys && l.nextLocal == t.nextLocal && l.flat == t.flat && l.fillCount == t.fillCount
    requires l.hot == h.(position := p) && t.hot == h.(position := q) && SameBooks(l.books, t.books)
    ensures NearlyAlike(l, t)
  {
  }

  lemma SameAnswers(lc: LoopConfig, l: Loop, t: Loop, m: Market)
    requires t == l.(books := t.books)
    ensures Answered(lc, l, m) == Answered(lc, t, m) && FlatAfter(l, m) == FlatAfter(t, m)
  {
  }

  lemma SumsAreAlike(b: Books, c: Books, fs: seq<FillReport>, gs: seq<FillReport>)
    requires SameBooks(b, c) && SameSums(fs, gs)
    ensures SameBooks(BookedAll(b, fs), BookedAll(c, gs))
  {
    BooksBalance(b, fs);
    BooksBalance(c, gs);
  }

  /** Two nodes that agree stay in agreement over an event if the position is settled at one of them, however they walk
      their maps: same exchange, orders, quotes, inventory, fill count, position, and cost less realized profit. */
  lemma LoopsStayTwins(lc: LoopConfig, l: Loop, t: Loop, m: Market, ts: nat, l': Loop, t': Loop)
    requires LoopInv(lc, l) && Alike(l, t) && LoopStep(lc, l, m, ts, l') && LoopStep(lc, t, m, ts, t')
    requires PositionSettled(lc, l, m, ts)
    ensures Alike(l', t')
  {
    AlikeKeepsInv(lc, l, t);
    var x := EventEnds(lc, l, m, ts, l');
    var y := EventEnds(lc, t, m, ts, t');
    OutcomesAgree(lc, l, l, m, ts, l', l', x, x);
    OutcomesAgree(lc, l, t, m, ts, l', t', x, y);
    DecidedBefore(lc, l, m, ts);
  }

  ghost predicate AllAlike(lc: LoopConfig, l: Loop, m: Market, ts: nat) {
    forall l', t' :: LoopStep(lc, l, m, ts, l') && LoopStep(lc, l, m, ts, t') ==> Alike(l', t')
  }

  ghost predicate AllEqual(lc: LoopConfig, l: Loop, m: Market, ts: nat) {
    forall l', t' :: LoopStep(lc, l, m, ts, l') && LoopStep(lc, l, m, ts, t') ==> l' == t'
  }

  lemma SettledMakesAlike(lc: LoopConfig, l: Loop, m: Market, ts: nat)
    requires LoopInv(lc, l) && PositionSettled(lc, l, m, ts)
    ensures AllAlike(lc, l, m, ts)
  {
    AlikeItself(l);
    forall l', t' | LoopStep(lc, l, m, ts, l') && LoopStep(lc, l, m, ts, t') ensures Alike(l', t') {
      LoopsStayTwins(lc, l, l, m, ts, l', t');
    }
  }

  lemma UnsettledMakesUnlike(lc: LoopConfig, l: Loop, m: Market, ts: nat)
    requires LoopInv(lc, l) && !PositionSettled(lc, l, m, ts)
    ensures !AllAlike(lc, l, m, ts)
  {
    var l', t' := TwoOutcomes(lc, l, m, ts);
    DecidedBefore(lc, l, m, ts);
    assert !Alike(l', t');
  }

  /** All outcomes of an event agree exactly if the position is settled before it. */
  lemma TwinsExactly(lc: LoopConfig, l: Loop, m: Market, ts: nat)
    requires LoopInv(lc, l)
    ensures AllAlike(lc, l, m, ts) <==> PositionSettled(lc, l, m, ts)
  {
    if PositionSettled(lc, l, m, ts) {
      SettledMakesAlike(lc, l, m, ts);
    } else {
      UnsettledMakesUnlike(lc, l, m, ts);
    }
  }

  lemma AlikeItself(l: Loop)
    ensures Alike(l, l)
  {
  }

  lemma TwoOutcomes(lc: LoopConfig, l: Loop, m: Market, ts: nat) returns (l': Loop, t': Loop)
    requires LoopInv(lc, l)
    ensures LoopStep(lc, l, m, ts, l') && LoopStep(lc, l, m, ts, t')
    ensures l'.hot.position == EndPosition(lc, l, m, ts, true) && t'.hot.position == EndPosition(lc, l, m, ts, false)
    ensures l'.books == EndBooks(lc, l, m, ts, true) && t'.books == EndBooks(lc, l, m, ts, false)
  {
    l' := EventCanEnd(lc, l, m, ts, true);
    t' := EventCanEnd(lc, l, m, ts, false);
    AnswerTellsActive(lc, l, m);
  }

  /** They are equal, realized profit included, exactly if position and books are settled before it. */
  lemma OutcomesEqualExactly(lc: LoopConfig, l: Loop, m: Market, ts: nat)
    requires LoopInv(lc, l)
    ensures AllEqual(lc, l, m, ts) <==> PositionSettled(lc, l, m, ts) && BooksSettled(lc, l, m, ts)
  {
    TwinsExactly(lc, l, m, ts);
    DecidedBefore(lc, l, m, ts);
    if PositionSettled(lc, l, m, ts) && BooksSettled(lc, l, m, ts) {
      forall l', t' | LoopStep(lc, l, m, ts, l') && LoopStep(lc, l, m, ts, t') ensures l' == t' {
        var x := EventEnds(lc, l, m, ts, l');
        var y := EventEnds(lc, l, m, ts, t');
        assert Alike(l', t');
      }
    } else {
      var l', t' := TwoOutcomes(lc, l, m, ts);
      DecidedBefore(lc, l, m, ts);
    }
  }

  // ---- Whole runs ----

  function Start(): Loop {
    Loop(System(ExchangeState(map[], map[], [], 1), [], map[]), QuoteRules.Hot([], [], false, 0), FlatSides([], []), Books(0, 0, 0), 0, 1)
  }

  ghost predicate IsLoopRun(lc: LoopConfig, loops: seq<Loop>, ms: seq<(Market, nat)>) {
    |loops| == |ms| + 1 && loops[0] == Start() && forall i :: 0 <= i < |ms| ==> LoopStepAt(lc, loops, ms, i)
  }

  ghost predicate LoopStepAt(lc: LoopConfig, loops: seq<Loop>, ms: seq<(Market, nat)>, i: int)
    requires 0 <= i < |ms| < |loops|
  {
    LoopStep(lc, loops[i], ms[i].0, ms[i].1, loops[i + 1])
  }

  ghost predicate PositionSettledAt(lc: LoopConfig, loops: seq<Loop>, ms: seq<(Market, nat)>, i: int)
    requires 0 <= i < |ms| < |loops|
  {
    PositionSettled(lc, loops[i], ms[i].0, ms[i].1)
  }

  ghost predicate AllSettledAt(lc: LoopConfig, loops: seq<Loop>, ms: seq<(Market, nat)>, i: int)
    requires 0 <= i < |ms| < |loops|
  {
    PositionSettled(lc, loops[i], ms[i].0, ms[i].1) && BooksSettled(lc, loops[i], ms[i].0, ms[i].1)
  }

  lemma StartKeepsInv(lc: LoopConfig)
    ensures LoopInv(lc, Start())
  {
    assert RestAt(lc, map[], 0, 1);
  }

  lemma {:induction false} RunKeepsInv(lc: LoopConfig, loops: seq<Loop>, ms: seq<(Market, nat)>, k: nat)
    requires IsLoopRun(lc, loops, ms) && k < |loops|
    ensures LoopInv(lc, loops[k])
    decreases k
  {
    if k == 0 {
      StartKeepsInv(lc);
    } else {
      RunKeepsInv(lc, loops, ms, k - 1);
      StepOfRun(lc, loops, ms, k);
      LoopKeepsInv(lc, loops[k - 1], ms[k - 1].0, ms[k - 1].1, loops[k]);
    }
  }

  /** Two nodes fed the same market events agree after every event, as long as the position was settled at one of them. */
  lemma SameMarketSameNode(lc: LoopConfig, ms: seq<(Market, nat)>, r: seq<Loop>, q: seq<Loop>, k: nat)
    requires IsLoopRun(lc, r, ms) && IsLoopRun(lc, q, ms) && k <= |ms|
    requires forall i :: 0 <= i < k ==> PositionSettledAt(lc, r, ms, i)
    ensures Alike(r[k], q[k])
  {
    for i := 0 to k
      invariant Alike(r[i], q[i])
    {
      assert PositionSettledAt(lc, r, ms, i);
      TwinsAt(lc, ms, r, q, i + 1);
    }
  }

  lemma TwinsAt(lc: LoopConfig, ms: seq<(Market, nat)>, r: seq<Loop>, q: seq<Loop>, k: nat)
    requires IsLoopRun(lc, r, ms) && IsLoopRun(lc, q, ms) && 0 < k <= |ms|
    requires PositionSettledAt(lc, r, ms, k - 1) && Alike(r[k - 1], q[k - 1])
    ensures Alike(r[k], q[k])
  {
    var l, l' := EventOfRun(lc, r, ms, k);
    var t, t' := EventOfRun(lc, q, ms, k);
    LoopsStayTwins(lc, l, t, ms[k - 1].0, ms[k - 1].1, l', t');
  }

  lemma EventOfRun(lc: LoopConfig, loops: seq<Loop>, ms: seq<(Market, nat)>, k: nat) returns (l: Loop, l': Loop)
    requires IsLoopRun(lc, loops, ms) && 0 < k <= |ms|
    ensures l == loops[k - 1] && l' == loops[k] && LoopInv(lc, l) && LoopStep(lc, l, ms[k - 1].0, ms[k - 1].1, l')
  {
    RunKeepsInv(lc, loops, ms, k - 1);
    StepOfRun(lc, loops, ms, k);
    l, l' := loops[k - 1], loops[k];
  }

  lemma StepOfRun(lc: LoopConfig, loops: seq<Loop>, ms: seq<(Market, nat)>, k: nat)
    requires IsLoopRun(lc, loops, ms) && 0 < k <= |ms|
    ensures LoopStep(lc, loops[k - 1], ms[k - 1].0, ms[k - 1].1, loops[k])
  {
    assert LoopStepAt(lc, loops, ms, k - 1);
  }

  lemma SameMarketEqualNode(lc: LoopConfig, ms: seq<(Market, nat)>, r: seq<Loop>, q: seq<Loop>, k: nat)
    requires IsLoopRun(lc, r, ms) && IsLoopRun(lc, q, ms) && k <= |ms|
    requires forall i :: 0 <= i < k ==> AllSettledAt(lc, r, ms, i)
    ensures r[k] == q[k]
  {
    for i := 0 to k
      invariant r[i] == q[i]
    {
      assert AllSettledAt(lc, r, ms, i);
      EqualAt(lc, ms, r, q, i + 1);
    }
  }

  lemma EqualAt(lc: LoopConfig, ms: seq<(Market, nat)>, r: seq<Loop>, q: seq<Loop>, k: nat)
    requires IsLoopRun(lc, r, ms) && IsLoopRun(lc, q, ms) && 0 < k <= |ms|
    requires AllSettledAt(lc, r, ms, k - 1) && r[k - 1] == q[k - 1]
    ensures r[k] == q[k]
  {
    var l, l' := EventOfRun(lc, r, ms, k);
    var t, t' := EventOfRun(lc, q, ms, k);
    OutcomesEqualExactly(lc, l, ms[k - 1].0, ms[k - 1].1);
  }

  /** Every run up to some event goes on to the end. */
  lemma {:induction false} RunGoesOn(lc: LoopConfig, ms: seq<(Market, nat)>, front: seq<Loop>, k: nat) returns (q: seq<Loop>)
    requires k <= |ms| && IsLoopRun(lc, front, ms[..k])
    ensures IsLoopRun(lc, q, ms) && front <= q
    decreases |ms| - k
  {
    if k == |ms| {
      assert ms[..k] == ms;
      q := front;
    } else {
      RunKeepsInv(lc, front, ms[..k], k);
      var l' := EventCanEnd(lc, front[k], ms[k].0, ms[k].1, true);
      OneMoreEvent(lc, ms, front, k, l');
      q := RunGoesOn(lc, ms, front + [l'], k + 1);
    }
  }

  lemma OneMoreEvent(lc: LoopConfig, ms: seq<(Market, nat)>, front: seq<Loop>, k: nat, l': Loop)
    requires k < |ms| && IsLoopRun(lc, front, ms[..k]) && LoopStep(lc, front[k], ms[k].0, ms[k].1, l')
    ensures IsLoopRun(lc, front + [l'], ms[..k + 1])
  {
    var loops, first := front + [l'], ms[..k + 1];
    forall i | 0 <= i < |first| ensures LoopStepAt(lc, loops, first, i) {
      if i < k {
        StepOfRun(lc, front, ms[..k], i + 1);
        StepIsAt(lc, loops, first, i, front[i], ms[i], front[i + 1]);
      } else {
        StepIsAt(lc, loops, first, k, front[k], ms[k], l');
      }
    }
  }

  lemma StepIsAt(lc: LoopConfig, loops: seq<Loop>, ms: seq<(Market, nat)>, k: nat, l: Loop, e: (Market, nat), l': Loop)
    requires k < |ms| < |loops| && loops[k] == l && loops[k + 1] == l' && ms[k] == e && LoopStep(lc, l, e.0, e.1, l')
    ensures LoopStepAt(lc, loops, ms, k)
  {
  }

  lemma PrefixIsRun(lc: LoopConfig, ms: seq<(Market, nat)>, r: seq<Loop>, k: nat)
    requires IsLoopRun(lc, r, ms) && k <= |ms|
    ensures IsLoopRun(lc, r[..k + 1], ms[..k])
  {
    var front, first := r[..k + 1], ms[..k];
    forall i | 0 <= i < k ensures LoopStepAt(lc, front, first, i) {
      StepOfRun(lc, r, ms, i + 1);
      StepIsAt(lc, front, first, i, r[i], ms[i], r[i + 1]);
    }
  }

  /** A run that takes another outcome of event k. */
  lemma OtherWay(lc: LoopConfig, ms: seq<(Market, nat)>, r: seq<Loop>, k: nat, l': Loop) returns (q: seq<Loop>)
    requires IsLoopRun(lc, r, ms) && k < |ms| && LoopStep(lc, r[k], ms[k].0, ms[k].1, l')
    ensures IsLoopRun(lc, q, ms) && q[k + 1] == l'
  {
    PrefixIsRun(lc, ms, r, k);
    OneMoreEvent(lc, ms, r[..k + 1], k, l');
    q := RunGoesOn(lc, ms, r[..k + 1] + [l'], k + 1);
  }

  ghost predicate AlwaysAlike(r: seq<Loop>, q: seq<Loop>) {
    |r| == |q| && forall k :: 0 <= k < |r| ==> Alike(r[k], q[k])
  }

  /** All nodes that see these events agree after each of them. */
  ghost predicate AllRunsAlike(lc: LoopConfig, ms: seq<(Market, nat)>, r: seq<Loop>) {
    forall q :: IsLoopRun(lc, q, ms) ==> AlwaysAlike(r, q)
  }

  /** All nodes that see these events are equal after each of them, realized profit and fill count included. */
  ghost predicate AllRunsEqual(lc: LoopConfig, ms: seq<(Market, nat)>, r: seq<Loop>) {
    forall q :: IsLoopRun(lc, q, ms) ==> r == q
  }

  /** Whether all nodes agree can be told from any one of them: exactly if before each event its position was settled. */
  lemma RunsAlikeExactly(lc: LoopConfig, ms: seq<(Market, nat)>, r: seq<Loop>)
    requires IsLoopRun(lc, r, ms)
    ensures AllRunsAlike(lc, ms, r) <==> forall i :: 0 <= i < |ms| ==> PositionSettledAt(lc, r, ms, i)
  {
    if forall i :: 0 <= i < |ms| ==> PositionSettledAt(lc, r, ms, i) {
      forall q | IsLoopRun(lc, q, ms) ensures AlwaysAlike(r, q) {
        forall k | 0 <= k < |r| ensures Alike(r[k], q[k]) {
          SameMarketSameNode(lc, ms, r, q, k);
        }
      }
    }
    if AllRunsAlike(lc, ms, r) {
      forall i | 0 <= i < |ms| ensures PositionSettledAt(lc, r, ms, i) {
        AlikeRunsSettle(lc, ms, r, i);
      }
    }
  }

  lemma AlikeRunsSettle(lc: LoopConfig, ms: seq<(Market, nat)>, r: seq<Loop>, i: nat)
    requires IsLoopRun(lc, r, ms) && i < |ms| && AllRunsAlike(lc, ms, r)
    ensures PositionSettledAt(lc, r, ms, i)
  {
    RunKeepsInv(lc, r, ms, i);
    forall l', t' | LoopStep(lc, r[i], ms[i].0, ms[i].1, l') && LoopStep(lc, r[i], ms[i].0, ms[i].1, t')
      ensures Alike(l', t')
    {
      var p := OtherWay(lc, ms, r, i, l');
      var q := OtherWay(lc, ms, r, i, t');
      assert AlwaysAlike(r, p) && AlwaysAlike(r, q);
      assert Alike(r[i + 1], l') && Alike(r[i + 1], t');
    }
    TwinsExactly(lc, r[i], ms[i].0, ms[i].1);
  }

  /** They are equal, realized profit included, exactly if before each event position and books were settled. */
  lemma RunsEqualExactly(lc: LoopConfig, ms: seq<(Market, nat)>, r: seq<Loop>)
    requires IsLoopRun(lc, r, ms)
    ensures AllRunsEqual(lc, ms, r) <==> forall i :: 0 <= i < |ms| ==> AllSettledAt(lc, r, ms, i)
  {
    if forall i :: 0 <= i < |ms| ==> AllSettledAt(lc, r, ms, i) {
      forall q | IsLoopRun(lc, q, ms) ensures r == q {
        forall k | 0 <= k < |r| ensures r[k] == q[k] {
          SameMarketEqualNode(lc, ms, r, q, k);
        }
      }
    }
    if AllRunsEqual(lc, ms, r) {
      forall i | 0 <= i < |ms| ensures AllSettledAt(lc, r, ms, i) {
        EqualRunsSettle(lc, ms, r, i);
      }
    }
  }

  lemma EqualRunsSettle(lc: LoopConfig, ms: seq<(Market, nat)>, r: seq<Loop>, i: nat)
    requires IsLoopRun(lc, r, ms) && i < |ms| && AllRunsEqual(lc, ms, r)
    ensures AllSettledAt(lc, r, ms, i)
  {
    RunKeepsInv(lc, r, ms, i);
    forall l', t' | LoopStep(lc, r[i], ms[i].0, ms[i].1, l') && LoopStep(lc, r[i], ms[i].0, ms[i].1, t')
      ensures l' == t'
    {
      var p := OtherWay(lc, ms, r, i, l');
      var q := OtherWay(lc, ms, r, i, t');
      assert p == r == q;
    }
    OutcomesEqualExactly(lc, r[i], ms[i].0, ms[i].1);
  }

  // ---- Markets that do not cross ----

  /** Some bid is above some ask. */
  predicate Crossed(books: map<string, Book>, pair: string) {
    pair in books && exists b, a :: b in books[pair].bids && a in books[pair].asks && b > a
  }

  /** Both own quotes are filled at once only by a crossed book. */
  lemma TwoHitsCross(lc: LoopConfig, l: Loop, m: Market)
    requires LoopInv(lc, l) && HitOn(lc, l, m, Buy) != [] && HitOn(lc, l, m, Sell) != []
    ensures Crossed(Fed(l, m).books, lc.symbol.Pair())
  {
    var b :| IsHit(lc, l, m, Buy, b);
    var a :| IsHit(lc, l, m, Sell, a);
    QuotesCross(lc, l, m, b, a);
  }

  lemma QuotesCross(lc: LoopConfig, l: Loop, m: Market, b: string, a: string)
    requires QuotePair(lc, l.sys.ex.resting) && IsHit(lc, l, m, Buy, b) && IsHit(lc, l, m, Sell, a)
    ensures Crossed(Fed(l, m).books, lc.symbol.Pair())
  {
    var bidPrice, askPrice :| bidPrice < askPrice && RestAt(lc, l.sys.ex.resting, bidPrice, askPrice);
    var books := Fed(l, m).books;
    HitRests(lc, l, m, b);
    HitRests(lc, l, m, a);
    CrossMeansMatchable(books, l.sys.ex.resting[b]);
    CrossMeansMatchable(books, l.sys.ex.resting[a]);
    var p :| p in Facing(books, lc.symbol.Pair(), Buy) && Within(Buy, Some(bidPrice), p);
    var q :| q in Facing(books, lc.symbol.Pair(), Sell) && Within(Sell, Some(askPrice), q);
  }

  ghost predicate NeverCrossed(lc: LoopConfig, ms: seq<(Market, nat)>, r: seq<Loop>)
    requires |ms| < |r|
  {
    forall i :: 0 <= i < |ms| ==> !CrossedAt(lc, ms, r, i)
  }

  ghost predicate CrossedAt(lc: LoopConfig, ms: seq<(Market, nat)>, r: seq<Loop>, i: int)
    requires 0 <= i < |ms| < |r|
  {
    Crossed(Fed(r[i], ms[i].0).books, lc.symbol.Pair())
  }

  /** On a market whose book never crosses all nodes are equal: same hash, same profit, same number of fills. */
  lemma UncrossedMarketSameNode(lc: LoopConfig, ms: seq<(Market, nat)>, r: seq<Loop>, q: seq<Loop>)
    requires IsLoopRun(lc, r, ms) && IsLoopRun(lc, q, ms) && NeverCrossed(lc, ms, r)
    ensures r == q
  {
    forall i | 0 <= i < |ms| ensures AllSettledAt(lc, r, ms, i) {
      RunKeepsInv(lc, r, ms, i);
      assert !CrossedAt(lc, ms, r, i);
      if HitOn(lc, r[i], ms[i].0, Buy) != [] && HitOn(lc, r[i], ms[i].0, Sell) != [] {
        TwoHitsCross(lc, r[i], ms[i].0);
      }
    }
    RunsEqualExactly(lc, ms, r);
  }
}
