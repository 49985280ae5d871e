/** The pre-trade risk gates with their rate limiter and circuit breaker
    (crates/atomic-risk/src/limits.rs). */
module Risk {
  import opened Types

  const SECOND: nat := 1000000000

  datatype Limits = Limits(maxPositionQty: nat, maxNotional: int, maxTotalNotional: int, maxOrderQty: nat,
                           maxOpenOrders: nat, maxLoss: int, maxOrdersPerSecond: nat, maxSpread: int,
                           maxConsecutiveLosses: nat, maxDrawdownBps: nat)

  datatype Position = Position(side: Side, qty: nat)

  datatype Order = Order(side: Side, qty: nat, price: int, position: Option<Position>)

  /** The gates an order passes, in this order. */
  datatype Gate = KillSwitch | CircuitBreaker | Spread | OrderQty | PositionQty | Notional | TotalNotional
                | OpenOrders | RateLimit | MaxLoss

  datatype Verdict = Accepted | Refused(gate: Gate)

  function Rank(g: Gate): nat {
    match g
    case KillSwitch => 0
    case CircuitBreaker => 1
    case Spread => 2
    case OrderQty => 3
    case PositionQty => 4
    case Notional => 5
    case TotalNotional => 6
    case OpenOrders => 7
    case RateLimit => 8
    case MaxLoss => 9
  }

  lemma RankIdentifies(g: Gate, h: Gate)
    ensures Rank(g) == Rank(h) ==> g == h
  {
  }

  // ---- The rate limiter ----

  ghost predicate Sorted(ts: seq<nat>) {
    forall i, j :: 0 <= i < j < |ts| ==> ts[i] <= ts[j]
  }

  /** As many orders as allowed were accepted during the last second. */
  predicate Busy(accepted: seq<nat>, now: nat, rate: nat) {
    |accepted| >= rate && (rate == 0 || now - accepted[|accepted| - rate] < SECOND)
  }

  /** Among any rate + 1 consecutively accepted orders the last comes a second after the first. */
  ghost predicate RateKept(accepted: seq<nat>, rate: nat) {
    forall i :: 0 <= i < |accepted| - rate ==> accepted[i + rate] - accepted[i] >= SECOND
  }

  lemma AcceptKeepsRate(accepted: seq<nat>, now: nat, rate: nat)
    requires RateKept(accepted, rate) && !Busy(accepted, now, rate)
    ensures RateKept(accepted + [now], rate)
  {
    var longer := accepted + [now];
    forall i | 0 <= i < |longer| - rate ensures longer[i + rate] - longer[i] >= SECOND {
      if i + rate < |accepted| {
        assert accepted[i + rate] - accepted[i] >= SECOND;
      } else {
        assert i == |accepted| - rate;
      }
    }
  }

  /** The indices of the orders accepted in the half-open second that starts at `start`. */
  function InSecond(accepted: seq<nat>, start: int): set<nat> {
    set i: nat | i < |accepted| && start <= accepted[i] < start + SECOND
  }

  lemma {:induction false} FirstInSecond(accepted: seq<nat>, start: int, n: nat) returns (first: nat)
    requires n <= |accepted|
    ensures first <= n
    ensures forall i :: 0 <= i < first ==> !(start <= accepted[i] < start + SECOND)
    ensures first < n ==> start <= accepted[first] < start + SECOND
  {
    first := 0;
    if n > 0 {
      first := FirstInSecond(accepted, start, n - 1);
      if first == n - 1 && !(start <= accepted[first] < start + SECOND) {
        first := n;
      }
    }
  }

  /** No half-open one-second window holds more accepted orders than the limit. */
  lemma WindowHoldsRate(accepted: seq<nat>, rate: nat, start: int)
    requires Sorted(accepted) && RateKept(accepted, rate)
    ensures |InSecond(accepted, start)| <= rate
  {
    var hits := InSecond(accepted, start);
    var first := FirstInSecond(accepted, start, |accepted|);
    forall i | i in hits ensures first - 1 < i <= first + rate - 1 {
      if i >= first + rate {
        OrdersApart(accepted, rate, first, i);
        assert false;
      }
    }
    IntervalSize(hits, first - 1, first + rate - 1);
  }

  lemma OrdersApart(accepted: seq<nat>, rate: nat, i: nat, j: nat)
    requires Sorted(accepted) && RateKept(accepted, rate) && i + rate <= j < |accepted|
    ensures accepted[j] - accepted[i] >= SECOND
  {
    assert accepted[i + rate] - accepted[i] >= SECOND;
  }

  /** The timestamps less than a second old. */
  function Retained(ts: seq<nat>, now: nat): seq<nat> {
    if ts == [] then [] else (if now - ts[0] < SECOND then [ts[0]] else []) + Retained(ts[1..], now)
  }

  /** The first k timestamps, and only those, are a second old. */
  ghost predicate OldPrefix(ts: seq<nat>, now: nat, k: nat) {
    k <= |ts| && forall i :: 0 <= i < |ts| ==> (now - ts[i] >= SECOND <==> i < k)
  }

  lemma PrefixGrows(ts: seq<nat>, now: nat, rest: nat)
    requires ts != [] && Sorted(ts) && OldPrefix(ts[1..], now, rest)
    ensures now - ts[0] >= SECOND ==> OldPrefix(ts, now, rest + 1)
    ensures now - ts[0] < SECOND ==> rest == 0 && OldPrefix(ts, now, 0)
  {
    forall i | 0 < i < |ts| ensures now - ts[i] >= SECOND <==> i - 1 < rest {
      assert ts[i] == ts[1..][i - 1];
    }
    if rest > 0 {
      assert ts[0] <= ts[1] && now - ts[1] >= SECOND;
    } else {
      assert |ts| > 1 ==> now - ts[1] < SECOND;
    }
  }

  /** Of ordered timestamps the old ones are a prefix. */
  lemma {:induction false} RetainedIsSuffix(ts: seq<nat>, now: nat) returns (k: nat)
    requires Sorted(ts)
    ensures OldPrefix(ts, now, k) && Retained(ts, now) == ts[k..]
  {
    k := 0;
    if ts != [] {
      var rest := RetainedIsSuffix(ts[1..], now);
      PrefixGrows(ts, now, rest);
      if now - ts[0] >= SECOND {
        k := rest + 1;
        assert ts[1..][rest..] == ts[k..];
      } else {
        assert [ts[0]] + ts[1..] == ts;
      }
    }
  }

  /** What is kept of the accepted orders' times: all that were less than a second old at the last check. */
  ghost predicate Keeps(accepted: seq<nat>, kept: seq<nat>, clock: nat, rate: nat) {
    && Sorted(accepted) && RateKept(accepted, rate)
    && (forall t :: t in accepted ==> t <= clock)
    && |kept| <= |accepted| && kept == accepted[|accepted| - |kept|..]
    && forall i :: 0 <= i < |accepted| - |kept| ==> clock - accepted[i] >= SECOND
  }

  /** Forgetting the old ones loses nothing the limiter needs. */
  lemma PruneKeeps(accepted: seq<nat>, kept: seq<nat>, clock: nat, now: nat, rate: nat)
    requires Keeps(accepted, kept, clock, rate) && clock <= now
    ensures Keeps(accepted, kept, now, rate) && Keeps(accepted, Retained(kept, now), now, rate)
    ensures |Retained(kept, now)| >= rate <==> Busy(accepted, now, rate)
  {
    var forgotten := |accepted| - |kept|;
    var k := RetainedIsSuffix(kept, now);
    assert accepted[forgotten..][k..] == accepted[forgotten + k..];
    AllOldForgotten(accepted, kept, clock, now, rate, k);
  }

  lemma AllOldForgotten(accepted: seq<nat>, kept: seq<nat>, clock: nat, now: nat, rate: nat, k: nat)
    requires Keeps(accepted, kept, clock, rate) && clock <= now && OldPrefix(kept, now, k)
    ensures OldPrefix(accepted, now, |accepted| - |kept| + k)
  {
    var forgotten := |accepted| - |kept|;
    forall i | 0 <= i < |accepted| ensures now - accepted[i] >= SECOND <==> i < forgotten + k {
      if i >= forgotten { assert accepted[i] == kept[i - forgotten]; }
    }
  }

  lemma AcceptKeeps(accepted: seq<nat>, kept: seq<nat>, now: nat, rate: nat)
    requires Keeps(accepted, kept, now, rate) && !Busy(accepted, now, rate)
    ensures Keeps(accepted + [now], kept + [now], now, rate)
  {
    AcceptKeepsRate(accepted, now, rate);
    var longer := accepted + [now];
    assert accepted[|accepted| - |kept|..] + [now] == longer[|accepted| - |kept|..];
    forall i, j | 0 <= i < j < |longer| ensures longer[i] <= longer[j] {
      assert accepted[i] in accepted;
    }
  }

  // ---- The circuit breaker ----

  function Total(deltas: seq<int>): int {
    if deltas == [] then 0 else Total(deltas[..|deltas| - 1]) + deltas[|deltas| - 1]
  }

  /** A total is the sum of the totals of its parts. */
  lemma {:induction false} TotalAdds(a: seq<int>, b: seq<int>)
    ensures Total(a + b) == Total(a) + Total(b)
    ensures |b| == 1 ==> Total(b) == b[0]
  {
    if b == [] {
      assert a + b == a;
    } else {
      assert (a + b)[..|a + b| - 1] == a + b[..|b| - 1];
      TotalAdds(a, b[..|b| - 1]);
    }
  }

  /** The highest running total, never less than zero. */
  function Peak(deltas: seq<int>): int {
    if deltas == [] then 0 else Max(Peak(deltas[..|deltas| - 1]), Total(deltas))
  }

  predicate BelowPeak(peak: int, total: int, bps: nat) {
    bps > 0 && peak > 0 && (peak - total) * 10000 > peak * bps
  }

  /** The drawdown limit was exceeded at some time. */
  predicate DrewDown(deltas: seq<int>, bps: nat) {
    deltas != [] && (DrewDown(deltas[..|deltas| - 1], bps) || BelowPeak(Peak(deltas), Total(deltas), bps))
  }

  /** Losing round-trips since the last winning one. */
  function LossRun(losses: seq<bool>): nat {
    if losses == [] || !losses[|losses| - 1] then 0 else LossRun(losses[..|losses| - 1]) + 1
  }

  predicate LostTooOften(losses: seq<bool>, limit: nat) {
    losses != [] && (LostTooOften(losses[..|losses| - 1], limit) || (limit > 0 && LossRun(losses) >= limit))
  }

  lemma {:induction false} PeakIsHighest(deltas: seq<int>, n: nat)
    requires n <= |deltas|
    ensures Total(deltas[..n]) <= Peak(deltas)
  {
    if n == |deltas| {
      assert deltas[..n] == deltas;
    } else {
      var front := deltas[..|deltas| - 1];
      assert front[..n] == deltas[..n];
      PeakIsHighest(front, n);
    }
  }

  lemma {:induction false} PeakIsReached(deltas: seq<int>) returns (n: nat)
    ensures n <= |deltas| && Total(deltas[..n]) == Peak(deltas)
  {
    n := 0;
    if deltas != [] {
      var front := deltas[..|deltas| - 1];
      if Peak(deltas) == Total(deltas) {
        n := |deltas|;
        assert deltas[..n] == deltas;
      } else {
        n := PeakIsReached(front);
        assert front[..n] == deltas[..n];
      }
    }
  }

  lemma {:induction false} DrewDownSometime(deltas: seq<int>, bps: nat, n: nat)
    requires n <= |deltas| && BelowPeak(Peak(deltas[..n]), Total(deltas[..n]), bps)
    ensures DrewDown(deltas, bps)
  {
    if n == |deltas| {
      assert deltas[..n] == deltas;
    } else {
      assert deltas[..|deltas| - 1][..n] == deltas[..n];
      DrewDownSometime(deltas[..|deltas| - 1], bps, n);
    }
  }

  lemma {:induction false} DrewDownWhen(deltas: seq<int>, bps: nat) returns (n: nat)
    requires DrewDown(deltas, bps)
    ensures 0 < n <= |deltas| && BelowPeak(Peak(deltas[..n]), Total(deltas[..n]), bps)
  {
    var front := deltas[..|deltas| - 1];
    if DrewDown(front, bps) {
      n := DrewDownWhen(front, bps);
      assert front[..n] == deltas[..n];
    } else {
      n := |deltas|;
      assert deltas[..n] == deltas;
    }
  }

  /** From the profit at time i to that at time j more than the limit was lost. */
  ghost predicate FellBetween(deltas: seq<int>, bps: nat, i: nat, j: nat) {
    && i <= j <= |deltas| && bps > 0
    && (var high, low := Total(deltas[..i]), Total(deltas[..j]);
        high > 0 && 10000 * (high - low) > bps * high)
  }

  /** With a limit of at most 100 percent the peak can be any earlier time: the limit was exceeded
      exactly if profit fell by more than the limit between some two times. */
  lemma DrawdownMeans(deltas: seq<int>, bps: nat)
    requires bps <= 10000
    ensures DrewDown(deltas, bps) <==> exists i: nat, j: nat :: FellBetween(deltas, bps, i, j)
  {
    if DrewDown(deltas, bps) {
      var j := DrewDownWhen(deltas, bps);
      var i := PeakIsReached(deltas[..j]);
      assert deltas[..j][..i] == deltas[..i];
      assert FellBetween(deltas, bps, i, j);
    }
    if i: nat, j: nat :| FellBetween(deltas, bps, i, j) {
      PeakIsHighest(deltas[..j], i);
      assert deltas[..j][..i] == deltas[..i];
      HigherPeak(Total(deltas[..i]), Peak(deltas[..j]), Total(deltas[..j]), bps);
      DrewDownSometime(deltas, bps, j);
    }
  }

  /** Up to time j profit was never higher than at time i. */
  ghost predicate Highest(deltas: seq<int>, i: nat, j: nat) {
    i <= j <= |deltas| && forall n: nat :: n <= j ==> Total(deltas[..n]) <= Total(deltas[..i])
  }

  /** With any limit: exactly if at some time profit was by more than the limit below the highest it had been. */
  lemma DrawdownExactly(deltas: seq<int>, bps: nat)
    ensures DrewDown(deltas, bps) <==> exists i: nat, j: nat :: Highest(deltas, i, j) && FellBetween(deltas, bps, i, j)
  {
    if DrewDown(deltas, bps) {
      var j := DrewDownWhen(deltas, bps);
      var i := HighestUpTo(deltas, j);
      assert FellBetween(deltas, bps, i, j);
    }
    if i: nat, j: nat :| Highest(deltas, i, j) && FellBetween(deltas, bps, i, j) {
      HighestIsPeak(deltas, i, j);
      DrewDownSometime(deltas, bps, j);
    }
  }

  lemma HighestUpTo(deltas: seq<int>, j: nat) returns (i: nat)
    requires j <= |deltas|
    ensures Highest(deltas, i, j) && Total(deltas[..i]) == Peak(deltas[..j])
  {
    i := PeakIsReached(deltas[..j]);
    assert deltas[..j][..i] == deltas[..i];
    forall n: nat | n <= j ensures Total(deltas[..n]) <= Total(deltas[..i]) {
      PeakIsHighest(deltas[..j], n);
      assert deltas[..j][..n] == deltas[..n];
    }
  }

  lemma HighestIsPeak(deltas: seq<int>, i: nat, j: nat)
    requires Highest(deltas, i, j)
    ensures Total(deltas[..i]) == Peak(deltas[..j])
  {
    var n := HighestUpTo(deltas, j);
    assert Total(deltas[..i]) <= Total(deltas[..n]) && Total(deltas[..n]) <= Total(deltas[..i]);
  }

  lemma HigherPeak(low: int, high: int, total: int, bps: nat)
    requires low <= high && bps <= 10000 && BelowPeak(low, total, bps)
    ensures BelowPeak(high, total, bps)
  {
    MulLe(low, high, 10000 - bps);
    assert low * (10000 - bps) == low * 10000 - low * bps;
    assert high * (10000 - bps) == high * 10000 - high * bps;
  }

  ghost predicate AllLost(losses: seq<bool>, i: nat, k: nat) {
    i + k <= |losses| && forall n :: i <= n < i + k ==> losses[n]
  }

  lemma {:induction false} LossRunIsLongest(losses: seq<bool>)
    ensures LossRun(losses) <= |losses| && AllLost(losses, |losses| - LossRun(losses), LossRun(losses))
    ensures LossRun(losses) < |losses| ==> !losses[|losses| - LossRun(losses) - 1]
  {
    if losses != [] {
      LossRunIsLongest(losses[..|losses| - 1]);
    }
  }

  /** The loss limit was reached exactly if there is one and that many losing round-trips came in a row. */
  lemma {:induction false} StreakMeans(losses: seq<bool>, limit: nat)
    ensures LostTooOften(losses, limit) <==> limit > 0 && exists i: nat :: AllLost(losses, i, limit)
  {
    if losses != [] {
      var front := losses[..|losses| - 1];
      StreakMeans(front, limit);
      LossRunIsLongest(losses);
      if LostTooOften(front, limit) {
        var i: nat :| AllLost(front, i, limit);
        assert AllLost(losses, i, limit);
      } else if LostTooOften(losses, limit) {
        assert AllLost(losses, |losses| - limit, limit);
      }
      if i: nat :| limit > 0 && AllLost(losses, i, limit) {
        if i + limit <= |front| {
          assert AllLost(front, i, limit);
        } else if LossRun(losses) < limit {
          assert false;
        }
      }
    }
  }

  // ---- The gates ----

  /** All that an order is judged by. */
  datatype Gauges = Gauges(limits: Limits, killSwitch: bool, circuitBreaker: bool, spread: int, openOrders: nat,
                           recent: seq<nat>, totalPnl: int)

  /** The position the order would lead to. */
  function Resulting(o: Order): nat
    requires o.position.Some?
  {
    var pos := o.position.value;
    if pos.side == o.side then pos.qty + o.qty else Abs(o.qty - pos.qty)
  }

  /** Bought positive, sold negative. */
  function SignedQty(side: Side, qty: nat): int { if side.Buy? then qty else 0 - qty }

  /** The resulting position is the size of the signed sum of position and order. */
  lemma ResultingIs(o: Order)
    requires o.position.Some?
    ensures Resulting(o) == Abs(SignedQty(o.position.value.side, o.position.value.qty) + SignedQty(o.side, o.qty))
  {
  }

  /** An order against a position within the limit, of at most twice its size, is never refused for the position: it leaves
      no more than there was. */
  lemma ClosingNeverRefused(s: Gauges, o: Order, now: nat)
    requires o.position.Some? && o.position.value.side != o.side && o.qty <= 2 * o.position.value.qty
    requires o.position.value.qty <= s.limits.maxPositionQty
    ensures Resulting(o) <= o.position.value.qty && !Answers(Refused(PositionQty), s, o, now)
  {
    ResultingIs(o);
  }

  /** What each gate objects to. Without a position the three position gates are open. */
  predicate Closes(g: Gate, s: Gauges, o: Order, now: nat) {
    match g
    case KillSwitch => s.killSwitch
    case CircuitBreaker => s.circuitBreaker
    case Spread => s.limits.maxSpread > 0 && s.spread > s.limits.maxSpread
    case OrderQty => o.qty > s.limits.maxOrderQty
    case PositionQty => o.position.Some? && Resulting(o) > s.limits.maxPositionQty
    case Notional => o.position.Some? && Resulting(o) * o.price > s.limits.maxNotional
    case TotalNotional => o.position.Some? && Resulting(o) * o.price > s.limits.maxTotalNotional
    case OpenOrders => s.openOrders >= s.limits.maxOpenOrders
    case RateLimit => |Retained(s.recent, now)| >= s.limits.maxOrdersPerSecond
    case MaxLoss => s.totalPnl < s.limits.maxLoss
  }

  ghost predicate ClearBelow(g: Gate, s: Gauges, o: Order, now: nat) {
    forall h :: Rank(h) < Rank(g) ==> !Closes(h, s, o, now)
  }

  /** The right answer to an order: accepted if no gate objects, else refused by the first that does. */
  ghost predicate Answers(r: Verdict, s: Gauges, o: Order, now: nat) {
    match r
    case Accepted => forall g :: !Closes(g, s, o, now)
    case Refused(g) => Closes(g, s, o, now) && ClearBelow(g, s, o, now)
  }

  /** There is only one right answer. */
  lemma AnswerIsUnique(r: Verdict, t: Verdict, s: Gauges, o: Order, now: nat)
    requires Answers(r, s, o, now) && Answers(t, s, o, now)
    ensures r == t
  {
    if r.Refused? && t.Refused? {
      RankIdentifies(r.gate, t.gate);
    }
  }

  /** The last two gates decide about an order that has passed all others. */
  lemma LastGates(s: Gauges, o: Order, now: nat)
    requires ClearBelow(RateLimit, s, o, now)
    ensures Answers(if |Retained(s.recent, now)| >= s.limits.maxOrdersPerSecond then Refused(RateLimit)
                    else if s.totalPnl < s.limits.maxLoss then Refused(MaxLoss) else Accepted, s, o, now)
  {
  }

  /** The gates that do not look at the order let orders through. */
  predicate GatesOpen(s: Gauges, now: nat) {
    && !s.killSwitch && !s.circuitBreaker
    && !(s.limits.maxSpread > 0 && s.spread > s.limits.maxSpread)
    && s.openOrders < s.limits.maxOpenOrders
    && |Retained(s.recent, now)| < s.limits.maxOrdersPerSecond
    && s.totalPnl >= s.limits.maxLoss
  }

  /** What an order has to be itself. */
  predicate SizeFits(l: Limits, o: Order) {
    && o.qty <= l.maxOrderQty
    && (o.position.Some? ==>
          && Resulting(o) <= l.maxPositionQty
          && Resulting(o) * o.price <= Min(l.maxNotional, l.maxTotalNotional))
  }

  lemma AcceptedMeans(s: Gauges, o: Order, now: nat)
    ensures Answers(Accepted, s, o, now) <==> GatesOpen(s, now) && SizeFits(s.limits, o)
  {
    if GatesOpen(s, now) && SizeFits(s.limits, o) {
      forall g ensures !Closes(g, s, o, now) {
        match g
        case _ =>
      }
    }
    if Answers(Accepted, s, o, now) {
      assert !Closes(KillSwitch, s, o, now) && !Closes(CircuitBreaker, s, o, now) && !Closes(Spread, s, o, now);
      assert !Closes(OrderQty, s, o, now) && !Closes(PositionQty, s, o, now) && !Closes(Notional, s, o, now);
      assert !Closes(TotalNotional, s, o, now) && !Closes(OpenOrders, s, o, now);
      assert !Closes(RateLimit, s, o, now) && !Closes(MaxLoss, s, o, now);
    }
  }

  /** Acceptance in terms of the order and the readings alone: with the position signed, the sum of position and order is
      within the limits. */
  lemma AcceptedExactly(s: Gauges, o: Order, now: nat)
    ensures Answers(Accepted, s, o, now)
            <==> && !s.killSwitch && !s.circuitBreaker && (s.limits.maxSpread <= 0 || s.spread <= s.limits.maxSpread)
                 && o.qty <= s.limits.maxOrderQty && s.openOrders < s.limits.maxOpenOrders
                 && |Retained(s.recent, now)| < s.limits.maxOrdersPerSecond && s.totalPnl >= s.limits.maxLoss
                 && match o.position
                    case None => true
                    case Some(p) =>
                      var after := Abs(SignedQty(p.side, p.qty) + SignedQty(o.side, o.qty));
                      after <= s.limits.maxPositionQty && after * o.price <= s.limits.maxNotional
                      && after * o.price <= s.limits.maxTotalNotional
  {
    AcceptedMeans(s, o, now);
    if o.position.Some? {
      ResultingIs(o);
    }
  }

  // ---- Which limits acceptance keeps ----

  /** Every accepted order on top of a position leaves all notional, `others` being that of other symbols, within
      the aggregate limit. */
  ghost predicate KeepsAggregate(s: Gauges, others: int, now: nat) {
    forall o: Order :: o.position.Some? && Answers(Accepted, s, o, now)
                       ==> others + Resulting(o) * o.price <= s.limits.maxTotalNotional
  }

  /** The aggregate limit is compared with the notional of one symbol alone. So it is kept across symbols exactly if
      nothing is accepted at all, or what the other symbols hold leaves room for the largest notional that one
      symbol may have. */
  lemma AggregateExactly(s: Gauges, others: int, now: nat)
    ensures KeepsAggregate(s, others, now)
            <==> || !GatesOpen(s, now)
                 || (if s.limits.maxPositionQty >= 1
                     then others + Min(s.limits.maxNotional, s.limits.maxTotalNotional) <= s.limits.maxTotalNotional
                     else others <= s.limits.maxTotalNotional || Min(s.limits.maxNotional, s.limits.maxTotalNotional) < 0)
  {
    var most := Min(s.limits.maxNotional, s.limits.maxTotalNotional);
    var held := if s.limits.maxPositionQty >= 1 then 1 else 0;
    var o := Order(Buy, 0, most, Some(Position(Buy, held)));
    AcceptedMeans(s, o, now);
    assert Resulting(o) == held && Resulting(o) * o.price == if held == 1 then most else 0;
    forall x: Order | x.position.Some? && Answers(Accepted, s, x, now)
      ensures GatesOpen(s, now) && SizeFits(s.limits, x)
    {
      AcceptedMeans(s, x, now);
    }
  }

  /** With the default limits: 800 billion held elsewhere, 300 billion accepted, 1,000 billion allowed in all. */
  lemma AggregateExceeded(now: nat)
    ensures var limits := Limits(1000000000, 500000000000, 1000000000000, 100000000, 100, -10000000000, 50, 5000, 5, 200);
            var o := Order(Buy, 1000000, 200000, Some(Position(Buy, 500000)));
            && Answers(Accepted, Gauges(limits, false, false, 0, 0, [], 0), o, now)
            && 800000000000 + Resulting(o) * o.price > limits.maxTotalNotional
  {
    var limits := Limits(1000000000, 500000000000, 1000000000000, 100000000, 100, -10000000000, 50, 5000, 5, 200);
    AcceptedMeans(Gauges(limits, false, false, 0, 0, [], 0), Order(Buy, 1000000, 200000, Some(Position(Buy, 500000))), now);
  }

  /** The position an order leads to when no position stands for an empty one. */
  function After(o: Order): nat {
    if o.position.Some? then Resulting(o) else o.qty
  }

  ghost predicate KeepsPosition(s: Gauges, now: nat) {
    forall o: Order :: Answers(Accepted, s, o, now) ==> After(o) <= s.limits.maxPositionQty
  }

  ghost predicate KeepsNotional(s: Gauges, now: nat) {
    forall o: Order :: Answers(Accepted, s, o, now) ==> After(o) * o.price <= s.limits.maxNotional
  }

  /** The limits per symbol are checked only on top of a position. So acceptance keeps the position limit exactly if
      no order may be larger than it, and the notional limit only if orders are empty, or nothing is accepted. */
  lemma SymbolLimitsExactly(s: Gauges, now: nat)
    ensures KeepsPosition(s, now) <==> !GatesOpen(s, now) || s.limits.maxOrderQty <= s.limits.maxPositionQty
    ensures KeepsNotional(s, now) <==> !GatesOpen(s, now) || (s.limits.maxOrderQty == 0 && s.limits.maxNotional >= 0)
  {
    var large := Order(Buy, s.limits.maxOrderQty, 0, None);
    AcceptedMeans(s, large, now);
    var dear := Order(Buy, Min(1, s.limits.maxOrderQty), Max(0, s.limits.maxNotional) + 1, None);
    AcceptedMeans(s, dear, now);
    forall x: Order | Answers(Accepted, s, x, now) ensures GatesOpen(s, now) && SizeFits(s.limits, x) {
      AcceptedMeans(s, x, now);
    }
  }

  class RiskEngine {
    const limits: Limits
    var killSwitch: bool
    var openOrderCount: nat
    var totalPnl: int
    var orderTimestamps: seq<nat>
    var currentSpread: int
    var consecutiveLosses: nat
    var circuitBreaker: bool
    var peakPnl: int
    /** The times of all accepted orders, the time of the last check, whether no check was ever timed before an
        earlier one, and the profits and round-trips since the last daily reset. */
    ghost var accepted: seq<nat>
    ghost var clock: nat
    ghost var ordered: bool
    ghost var deltas: seq<int>
    ghost var losses: seq<bool>

    ghost predicate Limiter()
      reads this
    {
      ordered ==> Keeps(accepted, orderTimestamps, clock, limits.maxOrdersPerSecond)
    }

    ghost predicate Breaker()
      reads this
    {
      && totalPnl == Total(deltas) && peakPnl == Peak(deltas)
      && consecutiveLosses == LossRun(losses)
      && circuitBreaker == (DrewDown(deltas, limits.maxDrawdownBps) || LostTooOften(losses, limits.maxConsecutiveLosses))
    }

    ghost predicate Valid()
      reads this
    {
      Limiter() && Breaker()
    }

    constructor (limits: Limits)
      ensures Valid() && this.limits == limits && accepted == [] && clock == 0 && ordered && !killSwitch
      ensures deltas == [] && losses == [] && openOrderCount == 0 && currentSpread == 0
    {
      this.limits := limits;
      killSwitch, openOrderCount, totalPnl, orderTimestamps := false, 0, 0, [];
      currentSpread, consecutiveLosses, circuitBreaker, peakPnl := 0, 0, false, 0;
      accepted, clock, ordered, deltas, losses := [], 0, true, [], [];
    }

    function Reading(): Gauges
      reads this
    {
      Gauges(limits, killSwitch, circuitBreaker, currentSpread, openOrderCount, orderTimestamps, totalPnl)
    }

    method ActivateKillSwitch()
      modifies this`killSwitch
      ensures killSwitch
    {
      killSwitch := true;
    }

    method ResetKillSwitch()
      modifies this`killSwitch
      ensures !killSwitch
    {
      killSwitch := false;
    }

    /** The gates before the rate limit; none of them changes anything. */
    method CheckGates(o: Order, ghost now: nat) returns (objection: Option<Gate>)
      ensures objection.Some? ==> Answers(Refused(objection.value), Reading(), o, now) && objection.value != MaxLoss
      ensures objection.None? ==> ClearBelow(RateLimit, Reading(), o, now)
    {
      if killSwitch { return Some(KillSwitch); }
      if circuitBreaker { return Some(CircuitBreaker); }
      if limits.maxSpread > 0 && currentSpread > limits.maxSpread { return Some(Spread); }
      if o.qty > limits.maxOrderQty { return Some(OrderQty); }
      if o.position.Some? {
        var pos := o.position.value;
        var newQty := if pos.side == o.side then pos.qty + o.qty
                      else if o.qty > pos.qty then o.qty - pos.qty else pos.qty - o.qty;
        if newQty > limits.maxPositionQty { return Some(PositionQty); }
        var notional := newQty * o.price;
        if notional > limits.maxNotional { return Some(Notional); }
        if notional > limits.maxTotalNotional { return Some(TotalNotional); }
      }
      if openOrderCount >= limits.maxOpenOrders { return Some(OpenOrders); }
      return None;
    }

    /** An order is accepted exactly if no gate objects; otherwise the first objection is reported, and
        too large a loss also throws the kill switch. */
    method CheckOrder(o: Order, now: nat) returns (r: Verdict)
      requires Valid() && forall t :: t in orderTimestamps ==> t <= now
      modifies this`killSwitch, this`orderTimestamps, this`accepted, this`clock, this`ordered
      ensures Valid() && clock == now && ordered == (old(ordered) && old(clock) <= now)
      ensures Answers(r, old(Reading()), o, now)
      ensures accepted == if r.Accepted? then old(accepted) + [now] else old(accepted)
      ensures killSwitch == (old(killSwitch) || r == Refused(MaxLoss))
    {
      var objection := CheckGates(o, now);
      AdvanceClock(now);
      if objection.Some? {
        return Refused(objection.value);
      }
      LastGates(Reading(), o, now);
      PruneTimestamps(now);
      if |orderTimestamps| >= limits.maxOrdersPerSecond {
        return Refused(RateLimit);
      }
      if totalPnl < limits.maxLoss {
        ActivateKillSwitch();
        return Refused(MaxLoss);
      }
      RecordAccepted(now);
      r := Accepted;
    }

    ghost method AdvanceClock(now: nat)
      requires Limiter()
      modifies this`clock, this`ordered
      ensures Limiter() && clock == now && ordered == (old(ordered) && old(clock) <= now)
    {
      if ordered && clock <= now {
        PruneKeeps(accepted, orderTimestamps, clock, now, limits.maxOrdersPerSecond);
      }
      ordered := ordered && clock <= now;
      clock := now;
    }

    /** Drops the old timestamps; in an orderly run those that stay tell whether the last second was busy. */
    method PruneTimestamps(now: nat)
      requires Limiter() && clock == now
      modifies this`orderTimestamps
      ensures Limiter() && orderTimestamps == Retained(old(orderTimestamps), now)
      ensures ordered ==> (|orderTimestamps| >= limits.maxOrdersPerSecond <==> Busy(accepted, now, limits.maxOrdersPerSecond))
    {
      if ordered {
        PruneKeeps(accepted, orderTimestamps, clock, now, limits.maxOrdersPerSecond);
      }
      orderTimestamps := Retained(orderTimestamps, now);
    }

    method RecordAccepted(now: nat)
      requires Limiter() && clock == now && (ordered ==> !Busy(accepted, now, limits.maxOrdersPerSecond))
      modifies this`orderTimestamps, this`accepted
      ensures Limiter() && accepted == old(accepted) + [now]
    {
      if ordered {
        AcceptKeeps(accepted, orderTimestamps, now, limits.maxOrdersPerSecond);
      }
      orderTimestamps := orderTimestamps + [now];
      accepted := accepted + [now];
    }

    method OnOrderOpened()
      requires Valid()
      modifies this`openOrderCount
      ensures Valid() && openOrderCount == old(openOrderCount) + 1
    {
      openOrderCount := openOrderCount + 1;
    }

    method OnOrderClosed()
      requires Valid()
      modifies this`openOrderCount
      ensures Valid() && openOrderCount == SaturatingSub(old(openOrderCount), 1)
    {
      openOrderCount := SaturatingSub(openOrderCount, 1);
    }

    method UpdatePnl(delta: int)
      requires Valid()
      modifies this`totalPnl, this`peakPnl, this`circuitBreaker, this`deltas
      ensures Valid() && deltas == old(deltas) + [delta]
    {
      assert (deltas + [delta])[..|deltas|] == deltas;
      deltas := deltas + [delta];
      totalPnl := totalPnl + delta;
      if totalPnl > peakPnl {
        peakPnl := totalPnl;
      }
      if limits.maxDrawdownBps > 0 && peakPnl > 0 {
        var drawdown := peakPnl - totalPnl;
        if drawdown * 10000 > peakPnl * limits.maxDrawdownBps {
          circuitBreaker := true;
        }
      }
    }

    method RecordWin()
      requires Valid()
      modifies this`consecutiveLosses, this`losses
      ensures Valid() && losses == old(losses) + [false]
    {
      assert (losses + [false])[..|losses|] == losses;
      losses := losses + [false];
      consecutiveLosses := 0;
    }

    method RecordLoss()
      requires Valid()
      modifies this`consecutiveLosses, this`circuitBreaker, this`losses
      ensures Valid() && losses == old(losses) + [true]
    {
      assert (losses + [true])[..|losses|] == losses;
      losses := losses + [true];
      consecutiveLosses := consecutiveLosses + 1;
      if limits.maxConsecutiveLosses > 0 && consecutiveLosses >= limits.maxConsecutiveLosses {
        circuitBreaker := true;
      }
    }

    method UpdateSpread(spread: int)
      requires Valid()
      modifies this`currentSpread
      ensures Valid() && currentSpread == spread
    {
      currentSpread := spread;
    }

    /** The reset closes the circuit again but leaves the kill switch and the rate limiter alone. */
    method DailyReset()
      requires Valid()
      modifies this`circuitBreaker, this`consecutiveLosses, this`peakPnl, this`totalPnl, this`deltas, this`losses
      ensures Valid() && deltas == [] && losses == [] && !circuitBreaker
    {
      circuitBreaker, consecutiveLosses, peakPnl, totalPnl := false, 0, 0, 0;
      deltas, losses := [], [];
    }

    /** In every state a run with nondecreasing times can reach, no one-second window holds more accepted orders than
        allowed. */
    lemma RateIsLimited(start: int)
      requires Valid() && ordered
      ensures |InSecond(accepted, start)| <= limits.maxOrdersPerSecond
    {
      WindowHoldsRate(accepted, limits.maxOrdersPerSecond, start);
    }
  }
}
