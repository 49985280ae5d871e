/** The vocabulary shared by every component: sides, orders, price levels and
    the execution events (crates/atomic-core/src/types.rs and event.rs).
    Prices are signed pipettes, quantities are unsigned base units. */
module Types {

  datatype Option<+T> = None | Some(value: T)

  datatype Result<+T, +E> = Success(value: T) | Failure(error: E) {
    predicate IsFailure() { Failure? }
    function PropagateFailure<U>(): Result<U, E> requires Failure? { Failure(error) }
    function Extract(): T requires Success? { value }
  }

  datatype Side = Buy | Sell

  datatype OrderType = Market | Limit | StopMarket | StopLimit

  datatype TimeInForce = GoodTilCancel | ImmediateOrCancel | FillOrKill | GoodTilDate(expiry: nat)

  datatype Venue = Binance | Bybit | OKX | Deribit | Coinbase | Kraken | DYDX | Hyperliquid | Simulated

  datatype Symbol = Symbol(base: string, quote: string, venue: Venue) {
    function Pair(): string { base + "/" + quote }
  }

  datatype Level = Level(price: int, qty: nat)

  datatype NewOrder = NewOrder(orderId: string, symbol: Symbol, side: Side, orderType: OrderType,
                               price: int, qty: nat, tif: TimeInForce, venue: Venue)

  datatype FillReport = FillReport(symbol: Symbol, side: Side, price: int, qty: nat,
                                   remaining: nat, fee: int, isMaker: bool)

  datatype Payload =
    | OrderNew(order: NewOrder)
    | OrderAck(ackId: string, exchangeOrderId: string)
    | OrderFill(fillId: string, fill: FillReport)
    | OrderPartialFill(partialId: string, partial: FillReport)
    | OrderCancel(cancelId: string, cancelReason: string)
    | OrderReject(rejectId: string, rejectReason: string)
    | NotExecution

  datatype Event = Event(seqNo: nat, timestamp: nat, payload: Payload)

  /** The order an event is about, if it is an execution event at all. */
  function Subject(p: Payload): Option<string> {
    match p
    case OrderNew(o) => Some(o.orderId)
    case OrderAck(id, _) => Some(id)
    case OrderFill(id, _) => Some(id)
    case OrderPartialFill(id, _) => Some(id)
    case OrderCancel(id, _) => Some(id)
    case OrderReject(id, _) => Some(id)
    case NotExecution => None
  }

  function Min(a: int, b: int): int { if a <= b then a else b }

  function Max(a: int, b: int): int { if a >= b then a else b }

  function Abs(a: int): nat { if a >= 0 then a else -a }

  /** Subtraction of unsigned integers that stops at zero. */
  function SaturatingSub(a: nat, b: nat): nat { if a >= b then a - b else 0 }

  /** Division as Rust and C++ do it: the quotient is rounded towards zero. */
  function TruncDiv(a: int, b: int): int
    requires b != 0
  {
    var q := Abs(a) / Abs(b);
    if (a >= 0) == (b > 0) then q else -q
  }

  /** q is the largest in size that does not exceed the ratio of a to b, with the sign of the ratio. */
  predicate IsQuotient(q: int, a: int, b: int) {
    && Abs(q) * Abs(b) <= Abs(a) < (Abs(q) + 1) * Abs(b)
    && (q != 0 ==> (q > 0 <==> (a > 0 <==> b > 0)))
  }

  lemma TruncDivIs(a: int, b: int)
    requires b != 0
    ensures IsQuotient(TruncDiv(a, b), a, b)
  {
    var q: int := QuotientFits(Abs(a), Abs(b));
    assert TruncDiv(a, b) == if (a >= 0) == (b > 0) then q else -q;
  }

  /** A larger numerator has no smaller quotient. */
  lemma TruncDivMonotone(a: int, b: int, c: int)
    requires a <= b && c > 0
    ensures TruncDiv(a, c) <= TruncDiv(b, c)
  {
    var x := QuotientFits(Abs(a), c);
    var y := QuotientFits(Abs(b), c);
    if a >= 0 && x > y {
      MulLe(y + 1, x, c);
      assert false;
    } else if b < 0 && y > x {
      MulLe(x + 1, y, c);
      assert false;
    }
  }

  lemma QuotientFits(a: nat, b: nat) returns (q: nat)
    requires b > 0
    ensures q == a / b && q * b <= a < (q + 1) * b && (a == 0 ==> q == 0)
  {
    q := a / b;
    var r := a % b;
    assert a == q * b + r;
    assert (q + 1) * b == q * b + b;
  }

  lemma MulLe(x: int, y: int, b: nat)
    requires x <= y
    ensures x * b <= y * b
  {
  }

  /** A quotient lies between any two integers that the exact ratio lies between. */
  lemma TruncDivBetween(a: int, b: int, lo: int, hi: int)
    requires b > 0 && lo * b <= a <= hi * b
    ensures lo <= TruncDiv(a, b) <= hi
  {
    var q, r := Abs(a) / b, Abs(a) % b;
    assert Abs(a) == q * b + r;
    if a >= 0 {
      QuotientBetween(a, b, q, r, lo, hi);
    } else {
      assert (-q) * b == -(q * b) && (-lo) * b == -(lo * b) && (-hi) * b == -(hi * b);
      QuotientBetween(-a, b, q, r, -hi, -lo);
    }
  }

  lemma QuotientBetween(a: int, b: int, q: int, r: int, lo: int, hi: int)
    requires b > 0 && lo * b <= a <= hi * b
    requires a == q * b + r && 0 <= r < b
    ensures lo <= q <= hi
  {
    if q >= hi + 1 {
      MulLe(hi + 1, q, b);
      assert false;
    } else if q + 1 <= lo {
      MulLe(q + 1, lo, b);
      assert false;
    }
  }

  lemma QuotientIs(n: nat, b: nat, q: nat, r: nat)
    requires b > 0 && n == q * b + r && r < b
    ensures n / b == q
  {
    var q', r' := n / b, n % b;
    assert n == q' * b + r';
    if q' > q {
      MulLe(q + 1, q', b);
      assert false;
    } else if q' < q {
      MulLe(q' + 1, q, b);
      assert false;
    }
  }

  /** A set of integers from an interval is no larger than the interval. */
  lemma {:induction false} IntervalSize(s: set<nat>, lo: int, hi: int)
    requires forall x :: x in s ==> lo < x <= hi
    requires lo <= hi
    ensures |s| <= hi - lo
    decreases hi - lo
  {
    if lo == hi {
      if !(forall x :: x !in s) { assert false; }
      assert s == {};
    } else {
      var t := set x | x in s && x != hi;
      IntervalSize(t, lo, hi - 1);
      if hi in s {
        assert s == t + {hi};
      } else {
        assert s == t;
      }
    }
  }
}
