/** The integer books that a node keeps about its fills (crates/atomic-node/tests/determinism.rs, `TestNode`), and how
    far they depend on the order of fills. */
module Pnl {
  import opened Types
  import opened PriceLevels
  import opened Matching
  import opened Lifecycle
  import opened Exchange
  import opened Lockstep
  import opened LockstepSubmit
  import opened LockstepRuns
  import opened Confluence
  import opened OrphanRuns

  datatype Books = Books(position: int, cost: int, realized: int)

  /** The position reaches or passes zero. */
  predicate Crosses(before: int, after: int) {
    (before > 0 && after <= 0) || (before < 0 && after >= 0)
  }

  /** One fill, bought positive and sold negative: when the position crosses zero, all of the cost is realized. */
  function Booked(b: Books, qty: int, price: int): Books {
    var position, cost := b.position + qty, b.cost + qty * price;
    if Crosses(b.position, position) then Books(position, 0, b.realized - cost) else Books(position, cost, b.realized)
  }

  class Bookkeeper {
    var positionQty: int
    var costBasis: int
    var realizedPnl: int

    constructor ()
      ensures Value() == Books(0, 0, 0)
    {
      positionQty, costBasis, realizedPnl := 0, 0, 0;
    }

    function Value(): Books
      reads this
    {
      Books(positionQty, costBasis, realizedPnl)
    }

    method OnFill(fill: FillReport)
      modifies this
      ensures Value() == Booked(old(Value()), Signed(fill), fill.price)
      ensures var qty := if fill.side.Buy? then fill.qty else 0 - fill.qty;
              && positionQty == old(positionQty) + qty
              && costBasis - realizedPnl == old(costBasis) - old(realizedPnl) + qty * fill.price
              && (if old(positionQty) > 0 >= positionQty || old(positionQty) < 0 <= positionQty
                  then costBasis == 0 else realizedPnl == old(realizedPnl))
    {
      var signedQty := if fill.side.Buy? then fill.qty else 0 - fill.qty;
      var prevPos := positionQty;
      positionQty := positionQty + signedQty;
      costBasis := costBasis + signedQty * fill.price;
      if (prevPos > 0 && positionQty <= 0) || (prevPos < 0 && positionQty >= 0) {
        realizedPnl := realizedPnl - costBasis;
        costBasis := 0;
      }
    }
  }

  function Signed(f: FillReport): int {
    if f.side.Buy? then f.qty else 0 - f.qty
  }

  /** The fills among a stream of reports. */
  function Fills(es: seq<Event>): seq<FillReport> {
    if es == [] then []
    else if es[0].payload.OrderFill? then [es[0].payload.fill] + Fills(es[1..])
    else Fills(es[1..])
  }

  lemma {:induction false} FillsConcat(a: seq<Event>, b: seq<Event>)
    ensures Fills(a + b) == Fills(a) + Fills(b)
  {
    if a == [] {
      assert a + b == b;
    } else {
      assert (a + b)[0] == a[0] && (a + b)[1..] == a[1..] + b;
      FillsConcat(a[1..], b);
    }
  }

  lemma OneReport(e: Event)
    ensures Fills([e]) == if e.payload.OrderFill? then [e.payload.fill] else []
  {
    assert [e][1..] == [] && Fills([]) == [];
    if e.payload.OrderFill? { assert [e.payload.fill] + [] == [e.payload.fill]; }
  }

  lemma TwoReports(e: Event, f: Event)
    ensures Fills([e, f]) == Fills([e]) + Fills([f])
  {
    FillsConcat([e], [f]);
    assert [e] + [f] == [e, f];
  }

  function BookedOne(b: Books, f: FillReport): Books { Booked(b, Signed(f), f.price) }

  function BookedAll(b: Books, fs: seq<FillReport>): Books
    decreases |fs|
  {
    if fs == [] then b else BookedAll(BookedOne(b, fs[0]), fs[1..])
  }

  lemma {:induction false} BookedConcat(b: Books, xs: seq<FillReport>, ys: seq<FillReport>)
    ensures BookedAll(b, xs + ys) == BookedAll(BookedAll(b, xs), ys)
    decreases |xs|
  {
    if xs == [] {
      assert xs + ys == ys;
    } else {
      assert (xs + ys)[0] == xs[0] && (xs + ys)[1..] == xs[1..] + ys;
      BookedConcat(BookedOne(b, xs[0]), xs[1..], ys);
    }
  }

  // ---- What no order of fills changes ----

  function NetQty(fs: seq<FillReport>): int {
    if fs == [] then 0 else Signed(fs[0]) + NetQty(fs[1..])
  }

  function NetCash(fs: seq<FillReport>): int {
    if fs == [] then 0 else Signed(fs[0]) * fs[0].price + NetCash(fs[1..])
  }

  /** Position, and cost less realized profit, are sums over the fills. */
  lemma {:induction false} BooksBalance(b: Books, fs: seq<FillReport>)
    ensures BookedAll(b, fs).position == b.position + NetQty(fs)
    ensures BookedAll(b, fs).cost - BookedAll(b, fs).realized == b.cost - b.realized + NetCash(fs)
    decreases |fs|
  {
    if fs != [] {
      BooksBalance(BookedOne(b, fs[0]), fs[1..]);
    }
  }

  /** The same position, and the same cost less realized profit. */
  ghost predicate SameBooks(b: Books, c: Books) {
    b.position == c.position && b.cost - b.realized == c.cost - c.realized
  }

  /** Some fill takes the position to or past zero. */
  predicate PassesZero(position: int, fs: seq<FillReport>)
    decreases |fs|
  {
    fs != [] && (Crosses(position, position + Signed(fs[0])) || PassesZero(position + Signed(fs[0]), fs[1..]))
  }

  /** Books that split the same sum differently into cost and profit become equal exactly when the position next reaches or
      passes zero. */
  lemma {:induction false} BooksMeetExactly(b: Books, c: Books, fs: seq<FillReport>)
    requires SameBooks(b, c)
    ensures SameBooks(BookedAll(b, fs), BookedAll(c, fs))
    ensures BookedAll(b, fs) == BookedAll(c, fs) <==> b == c || PassesZero(b.position, fs)
    decreases |fs|
  {
    if fs != [] {
      BooksMeetExactly(BookedOne(b, fs[0]), BookedOne(c, fs[0]), fs[1..]);
    }
  }

  /** The last k fills came after the position last reached or passed zero, or k is all of them and it never did. */
  ghost predicate SinceFlat(position: int, fs: seq<FillReport>, k: nat) {
    && k <= |fs|
    && (forall i :: |fs| - k <= i < |fs| ==> !CrossesAt(position, fs, i))
    && (k < |fs| ==> CrossesAt(position, fs, |fs| - k - 1))
  }

  /** With fill i the position goes from one side of zero to zero or to the other side. */
  predicate CrossesAt(position: int, fs: seq<FillReport>, i: int)
    requires 0 <= i < |fs|
  {
    LeavesSide(position + NetQty(fs[..i]), position + NetQty(fs[..i + 1]))
  }

  predicate LeavesSide(before: int, after: int) {
    if before > 0 then after <= 0 else before < 0 && after >= 0
  }

  lemma LeavesExactly(before: int, after: int)
    ensures LeavesSide(before, after) <==> Crosses(before, after)
  {
  }

  lemma {:induction false} QtyConcat(a: seq<FillReport>, b: seq<FillReport>)
    ensures NetQty(a + b) == NetQty(a) + NetQty(b)
  {
    if a == [] {
      assert a + b == b;
    } else {
      assert (a + b)[0] == a[0] && (a + b)[1..] == a[1..] + b;
      QtyConcat(a[1..], b);
    }
  }

  lemma {:induction false} CashConcat(a: seq<FillReport>, b: seq<FillReport>)
    ensures NetCash(a + b) == NetCash(a) + NetCash(b)
  {
    if a == [] {
      assert a + b == b;
    } else {
      assert (a + b)[0] == a[0] && (a + b)[1..] == a[1..] + b;
      CashConcat(a[1..], b);
    }
  }

  lemma CrossesAlike(position: int, fs: seq<FillReport>, n: nat, i: nat)
    requires i < n <= |fs|
    ensures CrossesAt(position, fs[..n], i) == CrossesAt(position, fs, i)
  {
    assert fs[..n][..i] == fs[..i] && fs[..n][..i + 1] == fs[..i + 1];
  }

  lemma SinceNext(position: int, fs: seq<FillReport>, k: nat)
    requires fs != [] && SinceFlat(position, fs[..|fs| - 1], k)
    ensures SinceFlat(position, fs, if CrossesAt(position, fs, |fs| - 1) then 0 else k + 1)
  {
    var n := |fs| - 1;
    forall i | 0 <= i < n ensures CrossesAt(position, fs[..n], i) == CrossesAt(position, fs, i) {
      CrossesAlike(position, fs, n, i);
    }
  }

  /** Cost and realized profit split what was paid at some fill. */
  ghost predicate SplitAt(b: Books, fs: seq<FillReport>, k: nat)
    requires k <= |fs|
  {
    b.cost == NetCash(fs[|fs| - k..]) && b.realized == 0 - NetCash(fs[..|fs| - k])
  }

  lemma OneCash(f: FillReport, cash: int)
    requires cash == Signed(f) * f.price
    ensures NetCash([f]) == cash
  {
    assert [f][1..] == [];
  }

  /** What one more fill for this amount does to the sums. */
  lemma SumsNext(fs: seq<FillReport>, f: FillReport, k: nat, cash: int)
    requires k <= |fs| && NetCash([f]) == cash
    ensures NetCash((fs + [f])[|fs| - k..]) == NetCash(fs[|fs| - k..]) + cash
    ensures NetCash(fs + [f]) == NetCash(fs[..|fs| - k]) + NetCash(fs[|fs| - k..]) + cash
  {
    var all, n := fs + [f], |fs|;
    assert all[n - k..] == fs[n - k..] + [f] && fs[..n - k] + fs[n - k..] == fs;
    CashConcat(fs[n - k..], [f]);
    CashConcat(fs, [f]);
    CashConcat(fs[..n - k], fs[n - k..]);
  }

  /** A fill for this amount, in terms of the amount. */
  function BookedFor(b: Books, qty: int, cash: int): Books {
    if Crosses(b.position, b.position + qty) then Books(b.position + qty, 0, b.realized - (b.cost + cash))
    else Books(b.position + qty, b.cost + cash, b.realized)
  }

  lemma BookedCash(b: Books, f: FillReport, cash: int)
    requires cash == Signed(f) * f.price
    ensures BookedOne(b, f) == BookedFor(b, Signed(f), cash)
  {
  }

  lemma SplitNext(b: Books, fs: seq<FillReport>, f: FillReport, k: nat, cash: int)
    requires k <= |fs| && SplitAt(b, fs, k) && NetCash([f]) == cash
    ensures SplitAt(BookedFor(b, Signed(f), cash), fs + [f], if Crosses(b.position, b.position + Signed(f)) then 0 else k + 1)
  {
    var all := fs + [f];
    SumsNext(fs, f, k, cash);
    assert all[..|fs| - k] == fs[..|fs| - k] && all[..|all|] == all && all[|all|..] == [];
  }

  /** From an empty position the cost is what was paid since the position last reached or passed zero, and the realized
      profit what was received up to then. */
  lemma {:induction false} RealizedIs(fs: seq<FillReport>) returns (k: nat)
    ensures SinceFlat(0, fs, k) && SplitAt(BookedAll(Books(0, 0, 0), fs), fs, k)
  {
    k := 0;
    if fs != [] {
      var n := |fs| - 1;
      var front, f := fs[..n], fs[n];
      k := RealizedIs(front);
      assert front + [f] == fs;
      SinceNext(0, fs, k);
      LastSplit(front, f, k);
      k := if CrossesAt(0, fs, n) then 0 else k + 1;
    }
  }

  lemma LastSplit(front: seq<FillReport>, f: FillReport, k: nat)
    requires k <= |front| && SplitAt(BookedAll(Books(0, 0, 0), front), front, k)
    ensures SplitAt(BookedAll(Books(0, 0, 0), front + [f]), front + [f], if CrossesAt(0, front + [f], |front|) then 0 else k + 1)
  {
    var b, cash := BookedAll(Books(0, 0, 0), front), Signed(f) * f.price;
    LastBooked(front, f);
    OneCash(f, cash);
    BookedCash(b, f, cash);
    SplitNext(b, front, f, k, cash);
    var all := front + [f];
    assert all[..|front|] == front;
    CrossingOf(all, |front|, front);
    QtyNext(front, f);
    LeavesExactly(NetQty(front), NetQty(all));
  }

  lemma LastBooked(front: seq<FillReport>, f: FillReport)
    ensures BookedAll(Books(0, 0, 0), front + [f]) == BookedOne(BookedAll(Books(0, 0, 0), front), f)
    ensures BookedAll(Books(0, 0, 0), front).position == NetQty(front)
  {
    BookedConcat(Books(0, 0, 0), front, [f]);
    BooksBalance(Books(0, 0, 0), front);
    assert [f][1..] == [];
  }

  lemma QtyNext(front: seq<FillReport>, f: FillReport)
    ensures NetQty(front + [f]) == NetQty(front) + Signed(f)
  {
    QtyConcat(front, [f]);
    assert [f][1..] == [];
  }

  lemma CrossingOf(all: seq<FillReport>, n: nat, front: seq<FillReport>)
    requires |all| == n + 1 && all[..n] == front
    ensures CrossesAt(0, all, n) <==> LeavesSide(NetQty(front), NetQty(all))
  {
    assert all[..n + 1] == all;
  }

  // ---- Two fills ----

  /** What the cost stands for after two fills: for nothing, for the second fill alone, or for all there was. */
  datatype Basis = Flat | Reopened | Carried

  function BasisAfter(position: int, first: int, second: int): Basis {
    if Crosses(position + first, position + first + second) then Flat
    else if Crosses(position, position + first) then Reopened
    else Carried
  }

  function BasisCost(kind: Basis, cost: int, first: int, second: int): int {
    match kind
    case Flat => 0
    case Reopened => second
    case Carried => cost + first + second
  }

  lemma CostAfterTwo(b: Books, q1: int, p1: int, q2: int, p2: int)
    ensures Booked(Booked(b, q1, p1), q2, p2).cost == BasisCost(BasisAfter(b.position, q1, q2), b.cost, q1 * p1, q2 * p2)
    ensures Booked(Booked(b, q1, p1), q2, p2).position == b.position + q1 + q2
    ensures var r := Booked(Booked(b, q1, p1), q2, p2); r.cost - r.realized == b.cost - b.realized + q1 * p1 + q2 * p2
  {
  }

  /** Two fills worth x and y may be booked in either order exactly in these cases. Only the quantities decide which
      applies; the amounts matter only where the two orders end differently. */
  predicate Exchangeable(b: Books, q1: int, x: int, q2: int, y: int) {
    match (BasisAfter(b.position, q1, q2), BasisAfter(b.position, q2, q1))
    case (Flat, Flat) => true
    case (Carried, Carried) => true
    case (Reopened, Reopened) => x == y
    case (Flat, Reopened) => x == 0
    case (Reopened, Flat) => y == 0
    case (Flat, Carried) => b.cost + x + y == 0
    case (Carried, Flat) => b.cost + x + y == 0
    case (Reopened, Carried) => b.cost + x == 0
    case (Carried, Reopened) => b.cost + y == 0
  }

  /** Position, cost and realized profit are independent of the order of two fills exactly then. */
  lemma BooksAgreeExactly(b: Books, q1: int, p1: int, q2: int, p2: int)
    ensures Booked(Booked(b, q1, p1), q2, p2) == Booked(Booked(b, q2, p2), q1, p1)
            <==> Exchangeable(b, q1, q1 * p1, q2, q2 * p2)
  {
    CostAfterTwo(b, q1, p1, q2, p2);
    CostAfterTwo(b, q2, p2, q1, p1);
  }

  /** With later fills after them, two fills may be booked in either order exactly if they may be exchanged, or the position
      reaches or passes zero later on. */
  lemma SwapBooksExactly(b: Books, x: FillReport, y: FillReport, later: seq<FillReport>)
    ensures BookedAll(b, [x, y] + later) == BookedAll(b, [y, x] + later)
            <==> || Exchangeable(b, Signed(x), Signed(x) * x.price, Signed(y), Signed(y) * y.price)
                 || PassesZero(b.position + Signed(x) + Signed(y), later)
  {
    var c, d := BookedOne(BookedOne(b, x), y), BookedOne(BookedOne(b, y), x);
    var same := Exchangeable(b, Signed(x), Signed(x) * x.price, Signed(y), Signed(y) * y.price);
    assert BookedAll(b, [x, y] + later) == BookedAll(c, later) by { TwoBookedThen(b, x, y, later); }
    assert BookedAll(b, [y, x] + later) == BookedAll(d, later) by { TwoBookedThen(b, y, x, later); }
    assert SameBooks(c, d) && c.position == b.position + Signed(x) + Signed(y) && (c == d <==> same) by {
      BothBooked(b, Signed(x), x.price, Signed(y), y.price);
    }
    MeetLater(c, d, later, b.position + Signed(x) + Signed(y), same);
  }

  lemma MeetLater(c: Books, d: Books, later: seq<FillReport>, position: int, same: bool)
    requires SameBooks(c, d) && c.position == position && (c == d <==> same)
    ensures BookedAll(c, later) == BookedAll(d, later) <==> same || PassesZero(position, later)
  {
    BooksMeetExactly(c, d, later);
  }

  lemma BothBooked(b: Books, q1: int, p1: int, q2: int, p2: int)
    ensures SameBooks(Booked(Booked(b, q1, p1), q2, p2), Booked(Booked(b, q2, p2), q1, p1))
    ensures Booked(Booked(b, q1, p1), q2, p2).position == b.position + q1 + q2
    ensures Booked(Booked(b, q1, p1), q2, p2) == Booked(Booked(b, q2, p2), q1, p1)
            <==> Exchangeable(b, q1, q1 * p1, q2, q2 * p2)
  {
    BooksAgreeExactly(b, q1, p1, q2, p2);
    CostAfterTwo(b, q1, p1, q2, p2);
    CostAfterTwo(b, q2, p2, q1, p1);
  }

  lemma TwoBookedThen(b: Books, x: FillReport, y: FillReport, later: seq<FillReport>)
    ensures BookedAll(b, [x, y] + later) == BookedAll(BookedOne(BookedOne(b, x), y), later)
  {
    var all := [x, y] + later;
    assert all[0] == x && all[1..] == [y] + later && ([y] + later)[1..] == later;
  }

  ghost predicate AlwaysAgree(position: int, q1: int, q2: int) {
    forall cost, p1, p2 ::
      var b := Books(position, cost, 0);
      Booked(Booked(b, q1, p1), q2, p2) == Booked(Booked(b, q2, p2), q1, p1)
  }

  /** Whatever cost and prices are, the order does not matter exactly if both orders leave the position flat, or both
      carry all of the cost on, or the fill that might reopen the position is empty. */
  lemma QuantitiesAgreeExactly(position: int, q1: int, q2: int)
    ensures AlwaysAgree(position, q1, q2)
            <==> match (BasisAfter(position, q1, q2), BasisAfter(position, q2, q1))
                 case (Flat, Flat) => true
                 case (Carried, Carried) => true
                 case (Flat, Reopened) => q1 == 0
                 case (Reopened, Flat) => q2 == 0
                 case _ => false
  {
    forall cost, p1, p2
      ensures Booked(Booked(Books(position, cost, 0), q1, p1), q2, p2) == Booked(Booked(Books(position, cost, 0), q2, p2), q1, p1)
              <==> Exchangeable(Books(position, cost, 0), q1, q1 * p1, q2, q2 * p2)
    {
      BooksAgreeExactly(Books(position, cost, 0), q1, p1, q2, p2);
    }
    if AlwaysAgree(position, q1, q2) {
      Probe(position, q1, q2, 0, 0, 1);
      Probe(position, q1, q2, 0, 1, 0);
      Probe(position, q1, q2, 1, 0, 0);
    }
  }

  lemma Probe(position: int, q1: int, q2: int, cost: int, p1: int, p2: int)
    requires AlwaysAgree(position, q1, q2)
    ensures Exchangeable(Books(position, cost, 0), q1, q1 * p1, q2, q2 * p2)
  {
    var b := Books(position, cost, 0);
    assert Booked(Booked(b, q1, p1), q2, p2) == Booked(Booked(b, q2, p2), q1, p1);
    BooksAgreeExactly(b, q1, p1, q2, p2);
  }
}
