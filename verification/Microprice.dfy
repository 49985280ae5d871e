/** The Rust microprice and imbalance (crates/atomic-strategy/src/microprice.rs). */
module Microprice {
  import opened Types

  /** Each price weighted by the volume on the other side. */
  function Numerator(bid: Level, ask: Level): int {
    ask.price * bid.qty + bid.price * ask.qty
  }

  function Compute(bid: Level, ask: Level): int {
    if bid.qty + ask.qty == 0 then TruncDiv(bid.price + ask.price, 2)
    else TruncDiv(Numerator(bid, ask), bid.qty + ask.qty)
  }

  /** The price divides the spread as the quantities are divided, rounded down: more on the bid moves it towards the ask. */
  lemma ComputeIs(bid: Level, ask: Level)
    requires bid.qty + ask.qty > 0 && bid.price >= 0 && ask.price >= 0
    ensures var (q, total) := (Compute(bid, ask), bid.qty + ask.qty);
            (q - bid.price) * total <= (ask.price - bid.price) * bid.qty < (q + 1 - bid.price) * total
  {
    var n, total := Numerator(bid, ask), bid.qty + ask.qty;
    assert ask.price * bid.qty >= 0 && bid.price * ask.qty >= 0;
    TruncDivIs(n, total);
    Shares(bid.price, ask.price, bid.qty, ask.qty, Compute(bid, ask));
  }

  /** At any prices the exact value is rounded towards zero, and without quantity it is the middle. */
  lemma ComputeRounds(bid: Level, ask: Level)
    ensures var total := bid.qty + ask.qty;
            if total > 0 then IsQuotient(Compute(bid, ask), bid.price * total + (ask.price - bid.price) * bid.qty, total)
            else IsQuotient(Compute(bid, ask), bid.price + ask.price, 2)
  {
    var total := bid.qty + ask.qty;
    if total > 0 {
      SharesSum(bid.price, ask.price, bid.qty, ask.qty);
      TruncDivIs(Numerator(bid, ask), total);
    } else {
      TruncDivIs(bid.price + ask.price, 2);
    }
  }

  lemma SharesSum(low: int, high: int, b: int, a: int)
    ensures low * (b + a) + (high - low) * b == high * b + low * a
  {
  }

  lemma Shares(low: int, high: int, b: int, a: int, q: int)
    ensures (q - low) * (b + a) == q * (b + a) - low * (b + a) && (q + 1 - low) * (b + a) == (q + 1) * (b + a) - low * (b + a)
    ensures (high - low) * b == high * b + low * a - low * (b + a)
  {
  }

  function DepthUsed(bids: seq<Level>, asks: seq<Level>, depth: nat): nat {
    Min(Min(depth, |bids|), |asks|)
  }

  /** The weighted sums over the first n levels of d: level i counts d - i times. */
  function WeightedSum(bids: seq<Level>, asks: seq<Level>, d: nat, n: nat): int
    requires n <= |bids| && n <= |asks|
  {
    if n == 0 then 0 else WeightedSum(bids, asks, d, n - 1) + Numerator(bids[n - 1], asks[n - 1]) * (d - n + 1)
  }

  function WeightedVolume(bids: seq<Level>, asks: seq<Level>, d: nat, n: nat): int
    requires n <= |bids| && n <= |asks|
  {
    if n == 0 then 0 else WeightedVolume(bids, asks, d, n - 1) + (bids[n - 1].qty + asks[n - 1].qty) * (d - n + 1)
  }

  function Weighted(bids: seq<Level>, asks: seq<Level>, depth: nat): int {
    var d := DepthUsed(bids, asks, depth);
    if bids == [] || asks == [] then 0
    else if d == 0 then Compute(bids[0], asks[0])
    else if WeightedVolume(bids, asks, d, d) == 0 then TruncDiv(bids[0].price + asks[0].price, 2)
    else TruncDiv(WeightedSum(bids, asks, d, d), WeightedVolume(bids, asks, d, d))
  }

  method ComputeWeighted(bids: seq<Level>, asks: seq<Level>, depth: nat) returns (price: int)
    ensures price == Weighted(bids, asks, depth)
  {
    if |bids| == 0 || |asks| == 0 {
      return 0;
    }
    var d := Min(Min(depth, |bids|), |asks|);
    if d == 0 {
      return Compute(bids[0], asks[0]);
    }
    var numerator, denominator := 0, 0;
    for i := 0 to d
      invariant numerator == WeightedSum(bids, asks, d, i) && denominator == WeightedVolume(bids, asks, d, i)
    {
      var w := d - i;
      var bv, av := bids[i].qty, asks[i].qty;
      numerator := numerator + (asks[i].price * bv + bids[i].price * av) * w;
      denominator := denominator + (bv + av) * w;
    }
    if denominator == 0 {
      return TruncDiv(bids[0].price + asks[0].price, 2);
    }
    price := TruncDiv(numerator, denominator);
  }

  predicate Within(l: Level, lo: int, hi: int) { lo <= l.price <= hi }

  /** All levels that take part have prices from lo to hi. */
  ghost predicate AllWithin(bids: seq<Level>, asks: seq<Level>, n: nat, lo: int, hi: int)
    requires n <= |bids| && n <= |asks|
  {
    forall i :: 0 <= i < n ==> Within(bids[i], lo, hi) && Within(asks[i], lo, hi)
  }

  lemma NumeratorBetween(bid: Level, ask: Level, lo: int, hi: int)
    requires Within(bid, lo, hi) && Within(ask, lo, hi)
    ensures lo * (bid.qty + ask.qty) <= Numerator(bid, ask) <= hi * (bid.qty + ask.qty)
  {
    MulLe(lo, ask.price, bid.qty);
    MulLe(ask.price, hi, bid.qty);
    MulLe(lo, bid.price, ask.qty);
    MulLe(bid.price, hi, ask.qty);
  }

  lemma {:induction false} SumBetween(bids: seq<Level>, asks: seq<Level>, d: nat, n: nat, lo: int, hi: int)
    requires n <= d && n <= |bids| && n <= |asks| && AllWithin(bids, asks, n, lo, hi)
    ensures WeightedVolume(bids, asks, d, n) >= 0
    ensures lo * WeightedVolume(bids, asks, d, n) <= WeightedSum(bids, asks, d, n) <= hi * WeightedVolume(bids, asks, d, n)
  {
    if n > 0 {
      SumBetween(bids, asks, d, n - 1, lo, hi);
      var volume, w := bids[n - 1].qty + asks[n - 1].qty, d - n + 1;
      NumeratorBetween(bids[n - 1], asks[n - 1], lo, hi);
      SumStep(lo, WeightedVolume(bids, asks, d, n - 1), WeightedSum(bids, asks, d, n - 1), volume,
              Numerator(bids[n - 1], asks[n - 1]), hi, w);
      MulLe(0, volume, w);
    }
  }

  lemma SumStep(lo: int, volumes: int, sum: int, volume: int, numerator: int, hi: int, w: nat)
    requires lo * volumes <= sum <= hi * volumes && lo * volume <= numerator <= hi * volume
    ensures lo * (volumes + volume * w) <= sum + numerator * w <= hi * (volumes + volume * w)
  {
    MulLe(lo * volume, numerator, w);
    MulLe(numerator, hi * volume, w);
    assert lo * (volumes + volume * w) == lo * volumes + (lo * volume) * w;
    assert hi * (volumes + volume * w) == hi * volumes + (hi * volume) * w;
  }

  lemma ComputeBetween(bid: Level, ask: Level, lo: int, hi: int)
    requires Within(bid, lo, hi) && Within(ask, lo, hi)
    ensures lo <= Compute(bid, ask) <= hi
  {
    if bid.qty + ask.qty == 0 {
      TruncDivBetween(bid.price + ask.price, 2, lo, hi);
    } else {
      NumeratorBetween(bid, ask, lo, hi);
      TruncDivBetween(Numerator(bid, ask), bid.qty + ask.qty, lo, hi);
    }
  }

  /** The microprice lies between any two prices that all levels used lie between. */
  lemma WeightedBetween(bids: seq<Level>, asks: seq<Level>, depth: nat, lo: int, hi: int)
    requires bids != [] && asks != []
    requires AllWithin(bids, asks, Max(1, DepthUsed(bids, asks, depth)), lo, hi)
    ensures lo <= Weighted(bids, asks, depth) <= hi
  {
    var d := DepthUsed(bids, asks, depth);
    assert Within(bids[0], lo, hi) && Within(asks[0], lo, hi);
    if d == 0 {
      ComputeBetween(bids[0], asks[0], lo, hi);
    } else {
      SumBetween(bids, asks, d, d, lo, hi);
      if WeightedVolume(bids, asks, d, d) == 0 {
        TruncDivBetween(bids[0].price + asks[0].price, 2, lo, hi);
      } else {
        TruncDivBetween(WeightedSum(bids, asks, d, d), WeightedVolume(bids, asks, d, d), lo, hi);
      }
    }
  }

  ghost predicate SortedBook(bids: seq<Level>, asks: seq<Level>) {
    && (forall i, j :: 0 <= i < j < |bids| ==> bids[j].price <= bids[i].price)
    && (forall i, j :: 0 <= i < j < |asks| ==> asks[i].price <= asks[j].price)
    && (bids != [] && asks != [] ==> bids[0].price <= asks[0].price)
  }

  /** In a sorted book those are the lowest bid and the highest ask used. */
  lemma WeightedInSortedBook(bids: seq<Level>, asks: seq<Level>, depth: nat)
    requires bids != [] && asks != [] && SortedBook(bids, asks)
    ensures var n := Max(1, DepthUsed(bids, asks, depth));
            bids[n - 1].price <= Weighted(bids, asks, depth) <= asks[n - 1].price
  {
    var n := Max(1, DepthUsed(bids, asks, depth));
    forall i | 0 <= i < n
      ensures Within(bids[i], bids[n - 1].price, asks[n - 1].price) && Within(asks[i], bids[n - 1].price, asks[n - 1].price)
    {
      assert bids[n - 1].price <= bids[i].price <= bids[0].price <= asks[0].price <= asks[i].price <= asks[n - 1].price;
    }
    WeightedBetween(bids, asks, depth, bids[n - 1].price, asks[n - 1].price);
  }

  /** The top of the book is no bound: a thin deep ask behind a large deep bid pulls the price above the best ask. */
  lemma TopOfBookIsNoBound()
    ensures Weighted([Level(100, 1), Level(99, 1000)], [Level(101, 1), Level(200, 1)], 2) == 199
  {
    var bids, asks := [Level(100, 1), Level(99, 1000)], [Level(101, 1), Level(200, 1)];
    assert WeightedSum(bids, asks, 2, 1) == 402;
    assert WeightedVolume(bids, asks, 2, 1) == 4;
    assert WeightedSum(bids, asks, 2, 2) == 200501;
    assert WeightedVolume(bids, asks, 2, 2) == 1005;
  }

  /** A side with these prices and quantities. */
  function Priced(prices: seq<int>, qtys: seq<nat>): (levels: seq<Level>)
    requires |prices| == |qtys|
    ensures |levels| == |prices|
  {
    seq(|prices|, i requires 0 <= i < |prices| => Level(prices[i], qtys[i]))
  }

  /** Quantity 1 at level i and nothing anywhere else. */
  function Only(n: nat, i: nat): (qtys: seq<nat>)
    ensures |qtys| == n
  {
    seq(n, j => if j == i then 1 else 0)
  }

  /** With one bid for 1 the average is the ask price of that level, with one offer of 1 the bid price. */
  lemma {:induction false} OneQuantity(bids: seq<int>, asks: seq<int>, i: nat, d: nat, n: nat)
    requires n <= d && n <= |bids| && n <= |asks|
    ensures var (b, a) := (Priced(bids, Only(|bids|, i)), Priced(asks, Only(|asks|, |asks|)));
            && WeightedSum(b, a, d, n) == (if i < n then asks[i] * (d - i) else 0)
            && WeightedVolume(b, a, d, n) == (if i < n then d - i else 0)
    ensures var (b, a) := (Priced(bids, Only(|bids|, |bids|)), Priced(asks, Only(|asks|, i)));
            && WeightedSum(b, a, d, n) == (if i < n then bids[i] * (d - i) else 0)
            && WeightedVolume(b, a, d, n) == (if i < n then d - i else 0)
  {
    if n > 0 {
      OneQuantity(bids, asks, i, d, n - 1);
    }
  }

  lemma OneQuantityPrice(bids: seq<int>, asks: seq<int>, i: nat, depth: nat)
    requires |bids| > 0 && |asks| > 0 && i < Max(1, Min(Min(depth, |bids|), |asks|))
    ensures Weighted(Priced(bids, Only(|bids|, i)), Priced(asks, Only(|asks|, |asks|)), depth) == asks[i]
    ensures Weighted(Priced(bids, Only(|bids|, |bids|)), Priced(asks, Only(|asks|, i)), depth) == bids[i]
  {
    var d := Min(Min(depth, |bids|), |asks|);
    if d == 0 {
      TruncDivBetween(asks[0], 1, asks[0], asks[0]);
      TruncDivBetween(bids[0], 1, bids[0], bids[0]);
    } else {
      OneQuantity(bids, asks, i, d, d);
      TruncDivBetween(asks[i] * (d - i), d - i, asks[i], asks[i]);
      TruncDivBetween(bids[i] * (d - i), d - i, bids[i], bids[i]);
    }
  }

  ghost predicate TopBounds(bids: seq<int>, asks: seq<int>, depth: nat)
    requires |bids| > 0 && |asks| > 0
  {
    forall b: seq<nat>, a: seq<nat> :: |b| == |bids| && |a| == |asks| ==>
      bids[0] <= Weighted(Priced(bids, b), Priced(asks, a), depth) <= asks[0]
  }

  /** Whatever the quantities, the microprice stays between the best bid and the best ask exactly if all prices used do;
      in a sorted book, if all levels used are priced at the top. */
  lemma TopOfBookBoundsExactly(bids: seq<int>, asks: seq<int>, depth: nat)
    requires |bids| > 0 && |asks| > 0
    ensures TopBounds(bids, asks, depth)
            <==> forall i :: 0 <= i < Max(1, Min(Min(depth, |bids|), |asks|))
                             ==> bids[0] <= bids[i] <= asks[0] && bids[0] <= asks[i] <= asks[0]
  {
    var n := Max(1, Min(Min(depth, |bids|), |asks|));
    if TopBounds(bids, asks, depth) {
      forall i | 0 <= i < n ensures bids[0] <= bids[i] <= asks[0] && bids[0] <= asks[i] <= asks[0] {
        OneQuantityPrice(bids, asks, i, depth);
      }
    }
    if forall i :: 0 <= i < n ==> bids[0] <= bids[i] <= asks[0] && bids[0] <= asks[i] <= asks[0] {
      forall b: seq<nat>, a: seq<nat> | |b| == |bids| && |a| == |asks|
        ensures bids[0] <= Weighted(Priced(bids, b), Priced(asks, a), depth) <= asks[0]
      {
        WeightedBetween(Priced(bids, b), Priced(asks, a), depth, bids[0], asks[0]);
      }
    }
  }

  function Shifted(levels: seq<Level>, k: int): seq<Level> {
    seq(|levels|, i requires 0 <= i < |levels| => Level(levels[i].price + k, levels[i].qty))
  }

  lemma {:induction false} SumShifts(bids: seq<Level>, asks: seq<Level>, d: nat, n: nat, k: int)
    requires n <= |bids| && n <= |asks|
    ensures WeightedVolume(Shifted(bids, k), Shifted(asks, k), d, n) == WeightedVolume(bids, asks, d, n)
    ensures WeightedSum(Shifted(bids, k), Shifted(asks, k), d, n)
            == WeightedSum(bids, asks, d, n) + k * WeightedVolume(bids, asks, d, n)
  {
    if n > 0 {
      SumShifts(bids, asks, d, n - 1, k);
      var b, a, w := bids[n - 1], asks[n - 1], d - n + 1;
      NumeratorShifts(b, a, k);
      ShiftStep(WeightedSum(bids, asks, d, n - 1), WeightedVolume(bids, asks, d, n - 1),
                Numerator(b, a), b.qty + a.qty, k, w);
    }
  }

  lemma ShiftStep(sum: int, volumes: int, numerator: int, volume: int, k: int, w: int)
    ensures (sum + k * volumes) + (numerator + k * volume) * w == (sum + numerator * w) + k * (volumes + volume * w)
  {
    assert (k * volume) * w == k * (volume * w);
  }

  lemma NumeratorShifts(b: Level, a: Level, k: int)
    ensures Numerator(Level(b.price + k, b.qty), Level(a.price + k, a.qty)) == Numerator(b, a) + k * (b.qty + a.qty)
  {
  }

  lemma NumeratorNonNegative(b: Level, a: Level)
    requires b.price >= 0 && a.price >= 0
    ensures Numerator(b, a) >= 0
  {
    MulLe(0, b.price, a.qty);
    MulLe(0, a.price, b.qty);
  }

  lemma QuotientShifts(a: nat, b: nat, k: nat)
    requires b > 0
    ensures TruncDiv(a + k * b, b) == TruncDiv(a, b) + k
  {
    var q, r := a / b, a % b;
    MulLe(0, k, b);
    assert a + k * b == (q + k) * b + r;
    QuotientIs(a + k * b, b, q + k, r);
  }

  lemma ComputeShifts(b: Level, a: Level, k: nat)
    requires b.price >= 0 && a.price >= 0
    ensures Compute(Level(b.price + k, b.qty), Level(a.price + k, a.qty)) == Compute(b, a) + k
  {
    if b.qty + a.qty == 0 {
      QuotientShifts(b.price + a.price, 2, k);
    } else {
      NumeratorShifts(b, a, k);
      NumeratorNonNegative(b, a);
      QuotientShifts(Numerator(b, a), b.qty + a.qty, k);
    }
  }

  /** On nonnegative prices the microprice moves with the book. */
  lemma WeightedShifts(bids: seq<Level>, asks: seq<Level>, depth: nat, k: nat)
    requires bids != [] && asks != []
    requires forall l :: l in bids || l in asks ==> l.price >= 0
    ensures Weighted(Shifted(bids, k), Shifted(asks, k), depth) == Weighted(bids, asks, depth) + k
  {
    var d := DepthUsed(bids, asks, depth);
    var b, a := bids[0], asks[0];
    var top := Max(Highest(bids), Highest(asks));
    assert b in bids && a in asks;
    if d == 0 {
      ComputeShifts(b, a, k);
    } else {
      assert AllWithin(bids, asks, d, 0, top) by {
        forall i | 0 <= i < d ensures Within(bids[i], 0, top) && Within(asks[i], 0, top) {
          HighestIs(bids, i);
          HighestIs(asks, i);
          assert bids[i] in bids && asks[i] in asks;
        }
      }
      SumBetween(bids, asks, d, d, 0, top);
      SumShifts(bids, asks, d, d, k);
      if WeightedVolume(bids, asks, d, d) == 0 {
        QuotientShifts(b.price + a.price, 2, k);
      } else {
        QuotientShifts(WeightedSum(bids, asks, d, d), WeightedVolume(bids, asks, d, d), k);
      }
    }
  }

  function Highest(levels: seq<Level>): int {
    if levels == [] then 0 else Max(levels[0].price, Highest(levels[1..]))
  }

  lemma {:induction false} HighestIs(levels: seq<Level>, i: nat)
    requires i < |levels|
    ensures levels[i].price <= Highest(levels)
  {
    if i > 0 {
      HighestIs(levels[1..], i - 1);
    }
  }

  // ---- Imbalance ----

  function SideVolume(levels: seq<Level>, n: nat): nat
    requires n <= |levels|
  {
    if n == 0 then 0 else SideVolume(levels, n - 1) + levels[n - 1].qty
  }

  function ImbalanceOf(bids: seq<Level>, asks: seq<Level>, depth: nat): int {
    var d := DepthUsed(bids, asks, depth);
    var bv, av := SideVolume(bids, d), SideVolume(asks, d);
    if bv + av == 0 then 0 else TruncDiv((bv - av) * 10000, bv + av)
  }

  method Imbalance(bids: seq<Level>, asks: seq<Level>, depth: nat) returns (r: int)
    ensures r == ImbalanceOf(bids, asks, depth)
  {
    var d := Min(Min(depth, |bids|), |asks|);
    if d == 0 {
      return 0;
    }
    var bv, av := 0, 0;
    for i := 0 to d
      invariant bv == SideVolume(bids, i) && av == SideVolume(asks, i)
    {
      bv := bv + bids[i].qty;
      av := av + asks[i].qty;
    }
    var total := bv + av;
    if total == 0 {
      return 0;
    }
    r := TruncDiv((bv - av) * 10000, total);
  }

  /** The imbalance lies in [-10,000, 10,000], leans to the heavier side and changes its sign, and nothing
      else, when the two sides are exchanged. */
  lemma ImbalanceMeaning(bids: seq<Level>, asks: seq<Level>, depth: nat)
    ensures var r := ImbalanceOf(bids, asks, depth);
            var d := DepthUsed(bids, asks, depth);
            && -10000 <= r <= 10000
            && (SideVolume(bids, d) >= SideVolume(asks, d) ==> r >= 0)
            && (SideVolume(bids, d) > 0 && SideVolume(asks, d) == 0 ==> r == 10000)
            && ImbalanceOf(asks, bids, depth) == -r
  {
    var d := DepthUsed(bids, asks, depth);
    var bv: int, av: int := SideVolume(bids, d), SideVolume(asks, d);
    if bv + av > 0 {
      TruncDivBetween((bv - av) * 10000, bv + av, -10000, 10000);
      if bv >= av { TruncDivBetween((bv - av) * 10000, bv + av, 0, 10000); }
      if av == 0 { TruncDivBetween(bv * 10000, bv, 10000, 10000); }
      NegatedQuotient((bv - av) * 10000, bv + av);
    }
  }

  lemma NegatedQuotient(a: int, b: nat)
    requires b > 0
    ensures TruncDiv(-a, b) == -TruncDiv(a, b)
  {
    if a == 0 {
      TruncDivBetween(0, b, 0, 0);
    }
  }
}
