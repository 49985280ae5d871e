/** The liquidity sweep on a sorted list of levels: what the greedy pass allocates, and why
    no other allocation of the same total is cheaper (crates/atomic-router/src/router.rs). */
module Sweep {
  import opened Types
  import opened PriceLevels

  /** A level of one venue's book. */
  datatype Quote = Quote(venue: Venue, price: int, qty: nat)

  predicate SortedQuotes(side: Side, quotes: seq<Quote>) {
    forall i, j :: 0 <= i < j < |quotes| ==> NoWorse(side, quotes[i].price, quotes[j].price)
  }

  /** How much the greedy pass takes from each level. */
  function Greedy(quotes: seq<Quote>, qty: nat): (g: seq<nat>)
    ensures |g| == |quotes|
  {
    if quotes == [] then []
    else
      var f := Min(qty, quotes[0].qty);
      [f] + Greedy(quotes[1..], qty - f)
  }

  function Sum(xs: seq<nat>): nat {
    if xs == [] then 0 else xs[0] + Sum(xs[1..])
  }

  function Liquidity(quotes: seq<Quote>): nat {
    if quotes == [] then 0 else quotes[0].qty + Liquidity(quotes[1..])
  }

  /** What an allocation costs a buyer, or earns a seller. */
  function Value(quotes: seq<Quote>, xs: seq<nat>): int
    requires |xs| == |quotes|
  {
    if quotes == [] then 0 else quotes[0].price * xs[0] + Value(quotes[1..], xs[1..])
  }

  /** An allocation takes at most what each level holds. */
  predicate Allocation(quotes: seq<Quote>, xs: seq<nat>) {
    |xs| == |quotes| && forall i :: 0 <= i < |xs| ==> xs[i] <= quotes[i].qty
  }

  lemma {:induction false} GreedyTotal(quotes: seq<Quote>, qty: nat)
    ensures Allocation(quotes, Greedy(quotes, qty))
    ensures Sum(Greedy(quotes, qty)) == Min(qty, Liquidity(quotes))
  {
    if quotes != [] {
      GreedyTotal(quotes[1..], qty - Min(qty, quotes[0].qty));
    }
  }

  /** The greedy pass has a threshold price: better levels are taken whole, worse ones not at all. */
  predicate HasThreshold(side: Side, quotes: seq<Quote>, xs: seq<nat>, pi: int)
    requires |xs| == |quotes|
  {
    quotes == [] ||
    (&& (Better(side, quotes[0].price, pi) ==> xs[0] == quotes[0].qty)
     && (Better(side, pi, quotes[0].price) ==> xs[0] == 0)
     && HasThreshold(side, quotes[1..], xs[1..], pi))
  }

  lemma {:induction false} NothingBeyond(side: Side, quotes: seq<Quote>, pi: int)
    requires forall i :: 0 <= i < |quotes| ==> NoWorse(side, pi, quotes[i].price)
    ensures HasThreshold(side, quotes, Greedy(quotes, 0), pi)
  {
    if quotes != [] {
      NothingBeyond(side, quotes[1..], pi);
      assert Greedy(quotes, 0)[1..] == Greedy(quotes[1..], 0);
    }
  }

  lemma {:induction false} Threshold(side: Side, quotes: seq<Quote>, qty: nat) returns (pi: int)
    requires SortedQuotes(side, quotes)
    ensures HasThreshold(side, quotes, Greedy(quotes, qty), pi)
    ensures quotes != [] ==> NoWorse(side, quotes[0].price, pi)
  {
    if quotes == [] {
      pi := 0;
    } else {
      var rest, left := quotes[1..], qty - Min(qty, quotes[0].qty);
      assert Greedy(quotes, qty)[1..] == Greedy(rest, left);
      if left == 0 {
        pi := quotes[0].price;
        NothingBeyond(side, rest, pi);
      } else if rest == [] {
        pi := quotes[0].price;
      } else {
        pi := Threshold(side, rest, left);
        assert NoWorse(side, quotes[0].price, quotes[1].price);
      }
    }
  }

  /** Moving quantity away from a threshold allocation never helps: each unit that leaves a
      level comes from the good side of the threshold, each unit that arrives pays the bad side. */
  lemma {:induction false} ExchangeArgument(side: Side, quotes: seq<Quote>, g: seq<nat>, x: seq<nat>, pi: int)
    requires |g| == |quotes| && Allocation(quotes, x) && HasThreshold(side, quotes, g, pi)
    ensures side.Buy? ==> Value(quotes, x) - Value(quotes, g) >= pi * (Sum(x) - Sum(g))
    ensures side.Sell? ==> Value(quotes, x) - Value(quotes, g) <= pi * (Sum(x) - Sum(g))
  {
    if quotes != [] {
      ExchangeArgument(side, quotes[1..], g[1..], x[1..], pi);
      Tilt(quotes[0].price, pi, x[0], g[0], Sum(x[1..]), Sum(g[1..]));
    }
  }

  lemma Tilt(p: int, pi: int, x: int, g: int, xs: int, gs: int)
    ensures (p < pi ==> x <= g) && (p > pi ==> x >= g)
            ==> p * x - p * g + pi * (xs - gs) >= pi * (x + xs - (g + gs))
    ensures (p > pi ==> x <= g) && (p < pi ==> x >= g)
            ==> p * x - p * g + pi * (xs - gs) <= pi * (x + xs - (g + gs))
  {
    var e := p - pi;
    var d := x - g;
    assert p * x - p * g + pi * (xs - gs) - pi * (x + xs - (g + gs)) == e * d;
    SameSign(e, d);
  }

  lemma SameSign(e: int, d: int)
    ensures (e < 0 ==> d <= 0) && (e > 0 ==> d >= 0) ==> e * d >= 0
    ensures (e > 0 ==> d <= 0) && (e < 0 ==> d >= 0) ==> e * d <= 0
  {
  }

  lemma EqualTotals(side: Side, quotes: seq<Quote>, g: seq<nat>, x: seq<nat>, pi: int)
    requires |g| == |quotes| && Allocation(quotes, x) && HasThreshold(side, quotes, g, pi) && Sum(x) == Sum(g)
    ensures NoWorse(side, Value(quotes, g), Value(quotes, x))
  {
    ExchangeArgument(side, quotes, g, x, pi);
    assert pi * (Sum(x) - Sum(g)) == 0;
  }

  /** Greedy is optimal: no allocation of the same total costs a buyer less or earns a seller more. */
  lemma GreedyIsOptimal(side: Side, quotes: seq<Quote>, qty: nat, x: seq<nat>)
    requires SortedQuotes(side, quotes) && Allocation(quotes, x)
    requires Sum(x) == Min(qty, Liquidity(quotes))
    ensures NoWorse(side, Value(quotes, Greedy(quotes, qty)), Value(quotes, x))
  {
    var g := Greedy(quotes, qty);
    GreedyTotal(quotes, qty);
    var pi := Threshold(side, quotes, qty);
    EqualTotals(side, quotes, g, x, pi);
  }

  lemma {:induction false} NothingLeft(quotes: seq<Quote>)
    ensures Sum(Greedy(quotes, 0)) == 0 && Value(quotes, Greedy(quotes, 0)) == 0
  {
    if quotes != [] {
      NothingLeft(quotes[1..]);
      assert Greedy(quotes, 0)[1..] == Greedy(quotes[1..], 0);
    }
  }

  // ---- Against levels that were left out ----

  lemma {:induction false} TakesNothing(quotes: seq<Quote>)
    ensures forall i :: 0 <= i < |quotes| ==> Greedy(quotes, 0)[i] == 0
  {
    if quotes != [] {
      TakesNothing(quotes[1..]);
      assert Greedy(quotes, 0)[1..] == Greedy(quotes[1..], 0);
    }
  }

  lemma {:induction false} SumConcat(xs: seq<nat>, ys: seq<nat>)
    ensures Sum(xs + ys) == Sum(xs) + Sum(ys)
  {
    if xs == [] {
      assert xs + ys == ys;
    } else {
      assert (xs + ys)[0] == xs[0] && (xs + ys)[1..] == xs[1..] + ys;
      SumConcat(xs[1..], ys);
    }
  }

  lemma {:induction false} ValueConcat(a: seq<Quote>, xs: seq<nat>, b: seq<Quote>, ys: seq<nat>)
    requires |xs| == |a| && |ys| == |b|
    ensures Value(a + b, xs + ys) == Value(a, xs) + Value(b, ys)
  {
    if a == [] {
      assert a + b == b && xs + ys == ys;
    } else {
      assert (a + b)[0] == a[0] && (a + b)[1..] == a[1..] + b;
      assert (xs + ys)[0] == xs[0] && (xs + ys)[1..] == xs[1..] + ys;
      ValueConcat(a[1..], xs[1..], b, ys);
    }
  }

  lemma {:induction false} ThresholdConcat(side: Side, a: seq<Quote>, xs: seq<nat>, b: seq<Quote>, ys: seq<nat>, pi: int)
    requires |xs| == |a| && |ys| == |b| && HasThreshold(side, a, xs, pi) && HasThreshold(side, b, ys, pi)
    ensures HasThreshold(side, a + b, xs + ys, pi)
  {
    if a == [] {
      assert a + b == b && xs + ys == ys;
    } else {
      assert (a + b)[0] == a[0] && (a + b)[1..] == a[1..] + b;
      assert (xs + ys)[0] == xs[0] && (xs + ys)[1..] == xs[1..] + ys;
      ThresholdConcat(side, a[1..], xs[1..], b, ys, pi);
    }
  }

  /** One unit more or less from level i. */
  lemma {:induction false} MoveUnit(quotes: seq<Quote>, xs: seq<nat>, i: nat, x: nat)
    requires |xs| == |quotes| && i < |xs|
    ensures Sum(xs[i := x]) == Sum(xs) - xs[i] + x
    ensures Value(quotes, xs[i := x]) == Value(quotes, xs) + quotes[i].price * (x - xs[i])
  {
    if i == 0 {
      assert xs[0 := x][1..] == xs[1..];
    } else {
      assert xs[i := x][1..] == xs[1..][i - 1 := x];
      MoveUnit(quotes[1..], xs[1..], i - 1, x);
    }
  }

  lemma {:induction false} NothingTaken(quotes: seq<Quote>, xs: seq<nat>)
    requires |xs| == |quotes| && Sum(xs) == 0
    ensures Value(quotes, xs) == 0
  {
    if quotes != [] {
      NothingTaken(quotes[1..], xs[1..]);
    }
  }

  predicate AllPositive(quotes: seq<Quote>) {
    forall i :: 0 <= i < |quotes| ==> quotes[i].qty > 0
  }

  /** A pass that takes anything has the price of a level it takes from as its threshold. */
  lemma {:induction false} UsedThreshold(side: Side, quotes: seq<Quote>, qty: nat) returns (pi: int, i: nat)
    requires SortedQuotes(side, quotes) && AllPositive(quotes) && qty > 0 && quotes != []
    ensures HasThreshold(side, quotes, Greedy(quotes, qty), pi)
    ensures i < |quotes| && Greedy(quotes, qty)[i] > 0 && quotes[i].price == pi
  {
    var rest, left := quotes[1..], qty - Min(qty, quotes[0].qty);
    assert Greedy(quotes, qty)[1..] == Greedy(rest, left);
    pi, i := quotes[0].price, 0;
    if left == 0 {
      NothingBeyond(side, rest, pi);
    } else if rest != [] {
      pi, i := UsedThreshold(side, rest, left);
      assert NoWorse(side, quotes[0].price, rest[i].price);
      i := i + 1;
    }
  }

  /** No allocation of the same total over these and other levels is better for the taker. */
  ghost predicate BestOverall(side: Side, quotes: seq<Quote>, g: seq<nat>, rest: seq<Quote>)
    requires |g| == |quotes|
  {
    forall y: seq<nat> :: Allocation(quotes + rest, y) && Sum(y) == Sum(g) ==> NoWorse(side, Value(quotes, g), Value(quotes + rest, y))
  }

  /** No level that was left out is better than one that was used. */
  ghost predicate NoneBetter(side: Side, quotes: seq<Quote>, g: seq<nat>, rest: seq<Quote>)
    requires |g| == |quotes|
  {
    forall i, j :: 0 <= i < |quotes| && 0 <= j < |rest| && g[i] > 0 ==> NoWorse(side, quotes[i].price, rest[j].price)
  }

  /** Taking nothing from other levels changes neither total nor value. */
  lemma NothingAdded(quotes: seq<Quote>, g: seq<nat>, rest: seq<Quote>)
    requires |g| == |quotes|
    ensures Sum(g + Greedy(rest, 0)) == Sum(g) && Value(quotes + rest, g + Greedy(rest, 0)) == Value(quotes, g)
  {
    NothingLeft(rest);
    SumConcat(g, Greedy(rest, 0));
    ValueConcat(quotes, g, rest, Greedy(rest, 0));
  }

  lemma BestIfNoneBetter(side: Side, quotes: seq<Quote>, qty: nat, rest: seq<Quote>, y: seq<nat>)
    requires SortedQuotes(side, quotes) && AllPositive(quotes) && NoneBetter(side, quotes, Greedy(quotes, qty), rest)
    requires Allocation(quotes + rest, y) && Sum(y) == Sum(Greedy(quotes, qty))
    ensures NoWorse(side, Value(quotes, Greedy(quotes, qty)), Value(quotes + rest, y))
  {
    var g := Greedy(quotes, qty);
    if qty == 0 || quotes == [] {
      GreedyTotal(quotes, qty);
      NothingTaken(quotes, g);
      NothingTaken(quotes + rest, y);
    } else {
      var pi, i := UsedThreshold(side, quotes, qty);
      NothingBeyond(side, rest, pi);
      ThresholdConcat(side, quotes, g, rest, Greedy(rest, 0), pi);
      NothingAdded(quotes, g, rest);
      EqualTotals(side, quotes + rest, g + Greedy(rest, 0), y, pi);
    }
  }

  lemma OneUnit(quotes: seq<Quote>, xs: seq<nat>, i: nat, x: nat)
    requires |xs| == |quotes| && i < |xs|
    ensures x == xs[i] + 1 ==> Sum(xs[i := x]) == Sum(xs) + 1 && Value(quotes, xs[i := x]) == Value(quotes, xs) + quotes[i].price
    ensures x + 1 == xs[i] ==> Sum(xs[i := x]) == Sum(xs) - 1 && Value(quotes, xs[i := x]) == Value(quotes, xs) - quotes[i].price
  {
    MoveUnit(quotes, xs, i, x);
  }

  /** Level i gives up one unit for level j of the others. */
  lemma Moved(quotes: seq<Quote>, g: seq<nat>, rest: seq<Quote>, i: nat, j: nat) returns (y: seq<nat>)
    requires Allocation(quotes, g) && AllPositive(rest) && i < |quotes| && j < |rest| && g[i] > 0
    ensures Allocation(quotes + rest, y) && Sum(y) == Sum(g)
    ensures Value(quotes + rest, y) == Value(quotes, g) - quotes[i].price + rest[j].price
  {
    var z := Greedy(rest, 0);
    TakesNothing(rest);
    NothingLeft(rest);
    OneUnit(quotes, g, i, g[i] - 1);
    OneUnit(rest, z, j, 1);
    var x, w := g[i := g[i] - 1], z[j := 1];
    SumConcat(x, w);
    ValueConcat(quotes, x, rest, w);
    y := x + w;
  }

  /** A better level left out: one unit taken there instead improves the allocation. */
  lemma BetterElsewhere(side: Side, quotes: seq<Quote>, g: seq<nat>, rest: seq<Quote>, i: nat, j: nat)
    requires Allocation(quotes, g) && AllPositive(rest) && i < |quotes| && j < |rest| && g[i] > 0
    requires Better(side, rest[j].price, quotes[i].price)
    ensures !BestOverall(side, quotes, g, rest)
  {
    var y := Moved(quotes, g, rest, i, j);
  }

  /** The greedy pass over some levels is optimal over these and all others exactly if no level left out is better than one
      it uses. */
  lemma GreedyBestExactly(side: Side, quotes: seq<Quote>, qty: nat, rest: seq<Quote>)
    requires SortedQuotes(side, quotes) && AllPositive(quotes) && AllPositive(rest)
    ensures BestOverall(side, quotes, Greedy(quotes, qty), rest) <==> NoneBetter(side, quotes, Greedy(quotes, qty), rest)
  {
    var g := Greedy(quotes, qty);
    GreedyTotal(quotes, qty);
    if NoneBetter(side, quotes, g, rest) {
      forall y: seq<nat> | Allocation(quotes + rest, y) && Sum(y) == Sum(g)
        ensures NoWorse(side, Value(quotes, g), Value(quotes + rest, y))
      {
        BestIfNoneBetter(side, quotes, qty, rest, y);
      }
    } else {
      var i, j :| 0 <= i < |quotes| && 0 <= j < |rest| && g[i] > 0 && !NoWorse(side, quotes[i].price, rest[j].price);
      BetterElsewhere(side, quotes, g, rest, i, j);
    }
  }

  // ---- Sorting ----

  /** Stable insertion: after every level that is no worse. */
  function InsertQuote(side: Side, quotes: seq<Quote>, q: Quote): (r: seq<Quote>)
    ensures |r| == |quotes| + 1
    ensures multiset(r) == multiset(quotes) + multiset{q}
  {
    if quotes == [] || Better(side, q.price, quotes[0].price) then [q] + quotes
    else
      assert quotes == [quotes[0]] + quotes[1..];
      [quotes[0]] + InsertQuote(side, quotes[1..], q)
  }

  lemma {:induction false} InsertQuoteSorted(side: Side, quotes: seq<Quote>, q: Quote)
    requires SortedQuotes(side, quotes)
    ensures SortedQuotes(side, InsertQuote(side, quotes, q))
  {
    if quotes != [] && !Better(side, q.price, quotes[0].price) {
      var rest := InsertQuote(side, quotes[1..], q);
      InsertQuoteSorted(side, quotes[1..], q);
      forall k | 0 <= k < |rest| ensures NoWorse(side, quotes[0].price, rest[k].price) {
        assert rest[k] in multiset(rest);
        assert rest[k] == q || rest[k] in multiset(quotes[1..]);
        if rest[k] != q {
          var j :| 0 <= j < |quotes[1..]| && quotes[1..][j] == rest[k];
          assert quotes[j + 1] == rest[k];
        }
      }
    }
  }
}
