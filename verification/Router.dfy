/** The smart order router (crates/atomic-router/src/router.rs): collecting the best
    levels of every venue, sorting them, and sweeping through them. */
module Router {
  import opened Types
  import opened PriceLevels
  import opened Matching
  import opened OrderBook
  import opened Sweep

  datatype OrderSlice = OrderSlice(venue: Venue, symbol: Symbol, side: Side, orderType: OrderType,
                                   price: int, qty: nat, tif: TimeInForce)

  const SWEEP_DEPTH: nat := 20

  type VenueBooks = map<(string, Venue), Book>

  function VenueTop(books: VenueBooks, pair: string, venue: Venue, side: Side): seq<Level>
    requires (pair, venue) in books
  {
    TopLevels(side, Opposite(books[(pair, venue)], side), SWEEP_DEPTH)
  }

  /** The quote is among the best 20 of its venue. */
  predicate IsTopQuote(books: VenueBooks, pair: string, side: Side, q: Quote) {
    (pair, q.venue) in books && Level(q.price, q.qty) in VenueTop(books, pair, q.venue, side)
  }

  predicate Distinct(quotes: seq<Quote>) {
    forall i, j :: 0 <= i < j < |quotes| ==> quotes[i] != quotes[j]
  }

  /** `quotes` holds the top quotes of all venues of the pair, each once. */
  ghost predicate Collects(quotes: seq<Quote>, books: VenueBooks, pair: string, side: Side) {
    Distinct(quotes) && forall q :: q in quotes <==> IsTopQuote(books, pair, side, q)
  }

  function SliceTotal(slices: seq<OrderSlice>): nat {
    if slices == [] then 0 else SliceTotal(slices[..|slices| - 1]) + slices[|slices| - 1].qty
  }

  function SliceValue(slices: seq<OrderSlice>): int {
    if slices == [] then 0
    else SliceValue(slices[..|slices| - 1]) + slices[|slices| - 1].price * slices[|slices| - 1].qty
  }

  /** `quotes` are the top quotes of all venues, each once and best first; the slices follow them, each within
      its quote, fill as much as there is, and no other allocation of that total is better for the taker. */
  ghost predicate IsOptimalSweep(slices: seq<OrderSlice>, quotes: seq<Quote>, books: VenueBooks,
                                 symbol: Symbol, side: Side, qty: nat) {
    && SortedQuotes(side, quotes)
    && (forall q :: q in quotes <==> IsTopQuote(books, symbol.Pair(), side, q))
    && (forall q :: q in quotes ==> multiset(quotes)[q] == 1)
    && |slices| <= |quotes|
    && (forall i :: 0 <= i < |slices| ==>
          slices[i].qty <= quotes[i].qty
          && slices[i] == OrderSlice(quotes[i].venue, symbol, side, Limit, quotes[i].price, slices[i].qty, ImmediateOrCancel))
    && (forall i :: 0 <= i < |quotes| ==> Greedy(quotes, qty)[i] == if i < |slices| then slices[i].qty else 0)
    && SliceTotal(slices) == Sum(Greedy(quotes, qty)) == Min(qty, Liquidity(quotes))
    && SliceValue(slices) == Value(quotes, Greedy(quotes, qty))
    && (forall x :: Allocation(quotes, x) && Sum(x) == SliceTotal(slices)
                    ==> NoWorse(side, SliceValue(slices), Value(quotes, x)))
  }

  class SmartOrderRouter {
    var books: VenueBooks

    constructor ()
      ensures books == map[]
    {
      books := map[];
    }

    method UpdateBook(pair: string, venue: Venue, book: Book)
      modifies this
      ensures books == old(books)[(pair, venue) := book]
    {
      books := books[(pair, venue) := book];
    }

    /** No other way of filling that much from the best levels of all venues is better for the taker. */
    method RouteSweep(symbol: Symbol, side: Side, qty: nat) returns (slices: seq<OrderSlice>)
      ensures exists quotes :: IsOptimalSweep(slices, quotes, books, symbol, side, qty)
    {
      var all := CollectQuotes(symbol.Pair(), side);
      var quotes := SortQuotes(side, all);
      SortedCollection(all, quotes, books, symbol.Pair(), side);
      slices := TakeGreedily(symbol, side, qty, quotes);
      GreedyTotal(quotes, qty);
      forall x | Allocation(quotes, x) && Sum(x) == SliceTotal(slices)
        ensures NoWorse(side, SliceValue(slices), Value(quotes, x))
      {
        GreedyIsOptimal(side, quotes, qty, x);
      }
      assert IsOptimalSweep(slices, quotes, books, symbol, side, qty);
    }

    method TakeGreedily(symbol: Symbol, side: Side, qty: nat, quotes: seq<Quote>) returns (slices: seq<OrderSlice>)
      ensures |slices| <= |quotes|
      ensures forall i :: 0 <= i < |slices| ==>
                slices[i] == OrderSlice(quotes[i].venue, symbol, side, Limit, quotes[i].price, slices[i].qty, ImmediateOrCancel)
      ensures forall i :: 0 <= i < |quotes| ==> Greedy(quotes, qty)[i] == if i < |slices| then slices[i].qty else 0
      ensures SliceTotal(slices) == Sum(Greedy(quotes, qty))
      ensures SliceValue(slices) == Value(quotes, Greedy(quotes, qty))
    {
      var remaining := qty;
      slices := [];
      for i := 0 to |quotes|
        invariant |slices| == i && remaining >= 0
        invariant forall j :: 0 <= j < i ==>
                    slices[j] == OrderSlice(quotes[j].venue, symbol, side, Limit, quotes[j].price, slices[j].qty, ImmediateOrCancel)
        invariant GreedyContinues(quotes, qty, slices, remaining)
      {
        if remaining <= 0 {
          NothingContinues(quotes, qty, slices);
          SlicesAreGreedy(slices, quotes, Greedy(quotes, qty));
          return;
        }
        var fill := Min(remaining, quotes[i].qty);
        var slice := OrderSlice(quotes[i].venue, symbol, side, Limit, quotes[i].price, fill, ImmediateOrCancel);
        ContinueGreedy(quotes, qty, slices, remaining, slice);
        slices := slices + [slice];
        remaining := remaining - fill;
      }
      SlicesAreGreedy(slices, quotes, Greedy(quotes, qty));
    }

    /** The books are visited in arbitrary map order. */
    method CollectQuotes(pair: string, side: Side) returns (all: seq<Quote>)
      ensures Collects(all, books, pair, side)
    {
      all := [];
      var rest := books.Keys;
      while rest != {}
        invariant rest <= books.Keys
        invariant Distinct(all)
        invariant forall q :: q in all <==> (pair, q.venue) !in rest && IsTopQuote(books, pair, side, q)
        decreases |rest|
      {
        var key :| key in rest;
        rest := rest - {key};
        if key.0 == pair {
          TopLevelsAreBest(side, Opposite(books[(pair, key.1)], side), SWEEP_DEPTH);
          all := AppendVenue(all, key.1, VenueTop(books, pair, key.1, side));
        }
      }
    }
  }

  /** The slices so far are what the greedy pass takes, and the rest of it starts with what remains. */
  ghost predicate GreedyContinues(quotes: seq<Quote>, qty: nat, slices: seq<OrderSlice>, remaining: nat) {
    && |slices| <= |quotes|
    && (forall i :: 0 <= i < |slices| ==> Greedy(quotes, qty)[i] == slices[i].qty)
    && Greedy(quotes, qty)[|slices|..] == Greedy(quotes[|slices|..], remaining)
  }

  lemma ContinueGreedy(quotes: seq<Quote>, qty: nat, slices: seq<OrderSlice>, remaining: nat, slice: OrderSlice)
    requires GreedyContinues(quotes, qty, slices, remaining) && |slices| < |quotes|
    requires slice.qty == Min(remaining, quotes[|slices|].qty)
    ensures GreedyContinues(quotes, qty, slices + [slice], remaining - slice.qty)
  {
    var n, g := |slices|, Greedy(quotes, qty);
    assert quotes[n..][0] == quotes[n] && quotes[n..][1..] == quotes[n + 1..];
    assert g[n..][0] == slice.qty && g[n..][1..] == g[n + 1..];
  }

  lemma NothingContinues(quotes: seq<Quote>, qty: nat, slices: seq<OrderSlice>)
    requires GreedyContinues(quotes, qty, slices, 0)
    ensures forall i :: |slices| <= i < |quotes| ==> Greedy(quotes, qty)[i] == 0
  {
    var n, g := |slices|, Greedy(quotes, qty);
    TakesNothing(quotes[n..]);
    forall i | n <= i < |quotes| ensures g[i] == 0 {
      assert g[i] == g[n..][i - n];
    }
  }

  lemma {:induction false} SlicesAdd(slices: seq<OrderSlice>, quotes: seq<Quote>, g: seq<nat>)
    requires |slices| == |quotes| == |g|
    requires forall i :: 0 <= i < |slices| ==> g[i] == slices[i].qty && quotes[i].price == slices[i].price
    ensures SliceTotal(slices) == Sum(g) && SliceValue(slices) == Value(quotes, g)
  {
    if slices != [] {
      var n := |slices| - 1;
      SlicesAdd(slices[..n], quotes[..n], g[..n]);
      SumConcat(g[..n], [g[n]]);
      ValueConcat(quotes[..n], g[..n], [quotes[n]], [g[n]]);
      assert g[..n] + [g[n]] == g && quotes[..n] + [quotes[n]] == quotes;
    }
  }

  lemma {:induction false} Nothing(quotes: seq<Quote>, xs: seq<nat>)
    requires |xs| == |quotes| && forall i :: 0 <= i < |xs| ==> xs[i] == 0
    ensures Sum(xs) == 0 && Value(quotes, xs) == 0
  {
    if xs != [] {
      Nothing(quotes[1..], xs[1..]);
    }
  }

  lemma SlicesAreGreedy(slices: seq<OrderSlice>, quotes: seq<Quote>, g: seq<nat>)
    requires |slices| <= |quotes| == |g|
    requires forall i :: 0 <= i < |slices| ==> g[i] == slices[i].qty && quotes[i].price == slices[i].price
    requires forall i :: |slices| <= i < |g| ==> g[i] == 0
    ensures SliceTotal(slices) == Sum(g) && SliceValue(slices) == Value(quotes, g)
  {
    var n := |slices|;
    SlicesAdd(slices, quotes[..n], g[..n]);
    Nothing(quotes[n..], g[n..]);
    SumConcat(g[..n], g[n..]);
    ValueConcat(quotes[..n], g[..n], quotes[n..], g[n..]);
    assert g[..n] + g[n..] == g && quotes[..n] + quotes[n..] == quotes;
  }

  /** The ranked levels of a single venue, as quotes. */
  function AtVenue(venue: Venue, top: seq<Level>): (quotes: seq<Quote>)
    ensures |quotes| == |top|
  {
    if top == [] then [] else [Quote(venue, top[0].price, top[0].qty)] + AtVenue(venue, top[1..])
  }

  lemma {:induction false} GreedyIsTaken(venue: Venue, top: seq<Level>, qty: nat)
    ensures var g := Greedy(AtVenue(venue, top), qty);
            Sum(g) == FilledQty(Taken(top, qty)) && Value(AtVenue(venue, top), g) == Cost(Taken(top, qty))
  {
    if qty == 0 {
      NothingLeft(AtVenue(venue, top));
    } else if top != [] {
      var f := Min(qty, top[0].qty);
      GreedyIsTaken(venue, top[1..], qty - f);
      GreedyPeels(Quote(venue, top[0].price, top[0].qty), AtVenue(venue, top[1..]), qty);
      CostPeels(Fill(top[0].price, f), Taken(top[1..], qty - f));
    }
  }

  lemma GreedyPeels(q: Quote, rest: seq<Quote>, qty: nat)
    ensures var f := Min(qty, q.qty);
            && Sum(Greedy([q] + rest, qty)) == f + Sum(Greedy(rest, qty - f))
            && Value([q] + rest, Greedy([q] + rest, qty)) == q.price * f + Value(rest, Greedy(rest, qty - f))
  {
    assert ([q] + rest)[1..] == rest;
    assert Greedy([q] + rest, qty)[1..] == Greedy(rest, qty - Min(qty, q.qty));
  }

  lemma CostPeels(f: Fill, rest: seq<Fill>)
    ensures Cost([f] + rest) == f.price * f.qty + Cost(rest) && FilledQty([f] + rest) == f.qty + FilledQty(rest)
  {
    assert ([f] + rest)[1..] == rest;
  }

  /** Swept alone, a venue whose book fits the depth fills as much as its matcher would, at the same cost. */
  lemma SweepIsMatch(side: Side, levels: Levels, venue: Venue, qty: nat)
    requires |levels| <= SWEEP_DEPTH
    ensures var quotes := AtVenue(venue, TopLevels(side, levels, SWEEP_DEPTH));
            var r := Matched(levels, side, qty, None);
            && Sum(Greedy(quotes, qty)) == qty - r.remaining
            && Value(quotes, Greedy(quotes, qty)) == Cost(r.fills)
  {
    var all := Ranked(side, levels);
    assert TopLevels(side, levels, SWEEP_DEPTH) == all[..|all|] == all;
    GreedyIsTaken(venue, all, qty);
    WalkIsMatch(side, levels, qty);
    AverageIsAPrice(levels, side, qty);
  }

  // ---- Levels below the top 20 ----

  /** The quote is in a book of the pair, but not among the best 20 of its venue. */
  predicate IsLeftOut(books: VenueBooks, pair: string, side: Side, q: Quote) {
    && (pair, q.venue) in books && QtyAt(Opposite(books[(pair, q.venue)], side), q.price) == q.qty > 0
    && !IsTopQuote(books, pair, side, q)
  }

  lemma TopIsPositive(books: VenueBooks, pair: string, side: Side, q: Quote)
    requires IsTopQuote(books, pair, side, q)
    ensures q.qty > 0
  {
    TopLevelsAreBest(side, Opposite(books[(pair, q.venue)], side), SWEEP_DEPTH);
  }

  /** The quotes that are used and those that are left out are the levels of the venues, price by price. */
  lemma TopOrLeftOut(books: VenueBooks, pair: string, side: Side, q: Quote)
    ensures IsTopQuote(books, pair, side, q) || IsLeftOut(books, pair, side, q)
            <==> && (pair, q.venue) in books && q.qty > 0
                 && var levels := if side.Buy? then books[(pair, q.venue)].asks else books[(pair, q.venue)].bids;
                    q.price in levels && levels[q.price] == q.qty
    ensures !(IsTopQuote(books, pair, side, q) && IsLeftOut(books, pair, side, q))
  {
    if (pair, q.venue) in books {
      TopLevelsAreBest(side, Opposite(books[(pair, q.venue)], side), SWEEP_DEPTH);
    }
  }

  /** Over the whole books of all venues the sweep is optimal exactly if no level that was left out is better than one it
      uses. `rest` lists the levels that were left out. */
  lemma SweepBestExactly(slices: seq<OrderSlice>, quotes: seq<Quote>, rest: seq<Quote>, books: VenueBooks,
                         symbol: Symbol, side: Side, qty: nat)
    requires IsOptimalSweep(slices, quotes, books, symbol, side, qty)
    requires forall q :: q in rest <==> IsLeftOut(books, symbol.Pair(), side, q)
    ensures BestOverall(side, quotes, Greedy(quotes, qty), rest)
            <==> forall i, q :: 0 <= i < |slices| && slices[i].qty > 0 && IsLeftOut(books, symbol.Pair(), side, q)
                                ==> NoWorse(side, slices[i].price, q.price)
  {
    forall i | 0 <= i < |quotes| ensures quotes[i].qty > 0 {
      assert quotes[i] in quotes;
      TopIsPositive(books, symbol.Pair(), side, quotes[i]);
    }
    forall j | 0 <= j < |rest| ensures rest[j].qty > 0 {
      assert rest[j] in rest;
    }
    GreedyBestExactly(side, quotes, qty, rest);
    UsedAreSlices(slices, quotes, rest, books, symbol, side, qty);
  }

  lemma UsedAreSlices(slices: seq<OrderSlice>, quotes: seq<Quote>, rest: seq<Quote>, books: VenueBooks,
                      symbol: Symbol, side: Side, qty: nat)
    requires IsOptimalSweep(slices, quotes, books, symbol, side, qty)
    requires forall q :: q in rest <==> IsLeftOut(books, symbol.Pair(), side, q)
    ensures NoneBetter(side, quotes, Greedy(quotes, qty), rest)
            <==> forall i, q :: 0 <= i < |slices| && slices[i].qty > 0 && IsLeftOut(books, symbol.Pair(), side, q)
                                ==> NoWorse(side, slices[i].price, q.price)
  {
    if NoneBetter(side, quotes, Greedy(quotes, qty), rest) {
      forall i, q | 0 <= i < |slices| && slices[i].qty > 0 && IsLeftOut(books, symbol.Pair(), side, q)
        ensures NoWorse(side, slices[i].price, q.price)
      {
        var j :| 0 <= j < |rest| && rest[j] == q;
      }
    }
    if forall i, q :: 0 <= i < |slices| && slices[i].qty > 0 && IsLeftOut(books, symbol.Pair(), side, q)
                      ==> NoWorse(side, slices[i].price, q.price) {
      forall i, j | 0 <= i < |quotes| && 0 <= j < |rest| && Greedy(quotes, qty)[i] > 0
        ensures NoWorse(side, quotes[i].price, rest[j].price)
      {
        assert rest[j] in rest;
      }
    }
  }

  method AppendVenue(all: seq<Quote>, venue: Venue, levels: seq<Level>) returns (more: seq<Quote>)
    requires Distinct(all) && forall q :: q in all ==> q.venue != venue
    requires forall i, j :: 0 <= i < j < |levels| ==> levels[i].price != levels[j].price
    ensures Distinct(more)
    ensures forall q :: q in more <==> q in all || (q.venue == venue && Level(q.price, q.qty) in levels)
  {
    more := all;
    for i := 0 to |levels|
      invariant Distinct(more)
      invariant forall q :: q in more <==> q in all || (q.venue == venue && Level(q.price, q.qty) in levels[..i])
    {
      var q := Quote(venue, levels[i].price, levels[i].qty);
      assert levels[..i + 1] == levels[..i] + [levels[i]];
      assert q !in more;
      more := more + [q];
    }
    assert levels[..|levels|] == levels;
  }

  method SortQuotes(side: Side, all: seq<Quote>) returns (sorted: seq<Quote>)
    ensures SortedQuotes(side, sorted) && multiset(sorted) == multiset(all)
  {
    sorted := [];
    for i := 0 to |all|
      invariant SortedQuotes(side, sorted) && multiset(sorted) == multiset(all[..i])
    {
      assert all[..i + 1] == all[..i] + [all[i]];
      InsertQuoteSorted(side, sorted, all[i]);
      sorted := InsertQuote(side, sorted, all[i]);
    }
    assert all[..|all|] == all;
  }

  lemma SortedCollection(all: seq<Quote>, sorted: seq<Quote>, books: VenueBooks, pair: string, side: Side)
    requires Collects(all, books, pair, side) && multiset(sorted) == multiset(all)
    ensures forall q :: q in sorted <==> IsTopQuote(books, pair, side, q)
    ensures forall q :: q in sorted ==> multiset(sorted)[q] == 1
  {
    forall q ensures q in sorted <==> q in all {
      assert q in sorted <==> q in multiset(sorted);
      assert q in all <==> q in multiset(all);
    }
    forall q | q in sorted ensures multiset(all)[q] == 1 {
      OnlyOnce(all, q);
    }
  }

  lemma {:induction false} OnlyOnce(all: seq<Quote>, q: Quote)
    requires Distinct(all)
    ensures multiset(all)[q] == if q in all then 1 else 0
    decreases |all|
  {
    if all != [] {
      var front, last := all[..|all| - 1], all[|all| - 1];
      assert all == front + [last];
      OnlyOnce(front, q);
      if q == last {
        assert q !in front;
      }
    }
  }
}
