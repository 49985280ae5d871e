/** One side of a price-level book as a map from price to quantity, walked in
    order of price. `side` is always the side of the taker: a buyer walks the
    asks upwards, a seller walks the bids downwards. */
module PriceLevels {
  import opened Types

  type Positive = n: int | n > 0 witness 1

  /** A book side never stores an empty level. */
  type Levels = map<int, Positive>

  /** The two sides of a book, as a value. */
  datatype Book = Book(bids: Levels, asks: Levels)

  /** The side of the book that an incoming order trades against. */
  function Opposite(book: Book, side: Side): Levels {
    if side.Buy? then book.asks else book.bids
  }

  predicate NoWorse(side: Side, p: int, q: int) {
    match side
    case Buy => p <= q
    case Sell => p >= q
  }

  predicate Better(side: Side, p: int, q: int) {
    p != q && NoWorse(side, p, q)
  }

  predicate IsBest(side: Side, prices: set<int>, p: int) {
    p in prices && forall q :: q in prices ==> NoWorse(side, p, q)
  }

  lemma {:induction false} HasBest(side: Side, prices: set<int>)
    requires prices != {}
    ensures exists p :: IsBest(side, prices, p)
  {
    if !(exists p :: p in prices) { assert false; }
    var p :| p in prices;
    var rest := prices - {p};
    if rest == {} {
      assert prices == {p};
      assert IsBest(side, prices, p);
    } else {
      HasBest(side, rest);
      var b :| IsBest(side, rest, b);
      BetterOfTwo(side, prices, p, b);
    }
  }

  lemma BetterOfTwo(side: Side, prices: set<int>, p: int, b: int)
    requires p in prices && IsBest(side, prices - {p}, b)
    ensures IsBest(side, prices, if NoWorse(side, p, b) then p else b)
  {
    forall q | q in prices ensures NoWorse(side, if NoWorse(side, p, b) then p else b, q) {
      assert q == p || q in prices - {p};
    }
  }

  function Best(side: Side, prices: set<int>): (p: int)
    requires prices != {}
    ensures p in prices
    ensures forall q :: q in prices ==> NoWorse(side, p, q)
  {
    HasBest(side, prices);
    var p :| IsBest(side, prices, p);
    p
  }

  /** All the prices, the best for the taker first. */
  function BestFirst(side: Side, prices: set<int>): seq<int>
    decreases |prices|
  {
    if prices == {} then []
    else
      var p := Best(side, prices);
      [p] + BestFirst(side, prices - {p})
  }

  lemma {:induction false} BestFirstLists(side: Side, prices: set<int>)
    ensures var ps := BestFirst(side, prices);
            && |ps| == |prices|
            && (forall p :: p in ps <==> p in prices)
            && (forall i, j :: 0 <= i < j < |ps| ==> Better(side, ps[i], ps[j]))
    decreases |prices|
  {
    if prices != {} {
      var p := Best(side, prices);
      var rest := BestFirst(side, prices - {p});
      BestFirstLists(side, prices - {p});
      forall j | 0 <= j < |rest| ensures Better(side, p, rest[j]) {
        assert rest[j] in rest;
      }
    }
  }

  /** The quantity at a price, zero when there is no such level. */
  function QtyAt(levels: Levels, p: int): nat {
    if p in levels then levels[p] else 0
  }

  function Total(levels: Levels): nat
    decreases |levels.Keys|
  {
    if levels == map[] then 0
    else
      var p := Best(Buy, levels.Keys);
      assert (levels - {p}).Keys == levels.Keys - {p};
      levels[p] + Total(levels - {p})
  }

  /** A total does not depend on which level is counted first. */
  lemma {:induction false} TotalSplit(levels: Levels, p: int)
    requires p in levels
    ensures Total(levels) == levels[p] + Total(levels - {p})
    decreases |levels.Keys|
  {
    var b := Best(Buy, levels.Keys);
    if p != b {
      assert (levels - {b}).Keys == levels.Keys - {b};
      assert (levels - {p}).Keys == levels.Keys - {p};
      TotalSplit(levels - {b}, p);
      assert levels - {b} - {p} == levels - {p} - {b};
      TotalSplit(levels - {p}, b);
    }
  }

  predicate Within(side: Side, limit: Option<int>, p: int) {
    limit.None? || NoWorse(side, p, limit.value)
  }

  /** The levels that a taker with this limit may trade against. */
  function Matchable(levels: Levels, side: Side, limit: Option<int>): Levels {
    map p | p in levels && Within(side, limit, p) :: levels[p]
  }

  function Available(levels: Levels, side: Side, limit: Option<int>): nat {
    Total(Matchable(levels, side, limit))
  }

  /** Applying one level of an update: a zero quantity deletes, any other one overwrites. */
  function Applied(levels: Levels, u: Level): Levels {
    if u.qty == 0 then levels - {u.price} else levels[u.price := u.qty]
  }

  function AppliedAll(levels: Levels, us: seq<Level>): Levels
    decreases |us|
  {
    if us == [] then levels else AppliedAll(Applied(levels, us[0]), us[1..])
  }

  /** The last level of a batch that names a price decides what is stored there;
      a price that the batch does not name keeps what it had. */
  lemma {:induction false} LastUpdateWins(levels: Levels, us: seq<Level>, p: int, k: int)
    requires -1 <= k < |us| && (k >= 0 ==> us[k].price == p)
    requires forall j :: k < j < |us| ==> us[j].price != p
    ensures QtyAt(AppliedAll(levels, us), p) == if k >= 0 then us[k].qty else QtyAt(levels, p)
    decreases |us|
  {
    if us != [] {
      var rest := us[1..];
      assert forall j :: 0 <= j < |rest| ==> rest[j] == us[j + 1];
      LastUpdateWins(Applied(levels, us[0]), rest, p, if k > 0 then k - 1 else -1);
    }
  }

  method ApplyLevels(levels: Levels, us: seq<Level>) returns (r: Levels)
    ensures r == AppliedAll(levels, us)
  {
    r := levels;
    for i := 0 to |us|
      invariant AppliedAll(levels, us) == AppliedAll(r, us[i..])
    {
      if us[i].qty == 0 {
        r := r - {us[i].price};
      } else {
        r := r[us[i].price := us[i].qty];
      }
    }
  }
}
