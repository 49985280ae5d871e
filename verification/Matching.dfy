/** The matcher of the simulated exchange (crates/atomic-execution/src/simulator.rs,
    `match_order`): the loop over collected prices, a recursive reference that always
    takes the best level, and a declarative account that fixes the outcome uniquely. */
module Matching {
  import opened Types
  import opened PriceLevels

  datatype Fill = Fill(price: int, qty: nat)

  datatype MatchResult = MatchResult(fills: seq<Fill>, remaining: nat, levels: Levels)

  function FilledQty(fills: seq<Fill>): nat {
    if fills == [] then 0 else fills[0].qty + FilledQty(fills[1..])
  }

  function FilledAt(fills: seq<Fill>, p: int): nat {
    if fills == [] then 0
    else (if fills[0].price == p then fills[0].qty else 0) + FilledAt(fills[1..], p)
  }

  /** Reference matcher: take from the best level until the order is done, the
      limit forbids the best level, or the side is empty. */
  function Matched(levels: Levels, side: Side, qty: nat, limit: Option<int>): MatchResult
    decreases |levels.Keys|
  {
    if qty == 0 || levels == map[] then MatchResult([], qty, levels)
    else
      var p := Best(side, levels.Keys);
      if !Within(side, limit, p) then MatchResult([], qty, levels)
      else if qty < levels[p] then MatchResult([Fill(p, qty)], 0, levels[p := levels[p] - qty])
      else
        assert (levels - {p}).Keys == levels.Keys - {p};
        After(Fill(p, levels[p]), Matched(levels - {p}, side, qty - levels[p], limit))
  }

  function After(f: Fill, r: MatchResult): MatchResult {
    r.(fills := [f] + r.fills)
  }

  /** What a match has to be, without saying how it is found. */
  ghost predicate IsMatch(levels: Levels, side: Side, qty: nat, limit: Option<int>, r: MatchResult) {
    // quantity is conserved, in total and level by level
    && FilledQty(r.fills) + r.remaining == qty
    && (forall p :: QtyAt(levels, p) == QtyAt(r.levels, p) + FilledAt(r.fills, p))
    // fills are positive, allowed by the limit and strictly best price first
    && (forall i :: 0 <= i < |r.fills| ==> r.fills[i].qty > 0 && Within(side, limit, r.fills[i].price))
    && (forall i, j :: 0 <= i < j < |r.fills| ==> Better(side, r.fills[i].price, r.fills[j].price))
    // a level is touched only when every better level is used up
    && (forall i, p :: 0 <= i < |r.fills| && p in r.levels ==> !Better(side, p, r.fills[i].price))
    // something is left over only when no level may be matched any more
    && (r.remaining > 0 ==> forall p :: p in r.levels ==> !Within(side, limit, p))
  }

  lemma {:induction false} FilledAtFill(fills: seq<Fill>, i: nat)
    requires i < |fills|
    ensures FilledAt(fills, fills[i].price) >= fills[i].qty
    decreases i
  {
    if i > 0 {
      FilledAtFill(fills[1..], i - 1);
    }
  }

  lemma {:induction false} FilledAtNone(fills: seq<Fill>, p: int)
    requires forall i :: 0 <= i < |fills| ==> fills[i].price != p
    ensures FilledAt(fills, p) == 0
  {
    if fills != [] {
      FilledAtNone(fills[1..], p);
    }
  }

  lemma {:induction false} NothingFilled(fills: seq<Fill>)
    requires FilledQty(fills) == 0
    requires forall i :: 0 <= i < |fills| ==> fills[i].qty > 0
    ensures fills == []
  {
  }

  lemma {:induction false} MatchedIsMatch(levels: Levels, side: Side, qty: nat, limit: Option<int>)
    ensures IsMatch(levels, side, qty, limit, Matched(levels, side, qty, limit))
    decreases |levels.Keys|, 1
  {
    if qty == 0 || levels == map[] {
      UntouchedIsMatch(levels, side, qty, limit);
    } else {
      var p := Best(side, levels.Keys);
      if !Within(side, limit, p) {
        UntouchedIsMatch(levels, side, qty, limit);
      } else if qty < levels[p] {
        PartOfBestIsMatch(levels, side, qty, limit, p);
      } else {
        BestThenRestIsMatch(levels, side, qty, limit, p);
      }
    }
  }

  lemma BestThenRestIsMatch(levels: Levels, side: Side, qty: nat, limit: Option<int>, p: int)
    requires levels != map[] && qty > 0 && p == Best(side, levels.Keys) && Within(side, limit, p) && qty >= levels[p]
    ensures IsMatch(levels, side, qty, limit, Matched(levels, side, qty, limit))
    decreases |levels.Keys|, 0
  {
    var rest := levels - {p};
    assert rest.Keys == levels.Keys - {p};
    MatchedIsMatch(rest, side, qty - levels[p], limit);
    BestThenRest(levels, side, qty, limit, p, Matched(rest, side, qty - levels[p], limit));
  }

  lemma UntouchedIsMatch(levels: Levels, side: Side, qty: nat, limit: Option<int>)
    requires qty == 0 || levels == map[] || !Within(side, limit, Best(side, levels.Keys))
    ensures IsMatch(levels, side, qty, limit, MatchResult([], qty, levels))
  {
    if qty > 0 && levels != map[] {
      var b := Best(side, levels.Keys);
      forall p | p in levels ensures !Within(side, limit, p) {
        assert NoWorse(side, b, p);
      }
    }
  }

  lemma PartOfBestIsMatch(levels: Levels, side: Side, qty: nat, limit: Option<int>, p: int)
    requires p in levels && 0 < qty < levels[p] && Within(side, limit, p)
    requires forall q :: q in levels ==> NoWorse(side, p, q)
    ensures IsMatch(levels, side, qty, limit, MatchResult([Fill(p, qty)], 0, levels[p := levels[p] - qty]))
  {
    var fills := [Fill(p, qty)];
    assert fills[1..] == [];
    assert FilledQty(fills) == qty;
    var levels' := levels[p := levels[p] - qty];
    forall q ensures QtyAt(levels, q) == QtyAt(levels', q) + FilledAt(fills, q) {}
    forall q | q in levels' ensures !Better(side, q, p) {
      assert q in levels;
    }
  }

  lemma BestThenRest(levels: Levels, side: Side, qty: nat, limit: Option<int>, p: int, r: MatchResult)
    requires p in levels && qty >= levels[p] && Within(side, limit, p)
    requires forall q :: q in levels ==> NoWorse(side, p, q)
    requires IsMatch(levels - {p}, side, qty - levels[p], limit, r)
    ensures IsMatch(levels, side, qty, limit, After(Fill(p, levels[p]), r))
  {
    var rest := levels - {p};
    var f := Fill(p, levels[p]);
    var all := After(f, r).fills;
    assert all[1..] == r.fills;
    assert QtyAt(rest, p) == 0;
    forall i | 0 <= i < |r.fills|
      ensures r.fills[i].price in rest
    {
      FilledAtFill(r.fills, i);
      assert QtyAt(rest, r.fills[i].price) > 0;
    }
    forall q ensures QtyAt(levels, q) == QtyAt(r.levels, q) + FilledAt(all, q) {
      assert QtyAt(rest, q) == QtyAt(r.levels, q) + FilledAt(r.fills, q);
    }
    forall q | q in r.levels ensures q in rest {
      assert QtyAt(r.levels, q) > 0;
      assert QtyAt(rest, q) > 0;
    }
  }

  /** The account above leaves one outcome only: anything that satisfies it is what
      the reference matcher computes. */
  lemma {:induction false} MatchIsUnique(levels: Levels, side: Side, qty: nat, limit: Option<int>, r: MatchResult)
    requires IsMatch(levels, side, qty, limit, r)
    ensures r == Matched(levels, side, qty, limit)
    decreases |levels.Keys|, 1
  {
    NoFillOutside(levels, r, side, qty, limit);
    if qty == 0 {
      NothingFilled(r.fills);
      SameLevels(levels, r.levels);
    } else if levels == map[] {
      SameLevels(levels, r.levels);
    } else {
      var p := Best(side, levels.Keys);
      if !Within(side, limit, p) {
        NoFillBeyondLimit(levels, side, limit, r, p);
        SameLevels(levels, r.levels);
      } else {
        FirstFillIsBest(levels, side, qty, limit, r, p);
        if p in r.levels {
          OnlyFill(levels, side, qty, limit, r, p);
        } else {
          TailIsMatch(levels, side, qty, limit, r, p);
          UniqueTail(levels, side, qty, limit, r, p);
        }
      }
    }
  }

  lemma UniqueTail(levels: Levels, side: Side, qty: nat, limit: Option<int>, r: MatchResult, p: int)
    requires levels != map[] && qty > 0 && p == Best(side, levels.Keys) && Within(side, limit, p) && qty >= levels[p]
    requires r.fills != [] && r.fills[0] == Fill(p, levels[p])
    requires IsMatch(levels - {p}, side, qty - levels[p], limit, r.(fills := r.fills[1..]))
    ensures r == Matched(levels, side, qty, limit)
    decreases |levels.Keys|, 0
  {
    var rest := levels - {p};
    assert rest.Keys == levels.Keys - {p};
    var r' := r.(fills := r.fills[1..]);
    MatchIsUnique(rest, side, qty - levels[p], limit, r');
    assert r == After(Fill(p, levels[p]), r');
  }

  lemma NoFillBeyondLimit(levels: Levels, side: Side, limit: Option<int>, r: MatchResult, p: int)
    requires r.fills == [] || (r.fills[0].price in levels && Within(side, limit, r.fills[0].price))
    requires forall q :: q in levels ==> NoWorse(side, p, q)
    requires !Within(side, limit, p)
    ensures r.fills == []
  {
    forall q | q in levels ensures !Within(side, limit, q) {
      assert NoWorse(side, p, q);
    }
  }

  lemma SecondIsWorse(fills: seq<Fill>, side: Side)
    requires |fills| > 1
    requires forall i, j :: 0 <= i < j < |fills| ==> Better(side, fills[i].price, fills[j].price)
    ensures Better(side, fills[0].price, fills[1].price)
  {
  }

  lemma OnlyFill(levels: Levels, side: Side, qty: nat, limit: Option<int>, r: MatchResult, p: int)
    requires IsMatch(levels, side, qty, limit, r)
    requires p in levels && p in r.levels && Within(side, limit, p)
    requires r.fills != [] && r.fills[0].price == p
    requires QtyAt(levels, p) == QtyAt(r.levels, p) + r.fills[0].qty
    ensures qty < levels[p] && r == MatchResult([Fill(p, qty)], 0, levels[p := levels[p] - qty])
  {
    if |r.fills| > 1 {
      SecondIsWorse(r.fills, side);
      assert false;
    }
    assert r.fills == [Fill(p, r.fills[0].qty)];
    assert FilledQty(r.fills) == r.fills[0].qty;
    forall q ensures QtyAt(levels[p := levels[p] - qty], q) == QtyAt(r.levels, q) {
      assert QtyAt(levels, q) == QtyAt(r.levels, q) + FilledAt(r.fills, q);
    }
    SameLevels(levels[p := levels[p] - qty], r.levels);
  }

  lemma TailIsMatch(levels: Levels, side: Side, qty: nat, limit: Option<int>, r: MatchResult, p: int)
    requires IsMatch(levels, side, qty, limit, r)
    requires p in levels && p !in r.levels
    requires r.fills != [] && r.fills[0] == Fill(p, levels[p])
    ensures qty >= levels[p]
    ensures IsMatch(levels - {p}, side, qty - levels[p], limit, r.(fills := r.fills[1..]))
  {
    var tail := r.fills[1..];
    forall q ensures QtyAt(levels - {p}, q) == QtyAt(r.levels, q) + FilledAt(tail, q) {
      assert QtyAt(levels, q) == QtyAt(r.levels, q) + FilledAt(r.fills, q);
    }
    assert forall i :: 0 <= i < |tail| ==> tail[i] == r.fills[i + 1];
  }

  lemma SameLevels(a: Levels, b: Levels)
    requires forall p :: QtyAt(a, p) == QtyAt(b, p)
    ensures a == b
  {
    forall p ensures p in a <==> p in b {
      assert QtyAt(a, p) == QtyAt(b, p);
    }
    forall p | p in a ensures a[p] == b[p] {
      assert QtyAt(a, p) == QtyAt(b, p);
    }
  }

  lemma NoFillOutside(levels: Levels, r: MatchResult, side: Side, qty: nat, limit: Option<int>)
    requires IsMatch(levels, side, qty, limit, r)
    ensures forall i :: 0 <= i < |r.fills| ==> r.fills[i].price in levels
    ensures levels == map[] ==> r.fills == []
    ensures r.fills == [] ==> forall p :: QtyAt(levels, p) == QtyAt(r.levels, p)
  {
    forall i | 0 <= i < |r.fills| ensures r.fills[i].price in levels {
      FilledAtFill(r.fills, i);
      assert QtyAt(levels, r.fills[i].price) > 0;
    }
  }

  lemma TailMisses(fills: seq<Fill>, side: Side)
    requires fills != []
    requires forall i, j :: 0 <= i < j < |fills| ==> Better(side, fills[i].price, fills[j].price)
    ensures FilledAt(fills, fills[0].price) == fills[0].qty
  {
    var tail := fills[1..];
    forall i | 0 <= i < |tail| ensures tail[i].price != fills[0].price {
      assert tail[i] == fills[i + 1];
      assert Better(side, fills[0].price, fills[i + 1].price);
    }
    FilledAtNone(tail, fills[0].price);
  }

  lemma FirstFillIsBest(levels: Levels, side: Side, qty: nat, limit: Option<int>, r: MatchResult, p: int)
    requires IsMatch(levels, side, qty, limit, r)
    requires qty > 0 && p in levels && Within(side, limit, p)
    requires forall q :: q in levels ==> NoWorse(side, p, q)
    ensures r.fills != [] && r.fills[0].price == p
    ensures QtyAt(levels, p) == QtyAt(r.levels, p) + r.fills[0].qty
  {
    NoFillOutside(levels, r, side, qty, limit);
    assert QtyAt(levels, p) == QtyAt(r.levels, p) + FilledAt(r.fills, p);
    if r.fills != [] && r.fills[0].price != p {
      assert Better(side, p, r.fills[0].price);
      assert p !in r.levels;
      forall i | 0 <= i < |r.fills| ensures r.fills[i].price != p {
        assert i > 0 ==> Better(side, r.fills[0].price, r.fills[i].price);
      }
      FilledAtNone(r.fills, p);
    }
    if r.fills != [] { TailMisses(r.fills, side); }
  }

  /** How much a match leaves over is decided by the matchable liquidity alone. */
  lemma {:induction false} LeftOver(levels: Levels, side: Side, qty: nat, limit: Option<int>)
    ensures Matched(levels, side, qty, limit).remaining == SaturatingSub(qty, Available(levels, side, limit))
    decreases |levels.Keys|
  {
    if levels == map[] {
      assert Matchable(levels, side, limit) == map[];
    } else {
      var p := Best(side, levels.Keys);
      if !Within(side, limit, p) {
        assert Matchable(levels, side, limit) == map[];
      } else {
        var rest := levels - {p};
        assert rest.Keys == levels.Keys - {p};
        AvailableSplit(levels, side, limit, p);
        if qty >= levels[p] {
          LeftOver(rest, side, qty - levels[p], limit);
        }
      }
    }
  }

  lemma AvailableSplit(levels: Levels, side: Side, limit: Option<int>, p: int)
    requires p in levels && Within(side, limit, p)
    ensures Available(levels, side, limit) == levels[p] + Available(levels - {p}, side, limit)
  {
    var m := Matchable(levels, side, limit);
    TotalSplit(m, p);
    assert m - {p} == Matchable(levels - {p}, side, limit);
  }

  function Reduced(levels: Levels, p: int, q: nat): Levels
    requires p in levels && q <= levels[p]
  {
    if q == levels[p] then levels - {p} else levels[p := levels[p] - q]
  }

  /** The visits still to come, once the prices have been collected. */
  function Visits(prices: seq<int>, book: Levels, side: Side, qty: nat, limit: Option<int>): MatchResult
    decreases |prices|
  {
    if prices == [] || qty == 0 || prices[0] !in book || !Within(side, limit, prices[0]) then MatchResult([], qty, book)
    else
      var f := Min(qty, book[prices[0]]);
      After(Fill(prices[0], f), Visits(prices[1..], Reduced(book, prices[0], f), side, qty - f, limit))
  }

  lemma VisitsStep(prices: seq<int>, book: Levels, side: Side, qty: nat, limit: Option<int>)
    requires prices != [] && qty > 0 && prices[0] in book && Within(side, limit, prices[0])
    ensures var f := Min(qty, book[prices[0]]);
            Visits(prices, book, side, qty, limit)
            == After(Fill(prices[0], f), Visits(prices[1..], Reduced(book, prices[0], f), side, qty - f, limit))
  {
  }

  lemma MatchedStep(levels: Levels, side: Side, qty: nat, limit: Option<int>)
    requires levels != map[] && qty > 0 && Within(side, limit, Best(side, levels.Keys))
    ensures var p := Best(side, levels.Keys);
            Matched(levels, side, qty, limit)
            == After(Fill(p, Min(qty, levels[p])),
                     if qty < levels[p] then MatchResult([], 0, levels[p := levels[p] - qty])
                     else Matched(levels - {p}, side, qty - levels[p], limit))
  {
  }

  /** Visiting the collected prices in order is the match. */
  lemma {:induction false} VisitsAreMatch(levels: Levels, side: Side, qty: nat, limit: Option<int>)
    ensures Visits(BestFirst(side, levels.Keys), levels, side, qty, limit) == Matched(levels, side, qty, limit)
    decreases |levels.Keys|
  {
    if levels != map[] && qty > 0 {
      var p := Best(side, levels.Keys);
      FirstPrice(side, levels, p);
      if Within(side, limit, p) {
        VisitsStep(BestFirst(side, levels.Keys), levels, side, qty, limit);
        MatchedStep(levels, side, qty, limit);
        if qty >= levels[p] {
          VisitsAreMatch(levels - {p}, side, qty - levels[p], limit);
        }
      }
    }
  }

  lemma FirstPrice(side: Side, levels: Levels, p: int)
    requires levels != map[] && p == Best(side, levels.Keys)
    ensures (levels - {p}).Keys == levels.Keys - {p}
    ensures var prices := BestFirst(side, levels.Keys);
            prices != [] && prices[0] == p && prices[1..] == BestFirst(side, levels.Keys - {p})
  {
  }

  function Prepend(fills: seq<Fill>, r: MatchResult): MatchResult {
    r.(fills := fills + r.fills)
  }

  /** The loop visits prices that are in the book, no two of them alike. */
  ghost predicate AllIn(prices: seq<int>, i: nat, book: Levels) {
    && (forall k :: i <= k < |prices| ==> prices[k] in book)
    && (forall k, l :: 0 <= k < l < |prices| ==> prices[k] != prices[l])
  }

  lemma AllInFirst(levels: Levels, side: Side)
    ensures AllIn(BestFirst(side, levels.Keys), 0, levels)
  {
    BestFirstLists(side, levels.Keys);
    var prices := BestFirst(side, levels.Keys);
    forall k | 0 <= k < |prices| ensures prices[k] in levels {
      assert prices[k] in prices;
    }
  }

  lemma AllInNext(prices: seq<int>, i: nat, book: Levels, q: nat)
    requires AllIn(prices, i, book) && i < |prices| && q <= book[prices[i]]
    ensures AllIn(prices, i + 1, Reduced(book, prices[i], q))
  {
  }

  /** What the loop has filled, followed by the visits still to come, is the whole match. */
  ghost predicate Underway(wanted: MatchResult, fills: seq<Fill>, prices: seq<int>, i: nat, book: Levels, side: Side,
                           qty: nat, limit: Option<int>) {
    && i <= |prices| && AllIn(prices, i, book)
    && wanted == Prepend(fills, Visits(prices[i..], book, side, qty, limit))
  }

  lemma LoopStarts(levels: Levels, side: Side, qty: nat, limit: Option<int>)
    ensures Underway(Matched(levels, side, qty, limit), [], BestFirst(side, levels.Keys), 0, levels, side, qty, limit)
  {
    AllInFirst(levels, side);
    VisitsAreMatch(levels, side, qty, limit);
    var prices, wanted := BestFirst(side, levels.Keys), Matched(levels, side, qty, limit);
    assert prices[0..] == prices && [] + wanted.fills == wanted.fills;
  }

  lemma LoopGoesOn(wanted: MatchResult, fills: seq<Fill>, prices: seq<int>, i: nat, book: Levels, side: Side,
                   qty: nat, limit: Option<int>)
    requires Underway(wanted, fills, prices, i, book, side, qty, limit)
    requires i < |prices| && qty > 0 && Within(side, limit, prices[i])
    ensures prices[i] in book
    ensures var f := Min(qty, book[prices[i]]);
            Underway(wanted, fills + [Fill(prices[i], f)], prices, i + 1, Reduced(book, prices[i], f), side, qty - f, limit)
  {
    var f := Min(qty, book[prices[i]]);
    AllInNext(prices, i, book, f);
    assert prices[i..][0] == prices[i] && prices[i..][1..] == prices[i + 1..];
    VisitsStep(prices[i..], book, side, qty, limit);
    var r := Visits(prices[i + 1..], Reduced(book, prices[i], f), side, qty - f, limit);
    assert fills + ([Fill(prices[i], f)] + r.fills) == (fills + [Fill(prices[i], f)]) + r.fills;
  }

  lemma LoopEnds(wanted: MatchResult, fills: seq<Fill>, prices: seq<int>, i: nat, book: Levels, side: Side,
                 qty: nat, limit: Option<int>)
    requires Underway(wanted, fills, prices, i, book, side, qty, limit)
    requires i == |prices| || qty == 0 || !Within(side, limit, prices[i])
    ensures wanted == MatchResult(fills, qty, book)
  {
    assert i < |prices| ==> prices[i..][0] == prices[i];
    assert fills + [] == fills;
  }

  /** The loop of `match_order`: the prices are collected first, then visited in order. */
  method MatchOrder(levels: Levels, side: Side, qty: nat, limit: Option<int>) returns (r: MatchResult)
    ensures r == Matched(levels, side, qty, limit)
  {
    var prices := BestFirst(side, levels.Keys);
    var remaining: nat, fills: seq<Fill>, book: Levels := qty, [], levels;
    ghost var wanted := Matched(levels, side, qty, limit);
    LoopStarts(levels, side, qty, limit);
    var i := 0;
    while i < |prices|
      invariant Underway(wanted, fills, prices, i, book, side, remaining, limit)
    {
      var price := prices[i];
      if remaining == 0 || !Within(side, limit, price) { break; }
      LoopGoesOn(wanted, fills, prices, i, book, side, remaining, limit);
      var fillQty := Min(remaining, book[price]);
      book := Reduced(book, price, fillQty);
      remaining := remaining - fillQty;
      fills := fills + [Fill(price, fillQty)];
      i := i + 1;
    }
    LoopEnds(wanted, fills, prices, i, book, side, remaining, limit);
    r := MatchResult(fills, remaining, book);
  }
}
