/** The map book (crates/atomic-orderbook/src/book.rs) and its fill simulation, which
    has to predict what the matcher of the simulated exchange does. */
module OrderBook {
  import opened Types
  import opened PriceLevels
  import opened Matching
  import opened FlatLevels

  /** All levels of a side, best for the taker first. */
  function Ranked(side: Side, levels: Levels): (top: seq<Level>)
    ensures |top| == |levels|
    decreases |levels.Keys|
  {
    if levels == map[] then []
    else
      var p := Best(side, levels.Keys);
      assert (levels - {p}).Keys == levels.Keys - {p};
      [Level(p, levels[p])] + Ranked(side, levels - {p})
  }

  function TopLevels(side: Side, levels: Levels, n: nat): seq<Level> {
    var all := Ranked(side, levels);
    all[..Min(n, |all|)]
  }

  /** The ranking lists every level once and strictly best first. */
  ghost predicate IsRanking(side: Side, top: seq<Level>, levels: Levels) {
    && (forall l :: l in top <==> l.price in levels && levels[l.price] == l.qty)
    && (forall i, j :: 0 <= i < j < |top| ==> Better(side, top[i].price, top[j].price))
  }

  lemma {:induction false} RankedIsRanking(side: Side, levels: Levels)
    ensures IsRanking(side, Ranked(side, levels), levels)
    decreases |levels.Keys|
  {
    if levels != map[] {
      var p := Best(side, levels.Keys);
      var rest := levels - {p};
      assert rest.Keys == levels.Keys - {p};
      RankedIsRanking(side, rest);
      RankingExtends(side, p, levels, Ranked(side, rest));
    }
  }

  lemma RankingExtends(side: Side, p: int, levels: Levels, top: seq<Level>)
    requires p in levels && forall q :: q in levels ==> NoWorse(side, p, q)
    requires IsRanking(side, top, levels - {p})
    ensures IsRanking(side, [Level(p, levels[p])] + top, levels)
  {
    var all := [Level(p, levels[p])] + top;
    forall j | 0 < j < |all| ensures Better(side, p, all[j].price) {
      assert all[j] in top;
    }
    forall l: Level | l.price in levels && levels[l.price] == l.qty ensures l in all {
      if l.price != p { assert l in top; }
    }
  }

  /** The first n levels: each in the book, strictly best first, and none left out that is better. */
  lemma TopLevelsAreBest(side: Side, levels: Levels, n: nat)
    ensures var top := TopLevels(side, levels, n);
            && |top| == Min(n, |levels|)
            && (forall i :: 0 <= i < |top| ==> top[i].price in levels && levels[top[i].price] == top[i].qty)
            && (forall i, j :: 0 <= i < j < |top| ==> Better(side, top[i].price, top[j].price))
            && (forall p :: p in levels && Level(p, levels[p]) !in top ==>
                  forall i :: 0 <= i < |top| ==> Better(side, top[i].price, p))
  {
    var all, top := Ranked(side, levels), TopLevels(side, levels, n);
    RankedIsRanking(side, levels);
    forall i | 0 <= i < |top| ensures top[i].price in levels && levels[top[i].price] == top[i].qty {
      assert all[i] in all;
    }
    forall p, i | p in levels && Level(p, levels[p]) !in top && 0 <= i < |top| ensures Better(side, top[i].price, p) {
      LeftOutIsWorse(side, all, |top|, Level(p, levels[p]), i);
    }
  }

  lemma LeftOutIsWorse(side: Side, all: seq<Level>, n: nat, l: Level, i: nat)
    requires forall i, j :: 0 <= i < j < |all| ==> Better(side, all[i].price, all[j].price)
    requires i < n <= |all| && l in all && l !in all[..n]
    ensures Better(side, all[i].price, l.price)
  {
    var tail := all[n..];
    assert all == all[..n] + tail;
    var k :| 0 <= k < |tail| && tail[k] == l;
    assert all[n + k] == tail[k];
  }

  function Cost(fills: seq<Fill>): int {
    if fills == [] then 0 else fills[0].price * fills[0].qty + Cost(fills[1..])
  }

  /** What the matcher's fills amount to: nothing, or an average price and a quantity. */
  function Summary(fills: seq<Fill>): Option<Level> {
    if FilledQty(fills) == 0 then None
    else Some(Level(TruncDiv(Cost(fills), FilledQty(fills)), FilledQty(fills)))
  }

  lemma {:induction false} CostBetween(fills: seq<Fill>, lo: int, hi: int)
    requires forall i :: 0 <= i < |fills| ==> lo <= fills[i].price <= hi
    ensures lo * FilledQty(fills) <= Cost(fills) <= hi * FilledQty(fills)
  {
    if fills != [] {
      var f, rest := fills[0], fills[1..];
      CostBetween(rest, lo, hi);
      MulLe(lo, f.price, f.qty);
      MulLe(f.price, hi, f.qty);
      assert lo * (f.qty + FilledQty(rest)) == lo * f.qty + lo * FilledQty(rest);
      assert hi * (f.qty + FilledQty(rest)) == hi * f.qty + hi * FilledQty(rest);
    }
  }

  /** The simulated average lies between the first and the last price that is touched, also
      for negative prices, and the simulated quantity is what the matcher would fill. */
  lemma AverageIsAPrice(levels: Levels, side: Side, qty: nat)
    ensures var r := Matched(levels, side, qty, None);
            && FilledQty(r.fills) == qty - r.remaining
            && (r.fills != [] ==>
                  && Summary(r.fills).Some?
                  && NoWorse(side, r.fills[0].price, Summary(r.fills).value.price)
                  && NoWorse(side, Summary(r.fills).value.price, r.fills[|r.fills| - 1].price))
  {
    MatchedIsMatch(levels, side, qty, None);
    var fills := Matched(levels, side, qty, None).fills;
    if fills != [] {
      var lo, hi := PriceRange(fills, side);
      CostBetween(fills, lo, hi);
      TruncDivBetween(Cost(fills), FilledQty(fills), lo, hi);
    }
  }

  lemma WithoutLimit(levels: Levels, side: Side)
    ensures Available(levels, side, None) == Total(levels)
    ensures Total(levels) == 0 <==> levels == map[]
  {
    assert Matchable(levels, side, None) == levels;
  }

  /** "None if there is not enough liquidity" is what the code does exactly for orders of more than zero that the book fills
      completely, or not at all; it answers with what there is when the book fills a part. */
  lemma NoneForTooLittleExactly(levels: Levels, side: Side, qty: nat)
    ensures (Summary(Matched(levels, side, qty, None).fills).None? <==> Total(levels) < qty)
            <==> qty > 0 && (levels == map[] || Total(levels) >= qty)
  {
    WithoutLimit(levels, side);
    LeftOver(levels, side, qty, None);
    AverageIsAPrice(levels, side, qty);
  }

  /** Two units wanted, one there: it is answered with one unit. */
  lemma PartIsAnswered()
    ensures Total(map[100 := 1]) < 2 && Summary(Matched(map[100 := 1], Buy, 2, None).fills) == Some(Level(100, 1))
  {
    var levels: Levels := map[100 := 1];
    assert levels - {100} == map[];
    TotalSplit(levels, 100);
    MatchTakesBest(Buy, levels, 2);
    var fills := Matched(levels, Buy, 2, None).fills;
    assert Best(Buy, levels.Keys) in levels;
    assert fills == [Fill(100, 1)] && fills[1..] == [];
    assert Cost(fills) == 100 && FilledQty(fills) == 1;
  }

  /** The average is the cost over the quantity, rounded towards zero. */
  lemma SummaryIs(fills: seq<Fill>)
    requires FilledQty(fills) > 0
    ensures Summary(fills).Some? && Summary(fills).value.qty == FilledQty(fills)
    ensures IsQuotient(Summary(fills).value.price, Cost(fills), FilledQty(fills))
  {
    TruncDivIs(Cost(fills), FilledQty(fills));
  }

  lemma PriceRange(fills: seq<Fill>, side: Side) returns (lo: int, hi: int)
    requires fills != [] && fills[0].qty > 0
    requires forall i, j :: 0 <= i < j < |fills| ==> Better(side, fills[i].price, fills[j].price)
    ensures forall i :: 0 <= i < |fills| ==> lo <= fills[i].price <= hi
    ensures (lo, hi) == if side.Buy? then (fills[0].price, fills[|fills| - 1].price)
                        else (fills[|fills| - 1].price, fills[0].price)
    ensures FilledQty(fills) > 0
  {
    var first, last := fills[0].price, fills[|fills| - 1].price;
    lo, hi := if side.Buy? then first else last, if side.Buy? then last else first;
    forall i | 0 <= i < |fills| ensures lo <= fills[i].price <= hi {
      assert i > 0 ==> Better(side, first, fills[i].price);
      assert i < |fills| - 1 ==> Better(side, fills[i].price, last);
    }
  }

  /** What a walk down a list of levels takes. */
  function Taken(top: seq<Level>, qty: nat): seq<Fill> {
    if top == [] || qty == 0 then []
    else
      var f := Min(qty, top[0].qty);
      [Fill(top[0].price, f)] + Taken(top[1..], qty - f)
  }

  lemma MatchTakesBest(side: Side, levels: Levels, qty: nat)
    requires levels != map[] && qty > 0
    ensures var p := Best(side, levels.Keys);
            Matched(levels, side, qty, None).fills
            == [Fill(p, Min(qty, levels[p]))]
               + if qty < levels[p] then [] else Matched(levels - {p}, side, qty - levels[p], None).fills
  {
  }

  lemma RankedSplits(side: Side, levels: Levels)
    requires levels != map[]
    ensures var p := Best(side, levels.Keys);
            Ranked(side, levels) == [Level(p, levels[p])] + Ranked(side, levels - {p})
  {
  }

  /** The walk takes what the matcher fills. */
  lemma {:induction false} WalkIsMatch(side: Side, levels: Levels, qty: nat)
    ensures Taken(Ranked(side, levels), qty) == Matched(levels, side, qty, None).fills
    decreases |levels.Keys|
  {
    if levels != map[] && qty > 0 {
      var p := Best(side, levels.Keys);
      var rest := levels - {p};
      assert rest.Keys == levels.Keys - {p};
      RankedSplits(side, levels);
      MatchTakesBest(side, levels, qty);
      TakenFirst(Level(p, levels[p]), Ranked(side, rest), qty);
      if qty >= levels[p] {
        WalkIsMatch(side, rest, qty - levels[p]);
      }
    }
  }

  lemma TakenFirst(l: Level, rest: seq<Level>, qty: nat)
    ensures Taken([l] + rest, qty)
            == if qty == 0 then [] else [Fill(l.price, Min(qty, l.qty))] + Taken(rest, qty - Min(qty, l.qty))
  {
    assert ([l] + rest)[1..] == rest;
  }

  lemma TakenNext(top: seq<Level>, i: nat, remaining: nat)
    requires i < |top| && remaining > 0
    ensures var f := Min(remaining, top[i].qty);
            && Cost(Taken(top[i..], remaining)) == f * top[i].price + Cost(Taken(top[i + 1..], remaining - f))
            && FilledQty(Taken(top[i..], remaining)) == f + FilledQty(Taken(top[i + 1..], remaining - f))
  {
    assert top[i..] == [top[i]] + top[i + 1..];
    TakenFirst(top[i], top[i + 1..], remaining);
    var f := Min(remaining, top[i].qty);
    var rest := Taken(top[i + 1..], remaining - f);
    assert ([Fill(top[i].price, f)] + rest)[1..] == rest;
  }

  class OrderBook {
    const symbol: Symbol
    var bids: Levels
    var asks: Levels
    var lastUpdateSeq: nat
    var lastUpdateTs: nat

    constructor (symbol: Symbol)
      ensures this.symbol == symbol && bids == map[] && asks == map[] && lastUpdateSeq == lastUpdateTs == 0
    {
      this.symbol := symbol;
      bids, asks, lastUpdateSeq, lastUpdateTs := map[], map[], 0, 0;
    }

    method ApplySnapshot(b: seq<Level>, a: seq<Level>, seqNo: nat, ts: nat)
      modifies this
      ensures bids == MapStep(old(bids), Snapshot(b)) && asks == MapStep(old(asks), Snapshot(a))
      ensures lastUpdateSeq == seqNo && lastUpdateTs == ts
    {
      bids := LoadSide(b);
      asks := LoadSide(a);
      lastUpdateSeq, lastUpdateTs := seqNo, ts;
    }

    method ApplyDelta(b: seq<Level>, a: seq<Level>, seqNo: nat, ts: nat)
      modifies this
      ensures bids == MapStep(old(bids), Delta(b)) && asks == MapStep(old(asks), Delta(a))
      ensures lastUpdateSeq == seqNo && lastUpdateTs == ts
    {
      bids := ApplyLevels(bids, b);
      asks := ApplyLevels(asks, a);
      lastUpdateSeq, lastUpdateTs := seqNo, ts;
    }

    function BestBid(): (l: Option<Level>)
      reads this
      ensures l.None? <==> bids == map[]
      ensures l.Some? ==> l.value.price in bids && bids[l.value.price] == l.value.qty
                          && forall p :: p in bids ==> p <= l.value.price
    {
      if bids == map[] then None
      else var p := Best(Sell, bids.Keys); assert forall q :: q in bids ==> NoWorse(Sell, p, q); Some(Level(p, bids[p]))
    }

    function BestAsk(): (l: Option<Level>)
      reads this
      ensures l.None? <==> asks == map[]
      ensures l.Some? ==> l.value.price in asks && asks[l.value.price] == l.value.qty
                          && forall p :: p in asks ==> l.value.price <= p
    {
      if asks == map[] then None
      else var p := Best(Buy, asks.Keys); assert forall q :: q in asks ==> NoWorse(Buy, p, q); Some(Level(p, asks[p]))
    }

    /** The answer is what the exchange's matcher would fill for a taker without a limit. */
    method SimulateFill(side: Side, qty: nat) returns (r: Option<Level>)
      ensures r == Summary(Matched(if side.Buy? then asks else bids, side, qty, None).fills)
    {
      var levels: Levels := if side.Buy? then asks else bids;
      var totalCost, totalFilled := WalkLevels(Ranked(side, levels), qty);
      WalkIsMatch(side, levels, qty);
      if totalFilled == 0 {
        return None;
      }
      return Some(Level(TruncDiv(totalCost, totalFilled), totalFilled));
    }
  }

  /** The loop of `simulate_fill`: takes from level after level, best first. */
  method WalkLevels(top: seq<Level>, qty: nat) returns (totalCost: int, totalFilled: nat)
    ensures totalCost == Cost(Taken(top, qty)) && totalFilled == FilledQty(Taken(top, qty))
  {
    var remaining: nat := qty;
    totalCost, totalFilled := 0, 0;
    for i := 0 to |top|
      invariant Cost(Taken(top, qty)) == totalCost + Cost(Taken(top[i..], remaining))
      invariant FilledQty(Taken(top, qty)) == totalFilled + FilledQty(Taken(top[i..], remaining))
    {
      if remaining <= 0 { break; }
      TakenNext(top, i, remaining);
      var fillQty := Min(remaining, top[i].qty);
      totalCost := totalCost + fillQty * top[i].price;
      totalFilled := totalFilled + fillQty;
      remaining := remaining - fillQty;
    }
  }

  /** A snapshot side: every level with a quantity is inserted. */
  method LoadSide(us: seq<Level>) returns (levels: Levels)
    ensures levels == Listed(us)
  {
    levels := map[];
    for i := 0 to |us|
      invariant Listed(us) == ListedOnto(levels, us[i..])
    {
      if us[i].qty > 0 {
        levels := levels[us[i].price := us[i].qty];
      }
    }
  }
}
