/** The hot-path engine: book updates, trades and fills come in, quote commands go out (cpp/src/engine.cpp). The floating
    point microprice is an unspecified function of the two sides of the engine's own book. */
module Quoting {
  import opened Types
  import opened Pacing
  import opened TradeFlow
  import opened Toxicity
  import opened Inventory
  import opened PriceLevels
  import opened FlatLevels
  import opened FlatBook
  import opened QuoteRules

  datatype HotResult = HotResult(commands: seq<Command>, fairValue: int, vpin: int, skew: int, halfSpread: int)

  /** What the engine's counters say about the fair values it has seen. */
  ghost predicate Paces(p: Params, values: seq<int>, tickCount: int, lastFairValue: int, ticksSinceQuote: int) {
    var bs := Batches(p, values);
    && tickCount == |values|
    && lastFairValue == (if bs == [] then 0 else bs[|bs| - 1].fairValue)
    && ticksSinceQuote == |values| - (if bs == [] then 0 else bs[|bs| - 1].tick)
  }

  predicate ShouldRequote(p: Params, lastFairValue: int, tickCount: int, ticksSinceQuote: int, fairValue: int) {
    if lastFairValue == 0 then true
    else if tickCount < p.warmupTicks then false
    else if ticksSinceQuote < p.cooldownTicks then false
    else
      var delta := fairValue - lastFairValue;
      (if delta < 0 then -delta else delta) >= p.requoteThreshold
  }

  /** The counters decide as the history does, and keep saying the same about it. */
  lemma CountersDecide(p: Params, values: seq<int>, tickCount: int, lastFairValue: int, ticksSinceQuote: int, fairValue: int)
    requires Paces(p, values, tickCount, lastFairValue, ticksSinceQuote)
    ensures var quoted := fairValue != 0 && ShouldRequote(p, lastFairValue, tickCount + 1, ticksSinceQuote + 1, fairValue);
            && quoted == Due(p, Batches(p, values), |values| + 1, fairValue)
            && (quoted ==> Paces(p, values + [fairValue], tickCount + 1, fairValue, 0))
            && (!quoted ==> Paces(p, values + [fairValue], tickCount + 1, lastFairValue, ticksSinceQuote + 1))
  {
    var before := Batches(p, values);
    BatchesAppend(p, values, fairValue);
    BatchesNameUpdates(p, values);
    assert before != [] ==> before[|before| - 1] in before;
  }

  class HotPathEngine {
    const book: FlatBook
    const toxicity: ToxicityState
    const inventory: InventoryState
    const params: Params
    const price: (seq<Level>, seq<Level>) -> int
    var lastFairValue: int
    var lastBidPrice: int
    var lastAskPrice: int
    var tickCount: int
    var ticksSinceQuote: int
    var hasActiveQuotes: bool
    /** The fair value of every book update, and every command ever returned. */
    ghost var values: seq<int>
    ghost var sent: seq<Command>

    ghost predicate Quoting()
      reads this, inventory, toxicity, toxicity.tradeSides, toxicity.tradeQtys
    {
      && toxicity.Valid() && inventory.Valid()
      && Paces(params, values, tickCount, lastFairValue, ticksSinceQuote)
      && Ledger(sent, hasActiveQuotes)
    }

    ghost predicate Valid()
      reads this, inventory, toxicity, toxicity.tradeSides, toxicity.tradeQtys, book
    {
      Quoting() && book.Shaped()
    }

    ghost function Config(): HotConfig
      reads toxicity
    {
      HotConfig(params, inventory.maxInventory, inventory.gamma, toxicity.enabled)
    }

    /** All that the answers depend on. */
    ghost function Value(): Hot
      reads this, toxicity, inventory
    {
      Hot(values, toxicity.history, hasActiveQuotes, inventory.positionQty)
    }

    constructor (params: Params, maxInventory: int, gamma: int, vpinEnabled: bool, price: (seq<Level>, seq<Level>) -> int)
      ensures Valid() && Value() == Hot([], [], false, 0) && sent == []
      ensures Config() == HotConfig(params, maxInventory, gamma, vpinEnabled) && this.price == price
      ensures book.Valid() && book.Sides() == FlatSides([], [])
      ensures fresh(inventory) && fresh(toxicity) && fresh(toxicity.tradeSides) && fresh(toxicity.tradeQtys)
      ensures fresh(book) && fresh(book.bids) && fresh(book.asks)
    {
      var t := new ToxicityState();
      t.enabled := vpinEnabled;
      toxicity := t;
      inventory := new InventoryState(maxInventory, gamma);
      book := new FlatBook();
      this.params, this.price := params, price;
      lastFairValue, lastBidPrice, lastAskPrice, tickCount, ticksSinceQuote := 0, 0, 0, 0, 0;
      hasActiveQuotes, values, sent := false, [], [];
    }

    /** Cancel first, then quote on each side that the inventory leaves room for. */
    method BatchCommands(bidPrice: int, askPrice: int) returns (commands: seq<Command>)
      ensures commands == (if hasActiveQuotes then [CancelAll] else [])
                          + (if inventory.AtMaxLong() then [] else [PlaceBid(bidPrice, params.orderQty)])
                          + (if inventory.AtMaxShort() then [] else [PlaceAsk(askPrice, params.orderQty)])
    {
      commands := [];
      if hasActiveQuotes {
        commands := commands + [CancelAll];
      }
      if !inventory.AtMaxLong() {
        commands := commands + [PlaceBid(bidPrice, params.orderQty)];
      }
      if !inventory.AtMaxShort() {
        commands := commands + [PlaceAsk(askPrice, params.orderQty)];
      }
    }

    method GenerateQuotes(fairValue: int) returns (r: HotResult)
      requires toxicity.Sums() && toxicity.CurrentVpin() == VpinOf(toxicity.history) && inventory.Valid()
      modifies this`lastFairValue, this`lastBidPrice, this`lastAskPrice, this`ticksSinceQuote, this`hasActiveQuotes
      ensures r.fairValue == fairValue == lastFairValue && ticksSinceQuote == 0 && hasActiveQuotes
      ensures r.vpin == toxicity.CurrentVpin() && r.halfSpread == HalfSpreadNow(Config(), old(Value()))
      ensures r.skew == inventory.ComputeSkew(r.halfSpread)
      ensures r.commands == BatchNow(Config(), old(Value()), fairValue)
      ensures lastBidPrice == fairValue - r.halfSpread - r.skew && lastAskPrice == fairValue + r.halfSpread - r.skew
    {
      var baseHs := params.halfSpread;
      if baseHs < 1 { baseHs := 1; }
      var multiplier := toxicity.SpreadMultiplier();
      var halfSpread := TruncDiv(baseHs * multiplier, 10000);
      var skew := inventory.ComputeSkew(halfSpread);
      var bidPrice := fairValue - halfSpread - skew;
      var askPrice := fairValue + halfSpread - skew;
      var commands := BatchCommands(bidPrice, askPrice);
      r := HotResult(commands, fairValue, toxicity.CurrentVpin(), skew, halfSpread);
      lastFairValue, lastBidPrice, lastAskPrice := fairValue, bidPrice, askPrice;
      ticksSinceQuote, hasActiveQuotes := 0, true;
    }

    /** What follows the computation of the fair value. */
    method OnFairValue(fairValue: int) returns (r: HotResult)
      requires Quoting()
      modifies this
      ensures Quoting() && sent == old(sent) + r.commands && r.fairValue == fairValue
      ensures (Value(), r.commands) == OnTick(Config(), old(Value()), fairValue)
      ensures DueNow(Config(), old(Value()), fairValue)
              ==> r.halfSpread == HalfSpreadNow(Config(), old(Value()))
                  && r.skew == inventory.ComputeSkew(r.halfSpread)
                  && SoundBatch(params, r.commands, fairValue, r.halfSpread, inventory.gamma)
    {
      CountersDecide(params, values, tickCount, lastFairValue, ticksSinceQuote, fairValue);
      TickKeepsLedger(Config(), Value(), fairValue, sent);
      BatchIsSound(Config(), Value(), fairValue);
      tickCount := tickCount + 1;
      ticksSinceQuote := ticksSinceQuote + 1;
      if fairValue == 0 {
        r := HotResult([], 0, 0, 0, 0);
      } else if !ShouldRequote(params, lastFairValue, tickCount, ticksSinceQuote, fairValue) {
        r := HotResult([], fairValue, toxicity.CurrentVpin(), 0, 0);
      } else {
        r := GenerateQuotes(fairValue);
      }
      values := values + [fairValue];
      sent := sent + r.commands;
    }

    method UpdateBook(bids: seq<Level>, asks: seq<Level>, isSnapshot: bool)
      requires book.Shaped()
      modifies book, book.bids, book.asks
      ensures book.Shaped() && book.Sides() == SidesFed(old(book.Sides()), bids, asks, isSnapshot)
      ensures old(book.Valid()) && (isSnapshot ==> Proper(bids, true) && Proper(asks, false))
              ==> book.Valid()
                  && book.BidMap() == FlatStep(old(book.BidMap()), if isSnapshot then Snapshot(bids) else Delta(bids), true)
                  && book.AskMap() == FlatStep(old(book.AskMap()), if isSnapshot then Snapshot(asks) else Delta(asks), false)
    {
      if isSnapshot {
        book.ApplySnapshot(bids, asks);
      } else {
        book.ApplyDelta(bids, asks);
      }
    }

    /** A book update changes the flat book as `SidesFed` says, and leads to a quote batch exactly when the history of
        fair values makes one due. Its quotes lie on both sides of the fair value for every risk aversion of at most one,
        whatever fills and trades came before. A sorted book that is fed sorted snapshots follows the capped map. */
    method OnBookUpdate(bids: seq<Level>, asks: seq<Level>, isSnapshot: bool) returns (r: HotResult)
      requires Valid()
      modifies this, book, book.bids, book.asks
      ensures Valid() && sent == old(sent) + r.commands
      ensures book.Sides() == SidesFed(old(book.Sides()), bids, asks, isSnapshot)
      ensures old(book.Valid()) && (isSnapshot ==> Proper(bids, true) && Proper(asks, false))
              ==> book.Valid()
                  && book.BidMap() == FlatStep(old(book.BidMap()), if isSnapshot then Snapshot(bids) else Delta(bids), true)
                  && book.AskMap() == FlatStep(old(book.AskMap()), if isSnapshot then Snapshot(asks) else Delta(asks), false)
      ensures values == old(values) + [r.fairValue] && r.fairValue == FairValue(price, book.Sides())
      ensures r.fairValue == if book.bidCount == 0 || book.askCount == 0 then 0
                             else price(book.bids[..book.bidCount], book.asks[..book.askCount])
      ensures var fairValue := r.fairValue;
              && (Value(), r.commands) == OnTick(Config(), old(Value()), fairValue)
              && (DueNow(Config(), old(Value()), fairValue)
                  ==> SoundBatch(params, r.commands, fairValue, r.halfSpread, inventory.gamma)
                      && BatchReads(r.commands, old(hasActiveQuotes), inventory.positionQty, inventory.maxInventory, fairValue,
                                    r.halfSpread, r.skew, params.orderQty)
                      && (inventory.gamma >= 0 && inventory.maxInventory >= 0
                          ==> (inventory.positionQty >= 0 ==> r.skew >= 0) && (inventory.positionQty <= 0 ==> r.skew <= 0)))
    {
      UpdateBook(bids, asks, isSnapshot);
      var fairValue := FairValue(price, FlatSides(book.bids[..book.bidCount], book.asks[..book.askCount]));
      BatchIs(Config(), Value(), fairValue);
      r := OnFairValue(fairValue);
      if inventory.gamma >= 0 && inventory.maxInventory >= 0 && r.halfSpread >= 0 {
        SkewLeansAgainst(inventory.gamma, inventory.positionQty, inventory.maxInventory, r.halfSpread);
      }
    }

    /** Toxic flow takes every quote out of the market and nothing else does between two batches. */
    method OnTrade(side: Side, price: int, qty: nat) returns (r: HotResult)
      requires Quoting()
      modifies this`hasActiveQuotes, this`sent, toxicity, toxicity.tradeSides, toxicity.tradeQtys
      ensures Quoting() && sent == old(sent) + r.commands && Config() == old(Config())
      ensures (Value(), r.commands) == OnPrint(Config(), old(Value()), Trade(side, qty, price))
      ensures toxicity.history == old(toxicity.history) + [Trade(side, qty, price)]
      ensures r.commands == (if toxicity.IsToxic() && old(hasActiveQuotes) then [CancelAll] else [])
      ensures hasActiveQuotes == (old(hasActiveQuotes) && !toxicity.IsToxic()) && (toxicity.IsToxic() ==> NoneLive(sent))
    {
      PrintKeepsLedger(Config(), Value(), Trade(side, qty, price), sent);
      toxicity.OnTrade(if side.Buy? then 1 else -1, qty, price);
      var toxic := toxicity.IsToxic();
      var commands: seq<Command> := [];
      if toxic && hasActiveQuotes {
        commands := [CancelAll];
        hasActiveQuotes := false;
      }
      sent := sent + commands;
      r := HotResult(commands, lastFairValue, toxicity.CurrentVpin(), 0, 0);
    }

    method OnFill(side: Side, qty: nat)
      requires Quoting()
      modifies inventory`positionQty
      ensures Quoting() && Value() == AfterFill(Config(), old(Value()), if side.Buy? then qty else 0 - qty)
      ensures inventory.positionQty
              == Clamped(inventory.maxInventory, if side.Buy? then old(inventory.positionQty) + qty else old(inventory.positionQty) - qty)
    {
      inventory.OnFill(if side.Buy? then 1 else -1, qty);
    }
  }
}
