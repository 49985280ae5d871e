/** The rules by which the hot path quotes (cpp/src/engine.cpp), as functions of all it has seen: what it answers to a
    fair value and to a trade, and what holds of the stream of its answers. */
module QuoteRules {
  import opened Types
  import opened Pacing
  import opened TradeFlow
  import opened Inventory
  import opened FlatBook

  datatype Command = PlaceBid(price: int, qty: nat) | PlaceAsk(price: int, qty: nat) | CancelAll

  /** Quotes that were placed and not cancelled since. */
  function Live(sent: seq<Command>, bids: bool): nat {
    if sent == [] then 0
    else
      var before := Live(sent[..|sent| - 1], bids);
      match sent[|sent| - 1]
      case CancelAll => 0
      case PlaceBid(_, _) => if bids then before + 1 else before
      case PlaceAsk(_, _) => if bids then before else before + 1
  }

  predicate NoneLive(sent: seq<Command>) {
    Live(sent, true) == 0 && Live(sent, false) == 0
  }

  /** At no point of the stream is more than one quote live on either side. */
  ghost predicate OneEach(sent: seq<Command>) {
    sent == [] || (OneEach(sent[..|sent| - 1]) && Live(sent, true) <= 1 && Live(sent, false) <= 1)
  }

  lemma {:induction false} OneEachAlways(sent: seq<Command>, n: nat, bids: bool)
    requires OneEach(sent) && n <= |sent|
    ensures Live(sent[..n], bids) <= 1
  {
    if n == |sent| {
      assert sent[..n] == sent;
    } else {
      assert sent[..|sent| - 1][..n] == sent[..n];
      OneEachAlways(sent[..|sent| - 1], n, bids);
    }
  }

  /** What the engine's flag says about the commands it has sent. */
  ghost predicate Ledger(sent: seq<Command>, active: bool) {
    OneEach(sent) && (active || NoneLive(sent))
  }

  lemma LiveAppend(sent: seq<Command>, c: Command, bids: bool)
    ensures Live(sent + [c], bids) == match c
                                      case CancelAll => 0
                                      case PlaceBid(_, _) => Live(sent, bids) + (if bids then 1 else 0)
                                      case PlaceAsk(_, _) => Live(sent, bids) + (if bids then 0 else 1)
  {
    assert (sent + [c])[..|sent|] == sent;
  }

  lemma OneEachAppend(sent: seq<Command>, c: Command)
    requires OneEach(sent) && Live(sent + [c], true) <= 1 && Live(sent + [c], false) <= 1
    ensures OneEach(sent + [c])
  {
    assert (sent + [c])[..|sent|] == sent;
  }

  /** Without a cancellation in between the number of live quotes does not fall. */
  lemma {:induction false} LiveGrows(sent: seq<Command>, i: nat, j: nat, bids: bool)
    requires i <= j <= |sent| && forall k :: i <= k < j ==> !sent[k].CancelAll?
    ensures Live(sent[..i], bids) <= Live(sent[..j], bids)
  {
    if i < j {
      LiveGrows(sent, i, j - 1, bids);
      assert sent[..j - 1] + [sent[j - 1]] == sent[..j];
      LiveAppend(sent[..j - 1], sent[j - 1], bids);
    }
  }

  lemma TwoLive(sent: seq<Command>, i: nat, j: nat, bids: bool)
    requires i < j < |sent| && forall k :: i < k < j ==> !sent[k].CancelAll?
    requires if bids then sent[i].PlaceBid? && sent[j].PlaceBid? else sent[i].PlaceAsk? && sent[j].PlaceAsk?
    ensures Live(sent[..j + 1], bids) >= 2
  {
    assert sent[..i] + [sent[i]] == sent[..i + 1] && sent[..j] + [sent[j]] == sent[..j + 1];
    LiveAppend(sent[..i], sent[i], bids);
    LiveGrows(sent, i + 1, j, bids);
    LiveAppend(sent[..j], sent[j], bids);
  }

  /** One live quote per side means: between two quotes on the same side lies a cancellation. */
  lemma CancelledBetween(sent: seq<Command>, i: nat, j: nat)
    requires OneEach(sent) && i < j < |sent|
    requires (sent[i].PlaceBid? && sent[j].PlaceBid?) || (sent[i].PlaceAsk? && sent[j].PlaceAsk?)
    ensures exists k :: i < k < j && sent[k].CancelAll?
  {
    OneEachAlways(sent, j + 1, sent[i].PlaceBid?);
    if forall k :: i < k < j ==> !sent[k].CancelAll? {
      TwoLive(sent, i, j, sent[i].PlaceBid?);
      assert false;
    }
  }

  function HalfSpread(p: Params, multiplier: int): int {
    TruncDiv(Max(1, p.halfSpread) * multiplier, 10000)
  }

  /** The half-spread is the configured one, at least 1, times the multiplier over ten thousand, rounded down. */
  lemma HalfSpreadIs(p: Params, multiplier: nat)
    ensures var (base, hs) := (if p.halfSpread < 1 then 1 else p.halfSpread, HalfSpread(p, multiplier));
            10000 * hs <= base * multiplier < 10000 * (hs + 1)
  {
    var base := Max(1, p.halfSpread);
    assert base * multiplier >= 0;
    TruncDivIs(base * multiplier, 10000);
  }

  lemma HalfSpreadRange(p: Params, multiplier: int)
    requires 10000 <= multiplier <= 20000
    ensures Max(1, p.halfSpread) <= HalfSpread(p, multiplier) <= 2 * Max(1, p.halfSpread)
  {
    var base := Max(1, p.halfSpread);
    MulLe(10000, multiplier, base);
    MulLe(multiplier, 20000, base);
    TruncDivBetween(base * multiplier, 10000, base, 2 * base);
  }

  /** The commands of one quote batch. */
  function Quotes(active: bool, full: bool, empty: bool, fairValue: int, halfSpread: int, skew: int, qty: nat): seq<Command> {
    (if active then [CancelAll] else [])
    + (if full then [] else [PlaceBid(fairValue - halfSpread - skew, qty)])
    + (if empty then [] else [PlaceAsk(fairValue + halfSpread - skew, qty)])
  }

  /** A batch has at most three commands, one per kind; it buys below and sells above the fair value,
      and its two quotes are two half-spreads apart. */
  ghost predicate Straddles(cs: seq<Command>, fairValue: int, halfSpread: int) {
    && |cs| <= 3 && (forall i, j :: 0 <= i < j < |cs| ==> Kind(cs[i]) < Kind(cs[j]))
    && (forall c :: c in cs && c.PlaceBid? ==> fairValue - 2 * halfSpread <= c.price <= fairValue)
    && (forall c :: c in cs && c.PlaceAsk? ==> fairValue <= c.price <= fairValue + 2 * halfSpread)
  }

  ghost predicate SpreadApart(cs: seq<Command>, halfSpread: int) {
    forall b, a :: b in cs && a in cs && b.PlaceBid? && a.PlaceAsk? ==> a.price - b.price == 2 * halfSpread > 0
  }

  function Kind(c: Command): nat {
    match c
    case CancelAll => 0
    case PlaceBid(_, _) => 1
    case PlaceAsk(_, _) => 2
  }

  lemma QuotesStraddle(active: bool, full: bool, empty: bool, fairValue: int, halfSpread: int, skew: int, qty: nat)
    requires halfSpread > 0
    ensures var cs := Quotes(active, full, empty, fairValue, halfSpread, skew, qty);
            && |cs| <= 3 && SpreadApart(cs, halfSpread)
            && (-halfSpread <= skew <= halfSpread ==> Straddles(cs, fairValue, halfSpread))
  {
  }

  /** A quote on a side where none is live. */
  lemma QuoteKeepsLedger(sent: seq<Command>, c: Command)
    requires Ledger(sent, true) && !c.CancelAll? && Live(sent, c.PlaceBid?) == 0
    ensures Ledger(sent + [c], true) && Live(sent + [c], !c.PlaceBid?) == Live(sent, !c.PlaceBid?)
  {
    LiveAppend(sent, c, true);
    LiveAppend(sent, c, false);
    OneEachAlways(sent, |sent|, !c.PlaceBid?);
    assert sent[..|sent|] == sent;
    OneEachAppend(sent, c);
  }

  /** A bid and an ask, or either, or neither. */
  lemma PairKeepsLedger(sent: seq<Command>, bid: seq<Command>, ask: seq<Command>)
    requires Ledger(sent, true) && NoneLive(sent)
    requires bid == [] || (|bid| == 1 && bid[0].PlaceBid?)
    requires ask == [] || (|ask| == 1 && ask[0].PlaceAsk?)
    ensures Ledger(sent + bid + ask, true)
  {
    assert sent + [] == sent && sent + bid + [] == sent + bid;
    if bid != [] {
      assert bid == [bid[0]];
      QuoteKeepsLedger(sent, bid[0]);
    }
    if ask != [] {
      assert ask == [ask[0]];
      QuoteKeepsLedger(sent + bid, ask[0]);
    }
  }

  /** The commands of a batch come in the order of their kinds, at one price a side. */
  lemma QuotesInOrder(active: bool, full: bool, empty: bool, fairValue: int, halfSpread: int, skew: int, qty: nat)
    ensures var cs := Quotes(active, full, empty, fairValue, halfSpread, skew, qty);
            && (forall i, j :: 0 <= i < j < |cs| ==> Kind(cs[i]) < Kind(cs[j]))
            && (forall c :: c in cs ==> (c.PlaceBid? ==> c.price == fairValue - halfSpread - skew)
                                        && (c.PlaceAsk? ==> c.price == fairValue + halfSpread - skew))
            && (active ==> cs != [] && cs[0].CancelAll?)
  {
  }

  /** A batch leaves at most one quote per side, provided nothing is live when it does not cancel. */
  lemma QuotesKeepLedger(sent: seq<Command>, active: bool, full: bool, empty: bool,
                         fairValue: int, halfSpread: int, skew: int, qty: nat)
    requires Ledger(sent, active)
    ensures Ledger(sent + Quotes(active, full, empty, fairValue, halfSpread, skew, qty), true)
  {
    var cancel := if active then [CancelAll] else [];
    var bid := if full then [] else [PlaceBid(fairValue - halfSpread - skew, qty)];
    var ask := if empty then [] else [PlaceAsk(fairValue + halfSpread - skew, qty)];
    if active { CancelKeepsLedger(sent, true); } else { SilenceKeepsLedger(sent, false); }
    PairKeepsLedger(sent + cancel, bid, ask);
    assert sent + cancel + bid + ask == sent + (cancel + bid + ask);
  }

  lemma CancelKeepsLedger(sent: seq<Command>, active: bool)
    requires Ledger(sent, active)
    ensures Ledger(sent + [CancelAll], false) && NoneLive(sent + [CancelAll])
  {
    LiveAppend(sent, CancelAll, true);
    LiveAppend(sent, CancelAll, false);
    OneEachAppend(sent, CancelAll);
  }

  lemma SilenceKeepsLedger(sent: seq<Command>, active: bool)
    requires Ledger(sent, active)
    ensures Ledger(sent + [], active)
  {
    assert sent + [] == sent;
  }

  // ---- The engine as a value ----

  /** The microprice is zero when a side is empty; what it is otherwise is left open. */
  function FairValue(price: (seq<Level>, seq<Level>) -> int, f: FlatSides): int {
    if f.bids == [] || f.asks == [] then 0 else price(f.bids, f.asks)
  }

  datatype HotConfig = HotConfig(params: Params, maxInventory: int, gamma: int, vpinEnabled: bool)

  /** All fair values and trades so far, whether quotes are active, and the position. */
  datatype Hot = Hot(values: seq<int>, trades: seq<Trade>, active: bool, position: int)

  function HalfSpreadNow(hc: HotConfig, h: Hot): int {
    HalfSpread(hc.params, Multiplier(hc.vpinEnabled, VpinOf(h.trades)))
  }

  function BatchNow(hc: HotConfig, h: Hot, fairValue: int): seq<Command> {
    var halfSpread := HalfSpreadNow(hc, h);
    Quotes(h.active, h.position >= hc.maxInventory, h.position <= -hc.maxInventory, fairValue, halfSpread,
           SkewCpp(hc.gamma, h.position, hc.maxInventory, halfSpread), hc.params.orderQty)
  }

  /** What a batch consists of. */
  ghost predicate BatchReads(cs: seq<Command>, active: bool, position: int, maxInventory: int, fairValue: int, halfSpread: int,
                             skew: int, qty: nat) {
    && (CancelAll in cs <==> active)
    && (forall p, q :: PlaceBid(p, q) in cs <==> position < maxInventory && p == fairValue - halfSpread - skew && q == qty)
    && (forall p, q :: PlaceAsk(p, q) in cs <==> position > -maxInventory && p == fairValue + halfSpread - skew && q == qty)
  }

  /** Cancel-all exactly if quotes are active, a bid exactly below the maximum and an ask exactly above the minimum, one
      half-spread below and above the fair value, both lowered by the skew. */
  lemma BatchIs(hc: HotConfig, h: Hot, fairValue: int)
    ensures var hs := HalfSpreadNow(hc, h);
            BatchReads(BatchNow(hc, h, fairValue), h.active, h.position, hc.maxInventory, fairValue, hs,
                       SkewCpp(hc.gamma, h.position, hc.maxInventory, hs), hc.params.orderQty)
  {
    var hs := HalfSpreadNow(hc, h);
    QuotesRead(h.active, h.position, hc.maxInventory, fairValue, hs, SkewCpp(hc.gamma, h.position, hc.maxInventory, hs),
               hc.params.orderQty);
  }

  lemma QuotesRead(active: bool, position: int, maxInventory: int, fairValue: int, halfSpread: int, skew: int, qty: nat)
    ensures BatchReads(Quotes(active, position >= maxInventory, position <= -maxInventory, fairValue, halfSpread, skew, qty),
                       active, position, maxInventory, fairValue, halfSpread, skew, qty)
  {
  }

  /** No quote of a batch is above that of the same side in the other. */
  ghost predicate NoHigher(cs: seq<Command>, ds: seq<Command>) {
    && (forall p, q, x, y :: PlaceBid(p, q) in cs && PlaceBid(x, y) in ds ==> p <= x)
    && (forall p, q, x, y :: PlaceAsk(p, q) in cs && PlaceAsk(x, y) in ds ==> p <= x)
  }

  /** Quotes lean against the inventory: with a risk aversion that is not negative no quote rises when the position does. So
      a long position leaves bid and ask no higher than an empty one, and a short one no lower. */
  lemma QuotesLean(hc: HotConfig, h: Hot, position: int, fairValue: int)
    requires hc.gamma >= 0 && hc.maxInventory >= 0 && h.position <= position
    ensures NoHigher(BatchNow(hc, h.(position := position), fairValue), BatchNow(hc, h, fairValue))
  {
    BatchIs(hc, h, fairValue);
    BatchIs(hc, h.(position := position), fairValue);
    SpreadIsPositive(hc, h);
    SkewRises(hc.gamma, h.position, position, hc.maxInventory, HalfSpreadNow(hc, h));
  }

  /** At the maximum, a position moves both prices by gamma times the half-spread. */
  lemma FullSkew(gamma: nat, maxInventory: nat, halfSpread: nat)
    requires maxInventory > 0
    ensures SkewCpp(gamma, maxInventory, maxInventory, halfSpread) == gamma * halfSpread / 10000
  {
    var q := QuotientFits(gamma * halfSpread, 10000);
    assert gamma * halfSpread >= 0;
    var n, d := gamma * maxInventory * halfSpread, 10000 * maxInventory;
    assert n == (gamma * halfSpread) * maxInventory;
    MulLe(q * 10000, gamma * halfSpread, maxInventory);
    MulLe(gamma * halfSpread + 1, (q + 1) * 10000, maxInventory);
    assert (q * 10000) * maxInventory == q * d && ((q + 1) * 10000) * maxInventory == (q + 1) * d;
    QuotientIs(n, d, q, n - q * d);
  }

  predicate DueNow(hc: HotConfig, h: Hot, fairValue: int) {
    Due(hc.params, Batches(hc.params, h.values), |h.values| + 1, fairValue)
  }

  /** The answer to a book update with this fair value. */
  function OnTick(hc: HotConfig, h: Hot, fairValue: int): (Hot, seq<Command>) {
    if DueNow(hc, h, fairValue)
    then (h.(values := h.values + [fairValue], active := true), BatchNow(hc, h, fairValue))
    else (h.(values := h.values + [fairValue]), [])
  }

  /** The answer to a trade. */
  function OnPrint(hc: HotConfig, h: Hot, t: Trade): (Hot, seq<Command>) {
    var h' := h.(trades := h.trades + [t]);
    if Toxic(hc.vpinEnabled, VpinOf(h'.trades)) && h.active then (h'.(active := false), [CancelAll]) else (h', [])
  }

  function AfterFill(hc: HotConfig, h: Hot, signedQty: int): Hot {
    h.(position := Clamped(hc.maxInventory, h.position + signedQty))
  }

  /** A batch has a half-spread of once to twice the configured one and prices on both sides of the fair value. */
  ghost predicate SoundBatch(p: Params, cs: seq<Command>, fairValue: int, halfSpread: int, gamma: int) {
    && Max(1, p.halfSpread) <= halfSpread <= 2 * Max(1, p.halfSpread)
    && |cs| <= 3 && SpreadApart(cs, halfSpread)
    && (Abs(gamma) <= 10000 ==> Straddles(cs, fairValue, halfSpread))
  }

  lemma BatchIsSound(hc: HotConfig, h: Hot, fairValue: int)
    requires Abs(h.position) <= Abs(hc.maxInventory)
    ensures SoundBatch(hc.params, BatchNow(hc, h, fairValue), fairValue, HalfSpreadNow(hc, h), hc.gamma)
  {
    var hs := HalfSpreadNow(hc, h);
    VpinRange(Volume(Window(h.trades, VPIN_WINDOW), Buy), Volume(Window(h.trades, VPIN_WINDOW), Sell));
    MultiplierRange(hc.vpinEnabled, VpinOf(h.trades));
    HalfSpreadRange(hc.params, Multiplier(hc.vpinEnabled, VpinOf(h.trades)));
    QuotesStraddle(h.active, h.position >= hc.maxInventory, h.position <= -hc.maxInventory, fairValue, hs,
                   SkewCpp(hc.gamma, h.position, hc.maxInventory, hs), hc.params.orderQty);
    if Abs(hc.gamma) <= 10000 {
      SkewWithinSpread(hc.gamma, h.position, hc.maxInventory, hs);
    }
  }

  lemma SpreadIsPositive(hc: HotConfig, h: Hot)
    ensures HalfSpreadNow(hc, h) > 0
  {
    VpinRange(Volume(Window(h.trades, VPIN_WINDOW), Buy), Volume(Window(h.trades, VPIN_WINDOW), Sell));
    MultiplierRange(hc.vpinEnabled, VpinOf(h.trades));
    HalfSpreadRange(hc.params, Multiplier(hc.vpinEnabled, VpinOf(h.trades)));
  }

  lemma TickKeepsLedger(hc: HotConfig, h: Hot, fairValue: int, sent: seq<Command>)
    requires Ledger(sent, h.active)
    ensures var (h', cs) := OnTick(hc, h, fairValue); Ledger(sent + cs, h'.active)
  {
    if DueNow(hc, h, fairValue) {
      var hs := HalfSpreadNow(hc, h);
      QuotesKeepLedger(sent, h.active, h.position >= hc.maxInventory, h.position <= -hc.maxInventory, fairValue, hs,
                       SkewCpp(hc.gamma, h.position, hc.maxInventory, hs), hc.params.orderQty);
    } else {
      SilenceKeepsLedger(sent, h.active);
    }
  }

  lemma PrintKeepsLedger(hc: HotConfig, h: Hot, t: Trade, sent: seq<Command>)
    requires Ledger(sent, h.active)
    ensures var (h', cs) := OnPrint(hc, h, t); Ledger(sent + cs, h'.active)
    ensures Toxic(hc.vpinEnabled, VpinOf(h.trades + [t])) ==> NoneLive(sent + OnPrint(hc, h, t).1)
  {
    if h.active {
      CancelKeepsLedger(sent, h.active);
    }
    SilenceKeepsLedger(sent, h.active);
    assert sent + [] == sent;
  }

  // ---- Whole runs ----

  datatype Input = Tick(fairValue: int) | Print(trade: Trade) | Fill(signedQty: int)

  function Answer(hc: HotConfig, h: Hot, i: Input): (Hot, seq<Command>) {
    match i
    case Tick(v) => OnTick(hc, h, v)
    case Print(t) => OnPrint(hc, h, t)
    case Fill(q) => (AfterFill(hc, h, q), [])
  }

  /** The state and everything sent after a sequence of inputs. */
  function AnswerAll(hc: HotConfig, inputs: seq<Input>): (Hot, seq<Command>) {
    if inputs == [] then (Hot([], [], false, 0), [])
    else
      var (h, sent) := AnswerAll(hc, inputs[..|inputs| - 1]);
      var (h', cs) := Answer(hc, h, inputs[|inputs| - 1]);
      (h', sent + cs)
  }

  /** In every run of book updates, trades and fills: the position stays within the limits, at no point of the stream is
      more than one quote live on a side, and at most three commands are sent per input. */
  lemma {:induction false} RunsQuoteOnce(hc: HotConfig, inputs: seq<Input>)
    ensures var (h, sent) := AnswerAll(hc, inputs);
            && Abs(h.position) <= Abs(hc.maxInventory) && Ledger(sent, h.active)
            && |sent| <= 3 * |inputs|
  {
    if inputs != [] {
      var front, last := inputs[..|inputs| - 1], inputs[|inputs| - 1];
      var (h, sent) := AnswerAll(hc, front);
      RunsQuoteOnce(hc, front);
      match last
      case Tick(v) => TickKeepsLedger(hc, h, v, sent);
      case Print(t) => PrintKeepsLedger(hc, h, t, sent);
      case Fill(q) => SilenceKeepsLedger(sent, h.active);
    }
  }
}
