/** The two toxicity trackers: a circular buffer of 200 trades in C++ (cpp/src/signal.cpp)
    and a deque of configurable length in Rust (crates/atomic-strategy/src/toxicity.rs). */
module Toxicity {
  import opened Types
  import opened TradeFlow
  import Bits

  /** The circular buffer holds the last trades of the history, each at its number modulo the size. */
  ghost predicate Stored(sides: seq<int>, qtys: seq<nat>, head: nat, count: nat, history: seq<Trade>) {
    && |sides| == |qtys| == VPIN_WINDOW
    && head == |history| % VPIN_WINDOW
    && count == Min(|history|, VPIN_WINDOW)
    && forall k :: |history| - count <= k < |history| ==> Holds(sides, qtys, history, k)
  }

  predicate Holds(sides: seq<int>, qtys: seq<nat>, history: seq<Trade>, k: int)
    requires |sides| == |qtys| == VPIN_WINDOW && 0 <= k < |history|
  {
    && (sides[k % VPIN_WINDOW] > 0 <==> history[k].side.Buy?)
    && qtys[k % VPIN_WINDOW] == history[k].qty
  }

  /** Overwriting the oldest trade keeps the others. */
  lemma StoreKeeps(sides: seq<int>, qtys: seq<nat>, head: nat, count: nat, history: seq<Trade>, side: int, t: Trade)
    requires Stored(sides, qtys, head, count, history) && (side > 0 <==> t.side.Buy?)
    ensures head < VPIN_WINDOW
    ensures Stored(sides[head := side], qtys[head := t.qty], (head + 1) % VPIN_WINDOW,
                   if count < VPIN_WINDOW then count + 1 else count, history + [t])
  {
    var n := |history|;
    var sides', qtys', history' := sides[head := side], qtys[head := t.qty], history + [t];
    Bits.ModNext(n, VPIN_WINDOW);
    forall k | n + 1 - Min(n + 1, VPIN_WINDOW) <= k < n + 1 ensures Holds(sides', qtys', history', k) {
      if k < n {
        Bits.ModApart(k, n, VPIN_WINDOW);
        assert Holds(sides, qtys, history, k);
      }
    }
  }

  /** The running sums count the window. */
  ghost predicate Tally(buys: int, sells: int, total: int, history: seq<Trade>) {
    && buys == Volume(Window(history, VPIN_WINDOW), Buy)
    && sells == Volume(Window(history, VPIN_WINDOW), Sell)
    && total == buys + sells
  }

  /** What a trade takes out of the window on one side. */
  function Gone(history: seq<Trade>, side: Side): nat {
    if |history| >= VPIN_WINDOW && history[|history| - VPIN_WINDOW].side == side then history[|history| - VPIN_WINDOW].qty else 0
  }

  lemma TallySlides(buys: int, sells: int, total: int, history: seq<Trade>, t: Trade, buys': int, sells': int, total': int)
    requires Tally(buys, sells, total, history)
    requires buys' == buys - Gone(history, Buy) + if t.side.Buy? then t.qty else 0
    requires sells' == sells - Gone(history, Sell) + if t.side.Sell? then t.qty else 0
    requires total' == buys' + sells'
    ensures Tally(buys', sells', total', history + [t])
  {
    VolumeSlides(history, t, VPIN_WINDOW, Buy);
    VolumeSlides(history, t, VPIN_WINDOW, Sell);
  }

  class ToxicityState {
    const tradeSides: array<int>
    const tradeQtys: array<nat>
    var head: nat
    var count: nat
    var buyVolume: int
    var sellVolume: int
    var totalVolume: int
    var lastPrice: int
    var volEma: int
    var enabled: bool
    ghost var history: seq<Trade>

    ghost predicate BufferHolds()
      reads this, tradeSides, tradeQtys
    {
      Stored(tradeSides[..], tradeQtys[..], head, count, history)
    }

    ghost predicate Valid()
      reads this, tradeSides, tradeQtys
    {
      && BufferHolds()
      && Tally(buyVolume, sellVolume, totalVolume, history)
      && lastPrice == LastPrice(history)
      && volEma == EmaCpp(history)
    }

    /** What the readings need: the total is the sum of the two volumes. */
    ghost predicate Sums()
      reads this
    {
      buyVolume >= 0 && sellVolume >= 0 && totalVolume == buyVolume + sellVolume
    }

    constructor ()
      ensures Valid() && history == [] && !enabled
      ensures fresh(tradeSides) && fresh(tradeQtys)
    {
      tradeSides := new int[VPIN_WINDOW](_ => 0);
      tradeQtys := new nat[VPIN_WINDOW](_ => 0);
      head, count, buyVolume, sellVolume, totalVolume, lastPrice, volEma := 0, 0, 0, 0, 0, 0, 0;
      enabled, history := false, [];
    }

    /** The buffer overwrites the oldest trade once it is full. */
    method Store(side: int, qty: nat, ghost t: Trade)
      requires BufferHolds() && (side > 0 <==> t.side.Buy?) && qty == t.qty
      modifies this`head, this`count, this`history, tradeSides, tradeQtys
      ensures BufferHolds() && history == old(history) + [t]
    {
      StoreKeeps(tradeSides[..], tradeQtys[..], head, count, history, side, t);
      tradeSides[head] := side;
      tradeQtys[head] := qty;
      head := (head + 1) % VPIN_WINDOW;
      if count < VPIN_WINDOW {
        count := count + 1;
      }
      history := history + [t];
      assert tradeSides[..] == old(tradeSides[..])[old(head) := side];
      assert tradeQtys[..] == old(tradeQtys[..])[old(head) := qty];
    }

    /** Takes the trade that is about to be overwritten out of the running sums. */
    method Evict()
      requires BufferHolds() && totalVolume == buyVolume + sellVolume
      modifies this`buyVolume, this`sellVolume, this`totalVolume
      ensures buyVolume == old(buyVolume) - Gone(history, Buy)
      ensures sellVolume == old(sellVolume) - Gone(history, Sell)
      ensures totalVolume == buyVolume + sellVolume
    {
      if count >= VPIN_WINDOW {
        ghost var k := |history| - VPIN_WINDOW;
        assert k % VPIN_WINDOW == head;
        assert Holds(tradeSides[..], tradeQtys[..], history, k);
        if tradeSides[head] > 0 {
          buyVolume := buyVolume - tradeQtys[head];
        } else {
          sellVolume := sellVolume - tradeQtys[head];
        }
        totalVolume := totalVolume - tradeQtys[head];
      }
    }

    method AddVolume(side: int, qty: nat)
      modifies this`buyVolume, this`sellVolume, this`totalVolume
      ensures buyVolume == old(buyVolume) + (if side > 0 then qty else 0)
      ensures sellVolume == old(sellVolume) + (if side > 0 then 0 else qty)
      ensures totalVolume == old(totalVolume) + qty
    {
      if side > 0 {
        buyVolume := buyVolume + qty;
      } else {
        sellVolume := sellVolume + qty;
      }
      totalVolume := totalVolume + qty;
    }

    method UpdateVolatility(price: int)
      modifies this`lastPrice, this`volEma
      ensures lastPrice == price
      ensures volEma == if old(lastPrice) != 0 then EmaStep(VOL_ALPHA, Abs(price - old(lastPrice)), old(volEma)) else old(volEma)
    {
      if lastPrice != 0 {
        var delta := price - lastPrice;
        if delta < 0 { delta := -delta; }
        volEma := TruncDiv(VOL_ALPHA * delta + (10000 - VOL_ALPHA) * volEma, 10000);
      }
      lastPrice := price;
    }

    method OnTrade(side: int, qty: nat, price: int)
      requires Valid()
      modifies this, tradeSides, tradeQtys
      ensures Valid() && enabled == old(enabled)
      ensures history == old(history) + [Trade(if side > 0 then Buy else Sell, qty, price)]
    {
      ghost var t := Trade(if side > 0 then Buy else Sell, qty, price);
      EmaAppends(history, t);
      Evict();
      Store(side, qty, t);
      AddVolume(side, qty);
      UpdateVolatility(price);
      TallySlides(old(buyVolume), old(sellVolume), old(totalVolume), old(history), t, buyVolume, sellVolume, totalVolume);
    }

    function CurrentVpin(): (v: int)
      requires Sums()
      reads this
      ensures 0 <= v <= 10000 && v == Vpin(buyVolume, sellVolume)
    {
      VpinRange(buyVolume, sellVolume);
      if totalVolume == 0 then 0
      else
        var diff := buyVolume - sellVolume;
        var size := if diff < 0 then -diff else diff;
        TruncDiv(size * 10000, totalVolume)
    }

    predicate IsToxic()
      requires Sums()
      reads this
    {
      enabled && CurrentVpin() > TOXIC_THRESHOLD
    }

    function SpreadMultiplier(): (m: int)
      requires Sums()
      reads this
      ensures 10000 <= m <= 20000 && (m > 10000 ==> IsToxic())
      ensures m == Multiplier(enabled, CurrentVpin())
    {
      MultiplierRange(enabled, CurrentVpin());
      if !enabled then 10000
      else
        var v := CurrentVpin();
        if v > TOXIC_THRESHOLD
        then 10000 + TruncDiv((v - TOXIC_THRESHOLD) * 10000, 10000 - TOXIC_THRESHOLD)
        else 10000
    }
  }

  function Entries(trades: seq<Trade>): seq<(Side, nat)> {
    seq(|trades|, i requires 0 <= i < |trades| => (trades[i].side, trades[i].qty))
  }

  lemma WindowOfWindow(history: seq<Trade>, t: Trade, n: nat)
    ensures Window(Window(history, n) + [t], n) == Window(history + [t], n)
  {
  }

  class ToxicityTracker {
    var window: seq<(Side, nat)>
    const maxWindow: nat
    var buyVolume: nat
    var sellVolume: nat
    var volatilityEma: int
    var lastPrice: int
    const volAlpha: int
    const threshold: int
    ghost var history: seq<Trade>

    ghost predicate Valid()
      reads this
    {
      && window == Entries(Window(history, maxWindow))
      && buyVolume == Volume(Window(history, maxWindow), Buy)
      && sellVolume == Volume(Window(history, maxWindow), Sell)
      && lastPrice == LastPrice(history)
      && volatilityEma == EmaRust(history, volAlpha)
    }

    constructor (maxWindow: nat, volAlpha: int, threshold: int)
      ensures Valid() && history == []
      ensures this.maxWindow == maxWindow && this.volAlpha == volAlpha && this.threshold == threshold
    {
      this.maxWindow, this.volAlpha, this.threshold := maxWindow, volAlpha, threshold;
      window, buyVolume, sellVolume, volatilityEma, lastPrice, history := [], 0, 0, 0, 0, [];
    }

    /** The window, and nothing but the window, is what the sums count. */
    ghost predicate Counts(trades: seq<Trade>)
      reads this
    {
      window == Entries(trades) && buyVolume == Volume(trades, Buy) && sellVolume == Volume(trades, Sell)
    }

    method OnTrade(side: Side, qty: nat, price: int)
      requires Valid()
      modifies this
      ensures Valid() && history == old(history) + [Trade(side, qty, price)]
    {
      ghost var t := Trade(side, qty, price);
      ghost var counted := Window(history, maxWindow) + [t];
      EmaRustAppends(history, t, volAlpha);
      WindowOfWindow(history, t, maxWindow);
      AppendTrade(side, qty, t, Window(history, maxWindow));
      EvictOld(counted);
      UpdateVolatility(price);
      history := history + [t];
    }

    method AppendTrade(side: Side, qty: nat, ghost t: Trade, ghost trades: seq<Trade>)
      requires Counts(trades) && t.side == side && t.qty == qty
      modifies this`window, this`buyVolume, this`sellVolume
      ensures Counts(trades + [t])
    {
      VolumeAppend(trades, t, Buy);
      VolumeAppend(trades, t, Sell);
      match side {
        case Buy => buyVolume := buyVolume + qty;
        case Sell => sellVolume := sellVolume + qty;
      }
      window := window + [(side, qty)];
    }

    method UpdateVolatility(price: int)
      modifies this`lastPrice, this`volatilityEma
      ensures lastPrice == price
      ensures volatilityEma == if old(lastPrice) > 0 then EmaStep(volAlpha, Abs(price - old(lastPrice)), old(volatilityEma))
                               else old(volatilityEma)
    {
      if lastPrice > 0 {
        var delta := Abs(price - lastPrice);
        volatilityEma := TruncDiv(delta * volAlpha + volatilityEma * (10000 - volAlpha), 10000);
      }
      lastPrice := price;
    }

    /** The saturating subtractions never saturate: what is evicted had been counted. */
    method EvictOld(ghost counted: seq<Trade>)
      requires Counts(counted)
      modifies this`window, this`buyVolume, this`sellVolume
      ensures Counts(Window(counted, maxWindow))
    {
      ghost var trades := counted;
      while |window| > maxWindow
        invariant Counts(trades)
        invariant |trades| >= Min(|counted|, maxWindow) && trades == Window(counted, |trades|) && |trades| <= |counted|
      {
        var (oldSide, oldQty) := window[0];
        window := window[1..];
        match oldSide {
          case Buy => buyVolume := SaturatingSub(buyVolume, oldQty);
          case Sell => sellVolume := SaturatingSub(sellVolume, oldQty);
        }
        trades := trades[1..];
      }
    }

    function CurrentVpin(): (v: int)
      requires Valid()
      reads this
      ensures 0 <= v <= 10000
      ensures v == Vpin(Volume(Window(history, maxWindow), Buy), Volume(Window(history, maxWindow), Sell))
    {
      VpinRange(buyVolume, sellVolume);
      var total := buyVolume + sellVolume;
      if total == 0 then 0 else TruncDiv(Abs(buyVolume - sellVolume) * 10000, total)
    }

    predicate IsToxic()
      requires Valid()
      reads this
    {
      CurrentVpin() > threshold
    }

    function SpreadMultiplier(): (m: int)
      requires Valid()
      reads this
      ensures m <= 30000 && (0 <= volAlpha <= 10000 ==> 10000 + CurrentVpin() <= m)
      ensures m == MultiplierAfter(history, maxWindow, volAlpha)
    {
      assert 0 <= volAlpha <= 10000 ==> volatilityEma >= 0 by {
        if 0 <= volAlpha <= 10000 { EmaNonNegative(history, volAlpha); }
      }
      var vol := Min(volatilityEma * 50, 10000);
      Min(10000 + CurrentVpin() + vol, 30000)
    }
  }

  /** On the same stream of positively priced trades both trackers hold the same volumes, the
      same VPIN and the same volatility. */
  lemma TrackersAgree(c: ToxicityState, r: ToxicityTracker)
    requires c.Valid() && r.Valid() && c.history == r.history
    requires r.maxWindow == VPIN_WINDOW && r.volAlpha == VOL_ALPHA
    requires forall i :: 0 <= i < |c.history| ==> c.history[i].price > 0
    ensures c.buyVolume == r.buyVolume && c.sellVolume == r.sellVolume
    ensures c.CurrentVpin() == r.CurrentVpin()
    ensures c.volEma == r.volatilityEma
    ensures c.enabled && r.threshold == TOXIC_THRESHOLD ==> c.IsToxic() == r.IsToxic()
  {
    EmasAgree(c.history);
  }
}
