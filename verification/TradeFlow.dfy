/** What both toxicity trackers are meant to compute, as functions of all trades so far:
    windowed volumes, VPIN and the volatility average (cpp/src/signal.cpp and
    crates/atomic-strategy/src/toxicity.rs). */
module TradeFlow {
  import opened Types

  datatype Trade = Trade(side: Side, qty: nat, price: int)

  const VPIN_WINDOW: nat := 200
  const VOL_ALPHA: nat := 500
  const TOXIC_THRESHOLD: int := 8000

  /** The last n trades. */
  function Window(history: seq<Trade>, n: nat): seq<Trade> {
    if |history| <= n then history else history[|history| - n..]
  }

  function Volume(trades: seq<Trade>, side: Side): nat {
    if trades == [] then 0 else (if trades[0].side == side then trades[0].qty else 0) + Volume(trades[1..], side)
  }

  lemma {:induction false} VolumeAppend(trades: seq<Trade>, t: Trade, side: Side)
    ensures Volume(trades + [t], side) == Volume(trades, side) + if t.side == side then t.qty else 0
  {
    if trades == [] {
      assert trades + [t] == [t] && [t][1..] == [];
    } else {
      assert (trades + [t])[0] == trades[0] && (trades + [t])[1..] == trades[1..] + [t];
      VolumeAppend(trades[1..], t, side);
    }
  }

  /** A full window slides: the newest trade comes in, the oldest goes out. */
  lemma WindowSlides(history: seq<Trade>, t: Trade, n: nat)
    requires n > 0
    ensures |history| < n ==> Window(history + [t], n) == Window(history, n) + [t]
    ensures |history| >= n ==> Window(history, n) != [] && Window(history, n)[0] == history[|history| - n]
                               && Window(history + [t], n) == Window(history, n)[1..] + [t]
  {
  }

  lemma VolumeSlides(history: seq<Trade>, t: Trade, n: nat, side: Side)
    requires n > 0
    ensures var gone := if |history| >= n && history[|history| - n].side == side then history[|history| - n].qty else 0;
            && gone <= Volume(Window(history, n), side)
            && Volume(Window(history + [t], n), side)
               == Volume(Window(history, n), side) - gone + if t.side == side then t.qty else 0
  {
    WindowSlides(history, t, n);
    if |history| < n {
      VolumeAppend(Window(history, n), t, side);
    } else {
      VolumeAppend(Window(history, n)[1..], t, side);
    }
  }

  /** Imbalance of bought and sold volume, scaled by 10,000. */
  function Vpin(bought: nat, sold: nat): int {
    if bought + sold == 0 then 0 else TruncDiv(Abs(bought - sold) * 10000, bought + sold)
  }

  lemma VpinRange(bought: nat, sold: nat)
    ensures 0 <= Vpin(bought, sold) <= 10000
    ensures bought == sold ==> Vpin(bought, sold) == 0
    ensures bought > 0 && sold == 0 ==> Vpin(bought, sold) == 10000
  {
    if bought + sold > 0 {
      var total := bought + sold;
      TruncDivBetween(Abs(bought - sold) * 10000, total, 0, 10000);
      if bought == sold { TruncDivBetween(0, total, 0, 0); }
      if sold == 0 { TruncDivBetween(total * 10000, total, 10000, 10000); }
    }
  }

  /** VPIN is ten thousand times the share of the imbalance in the volume, rounded down. */
  lemma VpinIs(bought: nat, sold: nat)
    requires bought + sold > 0
    ensures Vpin(bought, sold) * (bought + sold) <= 10000 * Abs(bought - sold) < (Vpin(bought, sold) + 1) * (bought + sold)
  {
    VpinRange(bought, sold);
    TruncDivIs(Abs(bought - sold) * 10000, bought + sold);
  }

  /** VPIN of the last 200 trades. */
  function VpinOf(history: seq<Trade>): int {
    Vpin(Volume(Window(history, VPIN_WINDOW), Buy), Volume(Window(history, VPIN_WINDOW), Sell))
  }

  predicate Toxic(enabled: bool, vpin: int) { enabled && vpin > TOXIC_THRESHOLD }

  /** Flow is toxic when more than eight tenths of the volume is imbalance, counted in steps of a ten-thousandth. */
  lemma ToxicExactly(enabled: bool, bought: nat, sold: nat)
    ensures Toxic(enabled, Vpin(bought, sold))
            <==> enabled && bought + sold > 0 && 10000 * Abs(bought - sold) >= 8001 * (bought + sold)
  {
    if bought + sold > 0 {
      VpinIs(bought, sold);
      var v, total := Vpin(bought, sold), bought + sold;
      if v > 8000 { MulLe(8001, v, total); } else { MulLe(v + 1, 8001, total); }
    }
  }

  /** The C++ spread multiplier: once up to the threshold, twice at a VPIN of 10,000. */
  function Multiplier(enabled: bool, vpin: int): int {
    if Toxic(enabled, vpin) then 10000 + TruncDiv((vpin - TOXIC_THRESHOLD) * 10000, 10000 - TOXIC_THRESHOLD) else 10000
  }

  /** From the threshold on the multiplier rises by five for every point of VPIN, up to twice; below it is once, and so it
      is when the tracker is switched off. */
  lemma MultiplierIs(enabled: bool, vpin: int)
    requires 0 <= vpin <= 10000
    ensures Multiplier(enabled, vpin) == if enabled && vpin > 8000 then 10000 + 5 * (vpin - 8000) else 10000
  {
    if Toxic(enabled, vpin) {
      TruncDivBetween((vpin - TOXIC_THRESHOLD) * 10000, 10000 - TOXIC_THRESHOLD, 5 * (vpin - 8000), 5 * (vpin - 8000));
    }
  }

  lemma MultiplierRange(enabled: bool, vpin: int)
    requires 0 <= vpin <= 10000
    ensures 10000 <= Multiplier(enabled, vpin) <= 20000
    ensures Multiplier(enabled, vpin) > 10000 ==> Toxic(enabled, vpin)
    ensures enabled && vpin == 10000 ==> Multiplier(enabled, vpin) == 20000
  {
    if Toxic(enabled, vpin) {
      TruncDivBetween((vpin - TOXIC_THRESHOLD) * 10000, 10000 - TOXIC_THRESHOLD, 0, 10000);
      if vpin == 10000 {
        TruncDivBetween((vpin - TOXIC_THRESHOLD) * 10000, 10000 - TOXIC_THRESHOLD, 10000, 10000);
      }
    }
  }

  function LastPrice(history: seq<Trade>): int {
    if history == [] then 0 else history[|history| - 1].price
  }

  /** One step of the moving average of absolute price changes. */
  function EmaStep(alpha: int, delta: nat, ema: int): int {
    TruncDiv(alpha * delta + (10000 - alpha) * ema, 10000)
  }

  /** The average moves by the given share of the way, rounded towards zero. */
  lemma EmaStepIs(alpha: int, delta: nat, ema: int)
    ensures IsQuotient(EmaStep(alpha, delta, ema), 10000 * ema + alpha * (delta - ema), 10000)
  {
    assert alpha * (delta - ema) == alpha * delta - alpha * ema && (10000 - alpha) * ema == 10000 * ema - alpha * ema;
    TruncDivIs(alpha * delta + (10000 - alpha) * ema, 10000);
  }

  /** The C++ tracker updates once a last price is known, that is, is not zero. */
  function EmaCpp(history: seq<Trade>): int {
    if history == [] then 0
    else
      var front := history[..|history| - 1];
      var t := history[|history| - 1];
      if LastPrice(front) != 0 then EmaStep(VOL_ALPHA, Abs(t.price - LastPrice(front)), EmaCpp(front)) else EmaCpp(front)
  }

  /** The Rust tracker updates once the last price is positive. */
  function EmaRust(history: seq<Trade>, alpha: int): int {
    if history == [] then 0
    else
      var front := history[..|history| - 1];
      var t := history[|history| - 1];
      if LastPrice(front) > 0 then EmaStep(alpha, Abs(t.price - LastPrice(front)), EmaRust(front, alpha)) else EmaRust(front, alpha)
  }

  lemma EmaAppends(history: seq<Trade>, t: Trade)
    ensures LastPrice(history + [t]) == t.price
    ensures EmaCpp(history + [t])
            == if LastPrice(history) != 0 then EmaStep(VOL_ALPHA, Abs(t.price - LastPrice(history)), EmaCpp(history))
               else EmaCpp(history)
  {
    assert (history + [t])[..|history|] == history;
  }

  lemma EmaRustAppends(history: seq<Trade>, t: Trade, alpha: int)
    ensures LastPrice(history + [t]) == t.price
    ensures EmaRust(history + [t], alpha)
            == if LastPrice(history) > 0 then EmaStep(alpha, Abs(t.price - LastPrice(history)), EmaRust(history, alpha))
               else EmaRust(history, alpha)
  {
    assert (history + [t])[..|history|] == history;
  }

  lemma {:induction false} EmasAgree(history: seq<Trade>)
    requires forall i :: 0 <= i < |history| ==> history[i].price > 0
    ensures EmaCpp(history) == EmaRust(history, VOL_ALPHA)
  {
    if history != [] {
      EmasAgree(history[..|history| - 1]);
    }
  }

  lemma {:induction false} EmaNonNegative(history: seq<Trade>, alpha: int)
    requires 0 <= alpha <= 10000
    ensures EmaRust(history, alpha) >= 0
  {
    if history != [] {
      var front := history[..|history| - 1];
      EmaNonNegative(front, alpha);
      StepNonNegative(alpha, Abs(history[|history| - 1].price - LastPrice(front)), EmaRust(front, alpha));
    }
  }

  lemma StepNonNegative(alpha: int, delta: nat, ema: int)
    requires 0 <= alpha <= 10000 && ema >= 0
    ensures EmaStep(alpha, delta, ema) >= 0
  {
    assert alpha * delta >= 0 && (10000 - alpha) * ema >= 0;
  }

  /** The Rust spread multiplier: once, plus the VPIN, plus a share of the volatility. */
  function MultiplierRust(vpin: int, ema: int): int { Min(10000 + vpin + Min(ema * 50, 10000), 30000) }

  /** It is once, plus the VPIN, plus fifty times the volatility up to once more. */
  lemma MultiplierRustIs(vpin: nat, ema: int)
    requires vpin <= 10000
    ensures MultiplierRust(vpin, ema) == if 50 * ema <= 10000 then 10000 + vpin + 50 * ema else 20000 + vpin
  {
  }

  function MultiplierAfter(history: seq<Trade>, n: nat, alpha: int): int {
    MultiplierRust(Vpin(Volume(Window(history, n), Buy), Volume(Window(history, n), Sell)), EmaRust(history, alpha))
  }

  ghost predicate AlwaysInRange(n: nat, alpha: int) {
    forall history :: 10000 <= MultiplierAfter(history, n, alpha) <= 30000
  }

  /** The multiplier is in its documented range after every history of trades exactly if the averaging weight is from 0 to 1;
      the tracker takes any weight. */
  lemma RangeExactly(n: nat, alpha: int)
    ensures AlwaysInRange(n, alpha) <==> 0 <= alpha <= 10000
  {
    if 0 <= alpha <= 10000 {
      forall history ensures 10000 <= MultiplierAfter(history, n, alpha) <= 30000 {
        VpinRange(Volume(Window(history, n), Buy), Volume(Window(history, n), Sell));
        EmaNonNegative(history, alpha);
      }
    } else {
      var history := OutOfRange(n, alpha);
    }
  }

  /** Empty trades at three prices whose averaged change is negative. */
  lemma OutOfRange(n: nat, alpha: int) returns (history: seq<Trade>)
    requires alpha < 0 || alpha > 10000
    ensures MultiplierAfter(history, n, alpha) < 10000
  {
    var a, b := Trade(Buy, 0, 1), Trade(Buy, 0, 100000001);
    var ema := FirstStep(alpha, a, b);
    history := if alpha < 0 then [a, b] else [a, b, b];
    if alpha > 10000 {
      SecondStep(alpha, a, b, ema);
    }
    EmptyVolume(Window(history, n), Buy);
    EmptyVolume(Window(history, n), Sell);
  }

  lemma FirstStep(alpha: int, a: Trade, b: Trade) returns (ema: int)
    requires a.price == 1 && b.price == 100000001
    ensures ema == alpha * 10000 && EmaRust([a, b], alpha) == ema
  {
    ema := alpha * 10000;
    EmaRustAppends([], a, alpha);
    EmaRustAppends([a], b, alpha);
    assert [] + [a] == [a] && [a] + [b] == [a, b];
    assert alpha * 100000000 == ema * 10000;
    TruncDivBetween(alpha * 100000000, 10000, ema, ema);
  }

  lemma SecondStep(alpha: int, a: Trade, b: Trade, ema: int)
    requires alpha > 10000 && b.price > 0 && ema == alpha * 10000 && EmaRust([a, b], alpha) == ema
    ensures EmaRust([a, b, b], alpha) < 0
  {
    EmaRustAppends([a, b], b, alpha);
    assert [a, b] + [b] == [a, b, b] && LastPrice([a, b]) == b.price;
    var share := (10000 - alpha) * alpha;
    assert (10000 - alpha) * ema == share * 10000;
    TruncDivBetween(share * 10000, 10000, share, share);
    Negative(10000 - alpha, alpha);
  }

  lemma Negative(x: int, y: int)
    requires x < 0 < y
    ensures x * y < 0
  {
  }

  lemma {:induction false} EmptyVolume(trades: seq<Trade>, side: Side)
    requires forall i :: 0 <= i < |trades| ==> trades[i].qty == 0
    ensures Volume(trades, side) == 0
  {
    if trades != [] {
      EmptyVolume(trades[..|trades| - 1], side);
      EmptyVolume(trades[1..], side);
    }
  }
}
