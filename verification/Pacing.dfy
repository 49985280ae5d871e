/** When the hot path quotes: the batches a stream of fair values leads to, one fair value per book
    update and 0 where no fair value could be computed (cpp/src/engine.cpp). */
module Pacing {
  import opened Types

  datatype Params = Params(orderQty: nat, halfSpread: int, warmupTicks: int, cooldownTicks: int, requoteThreshold: int)

  /** A quote batch: the number of the book update that led to it and its fair value. */
  datatype Batch = Batch(tick: nat, fairValue: int)

  predicate Requotes(p: Params, last: Batch, tick: nat, fairValue: int) {
    && tick >= p.warmupTicks
    && tick - last.tick >= p.cooldownTicks
    && Abs(fairValue - last.fairValue) >= p.requoteThreshold
  }

  predicate Due(p: Params, batches: seq<Batch>, tick: nat, fairValue: int) {
    fairValue != 0 && (batches == [] || Requotes(p, batches[|batches| - 1], tick, fairValue))
  }

  function Batches(p: Params, values: seq<int>): seq<Batch> {
    if values == [] then []
    else
      var before := Batches(p, values[..|values| - 1]);
      var value := values[|values| - 1];
      if Due(p, before, |values|, value) then before + [Batch(|values|, value)] else before
  }

  lemma BatchesAppend(p: Params, values: seq<int>, value: int)
    ensures Batches(p, values + [value])
            == Batches(p, values) + if Due(p, Batches(p, values), |values| + 1, value) then [Batch(|values| + 1, value)] else []
  {
    assert (values + [value])[..|values|] == values;
  }

  /** Every batch was caused by the book update it names. */
  lemma {:induction false} BatchesNameUpdates(p: Params, values: seq<int>)
    ensures forall b :: b in Batches(p, values) ==> 0 < b.tick <= |values| && b.fairValue == values[b.tick - 1] != 0
    ensures values != [] && values[|values| - 1] != 0 ==> Batches(p, values) != []
  {
    if values != [] {
      BatchesNameUpdates(p, values[..|values| - 1]);
    }
  }

  /** Batches after the first keep the warmup, the cooldown and the minimum move. */
  ghost predicate Paced(p: Params, bs: seq<Batch>) {
    forall i :: 1 <= i < |bs| ==> Follows(p, bs, i)
  }

  predicate Follows(p: Params, bs: seq<Batch>, i: int)
    requires 1 <= i < |bs|
  {
    && bs[i].tick >= p.warmupTicks && bs[i].tick >= bs[i - 1].tick + p.cooldownTicks
    && (bs[i].fairValue - bs[i - 1].fairValue >= p.requoteThreshold || bs[i - 1].fairValue - bs[i].fairValue >= p.requoteThreshold)
  }

  lemma {:induction false} BatchesArePaced(p: Params, values: seq<int>)
    ensures Paced(p, Batches(p, values))
  {
    if values != [] {
      var before, bs := Batches(p, values[..|values| - 1]), Batches(p, values);
      BatchesArePaced(p, values[..|values| - 1]);
      forall i | 1 <= i < |bs| ensures Follows(p, bs, i) {
        if i < |before| {
          assert Follows(p, before, i);
        }
      }
    }
  }

  /** No chance to quote is missed: an update with a fair value that names no batch comes before
      warmup, within the cooldown or with too small a move. */
  lemma {:induction false} NoQuoteMissed(p: Params, values: seq<int>, n: nat)
    requires 0 < n <= |values| && values[n - 1] != 0
    ensures var before := Batches(p, values[..n - 1]);
            Batch(n, values[n - 1]) in Batches(p, values)
            || (before != []
                && (var last := before[|before| - 1];
                    || n < p.warmupTicks || n < last.tick + p.cooldownTicks
                    || -p.requoteThreshold < values[n - 1] - last.fairValue < p.requoteThreshold))
  {
    if n == |values| {
      assert values[..|values| - 1] == values[..n - 1];
    } else {
      var front := values[..|values| - 1];
      assert front[..n - 1] == values[..n - 1];
      NoQuoteMissed(p, front, n);
    }
  }

  lemma {:induction false} SpacedOut(p: Params, bs: seq<Batch>)
    requires bs != []
    requires Paced(p, bs)
    ensures (|bs| - 1) * p.cooldownTicks <= bs[|bs| - 1].tick - bs[0].tick
  {
    if |bs| > 1 {
      var front := bs[..|bs| - 1];
      forall i | 1 <= i < |front| ensures Follows(p, front, i) {
        assert Follows(p, bs, i);
      }
      SpacedOut(p, front);
      assert Follows(p, bs, |bs| - 1);
      assert (|bs| - 2) * p.cooldownTicks + p.cooldownTicks == (|bs| - 1) * p.cooldownTicks;
    }
  }

  /** n book updates lead to at most 1 + (n - 1) / cooldown batches. */
  lemma BatchesBounded(p: Params, values: seq<int>)
    requires p.cooldownTicks >= 1 && |values| >= 1
    ensures |Batches(p, values)| <= 1 + (|values| - 1) / p.cooldownTicks
  {
    var bs := Batches(p, values);
    if bs != [] {
      BatchesArePaced(p, values);
      BatchesNameUpdates(p, values);
      SpacedOut(p, bs);
      assert bs[0] in bs && bs[|bs| - 1] in bs;
      QuotientAtLeast(|values| - 1, p.cooldownTicks, |bs| - 1);
    }
  }

  lemma QuotientAtLeast(n: nat, c: nat, m: nat)
    requires c >= 1 && m * c <= n
    ensures m <= n / c
  {
    if m >= n / c + 1 {
      MulLe(n / c + 1, m, c);
      assert false;
    }
  }

  /** As many batches as the bound allows, the last of them as early as the cooldown allows. */
  predicate Densest(p: Params, bs: seq<Batch>, n: nat)
    requires p.cooldownTicks >= 1
  {
    && bs != [] && n >= 1
    && |bs| == 1 + (n - 1) / p.cooldownTicks
    && bs[|bs| - 1].tick == 1 + (|bs| - 1) * p.cooldownTicks
  }

  /** The bound is met: a fair value that rises at every update is quoted as often as it allows. */
  lemma {:induction false} BoundIsMet(p: Params, values: seq<int>)
    requires p.cooldownTicks >= 1 && p.warmupTicks <= 1 && p.requoteThreshold <= 1 && values != []
    requires forall i :: 0 <= i < |values| ==> values[i] > 0
    requires forall i, j :: 0 <= i < j < |values| ==> values[i] < values[j]
    ensures Densest(p, Batches(p, values), |values|)
  {
    var front := values[..|values| - 1];
    if front != [] {
      var before := Batches(p, front);
      BoundIsMet(p, front);
      BatchesNameUpdates(p, front);
      var last := before[|before| - 1];
      assert last in before;
      DensestStep(p, before, |front|, Batch(|values|, values[|values| - 1]));
    }
  }

  lemma DensestStep(p: Params, before: seq<Batch>, n: nat, next: Batch)
    requires p.cooldownTicks >= 1 && Densest(p, before, n) && next.tick == n + 1
    ensures Densest(p, if next.tick - before[|before| - 1].tick >= p.cooldownTicks then before + [next] else before, n + 1)
  {
    var c, q := p.cooldownTicks, (n - 1) / p.cooldownTicks;
    QuotientStep(n - 1, c);
    assert (|before| - 1) * c == q * c;
    if next.tick - before[|before| - 1].tick >= c {
      assert n - 1 == q * c + (n - 1) % c && (q + 1) * c == q * c + c;
    }
  }

  lemma QuotientStep(n: nat, c: nat)
    requires c >= 1
    ensures (n + 1) / c == n / c + if n + 1 - (n / c) * c >= c then 1 else 0
  {
    var q, r := n / c, n % c;
    assert n == q * c + r;
    if r + 1 >= c {
      assert n + 1 == (q + 1) * c;
      QuotientIs(n + 1, c, q + 1, 0);
    } else {
      QuotientIs(n + 1, c, q, r + 1);
    }
  }

  ghost predicate ValueBefore(values: seq<int>, tick: int) {
    exists i :: 0 <= i < |values| && i + 1 < tick && values[i] != 0
  }

  /** The header promises warmup ticks before the first quote, but the first fair value is quoted at
      once. The promise holds exactly if no fair value comes before the warmup is over. */
  lemma WarmupExactly(p: Params, values: seq<int>)
    ensures (forall b :: b in Batches(p, values) ==> b.tick >= p.warmupTicks) <==> !ValueBefore(values, p.warmupTicks)
  {
    BatchesNameUpdates(p, values);
    if i :| 0 <= i < |values| && i + 1 < p.warmupTicks && values[i] != 0 {
      EarlyValueQuoted(p, values, i);
    }
  }

  /** Any fair value leads to a batch no later than itself. */
  lemma {:induction false} EarlyValueQuoted(p: Params, values: seq<int>, i: nat)
    requires i < |values| && values[i] != 0
    ensures Batches(p, values) != [] && Batches(p, values)[0].tick <= i + 1
  {
    BatchesNameUpdates(p, values[..|values| - 1]);
    if i < |values| - 1 {
      EarlyValueQuoted(p, values[..|values| - 1], i);
    } else {
      var before := Batches(p, values[..|values| - 1]);
      assert before != [] ==> before[0] in before;
    }
  }

  lemma WarmupIgnored()
    ensures Batches(Params(1, 1, 100, 10, 1), [5]) == [Batch(1, 5)]
  {
    assert [5][..0] == [];
  }
}
