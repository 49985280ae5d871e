/** Bit masks on unsigned integers: the arithmetic behind power-of-two ring indices. */
module Bits {

  import opened Types

  function Pow2(k: nat): (p: nat)
    ensures p >= 1
  { if k == 0 then 1 else 2 * Pow2(k - 1) }

  /** The bitwise and of two unsigned integers. */
  function BitAnd(a: nat, b: nat): nat {
    if a == 0 || b == 0 then 0
    else (if a % 2 == 1 && b % 2 == 1 then 1 else 0) + 2 * BitAnd(a / 2, b / 2)
  }

  lemma {:induction false} MaskSplits(x: nat, k: nat) returns (q: nat)
    ensures BitAnd(x, Pow2(k) - 1) < Pow2(k)
    ensures x == q * Pow2(k) + BitAnd(x, Pow2(k) - 1)
    decreases k
  {
    if k == 0 {
      q := x;
    } else {
      q := MaskSplits(x / 2, k - 1);
      BitAndOdd(x, Pow2(k - 1) - 1);
      DoubleSplit(x, q, Pow2(k - 1), BitAnd(x / 2, Pow2(k - 1) - 1));
    }
  }

  lemma DoubleSplit(x: nat, q: nat, h: nat, r: nat)
    requires x / 2 == q * h + r && r < h
    ensures x == q * (2 * h) + (x % 2 + 2 * r) && x % 2 + 2 * r < 2 * h
  {
    var t := q * h;
    assert q * (2 * h) == 2 * t;
  }

  lemma BitAndOdd(x: nat, m: nat)
    ensures BitAnd(x, 2 * m + 1) == x % 2 + 2 * BitAnd(x / 2, m)
  {
    assert (2 * m + 1) / 2 == m && (2 * m + 1) % 2 == 1;
  }

  /** Masking with one less than a power of two is the remainder by that power. */
  lemma MaskIsMod(x: nat, k: nat)
    ensures BitAnd(x, Pow2(k) - 1) == x % Pow2(k)
  {
    var q := MaskSplits(x, k);
    ModUnique(x, Pow2(k), q, BitAnd(x, Pow2(k) - 1));
  }

  lemma SameLap(n: nat, p: int, r: nat, q: int, t: nat)
    requires p * n + r == q * n + t && r < n && t < n
    ensures p == q && r == t
  {
    assert (p + 1) * n == p * n + n && (q + 1) * n == q * n + n;
    if p < q {
      MulLe(p + 1, q, n);
    } else if q < p {
      MulLe(q + 1, p, n);
    }
  }

  lemma ModUnique(x: int, n: nat, q: int, r: nat)
    requires n > 0 && x == q * n + r && r < n
    ensures x % n == r && x / n == q
  {
    assert x == (x / n) * n + x % n;
    SameLap(n, x / n, x % n, q, r);
  }

  lemma ModNext(x: nat, n: nat)
    requires n > 0
    ensures (x % n + 1) % n == (x + 1) % n
  {
    var q, r := x / n, x % n;
    assert x == q * n + r;
    if r + 1 < n {
      ModUnique(x + 1, n, q, r + 1);
    } else {
      assert (q + 1) * n == q * n + n;
      ModUnique(x + 1, n, q + 1, 0);
      ModUnique(r + 1, n, 1, 0);
    }
  }

  /** Less than a lap apart, different positions fall on different slots. */
  lemma ModApart(x: nat, y: nat, n: nat)
    requires x < y < x + n
    ensures x % n != y % n
  {
    var p, q := x / n, y / n;
    assert x == p * n + x % n && y == q * n + y % n;
    if x % n == y % n {
      assert q * n - p * n == y - x;
      if q <= p {
        MulLe(q, p, n);
        assert false;
      } else {
        MulLe(p + 1, q, n);
        assert false;
      }
    }
  }

  /** The distance around the ring gives back the distance along the line. */
  lemma ModDistance(x: nat, y: nat, n: nat)
    requires x <= y < x + n
    ensures (y % n + n - x % n) % n == y - x
  {
    var q, r := x / n, x % n;
    var p, t := y / n, y % n;
    assert x == q * n + r && y == p * n + t;
    assert t + n - r == (q - p + 1) * n + (y - x);
    ModUnique(t + n - r, n, q - p + 1, y - x);
  }
}
