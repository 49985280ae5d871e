/** The two inventory managers and their quote skews: signed inventory clamped on both sides in
    C++ (cpp/src/signal.cpp) and spot inventory in Rust (crates/atomic-strategy/src/inventory.rs). */
module Inventory {
  import opened Types

  /** The C++ skew divides once. */
  function SkewCpp(gamma: int, position: int, maxInventory: int, halfSpread: int): int {
    if maxInventory == 0 then 0 else TruncDiv(gamma * position * halfSpread, 10000 * maxInventory)
  }

  /** The Rust inventory ratio, before gamma and half-spread. */
  function Ratio(position: int, maxInventory: int): int
    requires maxInventory != 0
  {
    TruncDiv(position * 10000, maxInventory)
  }

  /** The Rust skew rounds after each of its three divisions. */
  function SkewRust(gamma: int, position: int, maxInventory: int, halfSpread: int): int {
    if maxInventory == 0 then 0
    else
      var ratio := Ratio(position, maxInventory);
      TruncDiv(TruncDiv(ratio * gamma, 10000) * halfSpread, 10000)
  }

  /** A division of unsigned numbers, as quotient and remainder. */
  lemma Parts(a: nat, b: nat) returns (q: nat, r: nat)
    requires b > 0
    ensures a == q * b + r && r < b && TruncDiv(a, b) == q
  {
    q, r := a / b, a % b;
  }

  lemma SignMul(a: int, b: nat)
    ensures (a >= 0 ==> a * b >= 0) && (a <= 0 ==> a * b <= 0)
  {
  }

  lemma Distribute(a: int, b: int, c: int)
    ensures (a + b) * c == a * c + b * c && c * (a + b) == c * a + c * b
  {
  }

  lemma Regroup(a: int, b: int, c: int, d: int)
    ensures (a * b) * (c * d) == b * (d * (a * c))
  {
  }

  lemma FirstDivision(g: nat, p: nat, max: nat, h: nat, ratio: nat, r1: nat)
    requires p * 10000 == ratio * max + r1
    ensures 10000 * (g * p * h) == max * (h * (ratio * g)) + r1 * (g * h)
  {
    calc {
      10000 * (g * p * h);
      (p * 10000) * (g * h);
      (ratio * max + r1) * (g * h);
      { Distribute(ratio * max, r1, g * h); }
      (ratio * max) * (g * h) + r1 * (g * h);
      { Regroup(ratio, max, g, h); }
      max * (h * (ratio * g)) + r1 * (g * h);
    }
  }

  lemma LaterDivisions(max: nat, h: nat, product: nat, scaled: nat, rust: nat, r2: nat, r3: nat)
    requires product == scaled * 10000 + r2
    requires scaled * h == rust * 10000 + r3
    ensures max * (h * product) == 100000000 * (max * rust) + 10000 * (max * r3) + max * (h * r2)
  {
    var low := h * r2;
    calc {
      h * product;
      { Distribute(scaled * 10000, r2, h); }
      h * (scaled * 10000) + low;
      10000 * (scaled * h) + low;
      100000000 * rust + 10000 * r3 + low;
    }
    Distribute(100000000 * rust, 10000 * r3 + low, max);
    Distribute(10000 * r3, low, max);
  }

  /** What the four divisions leave over, put over the common denominator 100,000,000 * max. */
  lemma RoundingErrors(g: nat, p: nat, max: nat, h: nat, ratio: nat, product: nat, scaled: nat, rust: nat,
                       top: nat, cpp: nat, r1: nat, r2: nat, r3: nat, r4: nat)
    requires top == g * p * h && product == ratio * g
    requires p * 10000 == ratio * max + r1
    requires product == scaled * 10000 + r2
    requires scaled * h == rust * 10000 + r3
    requires top == cpp * (10000 * max) + r4
    ensures 100000000 * (max * (cpp - rust)) == 10000 * (max * r3) + max * (h * r2) + r1 * (g * h) - 10000 * r4
  {
    FirstDivision(g, p, max, h, ratio, r1);
    LaterDivisions(max, h, product, scaled, rust, r2, r3);
    Collect(max, cpp, rust, top, max * (h * product), r1 * (g * h), 10000 * (max * r3) + max * (h * r2), r4);
  }

  lemma Collect(max: int, cpp: int, rust: int, top: int, later: int, low: int, lower: int, r4: int)
    requires 10000 * top == later + low
    requires later == 100000000 * (max * rust) + lower
    requires top == cpp * (10000 * max) + r4
    ensures 100000000 * (max * (cpp - rust)) == lower + low - 10000 * r4
  {
    assert cpp * (10000 * max) == 10000 * (max * cpp);
    assert max * (cpp - rust) == max * cpp - max * rust;
  }

  /** The numbers the two computations go through. */
  lemma Quotients(gamma: nat, position: nat, max: nat, halfSpread: nat)
    returns (ratio: nat, product: nat, scaled: nat, rust: nat, top: nat, cpp: nat, r1: nat, r2: nat, r3: nat, r4: nat)
    requires max > 0
    ensures top == gamma * position * halfSpread && product == ratio * gamma
    ensures position * 10000 == ratio * max + r1 && r1 < max
    ensures product == scaled * 10000 + r2 && r2 < 10000
    ensures scaled * halfSpread == rust * 10000 + r3 && r3 < 10000
    ensures top == cpp * (10000 * max) + r4 && r4 < 10000 * max
    ensures cpp == SkewCpp(gamma, position, max, halfSpread)
    ensures rust == SkewRust(gamma, position, max, halfSpread)
  {
    SignMul(gamma, position);
    SignMul(gamma * position, halfSpread);
    top := gamma * position * halfSpread;
    ratio, r1 := Parts(position * 10000, max);
    SignMul(ratio, gamma);
    product := ratio * gamma;
    scaled, r2 := Parts(product, 10000);
    SignMul(scaled, halfSpread);
    rust, r3 := Parts(scaled * halfSpread, 10000);
    cpp, r4 := Parts(top, 10000 * max);
  }

  lemma SkewGap(gamma: nat, position: nat, max: nat, halfSpread: nat) returns (rust: nat, cpp: nat)
    requires max > 0
    ensures cpp == SkewCpp(gamma, position, max, halfSpread)
    ensures rust == SkewRust(gamma, position, max, halfSpread)
    ensures Close(gamma, halfSpread, rust, cpp)
  {
    var ratio, product, scaled, top, r1, r2, r3, r4;
    ratio, product, scaled, rust, top, cpp, r1, r2, r3, r4 := Quotients(gamma, position, max, halfSpread);
    RoundingErrors(gamma, position, max, halfSpread, ratio, product, scaled, rust, top, cpp, r1, r2, r3, r4);
    ErrorRange(gamma, max, halfSpread, cpp, rust, r1, r2, r3, r4);
  }

  ghost predicate Close(gamma: nat, halfSpread: nat, rust: int, cpp: int) {
    0 <= rust <= cpp && (cpp == rust || (cpp - rust - 1) * 100000000 < (gamma + 10000) * halfSpread)
  }

  /** The C++ skew is never below the Rust skew, and above it, if at all, by less than
      1 + (gamma + 10,000) * halfSpread / 100,000,000. */
  lemma SkewsClose(gamma: nat, position: nat, maxInventory: nat, halfSpread: nat)
    requires maxInventory > 0
    ensures Close(gamma, halfSpread, SkewRust(gamma, position, maxInventory, halfSpread),
                  SkewCpp(gamma, position, maxInventory, halfSpread))
  {
    var rust, cpp := SkewGap(gamma, position, maxInventory, halfSpread);
  }

  lemma ErrorRange(g: nat, max: nat, h: nat, cpp: nat, rust: nat, r1: nat, r2: nat, r3: nat, r4: nat)
    requires max > 0 && r1 < max && r2 < 10000 && r3 < 10000 && r4 < 10000 * max
    requires 100000000 * (max * (cpp - rust)) == 10000 * (max * r3) + max * (h * r2) + r1 * (g * h) - 10000 * r4
    ensures Close(g, h, rust, cpp)
  {
    SignMul(h, r2);
    SignMul(g, h);
    MulLe(0, r3, max);
    MulLe(0, h * r2, max);
    MulLe(0, r1, g * h);
    MulLe(r3, 9999, max);
    MulLe(r2, 10000, h);
    MulLe(h * r2, 10000 * h, max);
    MulLe(r1, max, g * h);
    GapRange(max, cpp - rust, (g + 10000) * h, max * r3, max * (h * r2), r1 * (g * h), r4) by {
      Distribute(10000 * h, g * h, max);
      Distribute(g, 10000, h);
    }
  }

  lemma GapRange(max: nat, gap: int, error: nat, e3: nat, e2: nat, e1: nat, r4: nat)
    requires max > 0 && e3 <= 9999 * max && e2 + e1 <= max * error && r4 < 10000 * max
    requires 100000000 * (max * gap) == 10000 * e3 + e2 + e1 - 10000 * r4
    ensures gap == 0 || (gap > 0 && (gap - 1) * 100000000 < error)
  {
    if gap <= -1 {
      MulLe(gap, -1, max);
      assert false;
    }
    if gap > 0 && (gap - 1) * 100000000 >= error {
      MulLe(error, (gap - 1) * 100000000, max);
      Distribute(gap, -1, max);
      assert false;
    }
  }

  /** With at most full inventory, a risk aversion of at most one and a half-spread of at most
      5,000 pipettes the two skews are at most one pipette apart. */
  lemma SkewsAgree(gamma: nat, position: nat, maxInventory: nat, halfSpread: nat)
    requires gamma <= 10000 && position <= maxInventory && 0 < halfSpread <= 5000
    ensures var rust := SkewRust(gamma, position, maxInventory, halfSpread);
            rust <= SkewCpp(gamma, position, maxInventory, halfSpread) <= rust + 1
  {
    if maxInventory > 0 {
      SkewsClose(gamma, position, maxInventory, halfSpread);
      MulLe(gamma + 10000, 20000, halfSpread);
    }
  }

  /** The pipette of difference does occur. */
  lemma SkewsDiffer()
    ensures SkewCpp(10000, 1, 3, 3) == SkewRust(10000, 1, 3, 3) + 1
  {
    assert TruncDiv(1 * 10000, 3) == 3333;
    assert TruncDiv(3333 * 10000, 10000) == 3333;
    assert TruncDiv(3333 * 3, 10000) == 0;
  }

  /** A clamped position and a risk aversion of at most one keep the skew within the half-spread. */
  lemma SkewWithinSpread(gamma: int, position: int, maxInventory: int, halfSpread: nat)
    requires Abs(gamma) <= 10000 && Abs(position) <= Abs(maxInventory)
    ensures Abs(SkewCpp(gamma, position, maxInventory, halfSpread)) <= halfSpread
  {
    if maxInventory != 0 {
      var top, bottom := gamma * position * halfSpread, 10000 * maxInventory;
      AbsProduct(gamma, position, 10000, Abs(maxInventory));
      MulLe(Abs(gamma * position), 10000 * Abs(maxInventory), halfSpread);
      assert Abs(top) <= Abs(bottom) * halfSpread by {
        AbsTimes(gamma * position, halfSpread);
      }
      QuotientBetween(Abs(top), Abs(bottom), Abs(top) / Abs(bottom), Abs(top) % Abs(bottom), 0, halfSpread);
    }
  }

  lemma AbsTimes(a: int, b: nat)
    ensures Abs(a * b) == Abs(a) * b
  {
    if a < 0 {
      assert a * b == -((-a) * b) && (-a) * b >= 0;
    } else {
      assert a * b >= 0;
    }
  }

  lemma AbsProduct(a: int, b: int, boundA: nat, boundB: nat)
    requires Abs(a) <= boundA && Abs(b) <= boundB
    ensures Abs(a * b) <= boundA * boundB
  {
    if b < 0 {
      assert a * b == -(a * (-b));
      AbsTimes(a, -b);
    } else {
      AbsTimes(a, b);
    }
    assert Abs(a * b) == Abs(a) * Abs(b);
    MulLe(Abs(a), boundA, Abs(b));
    MulLe(Abs(b), boundB, boundA);
  }

  /** The skew leans against the position: a long one lowers both quotes, a short one raises them. */
  lemma SkewLeansAgainst(gamma: nat, position: int, maxInventory: nat, halfSpread: nat)
    ensures var skew := SkewCpp(gamma, position, maxInventory, halfSpread);
            (position >= 0 ==> skew >= 0) && (position <= 0 ==> skew <= 0)
  {
    if maxInventory > 0 {
      SignMul(position, gamma);
      SignMul(gamma * position, halfSpread);
      TruncDivSign(gamma * position * halfSpread, 10000 * maxInventory);
    }
  }

  /** The skew is gamma times position times half-spread over ten thousand times the maximum, rounded towards zero; it is
      zero if nothing may be held. */
  lemma SkewIs(gamma: int, position: int, maxInventory: int, halfSpread: int)
    ensures var skew := SkewCpp(gamma, position, maxInventory, halfSpread);
            if maxInventory == 0 then skew == 0
            else IsQuotient(skew, gamma * position * halfSpread, 10000 * maxInventory)
  {
    if maxInventory != 0 {
      TruncDivIs(gamma * position * halfSpread, 10000 * maxInventory);
    }
  }

  /** A larger position has no smaller skew. */
  lemma SkewRises(gamma: nat, p: int, q: int, maxInventory: nat, halfSpread: nat)
    requires p <= q
    ensures SkewCpp(gamma, p, maxInventory, halfSpread) <= SkewCpp(gamma, q, maxInventory, halfSpread)
  {
    if maxInventory > 0 {
      MulLe(p, q, gamma);
      MulLe(p * gamma, q * gamma, halfSpread);
      TruncDivMonotone(gamma * p * halfSpread, gamma * q * halfSpread, 10000 * maxInventory);
    }
  }

  lemma TruncDivSign(a: int, b: nat)
    requires b > 0
    ensures (a >= 0 ==> TruncDiv(a, b) >= 0) && (a <= 0 ==> TruncDiv(a, b) <= 0)
  {
    var q, r := Parts(Abs(a), b);
  }

  /** It is in its documented range of -10,000 to 10,000 exactly if a spot position is at most the maximum, up to rounding;
      nothing keeps it there. */
  lemma RatioInRangeExactly(position: nat, maxInventory: int)
    requires maxInventory != 0
    ensures -10000 <= Ratio(position, maxInventory) <= 10000 <==> 10000 * position < 10001 * Abs(maxInventory)
  {
    var q, r := Parts(position * 10000, Abs(maxInventory));
    if q <= 10000 {
      MulLe(q, 10000, Abs(maxInventory));
    } else {
      MulLe(10001, q, Abs(maxInventory));
    }
  }

  /** A purchase of 20 with a maximum of 10, after which the ratio is twice the documented bound. */
  method RatioExceeded() returns (ratio: int)
    ensures ratio == 20000
  {
    var m := new InventoryManager(10, 5000);
    m.OnFill(Buy, 20);
    assert TruncDiv(200000, 10) == 20000;
    ratio := Ratio(m.positionQty, m.maxInventory);
  }

  /** A position, kept within the limits on either side. */
  function Clamped(limit: int, position: int): int {
    Max(-limit, Min(limit, position))
  }

  /** Inventory remembers the order of fills: a fill of a and one of b (bought positive, sold negative) lead to
      the same position in either order exactly if they are on the same side, or one is empty, or nothing may
      be held, or neither of them would be clamped on its own. */
  lemma FillsCommuteExactly(limit: int, position: int, a: int, b: int)
    requires -limit <= position <= limit
    ensures Clamped(limit, Clamped(limit, position + a) + b) == Clamped(limit, Clamped(limit, position + b) + a)
            <==> || limit == 0 || (a >= 0 && b >= 0) || (a <= 0 && b <= 0)
                 || (Abs(position + a) <= limit && Abs(position + b) <= limit)
  {
  }

  /** The position after a list of fills. */
  function Walked(limit: int, position: int, fills: seq<int>): int
    decreases |fills|
  {
    if fills == [] then position else Walked(limit, Clamped(limit, position + fills[0]), fills[1..])
  }

  function Bought(fills: seq<int>): nat {
    if fills == [] then 0 else Max(0, fills[0]) + Bought(fills[1..])
  }

  function Sold(fills: seq<int>): nat {
    if fills == [] then 0 else Max(0, -fills[0]) + Sold(fills[1..])
  }

  function Purchases(fills: seq<int>): seq<int> {
    if fills == [] then [] else if fills[0] >= 0 then [fills[0]] + Purchases(fills[1..]) else Purchases(fills[1..])
  }

  function Sales(fills: seq<int>): seq<int> {
    if fills == [] then [] else if fills[0] >= 0 then Sales(fills[1..]) else [fills[0]] + Sales(fills[1..])
  }

  lemma OneMoreFill(f: int, fills: seq<int>)
    ensures Bought([f] + fills) == Max(0, f) + Bought(fills) && Sold([f] + fills) == Max(0, -f) + Sold(fills)
  {
    assert ([f] + fills)[1..] == fills;
  }

  lemma {:induction false} SortedApart(fills: seq<int>)
    ensures Bought(Purchases(fills)) == Bought(fills) && Sold(Purchases(fills)) == 0
    ensures Bought(Sales(fills)) == 0 && Sold(Sales(fills)) == Sold(fills)
  {
    if fills != [] {
      SortedApart(fills[1..]);
      OneMoreFill(fills[0], Purchases(fills[1..]));
      OneMoreFill(fills[0], Sales(fills[1..]));
    }
  }

  lemma {:induction false} NothingMissing(fills: seq<int>)
    ensures multiset(Purchases(fills)) + multiset(Sales(fills)) == multiset(fills)
  {
    if fills != [] {
      NothingMissing(fills[1..]);
      assert multiset(fills) == multiset{fills[0]} + multiset(fills[1..]) by { assert fills == [fills[0]] + fills[1..]; }
    }
  }

  lemma {:induction false} TakenOut(fills: seq<int>, k: nat)
    requires k < |fills|
    ensures var rest := fills[..k] + fills[k + 1..];
            Bought(fills) == Max(0, fills[k]) + Bought(rest) && Sold(fills) == Max(0, -fills[k]) + Sold(rest)
  {
    var rest := fills[..k] + fills[k + 1..];
    if k > 0 {
      TakenOut(fills[1..], k - 1);
      assert rest[1..] == fills[1..][..k - 1] + fills[1..][k..];
    } else {
      assert rest == fills[1..];
    }
  }

  lemma WithoutBoth(s: multiset<int>, r: multiset<int>, e: int)
    requires multiset{e} + s == multiset{e} + r
    ensures s == r
  {
    assert s == (multiset{e} + s) - multiset{e};
    assert r == (multiset{e} + r) - multiset{e};
  }

  lemma Without(b: seq<int>, k: nat)
    requires k < |b|
    ensures multiset(b) == multiset{b[k]} + multiset(b[..k] + b[k + 1..])
  {
    assert b == b[..k] + [b[k]] + b[k + 1..];
  }

  lemma FirstTakenOut(a: seq<int>, b: seq<int>) returns (k: nat)
    requires multiset(a) == multiset(b) && a != []
    ensures k < |b| && b[k] == a[0] && multiset(a[1..]) == multiset(b[..k] + b[k + 1..])
  {
    assert a[0] in multiset(b);
    k :| 0 <= k < |b| && b[k] == a[0];
    Without(a, 0);
    Without(b, k);
    assert a[..0] + a[1..] == a[1..];
    WithoutBoth(multiset(a[1..]), multiset(b[..k] + b[k + 1..]), a[0]);
  }

  lemma {:induction false} SameTotals(a: seq<int>, b: seq<int>)
    requires multiset(a) == multiset(b)
    ensures Bought(a) == Bought(b) && Sold(a) == Sold(b) && |a| == |b|
    decreases |a|
  {
    if a == [] {
      assert |multiset(b)| == 0;
    } else {
      var k := FirstTakenOut(a, b);
      TakenOut(b, k);
      SameTotals(a[1..], b[..k] + b[k + 1..]);
    }
  }

  lemma {:induction false} WalkedConcat(limit: int, position: int, a: seq<int>, b: seq<int>)
    ensures Walked(limit, position, a + b) == Walked(limit, Walked(limit, position, a), b)
    decreases |a|
  {
    if a == [] {
      assert a + b == b;
    } else {
      assert (a + b)[0] == a[0] && (a + b)[1..] == a[1..] + b;
      WalkedConcat(limit, Clamped(limit, position + a[0]), a[1..], b);
    }
  }

  /** With room for all purchases and for all sales nothing is clamped. */
  lemma {:induction false} RoomForAll(limit: int, position: int, fills: seq<int>)
    requires position + Bought(fills) <= limit && position - Sold(fills) >= -limit
    ensures Walked(limit, position, fills) == position + Bought(fills) - Sold(fills)
    decreases |fills|
  {
    if fills != [] {
      RoomForAll(limit, position + fills[0], fills[1..]);
    }
  }

  /** Fills on one side are clamped once and for all. */
  lemma {:induction false} OneSided(limit: int, position: int, fills: seq<int>)
    requires -limit <= position <= limit && (Bought(fills) == 0 || Sold(fills) == 0)
    ensures Walked(limit, position, fills) == Clamped(limit, position + Bought(fills) - Sold(fills))
    decreases |fills|
  {
    if fills != [] {
      OneSided(limit, Clamped(limit, position + fills[0]), fills[1..]);
    }
  }

  /** Without any room the position is where it is put. */
  lemma {:induction false} NoRoom(limit: int, position: int, fills: seq<int>)
    requires limit <= 0 && fills != []
    ensures Walked(limit, position, fills) == -limit
    decreases |fills|
  {
    if |fills| > 1 {
      NoRoom(limit, Clamped(limit, position + fills[0]), fills[1..]);
    }
  }

  ghost predicate AnyOrder(limit: int, position: int, fills: seq<int>) {
    forall other: seq<int> :: multiset(other) == multiset(fills) ==> Walked(limit, position, other) == Walked(limit, position, fills)
  }

  /** Nothing may be held, or the fills are on one side, or there is room for all purchases and for all sales. */
  predicate Indifferent(limit: int, position: int, bought: nat, sold: nat) {
    limit <= 0 || bought == 0 || sold == 0 || (position + bought <= limit && position - sold >= -limit)
  }

  /** Any number of fills lead to the same position in all their orders exactly then. */
  lemma OrdersAgreeExactly(limit: int, position: int, fills: seq<int>)
    requires Abs(position) <= Abs(limit)
    ensures AnyOrder(limit, position, fills) <==> Indifferent(limit, position, Bought(fills), Sold(fills))
  {
    if Indifferent(limit, position, Bought(fills), Sold(fills)) {
      forall other: seq<int> | multiset(other) == multiset(fills)
        ensures Walked(limit, position, other) == Walked(limit, position, fills)
      {
        SameTotals(other, fills);
        SameEnd(limit, position, other, fills);
      }
    } else {
      TwoOrdersDiffer(limit, position, fills);
      NothingMissing(fills);
      assert multiset(Purchases(fills) + Sales(fills)) == multiset(fills) == multiset(Sales(fills) + Purchases(fills));
    }
  }

  lemma SameEnd(limit: int, position: int, a: seq<int>, b: seq<int>)
    requires Abs(position) <= Abs(limit) && |a| == |b| && Bought(a) == Bought(b) && Sold(a) == Sold(b)
    requires Indifferent(limit, position, Bought(a), Sold(a))
    ensures Walked(limit, position, a) == Walked(limit, position, b)
  {
    if a == [] {
    } else if limit <= 0 {
      NoRoom(limit, position, a);
      NoRoom(limit, position, b);
    } else if Bought(a) == 0 || Sold(a) == 0 {
      OneSided(limit, position, a);
      OneSided(limit, position, b);
    } else {
      RoomForAll(limit, position, a);
      RoomForAll(limit, position, b);
    }
  }

  lemma OneSideFirst(limit: int, position: int, a: seq<int>, b: seq<int>)
    requires -limit <= position <= limit && (Bought(a) == 0 || Sold(a) == 0) && (Bought(b) == 0 || Sold(b) == 0)
    ensures Walked(limit, position, a + b)
            == Clamped(limit, Clamped(limit, position + (Bought(a) - Sold(a))) + (Bought(b) - Sold(b)))
  {
    WalkedConcat(limit, position, a, b);
    OneSided(limit, position, a);
    OneSided(limit, Walked(limit, position, a), b);
  }

  /** All purchases first, or all sales first. */
  lemma TwoOrdersDiffer(limit: int, position: int, fills: seq<int>)
    requires Abs(position) <= Abs(limit) && !Indifferent(limit, position, Bought(fills), Sold(fills))
    ensures Walked(limit, position, Purchases(fills) + Sales(fills)) != Walked(limit, position, Sales(fills) + Purchases(fills))
  {
    SortedApart(fills);
    OneSideFirst(limit, position, Purchases(fills), Sales(fills));
    OneSideFirst(limit, position, Sales(fills), Purchases(fills));
    BuyingFirstEndsLower(limit, position, Bought(fills), Sold(fills));
  }

  /** Some fill brings the position to this bound. */
  predicate Reaches(limit: int, position: int, fills: seq<int>, bound: int)
    decreases |fills|
  {
    fills != [] && (var next := Clamped(limit, position + fills[0]); next == bound || Reaches(limit, next, fills[1..], bound))
  }

  /** The same fills bring two different positions together exactly if they take the lower one up to the upper limit, or the
      upper one down to the lower limit. */
  lemma {:induction false} PathsMeetExactly(limit: int, low: int, high: int, fills: seq<int>)
    requires -limit <= low <= high <= limit
    ensures Walked(limit, low, fills) == Walked(limit, high, fills)
            <==> low == high || Reaches(limit, low, fills, limit) || Reaches(limit, high, fills, -limit)
    decreases |fills|
  {
    if fills != [] {
      var f := fills[0];
      if low == high {
      } else if Clamped(limit, low + f) == limit || Clamped(limit, high + f) == -limit {
        assert Clamped(limit, low + f) == Clamped(limit, high + f);
      } else {
        PathsMeetExactly(limit, Clamped(limit, low + f), Clamped(limit, high + f), fills[1..]);
      }
    }
  }

  /** There is room for a purchase and a sale, or later fills take the lower of the two positions to the upper limit or the
      higher one to the lower limit. */
  predicate SwapSettled(limit: int, position: int, b: nat, s: nat, later: seq<int>) {
    || Indifferent(limit, position, b, s)
    || Reaches(limit, Clamped(limit, Clamped(limit, position + b) - s), later, limit)
    || Reaches(limit, Clamped(limit, Clamped(limit, position - s) + b), later, -limit)
  }

  /** A purchase and a sale, and the fills after them, lead to the same position in either order of the two exactly then. */
  lemma SwapAgreesExactly(limit: int, position: int, b: int, s: int, later: seq<int>, buyFirst: seq<int>, saleFirst: seq<int>)
    requires Abs(position) <= Abs(limit) && b > 0 && s > 0
    requires buyFirst == [b, -s] + later && saleFirst == [-s, b] + later
    ensures Walked(limit, position, buyFirst) == Walked(limit, position, saleFirst)
            <==> SwapSettled(limit, position, b, s, later)
  {
    TwoThen(limit, position, buyFirst, b, -s, later, Clamped(limit, Clamped(limit, position + b) - s));
    TwoThen(limit, position, saleFirst, -s, b, later, Clamped(limit, Clamped(limit, position - s) + b));
    SwapMeetsLater(limit, position, b, s, later);
  }

  lemma SwapMeetsLater(limit: int, position: int, b: int, s: int, later: seq<int>)
    requires Abs(position) <= Abs(limit) && b > 0 && s > 0
    ensures Walked(limit, Clamped(limit, Clamped(limit, position + b) - s), later)
            == Walked(limit, Clamped(limit, Clamped(limit, position - s) + b), later)
            <==> SwapSettled(limit, position, b, s, later)
  {
    var low, high := Clamped(limit, Clamped(limit, position + b) - s), Clamped(limit, Clamped(limit, position - s) + b);
    if limit > 0 {
      BuyingFirstEndsLower(limit, position, b, s);
      PathsMeetExactly(limit, low, high, later);
    } else {
      assert low == high;
    }
  }

  lemma BuyingFirstEndsLower(limit: int, position: int, b: int, s: int)
    requires -limit <= position <= limit && limit > 0 && b > 0 && s > 0
    ensures -limit <= Clamped(limit, Clamped(limit, position + b) - s) <= Clamped(limit, Clamped(limit, position - s) + b) <= limit
    ensures Clamped(limit, Clamped(limit, position + b) - s) == Clamped(limit, Clamped(limit, position - s) + b)
            <==> Indifferent(limit, position, b, s)
  {
    FillsCommuteExactly(limit, position, b, -s);
  }

  lemma TwoThen(limit: int, position: int, all: seq<int>, a: int, b: int, later: seq<int>, end: int)
    requires all == [a, b] + later && end == Clamped(limit, Clamped(limit, position + a) + b)
    ensures Walked(limit, position, all) == Walked(limit, end, later)
  {
    assert all[0] == a && all[1..][0] == b && all[1..][1..] == later;
  }

  class InventoryState {
    var positionQty: int
    const maxInventory: int
    const gamma: int

    constructor (maxInventory: int, gamma: int)
      ensures this.maxInventory == maxInventory && this.gamma == gamma && positionQty == 0
    {
      this.maxInventory, this.gamma, positionQty := maxInventory, gamma, 0;
    }

    ghost predicate Valid()
      reads this
    {
      Abs(positionQty) <= Abs(maxInventory)
    }

    /** A fill moves the position by its quantity, as far as the limits on either side allow. */
    method OnFill(side: int, qty: nat)
      requires Valid()
      modifies this`positionQty
      ensures Valid()
      ensures positionQty == Clamped(maxInventory, old(positionQty) + if side > 0 then qty else 0 - qty)
    {
      if side > 0 {
        positionQty := positionQty + qty;
      } else {
        positionQty := positionQty - qty;
      }
      if positionQty > maxInventory { positionQty := maxInventory; }
      if positionQty < -maxInventory { positionQty := -maxInventory; }
    }

    function ComputeSkew(halfSpread: int): (skew: int)
      requires Valid()
      reads this
      ensures skew == SkewCpp(gamma, positionQty, maxInventory, halfSpread)
      ensures Abs(gamma) <= 10000 && halfSpread >= 0 ==> -halfSpread <= skew <= halfSpread
    {
      assert Abs(gamma) <= 10000 && halfSpread >= 0 ==> Abs(SkewCpp(gamma, positionQty, maxInventory, halfSpread)) <= halfSpread by {
        if Abs(gamma) <= 10000 && halfSpread >= 0 {
          SkewWithinSpread(gamma, positionQty, maxInventory, halfSpread);
        }
      }
      if maxInventory == 0 then 0 else TruncDiv(gamma * positionQty * halfSpread, 10000 * maxInventory)
    }

    predicate AtMaxLong()
      reads this
    {
      positionQty >= maxInventory
    }

    predicate AtMaxShort()
      reads this
    {
      positionQty <= -maxInventory
    }
  }

  class InventoryManager {
    var positionQty: int
    const maxInventory: int
    const gamma: int

    constructor (maxInventory: int, gamma: int)
      ensures this.maxInventory == maxInventory && this.gamma == gamma && positionQty == 0
    {
      this.maxInventory, this.gamma, positionQty := maxInventory, gamma, 0;
    }

    /** A spot position is never short: a sale takes away at most what is held. */
    method OnFill(side: Side, qty: nat)
      requires positionQty >= 0
      modifies this`positionQty
      ensures positionQty == if side.Buy? then old(positionQty) + qty else SaturatingSub(old(positionQty), qty)
    {
      match side {
        case Buy => positionQty := positionQty + qty;
        case Sell => positionQty := positionQty - qty;
      }
      if positionQty < 0 { positionQty := 0; }
    }

    function ComputeSkew(halfSpread: int): (skew: int)
      reads this
      ensures skew == SkewRust(gamma, positionQty, maxInventory, halfSpread)
    {
      if maxInventory == 0 then 0
      else
        var invRatio := TruncDiv(positionQty * 10000, maxInventory);
        TruncDiv(TruncDiv(invRatio * gamma, 10000) * halfSpread, 10000)
    }
  }
}
