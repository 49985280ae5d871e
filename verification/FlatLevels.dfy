/** Sorted level arrays and the maps they stand for: what the flat book of
    cpp/src/orderbook.cpp keeps of the map book of crates/atomic-orderbook/src/book.rs. */
module FlatLevels {
  import opened Types
  import opened PriceLevels

  const HP_MAX_LEVELS: nat := 40

  /** Bids are stored in descending order, asks in ascending order. */
  predicate Ahead(descending: bool, p: int, q: int) {
    if descending then p > q else p < q
  }

  predicate Sorted(s: seq<Level>, descending: bool) {
    forall i, j :: 0 <= i < j < |s| ==> Ahead(descending, s[i].price, s[j].price)
  }

  /** Strictly sorted, free of empty levels. */
  predicate Proper(s: seq<Level>, descending: bool) {
    Sorted(s, descending) && forall i :: 0 <= i < |s| ==> s[i].qty > 0
  }

  /** The taker for whom the front of the array is the best price. */
  function Taker(descending: bool): Side { if descending then Sell else Buy }

  function AsMap(s: seq<Level>, descending: bool): Levels
    requires Proper(s, descending)
  {
    map i | 0 <= i < |s| :: s[i].price := s[i].qty
  }

  /** A map with exactly the levels of the array is the map of the array. */
  lemma IsAsMap(s: seq<Level>, descending: bool, m: Levels)
    requires Proper(s, descending)
    requires forall i :: 0 <= i < |s| ==> s[i].price in m && m[s[i].price] == s[i].qty
    requires forall p :: p in m ==> exists i :: 0 <= i < |s| && s[i].price == p
    ensures AsMap(s, descending) == m
  {
    var n := AsMap(s, descending);
    forall p ensures p in n <==> p in m {
      if p in n {
        var i :| 0 <= i < |s| && s[i].price == p;
        assert s[i].price in m;
      }
      if p in m {
        var i :| 0 <= i < |s| && s[i].price == p;
        assert s[i].price in n;
      }
    }
    forall p | p in n ensures n[p] == m[p] {
      var i :| 0 <= i < |s| && s[i].price == p;
      assert n[s[i].price] == s[i].qty == m[s[i].price];
    }
  }

  lemma {:induction false} MapSize(s: seq<Level>, descending: bool)
    requires Proper(s, descending)
    ensures |AsMap(s, descending)| == |s|
    decreases |s|
  {
    if s == [] {
      assert AsMap(s, descending) == map[];
    } else {
      MapSize(s[1..], descending);
      AddFront(s, descending);
    }
  }

  lemma AddFront(s: seq<Level>, descending: bool)
    requires Proper(s, descending) && s != []
    ensures s[0].price !in AsMap(s[1..], descending)
    ensures AsMap(s, descending) == AsMap(s[1..], descending)[s[0].price := s[0].qty]
  {
    var t := s[1..];
    var m := AsMap(t, descending)[s[0].price := s[0].qty];
    forall i | 0 <= i < |s| ensures s[i].price in m && m[s[i].price] == s[i].qty {
      if i > 0 { assert t[i - 1] == s[i]; }
    }
    forall p | p in m ensures exists i :: 0 <= i < |s| && s[i].price == p {
      if p != s[0].price {
        var i :| 0 <= i < |t| && t[i].price == p;
        assert s[i + 1].price == p;
      }
    }
    IsAsMap(s, descending, m);
  }

  lemma FrontIsBest(s: seq<Level>, descending: bool)
    requires Proper(s, descending) && s != []
    ensures AsMap(s, descending) != map[]
    ensures s[0].price == Best(Taker(descending), AsMap(s, descending).Keys)
  {
    var m := AsMap(s, descending);
    assert s[0].price in m;
    var b := Best(Taker(descending), m.Keys);
    var i :| 0 <= i < |s| && s[i].price == b;
    assert NoWorse(Taker(descending), b, s[0].price);
  }

  // ---- The three ways an update changes the array ----

  lemma RemoveAt(s: seq<Level>, descending: bool, pos: nat)
    requires Proper(s, descending) && pos < |s|
    ensures Proper(s[..pos] + s[pos + 1..], descending)
    ensures AsMap(s[..pos] + s[pos + 1..], descending) == AsMap(s, descending) - {s[pos].price}
  {
    var r := s[..pos] + s[pos + 1..];
    RemovedIsProper(s, r, descending, pos);
    RemovedMap(s, r, descending, pos);
  }

  lemma RemovedMap(s: seq<Level>, r: seq<Level>, descending: bool, pos: nat)
    requires Proper(s, descending) && Proper(r, descending) && pos < |s| && |r| == |s| - 1
    requires forall i :: 0 <= i < pos ==> s[i] == r[i]
    requires forall i :: pos < i < |s| ==> s[i] == r[i - 1]
    requires forall i :: 0 <= i < |s| && i != pos ==> s[i].price != s[pos].price
    requires forall i :: 0 <= i < |r| ==> r[i].price != s[pos].price
    ensures AsMap(r, descending) == AsMap(s, descending) - {s[pos].price}
  {
    InsertedMap(r, s, descending, pos, s[pos]);
    NotMember(r, descending, s[pos].price);
    TakeBack(AsMap(r, descending), AsMap(s, descending), s[pos].price, s[pos].qty);
  }

  lemma TakeBack(m: Levels, n: Levels, p: int, q: Positive)
    requires p !in m && n == m[p := q]
    ensures m == n - {p}
  {
  }

  lemma NotMember(s: seq<Level>, descending: bool, p: int)
    requires Proper(s, descending) && forall i :: 0 <= i < |s| ==> s[i].price != p
    ensures p !in AsMap(s, descending)
  {
  }

  lemma Member(s: seq<Level>, descending: bool, k: nat)
    requires Proper(s, descending) && k < |s|
    ensures s[k].price in AsMap(s, descending) && AsMap(s, descending)[s[k].price] == s[k].qty
  {
  }

  lemma IndexOf(s: seq<Level>, descending: bool, p: int) returns (i: nat)
    requires Proper(s, descending) && p in AsMap(s, descending)
    ensures i < |s| && s[i].price == p
  {
    i :| 0 <= i < |s| && s[i].price == p;
  }

  lemma RemovedIsProper(s: seq<Level>, r: seq<Level>, descending: bool, pos: nat)
    requires Proper(s, descending) && pos < |s| && |r| == |s| - 1
    requires forall i :: 0 <= i < pos ==> r[i] == s[i]
    requires forall i :: pos <= i < |r| ==> r[i] == s[i + 1]
    ensures Proper(r, descending)
    ensures forall i :: 0 <= i < |r| ==> r[i].price != s[pos].price
  {
    forall i, j | 0 <= i < j < |r| ensures Ahead(descending, r[i].price, r[j].price) {
      assert r[i] == s[if i < pos then i else i + 1];
      assert r[j] == s[if j < pos then j else j + 1];
    }
    forall i | 0 <= i < |r| ensures r[i].price != s[pos].price && r[i].qty > 0 {
      assert r[i] == s[if i < pos then i else i + 1];
    }
  }

  lemma ReplaceAt(s: seq<Level>, descending: bool, pos: nat, qty: nat)
    requires Proper(s, descending) && pos < |s| && qty > 0
    ensures Proper(s[pos := Level(s[pos].price, qty)], descending)
    ensures AsMap(s[pos := Level(s[pos].price, qty)], descending) == AsMap(s, descending)[s[pos].price := qty]
  {
    var r := s[pos := Level(s[pos].price, qty)];
    forall i | 0 <= i < |r| ensures r[i].price == s[i].price && r[i].qty > 0 {}
    ReplacedMap(s, r, descending, pos, qty);
  }

  lemma ReplacedMap(s: seq<Level>, r: seq<Level>, descending: bool, pos: nat, qty: nat)
    requires Proper(s, descending) && Proper(r, descending) && pos < |s| == |r| && qty > 0
    requires r[pos] == Level(s[pos].price, qty)
    requires forall i :: 0 <= i < |s| && i != pos ==> r[i] == s[i]
    ensures AsMap(r, descending) == AsMap(s, descending)[s[pos].price := qty]
  {
    var m := AsMap(s, descending)[s[pos].price := qty];
    forall p | p in m ensures exists i :: 0 <= i < |r| && r[i].price == p {
      var i :| 0 <= i < |s| && s[i].price == p;
      assert r[i].price == p;
    }
    IsAsMap(r, descending, m);
  }

  lemma InsertAt(s: seq<Level>, descending: bool, pos: nat, u: Level)
    requires Proper(s, descending) && pos <= |s| && u.qty > 0
    requires forall k :: 0 <= k < pos ==> Ahead(descending, s[k].price, u.price)
    requires forall k :: pos <= k < |s| ==> Ahead(descending, u.price, s[k].price)
    ensures Proper(s[..pos] + [u] + s[pos..], descending)
    ensures AsMap(s[..pos] + [u] + s[pos..], descending) == AsMap(s, descending)[u.price := u.qty]
  {
    var r := s[..pos] + [u] + s[pos..];
    InsertedIsProper(s, r, descending, pos, u);
    InsertedMap(s, r, descending, pos, u);
  }

  lemma InsertedMap(s: seq<Level>, r: seq<Level>, descending: bool, pos: nat, u: Level)
    requires Proper(s, descending) && Proper(r, descending) && pos <= |s| && u.qty > 0 && |r| == |s| + 1
    requires r[pos] == u
    requires forall i :: 0 <= i < pos ==> r[i] == s[i]
    requires forall i :: pos < i < |r| ==> r[i] == s[i - 1]
    requires forall i :: 0 <= i < |r| && i != pos ==> r[i].price != u.price
    ensures AsMap(r, descending) == AsMap(s, descending)[u.price := u.qty]
  {
    var n := AsMap(s, descending);
    var m := n[u.price := u.qty];
    forall i | 0 <= i < |r| ensures r[i].price in m && m[r[i].price] == r[i].qty {
      if i != pos { Member(s, descending, if i < pos then i else i - 1); }
    }
    forall p | p in m ensures exists i :: 0 <= i < |r| && r[i].price == p {
      if p == u.price {
        assert r[pos].price == p;
      } else {
        var i := IndexOf(s, descending, p);
        if i < pos { assert r[i].price == p; } else { assert r[i + 1].price == p; }
      }
    }
    IsAsMap(r, descending, m);
  }

  lemma InsertedIsProper(s: seq<Level>, r: seq<Level>, descending: bool, pos: nat, u: Level)
    requires Proper(s, descending) && pos <= |s| && u.qty > 0 && |r| == |s| + 1
    requires forall k :: 0 <= k < pos ==> Ahead(descending, s[k].price, u.price)
    requires forall k :: pos <= k < |s| ==> Ahead(descending, u.price, s[k].price)
    requires r[pos] == u
    requires forall i :: 0 <= i < pos ==> r[i] == s[i]
    requires forall i :: pos < i < |r| ==> r[i] == s[i - 1]
    ensures Proper(r, descending)
    ensures forall i :: 0 <= i < |r| && i != pos ==> r[i].price != u.price
  {
    forall i, j | 0 <= i < j < |r| ensures Ahead(descending, r[i].price, r[j].price) {
      assert r[i] == if i < pos then s[i] else if i == pos then u else s[i - 1];
      assert r[j] == if j < pos then s[j] else if j == pos then u else s[j - 1];
    }
    forall i | 0 <= i < |r| ensures r[i].qty > 0 && (i != pos ==> r[i].price != u.price) {
      assert r[i] == if i < pos then s[i] else if i == pos then u else s[i - 1];
    }
  }

  // ---- What the flat book makes of updates, as a map ----

  /** A full array drops an update that would need a new level. */
  predicate Drops(levels: Levels, u: Level) {
    |levels| >= HP_MAX_LEVELS && u.qty > 0 && u.price !in levels
  }

  function Capped(levels: Levels, u: Level): Levels {
    if Drops(levels, u) then levels else Applied(levels, u)
  }

  function CappedAll(levels: Levels, us: seq<Level>): Levels
    decreases |us|
  {
    if us == [] then levels else CappedAll(Capped(levels, us[0]), us[1..])
  }

  /** What a snapshot means to the map book: empty levels are skipped, later ones overwrite. */
  function Listed(us: seq<Level>): Levels
    decreases |us|
  {
    ListedOnto(map[], us)
  }

  function ListedOnto(levels: Levels, us: seq<Level>): Levels
    decreases |us|
  {
    if us == [] then levels
    else ListedOnto(if us[0].qty > 0 then levels[us[0].price := us[0].qty] else levels, us[1..])
  }

  datatype SideOp = Snapshot(levels: seq<Level>) | Delta(updates: seq<Level>)

  /** Snapshots must be sorted, with distinct prices and no empty levels. */
  predicate WellFormed(op: SideOp, descending: bool) {
    op.Snapshot? ==> Proper(op.levels, descending)
  }

  function FlatStep(levels: Levels, op: SideOp, descending: bool): Levels
    requires WellFormed(op, descending)
  {
    match op
    case Snapshot(ls) => AsMap(ls[..Min(|ls|, HP_MAX_LEVELS)], descending)
    case Delta(us) => CappedAll(levels, us)
  }

  function MapStep(levels: Levels, op: SideOp): Levels {
    match op
    case Snapshot(ls) => Listed(ls)
    case Delta(us) => AppliedAll(levels, us)
  }

  predicate IsSubmap(a: Levels, b: Levels) {
    forall p :: p in a ==> p in b && a[p] == b[p]
  }

  lemma {:induction false} DeltaKeepsSubmap(flat: Levels, full: Levels, us: seq<Level>)
    requires IsSubmap(flat, full)
    ensures IsSubmap(CappedAll(flat, us), AppliedAll(full, us))
    decreases |us|
  {
    if us != [] {
      DeltaKeepsSubmap(Capped(flat, us[0]), Applied(full, us[0]), us[1..]);
    }
  }

  lemma {:induction false} CappedStaysSmall(levels: Levels, us: seq<Level>)
    requires |levels| <= HP_MAX_LEVELS
    ensures |CappedAll(levels, us)| <= HP_MAX_LEVELS
    decreases |us|
  {
    if us != [] {
      CapHolds(levels, us[0]);
      CappedStaysSmall(Capped(levels, us[0]), us[1..]);
    }
  }

  lemma CapHolds(levels: Levels, u: Level)
    requires |levels| <= HP_MAX_LEVELS
    ensures |Capped(levels, u)| <= HP_MAX_LEVELS
  {
    if u.qty == 0 {
      assert (levels - {u.price}).Keys == levels.Keys - {u.price};
    }
  }

  /** A sorted snapshot reads the same into the map as into the array. */
  lemma {:induction false} SnapshotListed(base: Levels, ls: seq<Level>, descending: bool)
    requires Proper(ls, descending)
    requires forall p, i :: p in base && 0 <= i < |ls| ==> p != ls[i].price
    ensures ListedOnto(base, ls) == base + AsMap(ls, descending)
    decreases |ls|
  {
    if ls == [] {
      assert AsMap(ls, descending) == map[];
    } else {
      var base' := base[ls[0].price := ls[0].qty];
      AddFront(ls, descending);
      SnapshotListed(base', ls[1..], descending);
      OneMore(base, AsMap(ls[1..], descending), ls[0].price, ls[0].qty);
    }
  }

  lemma OneMore(a: Levels, b: Levels, p: int, q: Positive)
    requires p !in b
    ensures a[p := q] + b == a + b[p := q]
  {
  }

  lemma PrefixIsSubmap(ls: seq<Level>, descending: bool, n: nat)
    requires Proper(ls, descending) && n <= |ls|
    ensures Proper(ls[..n], descending) && IsSubmap(AsMap(ls[..n], descending), AsMap(ls, descending))
  {
    forall p | p in AsMap(ls[..n], descending) ensures p in AsMap(ls, descending) {
      var i :| 0 <= i < n && ls[..n][i].price == p;
      assert ls[i].price == p;
    }
  }

  /** One operation keeps the array a part of the map, at most 40 levels long. */
  lemma StepKeepsSubmap(flat: Levels, full: Levels, op: SideOp, descending: bool)
    requires WellFormed(op, descending) && IsSubmap(flat, full) && |flat| <= HP_MAX_LEVELS
    ensures IsSubmap(FlatStep(flat, op, descending), MapStep(full, op))
    ensures |FlatStep(flat, op, descending)| <= HP_MAX_LEVELS
  {
    match op
    case Snapshot(ls) =>
      var n := Min(|ls|, HP_MAX_LEVELS);
      SnapshotListed(map[], ls, descending);
      PrefixIsSubmap(ls, descending, n);
      MapSize(ls[..n], descending);
    case Delta(us) =>
      DeltaKeepsSubmap(flat, full, us);
      CappedStaysSmall(flat, us);
  }

  /** The map side never holds more than 40 levels, at any update of any batch. */
  predicate FitsDelta(levels: Levels, us: seq<Level>)
    decreases |us|
  {
    |levels| <= HP_MAX_LEVELS && (us == [] || FitsDelta(Applied(levels, us[0]), us[1..]))
  }

  predicate Fits(full: Levels, op: SideOp) {
    match op
    case Snapshot(ls) => |ls| <= HP_MAX_LEVELS
    case Delta(us) => FitsDelta(full, us)
  }

  lemma {:induction false} FittingDeltaIsExact(levels: Levels, us: seq<Level>)
    requires FitsDelta(levels, us)
    ensures CappedAll(levels, us) == AppliedAll(levels, us)
    decreases |us|
  {
    if us != [] {
      assert |Applied(levels, us[0])| <= HP_MAX_LEVELS;
      DropExactly(levels, us[0]);
      FittingDeltaIsExact(Applied(levels, us[0]), us[1..]);
    }
  }

  /** The array misses an update exactly when it has no room for a new level, which is
      exactly when the map would come to hold more than 40. */
  lemma DropExactly(levels: Levels, u: Level)
    requires |levels| <= HP_MAX_LEVELS
    ensures Capped(levels, u) == Applied(levels, u) <==> !Drops(levels, u)
    ensures Drops(levels, u) <==> |Applied(levels, u)| > HP_MAX_LEVELS
  {
    if u.qty == 0 {
      assert (levels - {u.price}).Keys == levels.Keys - {u.price};
    } else if u.price in levels {
      assert levels[u.price := u.qty].Keys == levels.Keys;
    }
  }

  lemma FittingStepIsExact(levels: Levels, op: SideOp, descending: bool)
    requires WellFormed(op, descending) && Fits(levels, op)
    ensures FlatStep(levels, op, descending) == MapStep(levels, op)
  {
    match op
    case Snapshot(ls) =>
      assert ls[..|ls|] == ls;
      SnapshotListed(map[], ls, descending);
    case Delta(us) =>
      FittingDeltaIsExact(levels, us);
  }

  // ---- Whole histories ----

  function FlatRun(ops: seq<SideOp>, descending: bool): Levels
    requires forall op :: op in ops ==> WellFormed(op, descending)
  {
    if ops == [] then map[] else FlatStep(FlatRun(ops[..|ops| - 1], descending), ops[|ops| - 1], descending)
  }

  function MapRun(ops: seq<SideOp>): Levels {
    if ops == [] then map[] else MapStep(MapRun(ops[..|ops| - 1]), ops[|ops| - 1])
  }

  /** After any history the flat side is a part of the map side and fits its array. */
  lemma {:induction false} FlatIsPart(ops: seq<SideOp>, descending: bool)
    requires forall op :: op in ops ==> WellFormed(op, descending)
    ensures IsSubmap(FlatRun(ops, descending), MapRun(ops)) && |FlatRun(ops, descending)| <= HP_MAX_LEVELS
  {
    if ops != [] {
      var front := ops[..|ops| - 1];
      FlatIsPart(front, descending);
      StepKeepsSubmap(FlatRun(front, descending), MapRun(front), ops[|ops| - 1], descending);
    }
  }

  /** As long as the map side never outgrows the array, both sides are the same. */
  lemma {:induction false} FlatIsExact(ops: seq<SideOp>, descending: bool)
    requires forall op :: op in ops ==> WellFormed(op, descending)
    requires forall i :: 0 <= i < |ops| ==> Fits(MapRun(ops[..i]), ops[i])
    ensures FlatRun(ops, descending) == MapRun(ops)
  {
    if ops != [] {
      var front := ops[..|ops| - 1];
      forall i | 0 <= i < |front| ensures Fits(MapRun(front[..i]), front[i]) {
        assert front[..i] == ops[..i];
      }
      FlatIsExact(front, descending);
      FittingStepIsExact(MapRun(front), ops[|ops| - 1], descending);
    }
  }

  // ---- Exactly when the two sides part ----

  /** The two sides are equal before, between and after the updates of a batch. */
  predicate SameDuring(flat: Levels, full: Levels, us: seq<Level>)
    decreases |us|
  {
    flat == full && (us == [] || SameDuring(Capped(flat, us[0]), Applied(full, us[0]), us[1..]))
  }

  lemma {:induction false} SameDuringExactly(levels: Levels, us: seq<Level>)
    requires |levels| <= HP_MAX_LEVELS
    ensures SameDuring(levels, levels, us) <==> FitsDelta(levels, us)
    decreases |us|
  {
    if us != [] {
      DropExactly(levels, us[0]);
      if |Applied(levels, us[0])| <= HP_MAX_LEVELS {
        SameDuringExactly(Applied(levels, us[0]), us[1..]);
      }
    }
  }

  predicate SameAfter(flat: Levels, full: Levels, op: SideOp, descending: bool)
    requires WellFormed(op, descending)
  {
    match op
    case Snapshot(ls) => FlatStep(flat, op, descending) == MapStep(full, op)
    case Delta(us) => SameDuring(flat, full, us)
  }

  lemma SnapshotSameExactly(ls: seq<Level>, descending: bool)
    requires Proper(ls, descending)
    ensures AsMap(ls[..Min(|ls|, HP_MAX_LEVELS)], descending) == Listed(ls) <==> |ls| <= HP_MAX_LEVELS
  {
    SnapshotIsMap(ls, descending);
    if |ls| <= HP_MAX_LEVELS {
      assert ls[..|ls|] == ls;
    } else {
      var front := ls[..HP_MAX_LEVELS];
      PrefixIsSubmap(ls, descending, HP_MAX_LEVELS);
      MapSize(ls, descending);
      MapSize(front, descending);
      assert |AsMap(front, descending)| != |AsMap(ls, descending)|;
    }
  }

  lemma SnapshotIsMap(ls: seq<Level>, descending: bool)
    requires Proper(ls, descending)
    ensures Listed(ls) == AsMap(ls, descending)
  {
    SnapshotListed(map[], ls, descending);
    assert map[] + AsMap(ls, descending) == AsMap(ls, descending);
  }

  lemma SameStepExactly(levels: Levels, op: SideOp, descending: bool)
    requires WellFormed(op, descending) && |levels| <= HP_MAX_LEVELS
    ensures SameAfter(levels, levels, op, descending) <==> Fits(levels, op)
    ensures Fits(levels, op) ==> FlatStep(levels, op, descending) == MapStep(levels, op)
  {
    match op
    case Snapshot(ls) =>
      SnapshotSameExactly(ls, descending);
    case Delta(us) =>
      SameDuringExactly(levels, us);
      if FitsDelta(levels, us) { FittingDeltaIsExact(levels, us); }
  }

  /** The two sides were equal after every update of a history. */
  predicate SameThroughout(ops: seq<SideOp>, descending: bool)
    requires forall op :: op in ops ==> WellFormed(op, descending)
  {
    ops == [] || (var front, last := ops[..|ops| - 1], ops[|ops| - 1];
                  SameThroughout(front, descending) && SameAfter(FlatRun(front, descending), MapRun(front), last, descending))
  }

  /** The map side never held more than 40 levels, and no snapshot was longer. */
  predicate FitThroughout(ops: seq<SideOp>) {
    ops == [] || (var front, last := ops[..|ops| - 1], ops[|ops| - 1]; FitThroughout(front) && Fits(MapRun(front), last))
  }

  /** Over whole histories the array equals the map after every update exactly if the map never outgrew 40 levels. */
  lemma {:induction false} SameThroughoutExactly(ops: seq<SideOp>, descending: bool)
    requires forall op :: op in ops ==> WellFormed(op, descending)
    ensures SameThroughout(ops, descending) <==> FitThroughout(ops)
    ensures FitThroughout(ops) ==> FlatRun(ops, descending) == MapRun(ops)
  {
    if ops != [] {
      var front := ops[..|ops| - 1];
      SameThroughoutExactly(front, descending);
      FlatIsPart(front, descending);
      if FitThroughout(front) {
        SameStepExactly(MapRun(front), ops[|ops| - 1], descending);
      }
    }
  }

  /** The array shows the map's best price exactly if it holds the map's best level. */
  lemma BestAgreesExactly(flat: Levels, full: Levels, side: Side)
    requires IsSubmap(flat, full) && full != map[]
    ensures (flat != map[] && Best(side, flat.Keys) == Best(side, full.Keys)) <==> Best(side, full.Keys) in flat
  {
    var b := Best(side, full.Keys);
    if b in flat {
      assert flat != map[];
      var a := Best(side, flat.Keys);
      assert a in full && NoWorse(side, a, b) && NoWorse(side, b, a);
    }
  }

  /** The array shows the best price of the map, or both sides are empty. */
  predicate ShowsBest(flat: Levels, full: Levels, side: Side) {
    (flat == map[] <==> full == map[])
    && (flat != map[] && full != map[] ==> Best(side, flat.Keys) == Best(side, full.Keys))
  }

  /** The two ways in which an update hides the best price: it is dropped although it is better than all that the array
      holds, or it takes away the best level while the next best one was dropped before. */
  predicate Hides(flat: Levels, full: Levels, side: Side, u: Level) {
    flat != map[]
    && if u.qty > 0 then Drops(flat, u) && Better(side, u.price, Best(side, flat.Keys))
       else u.price == Best(side, flat.Keys) && full - {u.price} != map[] && Best(side, (full - {u.price}).Keys) !in flat
  }

  lemma IsTheBest(levels: Levels, side: Side, p: int)
    requires p in levels && forall q :: q in levels ==> NoWorse(side, p, q)
    ensures Best(side, levels.Keys) == p
  {
    var b := Best(side, levels.Keys);
    assert NoWorse(side, b, p) && NoWorse(side, p, b);
  }

  /** A level is written on both sides. */
  lemma WrittenShowsBest(flat: Levels, full: Levels, side: Side, p: int, q: Positive)
    requires IsSubmap(flat, full) && ShowsBest(flat, full, side)
    ensures ShowsBest(flat[p := q], full[p := q], side)
  {
    var flat', full' := flat[p := q], full[p := q];
    assert p in full';
    var b := Best(side, full'.Keys);
    if b != p {
      assert b in full && forall x :: x in full ==> NoWorse(side, b, x);
      IsTheBest(full, side, b);
    }
    assert b in flat';
    assert IsSubmap(flat', full');
    BestAgreesExactly(flat', full', side);
  }

  /** A level is written to the map alone. */
  lemma DroppedShowsBest(flat: Levels, full: Levels, side: Side, p: int, q: Positive)
    requires IsSubmap(flat, full) && ShowsBest(flat, full, side) && flat != map[] && p !in flat
    ensures ShowsBest(flat, full[p := q], side) <==> !Better(side, p, Best(side, flat.Keys))
  {
    var full', b := full[p := q], Best(side, flat.Keys);
    if Better(side, p, b) {
      IsTheBest(full', side, p);
    } else {
      IsTheBest(full', side, b);
    }
  }

  lemma RemovedShowsBest(flat: Levels, full: Levels, side: Side, p: int)
    requires IsSubmap(flat, full) && ShowsBest(flat, full, side) && flat != map[]
    ensures ShowsBest(flat - {p}, full - {p}, side)
            <==> p != Best(side, flat.Keys) || full - {p} == map[] || Best(side, (full - {p}).Keys) in flat
  {
    var flat', full', b := flat - {p}, full - {p}, Best(side, flat.Keys);
    assert IsSubmap(flat', full');
    if p != b {
      assert b in flat' && b in full';
      IsTheBest(full', side, b);
      IsTheBest(flat', side, b);
    } else if full' == map[] {
      assert forall x :: x in flat' ==> x in full';
      assert flat'.Keys == {};
    } else {
      BestAgreesExactly(flat', full', side);
    }
  }

  /** One update leaves the array showing the best price of the map exactly if it does not hide it. */
  lemma HidesExactly(flat: Levels, full: Levels, side: Side, u: Level)
    requires IsSubmap(flat, full) && ShowsBest(flat, full, side)
    ensures ShowsBest(Capped(flat, u), Applied(full, u), side) <==> !Hides(flat, full, side, u)
  {
    if flat == map[] {
      assert full == map[] && flat - {u.price} == map[];
    } else if u.qty == 0 {
      RemovedShowsBest(flat, full, side, u.price);
    } else if Drops(flat, u) {
      DroppedShowsBest(flat, full, side, u.price, u.qty);
    } else {
      WrittenShowsBest(flat, full, side, u.price, u.qty);
    }
  }

  /** While nothing was dropped so far, an update hides the best price exactly if the array is full and the new price
      better than its best. */
  lemma HidesFirst(levels: Levels, side: Side, u: Level)
    ensures Hides(levels, levels, side, u) <==> Drops(levels, u) && Better(side, u.price, Best(side, levels.Keys))
  {
    if u.qty == 0 && levels - {u.price} != map[] {
      assert Best(side, (levels - {u.price}).Keys) in levels;
    }
  }

  predicate BestDuring(flat: Levels, full: Levels, side: Side, us: seq<Level>)
    decreases |us|
  {
    ShowsBest(flat, full, side) && (us == [] || BestDuring(Capped(flat, us[0]), Applied(full, us[0]), side, us[1..]))
  }

  predicate HiddenDuring(flat: Levels, full: Levels, side: Side, us: seq<Level>)
    decreases |us|
  {
    us != [] && (Hides(flat, full, side, us[0]) || HiddenDuring(Capped(flat, us[0]), Applied(full, us[0]), side, us[1..]))
  }

  lemma {:induction false} BestDuringExactly(flat: Levels, full: Levels, side: Side, us: seq<Level>)
    requires IsSubmap(flat, full) && ShowsBest(flat, full, side)
    ensures BestDuring(flat, full, side, us) <==> !HiddenDuring(flat, full, side, us)
    ensures BestDuring(flat, full, side, us) ==> ShowsBest(CappedAll(flat, us), AppliedAll(full, us), side)
    decreases |us|
  {
    if us != [] {
      HidesExactly(flat, full, side, us[0]);
      if !Hides(flat, full, side, us[0]) {
        BestDuringExactly(Capped(flat, us[0]), Applied(full, us[0]), side, us[1..]);
      }
    }
  }

  /** A sorted snapshot shows its best price, however long it is. */
  lemma SnapshotShowsBest(ls: seq<Level>, descending: bool)
    requires Proper(ls, descending)
    ensures ShowsBest(AsMap(ls[..Min(|ls|, HP_MAX_LEVELS)], descending), Listed(ls), Taker(descending))
  {
    SnapshotIsMap(ls, descending);
    if ls == [] {
      assert ls[..0] == ls;
    } else {
      FrontIsBest(ls, descending);
      FrontIsBest(ls[..Min(|ls|, HP_MAX_LEVELS)], descending);
    }
  }

  predicate BestAfter(flat: Levels, full: Levels, op: SideOp, descending: bool)
    requires WellFormed(op, descending)
  {
    match op
    case Snapshot(ls) => ShowsBest(FlatStep(flat, op, descending), MapStep(full, op), Taker(descending))
    case Delta(us) => BestDuring(flat, full, Taker(descending), us)
  }

  /** The array showed the best price after every update of a history. */
  predicate BestThroughout(ops: seq<SideOp>, descending: bool)
    requires forall op :: op in ops ==> WellFormed(op, descending)
  {
    ops == [] || (var front, last := ops[..|ops| - 1], ops[|ops| - 1];
                  BestThroughout(front, descending) && BestAfter(FlatRun(front, descending), MapRun(front), last, descending))
  }

  /** No update of a history hid the best price. */
  predicate NeverHidden(ops: seq<SideOp>, descending: bool)
    requires forall op :: op in ops ==> WellFormed(op, descending)
  {
    ops == [] || (var front, last := ops[..|ops| - 1], ops[|ops| - 1];
                  NeverHidden(front, descending)
                  && (last.Delta? ==> !HiddenDuring(FlatRun(front, descending), MapRun(front), Taker(descending), last.updates)))
  }

  /** Over every history the array shows the map's best price after each update exactly if no update hides it. */
  lemma {:induction false} BestThroughoutExactly(ops: seq<SideOp>, descending: bool)
    requires forall op :: op in ops ==> WellFormed(op, descending)
    ensures BestThroughout(ops, descending) <==> NeverHidden(ops, descending)
    ensures BestThroughout(ops, descending) ==> ShowsBest(FlatRun(ops, descending), MapRun(ops), Taker(descending))
  {
    if ops != [] {
      var front, last := ops[..|ops| - 1], ops[|ops| - 1];
      assert last in ops;
      BestThroughoutExactly(front, descending);
      FlatIsPart(front, descending);
      if BestThroughout(front, descending) {
        match last
        case Snapshot(ls) =>
          SnapshotShowsBest(ls, descending);
        case Delta(us) =>
          BestDuringExactly(FlatRun(front, descending), MapRun(front), Taker(descending), us);
      }
    }
  }

  function Bids(top: int, n: nat): (ls: seq<Level>)
    ensures Proper(ls, true) && |ls| == n
  {
    seq(n, i => Level(top - i, 1))
  }

  /** A bid above a full side: the map shows it, the array still shows the old best. */
  lemma DroppedBest(top: int, u: Level)
    requires u.price > top && u.qty > 0
    ensures var m := AsMap(Bids(top, HP_MAX_LEVELS), true);
            && m != map[] && Best(Sell, m.Keys) == top && |m| == HP_MAX_LEVELS
            && Capped(m, u) == m && Applied(m, u) != map[] && Best(Sell, Applied(m, u).Keys) == u.price
  {
    var ls := Bids(top, HP_MAX_LEVELS);
    var m := AsMap(ls, true);
    MapSize(ls, true);
    FrontIsBest(ls, true);
    NotMember(ls, true, u.price);
    assert u.price in Applied(m, u);
    var b := Best(Sell, Applied(m, u).Keys);
    assert NoWorse(Sell, b, u.price);
    forall q | q in m ensures q <= top {
      assert NoWorse(Sell, top, q);
    }
  }

  /** Forty bids from 100 downwards, then a bid of 101: the map shows it, the array still shows 100. */
  lemma BestBidDropped()
    ensures var ops := [Snapshot(Bids(100, HP_MAX_LEVELS)), Delta([Level(101, 1)])];
            && (forall op :: op in ops ==> WellFormed(op, true))
            && FlatRun(ops, true) != map[] && Best(Sell, FlatRun(ops, true).Keys) == 100
            && MapRun(ops) != map[] && Best(Sell, MapRun(ops).Keys) == 101
  {
    var ls, u := Bids(100, HP_MAX_LEVELS), Level(101, 1);
    var m := AsMap(ls, true);
    DroppedBest(100, u);
    SnapshotIsMap(ls, true);
    assert ls[..HP_MAX_LEVELS] == ls;
    TwoSteps(Snapshot(ls), [u]);
  }

  lemma TwoSteps(first: SideOp, us: seq<Level>)
    requires WellFormed(first, true)
    ensures (forall op :: op in [first, Delta(us)] ==> WellFormed(op, true))
    ensures FlatRun([first, Delta(us)], true) == CappedAll(FlatStep(map[], first, true), us)
    ensures MapRun([first, Delta(us)]) == AppliedAll(MapStep(map[], first), us)
  {
    var ops := [first, Delta(us)];
    assert ops[..1] == [first] && [first][..0] == [];
    assert FlatRun([], true) == map[] && MapRun([]) == map[];
  }
}
