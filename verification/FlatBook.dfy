/** The flat order book (cpp/src/orderbook.cpp): two fixed arrays of 40 levels, searched
    by bisection and kept sorted by shifting. */
module FlatBook {
  import opened Types
  import opened PriceLevels
  import opened FlatLevels

  // ---- What the code does to any array, sorted or not ----

  /** Where a price is in the array, or where it would have to go. */
  datatype Slot = Found(pos: nat) | Missing(at: nat)

  function Bisect(s: seq<Level>, p: int, descending: bool, lo: nat, hi: nat): (r: Slot)
    requires lo <= hi <= |s|
    ensures match r
            case Found(pos) => lo <= pos < hi && s[pos].price == p
            case Missing(at) => lo <= at <= hi
    decreases hi - lo
  {
    if lo == hi then Missing(lo)
    else
      var mid := (lo + hi) / 2;
      if s[mid].price == p then Found(mid)
      else if Ahead(descending, s[mid].price, p) then Bisect(s, p, descending, mid + 1, hi)
      else Bisect(s, p, descending, lo, mid)
  }

  function Updated(s: seq<Level>, u: Level, descending: bool): (r: seq<Level>)
    ensures |s| <= HP_MAX_LEVELS ==> |r| <= HP_MAX_LEVELS
  {
    match Bisect(s, u.price, descending, 0, |s|)
    case Found(pos) => if u.qty == 0 then s[..pos] + s[pos + 1..] else s[pos := Level(s[pos].price, u.qty)]
    case Missing(at) => if u.qty > 0 && |s| < HP_MAX_LEVELS then s[..at] + [u] + s[at..] else s
  }

  function UpdatedAll(s: seq<Level>, us: seq<Level>, descending: bool): (r: seq<Level>)
    ensures |s| <= HP_MAX_LEVELS ==> |r| <= HP_MAX_LEVELS
    decreases |us|
  {
    if us == [] then s else UpdatedAll(Updated(s, us[0], descending), us[1..], descending)
  }

  function Copied(us: seq<Level>): seq<Level> { us[..Min(|us|, HP_MAX_LEVELS)] }

  /** The two sides of a flat book, best prices first. */
  datatype FlatSides = FlatSides(bids: seq<Level>, asks: seq<Level>)

  /** A snapshot is copied as given, a delta is applied update by update. */
  function SidesFed(f: FlatSides, bids: seq<Level>, asks: seq<Level>, isSnapshot: bool): FlatSides {
    if isSnapshot then FlatSides(Copied(bids), Copied(asks))
    else FlatSides(UpdatedAll(f.bids, bids, true), UpdatedAll(f.asks, asks, false))
  }

  // ---- What it means on a sorted array ----

  lemma BeforeIsAhead(s: seq<Level>, p: int, descending: bool, mid: nat)
    requires Sorted(s, descending) && mid < |s| && Ahead(descending, s[mid].price, p)
    ensures forall k :: 0 <= k <= mid ==> Ahead(descending, s[k].price, p)
  {
  }

  lemma BehindIsBehind(s: seq<Level>, p: int, descending: bool, mid: nat)
    requires Sorted(s, descending) && mid < |s| && Ahead(descending, p, s[mid].price)
    ensures forall k :: mid <= k < |s| ==> Ahead(descending, p, s[k].price)
  {
  }

  lemma {:induction false} BisectFinds(s: seq<Level>, p: int, descending: bool, lo: nat, hi: nat)
    requires lo <= hi <= |s| && Sorted(s, descending)
    requires forall k :: 0 <= k < lo ==> Ahead(descending, s[k].price, p)
    requires forall k :: hi <= k < |s| ==> Ahead(descending, p, s[k].price)
    ensures var r := Bisect(s, p, descending, lo, hi);
            r.Missing? ==> (forall k :: 0 <= k < r.at ==> Ahead(descending, s[k].price, p))
                           && (forall k :: r.at <= k < |s| ==> Ahead(descending, p, s[k].price))
    decreases hi - lo
  {
    if lo < hi {
      var mid := (lo + hi) / 2;
      if s[mid].price != p {
        if Ahead(descending, s[mid].price, p) {
          BeforeIsAhead(s, p, descending, mid);
          BisectFinds(s, p, descending, mid + 1, hi);
        } else {
          BehindIsBehind(s, p, descending, mid);
          BisectFinds(s, p, descending, lo, mid);
        }
      }
    }
  }

  lemma Absent(s: seq<Level>, descending: bool, p: int, at: nat)
    requires Proper(s, descending) && at <= |s|
    requires forall k :: 0 <= k < at ==> Ahead(descending, s[k].price, p)
    requires forall k :: at <= k < |s| ==> Ahead(descending, p, s[k].price)
    ensures p !in AsMap(s, descending)
  {
    forall k | 0 <= k < |s| ensures s[k].price != p {
      assert k < at || at <= k;
    }
    NotMember(s, descending, p);
  }

  lemma NothingToRemove(m: Levels, p: int)
    requires p !in m
    ensures m - {p} == m
  {
  }

  /** `r` is what the update makes of the side, and of the map it stands for. */
  ghost predicate FollowsMap(s: seq<Level>, u: Level, descending: bool, r: seq<Level>)
    requires Proper(s, descending)
  {
    Proper(r, descending) && AsMap(r, descending) == Capped(AsMap(s, descending), u)
  }

  lemma FoundIsCapped(s: seq<Level>, u: Level, descending: bool, pos: nat)
    requires Proper(s, descending) && pos < |s| && s[pos].price == u.price
    ensures u.qty == 0 ==> FollowsMap(s, u, descending, s[..pos] + s[pos + 1..])
    ensures u.qty > 0 ==> FollowsMap(s, u, descending, s[pos := Level(s[pos].price, u.qty)])
  {
    Member(s, descending, pos);
    if u.qty == 0 { RemoveAt(s, descending, pos); } else { ReplaceAt(s, descending, pos, u.qty); }
  }

  lemma MissingIsCapped(s: seq<Level>, u: Level, descending: bool, at: nat)
    requires Proper(s, descending) && |s| <= HP_MAX_LEVELS && at <= |s|
    requires forall k :: 0 <= k < at ==> Ahead(descending, s[k].price, u.price)
    requires forall k :: at <= k < |s| ==> Ahead(descending, u.price, s[k].price)
    ensures FollowsMap(s, u, descending, if u.qty > 0 && |s| < HP_MAX_LEVELS then s[..at] + [u] + s[at..] else s)
  {
    MapSize(s, descending);
    Absent(s, descending, u.price, at);
    if u.qty > 0 && |s| < HP_MAX_LEVELS {
      InsertAt(s, descending, at, u);
    } else if u.qty == 0 {
      NothingToRemove(AsMap(s, descending), u.price);
    }
  }

  lemma UpdateFollowsMap(s: seq<Level>, u: Level, descending: bool)
    requires Proper(s, descending) && |s| <= HP_MAX_LEVELS
    ensures FollowsMap(s, u, descending, Updated(s, u, descending))
  {
    var r := Bisect(s, u.price, descending, 0, |s|);
    if r.Found? {
      FoundIsCapped(s, u, descending, r.pos);
    } else {
      BisectFinds(s, u.price, descending, 0, |s|);
      MissingIsCapped(s, u, descending, r.at);
    }
  }

  /** One update of a sorted side is one update of the map it stands for, unless a new level meets a full array. */
  lemma UpdatedIsCapped(s: seq<Level>, u: Level, descending: bool)
    requires Proper(s, descending) && |s| <= HP_MAX_LEVELS
    ensures Proper(Updated(s, u, descending), descending)
    ensures AsMap(Updated(s, u, descending), descending) == Capped(AsMap(s, descending), u)
  {
    UpdateFollowsMap(s, u, descending);
  }

  lemma {:induction false} UpdatedAllIsCapped(s: seq<Level>, us: seq<Level>, descending: bool)
    requires Proper(s, descending) && |s| <= HP_MAX_LEVELS
    ensures Proper(UpdatedAll(s, us, descending), descending)
    ensures AsMap(UpdatedAll(s, us, descending), descending) == CappedAll(AsMap(s, descending), us)
    decreases |us|
  {
    if us != [] {
      UpdatedIsCapped(s, us[0], descending);
      UpdatedAllIsCapped(Updated(s, us[0], descending), us[1..], descending);
    }
  }

  // ---- The code ----

  /** Bisection: the slot of a price, or where it would have to go. */
  method FindSlot(levels: array<Level>, count: nat, p: int, descending: bool) returns (pos: int, lo: nat)
    requires count <= levels.Length
    ensures Bisect(levels[..count], p, descending, 0, count) == if pos >= 0 then Found(pos) else Missing(lo)
    ensures pos >= 0 ==> pos < count && levels[pos].price == p
    ensures pos < 0 && Sorted(levels[..count], descending)
            ==> (forall k :: 0 <= k < lo ==> Ahead(descending, levels[k].price, p))
                && (forall k :: lo <= k < count ==> Ahead(descending, p, levels[k].price))
  {
    ghost var s := levels[..count];
    lo := 0;
    var hi := count;
    pos := -1;
    while lo < hi
      invariant lo <= hi <= count
      invariant Bisect(s, p, descending, 0, count) == Bisect(s, p, descending, lo, hi)
    {
      var mid := (lo + hi) / 2;
      if levels[mid].price == p {
        pos := mid;
        return;
      }
      if (if descending then levels[mid].price > p else levels[mid].price < p) {
        lo := mid + 1;
      } else {
        hi := mid;
      }
    }
    if Sorted(s, descending) {
      BisectFinds(s, p, descending, 0, count);
      assert forall k :: 0 <= k < count ==> s[k] == levels[k];
    }
  }

  /** Closes the gap at `pos`, moving later levels forward. */
  method ShiftDown(levels: array<Level>, count: nat, pos: nat)
    requires pos < count <= levels.Length
    modifies levels
    ensures levels[..count - 1] == old(levels[..pos] + levels[pos + 1..count])
  {
    ghost var was := levels[..];
    forall k | pos <= k < count - 1 {
      levels[k] := levels[k + 1];
    }
    forall k | 0 <= k < count - 1 ensures levels[k] == (was[..pos] + was[pos + 1..count])[k] {
    }
    assert levels[..count - 1] == was[..pos] + was[pos + 1..count];
  }

  /** Opens a gap at `at`, moving later levels back, and fills it. */
  method InsertLevel(levels: array<Level>, count: nat, at: nat, l: Level)
    requires at <= count < levels.Length
    modifies levels
    ensures levels[..count + 1] == old(levels[..at]) + [l] + old(levels[at..count])
  {
    forall k | at < k <= count {
      levels[k] := levels[k - 1];
    }
    levels[at] := l;
  }

  /** The price is stored already: the level is removed, or its quantity replaced. */
  method ChangeLevel(levels: array<Level>, count: nat, pos: nat, qty: nat) returns (newCount: nat)
    requires pos < count <= levels.Length
    modifies levels
    ensures newCount <= count
    ensures levels[..newCount] == if qty == 0 then old(levels[..pos] + levels[pos + 1..count])
                                  else old(levels[..count])[pos := Level(old(levels[pos].price), qty)]
  {
    newCount := count;
    if qty == 0 {
      ShiftDown(levels, count, pos);
      newCount := count - 1;
    } else {
      levels[pos] := Level(levels[pos].price, qty);
    }
  }

  /** One update of one side, whatever it holds; a sorted side stays sorted and follows the capped map. */
  method ApplyUpdate(levels: array<Level>, count: nat, u: Level, descending: bool) returns (newCount: nat)
    requires levels.Length == HP_MAX_LEVELS && count <= HP_MAX_LEVELS
    modifies levels
    ensures newCount <= HP_MAX_LEVELS && levels[..newCount] == Updated(old(levels[..count]), u, descending)
    ensures old(Proper(levels[..count], descending)) ==> FollowsMap(old(levels[..count]), u, descending, levels[..newCount])
  {
    ghost var s := levels[..count];
    var pos, lo := FindSlot(levels, count, u.price, descending);
    newCount := count;
    if pos >= 0 {
      assert levels[..pos] == s[..pos] && levels[pos + 1..count] == s[pos + 1..];
      newCount := ChangeLevel(levels, count, pos, u.qty);
    } else if u.qty > 0 && count < HP_MAX_LEVELS {
      assert levels[..lo] == s[..lo] && levels[lo..count] == s[lo..];
      InsertLevel(levels, count, lo, u);
      newCount := count + 1;
    }
    if Proper(s, descending) {
      UpdateFollowsMap(s, u, descending);
    }
  }

  method ApplyDeltaSide(levels: array<Level>, count: nat, updates: seq<Level>, descending: bool) returns (newCount: nat)
    requires levels.Length == HP_MAX_LEVELS && count <= HP_MAX_LEVELS
    modifies levels
    ensures newCount <= HP_MAX_LEVELS && levels[..newCount] == UpdatedAll(old(levels[..count]), updates, descending)
    ensures old(Proper(levels[..count], descending))
            ==> Proper(levels[..newCount], descending)
                && AsMap(levels[..newCount], descending) == CappedAll(old(AsMap(levels[..count], descending)), updates)
  {
    newCount := count;
    ghost var s := levels[..count];
    if Proper(s, descending) {
      UpdatedAllIsCapped(s, updates, descending);
    }
    for i := 0 to |updates|
      invariant newCount <= HP_MAX_LEVELS
      invariant UpdatedAll(s, updates, descending) == UpdatedAll(levels[..newCount], updates[i..], descending)
    {
      assert updates[i..][0] == updates[i] && updates[i..][1..] == updates[i + 1..];
      newCount := ApplyUpdate(levels, newCount, updates[i], descending);
    }
  }

  class FlatBook {
    const bids: array<Level>
    const asks: array<Level>
    var bidCount: nat
    var askCount: nat

    /** The arrays hold 40 levels each, and the counts stay within them. */
    ghost predicate Shaped()
      reads this
    {
      bids != asks && bids.Length == asks.Length == HP_MAX_LEVELS
      && bidCount <= HP_MAX_LEVELS && askCount <= HP_MAX_LEVELS
    }

    /** Both sides as stored. */
    ghost function Sides(): FlatSides
      requires Shaped()
      reads this, bids, asks
    {
      FlatSides(bids[..bidCount], asks[..askCount])
    }

    ghost predicate Valid()
      reads this, bids, asks
    {
      Shaped() && Proper(bids[..bidCount], true) && Proper(asks[..askCount], false)
    }

    ghost function BidMap(): Levels
      requires Valid()
      reads this, bids, asks
    {
      AsMap(bids[..bidCount], true)
    }

    ghost function AskMap(): Levels
      requires Valid()
      reads this, bids, asks
    {
      AsMap(asks[..askCount], false)
    }

    constructor ()
      ensures Valid() && BidMap() == map[] && AskMap() == map[] && Sides() == FlatSides([], [])
      ensures fresh(bids) && fresh(asks)
    {
      bids := new Level[HP_MAX_LEVELS](_ => Level(0, 0));
      asks := new Level[HP_MAX_LEVELS](_ => Level(0, 0));
      bidCount, askCount := 0, 0;
    }

    /** Levels are copied as given, the first 40 of each side. */
    method ApplySnapshot(b: seq<Level>, a: seq<Level>)
      requires Shaped()
      modifies this, bids, asks
      ensures Shaped() && Sides() == SidesFed(old(Sides()), b, a, true)
      ensures WellFormed(Snapshot(b), true) && WellFormed(Snapshot(a), false)
              ==> Valid() && BidMap() == FlatStep(map[], Snapshot(b), true) && AskMap() == FlatStep(map[], Snapshot(a), false)
    {
      bidCount := Min(|b|, HP_MAX_LEVELS);
      askCount := Min(|a|, HP_MAX_LEVELS);
      forall i | 0 <= i < bidCount {
        bids[i] := b[i];
      }
      forall i | 0 <= i < askCount {
        asks[i] := a[i];
      }
    }

    method ApplyDelta(b: seq<Level>, a: seq<Level>)
      requires Shaped()
      modifies this, bids, asks
      ensures Shaped() && Sides() == SidesFed(old(Sides()), b, a, false)
      ensures old(Valid()) ==> Valid() && BidMap() == FlatStep(old(BidMap()), Delta(b), true)
                               && AskMap() == FlatStep(old(AskMap()), Delta(a), false)
    {
      var n := ApplyDeltaSide(bids, bidCount, b, true);
      bidCount := n;
      n := ApplyDeltaSide(asks, askCount, a, false);
      askCount := n;
    }

    /** Zero stands for an empty side. */
    method BestBid() returns (p: int)
      requires Shaped()
      ensures p == if bidCount > 0 then bids[0].price else 0
      ensures Valid() ==> p == if BidMap() == map[] then 0 else Best(Sell, BidMap().Keys)
    {
      if bidCount > 0 {
        if Valid() { FrontIsBest(bids[..bidCount], true); }
        return bids[0].price;
      }
      return 0;
    }

    method BestAsk() returns (p: int)
      requires Shaped()
      ensures p == if askCount > 0 then asks[0].price else 0
      ensures Valid() ==> p == if AskMap() == map[] then 0 else Best(Buy, AskMap().Keys)
    {
      if askCount > 0 {
        if Valid() { FrontIsBest(asks[..askCount], false); }
        return asks[0].price;
      }
      return 0;
    }
  }
}
