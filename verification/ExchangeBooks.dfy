/** The books of the simulated exchange over whole histories of updates (crates/atomic-execution/src/simulator.rs,
    `apply_levels`): they are the map books of crates/atomic-orderbook/src/book.rs, and exactly when. */
module ExchangeBooks {
  import opened Types
  import opened PriceLevels
  import opened Matching
  import opened Exchange
  import opened FlatLevels

  // ---- One side ----

  /** A side of an exchange book after a history of updates. */
  function SideRun(ops: seq<SideOp>): Levels {
    if ops == [] then map[]
    else
      match ops[|ops| - 1]
      case Snapshot(ls) => AppliedAll(map[], ls)
      case Delta(us) => AppliedAll(SideRun(ops[..|ops| - 1]), us)
  }

  /** A snapshot names a price with a quantity and, as its last word about it, with none. */
  predicate TakenBack(ls: seq<Level>, i: int, j: int) {
    0 <= i < j < |ls| && ls[i].price == ls[j].price && ls[i].qty > 0 && ls[j].qty == 0 && LastNaming(ls, ls[j].price, j)
  }

  ghost predicate Consistent(op: SideOp) {
    op.Snapshot? ==> forall i, j :: !TakenBack(op.levels, i, j)
  }

  predicate LastPositive(ls: seq<Level>, p: int, k: int) {
    && -1 <= k < |ls| && (k >= 0 ==> ls[k].price == p && ls[k].qty > 0)
    && forall j :: k < j < |ls| ==> ls[j].price != p || ls[j].qty == 0
  }

  lemma {:induction false} ListedAt(base: Levels, ls: seq<Level>, p: int, k: int)
    requires LastPositive(ls, p, k)
    ensures QtyAt(ListedOnto(base, ls), p) == if k >= 0 then ls[k].qty else QtyAt(base, p)
    decreases |ls|
  {
    if ls != [] {
      var rest := ls[1..];
      assert forall j :: 0 <= j < |rest| ==> rest[j] == ls[j + 1];
      ListedAt(if ls[0].qty > 0 then base[ls[0].price := ls[0].qty] else base, rest, p, if k > 0 then k - 1 else -1);
    }
  }

  lemma {:induction false} FindLast(ls: seq<Level>, p: int) returns (k: int, m: int)
    ensures LastNaming(ls, p, k) && LastPositive(ls, p, m)
  {
    k, m := -1, -1;
    if ls != [] {
      var n := |ls| - 1;
      k, m := FindLast(ls[..n], p);
      if ls[n].price == p {
        k := n;
        if ls[n].qty > 0 { m := n; }
      }
    }
  }

  lemma SnapshotAt(ls: seq<Level>, p: int)
    ensures QtyAt(AppliedAll(map[], ls), p) == QtyAt(Listed(ls), p) || exists i, j :: TakenBack(ls, i, j) && ls[j].price == p
    ensures forall i, j :: TakenBack(ls, i, j) && ls[j].price == p
                           ==> QtyAt(AppliedAll(map[], ls), p) != QtyAt(Listed(ls), p)
  {
    var k, m := FindLast(ls, p);
    LastUpdateWins(map[], ls, p, k);
    ListedAt(map[], ls, p, m);
    if k >= 0 && ls[k].qty == 0 && m >= 0 {
      assert TakenBack(ls, m, k);
    }
  }

  /** A snapshot reads the same into both kinds of book exactly if it takes nothing back: the exchange then removes a
      level that the other book keeps. */
  lemma SnapshotReadsAlikeExactly(ls: seq<Level>)
    ensures AppliedAll(map[], ls) == Listed(ls) <==> Consistent(Snapshot(ls))
  {
    if i, j :| TakenBack(ls, i, j) {
      SnapshotAt(ls, ls[j].price);
    } else {
      forall p ensures QtyAt(AppliedAll(map[], ls), p) == QtyAt(Listed(ls), p) {
        SnapshotAt(ls, p);
      }
      SameLevels(AppliedAll(map[], ls), Listed(ls));
    }
  }

  /** The side was the one of the map book after every update of a history. */
  predicate AlikeThroughout(ops: seq<SideOp>) {
    SideRun(ops) == MapRun(ops) && (ops == [] || AlikeThroughout(ops[..|ops| - 1]))
  }

  /** That is so exactly if no snapshot of the history takes a level back. */
  lemma {:induction false} AlikeThroughoutExactly(ops: seq<SideOp>)
    ensures AlikeThroughout(ops) <==> forall i :: 0 <= i < |ops| ==> Consistent(ops[i])
  {
    if ops != [] {
      var front, last := ops[..|ops| - 1], ops[|ops| - 1];
      AlikeThroughoutExactly(front);
      match last
      case Snapshot(ls) => SnapshotReadsAlikeExactly(ls);
      case Delta(us) =>
    }
  }

  // ---- Whole books, pair by pair, with sweeps in between ----

  datatype Update = Update(pair: string, bids: seq<Level>, asks: seq<Level>, isSnapshot: bool)

  /** The exchange takes these updates, each followed by a sweep over any orders. */
  ghost predicate FedThrough(cfg: Config, states: seq<ExchangeState>, us: seq<Update>) {
    && |states| == |us| + 1 && states[0].books == map[]
    && forall i :: 0 <= i < |us| ==> FedAt(cfg, states[i], us[i], states[i + 1])
  }

  ghost predicate FedAt(cfg: Config, st: ExchangeState, u: Update, st': ExchangeState) {
    exists ids :: st' == Checked(cfg, BookFed(st, u.pair, u.bids, u.asks, u.isSnapshot), ids)
  }

  /** What these updates say about one side of one pair. */
  function OpsFor(us: seq<Update>, pair: string, bids: bool): seq<SideOp> {
    if us == [] then []
    else
      var u := us[|us| - 1];
      var levels := if bids then u.bids else u.asks;
      OpsFor(us[..|us| - 1], pair, bids)
      + if u.pair == pair then [if u.isSnapshot then Snapshot(levels) else Delta(levels)] else []
  }

  /** Both sides of every pair are what the updates of that pair say, whatever was updated and swept in between. */
  lemma {:induction false} BooksAreRuns(cfg: Config, states: seq<ExchangeState>, us: seq<Update>, pair: string)
    requires FedThrough(cfg, states, us)
    ensures BidsOf(states[|us|].books, pair) == SideRun(OpsFor(us, pair, true))
    ensures AsksOf(states[|us|].books, pair) == SideRun(OpsFor(us, pair, false))
  {
    if us != [] {
      var n := |us| - 1;
      BooksAreRuns(cfg, states[..|us|], us[..n], pair);
      assert FedAt(cfg, states[n], us[n], states[n + 1]);
      OneUpdate(cfg, states[n], us[n], states[n + 1], pair);
      LastOp(us, pair, true);
      LastOp(us, pair, false);
    }
  }

  lemma OneUpdate(cfg: Config, st: ExchangeState, u: Update, st': ExchangeState, pair: string)
    requires FedAt(cfg, st, u, st')
    ensures u.pair != pair ==> BidsOf(st'.books, pair) == BidsOf(st.books, pair) && AsksOf(st'.books, pair) == AsksOf(st.books, pair)
    ensures u.pair == pair
            ==> BidsOf(st'.books, pair) == AppliedAll(if u.isSnapshot then map[] else BidsOf(st.books, pair), u.bids)
                && AsksOf(st'.books, pair) == AppliedAll(if u.isSnapshot then map[] else AsksOf(st.books, pair), u.asks)
  {
    var ids :| st' == Checked(cfg, BookFed(st, u.pair, u.bids, u.asks, u.isSnapshot), ids);
    SweepsLeaveBooks(cfg, BookFed(st, u.pair, u.bids, u.asks, u.isSnapshot), ids);
  }

  lemma LastOp(us: seq<Update>, pair: string, bids: bool)
    requires us != []
    ensures var (u, before) := (us[|us| - 1], OpsFor(us[..|us| - 1], pair, bids));
            var levels := if bids then u.bids else u.asks;
            SideRun(OpsFor(us, pair, bids))
            == if u.pair != pair then SideRun(before)
               else AppliedAll(if u.isSnapshot then map[] else SideRun(before), levels)
  {
    var u, before := us[|us| - 1], OpsFor(us[..|us| - 1], pair, bids);
    var ops := OpsFor(us, pair, bids);
    if u.pair == pair {
      assert ops[..|ops| - 1] == before;
    } else {
      assert ops == before;
    }
  }

  /** So with snapshots that take nothing back, exchange and map book hold the same levels. */
  lemma BooksAreMapBooks(cfg: Config, states: seq<ExchangeState>, us: seq<Update>, pair: string, bids: bool)
    requires FedThrough(cfg, states, us)
    requires forall i :: 0 <= i < |OpsFor(us, pair, bids)| ==> Consistent(OpsFor(us, pair, bids)[i])
    ensures (if bids then BidsOf(states[|us|].books, pair) else AsksOf(states[|us|].books, pair)) == MapRun(OpsFor(us, pair, bids))
  {
    BooksAreRuns(cfg, states, us, pair);
    AlikeThroughoutExactly(OpsFor(us, pair, bids));
  }
}
