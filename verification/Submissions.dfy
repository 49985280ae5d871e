/** What a submission to the simulated exchange does, in terms of the order and the two sides of its book alone
    (crates/atomic-execution/src/simulator.rs, `submit_order`). */
module Submissions {
  import opened Types
  import opened PriceLevels
  import opened Matching
  import opened Exchange

  /** The side that the order trades against. */
  function Counterpart(books: map<string, Book>, o: NewOrder): Levels {
    if o.side.Buy? then AsksOf(books, o.symbol.Pair()) else BidsOf(books, o.symbol.Pair())
  }

  /** Limit and stop-limit orders have a price bound, market and stop-market orders have none. */
  function Bound(o: NewOrder): Option<int> {
    if o.orderType.Limit? || o.orderType.StopLimit? then Some(o.price) else None
  }

  ghost predicate Matches(books: map<string, Book>, o: NewOrder, r: MatchResult) {
    IsMatch(Counterpart(books, o), o.side, o.qty, Bound(o), r)
  }

  /** `fee` is price times quantity times basis points over 10,000, rounded towards zero. */
  predicate IsFee(price: int, qty: nat, bps: int, fee: int) {
    IsQuotient(fee, price * qty * bps, 10000)
  }

  /** The report of fill i: at its price and for its quantity, with what is left of the order after it. */
  predicate ReportsFill(cfg: Config, o: NewOrder, fills: seq<Fill>, ts: nat, e: Event, i: nat)
    requires i < |fills|
  {
    && e.seqNo == 0 && e.timestamp == ts + cfg.fillLatency && e.payload.OrderFill? && e.payload.fillId == o.orderId
    && (var f := e.payload.fill;
        && f.symbol == o.symbol && f.side == o.side && f.price == fills[i].price && f.qty == fills[i].qty
        && f.remaining == o.qty - FilledQty(fills[..i + 1]) && !f.isMaker
        && IsFee(f.price, f.qty, cfg.takerFeeBps, f.fee))
  }

  ghost predicate ReportsFills(cfg: Config, o: NewOrder, fills: seq<Fill>, ts: nat, es: seq<Event>) {
    |es| == |fills| && forall i :: 0 <= i < |es| ==> ReportsFill(cfg, o, fills, ts, es[i], i)
  }

  /** The match took its part from the side the order faces; the other side and all other pairs are untouched. */
  ghost predicate TakenFrom(before: map<string, Book>, o: NewOrder, levels: Levels, after: map<string, Book>) {
    var pair := o.symbol.Pair();
    && after.Keys == before.Keys
    && (forall q :: q in before && q != pair ==> after[q] == before[q])
    && (pair in before ==> after[pair] == if o.side.Buy? then Book(before[pair].bids, levels) else Book(levels, before[pair].asks))
  }

  predicate StaysOpen(o: NewOrder, remaining: nat) {
    remaining > 0 && o.orderType.Limit? && (o.tif.GoodTilCancel? || o.tif.GoodTilDate?)
  }

  /** The whole account of a submission that matches as r and is reported as es. */
  ghost predicate IsSubmission(cfg: Config, st: ExchangeState, o: NewOrder, ts: nat, r: MatchResult, es: seq<Event>, st': ExchangeState) {
    Matches(st.books, o, r)
    && if o.tif.FillOrKill? && r.remaining > 0 then IsRejection(cfg, st, o, ts, "fok_unfillable", es, st')
       else if o.orderType.Market? && Counterpart(st.books, o) == map[] then IsRejection(cfg, st, o, ts, "no_liquidity", es, st')
       else IsAcceptance(cfg, st, o, ts, r, es, st')
  }

  /** A rejection is reported and changes nothing else. */
  ghost predicate IsRejection(cfg: Config, st: ExchangeState, o: NewOrder, ts: nat, reason: string, es: seq<Event>, st': ExchangeState) {
    es == [Event(0, ts + cfg.ackLatency, OrderReject(o.orderId, reason))] && st' == st.(pending := st.pending + es)
  }

  /** An acknowledgement, one report a fill, and for what is left a cancellation, a resting order or nothing. */
  ghost predicate IsAcceptance(cfg: Config, st: ExchangeState, o: NewOrder, ts: nat, r: MatchResult, es: seq<Event>, st': ExchangeState) {
    var n := |r.fills| + 1;
    && st'.pending == st.pending + es && st'.nextId == st.nextId + 1 && TakenFrom(st.books, o, r.levels, st'.books)
    && |es| == n + (if r.remaining > 0 && o.tif.ImmediateOrCancel? then 1 else 0)
    && es[0] == Event(0, ts + cfg.ackLatency, OrderAck(o.orderId, ExchangeId(st.nextId)))
    && ReportsFills(cfg, o, r.fills, ts, es[1..n])
    && (|es| > n ==> es[n] == Event(0, ts + cfg.fillLatency, OrderCancel(o.orderId, "ioc_expired")))
    && st'.resting == if StaysOpen(o, r.remaining)
                      then st.resting[o.orderId := SimOrder(o.orderId, o.symbol, o.side, o.orderType, o.price, o.qty, r.remaining, o.tif, ts)]
                      else st.resting
  }

  // ---- The exchange's answer is that account, and the account has one outcome ----

  lemma SameMatch(books: map<string, Book>, o: NewOrder)
    ensures Matches(books, o, MatchFor(books, o))
    ensures forall r :: Matches(books, o, r) ==> r == MatchFor(books, o)
  {
    assert Facing(books, o.symbol.Pair(), o.side) == Counterpart(books, o) && LimitOf(o) == Bound(o);
    MatchedIsMatch(Counterpart(books, o), o.side, o.qty, Bound(o));
    forall r | Matches(books, o, r) ensures r == MatchFor(books, o) {
      MatchIsUnique(Counterpart(books, o), o.side, o.qty, Bound(o), r);
    }
  }

  lemma FeeIs(price: int, qty: nat, bps: int)
    ensures IsFee(price, qty, bps, Fee(price, qty, bps))
  {
    TruncDivIs(price * qty * bps, 10000);
  }

  lemma FeeIsUnique(price: int, qty: nat, bps: int, a: int, b: int)
    requires IsFee(price, qty, bps, a) && IsFee(price, qty, bps, b)
    ensures a == b
  {
  }

  lemma {:induction false} FillEventsAre(cfg: Config, o: NewOrder, fills: seq<Fill>, k: nat, ts: nat)
    requires k <= |fills| && FilledQty(fills) <= o.qty
    ensures FilledQty(fills[..k]) <= o.qty
    ensures var es := FillEvents(cfg, o, fills[k..], o.qty - FilledQty(fills[..k]), ts + cfg.fillLatency);
            |es| == |fills| - k && forall i :: 0 <= i < |es| ==> ReportsFill(cfg, o, fills, ts, es[i], k + i)
    decreases |fills| - k
  {
    FilledSplit(fills, k);
    if k < |fills| {
      FilledSplit(fills, k + 1);
      FilledNext(fills, k);
      FillEventsAre(cfg, o, fills, k + 1, ts);
      FeeIs(fills[k].price, fills[k].qty, cfg.takerFeeBps);
      assert fills[k..][0] == fills[k] && fills[k..][1..] == fills[k + 1..];
      var before := o.qty - FilledQty(fills[..k]);
      var es := FillEvents(cfg, o, fills[k..], before, ts + cfg.fillLatency);
      assert es[1..] == FillEvents(cfg, o, fills[k + 1..], o.qty - FilledQty(fills[..k + 1]), ts + cfg.fillLatency);
      forall i | 0 <= i < |es| ensures ReportsFill(cfg, o, fills, ts, es[i], k + i) {
        if i > 0 { assert es[i] == es[1..][i - 1]; }
      }
    }
  }

  lemma {:induction false} FilledConcat(a: seq<Fill>, b: seq<Fill>)
    ensures FilledQty(a + b) == FilledQty(a) + FilledQty(b)
  {
    if a == [] {
      assert a + b == b;
    } else {
      assert (a + b)[0] == a[0] && (a + b)[1..] == a[1..] + b;
      FilledConcat(a[1..], b);
    }
  }

  lemma FilledSplit(fills: seq<Fill>, k: nat)
    requires k <= |fills|
    ensures FilledQty(fills) == FilledQty(fills[..k]) + FilledQty(fills[k..])
  {
    FilledConcat(fills[..k], fills[k..]);
    assert fills[..k] + fills[k..] == fills;
  }

  lemma FilledNext(fills: seq<Fill>, k: nat)
    requires k < |fills|
    ensures FilledQty(fills[..k + 1]) == FilledQty(fills[..k]) + fills[k].qty
  {
    FilledConcat(fills[..k], [fills[k]]);
    assert fills[..k] + [fills[k]] == fills[..k + 1] && [fills[k]][1..] == [];
  }

  /** A fill-or-kill order is unfillable exactly if its match would leave something over; a market order finds no liquidity
      exactly if the side it faces is empty; nothing else is rejected. */
  lemma RejectedExactly(books: map<string, Book>, o: NewOrder, r: MatchResult)
    requires Matches(books, o, r)
    ensures RejectReason(books, o) == Some("fok_unfillable") <==> o.tif.FillOrKill? && r.remaining > 0
    ensures RejectReason(books, o) == Some("no_liquidity")
            <==> o.orderType.Market? && Counterpart(books, o) == map[] && !(o.tif.FillOrKill? && r.remaining > 0)
    ensures RejectReason(books, o) in {None, Some("fok_unfillable"), Some("no_liquidity")}
  {
    SameMatch(books, o);
    LeftOver(Facing(books, o.symbol.Pair(), o.side), o.side, o.qty, LimitOf(o));
    assert "fok_unfillable"[0] != "no_liquidity"[0];
  }

  lemma BooksAfter(books: map<string, Book>, o: NewOrder, levels: Levels)
    ensures TakenFrom(books, o, levels,
                      var pair := o.symbol.Pair();
                      if pair in books then books[pair := WithOpposite(books[pair], o.side, levels)] else books)
  {
  }

  lemma AcceptanceIs(cfg: Config, st: ExchangeState, o: NewOrder, ts: nat)
    requires RejectReason(st.books, o).None?
    ensures IsAcceptance(cfg, st, o, ts, MatchFor(st.books, o), SubmitReports(cfg, st, o, ts), Submitted(cfg, st, o, ts))
  {
    var r := MatchFor(st.books, o);
    SameMatch(st.books, o);
    FillEventsAre(cfg, o, r.fills, 0, ts);
    assert r.fills[0..] == r.fills && r.fills[..0] == [];
    BooksAfter(st.books, o, r.levels);
    ReportsInParts(cfg, st, o, ts);
  }

  lemma ReportsInParts(cfg: Config, st: ExchangeState, o: NewOrder, ts: nat)
    requires RejectReason(st.books, o).None?
    ensures var (r, es) := (MatchFor(st.books, o), SubmitReports(cfg, st, o, ts));
            var fills := FillEvents(cfg, o, r.fills, o.qty, ts + cfg.fillLatency);
            && |es| == 1 + |fills| + |ExpiryEvents(cfg, o, r.remaining, ts)| && es[0] == AckEvent(cfg, o, st.nextId, ts)
            && es[1..1 + |fills|] == fills && es[1 + |fills|..] == ExpiryEvents(cfg, o, r.remaining, ts)
  {
  }

  /** The exchange answers a submission as the account says. */
  lemma SubmittedIsSubmission(cfg: Config, st: ExchangeState, o: NewOrder, ts: nat)
    ensures IsSubmission(cfg, st, o, ts, MatchFor(st.books, o), SubmitReports(cfg, st, o, ts), Submitted(cfg, st, o, ts))
  {
    SameMatch(st.books, o);
    RejectedExactly(st.books, o, MatchFor(st.books, o));
    if RejectReason(st.books, o).None? {
      AcceptanceIs(cfg, st, o, ts);
    }
  }

  /** And there is no other answer that does. */
  lemma SubmissionIsUnique(cfg: Config, st: ExchangeState, o: NewOrder, ts: nat, r: MatchResult, es: seq<Event>, st': ExchangeState)
    requires IsSubmission(cfg, st, o, ts, r, es, st')
    ensures r == MatchFor(st.books, o) && es == SubmitReports(cfg, st, o, ts) && st' == Submitted(cfg, st, o, ts)
  {
    SameMatch(st.books, o);
    SubmittedIsSubmission(cfg, st, o, ts);
    if IsAcceptance(cfg, st, o, ts, r, es, st') && IsAcceptance(cfg, st, o, ts, r, SubmitReports(cfg, st, o, ts), Submitted(cfg, st, o, ts)) {
      AcceptanceIsUnique(cfg, st, o, ts, r, es, st', SubmitReports(cfg, st, o, ts), Submitted(cfg, st, o, ts));
    }
  }

  lemma AcceptanceIsUnique(cfg: Config, st: ExchangeState, o: NewOrder, ts: nat, r: MatchResult,
                           es: seq<Event>, x: ExchangeState, fs: seq<Event>, y: ExchangeState)
    requires IsAcceptance(cfg, st, o, ts, r, es, x) && IsAcceptance(cfg, st, o, ts, r, fs, y)
    ensures es == fs && x == y
  {
    var n := |r.fills| + 1;
    ReportsAreUnique(cfg, o, r.fills, ts, es[1..n], fs[1..n]);
    forall i | 0 <= i < |es| ensures es[i] == fs[i] {
      if 1 <= i < n { assert es[i] == es[1..n][i - 1] && fs[i] == fs[1..n][i - 1]; }
    }
    assert es == fs;
    assert x.books == y.books;
  }

  lemma ReportsAreUnique(cfg: Config, o: NewOrder, fills: seq<Fill>, ts: nat, es: seq<Event>, fs: seq<Event>)
    requires ReportsFills(cfg, o, fills, ts, es) && ReportsFills(cfg, o, fills, ts, fs)
    ensures es == fs
  {
    forall i | 0 <= i < |es| ensures es[i] == fs[i] {
      assert ReportsFill(cfg, o, fills, ts, es[i], i) && ReportsFill(cfg, o, fills, ts, fs[i], i);
      var f, g := es[i].payload.fill, fs[i].payload.fill;
      FeeIsUnique(f.price, f.qty, cfg.takerFeeBps, f.fee, g.fee);
    }
  }

  // ---- What follows for the trader ----

  function FillTotal(es: seq<Event>): nat {
    if es == [] then 0 else (if es[0].payload.OrderFill? then es[0].payload.fill.qty else 0) + FillTotal(es[1..])
  }

  lemma {:induction false} FillTotalConcat(a: seq<Event>, b: seq<Event>)
    ensures FillTotal(a + b) == FillTotal(a) + FillTotal(b)
  {
    if a == [] {
      assert a + b == b;
    } else {
      assert (a + b)[0] == a[0] && (a + b)[1..] == a[1..] + b;
      FillTotalConcat(a[1..], b);
    }
  }

  lemma {:induction false} ReportedTotal(cfg: Config, o: NewOrder, fills: seq<Fill>, before: nat, ts: nat)
    ensures FillTotal(FillEvents(cfg, o, fills, before, ts)) == FilledQty(fills)
  {
    if fills != [] {
      var es := FillEvents(cfg, o, fills, before, ts);
      ReportedTotal(cfg, o, fills[1..], SaturatingSub(before, fills[0].qty), ts);
      assert es[1..] == FillEvents(cfg, o, fills[1..], SaturatingSub(before, fills[0].qty), ts);
    }
  }

  /** Every unit of an accepted order is reported filled or is what the match left over. */
  lemma ReportsAccountForAll(cfg: Config, st: ExchangeState, o: NewOrder, ts: nat, r: MatchResult)
    requires Matches(st.books, o, r)
    ensures FillTotal(SubmitReports(cfg, st, o, ts)) == if RejectReason(st.books, o).Some? then 0 else o.qty - r.remaining
  {
    SameMatch(st.books, o);
    if RejectReason(st.books, o).None? {
      var fills, expiry := FillEvents(cfg, o, r.fills, o.qty, ts + cfg.fillLatency), ExpiryEvents(cfg, o, r.remaining, ts);
      FillTotalConcat([AckEvent(cfg, o, st.nextId, ts)] + fills, expiry);
      FillTotalConcat([AckEvent(cfg, o, st.nextId, ts)], fills);
      ReportedTotal(cfg, o, r.fills, o.qty, ts + cfg.fillLatency);
    }
  }

  /** Fill or kill means all or nothing: such an order is filled completely, with nothing resting and nothing canceled,
      exactly if the match leaves nothing over, and else changes nothing. */
  lemma AllOrNothing(cfg: Config, st: ExchangeState, o: NewOrder, ts: nat, r: MatchResult)
    requires o.tif.FillOrKill? && Matches(st.books, o, r)
    requires o.orderType.Market? ==> Counterpart(st.books, o) != map[]
    ensures r.remaining == 0 ==> FillTotal(SubmitReports(cfg, st, o, ts)) == o.qty && Submitted(cfg, st, o, ts).resting == st.resting
    ensures r.remaining > 0 ==> FillTotal(SubmitReports(cfg, st, o, ts)) == 0
                                && Submitted(cfg, st, o, ts).books == st.books && Submitted(cfg, st, o, ts).resting == st.resting
  {
    RejectedExactly(st.books, o, r);
    ReportsAccountForAll(cfg, st, o, ts, r);
  }

  /** No limit or stop-limit order pays more, or is paid less, than its price. */
  lemma PricesWithinBound(cfg: Config, st: ExchangeState, o: NewOrder, ts: nat, i: nat)
    requires o.orderType.Limit? || o.orderType.StopLimit?
    requires i < |SubmitReports(cfg, st, o, ts)| && SubmitReports(cfg, st, o, ts)[i].payload.OrderFill?
    ensures var price := SubmitReports(cfg, st, o, ts)[i].payload.fill.price;
            if o.side.Buy? then price <= o.price else price >= o.price
  {
    SubmittedIsSubmission(cfg, st, o, ts);
    var es, r := SubmitReports(cfg, st, o, ts), MatchFor(st.books, o);
    if RejectReason(st.books, o).None? {
      AcceptanceIs(cfg, st, o, ts);
      var n := |r.fills| + 1;
      assert 1 <= i < n;
      assert es[i] == es[1..n][i - 1];
      assert ReportsFill(cfg, o, r.fills, ts, es[1..n][i - 1], i - 1);
      SameMatch(st.books, o);
      assert Within(o.side, Bound(o), r.fills[i - 1].price);
    }
  }
}
