/** The life cycle of an order told from outside: which events an engine takes is a language over the events it took before,
    and its entry for an order can be read off them (crates/atomic-execution/src/state_machine.rs). */
module Histories {
  import opened Types
  import opened Lifecycle

  predicate IsFill(p: Payload) { p.OrderFill? || p.OrderPartialFill? }

  /** The quantity that a fill of either kind reports. */
  function FillQty(p: Payload): nat {
    match p
    case OrderFill(_, f) => f.qty
    case OrderPartialFill(_, f) => f.qty
    case _ => 0
  }

  function FilledSum(taken: seq<Stamped>): nat {
    if taken == [] then 0 else FilledSum(taken[..|taken| - 1]) + FillQty(taken[|taken| - 1].payload)
  }

  predicate AnyFill(taken: seq<Stamped>) { exists i :: 0 <= i < |taken| && IsFill(taken[i].payload) }

  /** Acknowledged, not canceled, and not filled completely. */
  predicate IsOpen(taken: seq<Stamped>) {
    && |taken| >= 2 && taken[0].payload.OrderNew? && taken[1].payload.OrderAck?
    && (forall i :: 0 <= i < |taken| ==> !taken[i].payload.OrderCancel?)
    && (AnyFill(taken) ==> FilledSum(taken) < taken[0].payload.order.qty)
  }

  /** After these events about an order the engine takes this one: first a registration, then an acknowledgement or a
      rejection, then fills of either kind until they add up to the order, or a cancellation. */
  predicate MayFollow(taken: seq<Stamped>, p: Payload) {
    match p
    case OrderNew(_) => taken == []
    case OrderAck(_, _) => |taken| == 1
    case OrderReject(_, _) => |taken| == 1
    case OrderFill(_, _) => IsOpen(taken)
    case OrderPartialFill(_, _) => IsOpen(taken)
    case OrderCancel(_, _) => IsOpen(taken)
    case NotExecution => false
  }

  /** The events about an order that are taken. */
  function Taken(ss: seq<Stamped>): seq<Stamped> {
    if ss == [] then []
    else
      var before := Taken(ss[..|ss| - 1]);
      if MayFollow(before, ss[|ss| - 1].payload) then before + [ss[|ss| - 1]] else before
  }

  /** The state that the last event taken leaves. */
  function StateOf(taken: seq<Stamped>): OrderState
    requires taken != [] && taken[0].payload.OrderNew?
  {
    match taken[|taken| - 1].payload
    case OrderNew(_) => New
    case OrderAck(_, _) => Ack
    case OrderCancel(_, _) => Canceled
    case OrderReject(_, _) => Rejected
    case _ => if FilledSum(taken) >= taken[0].payload.order.qty then Filled else PartialFill
  }

  function ExchangeIdOf(taken: seq<Stamped>): Option<string> {
    if |taken| >= 2 && taken[1].payload.OrderAck? then Some(taken[1].payload.exchangeOrderId) else None
  }

  /** The entry that these events make: what was ordered, what was filled, and when it was last heard of. */
  function EntryOf(taken: seq<Stamped>): Option<LiveOrder> {
    if taken == [] || !taken[0].payload.OrderNew? then None
    else
      var o, filled := taken[0].payload.order, FilledSum(taken);
      Some(LiveOrder(o.orderId, ExchangeIdOf(taken), o.symbol, o.side, o.orderType, o.price, o.qty, filled,
                     if filled >= o.qty then 0 else o.qty - filled, o.tif, o.venue, StateOf(taken),
                     taken[0].timestamp, taken[|taken| - 1].timestamp))
  }

  /** What holds of any events that were taken: a registration first, and after it an acknowledgement or a rejection. */
  ghost predicate Orderly(taken: seq<Stamped>) {
    && (taken != [] ==> taken[0].payload.OrderNew?)
    && (|taken| >= 2 ==> taken[1].payload.OrderAck? || taken[1].payload.OrderReject?)
    && (|taken| >= 2 && taken[1].payload.OrderReject? ==> |taken| == 2)
    && (forall i :: 2 <= i < |taken| ==> IsFill(taken[i].payload) || taken[i].payload.OrderCancel?)
    && (forall i :: 0 <= i < |taken| - 1 ==> !taken[i].payload.OrderCancel?)
    && (taken != [] && taken[|taken| - 1].payload.OrderNew? ==> |taken| == 1)
  }

  lemma SumNext(taken: seq<Stamped>, s: Stamped)
    ensures FilledSum(taken + [s]) == FilledSum(taken) + FillQty(s.payload)
  {
    assert (taken + [s])[..|taken|] == taken;
  }

  lemma {:induction false} NoFillNoSum(taken: seq<Stamped>)
    requires !AnyFill(taken)
    ensures FilledSum(taken) == 0
  {
    if taken != [] {
      var front := taken[..|taken| - 1];
      assert forall i :: 0 <= i < |front| ==> front[i] == taken[i];
      NoFillNoSum(front);
      assert !IsFill(taken[|taken| - 1].payload);
    }
  }

  lemma {:induction false} TakenIsOrderly(ss: seq<Stamped>)
    ensures Orderly(Taken(ss))
  {
    if ss != [] {
      TakenIsOrderly(ss[..|ss| - 1]);
    }
  }

  /** In an orderly history the engine may work on the order exactly if it is open in the sense above. */
  lemma OpenExactly(taken: seq<Stamped>)
    requires Orderly(taken) && taken != []
    ensures StateOf(taken).Ack? || StateOf(taken).PartialFill? <==> IsOpen(taken)
    ensures StateOf(taken).New? <==> |taken| == 1
    ensures StateOf(taken).Ack? ==> !AnyFill(taken)
  {
    var n := |taken| - 1;
    if IsFill(taken[n].payload) {
      assert AnyFill(taken);
    }
    if StateOf(taken).Ack? {
      assert n == 1;
    }
  }

  /** One more event: it is taken exactly if it may follow, and the entry is what the events taken make. */
  lemma NextTaken(taken: seq<Stamped>, s: Stamped)
    requires Orderly(taken)
    ensures Advance(EntryOf(taken), s.timestamp, s.payload).Success? <==> MayFollow(taken, s.payload)
    ensures MayFollow(taken, s.payload)
            ==> EntryOf(taken + [s]) == Some(Advance(EntryOf(taken), s.timestamp, s.payload).value)
  {
    SumNext(taken, s);
    if taken != [] {
      OpenExactly(taken);
      if !AnyFill(taken) { NoFillNoSum(taken); }
      assert (taken + [s])[0] == taken[0];
      assert |taken| >= 2 ==> (taken + [s])[1] == taken[1];
    }
  }

  lemma {:induction false} HistoryAppends(entry: Option<LiveOrder>, ss: seq<Stamped>, s: Stamped)
    ensures History(entry, ss + [s]) == Next(History(entry, ss), s)
    decreases |ss|
  {
    if ss == [] {
      assert [] + [s] == [s] && [s][1..] == [];
    } else {
      assert (ss + [s])[0] == ss[0] && (ss + [s])[1..] == ss[1..] + [s];
      HistoryAppends(Next(entry, ss[0]), ss[1..], s);
    }
  }

  /** Over every stream of events about an order, from its beginning, the entry is the one that the events taken make. */
  lemma {:induction false} EntryIsHistory(ss: seq<Stamped>)
    ensures History(None, ss) == EntryOf(Taken(ss))
  {
    if ss != [] {
      var front, s := ss[..|ss| - 1], ss[|ss| - 1];
      EntryIsHistory(front);
      TakenIsOrderly(front);
      NextTaken(Taken(front), s);
      HistoryAppends(None, front, s);
      assert front + [s] == ss;
    }
  }

  /** So it is in an engine that started empty, whatever other events came in between; filled, in particular, is the sum over
      the fills of both kinds that were taken. */
  lemma EngineTellsHistory(es: seq<Event>, id: string)
    ensures Lookup(Run(map[], es), id) == EntryOf(Taken(Projection(es, id)))
    ensures id in Run(map[], es) ==> Run(map[], es)[id].filledQty == FilledSum(Taken(Projection(es, id)))
  {
    EntryFollowsProjection(map[], es, id);
    EntryIsHistory(Projection(es, id));
  }

  /** The next event is accepted exactly if it may follow what was taken of its order before. */
  lemma AcceptedExactly(es: seq<Event>, e: Event)
    ensures Accepted(Run(map[], es), e)
            <==> Subject(e.payload).Some? && MayFollow(Taken(Projection(es, Subject(e.payload).value)), e.payload)
  {
    if Subject(e.payload).Some? {
      var id := Subject(e.payload).value;
      EngineTellsHistory(es, id);
      TakenIsOrderly(Projection(es, id));
      NextTaken(Taken(Projection(es, id)), Stamped(e.timestamp, e.payload));
    }
  }

  /** Both kinds of fill do the same. */
  lemma FillKindsAlike(entry: Option<LiveOrder>, ts: nat, id: string, f: FillReport)
    ensures Advance(entry, ts, OrderFill(id, f)) == Advance(entry, ts, OrderPartialFill(id, f))
  {
  }
}
