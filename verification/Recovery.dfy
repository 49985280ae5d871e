/** Recovery on startup (crates/atomic-node/src/recovery.rs, `plan_recovery`, and the replay
    loop of crates/atomic-node/src/main.rs): a snapshot, the rest of the log, and the gaps. */
module Recovery {
  import opened Types
  import opened Lifecycle
  import opened Listing
  import opened Execution
  import opened Dedup

  datatype RecoveryPlan = RecoveryPlan(snapshot: Option<EngineSnapshot>, eventsToReplay: seq<Event>,
                                       needPeerSync: bool, syncFromSeq: nat, expectedNextSeq: nat)

  function SnapshotSeq(s: Option<EngineSnapshot>): nat {
    if s.Some? then s.value.seqNo else 0
  }

  /** The events of the log that the snapshot does not cover. */
  function Later(log: seq<Event>, k: nat): seq<Event> {
    if log == [] then []
    else (if log[0].seqNo > k then [log[0]] else []) + Later(log[1..], k)
  }

  predicate Consecutive(es: seq<Event>, first: nat) {
    forall i :: 0 <= i < |es| ==> es[i].seqNo == first + i
  }

  predicate Increasing(es: seq<Event>) {
    forall i, j :: 0 <= i < j < |es| ==> es[i].seqNo < es[j].seqNo
  }

  predicate Carries(es: seq<Event>, n: nat) {
    exists i :: 0 <= i < |es| && es[i].seqNo == n
  }

  /** s is the first number after k that no event carries, although a later event exists. */
  ghost predicate LeastMissing(es: seq<Event>, k: nat, s: nat) {
    && k < s && !Carries(es, s)
    && (forall n :: k < n < s ==> Carries(es, n))
    && (exists i :: 0 <= i < |es| && es[i].seqNo > s)
  }

  lemma {:induction false} LaterIsLater(log: seq<Event>, k: nat)
    ensures forall e :: e in Later(log, k) <==> e in log && e.seqNo > k
    ensures Increasing(log) ==> Increasing(Later(log, k))
  {
    if log != [] {
      LaterIsLater(log[1..], k);
      assert forall e :: e in log <==> e == log[0] || e in log[1..];
      if Increasing(log) {
        var rest := Later(log[1..], k);
        forall i | 0 <= i < |rest| ensures log[0].seqNo < rest[i].seqNo {
          assert rest[i] in log[1..];
          var j :| 0 <= j < |log[1..]| && log[1..][j] == rest[i];
          assert log[j + 1] == rest[i];
        }
      }
    }
  }

  /** The position of the first break in the numbering, or the length when there is none. */
  predicate FirstBreak(es: seq<Event>, first: nat, b: nat) {
    && b <= |es|
    && (forall i :: 0 <= i < b ==> es[i].seqNo == first + i)
    && (b < |es| ==> es[b].seqNo != first + b)
  }

  lemma BreakIsLeastMissing(es: seq<Event>, k: nat, b: nat)
    requires FirstBreak(es, k + 1, b) && b < |es| && Increasing(es)
    requires forall i :: 0 <= i < |es| ==> es[i].seqNo > k
    ensures LeastMissing(es, k, k + 1 + b)
  {
    forall n | k < n < k + 1 + b ensures Carries(es, n) {
      assert es[n - k - 1].seqNo == n;
    }
    assert b > 0 ==> es[b - 1].seqNo < es[b].seqNo;
    assert es[b].seqNo > k + 1 + b;
    forall i | 0 <= i < |es| ensures es[i].seqNo != k + 1 + b {
      assert i > b ==> es[b].seqNo < es[i].seqNo;
    }
  }

  /** Sync is asked for exactly when the remaining events are not numbered without a gap from
      the snapshot on; in an increasing log the number asked for is the least one missing. */
  method PlanRecovery(snapshot: Option<EngineSnapshot>, log: seq<Event>) returns (plan: RecoveryPlan)
    ensures plan.snapshot == snapshot
    ensures plan.eventsToReplay == Later(log, SnapshotSeq(snapshot))
    ensures plan.expectedNextSeq == if plan.eventsToReplay == [] then SnapshotSeq(snapshot) + 1
                                    else plan.eventsToReplay[|plan.eventsToReplay| - 1].seqNo + 1
    ensures !plan.needPeerSync <==> Consecutive(plan.eventsToReplay, SnapshotSeq(snapshot) + 1)
    ensures plan.needPeerSync && Increasing(log) ==> LeastMissing(plan.eventsToReplay, SnapshotSeq(snapshot), plan.syncFromSeq)
  {
    var k := SnapshotSeq(snapshot);
    var events := FilterLater(log, k);
    AllLater(log, k);
    var needPeerSync, syncFromSeq, expectedNextSeq := false, 0, k + 1;
    if events != [] {
      ghost var b;
      needPeerSync, syncFromSeq, b := DetectGaps(events, k);
      expectedNextSeq := events[|events| - 1].seqNo + 1;
      if needPeerSync && Increasing(log) {
        BreakIsLeastMissing(events, k, b);
      }
    }
    plan := RecoveryPlan(snapshot, events, needPeerSync, syncFromSeq, expectedNextSeq);
  }

  lemma AllLater(log: seq<Event>, k: nat)
    ensures var es := Later(log, k);
            && (forall i :: 0 <= i < |es| ==> es[i].seqNo > k)
            && (Increasing(log) ==> Increasing(es))
  {
    LaterIsLater(log, k);
    var es := Later(log, k);
    assert forall i :: 0 <= i < |es| ==> es[i] in es;
  }

  /** The first gap is reported: before the first event, or between two neighbours. */
  method DetectGaps(events: seq<Event>, k: nat) returns (needPeerSync: bool, syncFromSeq: nat, ghost b: nat)
    requires events != [] && forall i :: 0 <= i < |events| ==> events[i].seqNo > k
    ensures !needPeerSync ==> Consecutive(events, k + 1)
    ensures needPeerSync ==> FirstBreak(events, k + 1, b) && b < |events| && syncFromSeq == k + 1 + b
  {
    needPeerSync, syncFromSeq, b := false, 0, 0;
    if events[0].seqNo > k + 1 {
      needPeerSync, syncFromSeq := true, k + 1;
    }
    for i := 0 to |events| - 1
      invariant needPeerSync ==> FirstBreak(events, k + 1, b) && b < |events| && syncFromSeq == k + 1 + b
      invariant !needPeerSync ==> forall j :: 0 <= j <= i ==> events[j].seqNo == k + 1 + j
    {
      if events[i + 1].seqNo != events[i].seqNo + 1 && !needPeerSync {
        needPeerSync, syncFromSeq, b := true, events[i].seqNo + 1, i + 1;
      }
    }
  }

  method FilterLater(log: seq<Event>, k: nat) returns (events: seq<Event>)
    ensures events == Later(log, k)
  {
    events := [];
    for i := 0 to |log|
      invariant Later(log, k) == events + Later(log[i..], k)
    {
      if log[i].seqNo > k {
        events := events + [log[i]];
      }
    }
  }

  // ---- Recovery against full replay ----

  /** Every event of the log is the one that the history has under its number. */
  ghost predicate LogOf(log: seq<Event>, history: seq<Event>) {
    && Consecutive(history, 1)
    && forall e :: e in log ==> 1 <= e.seqNo <= |history| && history[e.seqNo - 1] == e
  }

  /** Without a gap, the events to replay are the stretch of history after the snapshot. */
  lemma ReplayIsHistory(history: seq<Event>, log: seq<Event>, k: nat)
    requires LogOf(log, history) && k <= |history| && Consecutive(Later(log, k), k + 1)
    ensures k + |Later(log, k)| <= |history|
    ensures Later(log, k) == history[k..k + |Later(log, k)|]
  {
    var es := Later(log, k);
    LaterIsLater(log, k);
    if es != [] {
      var last := es[|es| - 1];
      assert last in es;
      assert last.seqNo == k + |es|;
    }
    forall i | 0 <= i < |es| ensures es[i] == history[k + i] {
      ReplayedAt(history, log, es, k, i);
    }
  }

  lemma ReplayedAt(history: seq<Event>, log: seq<Event>, es: seq<Event>, k: nat, i: nat)
    requires LogOf(log, history) && Consecutive(es, k + 1) && i < |es| && k + |es| <= |history|
    requires forall e :: e in es ==> e in log
    ensures es[i] == history[k + i]
  {
    var e := es[i];
    assert e in es;
    assert e.seqNo == k + 1 + i;
  }

  /** What the engine holds before the replay: the orders of the snapshot, if there is one. */
  function Restored(snapshot: Option<EngineSnapshot>, orders: Orders): Orders {
    if snapshot.Some? then Loaded(map[], snapshot.value.orders) else orders
  }

  /** The counter of generated ids comes from the snapshot and is not advanced by the replay. */
  function Counter(snapshot: Option<EngineSnapshot>, next: nat): nat {
    if snapshot.Some? then snapshot.value.nextLocalId else next
  }

  /** The snapshot lists the orders after the first seqNo events; without one the engine starts from nothing. */
  ghost predicate TakenFrom(snapshot: Option<EngineSnapshot>, orders: Orders, history: seq<Event>) {
    match snapshot
    case Some(s) => s.seqNo <= |history| && IsListing(s.orders, Run(map[], history[..s.seqNo]))
    case None => orders == map[]
  }

  lemma RestoredIsPrefix(snapshot: Option<EngineSnapshot>, orders: Orders, history: seq<Event>)
    requires TakenFrom(snapshot, orders, history)
    ensures SnapshotSeq(snapshot) <= |history|
    ensures Restored(snapshot, orders) == Run(map[], history[..SnapshotSeq(snapshot)])
  {
    if snapshot.Some? {
      RestoredIsTaken(snapshot.value.orders, Run(map[], history[..snapshot.value.seqNo]));
    }
  }

  /** These are the orders after all events of the history before the one with this number. */
  ghost predicate UpTo(orders: Orders, history: seq<Event>, next: int) {
    1 <= next <= |history| + 1 && orders == Run(map[], history[..next - 1])
  }

  lemma ReplayOn(orders: Orders, history: seq<Event>, k: nat, es: seq<Event>)
    requires UpTo(orders, history, k + 1) && k + |es| <= |history| && es == history[k..k + |es|]
    ensures UpTo(Run(orders, es), history, k + |es| + 1)
  {
    assert history[..k] + es == history[..k + |es|];
    RunConcat(map[], history[..k], es);
  }

  /** Restoring a snapshot, or starting without one, and replaying what a gapless plan says gives the orders of
      replaying the whole history from nothing, up to where the log ends. */
  lemma RecoveryEqualsFullReplay(history: seq<Event>, log: seq<Event>, snapshot: Option<EngineSnapshot>, orders: Orders)
    requires LogOf(log, history) && TakenFrom(snapshot, orders, history)
    requires Consecutive(Later(log, SnapshotSeq(snapshot)), SnapshotSeq(snapshot) + 1)
    ensures UpTo(Run(Restored(snapshot, orders), Later(log, SnapshotSeq(snapshot))), history,
                 SnapshotSeq(snapshot) + |Later(log, SnapshotSeq(snapshot))| + 1)
  {
    var k, m := SnapshotSeq(snapshot), Restored(snapshot, orders);
    RestoredIsPrefix(snapshot, orders, history);
    ReplayIsHistory(history, log, k);
    assert UpTo(m, history, k + 1);
    ReplayOn(m, history, k, Later(log, k));
  }

  lemma RestoredIsTaken(listing: seq<LiveOrder>, taken: Orders)
    requires IsListing(listing, taken)
    ensures Loaded(map[], listing) == taken
  {
    LoadedListing(map[], listing, taken);
    assert map[] + taken == taken;
  }

  /** The events that a deduplicator lets through. */
  function Deduped(st: DedupState, events: seq<Event>): seq<Event>
    decreases |events|
  {
    if events == [] then []
    else (if Accepts(st, events[0].seqNo) then [events[0]] else []) + Deduped(Remembered(st, events[0].seqNo), events[1..])
  }

  lemma PassOne(orders: Orders, st: DedupState, events: seq<Event>, i: nat)
    requires i < |events|
    ensures Run(orders, Deduped(st, events[i..]))
            == Run(if Accepts(st, events[i].seqNo) then Post(orders, events[i]) else orders,
                   Deduped(Remembered(st, events[i].seqNo), events[i + 1..]))
  {
    assert events[i..][0] == events[i] && events[i..][1..] == events[i + 1..];
    var rest := Deduped(Remembered(st, events[i].seqNo), events[i + 1..]);
    assert [] + rest == rest;
    assert ([events[i]] + rest)[1..] == rest;
  }

  lemma {:induction false} IncreasingPasses(st: DedupState, events: seq<Event>)
    requires Inv(st) && Increasing(events) && (events != [] ==> events[0].seqNo > st.maxSeen)
    ensures Deduped(st, events) == events
    decreases |events|
  {
    if events != [] {
      StepKeepsInv(st, events[0].seqNo);
      IncreasingPasses(Remembered(st, events[0].seqNo), events[1..]);
      assert [events[0]] + events[1..] == events;
    }
  }

  /** The replay loop: the deduplicator starts at the snapshot, and what it lets through is applied. */
  method Replay(engine: ExecutionEngine, events: seq<Event>, start: nat)
    modifies engine
    ensures engine.orders == Run(old(engine.orders), Deduped(DedupState({}, start), events))
    ensures engine.nextLocalId == old(engine.nextLocalId)
  {
    var dedup := new EventDeduplicator.FromSeq(start);
    for i := 0 to |events|
      invariant fresh(dedup) && Inv(dedup.State()) && engine.nextLocalId == old(engine.nextLocalId)
      invariant Run(old(engine.orders), Deduped(DedupState({}, start), events))
                == Run(engine.orders, Deduped(dedup.State(), events[i..]))
    {
      PassOne(engine.orders, dedup.State(), events, i);
      var isNew := dedup.Check(events[i].seqNo);
      if isNew {
        var _ := engine.ProcessEvent(events[i]);
      }
    }
  }

  method RestoreFrom(engine: ExecutionEngine, snapshot: Option<EngineSnapshot>)
    modifies engine
    ensures engine.orders == Restored(snapshot, old(engine.orders))
    ensures engine.nextLocalId == Counter(snapshot, old(engine.nextLocalId))
  {
    if snapshot.Some? {
      engine.Restore(snapshot.value);
    }
  }

  lemma GaplessIsIncreasing(es: seq<Event>, first: nat)
    requires Consecutive(es, first)
    ensures Increasing(es) && (es != [] ==> es[0].seqNo == first)
  {
  }

  lemma GaplessRecovery(history: seq<Event>, log: seq<Event>, snapshot: Option<EngineSnapshot>, orders: Orders)
    requires LogOf(log, history) && TakenFrom(snapshot, orders, history)
    requires Consecutive(Later(log, SnapshotSeq(snapshot)), SnapshotSeq(snapshot) + 1)
    ensures UpTo(Recovered(snapshot, log, orders), history, SnapshotSeq(snapshot) + |Later(log, SnapshotSeq(snapshot))| + 1)
  {
    var k := SnapshotSeq(snapshot);
    GaplessIsIncreasing(Later(log, k), k + 1);
    IncreasingPasses(DedupState({}, k), Later(log, k));
    RecoveryEqualsFullReplay(history, log, snapshot, orders);
  }

  /** What the engine holds after restoring and replaying, gap or no gap. */
  function Recovered(snapshot: Option<EngineSnapshot>, log: seq<Event>, orders: Orders): Orders {
    Run(Restored(snapshot, orders), Deduped(DedupState({}, SnapshotSeq(snapshot)), Later(log, SnapshotSeq(snapshot))))
  }

  /** Startup: plan, restore, replay. If no peer sync is needed, the engine ends up with the orders of the whole
      history up to the next number expected, with or without a snapshot. */
  method Recover(engine: ExecutionEngine, snapshot: Option<EngineSnapshot>, log: seq<Event>, ghost history: seq<Event>)
    returns (plan: RecoveryPlan)
    modifies engine
    ensures !plan.needPeerSync <==> Consecutive(Later(log, SnapshotSeq(snapshot)), SnapshotSeq(snapshot) + 1)
    ensures engine.orders == Recovered(snapshot, log, old(engine.orders))
    ensures engine.nextLocalId == Counter(snapshot, old(engine.nextLocalId))
    ensures plan.eventsToReplay == Later(log, SnapshotSeq(snapshot))
    ensures !plan.needPeerSync && LogOf(log, history) && TakenFrom(snapshot, old(engine.orders), history)
            ==> UpTo(engine.orders, history, plan.expectedNextSeq)
  {
    ghost var before := engine.orders;
    var k := SnapshotSeq(snapshot);
    plan := PlanRecovery(snapshot, log);
    if !plan.needPeerSync && LogOf(log, history) && TakenFrom(snapshot, before, history) {
      GaplessRecovery(history, log, snapshot, before);
      assert plan.expectedNextSeq == k + |Later(log, k)| + 1;
    }
    RestoreFrom(engine, snapshot);
    Replay(engine, plan.eventsToReplay, k);
  }
}
