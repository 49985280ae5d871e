/** The event deduplicator used during recovery (crates/atomic-node/src/recovery.rs). */
module Dedup {
  import opened Types

  const MAX_ENTRIES: nat := 100_000
  const KEEP_RECENT: nat := 50_000

  datatype DedupState = DedupState(seen: set<nat>, maxSeen: nat)

  /** A number is taken for new unless it is still remembered. */
  predicate Accepts(st: DedupState, n: nat) { n !in st.seen }

  function Remembered(st: DedupState, n: nat): DedupState {
    if !Accepts(st, n) then st
    else
      var seen, maxSeen := st.seen + {n}, Max(st.maxSeen, n);
      DedupState(if |seen| > MAX_ENTRIES then set s | s in seen && s > SaturatingSub(maxSeen, KEEP_RECENT) else seen, maxSeen)
  }

  function After(st: DedupState, calls: seq<nat>): DedupState
    decreases |calls|
  {
    if calls == [] then st else After(Remembered(st, calls[0]), calls[1..])
  }

  /** Nothing above the maximum is remembered, and memory is bounded. */
  predicate Inv(st: DedupState) {
    (forall s :: s in st.seen ==> s <= st.maxSeen) && |st.seen| <= MAX_ENTRIES
  }

  lemma StepKeepsInv(st: DedupState, n: nat)
    requires Inv(st)
    ensures Inv(Remembered(st, n))
    ensures Remembered(st, n).maxSeen >= st.maxSeen
  {
    if Accepts(st, n) {
      var maxSeen := Max(st.maxSeen, n);
      var st' := Remembered(st, n);
      if |st.seen + {n}| > MAX_ENTRIES {
        var cutoff := SaturatingSub(maxSeen, KEEP_RECENT);
        IntervalSize(st'.seen, cutoff, maxSeen);
      }
    }
  }

  /** Pruning forgets only numbers that lie at least 50,000 behind. */
  lemma PruneForgetsOld(st: DedupState, n: nat, x: nat)
    requires Inv(st) && x in st.seen + {n} && Accepts(st, n)
    ensures x in Remembered(st, n).seen || x + KEEP_RECENT <= Remembered(st, n).maxSeen
  {
    var seen, maxSeen := st.seen + {n}, Max(st.maxSeen, n);
    if |seen| > MAX_ENTRIES {
      IntervalSize(seen, -1, maxSeen);
      assert maxSeen >= KEEP_RECENT;
    }
  }

  lemma {:induction false} RunKeepsInv(st: DedupState, calls: seq<nat>)
    requires Inv(st)
    ensures Inv(After(st, calls)) && After(st, calls).maxSeen >= st.maxSeen
    decreases |calls|
  {
    if calls != [] {
      StepKeepsInv(st, calls[0]);
      RunKeepsInv(Remembered(st, calls[0]), calls[1..]);
    }
  }

  /** Once accepted, a number stays remembered until it lies 50,000 behind. */
  lemma {:induction false} StaysKnown(st: DedupState, calls: seq<nat>, x: nat)
    requires Inv(st) && (x in st.seen || x + KEEP_RECENT <= st.maxSeen)
    ensures x in After(st, calls).seen || x + KEEP_RECENT <= After(st, calls).maxSeen
    decreases |calls|
  {
    if calls != [] {
      StepKeepsInv(st, calls[0]);
      if Accepts(st, calls[0]) && x in st.seen {
        PruneForgetsOld(st, calls[0], x);
      }
      StaysKnown(Remembered(st, calls[0]), calls[1..], x);
    }
  }

  /** In no sequence of calls is a number accepted a second time while it is less than
      50,000 behind the maximum. */
  lemma AcceptedOnce(st: DedupState, calls: seq<nat>, n: nat)
    requires Inv(st) && Accepts(st, n)
    ensures var later := After(Remembered(st, n), calls);
            Accepts(later, n) ==> n + KEEP_RECENT <= later.maxSeen
  {
    PruneForgetsOld(st, n, n);
    StepKeepsInv(st, n);
    StaysKnown(Remembered(st, n), calls, n);
  }

  /** As long as at most 100,000 numbers were ever seen, nothing is forgotten: a number is taken for new exactly once. */
  lemma {:induction false} NothingForgotten(st: DedupState, calls: seq<nat>)
    requires |st.seen| + |calls| <= 100_000
    ensures After(st, calls).seen == st.seen + set n | n in calls
    decreases |calls|
  {
    if calls != [] {
      NothingForgotten(Remembered(st, calls[0]), calls[1..]);
      assert forall n :: n in calls <==> n == calls[0] || n in calls[1..];
    }
  }

  /** When one more would be too many, exactly the numbers less than 50,000 behind the maximum are kept. */
  lemma PruneKeepsRecent(st: DedupState, n: nat, x: nat)
    requires n !in st.seen && |st.seen| >= 100_000
    ensures x in Remembered(st, n).seen <==> (x in st.seen || x == n) && x + 50_000 > Max(st.maxSeen, n) && (Max(st.maxSeen, n) >= 50_000 || x > 0)
    ensures Remembered(st, n).maxSeen == Max(st.maxSeen, n)
  {
    assert |st.seen + {n}| == |st.seen| + 1;
  }

  /** A strictly increasing stream is accepted in full. */
  lemma {:induction false} IncreasingStreamAccepted(st: DedupState, calls: seq<nat>, k: nat)
    requires Inv(st) && k < |calls| && calls[0] > st.maxSeen
    requires forall i, j :: 0 <= i < j < |calls| ==> calls[i] < calls[j]
    ensures Accepts(After(st, calls[..k]), calls[k])
    decreases k
  {
    if k > 0 {
      StepKeepsInv(st, calls[0]);
      assert calls[1..][..k - 1] == calls[..k][1..];
      IncreasingStreamAccepted(Remembered(st, calls[0]), calls[1..], k - 1);
    }
  }

  class EventDeduplicator {
    var seenSeqs: set<nat>
    var maxSeen: nat

    ghost function State(): DedupState
      reads this
    {
      DedupState(seenSeqs, maxSeen)
    }

    constructor FromSeq(start: nat)
      ensures State() == DedupState({}, start)
    {
      seenSeqs, maxSeen := {}, start;
    }

    /** True when the event has to be processed. */
    method Check(seqNo: nat) returns (isNew: bool)
      requires Inv(State())
      modifies this
      ensures isNew <==> Accepts(old(State()), seqNo)
      ensures State() == Remembered(old(State()), seqNo) && Inv(State())
    {
      StepKeepsInv(State(), seqNo);
      if seqNo <= maxSeen {
        if seqNo in seenSeqs {
          return false;
        }
        seenSeqs := seenSeqs + {seqNo};
      }
      seenSeqs := seenSeqs + {seqNo};
      if seqNo > maxSeen {
        maxSeen := seqNo;
      }
      assert seenSeqs == old(seenSeqs) + {seqNo};
      if |seenSeqs| > MAX_ENTRIES {
        var cutoff := SaturatingSub(maxSeen, KEEP_RECENT);
        seenSeqs := set s | s in seenSeqs && s > cutoff;
      }
      return true;
    }
  }
}
