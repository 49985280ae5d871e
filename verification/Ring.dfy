/** The two single-producer single-consumer rings, the masked one of
    crates/atomic-bus/src/ring.rs and the free-running one of cpp/src/ringbuf.cpp, as one
    state machine over their atomic steps: every load, slot access and store of either
    thread is a step of its own, and any interleaving may happen. */
module Ring {
  import opened Types
  import opened Bits

  /** Masked(k) keeps its indices below 2^k; FreeRunning counts in 32 bits over 4096 slots. */
  datatype Kind = Masked(k: nat) | FreeRunning

  const WORD: nat := 0x1_0000_0000
  const RING_CAPACITY: nat := 4096

  function Slots(kind: Kind): nat { if kind.Masked? then Pow2(kind.k) else RING_CAPACITY }

  /** How many elements fit; the masked ring keeps one slot free. */
  function Usable(kind: Kind): nat { if kind.Masked? then Pow2(kind.k) - 1 else RING_CAPACITY }

  // ---- The index arithmetic as the two programs write it ----

  function Advance(kind: Kind, x: nat): nat {
    if kind.Masked? then BitAnd(x + 1, Pow2(kind.k) - 1) else (x + 1) % WORD
  }

  function SlotIndex(kind: Kind, x: nat): nat {
    if kind.Masked? then x else BitAnd(x, RING_CAPACITY - 1)
  }

  /** Subtraction of 32-bit unsigned integers. */
  function WrappingSub(a: nat, b: nat): nat { (a - b) % WORD }

  predicate IsFull(kind: Kind, head: nat, tail: nat) {
    if kind.Masked? then Advance(kind, head) == tail else WrappingSub(head, tail) >= RING_CAPACITY
  }

  predicate IsEmpty(kind: Kind, tail: nat, head: nat) {
    if kind.Masked? then tail == head else tail >= head
  }

  function Size(kind: Kind, head: nat, tail: nat): nat {
    if kind.Masked? && tail <= head + Pow2(kind.k) then BitAnd(head + Pow2(kind.k) - tail, Pow2(kind.k) - 1)
    else WrappingSub(head, tail)
  }

  // ---- The same arithmetic against counters that never wrap ----

  /** What a counter looks like in memory after it has been advanced i times. */
  function Code(kind: Kind, i: nat): nat {
    if kind.Masked? then i % Pow2(kind.k) else i % WORD
  }

  function Place(kind: Kind, i: nat): (p: nat)
    ensures p < Slots(kind)
  {
    i % Slots(kind)
  }

  lemma RingCapacityIsPow2()
    ensures Pow2(12) == RING_CAPACITY && Pow2(20) * RING_CAPACITY == WORD
  {
    assert Pow2(4) == 16 && Pow2(8) == 256;
    assert Pow2(12) == 4096 && Pow2(16) == 65536;
  }

  lemma CodeAdvances(kind: Kind, i: nat)
    ensures Advance(kind, Code(kind, i)) == Code(kind, i + 1)
  {
    if kind.Masked? {
      MaskIsMod(Code(kind, i) + 1, kind.k);
      ModNext(i, Pow2(kind.k));
    } else {
      ModNext(i, WORD);
    }
  }

  lemma CodePlaces(kind: Kind, i: nat)
    ensures SlotIndex(kind, Code(kind, i)) == Place(kind, i)
  {
    if kind.FreeRunning? {
      RingCapacityIsPow2();
      MaskIsMod(i % WORD, 12);
      var q, r := i / WORD, i % WORD;
      var p, t := r / RING_CAPACITY, r % RING_CAPACITY;
      assert i == q * WORD + p * RING_CAPACITY + t;
      assert i == (q * 0x10_0000 + p) * RING_CAPACITY + t;
      ModUnique(i, RING_CAPACITY, q * 0x10_0000 + p, t);
    }
  }

  /** The full test is exact, also after the counters have wrapped. */
  lemma FullExact(kind: Kind, pushed: nat, popped: nat)
    requires popped <= pushed <= popped + Usable(kind)
    ensures IsFull(kind, Code(kind, pushed), Code(kind, popped)) <==> pushed - popped == Usable(kind)
  {
    if kind.Masked? {
      var n := Pow2(kind.k);
      CodeAdvances(kind, pushed);
      if pushed + 1 == popped + n {
        assert (popped + n) % n == popped % n by {
          assert popped == popped / n * n + popped % n;
          assert (popped / n + 1) * n == popped / n * n + n;
          ModUnique(popped + n, n, popped / n + 1, popped % n);
        }
      } else {
        ModApart(popped, pushed + 1, n);
      }
    } else {
      WrappedDistance(pushed, popped);
    }
  }

  lemma WrappedDistance(pushed: nat, popped: nat)
    requires popped <= pushed < popped + WORD
    ensures WrappingSub(pushed % WORD, popped % WORD) == pushed - popped
  {
  }

  predicate SameLapOfWord(pushed: nat, popped: nat) { pushed / WORD == popped / WORD }

  /** The empty test of the free-running ring compares wrapped counters as numbers: it is
      right exactly when both counters are in the same lap of 2^32. */
  lemma FreeEmptyTestExact(pushed: nat, popped: nat)
    requires popped <= pushed <= popped + RING_CAPACITY
    ensures (IsEmpty(FreeRunning, Code(FreeRunning, popped), Code(FreeRunning, pushed)) <==> pushed == popped)
            <==> SameLapOfWord(pushed, popped)
  {
  }

  /** A concrete lap: one element is in the ring, and the consumer is told there is none. */
  lemma FreeEmptyTestFails()
    ensures var (pushed, popped) := (WORD, WORD - 1);
            pushed - popped == 1 && IsEmpty(FreeRunning, Code(FreeRunning, popped), Code(FreeRunning, pushed))
  {
  }

  /** The number of pushes up to which the empty test of this kind of ring can be relied on. */
  predicate InLap(kind: Kind, pushed: nat) { kind.FreeRunning? ==> pushed < WORD }

  /** As long as fewer than 2^32 elements were popped, the test is right before the 2^32nd push and
      says empty ever after. */
  lemma EmptyTest(kind: Kind, pushed: nat, popped: nat)
    requires popped <= pushed <= popped + Usable(kind) && InLap(kind, popped)
    ensures IsEmpty(kind, Code(kind, popped), Code(kind, pushed)) <==> pushed == popped || !InLap(kind, pushed)
  {
    if kind.Masked? && popped < pushed {
      ModApart(popped, pushed, Pow2(kind.k));
    }
  }

  lemma SizeExact(kind: Kind, pushed: nat, popped: nat)
    requires popped <= pushed <= popped + Usable(kind)
    ensures Size(kind, Code(kind, pushed), Code(kind, popped)) == pushed - popped
  {
    if kind.Masked? {
      var n := Pow2(kind.k);
      MaskIsMod(Code(kind, pushed) + n - Code(kind, popped), kind.k);
      ModDistance(popped, pushed, n);
    } else {
      WrappedDistance(pushed, popped);
    }
  }
}
