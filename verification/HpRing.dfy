/** The free-running ring as an object (cpp/src/ringbuf.cpp), with uninterrupted calls.
    Slots hold plain values from the start and are not cleared when they are read. */
module HpRing {
  import opened Types
  import opened Bits
  import opened Ring
  import opened RingSteps

  /** An uninterrupted push, on the value of the ring. */
  lemma PushKeepsInv<T>(s: State<T>, value: T)
    requires Inv(FreeRunning, s) && s.producer.Outside? && |s.pushed| < |s.popped| + RING_CAPACITY
    ensures BitAnd(s.head, RING_CAPACITY - 1) < |s.slots|
    ensures Inv(FreeRunning, s.(slots := s.slots[BitAnd(s.head, RING_CAPACITY - 1) := Some(value)],
                                head := (s.head + 1) % WORD, pushed := s.pushed + [value]))
  {
    var p := |s.pushed|;
    CodePlaces(FreeRunning, p);
    CodeAdvances(FreeRunning, p);
    forall k | |s.popped| <= k < p ensures Place(FreeRunning, k) != Place(FreeRunning, p) {
      PlacesApart(FreeRunning, k, p);
    }
  }

  /** An uninterrupted pop. */
  lemma PopKeepsInv<T>(s: State<T>)
    requires Inv(FreeRunning, s) && s.consumer.Away? && |s.popped| < |s.pushed| < WORD
    ensures BitAnd(s.tail, RING_CAPACITY - 1) < |s.slots|
    ensures s.slots[BitAnd(s.tail, RING_CAPACITY - 1)] == Some(s.pushed[|s.popped|])
    ensures Inv(FreeRunning, s.(tail := (s.tail + 1) % WORD, popped := s.popped + [s.pushed[|s.popped|]]))
  {
    CodePlaces(FreeRunning, |s.popped|);
    CodeAdvances(FreeRunning, |s.popped|);
  }

  class HpRing<T> {
    const slots: array<T>
    var head: nat
    var tail: nat
    ghost var pushed: seq<T>
    ghost var popped: seq<T>

    ghost function Value(): State<T>
      reads this, slots
    {
      State(head, tail, seq(slots.Length, i requires 0 <= i < slots.Length reads this, slots => Some(slots[i])),
            Outside, Away, pushed, popped)
    }

    ghost predicate Valid()
      reads this, slots
    {
      slots.Length == RING_CAPACITY && Inv(FreeRunning, Value())
    }

    constructor (zero: T)
      ensures Valid() && Queue(Value()) == [] && pushed == [] && fresh(slots)
    {
      slots := new T[RING_CAPACITY](_ => zero);
      head, tail := 0, 0;
      pushed, popped := [], [];
    }

    /** Pushing stays right for ever: the full test survives the wrap of the counters. */
    method Push(value: T) returns (ok: bool)
      requires Valid()
      modifies this, slots
      ensures Valid()
      ensures ok <==> |old(Queue(Value()))| < RING_CAPACITY
      ensures pushed == if ok then old(pushed) + [value] else old(pushed)
      ensures Queue(Value()) == if ok then old(Queue(Value())) + [value] else old(Queue(Value()))
    {
      ghost var s := Value();
      FullExact(FreeRunning, |pushed|, |popped|);
      if (head - tail) % WORD >= RING_CAPACITY {
        return false;
      }
      PushKeepsInv(s, value);
      ghost var i := BitAnd(head, RING_CAPACITY - 1);
      slots[BitAnd(head, RING_CAPACITY - 1)] := value;
      head := (head + 1) % WORD;
      pushed := pushed + [value];
      assert Value().slots == s.slots[i := Some(value)];
      return true;
    }

    /** A pop succeeds exactly if the queue has an element and fewer than 2^32 were ever pushed; if it does
        not succeed it changes nothing. */
    method Pop(zero: T) returns (ok: bool, out: T)
      requires Valid()
      modifies this
      ensures Valid() && pushed == old(pushed)
      ensures ok <==> old(Queue(Value())) != [] && |pushed| < WORD
      ensures ok ==> out == old(Queue(Value()))[0] && Queue(Value()) == old(Queue(Value()))[1..]
      ensures !ok ==> out == zero && Value() == old(Value())
    {
      ghost var s := Value();
      ghost var c := |popped|;
      EmptyTest(FreeRunning, |pushed|, c);
      if tail >= head {
        return false, zero;
      }
      PopKeepsInv(s);
      out := slots[BitAnd(tail, RING_CAPACITY - 1)];
      tail := (tail + 1) % WORD;
      popped := popped + [out];
      assert Value().slots == s.slots;
      assert Value() == s.(tail := tail, popped := popped);
      return true, out;
    }

    method Size() returns (n: nat)
      requires Valid()
      ensures n == |Queue(Value())|
    {
      SizeExact(FreeRunning, |pushed|, |popped|);
      n := (head - tail) % WORD;
    }
  }
}
