/** The masked ring as an object (crates/atomic-bus/src/ring.rs). Calls made here are not
    interrupted; each is shown to be the four atomic steps of `RingSteps` in a row. */
module SpscRing {
  import opened Types
  import opened Bits
  import opened Ring
  import opened RingSteps

  /** The least k with 2^k >= n. */
  function Log2Up(n: nat): (k: nat)
    ensures n <= Pow2(k) && (k > 0 ==> Pow2(k - 1) < n)
  {
    if n <= 1 then 0
    else
      var k := Log2Up((n + 1) / 2);
      k + 1
  }

  class SpscRing<T> {
    ghost const kind: Kind
    const capacity: nat
    const buffer: array<Option<T>>
    var head: nat
    var tail: nat
    ghost var pushed: seq<T>
    ghost var popped: seq<T>

    ghost function Value(): State<T>
      reads this, buffer
    {
      State(head, tail, buffer[..], Outside, Away, pushed, popped)
    }

    ghost predicate Valid()
      reads this, buffer
    {
      kind.Masked? && capacity == buffer.Length == Pow2(kind.k) && Inv(kind, Value())
    }

    /** The capacity is rounded up to the next power of two. */
    constructor (wanted: nat)
      ensures Valid() && Queue(Value()) == [] && fresh(buffer)
      ensures wanted <= capacity && (capacity > 1 ==> capacity < 2 * wanted)
    {
      var k := Log2Up(wanted);
      kind := Masked(k);
      capacity := Pow2(k);
      buffer := new Option<T>[Pow2(k)](_ => None);
      head, tail := 0, 0;
      pushed, popped := [], [];
    }

    method TryPush(value: T) returns (r: Result<bool, T>)
      requires Valid()
      modifies this, buffer
      ensures Valid() && Value() == WholePush(kind, old(Value()), value)
      ensures r == if |old(Queue(Value()))| < capacity - 1 then Success(true) else Failure(value)
      ensures Queue(Value()) == if r.Success? then old(Queue(Value())) + [value] else old(Queue(Value()))
    {
      ghost var s := Value();
      FullExact(kind, |pushed|, |popped|);
      CodePlaces(kind, |pushed|);
      WholePushKeepsInv(kind, s, value);
      var nextHead := BitAnd(head + 1, capacity - 1);
      if nextHead == tail {
        return Failure(value);
      }
      buffer[head] := Some(value);
      head := nextHead;
      pushed := pushed + [value];
      return Success(true);
    }

    method TryPop() returns (r: Option<T>)
      requires Valid()
      modifies this, buffer
      ensures Valid() && Value() == WholePop(kind, old(Value()))
      ensures r == if old(Queue(Value())) == [] then None else Some(old(Queue(Value()))[0])
      ensures Queue(Value()) == if r.None? then [] else old(Queue(Value()))[1..]
    {
      ghost var s := Value();
      EmptyTest(kind, |pushed|, |popped|);
      CodePlaces(kind, |popped|);
      WholePopKeepsInv(kind, s);
      if tail == head {
        return None;
      }
      r := buffer[tail];
      buffer[tail] := None;
      tail := BitAnd(tail + 1, capacity - 1);
      popped := popped + [r.value];
    }

    method Len() returns (n: nat)
      requires Valid()
      ensures n == |Queue(Value())|
    {
      SizeExact(kind, |pushed|, |popped|);
      n := BitAnd(head + capacity - tail, capacity - 1);
    }
  }

  lemma WholePushKeepsInv<T>(kind: Kind, s: State<T>, value: T)
    requires Inv(kind, s) && s.producer.Outside?
    ensures Inv(kind, WholePush(kind, s, value))
  {
    var s1 := Do(kind, s, LoadHead(value));
    StepKeepsInv(kind, s, LoadHead(value));
    StepKeepsInv(kind, s1, CheckRoom);
    var s2 := Do(kind, s1, CheckRoom);
    StepKeepsInv(kind, s2, WriteSlot);
    StepKeepsInv(kind, Do(kind, s2, WriteSlot), StoreHead);
  }

  lemma WholePopKeepsInv<T>(kind: Kind, s: State<T>)
    requires Inv(kind, s) && s.consumer.Away?
    ensures Inv(kind, WholePop(kind, s))
  {
    var s1 := Do(kind, s, LoadTail);
    StepKeepsInv(kind, s, LoadTail);
    StepKeepsInv(kind, s1, CheckItem);
    var s2 := Do(kind, s1, CheckItem);
    StepKeepsInv(kind, s2, TakeSlot);
    StepKeepsInv(kind, Do(kind, s2, TakeSlot), StoreTail);
  }
}
