/** The rings under every interleaving of their producer's and consumer's atomic steps. */
module RingSteps {
  import opened Types
  import opened Ring
  import Bits

  datatype Producer<+T> =
    | Outside
    | KnowsHead(value: T, head: nat)     // head loaded
    | HasRoom(value: T, head: nat)       // tail loaded, the ring was not full
    | Written(value: T, head: nat)       // slot written, head not yet stored

  datatype Consumer<+T> =
    | Away
    | KnowsTail(tail: nat)               // tail loaded
    | HasItem(tail: nat)                 // head loaded, the ring was not empty
    | Taken(tail: nat, item: Option<T>)  // slot read, tail not yet stored

  /** The shared memory, the two threads, and the history of what went in and came out. */
  datatype State<T> = State(head: nat, tail: nat, slots: seq<Option<T>>, producer: Producer<T>, consumer: Consumer<T>,
                            pushed: seq<T>, popped: seq<T>)

  /** The next atomic step of one of the threads; `value` starts a new push. */
  datatype Turn<T> = LoadHead(value: T) | CheckRoom | WriteSlot | StoreHead | LoadTail | CheckItem | TakeSlot | StoreTail

  function Initial<T>(kind: Kind): State<T> {
    State(0, 0, seq(Slots(kind), _ => None), Outside, Away, [], [])
  }

  /** A turn whose thread is not at that point changes nothing. */
  function Do<T>(kind: Kind, s: State<T>, turn: Turn<T>): State<T> {
    match turn
    case LoadHead(v) =>
      if s.producer.Outside? then s.(producer := KnowsHead(v, s.head)) else s
    case CheckRoom =>
      if !s.producer.KnowsHead? then s
      else if IsFull(kind, s.producer.head, s.tail) then s.(producer := Outside)
      else s.(producer := HasRoom(s.producer.value, s.producer.head))
    case WriteSlot =>
      if !s.producer.HasRoom? || SlotIndex(kind, s.producer.head) >= |s.slots| then s
      else s.(slots := s.slots[SlotIndex(kind, s.producer.head) := Some(s.producer.value)],
              producer := Written(s.producer.value, s.producer.head))
    case StoreHead =>
      if !s.producer.Written? then s
      else s.(head := Advance(kind, s.producer.head), producer := Outside, pushed := s.pushed + [s.producer.value])
    case LoadTail =>
      if s.consumer.Away? then s.(consumer := KnowsTail(s.tail)) else s
    case CheckItem =>
      if !s.consumer.KnowsTail? then s
      else if IsEmpty(kind, s.consumer.tail, s.head) then s.(consumer := Away)
      else s.(consumer := HasItem(s.consumer.tail))
    case TakeSlot =>
      if !s.consumer.HasItem? || SlotIndex(kind, s.consumer.tail) >= |s.slots| then s
      else
        var i := SlotIndex(kind, s.consumer.tail);
        s.(slots := if kind.Masked? then s.slots[i := None] else s.slots, consumer := Taken(s.consumer.tail, s.slots[i]))
    case StoreTail =>
      if !s.consumer.Taken? then s
      else s.(tail := Advance(kind, s.consumer.tail), consumer := Away,
              popped := if s.consumer.item.Some? then s.popped + [s.consumer.item.value] else s.popped)
  }

  function DoAll<T>(kind: Kind, s: State<T>, turns: seq<Turn<T>>): State<T> {
    if turns == [] then s else Do(kind, DoAll(kind, s, turns[..|turns| - 1]), turns[|turns| - 1])
  }

  // ---- The invariant ----

  ghost predicate ProducerInv<T>(kind: Kind, s: State<T>)
    requires |s.slots| == Slots(kind)
  {
    match s.producer
    case Outside => true
    case KnowsHead(_, h) => h == s.head
    case HasRoom(_, h) => h == s.head && |s.pushed| < |s.popped| + Usable(kind)
    case Written(v, h) =>
      h == s.head && |s.pushed| < |s.popped| + Usable(kind) && s.slots[Place(kind, |s.pushed|)] == Some(v)
  }

  ghost predicate ConsumerInv<T>(kind: Kind, s: State<T>) {
    match s.consumer
    case Away => true
    case KnowsTail(t) => t == s.tail
    case HasItem(t) => t == s.tail && |s.popped| < |s.pushed|
    case Taken(t, item) => t == s.tail && |s.popped| < |s.pushed| && item == Some(s.pushed[|s.popped|])
  }

  ghost predicate SlotsInv<T>(kind: Kind, s: State<T>)
    requires |s.slots| == Slots(kind)
  {
    forall k :: |s.popped| <= k < |s.pushed| && !(k == |s.popped| && s.consumer.Taken?)
                ==> s.slots[Place(kind, k)] == Some(s.pushed[k])
  }

  ghost predicate Inv<T>(kind: Kind, s: State<T>) {
    && |s.slots| == Slots(kind)
    && s.popped <= s.pushed
    && |s.pushed| <= |s.popped| + Usable(kind)
    && s.head == Code(kind, |s.pushed|) && s.tail == Code(kind, |s.popped|)
    && ProducerInv(kind, s) && ConsumerInv(kind, s) && SlotsInv(kind, s)
    && LapInv(kind, s)
  }

  /** The consumer of the free-running ring never gets to the 2^32nd element. */
  predicate LapInv<T>(kind: Kind, s: State<T>) {
    InLap(kind, |s.popped|) && (s.consumer.HasItem? || s.consumer.Taken? ==> InLap(kind, |s.popped| + 1))
  }

  lemma PlacesApart(kind: Kind, i: nat, j: nat)
    requires i < j < i + Slots(kind)
    ensures Place(kind, i) != Place(kind, j)
  {
    Bits.ModApart(i, j, Slots(kind));
  }

  lemma WriteKeepsInv<T>(kind: Kind, s: State<T>)
    requires Inv(kind, s) && s.producer.HasRoom?
    ensures Inv(kind, Do(kind, s, WriteSlot)) && Do(kind, s, WriteSlot).producer.Written?
  {
    CodePlaces(kind, |s.pushed|);
    forall k | |s.popped| <= k < |s.pushed| ensures Place(kind, k) != Place(kind, |s.pushed|) {
      PlacesApart(kind, k, |s.pushed|);
    }
  }

  lemma TakeKeepsInv<T>(kind: Kind, s: State<T>)
    requires Inv(kind, s) && s.consumer.HasItem?
    ensures Inv(kind, Do(kind, s, TakeSlot)) && Do(kind, s, TakeSlot).consumer.Taken?
  {
    CodePlaces(kind, |s.popped|);
    forall k | |s.popped| < k <= |s.pushed| && k < |s.popped| + Slots(kind) ensures Place(kind, k) != Place(kind, |s.popped|) {
      PlacesApart(kind, |s.popped|, k);
    }
  }

  predicate IsProducers<T>(turn: Turn<T>) {
    turn.LoadHead? || turn.CheckRoom? || turn.WriteSlot? || turn.StoreHead?
  }

  lemma ProducerKeepsInv<T>(kind: Kind, s: State<T>, turn: Turn<T>)
    requires Inv(kind, s) && IsProducers(turn)
    ensures Inv(kind, Do(kind, s, turn))
  {
    match turn
    case LoadHead(_) =>
    case CheckRoom =>
      FullExact(kind, |s.pushed|, |s.popped|);
    case WriteSlot =>
      if s.producer.HasRoom? { WriteKeepsInv(kind, s); }
    case StoreHead =>
      CodeAdvances(kind, |s.pushed|);
  }

  lemma ConsumerKeepsInv<T>(kind: Kind, s: State<T>, turn: Turn<T>)
    requires Inv(kind, s) && !IsProducers(turn)
    ensures Inv(kind, Do(kind, s, turn))
  {
    match turn
    case LoadTail =>
    case CheckItem =>
      EmptyTest(kind, |s.pushed|, |s.popped|);
    case TakeSlot =>
      if s.consumer.HasItem? { TakeKeepsInv(kind, s); }
    case StoreTail =>
      CodeAdvances(kind, |s.popped|);
  }

  lemma StepKeepsInv<T>(kind: Kind, s: State<T>, turn: Turn<T>)
    requires Inv(kind, s)
    ensures Inv(kind, Do(kind, s, turn))
  {
    if IsProducers(turn) {
      ProducerKeepsInv(kind, s, turn);
    } else {
      ConsumerKeepsInv(kind, s, turn);
    }
  }

  // ---- Every run ----

  lemma {:induction false} RunKeepsInv<T>(kind: Kind, turns: seq<Turn<T>>)
    ensures Inv(kind, DoAll(kind, Initial(kind), turns))
    decreases |turns|
  {
    if turns != [] {
      RunKeepsInv(kind, turns[..|turns| - 1]);
      StepKeepsInv(kind, DoAll(kind, Initial(kind), turns[..|turns| - 1]), turns[|turns| - 1]);
    }
  }

  /** In every interleaving the values come out in the order they went in, the ring never holds
      more than fits, a pop never finds an empty slot, and the two threads never touch the same
      slot. But the free-running ring never delivers its 2^32nd element. */
  lemma RunsAreSafe<T>(kind: Kind, turns: seq<Turn<T>>)
    ensures var s := DoAll(kind, Initial(kind), turns);
            && s.popped <= s.pushed
            && |s.pushed| - |s.popped| <= Usable(kind)
            && (s.consumer.Taken? ==> s.consumer.item.Some?)
            && (s.producer.HasRoom? && s.consumer.HasItem?
                ==> SlotIndex(kind, s.producer.head) != SlotIndex(kind, s.consumer.tail))
            && (kind.FreeRunning? ==> |s.popped| < WORD)
  {
    RunKeepsInv(kind, turns);
    var s := DoAll(kind, Initial(kind), turns);
    if s.producer.HasRoom? && s.consumer.HasItem? {
      CodePlaces(kind, |s.pushed|);
      CodePlaces(kind, |s.popped|);
      PlacesApart(kind, |s.popped|, |s.pushed|);
    }
  }

  /** 2^32 elements were pushed into the free-running ring, and no pop is past its empty test. */
  ghost predicate Wrapped<T>(s: State<T>) {
    Inv(FreeRunning, s) && |s.pushed| >= WORD && (s.consumer.Away? || s.consumer.KnowsTail?)
  }

  lemma WrappedStays<T>(s: State<T>, turn: Turn<T>)
    requires Wrapped(s)
    ensures Wrapped(Do(FreeRunning, s, turn)) && Do(FreeRunning, s, turn).popped == s.popped
  {
    StepKeepsInv(FreeRunning, s, turn);
    if turn.CheckItem? {
      EmptyTest(FreeRunning, |s.pushed|, |s.popped|);
    }
  }

  /** From then on no pop ever succeeds again, whatever the two threads do. */
  lemma {:induction false} PopsStopAfterWrap<T>(s: State<T>, turns: seq<Turn<T>>)
    requires Wrapped(s)
    ensures Wrapped(DoAll(FreeRunning, s, turns)) && DoAll(FreeRunning, s, turns).popped == s.popped
    decreases |turns|
  {
    if turns != [] {
      PopsStopAfterWrap(s, turns[..|turns| - 1]);
      WrappedStays(DoAll(FreeRunning, s, turns[..|turns| - 1]), turns[|turns| - 1]);
    }
  }

  // ---- Refinement of a bounded queue ----

  function Queue<T>(s: State<T>): seq<T>
    requires |s.popped| <= |s.pushed|
  {
    s.pushed[|s.popped|..]
  }

  /** What a step means to somebody who sees only the queue. */
  datatype Observed<T> = Silent | Accepts(value: T) | Refuses | Yields(item: T) | FindsNothing

  function Observe<T>(kind: Kind, s: State<T>, turn: Turn<T>): Observed<T> {
    if turn.CheckRoom? && s.producer.KnowsHead? && IsFull(kind, s.producer.head, s.tail) then Refuses
    else if turn.StoreHead? && s.producer.Written? then Accepts(s.producer.value)
    else if turn.CheckItem? && s.consumer.KnowsTail? && IsEmpty(kind, s.consumer.tail, s.head) then FindsNothing
    else if turn.StoreTail? && s.consumer.Taken? && s.consumer.item.Some? then Yields(s.consumer.item.value)
    else Silent
  }

  /** One step of a first-in first-out queue that holds at most `capacity` elements. */
  ghost predicate QueueStep<T>(capacity: nat, q: seq<T>, seen: Observed<T>, q': seq<T>) {
    match seen
    case Silent => q' == q
    case Accepts(v) => |q| < capacity && q' == q + [v]
    case Refuses => |q| == capacity && q' == q
    case Yields(v) => q != [] && v == q[0] && q' == q[1..]
    case FindsNothing => q == [] && q' == q
  }

  /** The two tests tell what the queue is like, but for the empty test of a wrapped free-running ring. */
  lemma TestsAreExact<T>(kind: Kind, s: State<T>)
    requires Inv(kind, s)
    ensures Observe(kind, s, CheckRoom) == Refuses <==> s.producer.KnowsHead? && |Queue(s)| == Usable(kind)
    ensures Observe(kind, s, CheckItem) == FindsNothing
            <==> s.consumer.KnowsTail? && (Queue(s) == [] || !InLap(kind, |s.pushed|))
  {
    FullExact(kind, |s.pushed|, |s.popped|);
    EmptyTest(kind, |s.pushed|, |s.popped|);
  }

  /** Every atomic step of either ring is one step of the queue, taken at that very moment: a push is
      refused only while the queue is full, a pop comes back empty only while it is empty. The one
      exception is a pop of the free-running ring that comes back empty after 2^32 pushes. */
  lemma StepRefinesQueue<T>(kind: Kind, s: State<T>, turn: Turn<T>)
    requires Inv(kind, s)
    ensures var s' := Do(kind, s, turn);
            && |s'.popped| <= |s'.pushed|
            && (QueueStep(Usable(kind), Queue(s), Observe(kind, s, turn), Queue(s'))
                <==> InLap(kind, |s.pushed|) || Observe(kind, s, turn) != FindsNothing)
  {
    StepKeepsInv(kind, s, turn);
    TestsAreExact(kind, s);
  }

  /** A call that nobody interrupts. */
  function WholePush<T>(kind: Kind, s: State<T>, value: T): State<T> {
    Do(kind, Do(kind, Do(kind, Do(kind, s, LoadHead(value)), CheckRoom), WriteSlot), StoreHead)
  }

  function WholePop<T>(kind: Kind, s: State<T>): State<T> {
    Do(kind, Do(kind, Do(kind, Do(kind, s, LoadTail), CheckItem), TakeSlot), StoreTail)
  }

  // ---- A run that gets there ----

  lemma {:induction false} DoAllConcat<T>(kind: Kind, s: State<T>, a: seq<Turn<T>>, b: seq<Turn<T>>)
    ensures DoAll(kind, s, a + b) == DoAll(kind, DoAll(kind, s, a), b)
    decreases |b|
  {
    if b == [] {
      assert a + b == a;
    } else {
      assert (a + b)[..|a + b| - 1] == a + b[..|b| - 1];
      DoAllConcat(kind, s, a, b[..|b| - 1]);
    }
  }

  lemma FourTurns<T>(kind: Kind, s: State<T>, a: Turn<T>, b: Turn<T>, c: Turn<T>, d: Turn<T>)
    ensures DoAll(kind, s, [a, b, c, d]) == Do(kind, Do(kind, Do(kind, Do(kind, s, a), b), c), d)
  {
    assert [a, b, c, d][..3] == [a, b, c] && [a, b, c][..2] == [a, b] && [a, b][..1] == [a] && [a][..0] == [];
    assert DoAll(kind, s, [a]) == Do(kind, s, a);
    assert DoAll(kind, s, [a, b]) == Do(kind, Do(kind, s, a), b);
    assert DoAll(kind, s, [a, b, c]) == Do(kind, Do(kind, Do(kind, s, a), b), c);
  }

  ghost predicate Idle<T>(s: State<T>) { s.producer.Outside? && s.consumer.Away? }

  lemma PushAlone<T>(s: State<T>, v: T)
    requires Inv(FreeRunning, s) && Idle(s) && |Queue(s)| < RING_CAPACITY
    ensures var t := WholePush(FreeRunning, s, v);
            Inv(FreeRunning, t) && Idle(t) && t.pushed == s.pushed + [v] && t.popped == s.popped
  {
    var s1 := Do(FreeRunning, s, LoadHead(v));
    StepKeepsInv(FreeRunning, s, LoadHead(v));
    TestsAreExact(FreeRunning, s1);
    StepKeepsInv(FreeRunning, s1, CheckRoom);
    var s2 := Do(FreeRunning, s1, CheckRoom);
    WriteKeepsInv(FreeRunning, s2);
    StepKeepsInv(FreeRunning, Do(FreeRunning, s2, WriteSlot), StoreHead);
  }

  /** Once past the empty test, a pop takes the oldest element. */
  lemma PopCompletes<T>(kind: Kind, s: State<T>)
    requires Inv(kind, s) && s.consumer.HasItem?
    ensures var t := Do(kind, Do(kind, s, TakeSlot), StoreTail);
            Inv(kind, t) && t.consumer.Away? && t.producer == s.producer
            && t.pushed == s.pushed && Queue(s) != [] && t.popped == s.popped + [Queue(s)[0]]
  {
    TakeKeepsInv(kind, s);
    StepKeepsInv(kind, Do(kind, s, TakeSlot), StoreTail);
  }

  lemma PopAlone<T>(s: State<T>)
    requires Inv(FreeRunning, s) && Idle(s) && Queue(s) != [] && |s.pushed| < WORD
    ensures var t := WholePop(FreeRunning, s);
            Inv(FreeRunning, t) && Idle(t) && t.pushed == s.pushed && t.popped == s.popped + [Queue(s)[0]]
  {
    var s1 := Do(FreeRunning, s, LoadTail);
    StepKeepsInv(FreeRunning, s, LoadTail);
    TestsAreExact(FreeRunning, s1);
    StepKeepsInv(FreeRunning, s1, CheckItem);
    PopCompletes(FreeRunning, Do(FreeRunning, s1, CheckItem));
  }

  lemma RoundTrip<T>(s: State<T>, v: T) returns (turns: seq<Turn<T>>)
    requires Inv(FreeRunning, s) && Idle(s) && Queue(s) == [] && |s.pushed| + 1 < WORD
    ensures var t := DoAll(FreeRunning, s, turns);
            Inv(FreeRunning, t) && Idle(t) && Queue(t) == [] && |t.pushed| == |s.pushed| + 1
  {
    var push, pop := [LoadHead(v), CheckRoom, WriteSlot, StoreHead], [LoadTail, CheckItem, TakeSlot, StoreTail];
    turns := push + pop;
    DoAllConcat(FreeRunning, s, push, pop);
    FourTurns(FreeRunning, s, LoadHead(v), CheckRoom, WriteSlot, StoreHead);
    PushAlone(s, v);
    var t := WholePush(FreeRunning, s, v);
    FourTurns(FreeRunning, t, LoadTail, CheckItem, TakeSlot, StoreTail);
    PopAlone(t);
  }

  /** n elements go through the ring one after the other. */
  lemma RunThrough<T>(v: T, n: nat) returns (turns: seq<Turn<T>>)
    requires n < WORD
    ensures var s := DoAll(FreeRunning, Initial(FreeRunning), turns);
            Inv(FreeRunning, s) && Idle(s) && Queue(s) == [] && |s.pushed| == n
    decreases n
  {
    turns := [];
    if n > 0 {
      turns := RunThrough(v, n - 1);
      var more := RoundTrip(DoAll(FreeRunning, Initial(FreeRunning), turns), v);
      DoAllConcat(FreeRunning, Initial(FreeRunning), turns, more);
      turns := turns + more;
    }
  }

  /** After that many round trips comes one push more, and the pop that follows is told the ring is empty while the
      element is in it; by `PopsStopAfterWrap` it stays there. */
  lemma ElementLost<T>(v: T) returns (turns: seq<Turn<T>>)
    ensures var s := DoAll(FreeRunning, Initial(FreeRunning), turns);
            && Wrapped(s) && Queue(s) == [v]
            && s.consumer.KnowsTail? && Observe(FreeRunning, s, CheckItem) == FindsNothing
  {
    turns := RunThrough(v, WORD - 1);
    var s := DoAll(FreeRunning, Initial(FreeRunning), turns);
    PushAlone(s, v);
    var t := WholePush(FreeRunning, s, v);
    FourTurns(FreeRunning, s, LoadHead(v), CheckRoom, WriteSlot, StoreHead);
    var push := [LoadHead(v), CheckRoom, WriteSlot, StoreHead];
    DoAllConcat(FreeRunning, Initial(FreeRunning), turns, push);
    StepKeepsInv(FreeRunning, t, LoadTail);
    TestsAreExact(FreeRunning, Do(FreeRunning, t, LoadTail));
    DoAllConcat(FreeRunning, Initial(FreeRunning), turns + push, [LoadTail]);
    var load: seq<Turn<T>> := [LoadTail];
    assert load[..0] == [];
    turns := turns + push + [LoadTail];
  }
}
