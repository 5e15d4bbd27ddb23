/**
The fixed-capacity ring of src/common/spsc_ring.hpp: the class as one thread
sees it, and the same operations taken apart into the atomic steps of one
producer and one consumer.
 */
module SpscRing {
  import opened Wrappers

  function Increment(index: nat, storageSize: nat): nat {
    if index + 1 == storageSize then 0 else index + 1
  }

  function Distance(head: nat, tail: nat, storageSize: nat): int {
    if head >= tail then head - tail else storageSize - (tail - head)
  }

  // The slot `steps` places behind `index`.
  ghost function Wrap(index: nat, steps: nat, storageSize: nat): (slot: nat)
    requires index < storageSize && steps < storageSize
    ensures slot < storageSize
  {
    if index + steps < storageSize then index + steps else index + steps - storageSize
  }

  // The items between tail and head, oldest first.
  ghost function Held<T>(slots: seq<T>, head: nat, tail: nat): (items: seq<T>)
    requires head < |slots| && tail < |slots|
    ensures |items| < |slots| && head == Wrap(tail, |items|, |slots|)
  {
    seq(Distance(head, tail, |slots|), i requires 0 <= i < Distance(head, tail, |slots|) =>
      slots[Wrap(tail, i, |slots|)])
  }

  // Writing the free slot at head and then moving head appends the item.
  lemma HeldAfterPush<T>(slots: seq<T>, head: nat, tail: nat, value: T)
    requires head < |slots| && tail < |slots| && Increment(head, |slots|) != tail
    ensures Held(slots[head := value], head, tail) == Held(slots, head, tail)
    ensures Held(slots[head := value], Increment(head, |slots|), tail) == Held(slots, head, tail) + [value]
  {
  }

  lemma HeldAfterPop<T>(slots: seq<T>, head: nat, tail: nat)
    requires head < |slots| && tail < |slots| && head != tail
    ensures Held(slots, head, tail) != [] && Held(slots, head, tail)[0] == slots[tail]
    ensures Held(slots, head, Increment(tail, |slots|)) == Held(slots, head, tail)[1..]
  {
  }

  // ---------------------------------------------------------------- the class

  class Ring<T(0)> {
    const capacity: nat
    const storage: array<T>
    var head: nat
    var tail: nat

    ghost predicate Valid()
      reads this
    {
      0 < capacity && storage.Length == capacity + 1 && head <= capacity && tail <= capacity
    }

    ghost function Contents(): (items: seq<T>)
      requires Valid()
      reads this, storage
    {
      Held(storage[..], head, tail)
    }

    constructor (capacity: nat)
      requires 0 < capacity
      ensures Valid() && fresh(storage) && this.capacity == capacity && Contents() == []
    {
      this.capacity := capacity;
      storage := new T[capacity + 1];
      head, tail := 0, 0;
    }

    method Push(value: T) returns (ok: bool)
      requires Valid()
      modifies this`head, storage
      ensures Valid()
      ensures ok <==> |old(Contents())| < capacity
      ensures Contents() == if ok then old(Contents()) + [value] else old(Contents())
    {
      var next := Increment(head, capacity + 1);
      if next == tail { return false; }
      HeldAfterPush(storage[..], head, tail, value);
      storage[head] := value;
      head := next;
      ok := true;
    }

    method Pop() returns (item: Option<T>)
      requires Valid()
      modifies this`tail
      ensures Valid()
      ensures old(Contents()) == [] ==> item.None? && Contents() == []
      ensures old(Contents()) != [] ==> item == Some(old(Contents())[0]) && Contents() == old(Contents())[1..]
    {
      if tail == head { return None; }
      HeldAfterPop(storage[..], head, tail);
      item := Some(storage[tail]);
      tail := Increment(tail, capacity + 1);
    }

    method ApproximateSize() returns (n: int)
      requires Valid()
      ensures n == |Contents()|
    {
      var h := head;
      var t := tail;
      n := Distance(h, t, capacity + 1);
    }
  }

  // ---------------------------------------------------------------- one producer, one consumer

  datatype Producer<T> =
    | Ready
    | HeadLoaded(value: T, head: nat)       // about to look at tail
    | Writing(value: T, head: nat)          // about to fill storage[head]
    | Written(value: T, head: nat)          // about to publish the new head

  datatype Consumer<T> =
    | Idle
    | TailLoaded(tail: nat)
    | Reading(tail: nat)
    | Taken(tail: nat, value: T)

  // `pushed` and `popped` record the values whose push or pop has completed.
  datatype State<T> = State(
    slots: seq<T>, head: nat, tail: nat, producer: Producer<T>, consumer: Consumer<T>,
    pushed: seq<T>, popped: seq<T>)

  datatype Event<T> =
    | BeginPush(value: T) | LookAtTail | Write | PublishHead
    | BeginPop | LookAtHead | Read | PublishTail

  ghost predicate Enabled<T>(s: State<T>, e: Event<T>) {
    match e
    case BeginPush(_) => s.producer.Ready?
    case LookAtTail => s.producer.HeadLoaded?
    case Write => s.producer.Writing? && s.producer.head < |s.slots|
    case PublishHead => s.producer.Written? && s.producer.head < |s.slots|
    case BeginPop => s.consumer.Idle?
    case LookAtHead => s.consumer.TailLoaded?
    case Read => s.consumer.Reading? && s.consumer.tail < |s.slots|
    case PublishTail => s.consumer.Taken? && s.consumer.tail < |s.slots|
  }

  ghost function Apply<T>(s: State<T>, e: Event<T>): State<T>
    requires Enabled(s, e)
  {
    match e
    case BeginPush(value) => s.(producer := HeadLoaded(value, s.head))
    case LookAtTail =>
      s.(producer := if Increment(s.producer.head, |s.slots|) == s.tail then Ready
                     else Writing(s.producer.value, s.producer.head))
    case Write =>
      s.(slots := s.slots[s.producer.head := s.producer.value], producer := Written(s.producer.value, s.producer.head))
    case PublishHead =>
      s.(head := Increment(s.producer.head, |s.slots|), pushed := s.pushed + [s.producer.value],
         producer := Ready)
    case BeginPop => s.(consumer := TailLoaded(s.tail))
    case LookAtHead => s.(consumer := if s.consumer.tail == s.head then Idle else Reading(s.consumer.tail))
    case Read => s.(consumer := Taken(s.consumer.tail, s.slots[s.consumer.tail]))
    case PublishTail =>
      s.(tail := Increment(s.consumer.tail, |s.slots|), popped := s.popped + [s.consumer.value], consumer := Idle)
  }

  ghost predicate Runs<T>(s: State<T>, es: seq<Event<T>>)
    decreases |es|
  {
    es == [] || (Enabled(s, es[0]) && Runs(Apply(s, es[0]), es[1..]))
  }

  ghost function End<T>(s: State<T>, es: seq<Event<T>>): State<T>
    requires Runs(s, es)
    decreases |es|
  {
    if es == [] then s else End(Apply(s, es[0]), es[1..])
  }

  ghost predicate Init<T>(s: State<T>, capacity: nat) {
    && 0 < capacity && |s.slots| == capacity + 1 && s.head == s.tail == 0
    && s.producer.Ready? && s.consumer.Idle? && s.pushed == s.popped == []
  }

  // ---------------------------------------------------------------- the invariant

  ghost predicate Bounds<T>(s: State<T>, capacity: nat) {
    && |s.slots| == capacity + 1 && s.head <= capacity && s.tail <= capacity
    && |s.popped| <= |s.pushed|
    && (!s.producer.Ready? ==> s.producer.head == s.head)
    && (!s.consumer.Idle? ==> s.consumer.tail == s.tail)
  }

  // The ring holds exactly what was pushed and not popped yet.
  ghost predicate Inv<T>(s: State<T>, capacity: nat) {
    && 0 < capacity && Bounds(s, capacity)
    && s.popped == s.pushed[..|s.popped|]
    && Held(s.slots, s.head, s.tail) == s.pushed[|s.popped|..]
    && (s.producer.Writing? || s.producer.Written? ==> Increment(s.head, |s.slots|) != s.tail)
    && (s.producer.Written? ==> s.slots[s.head] == s.producer.value)
    && (s.consumer.Reading? || s.consumer.Taken? ==> s.head != s.tail)
    && (s.consumer.Taken? ==> s.consumer.value == s.slots[s.tail])
  }

  lemma InvStep<T>(s: State<T>, e: Event<T>, capacity: nat)
    requires Inv(s, capacity) && Enabled(s, e)
    ensures Inv(Apply(s, e), capacity)
  {
    hide Held;
    match e
    case BeginPush(_) | LookAtTail | BeginPop | LookAtHead | Read =>
    case Write =>
      HeldAfterPush(s.slots, s.head, s.tail, s.producer.value);
    case PublishHead =>
      HeldAfterPush(s.slots, s.head, s.tail, s.producer.value);
      assert s.slots[s.head := s.producer.value] == s.slots;
    case PublishTail =>
      HeldAfterPop(s.slots, s.head, s.tail);
      assert s.pushed[|s.popped|..][0] == s.pushed[|s.popped|];
  }

  lemma {:induction false} InvRun<T>(s: State<T>, es: seq<Event<T>>, capacity: nat)
    requires Inv(s, capacity) && Runs(s, es)
    ensures Inv(End(s, es), capacity)
    decreases |es|
  {
    hide Inv, Enabled, Apply;
    if es != [] {
      InvStep(s, es[0], capacity);
      InvRun(Apply(s, es[0]), es[1..], capacity);
    }
  }

  // ---------------------------------------------------------------- what every run keeps

  lemma InvInit<T>(s: State<T>, capacity: nat)
    requires Init(s, capacity)
    ensures Inv(s, capacity)
  {
    assert Held(s.slots, 0, 0) == [];
  }

  // Whatever the interleaving, pops return the pushed values in order, and the
  // ring holds exactly the rest, at most `capacity` of them.
  lemma PopsAreAPrefixOfPushes<T>(s: State<T>, es: seq<Event<T>>, capacity: nat)
    requires Init(s, capacity) && Runs(s, es)
    ensures var t := End(s, es);
            && t.popped <= t.pushed && |t.pushed| <= |t.popped| + capacity
            && Bounds(t, capacity) && t.pushed == t.popped + Held(t.slots, t.head, t.tail)
  {
    hide Runs, Held;
    InvInit(s, capacity);
    InvRun(s, es, capacity);
    var t := End(s, es);
    assert t.pushed == t.pushed[..|t.popped|] + t.pushed[|t.popped|..];
  }

  // The slot being filled is never the slot being read.
  lemma NoSlotReadWhileWritten<T>(s: State<T>, es: seq<Event<T>>, capacity: nat)
    requires Init(s, capacity) && Runs(s, es)
    ensures var t := End(s, es);
            (t.producer.Writing? || t.producer.Written?) && (t.consumer.Reading? || t.consumer.Taken?)
            ==> t.producer.head != t.consumer.tail
  {
    hide Runs, Held;
    InvInit(s, capacity);
    InvRun(s, es, capacity);
  }

  // A push is refused exactly when `capacity` items are held at the look at
  // tail, and a pop exactly when none is held at the look at head.
  lemma RefusedExactlyWhenFullOrEmpty<T>(s: State<T>, es: seq<Event<T>>, capacity: nat)
    requires Init(s, capacity) && Runs(s, es)
    ensures var t := End(s, es);
            Enabled(t, LookAtTail) ==>
              (Apply(t, LookAtTail).producer.Ready? <==> |t.pushed| == |t.popped| + capacity)
    ensures var t := End(s, es);
            Enabled(t, LookAtHead) ==>
              (Apply(t, LookAtHead).consumer.Idle? <==> t.pushed == t.popped)
  {
    hide Runs;
    InvInit(s, capacity);
    InvRun(s, es, capacity);
    var t := End(s, es);
    assert |Held(t.slots, t.head, t.tail)| == |t.pushed| - |t.popped|;
    if t.pushed == t.popped { assert t.head == t.tail; }
    if t.head == t.tail { assert t.pushed == t.pushed[..|t.popped|]; }
  }

  // approximate_size loads head, then tail, while both sides go on.  The result
  // is never out of range; it is the exact count at the second load if head has
  // not moved in between, and at the first if tail has not.
  lemma ApproximateSizeRace<T>(s: State<T>, before: seq<Event<T>>, between: seq<Event<T>>, capacity: nat)
    requires Init(s, capacity) && Runs(s, before) && Runs(End(s, before), between)
    ensures var first := End(s, before); var second := End(first, between);
            var n := Distance(first.head, second.tail, capacity + 1);
            && 0 <= n <= capacity
            && (second.head == first.head ==> n == |second.pushed| - |second.popped|)
            && (second.tail == first.tail ==> n == |first.pushed| - |first.popped|)
  {
    hide Runs, Held;
    InvInit(s, capacity);
    InvRun(s, before, capacity);
    InvRun(End(s, before), between, capacity);
  }
}
