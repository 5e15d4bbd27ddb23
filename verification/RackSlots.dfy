/**
The Rack's control plane, src/rack/main_r3_2.cpp: an array of eight slots that
commands shift in place, the plug-ins the slots own, and what a commit
publishes.  The catalog lookup, the opening of a plug-in, the wait for readers
and the reader counts at a reap come in as parameters of a command.
 */
module RackSlots {
  import opened Wrappers
  import opened Bytes

  type Plugin = nat

  const MAX_SLOTS: nat := 8
  const SLOT_ID_BASE: U64 := 0x1000_0000_0000_0000
  const RESERVED_IDS: set<U64> := {0, 0xA001, 0xB002, 0xC003}
  const LAST_GENERATION: U64 := 0xFFFF_FFFF_FFFF_FFFF

  datatype Health = Ready | Bypassed | Loading | Missing | Recovering | NeedsAttention | Quarantined

  datatype Record = Record(path: seq<Byte>, classId: seq<Byte>)

  datatype Slot = Slot(
    id: U64, plugin: Option<Plugin>, record: Record, bypass: bool, health: Health, latency: nat)

  const EMPTY_SLOT := Slot(0, None, Record([], []), false, Ready, 0)

  datatype Active = Active(id: U64, plugin: Plugin, latency: nat)

  datatype Retired = Retired(plugin: Plugin, index: nat)

  datatype Opening = Opening(plugin: Plugin, latency: nat)

  datatype Command =
    | Add(target: nat, record: Option<Record>, opening: Option<Opening>, reserved: bool)
    | Move(id: U64, target: nat, reserved: bool)
    | SetBypass(id: U64, bypass: bool, reserved: bool)
    | Remove(id: U64, reserved: bool)
    | Replace(id: U64, record: Option<Record>, opening: Option<Opening>, reserved: bool)

  datatype Result = Accepted | Rejected | Failed

  // `everOpened` and `everClosed` record every plug-in ever opened and ever closed.
  datatype Rack = Rack(
    slots: seq<Slot>, nextId: U64, generation: U64, index: nat, published: seq<Active>,
    retired: seq<Retired>, everOpened: set<Plugin>, everClosed: set<Plugin>)

  const EMPTY_RACK := Rack([], SLOT_ID_BASE, 1, 0, [], [], {}, {})

  // ---------------------------------------------------------------- slot lists

  // The position of the first slot with this identity, or the end.
  function IndexOf(slots: seq<Slot>, id: U64): (i: nat)
    ensures i <= |slots|
    ensures i < |slots| ==> slots[i].id == id
    ensures forall j :: 0 <= j < i ==> slots[j].id != id
  {
    if slots == [] then 0
    else if slots[0].id == id then 0
    else 1 + IndexOf(slots[1..], id)
  }

  function Inserted(slots: seq<Slot>, at: nat, slot: Slot): seq<Slot>
    requires at <= |slots|
  {
    slots[..at] + [slot] + slots[at..]
  }

  function Removed(slots: seq<Slot>, at: nat): seq<Slot>
    requires at < |slots|
  {
    slots[..at] + slots[at + 1..]
  }

  function MovedTo(slots: seq<Slot>, source: nat, target: nat): seq<Slot>
    requires source < |slots| && target < |slots|
  {
    Inserted(Removed(slots, source), target, slots[source])
  }

  // Where every slot stands after a move.
  lemma MovedToAt(slots: seq<Slot>, source: nat, target: nat, k: nat)
    requires source < |slots| && target < |slots| && k < |slots|
    ensures |MovedTo(slots, source, target)| == |slots|
    ensures MovedTo(slots, source, target)[k]
         == if k == target then slots[source]
            else if source <= k < target then slots[k + 1]
            else if target < k <= source then slots[k - 1]
            else slots[k]
  {
  }

  predicate Plays(s: Slot) {
    !s.bypass && s.plugin.Some? && !s.health.Missing? && !s.health.Quarantined?
  }

  // The slots that play, in order.
  function ActiveSlots(slots: seq<Slot>): seq<Active> {
    if slots == [] then []
    else
      var last := slots[|slots| - 1];
      ActiveSlots(slots[..|slots| - 1]) + if Plays(last) then [Active(last.id, last.plugin.value, last.latency)] else []
  }

  predicate CanBypass(h: Health) {
    h.Ready? || h.Bypassed? || h.NeedsAttention?
  }

  predicate CanChange(h: Health) {
    !h.Loading? && !h.Recovering?
  }

  ghost function Ids(slots: seq<Slot>): set<U64> {
    set s | s in slots :: s.id
  }

  // The least identity from the base on that no slot uses.
  ghost predicate FirstUnused(slots: seq<Slot>, id: U64) {
    SLOT_ID_BASE <= id && id !in Ids(slots) && forall k: U64 :: SLOT_ID_BASE <= k < id ==> k in Ids(slots)
  }

  // Among |slots| + 1 consecutive identities one is unused.
  lemma {:induction false} ConsecutiveIdsAreFew(slots: seq<Slot>, id: U64)
    requires SLOT_ID_BASE <= id && forall k: U64 :: SLOT_ID_BASE <= k < id ==> k in Ids(slots)
    ensures id <= SLOT_ID_BASE + |slots|
    decreases id
  {
    if id > SLOT_ID_BASE {
      var last: U64 := id - 1;
      assert last in Ids(slots);
      var i :| 0 <= i < |slots| && slots[i].id == last;
      forall k: U64 | SLOT_ID_BASE <= k < last
        ensures k in Ids(Removed(slots, i))
      {
        assert k in Ids(slots);
        var j :| 0 <= j < |slots| && slots[j].id == k;
        assert Removed(slots, i)[if j < i then j else j - 1] == slots[j];
      }
      ConsecutiveIdsAreFew(Removed(slots, i), last);
    }
  }

  lemma FirstUnusedIsUnique(slots: seq<Slot>, a: U64, b: U64)
    requires FirstUnused(slots, a) && FirstUnused(slots, b)
    ensures a == b
  {
  }

  // ---------------------------------------------------------------- commands

  predicate Reservable(r: Rack, reserved: bool) {
    r.generation != 0 && r.generation != LAST_GENERATION && reserved
  }

  function NextId(id: U64): U64 {
    if id + 1 == TWO_64 then 0 else id + 1
  }

  // Whether the command gets as far as opening its plug-in.
  predicate Opens(r: Rack, c: Command) {
    match c
    case Add(target, record, opening, _) =>
      |r.slots| < MAX_SLOTS && target <= |r.slots| && record.Some? && opening.Some?
    case Replace(id, record, opening, _) =>
      var i := IndexOf(r.slots, id);
      i < |r.slots| && CanChange(r.slots[i].health) && record.Some? && opening.Some?
    case _ => false
  }

  function Verdict(r: Rack, c: Command): Result {
    match c
    case Add(target, record, _, reserved) =>
      if |r.slots| >= MAX_SLOTS || target > |r.slots| || record.None? then Rejected
      else if !Opens(r, c) || !Reservable(r, reserved) || r.nextId in RESERVED_IDS then Failed else Accepted
    case Move(id, target, reserved) =>
      var i := IndexOf(r.slots, id);
      if i >= |r.slots| || target >= |r.slots| || i == target then Rejected
      else if !Reservable(r, reserved) then Failed else Accepted
    case SetBypass(id, bypass, reserved) =>
      var i := IndexOf(r.slots, id);
      if i >= |r.slots| || r.slots[i].bypass == bypass || !CanBypass(r.slots[i].health) then Rejected
      else if !Reservable(r, reserved) then Failed else Accepted
    case Remove(id, reserved) =>
      var i := IndexOf(r.slots, id);
      if i >= |r.slots| || !CanChange(r.slots[i].health) then Rejected
      else if !Reservable(r, reserved) then Failed else Accepted
    case Replace(id, record, _, reserved) =>
      var i := IndexOf(r.slots, id);
      if i >= |r.slots| || !CanChange(r.slots[i].health) || record.None? then Rejected
      else if !Opens(r, c) || !Reservable(r, reserved) then Failed else Accepted
  }

  function NewSlot(id: U64, record: Record, bypass: bool, o: Opening): Slot {
    Slot(id, Some(o.plugin), record, bypass, Ready, o.latency)
  }

  // The slot list an accepted command leaves.
  function SlotsAfter(r: Rack, c: Command): seq<Slot>
    requires Verdict(r, c).Accepted?
  {
    match c
    case Add(target, record, opening, _) =>
      Inserted(r.slots, target, NewSlot(r.nextId, record.value, false, opening.value))
    case Move(id, target, _) => MovedTo(r.slots, IndexOf(r.slots, id), target)
    case SetBypass(id, bypass, _) =>
      var i := IndexOf(r.slots, id);
      r.slots[i := r.slots[i].(bypass := bypass)]
    case Remove(id, _) => Removed(r.slots, IndexOf(r.slots, id))
    case Replace(id, record, opening, _) =>
      var i := IndexOf(r.slots, id);
      r.slots[i := NewSlot(id, record.value, r.slots[i].bypass, opening.value)]
  }

  // The plug-in an accepted command takes out of its slot.
  function Dropped(r: Rack, c: Command): Option<Plugin>
    requires Verdict(r, c).Accepted?
  {
    if c.Remove? || c.Replace? then r.slots[IndexOf(r.slots, c.id)].plugin else None
  }

  function Opened(r: Rack, c: Command): set<Plugin> {
    if Opens(r, c) then {c.opening.value.plugin} else {}
  }

  // What an accepted command leaves: one more generation in the other buffer,
  // and the plug-in taken out recorded with the buffer published before.
  function Committed(r: Rack, c: Command): Rack
    requires Verdict(r, c).Accepted?
  {
    Rack(SlotsAfter(r, c), if c.Add? then NextId(r.nextId) else r.nextId, r.generation + 1,
         if r.index == 0 then 1 else 0, ActiveSlots(SlotsAfter(r, c)),
         if Dropped(r, c).Some? then r.retired + [Retired(Dropped(r, c).value, r.index)] else r.retired,
         r.everOpened + Opened(r, c), r.everClosed)
  }

  // A refused command closes the plug-in it opened and changes nothing else.
  function Refused(r: Rack, c: Command): Rack {
    r.(everOpened := r.everOpened + Opened(r, c), everClosed := r.everClosed + Opened(r, c))
  }

  // Whether the n-th entry a reap looks at has no readers just then.  The count
  // is loaded anew for every entry; an entry beyond the list is found busy.
  predicate FoundIdle(idle: seq<bool>, n: nat) {
    n < |idle| && idle[n]
  }

  // What a reap keeps and frees of the entries from its n-th look on.
  function Kept(retired: seq<Retired>, idle: seq<bool>, n: nat): seq<Retired> {
    if retired == [] then []
    else (if FoundIdle(idle, n) then [] else [retired[0]]) + Kept(retired[1..], idle, n + 1)
  }

  function Freed(retired: seq<Retired>, idle: seq<bool>, n: nat): set<Plugin> {
    if retired == [] then {}
    else (if FoundIdle(idle, n) then {retired[0].plugin} else {}) + Freed(retired[1..], idle, n + 1)
  }

  lemma KeptAndFreedAt(retired: seq<Retired>, k: nat, idle: seq<bool>, n: nat)
    requires k < |retired|
    ensures Kept(retired[k..], idle, n)
         == (if FoundIdle(idle, n) then [] else [retired[k]]) + Kept(retired[k + 1..], idle, n + 1)
    ensures Freed(retired[k..], idle, n)
         == (if FoundIdle(idle, n) then {retired[k].plugin} else {}) + Freed(retired[k + 1..], idle, n + 1)
  {
    assert retired[k..][1..] == retired[k + 1..];
  }

  lemma NothingToReap(retired: seq<Retired>, idle: seq<bool>, n: nat)
    ensures Kept(retired[|retired|..], idle, n) == [] && Freed(retired[|retired|..], idle, n) == {}
    ensures retired[..|retired|] == retired
  {
  }

  lemma Erased(retired: seq<Retired>, k: nat)
    requires k < |retired|
    ensures var rest := retired[..k] + retired[k + 1..];
            |rest| == |retired| - 1 && rest[..k] == retired[..k] && rest[k..] == retired[k + 1..]
  {
  }

  // reap_retired_plugins.
  function Reaped(r: Rack, idle: seq<bool>): Rack {
    r.(retired := Kept(r.retired, idle, 0), everClosed := r.everClosed + Freed(r.retired, idle, 0))
  }

  function AfterCommand(r: Rack, c: Command): Rack {
    if Verdict(r, c).Accepted? then Committed(r, c) else Refused(r, c)
  }

  // retire_current_plugins.
  function RetiredFrom(slots: seq<Slot>, index: nat): seq<Retired> {
    if slots == [] then []
    else
      RetiredFrom(slots[..|slots| - 1], index)
      + if slots[|slots| - 1].plugin.Some? then [Retired(slots[|slots| - 1].plugin.value, index)] else []
  }

  // execute_dynamic_command: reap, decide and commit, reap again after a removal.
  function Execute(r: Rack, c: Command, idleBefore: seq<bool>, idleAfter: seq<bool>): (Rack, Result) {
    var reaped := Reaped(r, idleBefore);
    var verdict := Verdict(reaped, c);
    var done := AfterCommand(reaped, c);
    (if verdict.Accepted? && (c.Remove? || c.Replace?) then Reaped(done, idleAfter) else done, verdict)
  }

  // ---------------------------------------------------------------- the array

  class DynamicRack {
    const slots: array<Slot>
    var count: nat
    var nextId: U64
    var generation: U64
    var index: nat
    var published: seq<Active>
    var retired: seq<Retired>
    ghost var everOpened: set<Plugin>
    ghost var everClosed: set<Plugin>

    ghost predicate Valid()
      reads this, slots
    {
      && slots.Length == MAX_SLOTS && count <= MAX_SLOTS && index < 2
      && forall i :: count <= i < MAX_SLOTS ==> slots[i] == EMPTY_SLOT
    }

    ghost function Model(): Rack
      requires Valid()
      reads this, slots
    {
      Rack(slots[..count], nextId, generation, index, published, retired, everOpened, everClosed)
    }

    constructor ()
      ensures Valid() && fresh(slots) && Model() == EMPTY_RACK
    {
      slots := new Slot[MAX_SLOTS](_ => EMPTY_SLOT);
      count, nextId, generation, index := 0, SLOT_ID_BASE, 1, 0;
      published, retired, everOpened, everClosed := [], [], {}, {};
    }

    method FindSlot(id: U64) returns (i: nat)
      requires Valid()
      ensures i == IndexOf(slots[..count], id)
    {
      i := 0;
      while i < count
        invariant i <= count
        invariant IndexOf(slots[..count], id) == i + IndexOf(slots[i..count], id)
      {
        if slots[i].id == id { return; }
        assert slots[i..count][1..] == slots[i + 1..count];
        i := i + 1;
      }
    }

    method Reap(idle: seq<bool>)
      requires Valid()
      modifies this`retired, this`everClosed
      ensures Valid() && Model() == Reaped(old(Model()), idle)
    {
      hide Kept, Freed;
      var k, n := 0, 0;
      assert retired[..0] == [] && retired[0..] == retired;
      while k < |retired|
        invariant k <= |retired|
        invariant retired[..k] + Kept(retired[k..], idle, n) == Kept(old(retired), idle, 0)
        invariant everClosed + Freed(retired[k..], idle, n) == old(everClosed) + Freed(old(retired), idle, 0)
        decreases |retired| - k
      {
        KeptAndFreedAt(retired, k, idle, n);
        if FoundIdle(idle, n) {
          Erased(retired, k);
          everClosed := everClosed + {retired[k].plugin};
          retired := retired[..k] + retired[k + 1..];
        } else {
          assert retired[..k + 1] == retired[..k] + [retired[k]];
          k := k + 1;
        }
        n := n + 1;
      }
      NothingToReap(retired, idle, n);
    }

    // build_active_generation, and the publication of the buffer it filled.
    method Publish()
      requires Valid() && generation < LAST_GENERATION
      modifies this`published, this`index, this`generation
      ensures Valid()
      ensures published == ActiveSlots(slots[..count])
      ensures generation == old(generation) + 1 && index == 1 - old(index)
    {
      var next: seq<Active> := [];
      var i := 0;
      while i < count
        invariant i <= count
        invariant next == ActiveSlots(slots[..i])
      {
        assert slots[..i + 1][..i] == slots[..i];
        if Plays(slots[i]) {
          next := next + [Active(slots[i].id, slots[i].plugin.value, slots[i].latency)];
        }
        i := i + 1;
      }
      published := next;
      index := 1 - index;
      generation := generation + 1;
    }

    // The loops that open a gap at lo, and that close the gap at lo.
    method ShiftRight(lo: nat, hi: nat)
      requires slots.Length == MAX_SLOTS && lo <= hi < MAX_SLOTS
      modifies slots
      ensures forall k :: (0 <= k < lo || hi < k < MAX_SLOTS) ==> slots[k] == old(slots[k])
      ensures forall k :: lo < k <= hi ==> slots[k] == old(slots[k - 1])
    {
      var i := hi;
      while i > lo
        invariant lo <= i <= hi
        invariant forall k :: (0 <= k < i || hi < k < MAX_SLOTS) ==> slots[k] == old(slots[k])
        invariant forall k :: i < k <= hi ==> slots[k] == old(slots[k - 1])
      {
        slots[i] := slots[i - 1];
        i := i - 1;
      }
    }

    method ShiftLeft(lo: nat, hi: nat)
      requires slots.Length == MAX_SLOTS && lo <= hi < MAX_SLOTS
      modifies slots
      ensures forall k :: (0 <= k < lo || hi < k < MAX_SLOTS) ==> slots[k] == old(slots[k])
      ensures forall k :: lo <= k < hi ==> slots[k] == old(slots[k + 1])
    {
      var i := lo;
      while i < hi
        invariant lo <= i <= hi
        invariant forall k :: (0 <= k < lo || i < k < MAX_SLOTS) ==> slots[k] == old(slots[k])
        invariant forall k :: lo <= k < i ==> slots[k] == old(slots[k + 1])
        invariant i < MAX_SLOTS && (i == lo ==> slots[i] == old(slots[i]))
      {
        slots[i] := slots[i + 1];
        i := i + 1;
      }
    }

    method InsertAt(at: nat, slot: Slot)
      requires Valid() && at <= count < MAX_SLOTS
      modifies this`count, slots
      ensures Valid() && count == old(count) + 1 && slots[..count] == Inserted(old(slots[..count]), at, slot)
    {
      ShiftRight(at, count);
      slots[at] := slot;
      count := count + 1;
    }

    method MoveWithin(source: nat, target: nat)
      requires Valid() && source < count && target < count
      modifies slots
      ensures Valid() && slots[..count] == MovedTo(old(slots[..count]), source, target)
    {
      hide MovedTo;
      var moving := slots[source];
      if source < target {
        ShiftLeft(source, target);
      } else {
        ShiftRight(target, source);
      }
      slots[target] := moving;
      forall k | 0 <= k < count
        ensures |MovedTo(old(slots[..count]), source, target)| == count
        ensures slots[k] == MovedTo(old(slots[..count]), source, target)[k]
      {
        MovedToAt(old(slots[..count]), source, target, k);
      }
    }

    method SetAt(at: nat, slot: Slot)
      requires Valid() && at < count
      modifies slots
      ensures Valid() && slots[..count] == old(slots[..count])[at := slot]
    {
      slots[at] := slot;
    }

    method RemoveAt(at: nat)
      requires Valid() && at < count
      modifies this`count, slots
      ensures Valid() && count == old(count) - 1 && slots[..count] == Removed(old(slots[..count]), at)
    {
      ShiftLeft(at, count - 1);
      slots[count - 1] := EMPTY_SLOT;
      count := count - 1;
    }

    // What every command keeps and leaves.
    twostate predicate Did(c: Command, result: Result)
      requires old(Valid()) && Valid()
      reads this, slots
    {
      result == Verdict(old(Model()), c) && Model() == AfterCommand(old(Model()), c)
    }

    method AddSlot(target: nat, record: Option<Record>, opening: Option<Opening>, reserved: bool)
      returns (result: Result)
      requires Valid()
      modifies this, slots
      ensures Valid() && Did(Add(target, record, opening, reserved), result)
    {
      hide Inserted, ActiveSlots, NewSlot, NextId;
      if count >= MAX_SLOTS || target > count || record.None? { return Rejected; }
      if opening.None? { return Failed; }
      everOpened := everOpened + {opening.value.plugin};
      if generation == 0 || generation == LAST_GENERATION || !reserved || nextId in RESERVED_IDS {
        everClosed := everClosed + {opening.value.plugin};
        return Failed;
      }
      InsertAt(target, NewSlot(nextId, record.value, false, opening.value));
      nextId := NextId(nextId);
      Publish();
      result := Accepted;
    }

    method MoveSlot(id: U64, target: nat, reserved: bool) returns (result: Result)
      requires Valid()
      modifies this, slots
      ensures Valid() && Did(Move(id, target, reserved), result)
    {
      hide MovedTo, ActiveSlots, IndexOf;
      var source := FindSlot(id);
      if source >= count || target >= count || source == target { return Rejected; }
      if generation == 0 || generation == LAST_GENERATION || !reserved { return Failed; }
      MoveWithin(source, target);
      Publish();
      result := Accepted;
    }

    method SetSlotBypass(id: U64, bypass: bool, reserved: bool) returns (result: Result)
      requires Valid()
      modifies this, slots
      ensures Valid() && Did(SetBypass(id, bypass, reserved), result)
    {
      hide ActiveSlots, IndexOf, CanBypass;
      var i := FindSlot(id);
      if i >= count || slots[i].bypass == bypass || !CanBypass(slots[i].health) { return Rejected; }
      if generation == 0 || generation == LAST_GENERATION || !reserved { return Failed; }
      SetAt(i, slots[i].(bypass := bypass));
      Publish();
      result := Accepted;
    }

    method RemoveSlot(id: U64, reserved: bool) returns (result: Result)
      requires Valid()
      modifies this, slots
      ensures Valid() && Did(Remove(id, reserved), result)
    {
      hide Removed, ActiveSlots, IndexOf, CanChange;
      var i := FindSlot(id);
      if i >= count || !CanChange(slots[i].health) { return Rejected; }
      if generation == 0 || generation == LAST_GENERATION || !reserved { return Failed; }
      var leaving, was := slots[i].plugin, index;
      RemoveAt(i);
      Publish();
      if leaving.Some? { retired := retired + [Retired(leaving.value, was)]; }
      result := Accepted;
    }

    method ReplaceSlot(id: U64, record: Option<Record>, opening: Option<Opening>, reserved: bool)
      returns (result: Result)
      requires Valid()
      modifies this, slots
      ensures Valid() && Did(Replace(id, record, opening, reserved), result)
    {
      hide ActiveSlots, IndexOf, CanChange, NewSlot;
      var i := FindSlot(id);
      if i >= count || !CanChange(slots[i].health) || record.None? { return Rejected; }
      if opening.None? { return Failed; }
      everOpened := everOpened + {opening.value.plugin};
      if generation == 0 || generation == LAST_GENERATION || !reserved {
        everClosed := everClosed + {opening.value.plugin};
        return Failed;
      }
      var leaving, was := slots[i].plugin, index;
      SetAt(i, NewSlot(slots[i].id, record.value, slots[i].bypass, opening.value));
      Publish();
      if leaving.Some? { retired := retired + [Retired(leaving.value, was)]; }
      result := Accepted;
    }

    // execute_dynamic_command.
    method ExecuteCommand(c: Command, idleBefore: seq<bool>, idleAfter: seq<bool>) returns (result: Result)
      requires Valid()
      modifies this, slots
      ensures Valid() && (Model(), result) == Execute(old(Model()), c, idleBefore, idleAfter)
    {
      hide Verdict, AfterCommand, Reaped;
      Reap(idleBefore);
      match c
      case Add(target, record, opening, reserved) => result := AddSlot(target, record, opening, reserved);
      case Move(id, target, reserved) => result := MoveSlot(id, target, reserved);
      case SetBypass(id, bypass, reserved) => result := SetSlotBypass(id, bypass, reserved);
      case Remove(id, reserved) =>
        result := RemoveSlot(id, reserved);
        if result.Accepted? { Reap(idleAfter); }
      case Replace(id, record, opening, reserved) =>
        result := ReplaceSlot(id, record, opening, reserved);
        if result.Accepted? { Reap(idleAfter); }
    }

    // assign_next_dynamic_slot_id: it ends, and never without an identity.
    method AssignNextSlotId() returns (ok: bool)
      requires Valid()
      modifies this`nextId
      ensures Valid() && ok && FirstUnused(slots[..count], nextId) && nextId <= SLOT_ID_BASE + count
    {
      var candidate: U64 := SLOT_ID_BASE;
      var found := FindSlot(candidate);
      while candidate != 0 && found < count
        invariant SLOT_ID_BASE <= candidate <= SLOT_ID_BASE + count
        invariant forall k: U64 :: SLOT_ID_BASE <= k < candidate ==> k in Ids(slots[..count])
        invariant found == IndexOf(slots[..count], candidate)
        decreases SLOT_ID_BASE + count - candidate
      {
        assert slots[..count][found].id in Ids(slots[..count]);
        ConsecutiveIdsAreFew(slots[..count], candidate + 1);
        candidate := NextId(candidate);
        found := FindSlot(candidate);
      }
      nextId := candidate;
      ok := true;
    }

    // Every slot hands its plug-in to the retired list.
    method RetirePlugins()
      requires Valid()
      modifies this`retired, slots
      ensures Valid() && retired == old(retired) + RetiredFrom(old(slots[..count]), index)
    {
      ghost var was := slots[..count];
      var i := 0;
      while i < count
        invariant i <= count
        invariant forall k :: i <= k < MAX_SLOTS ==> slots[k] == old(slots[k])
        invariant retired == old(retired) + RetiredFrom(was[..i], index)
      {
        assert was[..i + 1][..i] == was[..i];
        if slots[i].plugin.Some? {
          retired := retired + [Retired(slots[i].plugin.value, index)];
          slots[i] := slots[i].(plugin := None);
        }
        i := i + 1;
      }
      assert was[..count] == was;
    }

    // The slots and the next identity of another rack are moved into this one.
    method TakeOver(other: DynamicRack)
      requires Valid() && other.Valid() && other.slots != slots && other != this
      modifies this`count, this`nextId, slots
      ensures Valid() && slots[..count] == other.slots[..other.count] && nextId == other.nextId
    {
      var i := 0;
      while i < MAX_SLOTS
        invariant i <= MAX_SLOTS
        invariant forall k :: 0 <= k < i ==> slots[k] == other.slots[k]
      {
        slots[i] := other.slots[i];
        i := i + 1;
      }
      count := other.count;
      nextId := other.nextId;
    }
  }
}
