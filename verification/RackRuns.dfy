/**
Whole runs of the command worker: slot identities and the ownership of plug-ins.
 */
module RackRuns {
  import opened Wrappers
  import opened Bytes
  import opened RackSlots
  import opened MissingStates

  datatype Event =
    | Run(command: Command, idleBefore: seq<bool>, idleAfter: seq<bool>)
    | LoadFrom(preset: seq<Snapshot>, outcomes: seq<Outcome>, reserved: bool, idle: seq<bool>)

  function OpeningOf(c: Command): Option<Opening> {
    if c.Add? || c.Replace? then c.opening else None
  }

  // Every plug-in that is opened is a new one.
  ghost predicate Enabled(w: Worker, e: Event) {
    match e
    case Run(c, _, _) => OpeningOf(c).Some? ==> OpeningOf(c).value.plugin !in w.rack.everOpened
    case LoadFrom(preset, outcomes, _, _) =>
      && |outcomes| == |preset|
      && (forall i :: 0 <= i < |outcomes| && !outcomes[i].CannotOpen? ==> outcomes[i].plugin !in w.rack.everOpened)
      && (forall i, j :: 0 <= i < j < |outcomes| && !outcomes[i].CannotOpen? && !outcomes[j].CannotOpen? ==>
            outcomes[i].plugin != outcomes[j].plugin)
  }

  ghost function Apply(w: Worker, e: Event): Worker
    requires Enabled(w, e)
  {
    match e
    case Run(c, idleBefore, idleAfter) => Serve(w, c, idleBefore, idleAfter)
    case LoadFrom(preset, outcomes, reserved, idle) => Load(w, preset, outcomes, reserved, idle)
  }

  ghost predicate Runs(w: Worker, es: seq<Event>)
    decreases |es|
  {
    es == [] || (Enabled(w, es[0]) && Runs(Apply(w, es[0]), es[1..]))
  }

  ghost function End(w: Worker, es: seq<Event>): Worker
    requires Runs(w, es)
    decreases |es|
  {
    if es == [] then w else End(Apply(w, es[0]), es[1..])
  }

  // A load that goes through replaces every slot.
  ghost predicate Replaces(w: Worker, e: Event) {
    e.LoadFrom? && Loadable(e.preset) && Reservable(w.rack, e.reserved)
  }

  // Commands and refused loads only.
  ghost predicate NoLoadSucceeds(w: Worker, es: seq<Event>)
    requires Runs(w, es)
    decreases |es|
  {
    es == [] || (!Replaces(w, es[0]) && NoLoadSucceeds(Apply(w, es[0]), es[1..]))
  }

  lemma RunsCons(w: Worker, e: Event, es: seq<Event>)
    requires Enabled(w, e) && Runs(Apply(w, e), es)
    ensures Runs(w, [e] + es) && End(w, [e] + es) == End(Apply(w, e), es)
    ensures !Replaces(w, e) && NoLoadSucceeds(Apply(w, e), es) ==> NoLoadSucceeds(w, [e] + es)
  {
    hide Replaces;
    assert ([e] + es)[1..] == es;
  }

  // ---------------------------------------------------------------- what an accepted command does to a slot list

  // Every accepted command takes at most one slot out and puts at most one in.
  ghost predicate Edited(before: seq<Slot>, after: seq<Slot>, cut: Option<nat>, at: nat, put: Option<Slot>) {
    && (cut.Some? ==> cut.value < |before|)
    && var rest := if cut.Some? then Removed(before, cut.value) else before;
       && (put.Some? ==> at <= |rest|)
       && after == if put.Some? then Inserted(rest, at, put.value) else rest
  }

  ghost function CutAt(r: Rack, c: Command): Option<nat> {
    if c.Add? then None else Some(IndexOf(r.slots, c.id))
  }

  ghost function PutAt(r: Rack, c: Command): nat {
    if c.Add? || c.Move? then c.target else IndexOf(r.slots, c.id)
  }

  ghost function PutSlot(r: Rack, c: Command): Option<Slot>
    requires Verdict(r, c).Accepted?
  {
    match c
    case Add(_, record, opening, _) => Some(NewSlot(r.nextId, record.value, false, opening.value))
    case Move(id, _, _) => Some(r.slots[IndexOf(r.slots, id)])
    case SetBypass(id, bypass, _) => Some(r.slots[IndexOf(r.slots, id)].(bypass := bypass))
    case Remove(_, _) => None
    case Replace(id, record, opening, _) =>
      Some(NewSlot(id, record.value, r.slots[IndexOf(r.slots, id)].bypass, opening.value))
  }

  // Overwriting a slot is cutting it out and putting the other in its place.
  lemma UpdateEdits(slots: seq<Slot>, i: nat, slot: Slot)
    requires i < |slots|
    ensures Edited(slots, slots[i := slot], Some(i), i, Some(slot))
  {
    assert slots[i := slot] == Inserted(Removed(slots, i), i, slot);
  }

  lemma CommandEdits(r: Rack, c: Command)
    requires Verdict(r, c).Accepted?
    ensures Edited(r.slots, SlotsAfter(r, c), CutAt(r, c), PutAt(r, c), PutSlot(r, c))
  {
    hide IndexOf, Inserted, Removed, CanChange, CanBypass;
    match c
    case Add(_, _, _, _) | Remove(_, _) =>
    case Move(id, target, _) => MoveEdits(r.slots, IndexOf(r.slots, id), target);
    case SetBypass(id, bypass, _) => UpdateEdits(r.slots, IndexOf(r.slots, id), PutSlot(r, c).value);
    case Replace(id, _, _, _) => UpdateEdits(r.slots, IndexOf(r.slots, id), PutSlot(r, c).value);
  }

  lemma MoveEdits(slots: seq<Slot>, source: nat, target: nat)
    requires source < |slots| && target < |slots|
    ensures Edited(slots, MovedTo(slots, source, target), Some(source), target, Some(slots[source]))
  {
  }

  // ---------------------------------------------------------------- identities

  ghost predicate Distinct(slots: seq<Slot>) {
    forall i, j :: 0 <= i < j < |slots| ==> slots[i].id != slots[j].id
  }

  ghost predicate NonZero(slots: seq<Slot>) {
    forall s :: s in slots ==> s.id != 0
  }

  // No live identity is at or above the next one to be given out; zero means
  // that none is left.
  ghost predicate NoneAtOrAbove(slots: seq<Slot>, next: U64) {
    next != 0 ==> forall s :: s in slots ==> s.id < next
  }

  lemma RemovedDistinct(slots: seq<Slot>, i: nat)
    requires i < |slots| && Distinct(slots)
    ensures Distinct(Removed(slots, i))
    ensures forall s :: s in Removed(slots, i) ==> s in slots && s.id != slots[i].id
  {
    var rest := Removed(slots, i);
    assert forall k :: 0 <= k < |rest| ==> rest[k] == slots[if k < i then k else k + 1];
  }

  lemma InsertedDistinct(slots: seq<Slot>, at: nat, slot: Slot)
    requires at <= |slots| && Distinct(slots) && forall s :: s in slots ==> s.id != slot.id
    ensures Distinct(Inserted(slots, at, slot))
    ensures forall s :: s in Inserted(slots, at, slot) <==> s in slots || s == slot
  {
    var all := Inserted(slots, at, slot);
    assert forall k :: 0 <= k < |all| ==> all[k] == if k < at then slots[k] else if k == at then slot else slots[k - 1];
    assert all[at] == slot;
  }

  // A slot that stays and the slot put in are all there is afterwards.
  lemma EditKeepsDistinct(before: seq<Slot>, after: seq<Slot>, cut: Option<nat>, at: nat, put: Option<Slot>)
    requires Edited(before, after, cut, at, put) && Distinct(before)
    requires put.Some? && cut.None? ==> forall s :: s in before ==> s.id != put.value.id
    requires put.Some? && cut.Some? ==> put.value.id == before[cut.value].id
    ensures Distinct(after)
    ensures forall s :: s in after ==> s in before || put == Some(s)
  {
    hide Distinct, Removed, Inserted;
    if cut.Some? { RemovedDistinct(before, cut.value); }
    var rest := if cut.Some? then Removed(before, cut.value) else before;
    if put.Some? { InsertedDistinct(rest, at, put.value); }
  }

  ghost predicate IdsRight(r: Rack) {
    Distinct(r.slots) && NonZero(r.slots) && NoneAtOrAbove(r.slots, r.nextId)
  }

  lemma AcceptedKeepsIds(r: Rack, c: Command)
    requires IdsRight(r) && Verdict(r, c).Accepted?
    ensures IdsRight(Committed(r, c))
  {
    hide ActiveSlots, Inserted, Removed, MovedTo, Distinct, Edited;
    CommandEdits(r, c);
    EditKeepsDistinct(r.slots, SlotsAfter(r, c), CutAt(r, c), PutAt(r, c), PutSlot(r, c));
  }

  lemma StepKeepsIds(w: Worker, e: Event)
    requires IdsRight(w.rack) && Enabled(w, e) && !Replaces(w, e)
    ensures IdsRight(Apply(w, e).rack)
  {
    hide IdsRight, Verdict, Committed;
    match e
    case Run(c, idleBefore, idleAfter) =>
      var reaped := Reaped(w.rack, idleBefore);
      assert IdsRight(reaped) by { SameIds(w.rack, reaped); }
      var done := AfterCommand(reaped, c);
      if Verdict(reaped, c).Accepted? {
        AcceptedKeepsIds(reaped, c);
      } else {
        SameIds(reaped, done);
      }
      SameIds(done, Reaped(done, idleAfter));
    case LoadFrom(_, _, _, _) => SameIds(w.rack, Apply(w, e).rack);
  }

  lemma SameIds(r: Rack, q: Rack)
    requires r.slots == q.slots && r.nextId == q.nextId
    ensures IdsRight(r) <==> IdsRight(q)
  {
  }

  lemma {:induction false} IdsRightRun(w: Worker, es: seq<Event>)
    requires IdsRight(w.rack) && Runs(w, es) && NoLoadSucceeds(w, es)
    ensures IdsRight(End(w, es).rack)
    decreases |es|
  {
    hide IdsRight, Enabled, Apply, Replaces;
    if es != [] {
      StepKeepsIds(w, es[0]);
      IdsRightRun(Apply(w, es[0]), es[1..]);
    }
  }

  // From the empty Rack, as long as no load succeeds, identities stay distinct
  // and non-zero, even when the counter has run out and wrapped to zero.
  lemma IdsDistinctWithoutLoads(es: seq<Event>)
    requires Runs(EMPTY_WORKER, es) && NoLoadSucceeds(EMPTY_WORKER, es)
    ensures Distinct(End(EMPTY_WORKER, es).rack.slots) && NonZero(End(EMPTY_WORKER, es).rack.slots)
  {
    hide Runs, End;
    IdsRightRun(EMPTY_WORKER, es);
  }

  // ---------------------------------------------------------------- identities after a load

  lemma LoadGivesDistinctIds(w: Worker, preset: seq<Snapshot>, outcomes: seq<Outcome>, reserved: bool, idle: seq<bool>)
    requires |outcomes| == |preset| && Loadable(preset) && Reservable(w.rack, reserved)
    ensures var r := Load(w, preset, outcomes, reserved, idle).rack;
            Distinct(r.slots) && NonZero(r.slots) && FirstUnused(r.slots, r.nextId) && |r.slots| == |preset|
  {
    var slots := LoadedSlots(preset, outcomes);
    assert forall i :: 0 <= i < |slots| ==> slots[i].id == preset[i].id;
  }

  lemma {:induction false} SomePluginIsNew(s: set<Plugin>) returns (p: Plugin)
    ensures p !in s && forall q :: q in s ==> q < p
    decreases s
  {
    if s == {} {
      p := 0;
    } else {
      var x :| x in s;
      var rest := SomePluginIsNew(s - {x});
      p := if x < rest then rest else x + 1;
      assert forall q :: q in s ==> q == x || q in s - {x};
    }
  }

  function AddLast(count: nat, plugin: Plugin): Event {
    Run(Add(count, Some(Record([], [])), Some(Opening(plugin, 0)), true), [], [])
  }

  // Room, a usable next identity, and `commits` generations left.
  ghost predicate CanAdd(r: Rack, commits: nat) {
    |r.slots| < MAX_SLOTS && SLOT_ID_BASE <= r.nextId && 0 < r.generation && r.generation + commits <= LAST_GENERATION
  }

  lemma AddLastAdds(w: Worker, plugin: Plugin)
    requires CanAdd(w.rack, 1) && plugin !in w.rack.everOpened
    ensures var e := AddLast(|w.rack.slots|, plugin); var r := w.rack;
            Enabled(w, e) && var q := Apply(w, e).rack;
            q.slots == r.slots + [NewSlot(r.nextId, Record([], []), false, Opening(plugin, 0))]
            && q.nextId == NextId(r.nextId) && q.generation == r.generation + 1
            && q.everOpened == r.everOpened + {plugin}
  {
    hide ActiveSlots, Kept, Freed;
  }

  lemma IndexOfLast(slots: seq<Slot>, slot: Slot)
    requires forall s :: s in slots ==> s.id != slot.id
    ensures IndexOf(slots + [slot], slot.id) == |slots| && Removed(slots + [slot], |slots|) == slots
  {
    hide IndexOf;
    var all := slots + [slot];
    assert all[|slots|] == slot;
    forall i | 0 <= i < |slots|
      ensures all[i].id != slot.id
    {
      assert all[i] == slots[i] && slots[i] in slots;
    }
  }

  lemma RemoveLastRemoves(w: Worker, slots: seq<Slot>, slot: Slot)
    requires w.rack.slots == slots + [slot] && (forall s :: s in slots ==> s.id != slot.id) && CanChange(slot.health)
    requires 0 < w.rack.generation < LAST_GENERATION
    ensures var e := Run(Remove(slot.id, true), [], []);
            Enabled(w, e) && var q := Apply(w, e).rack;
            q.slots == slots && q.nextId == w.rack.nextId && q.generation == w.rack.generation + 1
  {
    hide ActiveSlots, Kept, Freed, IndexOf, Removed;
    IndexOfLast(slots, slot);
  }

  // Adding and removing in turn, the counter reaches any live identity above it.
  lemma {:induction false} CounterCollides(w: Worker, x: Slot) returns (es: seq<Event>)
    requires x in w.rack.slots && w.rack.nextId <= x.id && CanAdd(w.rack, 2 * (x.id - w.rack.nextId) + 1)
    ensures Runs(w, es) && NoLoadSucceeds(w, es) && !Distinct(End(w, es).rack.slots)
    decreases x.id - w.rack.nextId
  {
    hide Enabled, Apply;
    var r := w.rack;
    var plugin := SomePluginIsNew(r.everOpened);
    var add := AddLast(|r.slots|, plugin);
    AddLastAdds(w, plugin);
    var added, slot := Apply(w, add), NewSlot(r.nextId, Record([], []), false, Opening(plugin, 0));
    if s :| s in r.slots && s.id == r.nextId {
      var i :| 0 <= i < |r.slots| && r.slots[i] == s;
      assert added.rack.slots[i].id == added.rack.slots[|r.slots|].id;
      RunsCons(w, add, []);
      es := [add] + [];
    } else {
      var remove := Run(Remove(slot.id, true), [], []);
      RemoveLastRemoves(added, r.slots, slot);
      var rest := CounterCollides(Apply(added, remove), x);
      es := [add] + ([remove] + rest);
      RunsCons(added, remove, rest);
      RunsCons(w, add, [remove] + rest);
    }
  }

  lemma RemoveRemoves(w: Worker, id: U64)
    requires id in Ids(w.rack.slots) && 0 < w.rack.generation < LAST_GENERATION
    requires forall s :: s in w.rack.slots ==> CanChange(s.health)
    ensures var e := Run(Remove(id, true), [], []); var i := IndexOf(w.rack.slots, id);
            Enabled(w, e) && i < |w.rack.slots| && var q := Apply(w, e).rack;
            q.slots == Removed(w.rack.slots, i) && q.nextId == w.rack.nextId && q.generation == w.rack.generation + 1
  {
    hide ActiveSlots, Kept, Freed, IndexOf, Removed;
    var i := IndexOf(w.rack.slots, id);
    assert i < |w.rack.slots| && w.rack.slots[i] in w.rack.slots;
  }

  lemma OthersRemain(slots: seq<Slot>, i: nat, x: Slot)
    requires i < |slots| && x in slots && x != slots[i]
    ensures x in Removed(slots, i) && forall s :: s in Removed(slots, i) ==> s in slots
  {
    var k :| 0 <= k < |slots| && slots[k] == x;
    assert Removed(slots, i)[if k < i then k else k - 1] == x;
  }

  // A command that takes out the first slot of an identity leaves every slot of another.
  lemma RemoveLeaves(w: Worker, id: U64, x: Slot)
    requires id in Ids(w.rack.slots) && x in w.rack.slots && x.id != id
    requires forall s :: s in w.rack.slots ==> CanChange(s.health)
    requires 0 < w.rack.generation < LAST_GENERATION
    ensures var e := Run(Remove(id, true), [], []);
            Enabled(w, e) && var q := Apply(w, e).rack;
            x in q.slots && |q.slots| == |w.rack.slots| - 1 && (forall s :: s in q.slots ==> s in w.rack.slots)
            && q.nextId == w.rack.nextId && q.generation == w.rack.generation + 1
  {
    hide Enabled, Apply, IndexOf;
    RemoveRemoves(w, id);
    OthersRemain(w.rack.slots, IndexOf(w.rack.slots, id), x);
  }

  // Any slot but x can be removed first to make room.
  lemma RoomIsMade(w: Worker, x: Slot) returns (e: Event)
    requires |w.rack.slots| == MAX_SLOTS && x in w.rack.slots && Distinct(w.rack.slots)
    requires forall s :: s in w.rack.slots ==> CanChange(s.health)
    requires 0 < w.rack.generation < LAST_GENERATION
    ensures Enabled(w, e) && e.Run?
    ensures var q := Apply(w, e).rack;
            x in q.slots && |q.slots| < MAX_SLOTS && q.nextId == w.rack.nextId && q.generation == w.rack.generation + 1
            && forall s :: s in q.slots ==> s in w.rack.slots
  {
    hide Enabled, Apply;
    var slots := w.rack.slots;
    var y := slots[if slots[0] == x then 1 else 0];
    assert y in slots && x.id != y.id;
    e := Run(Remove(y.id, true), [], []);
    RemoveLeaves(w, y.id, x);
  }

  // Whether every later run keeps identities distinct until a load succeeds.
  ghost predicate StaysDistinct(w: Worker) {
    forall es: seq<Event> :: Runs(w, es) && NoLoadSucceeds(w, es) ==> Distinct(End(w, es).rack.slots)
  }

  // What a run of commands needs to hand a live identity out again.
  ghost predicate RoomToCollide(r: Rack) {
    && Distinct(r.slots) && SLOT_ID_BASE <= r.nextId && |r.slots| <= MAX_SLOTS && 0 < r.generation
    && forall s :: s in r.slots ==>
         CanChange(s.health) && r.generation + 2 * (s.id - r.nextId) + 2 <= LAST_GENERATION
  }

  lemma SomeRunCollides(w: Worker, x: Slot) returns (es: seq<Event>)
    requires RoomToCollide(w.rack) && x in w.rack.slots && x.id >= w.rack.nextId
    ensures Runs(w, es) && NoLoadSucceeds(w, es) && !Distinct(End(w, es).rack.slots)
  {
    hide Runs, End, Enabled, Apply, Distinct;
    if |w.rack.slots| < MAX_SLOTS {
      es := CounterCollides(w, x);
    } else {
      var e := RoomIsMade(w, x);
      var rest := CounterCollides(Apply(w, e), x);
      RunsCons(w, e, rest);
      es := [e] + rest;
    }
  }

  // Identities stay distinct on every run of commands exactly when no live one
  // is at or above the next.
  lemma FreshnessIff(w: Worker)
    requires RoomToCollide(w.rack) && NonZero(w.rack.slots)
    ensures StaysDistinct(w) <==> NoneAtOrAbove(w.rack.slots, w.rack.nextId)
  {
    hide Runs, End, RoomToCollide;
    if NoneAtOrAbove(w.rack.slots, w.rack.nextId) {
      assert IdsRight(w.rack) by { DistinctWithRoom(w.rack); }
      hide IdsRight, Distinct;
      forall es: seq<Event> | Runs(w, es) && NoLoadSucceeds(w, es)
        ensures Distinct(End(w, es).rack.slots)
      {
        IdsRightRun(w, es);
        DistinctIfRight(End(w, es).rack);
      }
    } else {
      hide Distinct;
      var x :| x in w.rack.slots && x.id >= w.rack.nextId;
      var es := SomeRunCollides(w, x);
    }
  }

  lemma DistinctWithRoom(r: Rack)
    requires RoomToCollide(r)
    ensures Distinct(r.slots)
  {
  }

  lemma DistinctIfRight(r: Rack)
    requires IdsRight(r)
    ensures Distinct(r.slots)
  {
  }

  lemma LoadedSlotsCanChange(w: Worker, preset: seq<Snapshot>, outcomes: seq<Outcome>, reserved: bool, idle: seq<bool>)
    requires |outcomes| == |preset| && Loadable(preset) && Reservable(w.rack, reserved)
    ensures forall s :: s in Load(w, preset, outcomes, reserved, idle).rack.slots ==>
      CanChange(s.health) && exists x :: x in preset && x.id == s.id
    ensures Load(w, preset, outcomes, reserved, idle).rack.generation == w.rack.generation + 1
  {
    hide ActiveSlots, Kept, Freed, Tried, GivenUp, RetiredFrom, Packed, Preserved;
    var slots := Load(w, preset, outcomes, reserved, idle).rack.slots;
    forall s | s in slots
      ensures CanChange(s.health) && exists x :: x in preset && x.id == s.id
    {
      var i :| 0 <= i < |preset| && slots[i] == s;
      assert preset[i] in preset && s == LoadedSlot(preset[i], outcomes[i]);
    }
  }

  // assign_next_dynamic_slot_id makes the first identity it hands out unused,
  // and no more: identities stay distinct on every later run exactly when no
  // loaded identity is at or above it.
  lemma FreshnessAfterLoadIff(w: Worker, preset: seq<Snapshot>, outcomes: seq<Outcome>, reserved: bool, idle: seq<bool>)
    requires |outcomes| == |preset| && Loadable(preset) && Reservable(w.rack, reserved)
    requires forall x :: x in preset ==> w.rack.generation + 2 * (x.id - SLOT_ID_BASE) + 3 <= LAST_GENERATION
    ensures var l := Load(w, preset, outcomes, reserved, idle);
            StaysDistinct(l) <==> NoneAtOrAbove(l.rack.slots, l.rack.nextId)
  {
    hide ActiveSlots, Kept, Freed, Tried, GivenUp, RetiredFrom, Packed, Preserved, StaysDistinct, NoneAtOrAbove, Distinct;
    var l := Load(w, preset, outcomes, reserved, idle);
    LoadGivesDistinctIds(w, preset, outcomes, reserved, idle);
    LoadedSlotsCanChange(w, preset, outcomes, reserved, idle);
    FreshnessIff(l);
  }

  // ---------------------------------------------------------------- ownership of plug-ins

  ghost function PluginOf(s: Slot): set<Plugin> {
    if s.plugin.Some? then {s.plugin.value} else {}
  }

  ghost function Plugins(slots: seq<Slot>): set<Plugin> {
    set s | s in slots && s.plugin.Some? :: s.plugin.value
  }

  ghost predicate OneEach(slots: seq<Slot>) {
    forall i, j :: 0 <= i < j < |slots| ==> PluginOf(slots[i]) !! PluginOf(slots[j])
  }

  ghost function RetiredPlugins(retired: seq<Retired>): set<Plugin> {
    set r | r in retired :: r.plugin
  }

  ghost predicate RetiredOnce(retired: seq<Retired>) {
    forall i, j :: 0 <= i < j < |retired| ==> retired[i].plugin != retired[j].plugin
  }

  // Every plug-in ever opened is in a live slot, in the retired list or closed,
  // and only one of them, and only once.
  ghost predicate OwnedOnce(r: Rack) {
    && OneEach(r.slots) && RetiredOnce(r.retired)
    && r.everOpened == Plugins(r.slots) + RetiredPlugins(r.retired) + r.everClosed
    && Plugins(r.slots) !! RetiredPlugins(r.retired)
    && (Plugins(r.slots) + RetiredPlugins(r.retired)) !! r.everClosed
  }

  lemma RemovedPlugins(slots: seq<Slot>, i: nat)
    requires i < |slots| && OneEach(slots)
    ensures OneEach(Removed(slots, i)) && Plugins(Removed(slots, i)) == Plugins(slots) - PluginOf(slots[i])
  {
    var rest := Removed(slots, i);
    assert forall k :: 0 <= k < |rest| ==> rest[k] == slots[if k < i then k else k + 1];
    forall p | p in Plugins(slots) - PluginOf(slots[i])
      ensures p in Plugins(rest)
    {
      var k :| 0 <= k < |slots| && slots[k].plugin == Some(p);
      assert rest[if k < i then k else k - 1] == slots[k];
    }
    forall p | p in Plugins(rest)
      ensures p in Plugins(slots) - PluginOf(slots[i])
    {
      var k :| 0 <= k < |rest| && rest[k].plugin == Some(p);
      assert PluginOf(rest[k]) !! PluginOf(slots[i]);
    }
  }

  lemma InsertedPlugins(slots: seq<Slot>, at: nat, slot: Slot)
    requires at <= |slots| && OneEach(slots) && PluginOf(slot) !! Plugins(slots)
    ensures OneEach(Inserted(slots, at, slot)) && Plugins(Inserted(slots, at, slot)) == Plugins(slots) + PluginOf(slot)
  {
    var all := Inserted(slots, at, slot);
    assert forall k :: 0 <= k < |all| ==> all[k] == if k < at then slots[k] else if k == at then slot else slots[k - 1];
    assert all[at] == slot;
    forall k | 0 <= k < |slots|
      ensures PluginOf(slots[k]) <= Plugins(slots) && slots[k] in all
    {
      assert all[if k < at then k else k + 1] == slots[k];
    }
  }

  lemma EditedPlugins(before: seq<Slot>, after: seq<Slot>, cut: Option<nat>, at: nat, put: Option<Slot>)
    requires Edited(before, after, cut, at, put) && OneEach(before)
    requires put.Some? ==>
      PluginOf(put.value) !! Plugins(before) - (if cut.Some? then PluginOf(before[cut.value]) else {})
    ensures OneEach(after)
    ensures Plugins(after)
         == Plugins(before) - (if cut.Some? then PluginOf(before[cut.value]) else {})
            + (if put.Some? then PluginOf(put.value) else {})
  {
    hide OneEach, Plugins, PluginOf, Removed, Inserted;
    if cut.Some? { RemovedPlugins(before, cut.value); }
    if put.Some? { InsertedPlugins(if cut.Some? then Removed(before, cut.value) else before, at, put.value); }
  }

  lemma RetiredCons(first: Retired, rest: seq<Retired>)
    ensures RetiredPlugins([first] + rest) == {first.plugin} + RetiredPlugins(rest)
    ensures RetiredOnce([first] + rest) <==> RetiredOnce(rest) && first.plugin !in RetiredPlugins(rest)
  {
    var all := [first] + rest;
    assert forall r :: r in all <==> r == first || r in rest;
    if RetiredOnce(all) {
      assert rest == all[1..];
      forall k | 0 <= k < |rest|
        ensures rest[k].plugin != first.plugin
      {
        assert all[k + 1] == rest[k];
      }
    }
  }

  lemma {:induction false} ReapedOnce(retired: seq<Retired>, idle: seq<bool>, n: nat)
    requires RetiredOnce(retired)
    ensures RetiredOnce(Kept(retired, idle, n)) && RetiredPlugins(Kept(retired, idle, n)) !! Freed(retired, idle, n)
    ensures RetiredPlugins(Kept(retired, idle, n)) + Freed(retired, idle, n) == RetiredPlugins(retired)
  {
    if retired != [] {
      hide RetiredOnce, RetiredPlugins;
      var first, rest := retired[0], retired[1..];
      assert retired == [first] + rest;
      RetiredCons(first, rest);
      ReapedOnce(rest, idle, n + 1);
      RetiredCons(first, Kept(rest, idle, n + 1));
      assert [] + Kept(rest, idle, n + 1) == Kept(rest, idle, n + 1);
    }
  }

  lemma ReapKeepsOwnership(r: Rack, idle: seq<bool>)
    requires OwnedOnce(r)
    ensures OwnedOnce(Reaped(r, idle))
  {
    hide OneEach, RetiredOnce, Plugins, RetiredPlugins, Kept, Freed;
    ReapedOnce(r.retired, idle, 0);
  }

  lemma RetireOne(retired: seq<Retired>, r: Retired)
    requires RetiredOnce(retired) && r.plugin !in RetiredPlugins(retired)
    ensures RetiredOnce(retired + [r]) && RetiredPlugins(retired + [r]) == RetiredPlugins(retired) + {r.plugin}
  {
    assert forall q :: q in retired + [r] <==> q in retired || q == r;
  }

  lemma AcceptedKeepsOwnership(r: Rack, c: Command)
    requires OwnedOnce(r) && Verdict(r, c).Accepted?
    requires OpeningOf(c).Some? ==> OpeningOf(c).value.plugin !in r.everOpened
    ensures OwnedOnce(Committed(r, c))
  {
    hide ActiveSlots, Inserted, Removed, MovedTo, OneEach, RetiredOnce, Plugins, RetiredPlugins, Edited;
    CommandEdits(r, c);
    if CutAt(r, c).Some? { LivePluginListed(r.slots, CutAt(r, c).value); }
    EditedPlugins(r.slots, SlotsAfter(r, c), CutAt(r, c), PutAt(r, c), PutSlot(r, c));
    if Dropped(r, c).Some? { RetireOne(r.retired, Retired(Dropped(r, c).value, r.index)); }
  }

  lemma LivePluginListed(slots: seq<Slot>, i: nat)
    requires i < |slots|
    ensures PluginOf(slots[i]) <= Plugins(slots)
  {
  }

  // ---------------------------------------------------------------- ownership across loads

  lemma {:induction false} RetiredFromAll(slots: seq<Slot>, index: nat)
    requires OneEach(slots)
    ensures RetiredOnce(RetiredFrom(slots, index)) && RetiredPlugins(RetiredFrom(slots, index)) == Plugins(slots)
  {
    if slots != [] {
      var last, rest := slots[|slots| - 1], slots[..|slots| - 1];
      RetiredFromAll(rest, index);
      assert slots == Inserted(rest, |rest|, last);
      forall k | 0 <= k < |rest|
        ensures PluginOf(rest[k]) !! PluginOf(last)
      {
        assert rest[k] == slots[k];
      }
      hide OneEach, Plugins, RetiredOnce, RetiredPlugins, Inserted;
      InsertedPlugins(rest, |rest|, last);
      if last.plugin.Some? { RetireOne(RetiredFrom(rest, index), Retired(last.plugin.value, index)); }
    }
  }

  lemma {:induction false} RetireMany(a: seq<Retired>, b: seq<Retired>)
    requires RetiredOnce(a) && RetiredOnce(b) && RetiredPlugins(a) !! RetiredPlugins(b)
    ensures RetiredOnce(a + b) && RetiredPlugins(a + b) == RetiredPlugins(a) + RetiredPlugins(b)
    decreases |a|
  {
    if a == [] {
      assert a + b == b;
    } else {
      hide RetiredOnce, RetiredPlugins;
      assert a == [a[0]] + a[1..] && a + b == [a[0]] + (a[1..] + b);
      RetiredCons(a[0], a[1..]);
      RetireMany(a[1..], b);
      RetiredCons(a[0], a[1..] + b);
    }
  }

  // The plug-ins of the loaded slots are those opened and not given up.
  lemma LoadedPlugins(w: Worker, preset: seq<Snapshot>, outcomes: seq<Outcome>)
    requires |outcomes| == |preset| && Enabled(w, LoadFrom(preset, outcomes, true, []))
    ensures OneEach(LoadedSlots(preset, outcomes))
    ensures Plugins(LoadedSlots(preset, outcomes)) == Tried(preset, outcomes) - GivenUp(preset, outcomes)
    ensures GivenUp(preset, outcomes) <= Tried(preset, outcomes) && Tried(preset, outcomes) !! w.rack.everOpened
  {
    var slots := LoadedSlots(preset, outcomes);
    forall p | p in Tried(preset, outcomes) - GivenUp(preset, outcomes)
      ensures p in Plugins(slots)
    {
      var i :| 0 <= i < |preset| && !preset[i].health.Quarantined? && !outcomes[i].CannotOpen? && outcomes[i].plugin == p;
      assert slots[i].plugin == Some(p);
    }
    forall p | p in Plugins(slots)
      ensures p in Tried(preset, outcomes) - GivenUp(preset, outcomes)
    {
      var i :| 0 <= i < |preset| && slots[i].plugin == Some(p);
      assert outcomes[i].plugin == p;
    }
  }

  lemma LoadKeepsOwnership(w: Worker, preset: seq<Snapshot>, outcomes: seq<Outcome>)
    requires OwnedOnce(w.rack) && |outcomes| == |preset| && Enabled(w, LoadFrom(preset, outcomes, true, []))
    requires Loadable(preset) && w.rack.generation < LAST_GENERATION
    ensures OwnedOnce(Loaded(w, preset, outcomes).rack)
  {
    hide OneEach, Plugins, RetiredOnce, RetiredPlugins, Enabled, LoadedSlots, Tried, GivenUp, RetiredFrom, ActiveSlots,
      FirstUnused, Loadable;
    LoadedPlugins(w, preset, outcomes);
    RetiredFromAll(w.rack.slots, w.rack.index);
    RetireMany(w.rack.retired, RetiredFrom(w.rack.slots, w.rack.index));
  }

  lemma RefusedLoadKeepsOwnership(w: Worker, preset: seq<Snapshot>, outcomes: seq<Outcome>)
    requires OwnedOnce(w.rack) && |outcomes| == |preset| && Enabled(w, LoadFrom(preset, outcomes, true, []))
    ensures OwnedOnce(LoadRefused(w, preset, outcomes).rack)
  {
    hide OneEach, Plugins, RetiredOnce, RetiredPlugins;
    var n := Reached(preset);
    assert Tried(preset[..n], outcomes[..n]) !! w.rack.everOpened by {
      assert forall i :: 0 <= i < n && !outcomes[..n][i].CannotOpen? ==> outcomes[..n][i].plugin == outcomes[i].plugin;
    }
  }

  lemma RefusedKeepsOwnership(r: Rack, c: Command)
    requires OwnedOnce(r) && (OpeningOf(c).Some? ==> OpeningOf(c).value.plugin !in r.everOpened)
    ensures OwnedOnce(Refused(r, c))
  {
    hide OneEach, Plugins, RetiredOnce, RetiredPlugins;
  }

  // What every event keeps: ownership, and a published generation that is
  // exactly the playing live slots.
  ghost predicate RackRight(r: Rack) {
    OwnedOnce(r) && r.published == ActiveSlots(r.slots)
  }

  lemma StepKeepsOwnership(w: Worker, e: Event)
    requires OwnedOnce(w.rack) && Enabled(w, e)
    ensures OwnedOnce(Apply(w, e).rack)
  {
    hide OwnedOnce, Verdict, Committed, Refused, Loadable, Loaded, LoadRefused;
    match e
    case Run(c, idleBefore, idleAfter) =>
      ReapKeepsOwnership(w.rack, idleBefore);
      var reaped := Reaped(w.rack, idleBefore);
      if Verdict(reaped, c).Accepted? {
        AcceptedKeepsOwnership(reaped, c);
        ReapKeepsOwnership(Committed(reaped, c), idleAfter);
      } else {
        RefusedKeepsOwnership(reaped, c);
      }
    case LoadFrom(preset, outcomes, reserved, idle) =>
      assert Enabled(w, LoadFrom(preset, outcomes, true, []));
      if Loadable(preset) && Reservable(w.rack, reserved) {
        LoadKeepsOwnership(w, preset, outcomes);
        ReapKeepsOwnership(Loaded(w, preset, outcomes).rack, idle);
      } else {
        RefusedLoadKeepsOwnership(w, preset, outcomes);
      }
  }

  lemma StepKeepsPublished(w: Worker, e: Event)
    requires w.rack.published == ActiveSlots(w.rack.slots) && Enabled(w, e)
    ensures Apply(w, e).rack.published == ActiveSlots(Apply(w, e).rack.slots)
  {
    hide ActiveSlots, Verdict, SlotsAfter, Dropped, Opened, Kept, Freed, Loadable, LoadedSlots, FirstUnused;
  }

  lemma {:induction false} RackRightRun(w: Worker, es: seq<Event>)
    requires RackRight(w.rack) && Runs(w, es)
    ensures RackRight(End(w, es).rack)
    decreases |es|
  {
    hide OwnedOnce, ActiveSlots, Enabled, Apply;
    if es != [] {
      StepKeepsOwnership(w, es[0]);
      StepKeepsPublished(w, es[0]);
      RackRightRun(Apply(w, es[0]), es[1..]);
    }
  }

  // The slot's plug-in is part of the sounding chain.
  ghost predicate InChain(s: Slot) {
    s.bypass == false && s.plugin != None && s.health in {Ready, Bypassed, Loading, Recovering, NeedsAttention}
  }

  ghost predicate PublishedAs(s: Slot, a: Active) {
    InChain(s) && a == Active(s.id, s.plugin.value, s.latency)
  }

  lemma PlaysInChain(s: Slot)
    ensures Plays(s) <==> InChain(s)
  {
  }

  // On every run of commands and loads, each opened plug-in is in exactly one
  // live slot, or once in the retired list, or closed; and what is published is
  // the playing live slots, so no published plug-in is closed or retired.
  lemma EveryPluginIsOwnedOnce(es: seq<Event>)
    requires Runs(EMPTY_WORKER, es)
    ensures var r := End(EMPTY_WORKER, es).rack;
            && OwnedOnce(r) && r.published == ActiveSlots(r.slots)
            && forall a :: a in r.published ==> a.plugin !in r.everClosed && a.plugin !in RetiredPlugins(r.retired)
  {
    hide Runs, End;
    RackRightRun(EMPTY_WORKER, es);
    var r := End(EMPTY_WORKER, es).rack;
    forall a | a in r.published
      ensures a.plugin in Plugins(r.slots)
    {
      ActiveSlotsAreLive(r.slots, a);
    }
  }

  lemma {:induction false} ActiveSlotsAreLive(slots: seq<Slot>, a: Active)
    requires a in ActiveSlots(slots)
    ensures exists s :: s in slots && PublishedAs(s, a)
  {
    var last, rest := slots[|slots| - 1], slots[..|slots| - 1];
    if a in ActiveSlots(rest) {
      ActiveSlotsAreLive(rest, a);
      var s :| s in rest && PublishedAs(s, a);
      assert s in slots;
    } else {
      assert last in slots;
      PlaysInChain(last);
    }
  }

  // The published list is, in order and each once, what the slots at positions
  // `at` say of their plug-ins, and these are all the slots in the chain.
  ghost predicate Publishes(slots: seq<Slot>, at: seq<nat>, published: seq<Active>) {
    && |at| == |published| <= |slots|
    && (forall j, k :: 0 <= j < k < |at| ==> at[j] < at[k])
    && (forall i: nat :: i < |slots| && InChain(slots[i]) ==> i in at)
    && (forall k :: 0 <= k < |at| ==> at[k] < |slots| && PublishedAs(slots[at[k]], published[k]))
  }

  lemma PublishesMore(slots: seq<Slot>, at: seq<nat>, published: seq<Active>)
    requires slots != [] && Publishes(slots[..|slots| - 1], at, published)
    ensures var s := slots[|slots| - 1];
            if InChain(s) then Publishes(slots, at + [|slots| - 1], published + [Active(s.id, s.plugin.value, s.latency)])
            else Publishes(slots, at, published)
  {
    var rest, n := slots[..|slots| - 1], |slots| - 1;
    assert InChain(slots[n]) ==> PublishedAs(slots[n], Active(slots[n].id, slots[n].plugin.value, slots[n].latency));
    hide InChain, PublishedAs;
    assert forall k :: 0 <= k < |at| ==> at[k] < n && rest[at[k]] == slots[at[k]] && PublishedAs(rest[at[k]], published[k]);
    forall i: nat | i < n && InChain(slots[i])
      ensures i in at
    {
      assert rest[i] == slots[i];
    }
    assert (at + [n])[|at|] == n;
  }

  lemma {:induction false} ActiveSlotsInOrder(slots: seq<Slot>) returns (at: seq<nat>)
    ensures Publishes(slots, at, ActiveSlots(slots))
  {
    if slots == [] {
      at := [];
    } else {
      var n := |slots| - 1;
      at := ActiveSlotsInOrder(slots[..n]);
      PublishesMore(slots, at, ActiveSlots(slots[..n]));
      PlaysInChain(slots[n]);
      if InChain(slots[n]) {
        at := at + [n];
      } else {
        assert ActiveSlots(slots) == ActiveSlots(slots[..n]) + [];
      }
    }
  }

  // On every run what is published is the chain, told from the slots' own fields.
  lemma ChainIsPublished(es: seq<Event>) returns (at: seq<nat>)
    requires Runs(EMPTY_WORKER, es)
    ensures Publishes(End(EMPTY_WORKER, es).rack.slots, at, End(EMPTY_WORKER, es).rack.published)
  {
    hide Runs, End, Publishes;
    RackRightRun(EMPTY_WORKER, es);
    at := ActiveSlotsInOrder(End(EMPTY_WORKER, es).rack.slots);
  }
}
