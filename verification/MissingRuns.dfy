/**
What becomes of the state of missing plug-ins over whole runs: kept as loaded
exactly while no missing slot's identity can be handed out again.
 */
module MissingRuns {
  import opened Wrappers
  import opened Bytes
  import opened RackSlots
  import opened MissingStates
  import opened RackRuns
  import Codec = SessionCodec

  // The placeholder s still says what the snapshot it was loaded from said.
  ghost predicate Faithful(s: Slot, source: Snapshot) {
    && s.id == source.id && s.record == Record(source.path, source.classId) && s.bypass == source.bypass
    && s.health == (if source.health.Quarantined? then Quarantined else Missing)
  }

  ghost predicate EntriesDistinct(entries: Entries) {
    forall i, j :: 0 <= i < j < MAX_SLOTS && entries[i].Some? && entries[j].Some? ==>
      entries[i].value.id != entries[j].value.id
  }

  // The one snapshot the store holds for s is the loaded one.
  ghost predicate KeptAsLoaded(entries: Entries, s: Slot, preset: seq<Snapshot>) {
    FindEntry(entries, s.id).Some? && FindEntry(entries, s.id).value in preset
    && Faithful(s, FindEntry(entries, s.id).value)
  }

  ghost predicate AllKept(w: Worker, preset: seq<Snapshot>) {
    forall s :: s in w.rack.slots && s.plugin.None? ==> KeptAsLoaded(w.missing, s, preset)
  }

  // No entry outlives its slot, nor the slot's lack of a plug-in.
  ghost predicate NothingStale(w: Worker) {
    forall k :: 0 <= k < MAX_SLOTS && w.missing[k].Some? ==>
      exists s :: s in w.rack.slots && s.plugin.None? && s.id == w.missing[k].value.id
  }

  ghost predicate Preserves(w: Worker, preset: seq<Snapshot>) {
    EntriesDistinct(w.missing) && AllKept(w, preset) && NothingStale(w)
  }

  // ---------------------------------------------------------------- a load fills the store

  lemma {:induction false} PreservedExactly(preset: seq<Snapshot>, outcomes: seq<Outcome>, i: nat)
    requires |outcomes| == |preset| && i < |preset|
    ensures LoadedSlot(preset[i], outcomes[i]).plugin.None? ==> preset[i] in Preserved(preset, outcomes)
    decreases |preset|
  {
    var k := |preset| - 1;
    if i < k { PreservedExactly(preset[..k], outcomes[..k], i); }
  }

  // A snapshot is kept only for a slot whose plug-in is not there.
  ghost predicate IsMissing(preset: seq<Snapshot>, outcomes: seq<Outcome>, i: nat)
    requires |outcomes| == |preset|
  {
    i < |preset| && LoadedSlot(preset[i], outcomes[i]).plugin.None?
  }

  lemma {:induction false} PreservedComesFrom(preset: seq<Snapshot>, outcomes: seq<Outcome>, x: Snapshot) returns (i: nat)
    requires |outcomes| == |preset| && x in Preserved(preset, outcomes)
    ensures IsMissing(preset, outcomes, i) && preset[i] == x
    decreases |preset|
  {
    hide LoadedSlot;
    var k := |preset| - 1;
    if x in Preserved(preset[..k], outcomes[..k]) {
      i := PreservedComesFrom(preset[..k], outcomes[..k], x);
    } else {
      i := k;
    }
  }

  lemma {:induction false} PreservedDistinct(preset: seq<Snapshot>, outcomes: seq<Outcome>)
    requires |outcomes| == |preset| && Codec.DistinctIds(preset)
    ensures Codec.DistinctIds(Preserved(preset, outcomes))
    decreases |preset|
  {
    hide LoadedSlot;
    if preset != [] {
      var k := |preset| - 1;
      PreservedDistinct(preset[..k], outcomes[..k]);
      forall x | x in Preserved(preset[..k], outcomes[..k])
        ensures x.id != preset[k].id
      {
        var i := PreservedComesFrom(preset[..k], outcomes[..k], x);
        assert preset[i] == x;
      }
    }
  }

  lemma PackedHolds(list: seq<Snapshot>, x: Snapshot)
    requires |list| <= MAX_SLOTS && Codec.DistinctIds(list) && x in list
    ensures FindEntry(Packed(list), x.id) == Some(x)
  {
    var i :| 0 <= i < |list| && list[i] == x;
    assert Holds(Packed(list)[i], x.id);
    var r := FindEntry(Packed(list), x.id);
    var j :| 0 <= j < MAX_SLOTS && Packed(list)[j] == r;
    assert list[j].id == list[i].id;
  }

  lemma LoadKeepsAll(preset: seq<Snapshot>, outcomes: seq<Outcome>, s: Slot)
    requires |outcomes| == |preset| && Loadable(preset) && s in LoadedSlots(preset, outcomes) && s.plugin.None?
    ensures KeptAsLoaded(Packed(Preserved(preset, outcomes)), s, preset)
  {
    hide Packed, Preserved, FindEntry;
    var i :| 0 <= i < |preset| && LoadedSlots(preset, outcomes)[i] == s;
    PreservedDistinct(preset, outcomes);
    PreservedExactly(preset, outcomes, i);
    PackedHolds(Preserved(preset, outcomes), preset[i]);
  }

  lemma LoadLeavesNothingStale(preset: seq<Snapshot>, outcomes: seq<Outcome>, x: Snapshot)
    requires |outcomes| == |preset| && Loadable(preset) && x in Preserved(preset, outcomes)
    ensures exists s :: s in LoadedSlots(preset, outcomes) && s.plugin.None? && s.id == x.id
  {
    hide Preserved;
    var i := PreservedComesFrom(preset, outcomes, x);
    assert LoadedSlots(preset, outcomes)[i] in LoadedSlots(preset, outcomes);
  }

  lemma LoadPreserves(w: Worker, preset: seq<Snapshot>, outcomes: seq<Outcome>, reserved: bool, idle: seq<bool>)
    requires |outcomes| == |preset| && Loadable(preset) && Reservable(w.rack, reserved)
    ensures Preserves(Load(w, preset, outcomes, reserved, idle), preset)
  {
    hide Preserved, LoadedSlots, FirstUnused, ActiveSlots, KeptAsLoaded, Kept, Freed, Tried, GivenUp, RetiredFrom;
    var list, slots := Preserved(preset, outcomes), LoadedSlots(preset, outcomes);
    PreservedIsDistinct(preset, outcomes);
    forall s | s in slots && s.plugin.None?
      ensures KeptAsLoaded(Packed(list), s, preset)
    {
      LoadKeepsAll(preset, outcomes, s);
    }
    forall k | 0 <= k < MAX_SLOTS && Packed(list)[k].Some?
      ensures exists s :: s in slots && s.plugin.None? && s.id == Packed(list)[k].value.id
    {
      LoadLeavesNothingStale(preset, outcomes, list[k]);
    }
  }

  lemma PreservedIsDistinct(preset: seq<Snapshot>, outcomes: seq<Outcome>)
    requires |outcomes| == |preset| && Loadable(preset)
    ensures EntriesDistinct(Packed(Preserved(preset, outcomes)))
  {
    PreservedDistinct(preset, outcomes);
  }

  // ---------------------------------------------------------------- commands keep it

  // No other slot has the identity of a slot without a plug-in.
  ghost predicate PlaceholdersAlone(slots: seq<Slot>) {
    forall i, j :: 0 <= i < |slots| && 0 <= j < |slots| && i != j && slots[i].plugin.None? ==> slots[i].id != slots[j].id
  }

  // No slot without a plug-in has an identity at or above the next one to be
  // given out; zero means that none is left.
  ghost predicate MissingBelow(slots: seq<Slot>, next: U64) {
    next != 0 ==> forall s :: s in slots && s.plugin.None? ==> s.id < next
  }

  ghost predicate PlaceholdersRight(r: Rack) {
    PlaceholdersAlone(r.slots) && MissingBelow(r.slots, r.nextId)
  }

  lemma RemovedAlone(slots: seq<Slot>, i: nat)
    requires i < |slots| && PlaceholdersAlone(slots)
    ensures PlaceholdersAlone(Removed(slots, i))
    ensures forall s :: s in Removed(slots, i) ==>
      s in slots && (s.plugin.None? || slots[i].plugin.None? ==> s.id != slots[i].id)
  {
    var rest := Removed(slots, i);
    assert forall k :: 0 <= k < |rest| ==> rest[k] == slots[if k < i then k else k + 1];
  }

  lemma InsertedAlone(slots: seq<Slot>, at: nat, slot: Slot)
    requires at <= |slots| && PlaceholdersAlone(slots)
    requires forall s :: s in slots && (s.plugin.None? || slot.plugin.None?) ==> s.id != slot.id
    ensures PlaceholdersAlone(Inserted(slots, at, slot))
    ensures forall s :: s in Inserted(slots, at, slot) <==> s in slots || s == slot
  {
    var all := Inserted(slots, at, slot);
    assert forall k :: 0 <= k < |all| ==> all[k] == if k < at then slots[k] else if k == at then slot else slots[k - 1];
    assert all[at] == slot;
  }

  // A slot put in has a plug-in and an identity no placeholder has, or takes
  // the place of the slot cut out.
  lemma EditKeepsAlone(before: seq<Slot>, after: seq<Slot>, cut: Option<nat>, at: nat, put: Option<Slot>)
    requires Edited(before, after, cut, at, put) && PlaceholdersAlone(before)
    requires put.Some? && cut.None? ==>
      put.value.plugin.Some? && forall s :: s in before && s.plugin.None? ==> s.id != put.value.id
    requires put.Some? && cut.Some? ==>
      put.value.id == before[cut.value].id && (put.value.plugin.None? ==> before[cut.value].plugin.None?)
    ensures PlaceholdersAlone(after)
    ensures forall s :: s in after ==> s in before || put == Some(s)
  {
    hide PlaceholdersAlone, Removed, Inserted;
    if cut.Some? { RemovedAlone(before, cut.value); }
    var rest := if cut.Some? then Removed(before, cut.value) else before;
    if put.Some? { InsertedAlone(rest, at, put.value); }
  }

  // A slot without a plug-in after an accepted command was there before it, and
  // nobody has been given its identity.
  lemma PlaceholdersAreOld(r: Rack, c: Command, preset: seq<Snapshot>, missing: Entries)
    requires PlaceholdersRight(r) && Verdict(r, c).Accepted? && AllKept(Worker(r, missing), preset)
    ensures PlaceholdersAlone(SlotsAfter(r, c))
    ensures forall s :: s in SlotsAfter(r, c) && s.plugin.None? ==> s in r.slots
  {
    hide ActiveSlots, Inserted, Removed, MovedTo, PlaceholdersAlone, Edited, FindEntry;
    CommandEdits(r, c);
    EditKeepsAlone(r.slots, SlotsAfter(r, c), CutAt(r, c), PutAt(r, c), PutSlot(r, c));
    if c.SetBypass? {
      var was := r.slots[IndexOf(r.slots, c.id)];
      assert was in r.slots && CanBypass(was.health);
      assert was.plugin.None? ==> KeptAsLoaded(missing, was, preset);
    }
  }

  lemma IndexOfPlaceholder(slots: seq<Slot>, s: Slot)
    requires PlaceholdersAlone(slots) && s in slots && s.plugin.None?
    ensures IndexOf(slots, s.id) < |slots| && slots[IndexOf(slots, s.id)] == s
  {
    var i :| 0 <= i < |slots| && slots[i] == s;
    var j := IndexOf(slots, s.id);
    assert j <= i;
  }

  lemma {:induction false} FindEntryFrame(before: seq<Option<Snapshot>>, after: seq<Option<Snapshot>>, id: U64)
    requires |before| == |after|
    requires forall k :: 0 <= k < |before| ==>
      if Holds(before[k], id) then after[k] == before[k] else !Holds(after[k], id)
    ensures FindEntry(after, id) == FindEntry(before, id)
  {
    if before != [] {
      assert if Holds(before[0], id) then after[0] == before[0] else !Holds(after[0], id);
      FindEntryFrame(before[1..], after[1..], id);
    }
  }

  lemma PruneKeepsMissing(entries: Entries, slots: seq<Slot>, s: Slot)
    requires PlaceholdersAlone(slots) && s in slots && s.plugin.None?
    ensures FindEntry(Pruned(entries, slots), s.id) == FindEntry(entries, s.id)
  {
    IndexOfPlaceholder(slots, s);
    hide PlaceholdersAlone, IndexOf, FindEntry;
    FindEntryFrame(entries, Pruned(entries, slots), s.id);
  }

  // What a load leaves and every later step keeps, as long as no load succeeds.
  ghost predicate Safe(w: Worker, preset: seq<Snapshot>) {
    PlaceholdersRight(w.rack) && Preserves(w, preset)
  }

  lemma AcceptedPreserves(r: Rack, c: Command, missing: Entries, preset: seq<Snapshot>)
    requires Verdict(r, c).Accepted? && Safe(Worker(r, missing), preset)
    ensures Safe(Worker(Committed(r, c), Pruned(missing, SlotsAfter(r, c))), preset)
  {
    hide ActiveSlots, SlotsAfter, Dropped, PlaceholdersAlone, FindEntry, Opened;
    var slots, kept := SlotsAfter(r, c), Pruned(missing, SlotsAfter(r, c));
    PlaceholdersAreOld(r, c, preset, missing);
    forall s | s in slots && s.plugin.None?
      ensures KeptAsLoaded(kept, s, preset)
    {
      PruneKeepsMissing(missing, slots, s);
      assert KeptAsLoaded(missing, s, preset);
    }
    forall k | 0 <= k < MAX_SLOTS && kept[k].Some?
      ensures exists s :: s in slots && s.plugin.None? && s.id == kept[k].value.id
    {
      assert slots[IndexOf(slots, kept[k].value.id)] in slots;
    }
  }

  lemma StepPreserves(w: Worker, e: Event, preset: seq<Snapshot>)
    requires Safe(w, preset) && Enabled(w, e) && !Replaces(w, e)
    ensures Safe(Apply(w, e), preset)
  {
    hide Verdict, Committed, Safe, Pruned, SlotsAfter, Kept, Freed;
    match e
    case Run(c, idleBefore, idleAfter) =>
      var reaped := Reaped(w.rack, idleBefore);
      SamePlaceholders(w, Worker(reaped, w.missing), preset);
      var done := AfterCommand(reaped, c);
      if Verdict(reaped, c).Accepted? {
        AcceptedPreserves(reaped, c, w.missing, preset);
        SlotsOfCommitted(reaped, c);
        SamePlaceholders(Worker(done, Pruned(w.missing, done.slots)), Apply(w, e), preset);
      } else {
        SamePlaceholders(Worker(reaped, w.missing), Apply(w, e), preset);
      }
    case LoadFrom(_, _, _, _) => SamePlaceholders(w, Apply(w, e), preset);
  }

  lemma SlotsOfCommitted(r: Rack, c: Command)
    requires Verdict(r, c).Accepted?
    ensures Committed(r, c).slots == SlotsAfter(r, c)
  {
  }

  lemma SamePlaceholders(w: Worker, v: Worker, preset: seq<Snapshot>)
    requires w.rack.slots == v.rack.slots && w.rack.nextId == v.rack.nextId && w.missing == v.missing
    ensures Safe(w, preset) <==> Safe(v, preset)
  {
  }

  lemma {:induction false} PreservesRun(w: Worker, es: seq<Event>, preset: seq<Snapshot>)
    requires Safe(w, preset) && Runs(w, es) && NoLoadSucceeds(w, es)
    ensures Safe(End(w, es), preset)
    decreases |es|
  {
    hide Enabled, Apply, Safe, Replaces;
    if es != [] {
      StepPreserves(w, es[0], preset);
      PreservesRun(Apply(w, es[0]), es[1..], preset);
    }
  }

  // Saving s writes the loaded snapshot back with its health brought up to date.
  ghost predicate SavedAsLoaded(entries: Entries, s: Slot, preset: seq<Snapshot>) {
    && FindEntry(entries, s.id).Some?
    && var source := FindEntry(entries, s.id).value;
       source in preset && Resaved(s, source) == source.(health := PersistedHealth(s.health))
  }

  ghost predicate AllSavedAsLoaded(w: Worker, preset: seq<Snapshot>) {
    NothingLost(w) && forall s :: s in w.rack.slots && s.plugin.None? ==> SavedAsLoaded(w.missing, s, preset)
  }

  lemma SafeIsSaved(w: Worker, preset: seq<Snapshot>)
    requires Safe(w, preset)
    ensures AllSavedAsLoaded(w, preset)
  {
    hide FindEntry;
    forall s | s in w.rack.slots && s.plugin.None?
      ensures KeptAsLoaded(w.missing, s, preset) && SavedAsLoaded(w.missing, s, preset)
    {
    }
  }

  // After a load none of whose missing slots has an identity at or above the
  // next one, any run of commands and refused loads keeps, for every slot still
  // without its plug-in, exactly one snapshot, and saving the Rack writes the
  // loaded one back: identity, path, class, bypass and state bytes are the same.
  lemma MissingStateSurvives(w: Worker, preset: seq<Snapshot>, outcomes: seq<Outcome>, reserved: bool, idle: seq<bool>,
                             es: seq<Event>)
    requires |outcomes| == |preset| && Loadable(preset) && Reservable(w.rack, reserved)
    requires var l := Load(w, preset, outcomes, reserved, idle);
             MissingBelow(l.rack.slots, l.rack.nextId) && Runs(l, es) && NoLoadSucceeds(l, es)
    ensures var t := End(Load(w, preset, outcomes, reserved, idle), es);
            AllSavedAsLoaded(t, preset) && EntriesDistinct(t.missing) && NothingStale(t)
  {
    hide Runs, End, Load, FindEntry, Loadable, AllSavedAsLoaded, AllKept;
    var l := Load(w, preset, outcomes, reserved, idle);
    LoadPreserves(w, preset, outcomes, reserved, idle);
    LoadGivesDistinctIds(w, preset, outcomes, reserved, idle);
    PreservesRun(l, es, preset);
    SafeIsSaved(End(l, es), preset);
  }

  // ---------------------------------------------------------------- and how it is lost

  function AddFirst(plugin: Plugin): Event {
    Run(Add(0, Some(Record([], [])), Some(Opening(plugin, 0)), true), [], [])
  }

  // When the next identity is that of a missing slot, a plug-in added in front
  // takes the identity over: the prune that follows finds the new slot first,
  // throws the missing slot's only state away, and nothing can be saved after.
  lemma AddLosesMissingState(w: Worker, missing: Slot, plugin: Plugin)
    requires missing in w.rack.slots && missing.plugin.None? && missing.id == w.rack.nextId
    requires CanAdd(w.rack, 1) && plugin !in w.rack.everOpened
    ensures Enabled(w, AddFirst(plugin)) && AddFirst(plugin).Run?
    ensures var t := Apply(w, AddFirst(plugin));
            missing in t.rack.slots && FindEntry(t.missing, missing.id).None? && !NothingLost(t)
  {
    hide ActiveSlots, Kept, Freed;
    var t := Apply(w, AddFirst(plugin));
    var slots := t.rack.slots;
    var i :| 0 <= i < |w.rack.slots| && w.rack.slots[i] == missing;
    assert slots[i + 1] == missing && slots[0].id == missing.id;
    assert IndexOf(slots, missing.id) == 0;
    assert t.missing == Pruned(w.missing, slots);
    assert forall k :: 0 <= k < MAX_SLOTS ==> !Holds(KeptEntry(w.missing[k], slots), missing.id);
  }

  // Adding and removing in turn, the counter reaches the identity of a missing
  // slot, and one more plug-in added in front takes its state away.
  lemma {:induction false} CounterReachesMissing(w: Worker, x: Slot) returns (es: seq<Event>)
    requires x in w.rack.slots && x.plugin.None? && w.rack.nextId <= x.id
    requires CanAdd(w.rack, 2 * (x.id - w.rack.nextId) + 1) && forall s :: s in w.rack.slots ==> CanChange(s.health)
    ensures Runs(w, es) && NoLoadSucceeds(w, es) && !NothingLost(End(w, es))
    decreases x.id - w.rack.nextId
  {
    hide Enabled, Apply, NothingLost;
    var r := w.rack;
    var plugin := SomePluginIsNew(r.everOpened);
    if x.id == r.nextId {
      AddLosesMissingState(w, x, plugin);
      RunsCons(w, AddFirst(plugin), []);
      es := [AddFirst(plugin)] + [];
    } else {
      var add, remove := AddLast(|r.slots|, plugin), Run(Remove(r.nextId, true), [], []);
      AddLastAdds(w, plugin);
      var added := Apply(w, add);
      assert added.rack.slots[|r.slots|] in added.rack.slots;
      RemoveLeaves(added, r.nextId, x);
      var rest := CounterReachesMissing(Apply(added, remove), x);
      RunsCons(added, remove, rest);
      RunsCons(w, add, [remove] + rest);
      es := [add] + ([remove] + rest);
    }
  }

  // Whether every later run of commands and refused loads saves the loaded state.
  ghost predicate StaysSaved(w: Worker, preset: seq<Snapshot>) {
    forall es: seq<Event> :: Runs(w, es) && NoLoadSucceeds(w, es) ==> AllSavedAsLoaded(End(w, es), preset)
  }

  lemma SomeRunLoses(w: Worker, x: Slot, preset: seq<Snapshot>)
    requires x in w.rack.slots && x.plugin.None? && SLOT_ID_BASE <= w.rack.nextId <= x.id && Distinct(w.rack.slots)
    requires |w.rack.slots| <= MAX_SLOTS && forall s :: s in w.rack.slots ==> CanChange(s.health)
    requires 0 < w.rack.generation && w.rack.generation + 2 * (x.id - w.rack.nextId) + 2 <= LAST_GENERATION
    ensures !StaysSaved(w, preset)
  {
    hide Runs, End, Enabled, Apply, Distinct, NothingLost, SavedAsLoaded;
    if |w.rack.slots| < MAX_SLOTS {
      var es := CounterReachesMissing(w, x);
      assert !AllSavedAsLoaded(End(w, es), preset);
    } else {
      var e := RoomIsMade(w, x);
      var rest := CounterReachesMissing(Apply(w, e), x);
      RunsCons(w, e, rest);
      assert !AllSavedAsLoaded(End(w, [e] + rest), preset);
    }
  }

  // Missing plug-ins lose nothing after a load exactly when none of them has an
  // identity at or above the next one, whatever the identities of the plug-ins
  // that did open.  The runs that lose need generation numbers to count with.
  lemma MissingStateSurvivesIff(w: Worker, preset: seq<Snapshot>, outcomes: seq<Outcome>, reserved: bool, idle: seq<bool>)
    requires |outcomes| == |preset| && Loadable(preset) && Reservable(w.rack, reserved)
    requires forall x :: x in preset ==> w.rack.generation + 2 * (x.id - SLOT_ID_BASE) + 3 <= LAST_GENERATION
    ensures var l := Load(w, preset, outcomes, reserved, idle);
            StaysSaved(l, preset) <==> MissingBelow(l.rack.slots, l.rack.nextId)
  {
    hide ActiveSlots, Kept, Freed, Tried, GivenUp, RetiredFrom, Packed, Preserved, Runs, End, Distinct, AllSavedAsLoaded;
    var l := Load(w, preset, outcomes, reserved, idle);
    LoadGivesDistinctIds(w, preset, outcomes, reserved, idle);
    LoadedSlotsCanChange(w, preset, outcomes, reserved, idle);
    if MissingBelow(l.rack.slots, l.rack.nextId) {
      forall es: seq<Event> | Runs(l, es) && NoLoadSucceeds(l, es)
        ensures AllSavedAsLoaded(End(l, es), preset)
      {
        MissingStateSurvives(w, preset, outcomes, reserved, idle, es);
      }
    } else {
      hide StaysSaved;
      var x :| x in l.rack.slots && x.plugin.None? && x.id >= l.rack.nextId;
      SomeRunLoses(l, x, preset);
    }
  }

  lemma LoadOfTwoMissing(a: Snapshot, c: Snapshot)
    requires a.id == SLOT_ID_BASE && c.id == SLOT_ID_BASE + 2
    ensures var outcomes := [CannotOpen, CannotOpen]; var l := Load(EMPTY_WORKER, [a, c], outcomes, true, []);
            && Loadable([a, c]) && Enabled(EMPTY_WORKER, LoadFrom([a, c], outcomes, true, []))
            && l.rack.slots == [LoadedSlot(a, CannotOpen), LoadedSlot(c, CannotOpen)]
            && l.rack.nextId == SLOT_ID_BASE + 1 && l.rack.generation == 2 && l.rack.everOpened == {}
            && Apply(EMPTY_WORKER, LoadFrom([a, c], outcomes, true, [])) == l
    ensures LoadedSlot(c, CannotOpen).plugin.None? && LoadedSlot(c, CannotOpen).id == c.id
  {
    hide ActiveSlots, Kept, Freed, Preserved, Packed;
    var outcomes := [CannotOpen, CannotOpen];
    assert Loadable([a, c]);
    var slots := LoadedSlots([a, c], outcomes);
    assert slots == [LoadedSlot(a, CannotOpen), LoadedSlot(c, CannotOpen)];
    var next: U64 := SLOT_ID_BASE + 1;
    assert slots[0] in slots && slots[1] in slots;
    FirstUnusedIsUnique(slots, next, FirstUnusedId(slots));
  }

  // The loss does happen: a preset with the base identity and the one after the
  // next, both plug-ins missing, then two plug-ins added.  Whatever state the
  // preset held for its second slot is gone and capture has none to save.
  lemma TwoAddsAfterALoadLoseState(a: Snapshot, c: Snapshot)
    requires a.id == SLOT_ID_BASE && c.id == SLOT_ID_BASE + 2
    ensures var l := LoadFrom([a, c], [CannotOpen, CannotOpen], true, []);
            var es := [l, AddLast(2, 0), AddFirst(1)];
            && Runs(EMPTY_WORKER, es)
            && var t := End(EMPTY_WORKER, es);
               LoadedSlot(c, CannotOpen) in t.rack.slots && !NothingLost(t) && FindEntry(t.missing, c.id).None?
  {
    hide Enabled, Apply, LoadedSlot;
    var l := LoadFrom([a, c], [CannotOpen, CannotOpen], true, []);
    LoadOfTwoMissing(a, c);
    var w1 := Apply(EMPTY_WORKER, l);
    AddLastAdds(w1, 0);
    var w2 := Apply(w1, AddLast(2, 0));
    assert w2.rack.slots[1] == LoadedSlot(c, CannotOpen);
    AddLosesMissingState(w2, LoadedSlot(c, CannotOpen), 1);
    var rest := [AddLast(2, 0), AddFirst(1)];
    assert [l, AddLast(2, 0), AddFirst(1)][1..] == rest && rest[1..] == [AddFirst(1)] && [AddFirst(1)][1..] == [];
  }
}
