/**
Missing plug-ins and loads, src/rack/main_r3_4.cpp: the eight-entry store that
keeps the persisted state of every slot whose plug-in could not be opened, the
capture that reads it back, and the load that fills it.
 */
module MissingStates {
  import opened Wrappers
  import opened Bytes
  import opened RackSlots
  import Codec = SessionCodec

  type Snapshot = Codec.Slot

  // What trying to open and restore one saved slot came to.
  datatype Outcome = CannotOpen | RestoreFails(plugin: Plugin) | Restores(plugin: Plugin, latency: nat)

  // ---------------------------------------------------------------- the store, as a list of entries

  type Entries = s: seq<Option<Snapshot>> | |s| == MAX_SLOTS witness seq(MAX_SLOTS, _ => None)

  const NO_ENTRIES: Entries := seq(MAX_SLOTS, _ => None)

  ghost predicate Holds(e: Option<Snapshot>, id: U64) {
    e.Some? && e.value.id == id
  }

  // The first entry of this slot.
  function FindEntry(entries: seq<Option<Snapshot>>, id: U64): (r: Option<Snapshot>)
    ensures r.Some? ==> r.value.id == id && r in entries
    ensures r.None? <==> forall k :: 0 <= k < |entries| ==> !Holds(entries[k], id)
  {
    if entries == [] then None
    else if entries[0].Some? && entries[0].value.id == id then entries[0]
    else FindEntry(entries[1..], id)
  }

  // Where put stores a snapshot of this slot: over its entry, else in the first
  // free one, else nowhere.
  ghost function PlaceFor(entries: Entries, id: U64): (k: nat)
    ensures k <= MAX_SLOTS
  {
    if i :| 0 <= i < MAX_SLOTS && Holds(entries[i], id) && forall j :: 0 <= j < i ==> !Holds(entries[j], id) then i
    else if i :| 0 <= i < MAX_SLOTS && entries[i].None? && forall j :: 0 <= j < i ==> entries[j].Some? then i
    else MAX_SLOTS
  }

  // The snapshots of a store that was only ever filled, in order of arrival.
  function Packed(list: seq<Snapshot>): Entries
    requires |list| <= MAX_SLOTS
  {
    seq(MAX_SLOTS, i requires 0 <= i < MAX_SLOTS => if i < |list| then Some(list[i]) else None)
  }

  function KeptEntry(e: Option<Snapshot>, slots: seq<Slot>): Option<Snapshot> {
    if e.None? then None
    else
      var i := IndexOf(slots, e.value.id);
      if i >= |slots| || slots[i].plugin.Some? then None else e
  }

  // prune: an entry stays while the slot of its identity has no plug-in.
  function Pruned(entries: Entries, slots: seq<Slot>): Entries {
    seq(MAX_SLOTS, i requires 0 <= i < MAX_SLOTS => KeptEntry(entries[i], slots))
  }

  class MissingStore {
    const entries: array<Option<Snapshot>>

    ghost predicate Valid()
      reads this
    {
      entries.Length == MAX_SLOTS
    }

    constructor ()
      ensures Valid() && fresh(entries) && entries[..] == NO_ENTRIES
    {
      entries := new Option<Snapshot>[MAX_SLOTS](_ => None);
    }

    method Find(id: U64) returns (r: Option<Snapshot>)
      requires Valid()
      ensures r == FindEntry(entries[..], id)
    {
      var k := 0;
      while k < entries.Length
        invariant k <= entries.Length
        invariant FindEntry(entries[..], id) == FindEntry(entries[k..], id)
      {
        if entries[k].Some? && entries[k].value.id == id { return entries[k]; }
        assert entries[k..][1..] == entries[k + 1..];
        k := k + 1;
      }
      r := None;
    }

    // An entry of the same slot is overwritten; otherwise the first free entry
    // is taken; a full store refuses.
    method Put(snapshot: Snapshot) returns (ok: bool)
      requires Valid()
      modifies entries
      ensures ok <==> PlaceFor(old(entries[..]), snapshot.id) < MAX_SLOTS
      ensures entries[..] == if ok then old(entries[..])[PlaceFor(old(entries[..]), snapshot.id) := Some(snapshot)]
                             else old(entries[..])
    {
      var k := 0;
      while k < entries.Length
        invariant k <= entries.Length
        invariant forall j :: 0 <= j < k ==> !Holds(entries[j], snapshot.id)
        invariant entries[..] == old(entries[..])
      {
        if entries[k].Some? && entries[k].value.id == snapshot.id {
          entries[k] := Some(snapshot);
          return true;
        }
        k := k + 1;
      }
      k := 0;
      while k < entries.Length
        invariant k <= entries.Length
        invariant forall j :: 0 <= j < k ==> entries[j].Some?
        invariant entries[..] == old(entries[..])
      {
        if entries[k].None? {
          entries[k] := Some(snapshot);
          return true;
        }
        k := k + 1;
      }
      ok := false;
    }

    method Prune(rack: DynamicRack)
      requires Valid() && rack.Valid() && {rack, rack.slots as object} !! {this, entries as object}
      modifies entries
      ensures entries[..] == Pruned(old(entries[..]), rack.slots[..rack.count])
    {
      var k := 0;
      while k < entries.Length
        invariant k <= entries.Length
        invariant forall j :: k <= j < MAX_SLOTS ==> entries[j] == old(entries[j])
        invariant forall j :: 0 <= j < k ==> entries[j] == KeptEntry(old(entries[j]), rack.slots[..rack.count])
      {
        if entries[k].Some? {
          var i := rack.FindSlot(entries[k].value.id);
          if i >= rack.count || rack.slots[i].plugin.Some? {
            entries[k] := None;
          }
        }
        k := k + 1;
      }
    }
  }

  // A store that was only filled takes one more slot at its end.
  lemma PutPacked(list: seq<Snapshot>, snapshot: Snapshot)
    requires |list| < MAX_SLOTS && forall i :: 0 <= i < |list| ==> list[i].id != snapshot.id
    ensures PlaceFor(Packed(list), snapshot.id) == |list|
    ensures Packed(list)[|list| := Some(snapshot)] == Packed(list + [snapshot])
  {
    assert Packed(list)[|list|].None?;
    assert forall i :: 0 <= i < |list| ==> Packed(list)[i] == Some(list[i]);
  }

  // ---------------------------------------------------------------- what a load makes of a preset

  function LoadedSlot(source: Snapshot, outcome: Outcome): Slot {
    if source.health.Quarantined? then
      Slot(source.id, None, Record(source.path, source.classId), source.bypass, Quarantined, 0)
    else if outcome.Restores? then
      Slot(source.id, Some(outcome.plugin), Record(source.path, source.classId), source.bypass, Ready, outcome.latency)
    else Slot(source.id, None, Record(source.path, source.classId), source.bypass, Missing, 0)
  }

  function LoadedSlots(preset: seq<Snapshot>, outcomes: seq<Outcome>): seq<Slot>
    requires |outcomes| == |preset|
  {
    seq(|preset|, i requires 0 <= i < |preset| => LoadedSlot(preset[i], outcomes[i]))
  }

  // The snapshots whose plug-ins are not there, in order.
  function Preserved(preset: seq<Snapshot>, outcomes: seq<Outcome>): (list: seq<Snapshot>)
    requires |outcomes| == |preset|
    ensures |list| <= |preset|
    ensures forall x :: x in list ==> x in preset
  {
    if preset == [] then []
    else
      var k := |preset| - 1;
      Preserved(preset[..k], outcomes[..k])
      + if LoadedSlot(preset[k], outcomes[k]).plugin.None? then [preset[k]] else []
  }

  // The plug-ins opened for these slots, and those closed again because they
  // could not be restored.
  function Tried(preset: seq<Snapshot>, outcomes: seq<Outcome>): set<Plugin>
    requires |outcomes| == |preset|
  {
    set i | 0 <= i < |preset| && !preset[i].health.Quarantined? && !outcomes[i].CannotOpen? :: outcomes[i].plugin
  }

  function GivenUp(preset: seq<Snapshot>, outcomes: seq<Outcome>): set<Plugin>
    requires |outcomes| == |preset|
  {
    set i | 0 <= i < |preset| && !preset[i].health.Quarantined? && outcomes[i].RestoreFails? :: outcomes[i].plugin
  }

  predicate Loadable(preset: seq<Snapshot>) {
    && |preset| <= MAX_SLOTS
    && Codec.DistinctIds(preset)
    && forall i :: 0 <= i < |preset| ==> preset[i].id != 0
  }

  // How far a load gets from slot k on before it meets a bad identity.
  function GoodUpTo(preset: seq<Snapshot>, k: nat): (n: nat)
    requires k <= |preset|
    ensures k <= n <= |preset|
    decreases |preset| - k
  {
    if k == |preset| || preset[k].id == 0 || exists j :: 0 <= j < k && preset[j].id == preset[k].id then k
    else GoodUpTo(preset, k + 1)
  }

  function Reached(preset: seq<Snapshot>): (n: nat)
    ensures n <= |preset|
  {
    if |preset| > MAX_SLOTS then 0 else GoodUpTo(preset, 0)
  }

  lemma LoadStep(preset: seq<Snapshot>, outcomes: seq<Outcome>, k: nat)
    requires |outcomes| == |preset| && k < |preset|
    ensures LoadedSlots(preset[..k + 1], outcomes[..k + 1])
         == Inserted(LoadedSlots(preset[..k], outcomes[..k]), k, LoadedSlot(preset[k], outcomes[k]))
    ensures Preserved(preset[..k + 1], outcomes[..k + 1])
         == Preserved(preset[..k], outcomes[..k])
            + if LoadedSlot(preset[k], outcomes[k]).plugin.None? then [preset[k]] else []
  {
    assert preset[..k + 1][..k] == preset[..k] && outcomes[..k + 1][..k] == outcomes[..k];
  }

  // The plug-in opened for slot k, if any.
  function OpenedFor(source: Snapshot, outcome: Outcome): set<Plugin> {
    if source.health.Quarantined? || outcome.CannotOpen? then {} else {outcome.plugin}
  }

  lemma TriedStep(preset: seq<Snapshot>, outcomes: seq<Outcome>, k: nat)
    requires |outcomes| == |preset| && k < |preset|
    ensures Tried(preset[..k + 1], outcomes[..k + 1])
         == Tried(preset[..k], outcomes[..k]) + OpenedFor(preset[k], outcomes[k])
    ensures GivenUp(preset[..k + 1], outcomes[..k + 1])
         == GivenUp(preset[..k], outcomes[..k])
            + if outcomes[k].RestoreFails? then OpenedFor(preset[k], outcomes[k]) else {}
  {
    var tried, givenUp := Tried(preset[..k + 1], outcomes[..k + 1]), GivenUp(preset[..k + 1], outcomes[..k + 1]);
    forall p | p in Tried(preset[..k], outcomes[..k]) + OpenedFor(preset[k], outcomes[k])
      ensures p in tried
    {
      if p in OpenedFor(preset[k], outcomes[k]) {
        assert outcomes[..k + 1][k].plugin == p;
      } else {
        var i :| 0 <= i < k && !preset[i].health.Quarantined? && !outcomes[i].CannotOpen? && outcomes[i].plugin == p;
        assert outcomes[..k + 1][i].plugin == p;
      }
    }
    forall p | p in GivenUp(preset[..k], outcomes[..k])
      ensures p in givenUp
    {
      var i :| 0 <= i < k && !preset[i].health.Quarantined? && outcomes[i].RestoreFails? && outcomes[i].plugin == p;
      assert outcomes[..k + 1][i].plugin == p;
    }
    if outcomes[k].RestoreFails? && !preset[k].health.Quarantined? {
      assert outcomes[..k + 1][k].plugin in givenUp;
    }
  }

  // Whether the identity of slot k is good is exactly what the loop looks up.
  lemma LookupDecides(preset: seq<Snapshot>, outcomes: seq<Outcome>, k: nat)
    requires |outcomes| == |preset| && k < |preset|
    ensures IndexOf(LoadedSlots(preset[..k], outcomes[..k]), preset[k].id) < k
        <==> exists j :: 0 <= j < k && preset[j].id == preset[k].id
    ensures IndexOf(LoadedSlots(preset[..k], outcomes[..k]), preset[k].id) == k ==>
      forall x :: x in Preserved(preset[..k], outcomes[..k]) ==> x.id != preset[k].id
  {
    var slots := LoadedSlots(preset[..k], outcomes[..k]);
    assert forall j :: 0 <= j < k ==> slots[j].id == preset[j].id;
    var i := IndexOf(slots, preset[k].id);
    if i < k { assert preset[i].id == preset[k].id; }
    forall x | x in Preserved(preset[..k], outcomes[..k]) && i == k
      ensures x.id != preset[k].id
    {
      var j :| 0 <= j < k && preset[j] == x;
      assert slots[j].id != preset[k].id;
    }
  }

  lemma GoodExactlyWhenLoadable(preset: seq<Snapshot>, k: nat)
    requires k <= |preset| <= MAX_SLOTS && Codec.DistinctIds(preset[..k])
    requires forall i :: 0 <= i < k ==> preset[i].id != 0
    ensures k < |preset| && (preset[k].id == 0 || exists j :: 0 <= j < k && preset[j].id == preset[k].id) ==> !Loadable(preset)
    ensures k < |preset| && preset[k].id != 0 && (forall j :: 0 <= j < k ==> preset[j].id != preset[k].id) ==>
      Codec.DistinctIds(preset[..k + 1])
    ensures k == |preset| ==> Loadable(preset)
  {
    if k == |preset| { assert preset[..k] == preset; }
  }

  lemma TooLong(preset: seq<Snapshot>)
    requires |preset| > MAX_SLOTS
    ensures !Loadable(preset) && Reached(preset) == 0
  {
  }

  lemma LoadNothing(preset: seq<Snapshot>, outcomes: seq<Outcome>)
    requires |outcomes| == |preset|
    ensures LoadedSlots(preset[..0], outcomes[..0]) == [] && Packed(Preserved(preset[..0], outcomes[..0])) == NO_ENTRIES
    ensures Tried(preset[..0], outcomes[..0]) == {} && GivenUp(preset[..0], outcomes[..0]) == {}
    ensures preset[..|preset|] == preset && outcomes[..|preset|] == outcomes
  {
  }

  method CloseCandidate(candidate: DynamicRack)
    requires candidate.Valid()
    modifies candidate, candidate.slots
    ensures candidate.everOpened == old(candidate.everOpened) && candidate.everClosed == old(candidate.everOpened)
  {
    candidate.count := 0;
    candidate.everClosed := candidate.everOpened;
  }

  // One saved slot of a load: placed in the candidate, and its snapshot in the
  // store if its plug-in is not there.  `list` is what the store holds so far.
  method PlaceLoaded(source: Snapshot, outcome: Outcome, candidate: DynamicRack, missing: MissingStore,
                     ghost list: seq<Snapshot>)
    requires candidate.Valid() && missing.Valid() && candidate.count < MAX_SLOTS
    requires {candidate, candidate.slots as object} !! {missing, missing.entries as object}
    requires |list| <= candidate.count && missing.entries[..] == Packed(list)
    requires forall x :: x in list ==> x.id != source.id
    modifies candidate, candidate.slots, missing.entries
    ensures candidate.Valid() && candidate.count == old(candidate.count) + 1
    ensures candidate.slots[..candidate.count]
         == Inserted(old(candidate.slots[..candidate.count]), old(candidate.count), LoadedSlot(source, outcome))
    ensures missing.entries[..]
         == Packed(list + if LoadedSlot(source, outcome).plugin.None? then [source] else [])
    ensures candidate.everOpened == old(candidate.everOpened) + OpenedFor(source, outcome)
    ensures candidate.everClosed
         == old(candidate.everClosed) + if outcome.RestoreFails? then OpenedFor(source, outcome) else {}
  {
    hide Inserted, Packed, PlaceFor;
    candidate.everOpened := candidate.everOpened + OpenedFor(source, outcome);
    if outcome.RestoreFails? { candidate.everClosed := candidate.everClosed + OpenedFor(source, outcome); }
    candidate.InsertAt(candidate.count, LoadedSlot(source, outcome));
    if LoadedSlot(source, outcome).plugin.None? {
      PutPacked(list, source);
      var _ := missing.Put(source);
    } else {
      assert list + [] == list;
    }
  }

  // materialize_preset_candidate.  It refuses exactly the presets that are too
  // long or have a zero or repeated identity: never for want of room in the
  // store, nor of an identity for the next slot.
  method Materialize(preset: seq<Snapshot>, outcomes: seq<Outcome>)
    returns (ok: bool, candidate: DynamicRack, missing: MissingStore)
    requires |outcomes| == |preset|
    ensures fresh(candidate) && fresh(candidate.slots) && fresh(missing) && fresh(missing.entries)
    ensures ok <==> Loadable(preset)
    ensures ok ==> candidate.Valid() && candidate.slots[..candidate.count] == LoadedSlots(preset, outcomes)
    ensures ok ==> FirstUnused(LoadedSlots(preset, outcomes), candidate.nextId)
    ensures ok ==> missing.Valid() && missing.entries[..] == Packed(Preserved(preset, outcomes))
    ensures candidate.everOpened == Tried(preset[..Reached(preset)], outcomes[..Reached(preset)])
    ensures candidate.everClosed
         == if ok then GivenUp(preset, outcomes) else Tried(preset[..Reached(preset)], outcomes[..Reached(preset)])
  {
    hide LoadedSlots, LoadedSlot, Preserved, Tried, GivenUp, Packed, Inserted, Loadable, IndexOf, PlaceFor;
    candidate := new DynamicRack();
    missing := new MissingStore();
    LoadNothing(preset, outcomes);
    if |preset| > MAX_SLOTS {
      assert !Loadable(preset) by { TooLong(preset); }
      return false, candidate, missing;
    }
    var k := 0;
    while k < |preset|
      invariant k <= |preset| && fresh(candidate) && fresh(candidate.slots) && fresh(missing) && fresh(missing.entries)
      invariant candidate.Valid() && missing.Valid() && candidate.count == k
      invariant candidate.slots[..k] == LoadedSlots(preset[..k], outcomes[..k])
      invariant missing.entries[..] == Packed(Preserved(preset[..k], outcomes[..k]))
      invariant Codec.DistinctIds(preset[..k]) && forall i :: 0 <= i < k ==> preset[i].id != 0
      invariant Reached(preset) == GoodUpTo(preset, k)
      invariant candidate.everOpened == Tried(preset[..k], outcomes[..k])
      invariant candidate.everClosed == GivenUp(preset[..k], outcomes[..k])
    {
      var source, outcome := preset[k], outcomes[k];
      LookupDecides(preset, outcomes, k);
      GoodExactlyWhenLoadable(preset, k);
      LoadStep(preset, outcomes, k);
      TriedStep(preset, outcomes, k);
      var found := candidate.FindSlot(source.id);
      if source.id == 0 || found < candidate.count {
        CloseCandidate(candidate);
        return false, candidate, missing;
      }
      PlaceLoaded(source, outcome, candidate, missing, Preserved(preset[..k], outcomes[..k]));
      k := k + 1;
    }
    GoodExactlyWhenLoadable(preset, k);
    ok := candidate.AssignNextSlotId();
  }

  lemma LoadableIsReached(preset: seq<Snapshot>, k: nat)
    requires Loadable(preset) && k <= |preset|
    ensures GoodUpTo(preset, k) == |preset|
    decreases |preset| - k
  {
  }

  // ---------------------------------------------------------------- the command worker's state

  datatype Worker = Worker(rack: Rack, missing: Entries)

  const EMPTY_WORKER := Worker(EMPTY_RACK, NO_ENTRIES)

  lemma {:induction false} SomeIdIsUnused(slots: seq<Slot>, from: U64) returns (id: U64)
    requires |slots| <= MAX_SLOTS && SLOT_ID_BASE <= from
    requires forall k: U64 :: SLOT_ID_BASE <= k < from ==> k in Ids(slots)
    ensures FirstUnused(slots, id)
    decreases SLOT_ID_BASE + MAX_SLOTS - from
  {
    ConsecutiveIdsAreFew(slots, from);
    if from in Ids(slots) {
      ConsecutiveIdsAreFew(slots, from + 1);
      id := SomeIdIsUnused(slots, from + 1);
    } else {
      id := from;
    }
  }

  ghost function FirstUnusedId(slots: seq<Slot>): (id: U64)
    requires |slots| <= MAX_SLOTS
    ensures FirstUnused(slots, id)
  {
    assert exists id: U64 :: FirstUnused(slots, id) by { var id := SomeIdIsUnused(slots, SLOT_ID_BASE); }
    var id: U64 :| FirstUnused(slots, id);
    id
  }

  // A load that goes through: every slot, the store and the generation are
  // replaced, and the plug-ins of the slots before are retired.
  ghost function Loaded(w: Worker, preset: seq<Snapshot>, outcomes: seq<Outcome>): Worker
    requires |outcomes| == |preset| && Loadable(preset) && w.rack.generation < LAST_GENERATION
  {
    Worker(
      Rack(LoadedSlots(preset, outcomes), FirstUnusedId(LoadedSlots(preset, outcomes)), w.rack.generation + 1,
           if w.rack.index == 0 then 1 else 0, ActiveSlots(LoadedSlots(preset, outcomes)),
           w.rack.retired + RetiredFrom(w.rack.slots, w.rack.index),
           w.rack.everOpened + Tried(preset, outcomes), w.rack.everClosed + GivenUp(preset, outcomes)),
      Packed(Preserved(preset, outcomes)))
  }

  // A load that does not: what it opened is closed, and nothing else changes.
  ghost function LoadRefused(w: Worker, preset: seq<Snapshot>, outcomes: seq<Outcome>): Worker
    requires |outcomes| == |preset|
  {
    var tried := Tried(preset[..Reached(preset)], outcomes[..Reached(preset)]);
    w.(rack := w.rack.(everOpened := w.rack.everOpened + tried, everClosed := w.rack.everClosed + tried))
  }

  // load_preset_into_rack.
  ghost function Load(w: Worker, preset: seq<Snapshot>, outcomes: seq<Outcome>, reserved: bool, idle: seq<bool>): Worker
    requires |outcomes| == |preset|
  {
    if Loadable(preset) && Reservable(w.rack, reserved) then
      Worker(Reaped(Loaded(w, preset, outcomes).rack, idle), Loaded(w, preset, outcomes).missing)
    else LoadRefused(w, preset, outcomes)
  }

  // A command of the worker loop: after an accepted one the store is pruned.
  function Serve(w: Worker, c: Command, idleBefore: seq<bool>, idleAfter: seq<bool>): Worker {
    var out := Execute(w.rack, c, idleBefore, idleAfter);
    Worker(out.0, if out.1.Accepted? then Pruned(w.missing, out.0.slots) else w.missing)
  }

  ghost function WorkerOf(rack: DynamicRack, missing: MissingStore): Worker
    requires rack.Valid() && missing.Valid()
    reads rack, rack.slots, missing, missing.entries
  {
    Worker(rack.Model(), missing.entries[..])
  }

  method ServeCommand(rack: DynamicRack, missing: MissingStore, c: Command, idleBefore: seq<bool>, idleAfter: seq<bool>)
    returns (result: Result)
    requires rack.Valid() && missing.Valid() && {rack, rack.slots as object} !! {missing, missing.entries as object}
    modifies rack, rack.slots, missing.entries
    ensures rack.Valid() && result == Execute(old(rack.Model()), c, idleBefore, idleAfter).1
    ensures WorkerOf(rack, missing) == Serve(old(WorkerOf(rack, missing)), c, idleBefore, idleAfter)
  {
    hide Execute, Pruned;
    result := rack.ExecuteCommand(c, idleBefore, idleAfter);
    if result.Accepted? { missing.Prune(rack); }
  }

  method LoadPreset(rack: DynamicRack, missing: MissingStore, preset: seq<Snapshot>, outcomes: seq<Outcome>,
                    reserved: bool, idle: seq<bool>)
    returns (ok: bool)
    requires |outcomes| == |preset|
    requires rack.Valid() && missing.Valid() && {rack, rack.slots as object} !! {missing, missing.entries as object}
    modifies rack, rack.slots, missing.entries
    ensures rack.Valid() && ok == (Loadable(preset) && Reservable(old(rack.Model()), reserved))
    ensures WorkerOf(rack, missing) == Load(old(WorkerOf(rack, missing)), preset, outcomes, reserved, idle)
  {
    hide LoadedSlots, Tried, GivenUp, Packed, Preserved, Loadable, Reached, RetiredFrom, ActiveSlots, FirstUnused, Kept, Freed;
    var candidate, held;
    ok, candidate, held := Materialize(preset, outcomes);
    ghost var was := WorkerOf(rack, missing);
    if ok {
      LoadableIsReached(preset, 0);
      ReachedAll(preset, outcomes);
    }
    if ok && (rack.generation == 0 || rack.generation == LAST_GENERATION || !reserved) {
      CloseCandidate(candidate);
      ok := false;
    }
    rack.everOpened := rack.everOpened + candidate.everOpened;
    rack.everClosed := rack.everClosed + candidate.everClosed;
    if !ok { return; }
    FirstUnusedIsUnique(LoadedSlots(preset, outcomes), candidate.nextId, FirstUnusedId(LoadedSlots(preset, outcomes)));
    rack.RetirePlugins();
    rack.TakeOver(candidate);
    CopyEntries(held, missing);
    rack.Publish();
    assert WorkerOf(rack, missing) == Loaded(was, preset, outcomes);
    rack.Reap(idle);
  }

  lemma ReachedAll(preset: seq<Snapshot>, outcomes: seq<Outcome>)
    requires |outcomes| == |preset| && Loadable(preset)
    ensures Reached(preset) == |preset| && preset[..Reached(preset)] == preset && outcomes[..Reached(preset)] == outcomes
  {
    LoadableIsReached(preset, 0);
  }

  method CopyEntries(source: MissingStore, target: MissingStore)
    requires source.Valid() && target.Valid() && source.entries != target.entries
    modifies target.entries
    ensures target.entries[..] == source.entries[..]
  {
    var k := 0;
    while k < MAX_SLOTS
      invariant k <= MAX_SLOTS
      invariant forall j :: 0 <= j < k ==> target.entries[j] == source.entries[j]
    {
      target.entries[k] := source.entries[k];
      k := k + 1;
    }
  }

  // ---------------------------------------------------------------- capture

  function PersistedHealth(h: RackSlots.Health): Codec.Health {
    match h
    case Missing => Codec.Missing
    case Quarantined => Codec.Quarantined
    case NeedsAttention => Codec.Suspect
    case Loading => Codec.Failed
    case Recovering => Codec.Failed
    case Ready => Codec.Ready
    case Bypassed => Codec.Ready
  }

  // What is saved for a slot without a plug-in.
  function Resaved(slot: Slot, preserved: Snapshot): Snapshot {
    preserved.(bypass := slot.bypass, health := PersistedHealth(slot.health))
  }

  // The state of every slot without a plug-in is in the store.
  ghost predicate NothingLost(w: Worker) {
    forall i :: 0 <= i < |w.rack.slots| && w.rack.slots[i].plugin.None? ==> FindEntry(w.missing, w.rack.slots[i].id).Some?
  }

  // `saved` is what the plug-in gave, or what the store holds for a slot without one.
  ghost predicate SavedAs(slot: Slot, entries: Entries, vendor: Option<Snapshot>, saved: Snapshot) {
    if slot.plugin.Some? then vendor == Some(saved)
    else FindEntry(entries, slot.id).Some? && saved == Resaved(slot, FindEntry(entries, slot.id).value)
  }

  // capture_current_rack; vendor[i] is what capturing the plug-in of slot i came to.
  method CaptureRack(rack: DynamicRack, missing: MissingStore, vendor: seq<Option<Snapshot>>)
    returns (captured: Option<seq<Snapshot>>)
    requires rack.Valid() && missing.Valid() && |vendor| == rack.count
    ensures captured.Some? <==>
      NothingLost(WorkerOf(rack, missing)) && forall i :: 0 <= i < rack.count && rack.slots[i].plugin.Some? ==> vendor[i].Some?
    ensures captured.Some? ==> |captured.value| == rack.count
    ensures captured.Some? ==>
      forall i :: 0 <= i < rack.count ==> SavedAs(rack.slots[i], missing.entries[..], vendor[i], captured.value[i])
  {
    hide FindEntry, Resaved;
    var list: seq<Snapshot> := [];
    var i := 0;
    while i < rack.count
      invariant i <= rack.count && |list| == i
      invariant forall k :: 0 <= k < i ==> SavedAs(rack.slots[k], missing.entries[..], vendor[k], list[k])
    {
      if rack.slots[i].plugin.Some? {
        if vendor[i].None? { return None; }
        list := list + [vendor[i].value];
      } else {
        var preserved := missing.Find(rack.slots[i].id);
        assert rack.slots[..rack.count][i] == rack.slots[i];
        if preserved.None? { return None; }
        list := list + [Resaved(rack.slots[i], preserved.value)];
      }
      i := i + 1;
    }
    captured := Some(list);
  }
}
