/**
What a load makes of a saved Rack and what saving makes of a loaded one, field
by field, and the round trip between them.
 */
module SaveAndLoad {
  import opened Wrappers
  import opened Bytes
  import opened RackSlots
  import opened MissingStates
  import opened RackRuns
  import opened MissingRuns
  import opened CommandEffects
  import Codec = SessionCodec

  // The slot a load puts up for x: the identity, the plug-in asked for and the
  // bypass are those saved; a quarantined plug-in is not even tried, and one
  // that cannot be opened or restored leaves a placeholder.
  ghost predicate LoadsAs(x: Snapshot, o: Outcome, s: Slot) {
    && s.id == x.id && s.record.path == x.path && s.record.classId == x.classId && s.bypass == x.bypass
    && (x.health == Codec.Quarantined ==> s.plugin == None && s.health == Quarantined)
    && (x.health != Codec.Quarantined && o.Restores? ==>
          s.plugin == Some(o.plugin) && s.health == Ready && s.latency == o.latency)
    && (x.health != Codec.Quarantined && !o.Restores? ==> s.plugin == None && s.health == Missing)
  }

  // A load goes through exactly for at most eight slots of distinct, non-zero
  // identities, when a commit is to be had; then every saved slot stands at its
  // place and what sounds is their chain.  Otherwise nothing changes.
  lemma LoadEffect(w: Worker, preset: seq<Snapshot>, outcomes: seq<Outcome>, reserved: bool, idle: seq<bool>)
    requires |outcomes| == |preset|
    ensures var l := Load(w, preset, outcomes, reserved, idle);
            if |preset| <= MAX_SLOTS && Open(w.rack, reserved) && (forall i :: 0 <= i < |preset| ==> preset[i].id != 0)
               && (forall i, j :: 0 <= i < j < |preset| ==> preset[i].id != preset[j].id)
            then
              && |l.rack.slots| == |preset| && InSync(l.rack) && Committing(w.rack, l.rack)
              && (forall i :: 0 <= i < |preset| ==> LoadsAs(preset[i], outcomes[i], l.rack.slots[i]))
            else
              && l.rack.slots == w.rack.slots && l.rack.published == w.rack.published && l.missing == w.missing
              && l.rack.nextId == w.rack.nextId && l.rack.generation == w.rack.generation && l.rack.index == w.rack.index
  {
    hide Kept, Freed, Tried, GivenUp, RetiredFrom, Preserved, Packed, ActiveSlots, Publishes, Reached, FirstUnused;
    var l := Load(w, preset, outcomes, reserved, idle);
    var at := ActiveSlotsInOrder(l.rack.slots);
  }

  // ---------------------------------------------------------------- saving

  // Saving a placeholder writes back what was loaded, word for word but for the
  // health, which says why it is not there.
  lemma LoadThenSave(w: Worker, preset: seq<Snapshot>, outcomes: seq<Outcome>, reserved: bool, idle: seq<bool>, i: nat,
                     vendor: Option<Snapshot>, saved: Snapshot)
    requires |outcomes| == |preset| && Loadable(preset) && Reservable(w.rack, reserved) && i < |preset|
    requires var l := Load(w, preset, outcomes, reserved, idle); SavedAs(l.rack.slots[i], l.missing, vendor, saved)
    ensures preset[i].health == Codec.Quarantined ==> saved == preset[i]
    ensures preset[i].health != Codec.Quarantined && !outcomes[i].Restores? ==>
      saved == preset[i].(health := Codec.Missing)
  {
    hide Kept, Freed, Tried, GivenUp, RetiredFrom, Preserved, Packed, ActiveSlots, FirstUnused, FindEntry, Loadable;
    var l := Load(w, preset, outcomes, reserved, idle);
    LoadPreserves(w, preset, outcomes, reserved, idle);
    LoadedAt(w, preset, outcomes, reserved, idle, i);
    if l.rack.slots[i].plugin.None? {
      assert KeptAsLoaded(l.missing, l.rack.slots[i], preset);
      SameIdentity(preset, i);
    }
  }

  lemma LoadedAt(w: Worker, preset: seq<Snapshot>, outcomes: seq<Outcome>, reserved: bool, idle: seq<bool>, i: nat)
    requires |outcomes| == |preset| && Loadable(preset) && Reservable(w.rack, reserved) && i < |preset|
    ensures var l := Load(w, preset, outcomes, reserved, idle);
            |l.rack.slots| == |preset| && l.rack.slots[i] == LoadedSlot(preset[i], outcomes[i])
            && l.rack.slots[i] in l.rack.slots
  {
    hide Kept, Freed, Tried, GivenUp, RetiredFrom, Preserved, Packed, ActiveSlots, FirstUnused, Loadable;
  }

  lemma SameIdentity(preset: seq<Snapshot>, i: nat)
    requires Loadable(preset) && i < |preset|
    ensures forall x :: x in preset && x.id == preset[i].id ==> x == preset[i]
  {
  }

  // ---------------------------------------------------------------- there and back

  // What capturing a plug-in is told of its slot, and writes down.
  ghost predicate Describes(x: Snapshot, s: Slot) {
    x.id == s.id && x.path == s.record.path && x.classId == s.record.classId && x.bypass == s.bypass
  }

  ghost predicate Captures(w: Worker, vendor: seq<Option<Snapshot>>, saved: seq<Snapshot>) {
    && |vendor| == |saved| == |w.rack.slots|
    && (forall i :: 0 <= i < |saved| ==> SavedAs(w.rack.slots[i], w.missing, vendor[i], saved[i]))
    && (forall i :: 0 <= i < |saved| && vendor[i].Some? && w.rack.slots[i].plugin.Some? ==>
          Describes(vendor[i].value, w.rack.slots[i]))
  }

  // A placeholder that is still faithful to what it was loaded from is saved as itself.
  lemma SavedDescribes(w: Worker, preset: seq<Snapshot>, vendor: seq<Option<Snapshot>>, saved: seq<Snapshot>, i: nat)
    requires Preserves(w, preset) && Captures(w, vendor, saved) && i < |saved|
    ensures Describes(saved[i], w.rack.slots[i])
    ensures w.rack.slots[i].plugin.None? && w.rack.slots[i].health == Quarantined ==> saved[i].health == Codec.Quarantined
  {
    hide FindEntry;
    var s := w.rack.slots[i];
    assert s in w.rack.slots;
    if s.plugin.None? { assert KeptAsLoaded(w.missing, s, preset); }
  }

  lemma SavedIsLoadable(w: Worker, saved: seq<Snapshot>)
    requires |saved| == |w.rack.slots| <= MAX_SLOTS && Distinct(w.rack.slots) && NonZero(w.rack.slots)
    requires forall i :: 0 <= i < |saved| ==> Describes(saved[i], w.rack.slots[i])
    ensures Loadable(saved)
  {
    forall i | 0 <= i < |saved|
      ensures saved[i].id != 0
    {
      assert w.rack.slots[i] in w.rack.slots;
    }
  }

  // What was saved of any Rack that keeps its placeholders faithful (Safe, on
  // every run that MissingStateSurvives is about) loads back slot by slot:
  // identities, plug-ins asked for, order and bypass are the same, quarantined
  // placeholders stay quarantined, and whatever cannot be opened this time has
  // its saved state in the store again.
  lemma SavedRackLoadsBack(w: Worker, preset: seq<Snapshot>, vendor: seq<Option<Snapshot>>, saved: seq<Snapshot>,
                           v: Worker, outcomes: seq<Outcome>, idle: seq<bool>)
    requires Safe(w, preset) && Distinct(w.rack.slots) && NonZero(w.rack.slots) && |w.rack.slots| <= MAX_SLOTS
    requires Captures(w, vendor, saved) && |outcomes| == |saved| && Reservable(v.rack, true)
    ensures var l := Load(v, saved, outcomes, true, idle);
            && |l.rack.slots| == |w.rack.slots|
            && forall i :: 0 <= i < |saved| ==>
                 var s, t := w.rack.slots[i], l.rack.slots[i];
                 && t.id == s.id && t.record == s.record && t.bypass == s.bypass
                 && (s.plugin.None? && s.health == Quarantined ==> t.plugin.None? && t.health == Quarantined)
                 && (t.plugin.None? ==> FindEntry(l.missing, t.id) == Some(saved[i]))
  {
    hide Load, Loadable, Reservable, LoadedSlot, Captures, PlaceholdersRight, Preserves, Distinct, NonZero, KeptAsLoaded;
    forall i | 0 <= i < |w.rack.slots|
      ensures |saved| == |w.rack.slots| && Describes(saved[i], w.rack.slots[i])
      ensures w.rack.slots[i].plugin.None? && w.rack.slots[i].health == Quarantined ==>
        saved[i].health == Codec.Quarantined
    {
      CapturedAll(w, vendor, saved);
      SavedDescribes(w, preset, vendor, saved, i);
    }
    CapturedAll(w, vendor, saved);
    SavedIsLoadable(w, saved);
    forall i | 0 <= i < |saved|
      ensures var l := Load(v, saved, outcomes, true, idle);
              |l.rack.slots| == |w.rack.slots| && LoadsAs(saved[i], outcomes[i], l.rack.slots[i])
      ensures var l := Load(v, saved, outcomes, true, idle);
              l.rack.slots[i].plugin.None? ==> FindEntry(l.missing, l.rack.slots[i].id) == Some(saved[i])
    {
      LoadedAt(v, saved, outcomes, true, idle, i);
      LoadedSlotLoads(saved[i], outcomes[i]);
      StoredAgain(v, saved, outcomes, idle, i);
    }
    LoadedLength(v, saved, outcomes, idle);
  }

  lemma CapturedAll(w: Worker, vendor: seq<Option<Snapshot>>, saved: seq<Snapshot>)
    requires Captures(w, vendor, saved)
    ensures |vendor| == |saved| == |w.rack.slots|
  {
  }

  lemma LoadedSlotLoads(x: Snapshot, o: Outcome)
    ensures LoadsAs(x, o, LoadedSlot(x, o))
  {
  }

  lemma LoadedLength(v: Worker, saved: seq<Snapshot>, outcomes: seq<Outcome>, idle: seq<bool>)
    requires |outcomes| == |saved| && Loadable(saved) && Reservable(v.rack, true)
    ensures |Load(v, saved, outcomes, true, idle).rack.slots| == |saved|
  {
    hide Kept, Freed, Tried, GivenUp, RetiredFrom, Preserved, Packed, ActiveSlots, FirstUnused, Loadable;
  }

  lemma StoredAgain(v: Worker, saved: seq<Snapshot>, outcomes: seq<Outcome>, idle: seq<bool>, i: nat)
    requires |outcomes| == |saved| && Loadable(saved) && Reservable(v.rack, true) && i < |saved|
    ensures var l := Load(v, saved, outcomes, true, idle);
            i < |l.rack.slots|
            && (l.rack.slots[i].plugin.None? ==> FindEntry(l.missing, l.rack.slots[i].id) == Some(saved[i]))
  {
    hide Load, Loadable, Reservable, LoadedSlot, FindEntry;
    LoadedAt(v, saved, outcomes, true, idle, i);
    LoadedSlotLoads(saved[i], outcomes[i]);
    LoadPreserves(v, saved, outcomes, true, idle);
    SameIdentity(saved, i);
    var l := Load(v, saved, outcomes, true, idle);
    if l.rack.slots[i].plugin.None? { assert KeptAsLoaded(l.missing, l.rack.slots[i], saved); }
  }
}
