/**
What the user's commands do to the Rack and to what sounds, told from the
slots' own fields, and which commands undo one another.
 */
module CommandEffects {
  import opened Wrappers
  import opened Bytes
  import opened RackSlots
  import opened MissingStates
  import opened RackRuns

  // ---------------------------------------------------------------- what is published

  // Every Rack that a run reaches is like this (ChainIsPublished).
  ghost predicate InSync(r: Rack) {
    exists at :: Publishes(r.slots, at, r.published)
  }

  lemma {:induction false} Climbs(at: seq<nat>, k: nat)
    requires k < |at| && forall i, j :: 0 <= i < j < |at| ==> at[i] < at[j]
    ensures at[k] >= k
  {
    if k > 0 { Climbs(at, k - 1); }
  }

  lemma LastOfChain(slots: seq<Slot>, at: seq<nat>, published: seq<Active>)
    requires slots != [] && Publishes(slots, at, published) && InChain(slots[|slots| - 1])
    ensures var n := |slots| - 1;
            && at != [] && published != [] && at[|at| - 1] == n && PublishedAs(slots[n], published[|published| - 1])
            && Publishes(slots[..n], at[..|at| - 1], published[..|published| - 1])
  {
    hide PublishedAs, InChain;
    var n := |slots| - 1;
    var k :| 0 <= k < |at| && at[k] == n;
    assert k == |at| - 1;
    forall i: nat | i < n && InChain(slots[..n][i])
      ensures i in at[..k]
    {
      var j :| 0 <= j < |at| && at[j] == i;
      assert at[..k][j] == i;
    }
  }

  lemma LastOutOfChain(slots: seq<Slot>, at: seq<nat>, published: seq<Active>)
    requires slots != [] && Publishes(slots, at, published) && !InChain(slots[|slots| - 1])
    ensures Publishes(slots[..|slots| - 1], at, published)
  {
    InChainIfPublished();
    hide PublishedAs, InChain;
    var n := |slots| - 1;
    forall k | 0 <= k < |at|
      ensures at[k] < n && PublishedAs(slots[..n][at[k]], published[k])
    {
      assert PublishedAs(slots[at[k]], published[k]);
    }
    forall i: nat | i < n && InChain(slots[..n][i])
      ensures i in at
    {
      assert slots[..n][i] == slots[i];
    }
    if at != [] { Climbs(at, |at| - 1); }
  }

  lemma InChainIfPublished()
    ensures forall s, a :: PublishedAs(s, a) ==> InChain(s)
  {
  }

  // What one slot adds to the published list.
  ghost function EntryOf(s: Slot): seq<Active> {
    if InChain(s) then [Active(s.id, s.plugin.value, s.latency)] else []
  }

  lemma ActiveMore(slots: seq<Slot>)
    requires slots != []
    ensures ActiveSlots(slots) == ActiveSlots(slots[..|slots| - 1]) + EntryOf(slots[|slots| - 1])
  {
    PlaysInChain(slots[|slots| - 1]);
  }

  lemma LastEntry(s: Slot, published: seq<Active>)
    requires published != [] && PublishedAs(s, published[|published| - 1])
    ensures published == published[..|published| - 1] + EntryOf(s)
  {
  }

  lemma NothingPublished(at: seq<nat>, published: seq<Active>)
    requires Publishes([], at, published)
    ensures published == [] == ActiveSlots([])
  {
  }

  lemma {:induction false} OnlyOneIsPublished(slots: seq<Slot>, at: seq<nat>, published: seq<Active>)
    requires Publishes(slots, at, published)
    ensures published == ActiveSlots(slots)
  {
    hide Publishes, ActiveSlots, PublishedAs;
    if slots == [] {
      NothingPublished(at, published);
    } else {
      var n := |slots| - 1;
      ActiveMore(slots);
      if InChain(slots[n]) {
        LastOfChain(slots, at, published);
        LastEntry(slots[n], published);
        OnlyOneIsPublished(slots[..n], at[..|at| - 1], published[..|published| - 1]);
      } else {
        LastOutOfChain(slots, at, published);
        OnlyOneIsPublished(slots[..n], at, published);
      }
    }
  }

  lemma InSyncPublishes(r: Rack)
    requires InSync(r)
    ensures r.published == ActiveSlots(r.slots)
  {
    var at :| Publishes(r.slots, at, r.published);
    OnlyOneIsPublished(r.slots, at, r.published);
  }

  lemma {:induction false} ActiveConcat(a: seq<Slot>, b: seq<Slot>)
    ensures ActiveSlots(a + b) == ActiveSlots(a) + ActiveSlots(b)
  {
    hide Plays;
    if b == [] {
      assert a + b == a;
    } else {
      assert (a + b)[..|a + b| - 1] == a + b[..|b| - 1];
      ActiveConcat(a, b[..|b| - 1]);
    }
  }

  lemma ActiveAround(before: seq<Slot>, s: Slot, after: seq<Slot>)
    ensures ActiveSlots(before + [s] + after) == ActiveSlots(before) + EntryOf(s) + ActiveSlots(after)
    ensures ActiveSlots(before + after) == ActiveSlots(before) + ActiveSlots(after)
  {
    ActiveConcat(before + [s], after);
    ActiveConcat(before, [s]);
    ActiveConcat(before, after);
    PlaysInChain(s);
    assert [s][..0] == [];
  }

  // ---------------------------------------------------------------- the words of the effects

  ghost predicate FirstAt(slots: seq<Slot>, id: U64, i: nat) {
    i < |slots| && slots[i].id == id && forall j :: 0 <= j < i ==> slots[j].id != id
  }

  // A commit can be reserved.
  ghost predicate Open(r: Rack, reserved: bool) {
    0 < r.generation < LAST_GENERATION && reserved
  }

  // y is x with these entries put in, somewhere, and nothing else changed.
  ghost predicate Gains(x: seq<Active>, y: seq<Active>, entries: seq<Active>) {
    exists j :: 0 <= j <= |x| && y == x[..j] + entries + x[j..]
  }

  lemma GainsBetween(a: seq<Active>, b: seq<Active>, entries: seq<Active>)
    ensures Gains(a + b, a + entries + b, entries)
  {
    assert (a + b)[..|a|] == a && (a + b)[|a|..] == b;
  }

  // One slot put between others adds its entries to theirs.
  lemma SplitSounds(others: seq<Slot>, k: nat, s: Slot)
    requires k <= |others|
    ensures Gains(ActiveSlots(others), ActiveSlots(others[..k] + [s] + others[k..]), EntryOf(s))
  {
    hide EntryOf, ActiveSlots, Gains;
    assert others == others[..k] + others[k..];
    ActiveAround(others[..k], s, others[k..]);
    GainsBetween(ActiveSlots(others[..k]), ActiveSlots(others[k..]), EntryOf(s));
  }

  lemma GainsNothing(x: seq<Active>, y: seq<Active>)
    requires Gains(x, y, [])
    ensures x == y
  {
  }

  lemma SplitAt(slots: seq<Slot>, i: nat, t: Slot)
    requires i < |slots|
    ensures var others := slots[..i] + slots[i + 1..];
            slots == others[..i] + [slots[i]] + others[i..] && slots[i := t] == others[..i] + [t] + others[i..]
  {
  }

  // Overwriting one slot changes what is published by its entries only.
  lemma Overwritten(slots: seq<Slot>, i: nat, t: Slot) returns (rest: seq<Active>)
    requires i < |slots|
    ensures Gains(rest, ActiveSlots(slots), EntryOf(slots[i]))
    ensures Gains(rest, ActiveSlots(slots[i := t]), EntryOf(t))
    ensures EntryOf(slots[i]) == [] ==> rest == ActiveSlots(slots)
    ensures EntryOf(t) == [] ==> rest == ActiveSlots(slots[i := t])
  {
    hide EntryOf, ActiveSlots, Gains;
    SplitAt(slots, i, t);
    var others := slots[..i] + slots[i + 1..];
    rest := ActiveSlots(others);
    SplitSounds(others, i, slots[i]);
    SplitSounds(others, i, t);
    if EntryOf(slots[i]) == [] { GainsNothing(rest, ActiveSlots(slots)); }
    if EntryOf(t) == [] { GainsNothing(rest, ActiveSlots(slots[i := t])); }
  }

  ghost predicate Committing(r: Rack, q: Rack) {
    q.generation == r.generation + 1 && q.index == (if r.index == 0 then 1 else 0)
  }

  lemma FirstIsIndex(slots: seq<Slot>, id: U64)
    ensures IndexOf(slots, id) < |slots| ==> FirstAt(slots, id, IndexOf(slots, id))
    ensures forall i: nat :: FirstAt(slots, id, i) ==> IndexOf(slots, id) == i
    ensures IndexOf(slots, id) == |slots| ==> forall s :: s in slots ==> s.id != id
  {
    forall i: nat | FirstAt(slots, id, i)
      ensures IndexOf(slots, id) == i
    {
      assert !(IndexOf(slots, id) < i) && !(i < IndexOf(slots, id));
    }
  }

  // A command that does not go through leaves slots, identities and what
  // sounds as they were, and what it opened is closed again.
  lemma RefusalChangesNothing(r: Rack, c: Command, before: seq<bool>, after: seq<bool>)
    requires !Execute(r, c, before, after).1.Accepted?
    ensures var q := Execute(r, c, before, after).0;
            && q.slots == r.slots && q.nextId == r.nextId && q.published == r.published
            && q.generation == r.generation && q.index == r.index && q.everOpened - r.everOpened <= q.everClosed
  {
    hide Verdict, Kept, Freed, ActiveSlots;
  }

  // Every accepted command publishes one more generation, in the other buffer,
  // and what it publishes is the chain of the slots it leaves.
  lemma AcceptedPublishes(r: Rack, c: Command, before: seq<bool>, after: seq<bool>)
    requires Execute(r, c, before, after).1.Accepted?
    ensures var q := Execute(r, c, before, after).0; InSync(q) && Committing(r, q)
  {
    hide Verdict, Kept, Freed, ActiveSlots, SlotsAfter, Publishes, Dropped, Opened;
    var q := Execute(r, c, before, after).0;
    var at := ActiveSlotsInOrder(q.slots);
  }

  // ---------------------------------------------------------------- command by command

  // An addition goes through exactly when there is room, the entry is known, the
  // plug-in opens and an identity and a commit are to be had; it puts the new
  // slot at its place, and the plug-in sounds from then on.
  lemma AddEffect(r: Rack, target: nat, record: Option<Record>, opening: Option<Opening>, reserved: bool,
                  before: seq<bool>, after: seq<bool>)
    requires InSync(r)
    ensures var (q, result) := Execute(r, Add(target, record, opening, reserved), before, after);
            && (result.Accepted? <==>
                  && |r.slots| < MAX_SLOTS && target <= |r.slots| && record.Some? && opening.Some?
                  && Open(r, reserved) && r.nextId !in RESERVED_IDS)
            && (result.Accepted? ==>
                  var o := opening.value;
                  && q.slots == r.slots[..target] + [Slot(r.nextId, Some(o.plugin), record.value, false, Ready, o.latency)]
                                + r.slots[target..]
                  && Gains(r.published, q.published, [Active(r.nextId, o.plugin, o.latency)])
                  && q.nextId == (r.nextId + 1) % TWO_64)
  {
    hide Publishes, Kept, Freed, ActiveSlots;
    InSyncPublishes(r);
    var out := Execute(r, Add(target, record, opening, reserved), before, after);
    if out.1.Accepted? {
      var s := Slot(r.nextId, Some(opening.value.plugin), record.value, false, Ready, opening.value.latency);
      ActiveAround(r.slots[..target], s, r.slots[target..]);
      assert r.slots == r.slots[..target] + r.slots[target..];
      GainsBetween(ActiveSlots(r.slots[..target]), ActiveSlots(r.slots[target..]), EntryOf(s));
    }
  }

  // A bypass goes through exactly for the first slot of that identity, if it is
  // not that way already and its health allows it.  Switched off, the slot's
  // plug-in falls silent; switched on, it sounds again at its place.
  lemma BypassEffect(r: Rack, id: U64, bypass: bool, reserved: bool, before: seq<bool>, after: seq<bool>, i: nat)
    requires InSync(r) && FirstAt(r.slots, id, i)
    ensures var (q, result) := Execute(r, SetBypass(id, bypass, reserved), before, after);
            && (result.Accepted? <==>
                  && r.slots[i].bypass != bypass && Open(r, reserved)
                  && r.slots[i].health in {Ready, Bypassed, NeedsAttention})
            && (result.Accepted? ==>
                  var entries := if r.slots[i].plugin.Some?
                                 then [Active(id, r.slots[i].plugin.value, r.slots[i].latency)] else [];
                  && q.slots == r.slots[i := r.slots[i].(bypass := bypass)] && q.nextId == r.nextId
                  && if bypass then Gains(q.published, r.published, entries) else Gains(r.published, q.published, entries))
  {
    hide Publishes, Kept, Freed, ActiveSlots, IndexOf;
    InSyncPublishes(r);
    FirstIsIndex(r.slots, id);
    var out := Execute(r, SetBypass(id, bypass, reserved), before, after);
    if out.1.Accepted? {
      var rest := Overwritten(r.slots, i, r.slots[i].(bypass := bypass));
    }
  }

  // A removal closes the gap; the plug-in falls silent and, if there was one, is
  // handed over with the buffer that was published.
  lemma RemoveEffect(r: Rack, id: U64, reserved: bool, before: seq<bool>, i: nat)
    requires InSync(r) && FirstAt(r.slots, id, i)
    ensures var (q, result) := Execute(r, Remove(id, reserved), before, []);
            && (result.Accepted? <==> Open(r, reserved) && r.slots[i].health !in {Loading, Recovering})
            && (result.Accepted? ==>
                  && q.slots == r.slots[..i] + r.slots[i + 1..] && q.nextId == r.nextId
                  && Gains(q.published, r.published, EntryOf(r.slots[i]))
                  && (r.slots[i].plugin.Some? ==> Retired(r.slots[i].plugin.value, r.index) in q.retired))
  {
    hide Publishes, Freed, ActiveSlots, IndexOf;
    InSyncPublishes(r);
    FirstIsIndex(r.slots, id);
    var out := Execute(r, Remove(id, reserved), before, []);
    if out.1.Accepted? {
      var a, b, s := r.slots[..i], r.slots[i + 1..], r.slots[i];
      assert r.slots == a + [s] + b;
      ActiveAround(a, s, b);
      GainsBetween(ActiveSlots(a), ActiveSlots(b), EntryOf(s));
      NothingIdle(Committed(Reaped(r, before), Remove(id, reserved)).retired, 0);
    }
  }

  lemma {:induction false} NothingIdle(retired: seq<Retired>, n: nat)
    ensures Kept(retired, [], n) == retired
  {
    if retired != [] { NothingIdle(retired[1..], n + 1); }
  }

  // A replacement keeps identity, place and bypass of the slot and changes the
  // rest; the plug-in put in sounds exactly if the slot is not bypassed.
  lemma ReplaceEffect(r: Rack, id: U64, record: Option<Record>, opening: Option<Opening>, reserved: bool,
                      before: seq<bool>, i: nat)
    requires InSync(r) && FirstAt(r.slots, id, i)
    ensures var (q, result) := Execute(r, Replace(id, record, opening, reserved), before, []);
            && (result.Accepted? <==>
                  && record.Some? && opening.Some? && Open(r, reserved)
                  && r.slots[i].health !in {Loading, Recovering})
            && (result.Accepted? ==>
                  var o := opening.value;
                  && q.slots == r.slots[i := Slot(id, Some(o.plugin), record.value, r.slots[i].bypass, Ready, o.latency)]
                  && q.nextId == r.nextId
                  && (exists rest :: Gains(rest, r.published, EntryOf(r.slots[i]))
                        && Gains(rest, q.published, if r.slots[i].bypass then [] else [Active(id, o.plugin, o.latency)]))
                  && (r.slots[i].plugin.Some? ==> Retired(r.slots[i].plugin.value, r.index) in q.retired))
  {
    hide Publishes, Freed, ActiveSlots, IndexOf;
    InSyncPublishes(r);
    FirstIsIndex(r.slots, id);
    var c := Replace(id, record, opening, reserved);
    var out := Execute(r, c, before, []);
    if out.1.Accepted? {
      var o := opening.value;
      var t := Slot(id, Some(o.plugin), record.value, r.slots[i].bypass, Ready, o.latency);
      var rest := Overwritten(r.slots, i, t);
      NothingIdle(Committed(Reaped(r, before), c).retired, 0);
    }
  }

  // A moved slot stands at its target; without it the others are as before.
  lemma MovedAround(slots: seq<Slot>, i: nat, target: nat)
    requires i < |slots| && target < |slots|
    ensures var after := MovedTo(slots, i, target); var rest := slots[..i] + slots[i + 1..];
            && |after| == |slots| && after[target] == slots[i]
            && after == rest[..target] + [slots[i]] + rest[target..]
            && after[..target] + after[target + 1..] == rest && slots == rest[..i] + [slots[i]] + rest[i..]
  {
    var after, rest := MovedTo(slots, i, target), slots[..i] + slots[i + 1..];
    assert after == rest[..target] + [slots[i]] + rest[target..];
    assert after[..target] == rest[..target] && after[target + 1..] == rest[target..];
    assert rest[..i] == slots[..i] && rest[i..] == slots[i + 1..];
  }

  lemma MovedSounds(slots: seq<Slot>, i: nat, target: nat) returns (rest: seq<Active>)
    requires i < |slots| && target < |slots|
    ensures Gains(rest, ActiveSlots(slots), EntryOf(slots[i]))
    ensures Gains(rest, ActiveSlots(MovedTo(slots, i, target)), EntryOf(slots[i]))
  {
    hide EntryOf, ActiveSlots, Gains, MovedTo;
    MovedAround(slots, i, target);
    var others := slots[..i] + slots[i + 1..];
    rest := ActiveSlots(others);
    SplitSounds(others, i, slots[i]);
    SplitSounds(others, target, slots[i]);
  }

  // A move goes through exactly from one place to another that exists; the slot
  // stands there, the others keep their order, and the same plug-ins sound.
  lemma MoveEffect(r: Rack, id: U64, target: nat, reserved: bool, before: seq<bool>, after: seq<bool>, i: nat)
    requires InSync(r) && FirstAt(r.slots, id, i)
    ensures var (q, result) := Execute(r, Move(id, target, reserved), before, after);
            && (result.Accepted? <==> target < |r.slots| && target != i && Open(r, reserved))
            && (result.Accepted? ==>
                  && |q.slots| == |r.slots| && q.slots[target] == r.slots[i] && q.nextId == r.nextId
                  && q.slots[..target] + q.slots[target + 1..] == r.slots[..i] + r.slots[i + 1..]
                  && (exists rest :: Gains(rest, r.published, EntryOf(r.slots[i]))
                        && Gains(rest, q.published, EntryOf(r.slots[i]))))
  {
    hide Publishes, Kept, Freed, ActiveSlots, IndexOf;
    InSyncPublishes(r);
    FirstIsIndex(r.slots, id);
    var out := Execute(r, Move(id, target, reserved), before, after);
    if out.1.Accepted? {
      MovedAround(r.slots, i, target);
      var rest := MovedSounds(r.slots, i, target);
    }
  }

  // ---------------------------------------------------------------- commands that undo one another

  // Switching a slot off and on again, or on and off, leaves slots and sound as
  // they were.
  lemma BypassAndBack(r: Rack, id: U64, bypass: bool, i: nat)
    requires InSync(r) && FirstAt(r.slots, id, i)
    ensures var (q, there) := Execute(r, SetBypass(id, bypass, true), [], []);
            var (p, back) := Execute(q, SetBypass(id, !bypass, true), [], []);
            there.Accepted? && back.Accepted? ==> p.slots == r.slots && p.published == r.published && p.nextId == r.nextId
  {
    hide InSync, Gains, Execute;
    var (q, there) := Execute(r, SetBypass(id, bypass, true), [], []);
    var (p, back) := Execute(q, SetBypass(id, !bypass, true), [], []);
    if there.Accepted? && back.Accepted? {
      BypassEffect(r, id, bypass, true, [], [], i);
      AcceptedPublishes(r, SetBypass(id, bypass, true), [], []);
      assert FirstAt(q.slots, id, i);
      BypassEffect(q, id, !bypass, true, [], [], i);
      AcceptedPublishes(q, SetBypass(id, !bypass, true), [], []);
      assert p.slots == r.slots;
      SameSlotsSameSound(r, p);
    }
  }

  lemma SameSlotsSameSound(r: Rack, p: Rack)
    requires InSync(r) && InSync(p) && r.slots == p.slots
    ensures r.published == p.published
  {
    InSyncPublishes(r);
    InSyncPublishes(p);
  }

  // A slot moved away and back again: everything is as before.
  lemma MoveAndBack(r: Rack, id: U64, target: nat, i: nat)
    requires InSync(r) && Distinct(r.slots) && FirstAt(r.slots, id, i)
    ensures var (q, there) := Execute(r, Move(id, target, true), [], []);
            var (p, back) := Execute(q, Move(id, i, true), [], []);
            there.Accepted? && back.Accepted? ==> p.slots == r.slots && p.published == r.published && p.nextId == r.nextId
  {
    hide InSync, Gains, Distinct, Execute;
    var (q, there) := Execute(r, Move(id, target, true), [], []);
    var (p, back) := Execute(q, Move(id, i, true), [], []);
    if there.Accepted? && back.Accepted? {
      MoveEffect(r, id, target, true, [], [], i);
      AcceptedPublishes(r, Move(id, target, true), [], []);
      OnlyHere(r.slots, i, q.slots, target);
      MoveEffect(q, id, i, true, [], [], target);
      AcceptedPublishes(q, Move(id, i, true), [], []);
      SameAround(r.slots, p.slots, i);
      SameSlotsSameSound(r, p);
    }
  }

  lemma SameAround(a: seq<Slot>, b: seq<Slot>, i: nat)
    requires i < |a| == |b| && a[i] == b[i] && a[..i] + a[i + 1..] == b[..i] + b[i + 1..]
    ensures a == b
  {
    var rest := a[..i] + a[i + 1..];
    assert a == rest[..i] + [a[i]] + rest[i..] && b == rest[..i] + [b[i]] + rest[i..];
  }

  // Where the others are the same, the first with this identity is the one moved.
  lemma OnlyHere(before: seq<Slot>, i: nat, after: seq<Slot>, target: nat)
    requires Distinct(before) && i < |before| && target < |after| && after[target] == before[i]
    requires after[..target] + after[target + 1..] == before[..i] + before[i + 1..]
    ensures FirstAt(after, before[i].id, target)
  {
    var rest := before[..i] + before[i + 1..];
    forall j | 0 <= j < target
      ensures after[j].id != before[i].id
    {
      assert after[j] == (after[..target] + after[target + 1..])[j] == rest[j];
      assert rest[j] == before[if j < i then j else j + 1];
    }
  }

  lemma JustAdded(slots: seq<Slot>, target: nat, s: Slot, id: U64)
    requires target <= |slots| && s.id == id && forall t :: t in slots ==> t.id != id
    ensures var more := slots[..target] + [s] + slots[target..];
            FirstAt(more, id, target) && more[..target] + more[target + 1..] == slots
  {
    var more := slots[..target] + [s] + slots[target..];
    assert forall j :: 0 <= j < target ==> more[j] == slots[j] && slots[j] in slots;
  }

  // What was just added can be removed, and nothing of it is left.
  lemma AddAndRemove(r: Rack, target: nat, record: Option<Record>, opening: Option<Opening>)
    requires InSync(r) && forall s :: s in r.slots ==> s.id != r.nextId
    ensures var (q, there) := Execute(r, Add(target, record, opening, true), [], []);
            var (p, back) := Execute(q, Remove(r.nextId, true), [], []);
            there.Accepted? && back.Accepted? ==> p.slots == r.slots && p.published == r.published
  {
    hide InSync, Gains, Execute;
    var c := Add(target, record, opening, true);
    var (q, there) := Execute(r, c, [], []);
    var (p, back) := Execute(q, Remove(r.nextId, true), [], []);
    if there.Accepted? && back.Accepted? {
      AddEffect(r, target, record, opening, true, [], []);
      AcceptedPublishes(r, c, [], []);
      var s := q.slots[target];
      JustAdded(r.slots, target, s, r.nextId);
      RemoveEffect(q, r.nextId, true, [], target);
      AcceptedPublishes(q, Remove(r.nextId, true), [], []);
      SameSlotsSameSound(r, p);
    }
  }
}
