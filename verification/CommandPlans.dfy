/**
The command worker's commits as the generation store sees them: every accepted
command and every load is one of the plans for which the store's interleavings
are proved safe.
 */
module CommandPlans {
  import opened Wrappers
  import opened RackSlots
  import opened MissingStates
  import opened RackRuns
  import G = Generations

  // The store's view of a slot list.
  function Live(slots: seq<Slot>): (live: seq<G.LiveSlot>)
    ensures |live| == |slots|
  {
    seq(|slots|, i requires 0 <= i < |slots| => G.LiveSlot(slots[i].plugin, Plays(slots[i])))
  }

  function PublishedPlugins(published: seq<Active>): seq<Plugin> {
    seq(|published|, i requires 0 <= i < |published| => published[i].plugin)
  }

  lemma {:induction false} LivePlugins(slots: seq<Slot>)
    ensures G.Elements(G.PluginsOf(Live(slots))) == Plugins(slots)
    ensures OneEach(slots) ==> G.NoDuplicates(G.PluginsOf(Live(slots)))
  {
    if slots != [] {
      var rest, last := slots[..|slots| - 1], slots[|slots| - 1];
      LivePlugins(rest);
      assert Live(slots)[..|slots| - 1] == Live(rest);
      var before := G.PluginsOf(Live(rest));
      assert forall s :: s in slots <==> s in rest || s == last;
      assert Plugins(slots) == Plugins(rest) + PluginOf(last);
      if OneEach(slots) && last.plugin.Some? {
        forall k | 0 <= k < |rest|
          ensures rest[k].plugin != last.plugin
        {
          assert PluginOf(slots[k]) !! PluginOf(slots[|rest|]);
        }
        assert last.plugin.value !in G.Elements(before);
      }
    }
  }

  // What the store copies into a buffer is what the command publishes.
  lemma {:induction false} LiveActive(slots: seq<Slot>)
    ensures G.ActiveOf(Live(slots)) == PublishedPlugins(ActiveSlots(slots))
  {
    if slots != [] {
      LiveActive(slots[..|slots| - 1]);
      assert Live(slots)[..|slots| - 1] == Live(slots[..|slots| - 1]);
    }
  }

  function DroppedList(r: Rack, c: Command): seq<Plugin>
    requires Verdict(r, c).Accepted?
  {
    if Dropped(r, c).Some? then [Dropped(r, c).value] else []
  }

  function PlanOf(r: Rack, c: Command): G.Plan
    requires Verdict(r, c).Accepted?
  {
    G.Plan(Live(SlotsAfter(r, c)), Opened(r, c), DroppedList(r, c), false, r.generation + 1)
  }

  // The store and the rack agree on what is live, and the store has seen no
  // plug-in the rack has not opened.
  ghost predicate Matches(s: G.State, r: Rack) {
    s.live == Live(r.slots) && s.everOpened <= r.everOpened
  }

  lemma PluginsAfter(r: Rack, c: Command)
    requires OwnedOnce(r) && Verdict(r, c).Accepted?
    requires OpeningOf(c).Some? ==> OpeningOf(c).value.plugin !in r.everOpened
    ensures OneEach(SlotsAfter(r, c))
    ensures Plugins(SlotsAfter(r, c)) == Plugins(r.slots) - G.Elements(DroppedList(r, c)) + Opened(r, c)
    ensures G.Elements(DroppedList(r, c)) <= Plugins(r.slots)
    ensures Opened(r, c) !! r.everOpened
  {
    hide ActiveSlots, Inserted, Removed, MovedTo, OneEach, RetiredOnce, Plugins, RetiredPlugins, Edited;
    CommandEdits(r, c);
    if CutAt(r, c).Some? { LivePluginListed(r.slots, CutAt(r, c).value); }
    EditedPlugins(r.slots, SlotsAfter(r, c), CutAt(r, c), PutAt(r, c), PutSlot(r, c));
  }

  lemma AcceptedIsGoodPlan(s: G.State, r: Rack, c: Command)
    requires OwnedOnce(r) && Verdict(r, c).Accepted? && Matches(s, r)
    requires OpeningOf(c).Some? ==> OpeningOf(c).value.plugin !in r.everOpened
    ensures G.GoodPlan(s, PlanOf(r, c))
    ensures G.ActiveOf(PlanOf(r, c).live) == PublishedPlugins(Committed(r, c).published)
  {
    hide ActiveSlots, SlotsAfter, Dropped, Opened, Plugins, OneEach, Live, RetiredOnce, RetiredPlugins, Verdict;
    PluginsAfter(r, c);
    LivePlugins(SlotsAfter(r, c));
    LivePlugins(r.slots);
    LiveActive(SlotsAfter(r, c));
    assert G.NoDuplicates(DroppedList(r, c));
  }

  function PlanOfLoad(w: Worker, preset: seq<Snapshot>, outcomes: seq<Outcome>): G.Plan
    requires |outcomes| == |preset|
  {
    G.Plan(Live(LoadedSlots(preset, outcomes)), Tried(preset, outcomes) - GivenUp(preset, outcomes),
           G.PluginsOf(Live(w.rack.slots)), true, w.rack.generation + 1)
  }

  lemma LoadIsGoodPlan(s: G.State, w: Worker, preset: seq<Snapshot>, outcomes: seq<Outcome>)
    requires OwnedOnce(w.rack) && Matches(s, w.rack)
    requires |outcomes| == |preset| && Enabled(w, LoadFrom(preset, outcomes, true, []))
    ensures G.GoodPlan(s, PlanOfLoad(w, preset, outcomes))
    ensures G.ActiveOf(PlanOfLoad(w, preset, outcomes).live)
         == PublishedPlugins(ActiveSlots(LoadedSlots(preset, outcomes)))
  {
    hide ActiveSlots, LoadedSlots, Tried, GivenUp, Plugins, Live, RetiredOnce, RetiredPlugins;
    LoadedPlugins(w, preset, outcomes);
    LivePlugins(LoadedSlots(preset, outcomes));
    LivePlugins(w.rack.slots);
    LiveActive(LoadedSlots(preset, outcomes));
  }
}
