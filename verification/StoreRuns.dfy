/**
Every run of the command worker is a run of the generation store: the control
thread's steps carry it out one by one, readers may step in between, and both
end with the same live slots, retired list, closed plug-ins and published
generation.
 */
module StoreRuns {
  import opened Wrappers
  import opened RackSlots
  import opened MissingStates
  import opened RackRuns
  import opened CommandPlans
  import G = Generations

  // ---------------------------------------------------------------- runs of the store

  // The events `fs` lead the store from s to t.
  ghost predicate Path(s: G.State, fs: seq<G.Event>, t: G.State) {
    G.Runs(s, fs) && G.End(s, fs) == t
  }

  ghost predicate Reader(e: G.Event) {
    e.Load? || e.Announce? || e.Check? || e.Withdraw? || e.Release?
  }

  ghost predicate ControlOnly(fs: seq<G.Event>) {
    forall i :: 0 <= i < |fs| ==> !Reader(fs[i])
  }

  lemma NoPath(s: G.State)
    ensures Path(s, [], s)
  {
  }

  lemma OnlyControlConcat(fs: seq<G.Event>, gs: seq<G.Event>)
    requires ControlOnly(fs) && ControlOnly(gs)
    ensures ControlOnly(fs + gs)
  {
    hide Reader;
  }

  ghost predicate StepsTo(s: G.State, e: G.Event, t: G.State) {
    G.Shape(s) && G.Enabled(s, e) && G.Apply(s, e) == t
  }

  lemma PathCons(s: G.State, e: G.Event, t: G.State, fs: seq<G.Event>, u: G.State)
    requires StepsTo(s, e, t) && Path(t, fs, u)
    ensures Path(s, [e] + fs, u)
  {
    hide G.Shape, G.Enabled, G.Apply;
    assert ([e] + fs)[1..] == fs;
  }

  lemma {:induction false} PathConcat(s: G.State, fs: seq<G.Event>, t: G.State, gs: seq<G.Event>, u: G.State)
    requires Path(s, fs, t) && Path(t, gs, u)
    ensures Path(s, fs + gs, u)
    decreases |fs|
  {
    hide G.Enabled, G.Apply, G.Shape;
    if fs == [] {
      assert fs + gs == gs;
    } else {
      assert (fs + gs)[1..] == fs[1..] + gs;
      PathConcat(G.Apply(s, fs[0]), fs[1..], t, gs, u);
    }
  }

  lemma PathKeepsInv(s: G.State, fs: seq<G.Event>, t: G.State)
    requires G.Inv(s) && Path(s, fs, t)
    ensures G.Inv(t)
  {
    hide G.Inv, G.Runs;
    G.InvRun(s, fs);
  }

  lemma StepKeepsInv(s: G.State, e: G.Event, t: G.State)
    requires G.Inv(s) && StepsTo(s, e, t)
    ensures G.Inv(t)
  {
    hide G.Inv, G.Apply, G.Enabled, G.Shape;
    G.InvStep(s, e);
  }

  // ---------------------------------------------------------------- a commit

  // What a commit leaves, whenever its dropped plug-ins are handed over.
  ghost function AfterPlan(s: G.State, p: G.Plan): G.State
    requires G.Shape(s)
  {
    s.(live := p.live, everOpened := s.everOpened + p.added,
       retired := s.retired + G.Recorded(p.dropped, s.published),
       published := G.Other(s.published),
       buffers := s.buffers[G.Other(s.published) := G.Generation(p.number, G.ActiveOf(p.live))],
       history := s.history + [G.Generation(p.number, G.ActiveOf(p.live))], control := G.Control.Idle)
  }

  // While the hidden buffer is filled.
  ghost predicate Filling(s: G.State, p: G.Plan, filled: nat) {
    && G.Shape(s) && s.control == G.Building(p, true) && s.live == p.live && filled <= |G.ActiveOf(p.live)|
    && s.buffers[G.Other(s.published)] == G.Generation(p.number, G.ActiveOf(p.live)[..filled])
  }

  ghost function Copied(s: G.State, p: G.Plan, filled: nat): G.State
    requires G.Shape(s) && filled <= |G.ActiveOf(p.live)|
  {
    s.(buffers := s.buffers[G.Other(s.published) := G.Generation(p.number, G.ActiveOf(p.live)[..filled])])
  }

  lemma CopyStep(s: G.State, p: G.Plan, filled: nat)
    requires Filling(s, p, filled) && filled < |G.ActiveOf(p.live)|
    ensures StepsTo(s, G.CopySlot, Copied(s, p, filled + 1)) && Filling(Copied(s, p, filled + 1), p, filled + 1)
  {
    hide G.ActiveOf;
    var active := G.ActiveOf(p.live);
    assert active[..filled] + [active[filled]] == active[..filled + 1];
  }

  lemma {:induction false} CopyPath(s: G.State, p: G.Plan, filled: nat) returns (fs: seq<G.Event>)
    requires Filling(s, p, filled)
    ensures Path(s, fs, Copied(s, p, |G.ActiveOf(p.live)|)) && ControlOnly(fs)
    decreases |G.ActiveOf(p.live)| - filled
  {
    hide G.ActiveOf, Path, StepsTo;
    var active := G.ActiveOf(p.live);
    if filled == |active| {
      assert s.buffers == Copied(s, p, |active|).buffers;
      NoPath(s);
      fs := [];
    } else {
      CopyStep(s, p, filled);
      var t := Copied(s, p, filled + 1);
      var rest := CopyPath(t, p, filled + 1);
      assert Copied(t, p, |active|) == Copied(s, p, |active|);
      PathCons(s, G.CopySlot, t, rest, Copied(s, p, |active|));
      fs := [G.CopySlot] + rest;
    }
  }

  ghost function Started(s: G.State, p: G.Plan): G.State {
    s.(control := G.Waiting(p), everOpened := s.everOpened + p.added)
  }

  ghost function Waited(s: G.State, p: G.Plan): G.State {
    s.(live := p.live, everOpened := s.everOpened + p.added,
       retired := if p.retireFirst then s.retired + G.Recorded(p.dropped, s.published) else s.retired,
       control := G.Building(p, false))
  }

  // The hidden buffer, its wait over, is cleared.
  ghost function Cleared(s: G.State, p: G.Plan): G.State
    requires G.Shape(s)
  {
    s.(live := p.live, everOpened := s.everOpened + p.added,
       retired := if p.retireFirst then s.retired + G.Recorded(p.dropped, s.published) else s.retired,
       buffers := s.buffers[G.Other(s.published) := G.Generation(p.number, [])], control := G.Building(p, true))
  }

  lemma StartStep(s: G.State, p: G.Plan)
    requires G.Shape(s) && s.control.Idle? && G.GoodPlan(s, p)
    ensures StepsTo(s, G.StartCommit(p), Started(s, p))
  {
    hide G.GoodPlan;
  }

  lemma WaitStep(s: G.State, p: G.Plan)
    requires G.Shape(Started(s, p)) && s.published < 2 && |s.readers| == 2 && s.readers[G.Other(s.published)] == 0
    ensures StepsTo(Started(s, p), G.WaitOver, Waited(s, p))
  {
    hide G.Recorded;
  }

  lemma ClearStep(s: G.State, p: G.Plan)
    requires G.Shape(s) && G.Shape(Waited(s, p))
    ensures StepsTo(Waited(s, p), G.Clear, Cleared(s, p))
  {
    hide G.Recorded;
  }

  lemma ClearPath(s: G.State, p: G.Plan)
    requires G.Inv(s) && s.control.Idle? && G.GoodPlan(s, p) && s.readers[G.Other(s.published)] == 0
    ensures Path(s, [G.StartCommit(p)] + ([G.WaitOver] + ([G.Clear] + [])), Cleared(s, p)) && G.Inv(Cleared(s, p))
  {
    ShapeOf(s);
    hide Path, StepsTo, G.Inv, G.GoodPlan, Started, Waited, Cleared, G.Shape;
    StartStep(s, p);
    StepKeepsInv(s, G.StartCommit(p), Started(s, p));
    ShapeOf(Started(s, p));
    WaitStep(s, p);
    StepKeepsInv(Started(s, p), G.WaitOver, Waited(s, p));
    ShapeOf(Waited(s, p));
    ClearStep(s, p);
    StepKeepsInv(Waited(s, p), G.Clear, Cleared(s, p));
    NoPath(Cleared(s, p));
    PathCons(Waited(s, p), G.Clear, Cleared(s, p), [], Cleared(s, p));
    PathCons(Started(s, p), G.WaitOver, Waited(s, p), [G.Clear] + [], Cleared(s, p));
    PathCons(s, G.StartCommit(p), Started(s, p), [G.WaitOver] + ([G.Clear] + []), Cleared(s, p));
  }

  lemma ShapeOf(s: G.State)
    requires G.Inv(s)
    ensures G.Shape(s) && |s.readers| == |s.buffers| == 2 && s.published < 2 && G.OneOwner(s)
  {
    hide G.OneOwner;
  }

  lemma ClearedIsFilling(s: G.State, p: G.Plan)
    requires G.Shape(s) && G.Shape(Cleared(s, p))
    ensures Filling(Cleared(s, p), p, 0)
  {
    hide G.ActiveOf, G.Recorded;
    assert G.ActiveOf(p.live)[..0] == [];
  }

  // The buffer is published; a preset load has handed its plug-ins over already.
  ghost function Published(s: G.State, p: G.Plan): G.State
    requires G.Shape(s)
  {
    AfterPlan(s, p).(control := if p.retireFirst then G.Control.Idle else G.Retiring(p),
                     retired := if p.retireFirst then s.retired + G.Recorded(p.dropped, s.published) else s.retired)
  }

  lemma PublishStep(s: G.State, p: G.Plan)
    requires G.Shape(s) && G.Shape(Cleared(s, p))
    ensures var u := Copied(Cleared(s, p), p, |G.ActiveOf(p.live)|);
            G.Shape(u) ==> StepsTo(u, G.Publish, Published(s, p))
  {
    hide G.ActiveOf, G.Recorded;
    var active := G.ActiveOf(p.live);
    assert active[..|active|] == active;
  }

  lemma RetireStep(s: G.State, p: G.Plan)
    requires G.Shape(s) && G.Shape(Published(s, p)) && !p.retireFirst
    ensures StepsTo(Published(s, p), G.Retire, AfterPlan(s, p))
  {
    hide G.ActiveOf, G.Recorded;
  }

  // Published, and the dropped plug-ins handed over if they were not before.
  lemma PublishPath(s: G.State, p: G.Plan) returns (fs: seq<G.Event>)
    requires G.Shape(s) && G.Shape(Cleared(s, p)) && G.Inv(Copied(Cleared(s, p), p, |G.ActiveOf(p.live)|))
    ensures Path(Copied(Cleared(s, p), p, |G.ActiveOf(p.live)|), fs, AfterPlan(s, p)) && ControlOnly(fs)
  {
    hide Path, G.ActiveOf, StepsTo, G.Inv, Copied, Cleared, G.Recorded;
    var u, v, t := Copied(Cleared(s, p), p, |G.ActiveOf(p.live)|), Published(s, p), AfterPlan(s, p);
    ShapeOf(u);
    PublishStep(s, p);
    StepKeepsInv(u, G.Publish, v);
    ShapeOf(v);
    NoPath(t);
    if p.retireFirst {
      assert v == t;
      PathCons(u, G.Publish, t, [], t);
      fs := [G.Publish] + [];
    } else {
      RetireStep(s, p);
      PathCons(v, G.Retire, t, [], t);
      PathCons(u, G.Publish, v, [G.Retire] + [], t);
      fs := [G.Publish] + ([G.Retire] + []);
    }
  }

  lemma OpeningIsControl(p: G.Plan)
    ensures ControlOnly([G.StartCommit(p)] + ([G.WaitOver] + ([G.Clear] + [])))
    ensures ControlOnly([G.StartCommit(p)] + ([G.GiveUp] + []))
  {
  }

  // Whatever the readers are doing, as long as the hidden buffer has none, the
  // control thread's steps alone carry a commit through.
  lemma CommitPath(s: G.State, p: G.Plan) returns (fs: seq<G.Event>)
    requires G.Inv(s) && s.control.Idle? && G.GoodPlan(s, p) && s.readers[G.Other(s.published)] == 0
    ensures Path(s, fs, AfterPlan(s, p)) && ControlOnly(fs)
  {
    hide Path, ControlOnly, G.GoodPlan, G.ActiveOf, G.Inv, Cleared, Copied, AfterPlan, G.Shape, G.OneOwner;
    ShapeOf(s);
    ClearPath(s, p);
    var c := Cleared(s, p);
    ShapeOf(c);
    var u := Copied(c, p, |G.ActiveOf(p.live)|);
    ClearedIsFilling(s, p);
    var copies := CopyPath(c, p, 0);
    PathKeepsInv(c, copies, u);
    var rest := PublishPath(s, p);
    var opening := [G.StartCommit(p)] + ([G.WaitOver] + ([G.Clear] + []));
    OpeningIsControl(p);
    OnlyControlConcat(copies, rest);
    OnlyControlConcat(opening, copies + rest);
    PathConcat(c, copies, u, rest, AfterPlan(s, p));
    PathConcat(s, opening, c, copies + rest, AfterPlan(s, p));
    fs := opening + (copies + rest);
  }

  // ---------------------------------------------------------------- plug-ins opened in vain

  function WithPlugins(live: seq<G.LiveSlot>, plugins: seq<Plugin>): seq<G.LiveSlot> {
    live + seq(|plugins|, i requires 0 <= i < |plugins| => G.LiveSlot(Some(plugins[i]), true))
  }

  lemma {:induction false} PluginsOfWith(live: seq<G.LiveSlot>, plugins: seq<Plugin>)
    ensures G.PluginsOf(WithPlugins(live, plugins)) == G.PluginsOf(live) + plugins
    decreases |plugins|
  {
    if plugins == [] {
      assert WithPlugins(live, plugins) == live;
    } else {
      var rest := plugins[..|plugins| - 1];
      PluginsOfWith(live, rest);
      var all := WithPlugins(live, plugins);
      assert all[..|all| - 1] == WithPlugins(live, rest);
      assert plugins == rest + [plugins[|plugins| - 1]];
    }
  }

  lemma {:induction false} ListOf(plugins: set<Plugin>) returns (list: seq<Plugin>)
    ensures G.Elements(list) == plugins && G.NoDuplicates(list)
    decreases plugins
  {
    if plugins == {} {
      list := [];
    } else {
      var p :| p in plugins;
      var rest := ListOf(plugins - {p});
      assert p !in G.Elements(rest);
      list := rest + [p];
      assert forall q :: q in list <==> q in rest || q == p;
      assert forall q :: q in rest <==> q in G.Elements(rest);
    }
  }

  ghost function GivenBack(s: G.State, added: set<Plugin>): G.State {
    s.(everOpened := s.everOpened + added, closed := s.closed + added)
  }

  lemma GiveUpStep(s: G.State, p: G.Plan)
    requires s.control.Idle? && G.Shape(Started(s, p))
    ensures StepsTo(Started(s, p), G.GiveUp, GivenBack(s, p.added))
  {
  }

  // Opening plug-ins and closing them again is a commit that is given up.
  lemma GiveUpPath(s: G.State, added: set<Plugin>) returns (fs: seq<G.Event>)
    requires G.Inv(s) && s.control.Idle? && added !! s.everOpened
    ensures Path(s, fs, GivenBack(s, added)) && ControlOnly(fs)
  {
    hide Path, StepsTo, ControlOnly, G.Inv, G.GoodPlan, WithPlugins, Started, G.Shape, GivenBack, G.OneOwner,
      G.Elements, G.NoDuplicates;
    ShapeOf(s);
    var list := ListOf(added);
    var p := G.Plan(WithPlugins(s.live, list), added, [], false, 0);
    GiveUpPlanIsGood(s, list, added);
    OpeningIsControl(p);
    StartStep(s, p);
    StepKeepsInv(s, G.StartCommit(p), Started(s, p));
    ShapeOf(Started(s, p));
    GiveUpStep(s, p);
    var t := GivenBack(s, added);
    NoPath(t);
    PathCons(Started(s, p), G.GiveUp, t, [], t);
    PathCons(s, G.StartCommit(p), Started(s, p), [G.GiveUp] + [], t);
    fs := [G.StartCommit(p)] + ([G.GiveUp] + []);
  }

  lemma GiveUpPlanIsGood(s: G.State, list: seq<Plugin>, added: set<Plugin>)
    requires G.OneOwner(s) && added !! s.everOpened && G.Elements(list) == added && G.NoDuplicates(list)
    ensures G.GoodPlan(s, G.Plan(WithPlugins(s.live, list), added, [], false, 0))
  {
    hide WithPlugins, G.RetiredPlugins;
    var before := G.PluginsOf(s.live);
    PluginsOfWith(s.live, list);
    hide G.PluginsOf;
    ElementsConcat(before, list);
  }

  lemma ElementsConcat(a: seq<Plugin>, b: seq<Plugin>)
    requires G.NoDuplicates(a) && G.NoDuplicates(b) && G.Elements(a) !! G.Elements(b)
    ensures G.Elements(a + b) == G.Elements(a) + G.Elements(b) && G.NoDuplicates(a + b)
  {
    forall i, j | 0 <= i < j < |a + b|
      ensures (a + b)[i] != (a + b)[j]
    {
      if i < |a| <= j { assert a[i] in G.Elements(a) && b[j - |a|] in G.Elements(b); }
    }
  }

  // ---------------------------------------------------------------- a reap under readers

  // A thread that has loaded the index of a buffer announces itself just before
  // the control thread looks, and leaves again.
  ghost function BusyLook(s: G.State, t: G.Thread): seq<G.Event>
    requires t in s.threads && s.threads[t].Loaded?
  {
    [G.Announce(t)] + ([G.ReapNext] + ([G.Check(t)]
      + ([if s.published == s.threads[t].index then G.Release(t) else G.Withdraw(t)] + [])))
  }

  // Nobody is announced anywhere.
  ghost predicate Silent(s: G.State) {
    s.readers == [0, 0]
  }

  ghost function Announcing(s: G.State, t: G.Thread): G.State
    requires t in s.threads && s.threads[t].Loaded? && s.threads[t].index < 2
  {
    s.(readers := [0, 0][s.threads[t].index := 1], threads := s.threads[t := G.Reader.Announced(s.threads[t].index)])
  }

  ghost function Checked(s: G.State, t: G.Thread): G.State
    requires t in s.threads && s.threads[t].Loaded? && s.threads[t].index < |s.buffers| == 2
  {
    Announcing(s, t).(threads := s.threads[t := if s.published == s.threads[t].index
                                                then G.Holding(s.threads[t].index, s.buffers[s.threads[t].index])
                                                else G.Withdrawing(s.threads[t].index)])
  }

  ghost function Left(s: G.State, t: G.Thread): G.State
    requires t in s.threads
  {
    s.(threads := s.threads[t := G.Outside])
  }

  // In a reap that looks at entry k, whose buffer thread t has loaded.
  ghost predicate Looking(s: G.State, t: G.Thread, k: nat) {
    && G.Shape(s) && Silent(s) && s.control == G.Reaping(k) && k < |s.retired|
    && t in s.threads && s.threads[t] == G.Reader.Loaded(s.retired[k].index)
  }

  lemma AnnounceStep(s: G.State, t: G.Thread, k: nat)
    requires Looking(s, t, k)
    ensures StepsTo(s, G.Announce(t), Announcing(s, t))
  {
    assert s.readers[s.threads[t].index] + 1 == 1;
  }

  lemma BusyLookStep(s: G.State, t: G.Thread, k: nat)
    requires Looking(s, t, k) && G.Shape(Announcing(s, t))
    ensures StepsTo(Announcing(s, t), G.ReapNext, Announcing(s, t).(control := G.Reaping(k + 1)))
  {
  }

  lemma CheckStep(s: G.State, t: G.Thread, k: nat)
    requires Looking(s, t, k) && G.Shape(Announcing(s, t).(control := G.Reaping(k + 1)))
    ensures StepsTo(Announcing(s, t).(control := G.Reaping(k + 1)), G.Check(t), Checked(s, t).(control := G.Reaping(k + 1)))
  {
    var a := Announcing(s, t).(control := G.Reaping(k + 1));
    var held := if s.published == s.threads[t].index
                then G.Holding(s.threads[t].index, s.buffers[s.threads[t].index])
                else G.Withdrawing(s.threads[t].index);
    assert a.threads[t := held] == s.threads[t := held];
  }

  lemma LeaveStep(s: G.State, t: G.Thread, k: nat)
    requires Looking(s, t, k) && G.Shape(Checked(s, t).(control := G.Reaping(k + 1)))
    ensures StepsTo(Checked(s, t).(control := G.Reaping(k + 1)),
                    if s.published == s.threads[t].index then G.Release(t) else G.Withdraw(t),
                    Left(s, t).(control := G.Reaping(k + 1)))
  {
    var c := Checked(s, t).(control := G.Reaping(k + 1));
    assert c.threads[t := G.Outside] == s.threads[t := G.Outside];
    assert c.readers[s.threads[t].index := c.readers[s.threads[t].index] - 1] == [0, 0];
  }

  lemma BusyLookPath(s: G.State, t: G.Thread, k: nat)
    requires G.Inv(s) && Looking(s, t, k)
    ensures Path(s, BusyLook(s, t), Left(s, t).(control := G.Reaping(k + 1)))
    ensures G.Inv(Left(s, t).(control := G.Reaping(k + 1)))
  {
    hide Path, StepsTo, G.Inv, G.Shape;
    ShapeOf(s);
    LoadedInRange(s, t);
    var a, leaving := Announcing(s, t), if s.published == s.threads[t].index then G.Release(t) else G.Withdraw(t);
    var b, c, d := a.(control := G.Reaping(k + 1)), Checked(s, t).(control := G.Reaping(k + 1)),
      Left(s, t).(control := G.Reaping(k + 1));
    hide Announcing, Checked, Left;
    AnnounceStep(s, t, k);
    StepKeepsInv(s, G.Announce(t), a);
    ShapeOf(a);
    BusyLookStep(s, t, k);
    StepKeepsInv(a, G.ReapNext, b);
    ShapeOf(b);
    CheckStep(s, t, k);
    StepKeepsInv(b, G.Check(t), c);
    ShapeOf(c);
    LeaveStep(s, t, k);
    StepKeepsInv(c, leaving, d);
    NoPath(d);
    PathCons(c, leaving, d, [], d);
    PathCons(b, G.Check(t), c, [leaving] + [], d);
    PathCons(a, G.ReapNext, b, [G.Check(t)] + ([leaving] + []), d);
    PathCons(s, G.Announce(t), a, [G.ReapNext] + ([G.Check(t)] + ([leaving] + [])), d);
  }

  lemma LoadedInRange(s: G.State, t: G.Thread)
    requires G.Shape(s) && t in s.threads && s.threads[t].Loaded?
    ensures s.threads[t].index < 2
  {
  }

  // With nobody announced the entry is closed and erased.
  ghost function Reclosed(s: G.State, k: nat): G.State
    requires k < |s.retired|
  {
    s.(closed := s.closed + {s.retired[k].plugin}, retired := G.Without(s.retired, k), control := G.Reaping(k))
  }

  lemma IdleLookPath(s: G.State, k: nat)
    requires G.Inv(s) && Silent(s) && s.control == G.Reaping(k) && k < |s.retired|
    ensures Path(s, [G.ReapNext] + ([G.Close] + []), Reclosed(s, k)) && G.Inv(Reclosed(s, k))
  {
    hide Path, StepsTo, G.Inv, G.Shape;
    ShapeOf(s);
    var a, t := s.(control := G.Closing(k)), Reclosed(s, k);
    IdleLookStep(s, k);
    StepKeepsInv(s, G.ReapNext, a);
    ShapeOf(a);
    CloseStep(s, k);
    StepKeepsInv(a, G.Close, t);
    NoPath(t);
    PathCons(a, G.Close, t, [], t);
    PathCons(s, G.ReapNext, a, [G.Close] + [], t);
  }

  lemma IdleLookStep(s: G.State, k: nat)
    requires G.Shape(s) && Silent(s) && s.control == G.Reaping(k) && k < |s.retired|
    ensures StepsTo(s, G.ReapNext, s.(control := G.Closing(k)))
  {
  }

  lemma CloseStep(s: G.State, k: nat)
    requires G.Shape(s.(control := G.Closing(k))) && k < |s.retired|
    ensures StepsTo(s.(control := G.Closing(k)), G.Close, Reclosed(s, k))
  {
  }

  lemma ReapEdges(s: G.State, k: nat)
    requires G.Shape(s)
    ensures s.control.Idle? ==> StepsTo(s, G.StartReap, s.(control := G.Reaping(0)))
    ensures s.control == G.Reaping(k) && k >= |s.retired| ==> StepsTo(s, G.ReapNext, s.(control := G.Control.Idle))
  {
  }

  // ---------------------------------------------------------------- a stock of readers

  // Threads that have loaded index 0, and threads for index 1: `seen` says that
  // buffer 1 has been published, and they have loaded it.
  datatype Stock = Stock(zero: seq<G.Thread>, one: seq<G.Thread>, seen: bool)

  ghost predicate Poised(threads: map<G.Thread, G.Reader>, list: seq<G.Thread>, r: G.Reader) {
    G.NoDuplicates(list) && forall t :: t in list ==> t in threads && threads[t] == r
  }

  function ForOne(st: Stock): G.Reader {
    if st.seen then G.Reader.Loaded(1) else G.Outside
  }

  // Nobody is announced, and n threads are ready to announce themselves on
  // either buffer that has ever been published.
  ghost predicate Supplied(s: G.State, st: Stock, n: nat) {
    && Silent(s) && n <= |st.zero| && n <= |st.one|
    && Poised(s.threads, st.zero, G.Reader.Loaded(0)) && Poised(s.threads, st.one, ForOne(st))
    && (!st.seen ==> s.published == 0 && forall r :: r in s.retired ==> r.index == 0)
  }

  function Spent(st: Stock, index: nat): Stock
    requires st.zero != [] && st.one != []
  {
    if index == 0 then st.(zero := st.zero[1..]) else st.(one := st.one[1..])
  }

  lemma PoisedWithout(threads: map<G.Thread, G.Reader>, list: seq<G.Thread>, r: G.Reader, t: G.Thread, q: G.Reader)
    requires Poised(threads, list, r)
    ensures t !in list ==> Poised(threads[t := q], list, r)
    ensures list != [] && t == list[0] ==> Poised(threads[t := q], list[1..], r)
  {
    if list != [] && t == list[0] {
      assert forall i :: 0 <= i < |list[1..]| ==> list[1..][i] == list[i + 1];
    }
  }

  lemma SpentSupplied(s: G.State, st: Stock, n: nat, index: nat, t: G.Thread, c: G.Control)
    requires Supplied(s, st, n + 1) && index < 2 && (index == 1 ==> st.seen)
    requires t == (if index == 0 then st.zero[0] else st.one[0])
    ensures t in s.threads && s.threads[t] == G.Reader.Loaded(index)
    ensures Supplied(Left(s, t).(control := c), Spent(st, index), n)
  {
    hide G.NoDuplicates;
    if index == 0 {
      assert t in st.zero;
    } else {
      assert t in st.one;
    }
    PoisedWithout(s.threads, st.zero, G.Reader.Loaded(0), t, G.Outside);
    PoisedWithout(s.threads, st.one, ForOne(st), t, G.Outside);
  }

  lemma SuppliedFrame(s: G.State, st: Stock, n: nat, t: G.State, m: nat)
    requires Supplied(s, st, n) && m <= n && t.threads == s.threads && t.readers == s.readers
    requires !st.seen ==> t.published == 0 && forall r :: r in t.retired ==> r.index == 0
    ensures Supplied(t, st, m)
  {
    hide Poised;
  }

  // ---------------------------------------------------------------- the reap loop

  function StoreRetired(retired: seq<Retired>): (list: seq<G.Retired>)
    ensures |list| == |retired|
    ensures forall i :: 0 <= i < |retired| ==> list[i] == G.Retired.Retired(retired[i].plugin, retired[i].index)
  {
    seq(|retired|, i requires 0 <= i < |retired| => G.Retired.Retired(retired[i].plugin, retired[i].index))
  }

  function Without(retired: seq<Retired>, k: nat): seq<Retired>
    requires k < |retired|
  {
    retired[..k] + retired[k + 1..]
  }

  lemma StoreWithout(retired: seq<Retired>, k: nat)
    requires k < |retired|
    ensures G.Without(StoreRetired(retired), k) == StoreRetired(Without(retired, k))
    ensures forall r :: r in StoreRetired(Without(retired, k)) ==> r in StoreRetired(retired)
  {
    var w := Without(retired, k);
    assert forall i :: 0 <= i < |w| ==> w[i] == retired[if i < k then i else i + 1];
    forall i | 0 <= i < |w|
      ensures StoreRetired(w)[i] in StoreRetired(retired)
    {
      assert StoreRetired(w)[i] == StoreRetired(retired)[if i < k then i else i + 1];
    }
  }

  // The state after a reap from entry k and its n-th look on, but for the
  // readers that came and went.
  ghost function ReapedFrom(s: G.State, retired: seq<Retired>, idle: seq<bool>, n: nat, k: nat,
                            threads: map<G.Thread, G.Reader>): G.State
    requires k <= |retired|
  {
    s.(control := G.Control.Idle, retired := StoreRetired(retired[..k] + Kept(retired[k..], idle, n)),
       closed := s.closed + Freed(retired[k..], idle, n), threads := threads)
  }

  // The loop looks at every entry once and finds its buffer idle or busy as the
  // list says: readers come and go between the looks to make it so.
  lemma {:induction false} ReapLoop(s: G.State, retired: seq<Retired>, idle: seq<bool>, n: nat, k: nat, st: Stock, m: nat)
    returns (fs: seq<G.Event>, t: G.State, left: Stock)
    requires G.Inv(s) && k <= |retired| && s.control == G.Reaping(k) && s.retired == StoreRetired(retired)
    requires Supplied(s, st, m + |retired| - k)
    ensures Path(s, fs, t) && G.Inv(t) && Supplied(t, left, m) && left.seen == st.seen
    ensures t == ReapedFrom(s, retired, idle, n, k, t.threads)
    decreases |retired| - k
  {
    hide Path, StepsTo, G.Inv, G.Shape, Supplied, Kept, Freed, StoreRetired, Left, Reclosed;
    ShapeOf(s);
    if k == |retired| {
      ReapEdges(s, k);
      t, left := s.(control := G.Control.Idle), st;
      StepKeepsInv(s, G.ReapNext, t);
      NoPath(t);
      PathCons(s, G.ReapNext, t, [], t);
      fs := [G.ReapNext] + [];
      NothingToReap(retired, idle, n);
      SuppliedAfterReap(s, st, m, t);
      assert retired[..k] + [] == retired;
    } else if FoundIdle(idle, n) {
      fs, t, left := ReapIdle(s, retired, idle, n, k, st, m);
    } else {
      fs, t, left := ReapBusy(s, retired, idle, n, k, st, m);
    }
  }

  lemma SuppliedAfterReap(s: G.State, st: Stock, m: nat, t: G.State)
    requires Supplied(s, st, m) && t == s.(control := G.Control.Idle)
    ensures Supplied(t, st, m)
  {
    SuppliedFrame(s, st, m, t, m);
  }

  lemma {:induction false} ReapIdle(s: G.State, retired: seq<Retired>, idle: seq<bool>, n: nat, k: nat, st: Stock, m: nat)
    returns (fs: seq<G.Event>, t: G.State, left: Stock)
    requires G.Inv(s) && k < |retired| && s.control == G.Reaping(k) && s.retired == StoreRetired(retired)
    requires Supplied(s, st, m + |retired| - k) && FoundIdle(idle, n)
    ensures Path(s, fs, t) && G.Inv(t) && Supplied(t, left, m) && left.seen == st.seen
    ensures t == ReapedFrom(s, retired, idle, n, k, t.threads)
    decreases |retired| - k, 0
  {
    hide Path, StepsTo, G.Inv, G.Shape, Kept, Freed, Left;
    var rest, u := Without(retired, k), Reclosed(s, k);
    StoreWithout(retired, k);
    Erased(retired, k);
    SuppliedFrame(s, st, m + |retired| - k, u, m + |rest| - k);
    hide Supplied, StoreRetired;
    IdleLookPath(s, k);
    var gs;
    gs, t, left := ReapLoop(u, rest, idle, n + 1, k, st, m);
    PathConcat(s, [G.ReapNext] + ([G.Close] + []), u, gs, t);
    fs := [G.ReapNext] + ([G.Close] + []) + gs;
    KeptAndFreedAt(retired, k, idle, n);
    assert s.retired[k].plugin == retired[k].plugin by { EntryOf(retired, k); }
    assert [] + Kept(retired[k + 1..], idle, n + 1) == Kept(retired[k + 1..], idle, n + 1);
  }

  lemma EntryOf(retired: seq<Retired>, k: nat)
    requires k < |retired|
    ensures |StoreRetired(retired)| == |retired|
    ensures StoreRetired(retired)[k] == G.Retired.Retired(retired[k].plugin, retired[k].index)
  {
  }

  lemma {:induction false} ReapBusy(s: G.State, retired: seq<Retired>, idle: seq<bool>, n: nat, k: nat, st: Stock, m: nat)
    returns (fs: seq<G.Event>, t: G.State, left: Stock)
    requires G.Inv(s) && k < |retired| && s.control == G.Reaping(k) && s.retired == StoreRetired(retired)
    requires Supplied(s, st, m + |retired| - k) && !FoundIdle(idle, n)
    ensures Path(s, fs, t) && G.Inv(t) && Supplied(t, left, m) && left.seen == st.seen
    ensures t == ReapedFrom(s, retired, idle, n, k, t.threads)
    decreases |retired| - k, 0
  {
    hide Path, StepsTo, G.Inv, Kept, Freed, Poised, G.Shape;
    var index := retired[k].index;
    EntryOf(retired, k);
    ShapeOf(s);
    EntryInRange(s, k);
    assert index == 1 ==> st.seen by { assert s.retired[k] in s.retired; }
    var x := if index == 0 then st.zero[0] else st.one[0];
    SpentSupplied(s, st, m + |retired| - k - 1, index, x, G.Reaping(k + 1));
    hide Supplied, StoreRetired;
    var u := Left(s, x).(control := G.Reaping(k + 1));
    BusyLookPath(s, x, k);
    var gs;
    gs, t, left := ReapLoop(u, retired, idle, n + 1, k + 1, Spent(st, index), m);
    PathConcat(s, BusyLook(s, x), u, gs, t);
    fs := BusyLook(s, x) + gs;
    KeptAndFreedAt(retired, k, idle, n);
    assert retired[..k] + ([retired[k]] + Kept(retired[k + 1..], idle, n + 1))
        == retired[..k + 1] + Kept(retired[k + 1..], idle, n + 1);
  }

  lemma EntryInRange(s: G.State, k: nat)
    requires G.Shape(s) && k < |s.retired|
    ensures s.retired[k].index < 2
  {
  }

  lemma SuppliedForReap(s: G.State, st: Stock, n: nat)
    requires Supplied(s, st, n)
    ensures Supplied(s.(control := G.Reaping(0)), st, n)
  {
    SuppliedFrame(s, st, n, s.(control := G.Reaping(0)), n);
  }

  lemma ReapPath(s: G.State, retired: seq<Retired>, idle: seq<bool>, st: Stock, m: nat)
    returns (fs: seq<G.Event>, t: G.State, left: Stock)
    requires G.Inv(s) && s.control.Idle? && s.retired == StoreRetired(retired) && Supplied(s, st, m + |retired|)
    ensures Path(s, fs, t) && G.Inv(t) && Supplied(t, left, m) && left.seen == st.seen
    ensures t == s.(retired := StoreRetired(Kept(retired, idle, 0)), closed := s.closed + Freed(retired, idle, 0),
                    threads := t.threads)
  {
    hide Path, StepsTo, G.Inv, G.Shape, Supplied, Kept, Freed, StoreRetired, G.OneOwner;
    ShapeOf(s);
    var u := s.(control := G.Reaping(0));
    SuppliedForReap(s, st, m + |retired|);
    ReapEdges(s, 0);
    StepKeepsInv(s, G.StartReap, u);
    var gs;
    gs, t, left := ReapLoop(u, retired, idle, 0, 0, st, m);
    PathCons(s, G.StartReap, u, gs, t);
    fs := [G.StartReap] + gs;
    assert retired[..0] + Kept(retired, idle, 0) == Kept(retired, idle, 0) && retired[0..] == retired;
  }

  // ---------------------------------------------------------------- a commit, and the readers it lets in

  ghost function LoadedBy(threads: map<G.Thread, G.Reader>, list: seq<G.Thread>, index: nat): map<G.Thread, G.Reader> {
    map t | t in threads :: if t in list then G.Reader.Loaded(index) else threads[t]
  }

  lemma LoadStep(s: G.State, t: G.Thread)
    requires G.Shape(s) && t in s.threads && s.threads[t].Outside?
    ensures StepsTo(s, G.Load(t), s.(threads := s.threads[t := G.Reader.Loaded(s.published)]))
  {
  }

  // Readers outside load the published index, one after the other.
  lemma {:induction false} LoadPath(s: G.State, list: seq<G.Thread>) returns (fs: seq<G.Event>)
    requires G.Inv(s) && Poised(s.threads, list, G.Outside)
    ensures Path(s, fs, s.(threads := LoadedBy(s.threads, list, s.published)))
    ensures G.Inv(s.(threads := LoadedBy(s.threads, list, s.published)))
    decreases |list|
  {
    hide Path, StepsTo, G.Inv, G.Shape;
    if list == [] {
      assert LoadedBy(s.threads, list, s.published) == s.threads;
      NoPath(s);
      fs := [];
    } else {
      var x, loaded := list[0], G.Reader.Loaded(s.published);
      var u := s.(threads := s.threads[x := loaded]);
      ShapeOf(s);
      LoadStep(s, x);
      StepKeepsInv(s, G.Load(x), u);
      PoisedWithout(s.threads, list, G.Outside, x, loaded);
      var rest := LoadPath(u, list[1..]);
      assert LoadedBy(u.threads, list[1..], s.published) == LoadedBy(s.threads, list, s.published) by {
        assert list == [x] + list[1..];
      }
      PathCons(s, G.Load(x), u, rest, s.(threads := LoadedBy(s.threads, list, s.published)));
      fs := [G.Load(x)] + rest;
    }
  }

  lemma LoadedByPoised(threads: map<G.Thread, G.Reader>, list: seq<G.Thread>, index: nat, other: seq<G.Thread>, r: G.Reader)
    requires Poised(threads, list, G.Outside) && Poised(threads, other, r) && r != G.Outside
    ensures Poised(LoadedBy(threads, list, index), list, G.Reader.Loaded(index))
    ensures Poised(LoadedBy(threads, list, index), other, r)
  {
    hide G.NoDuplicates;
    forall t | t in other
      ensures t in LoadedBy(threads, list, index) && LoadedBy(threads, list, index)[t] == r
    {
      assert t !in list;
    }
  }

  lemma SeenStaysSupplied(s: G.State, p: G.Plan, st: Stock, n: nat)
    requires G.Shape(s) && Supplied(s, st, n) && st.seen
    ensures Supplied(AfterPlan(s, p), st, n)
  {
    hide G.ActiveOf, G.Recorded;
    SuppliedFrame(s, st, n, AfterPlan(s, p), n);
  }

  // The first commit publishes buffer 1, and its readers load the index.
  lemma FirstCommitSupplies(s: G.State, p: G.Plan, st: Stock, n: nat)
    requires G.Shape(s) && Supplied(s, st, n) && !st.seen
    ensures AfterPlan(s, p).published == 1 && AfterPlan(s, p).threads == s.threads && Poised(s.threads, st.one, G.Outside)
    ensures Supplied(AfterPlan(s, p).(threads := LoadedBy(s.threads, st.one, 1)), st.(seen := true), n)
  {
    hide G.ActiveOf, G.Recorded, LoadedBy, Poised;
    LoadedByPoised(s.threads, st.one, 1, st.zero, G.Reader.Loaded(0));
  }

  lemma NobodyAnnounced(s: G.State, st: Stock, n: nat)
    requires Supplied(s, st, n) && s.published < 2
    ensures |s.readers| == 2 && s.readers[G.Other(s.published)] == 0
  {
  }

  lemma CommitAndStock(s: G.State, p: G.Plan, st: Stock, n: nat) returns (fs: seq<G.Event>, t: G.State, left: Stock)
    requires G.Inv(s) && s.control.Idle? && G.GoodPlan(s, p) && Supplied(s, st, n)
    ensures G.Shape(s) && Path(s, fs, t) && G.Inv(t) && Supplied(t, left, n)
    ensures t == AfterPlan(s, p).(threads := t.threads)
  {
    hide Path, G.Inv, G.Shape, G.GoodPlan, AfterPlan, LoadedBy, Poised, Supplied, G.OneOwner;
    ShapeOf(s);
    NobodyAnnounced(s, st, n);
    var commit := CommitPath(s, p);
    var u := AfterPlan(s, p);
    PathKeepsInv(s, commit, u);
    if st.seen {
      fs, t, left := commit, u, st;
      SeenStaysSupplied(s, p, st, n);
    } else {
      FirstCommitSupplies(s, p, st, n);
      var loads := LoadPath(u, st.one);
      t, left := u.(threads := LoadedBy(s.threads, st.one, 1)), st.(seen := true);
      PathConcat(s, commit, u, loads, t);
      fs := commit + loads;
    }
  }

  lemma GiveUpAndStock(s: G.State, added: set<Plugin>, st: Stock, n: nat) returns (fs: seq<G.Event>)
    requires G.Inv(s) && s.control.Idle? && added !! s.everOpened && Supplied(s, st, n)
    ensures Path(s, fs, GivenBack(s, added)) && G.Inv(GivenBack(s, added)) && Supplied(GivenBack(s, added), st, n)
  {
    hide Path, G.Inv;
    fs := GiveUpPath(s, added);
    PathKeepsInv(s, fs, GivenBack(s, added));
    SuppliedFrame(s, st, n, GivenBack(s, added), n);
  }

  // ---------------------------------------------------------------- the two sides

  // The store, between commits, holds what the rack holds.
  ghost predicate Mirrors(s: G.State, r: Rack) {
    && G.Shape(s) && s.control.Idle? && s.published == r.index
    && s.live == Live(r.slots) && s.retired == StoreRetired(r.retired)
    && s.closed == r.everClosed && s.everOpened == r.everOpened
    && s.buffers[s.published] == G.Generation(r.generation, PublishedPlugins(r.published))
  }

  // No step of a reader changes any of this, so readers may step wherever they like.
  lemma ReadersKeepMirror(s: G.State, e: G.Event, r: Rack)
    requires G.Inv(s) && Mirrors(s, r) && G.Enabled(s, e) && Reader(e)
    ensures G.Inv(G.Apply(s, e)) && Mirrors(G.Apply(s, e), r)
  {
    hide G.Inv, Live, StoreRetired, PublishedPlugins;
    G.InvStep(s, e);
    ShapeOf(G.Apply(s, e));
    ReaderTouchesReaders(s, e);
  }

  lemma ReaderTouchesReaders(s: G.State, e: G.Event)
    requires G.Shape(s) && G.Enabled(s, e) && Reader(e)
    ensures var t := G.Apply(s, e); t == s.(readers := t.readers, threads := t.threads)
  {
    match e
    case Load(_) | Announce(_) | Check(_) | Withdraw(_) | Release(_) =>
  }

  lemma MirrorsMatches(s: G.State, r: Rack)
    requires Mirrors(s, r)
    ensures Matches(s, r)
  {
  }

  lemma ReapMirrors(s: G.State, r: Rack, idle: seq<bool>, st: Stock, m: nat)
    returns (fs: seq<G.Event>, t: G.State, left: Stock)
    requires G.Inv(s) && Mirrors(s, r) && Supplied(s, st, m + |r.retired|)
    ensures Path(s, fs, t) && G.Inv(t) && Supplied(t, left, m) && Mirrors(t, Reaped(r, idle))
  {
    hide Path, G.Inv, G.Shape, Supplied, Kept, Freed, StoreRetired, Live, PublishedPlugins;
    fs, t, left := ReapPath(s, r.retired, idle, st, m);
    ShapeOf(t);
  }

  lemma RefusedMirrors(s: G.State, r: Rack, tried: set<Plugin>, st: Stock, m: nat) returns (fs: seq<G.Event>, t: G.State)
    requires G.Inv(s) && Mirrors(s, r) && Supplied(s, st, m) && tried !! r.everOpened
    ensures Path(s, fs, t) && G.Inv(t) && Supplied(t, st, m) && t == GivenBack(s, tried)
    ensures Mirrors(t, r.(everOpened := r.everOpened + tried, everClosed := r.everClosed + tried))
  {
    hide Path, G.Inv, G.Shape, Supplied, StoreRetired, Live, PublishedPlugins;
    t := GivenBack(s, tried);
    fs := GiveUpAndStock(s, tried, st, m);
    ShapeOf(t);
  }

  // ---------------------------------------------------------------- commands and loads

  lemma {:induction false} RetiredFromIsRecorded(slots: seq<Slot>, index: nat)
    ensures StoreRetired(RetiredFrom(slots, index)) == G.Recorded(G.PluginsOf(Live(slots)), index)
  {
    if slots != [] {
      var rest := slots[..|slots| - 1];
      RetiredFromIsRecorded(rest, index);
      assert Live(slots)[..|slots| - 1] == Live(rest);
    }
  }

  lemma StoreRetiredConcat(a: seq<Retired>, b: seq<Retired>)
    ensures StoreRetired(a + b) == StoreRetired(a) + StoreRetired(b)
  {
  }

  lemma CommittedMirrors(s: G.State, r: Rack, c: Command, t: G.State)
    requires G.Shape(s) && Mirrors(s, r) && Verdict(r, c).Accepted? && G.Shape(t)
    requires t == AfterPlan(s, PlanOf(r, c)).(threads := t.threads)
    ensures Mirrors(t, Committed(r, c))
  {
    hide SlotsAfter, Verdict, ActiveSlots, G.ActiveOf, Live, PublishedPlugins;
    LiveActive(SlotsAfter(r, c));
    if Dropped(r, c).Some? { StoreRetiredConcat(r.retired, [Retired(Dropped(r, c).value, r.index)]); }
  }

  lemma LoadedMirrors(s: G.State, w: Worker, preset: seq<Snapshot>, outcomes: seq<Outcome>, t: G.State)
    requires |outcomes| == |preset| && Loadable(preset) && w.rack.generation < LAST_GENERATION
    requires G.Shape(s) && Mirrors(s, w.rack) && G.Shape(GivenBack(s, GivenUp(preset, outcomes))) && G.Shape(t)
    requires t == AfterPlan(GivenBack(s, GivenUp(preset, outcomes)), PlanOfLoad(w, preset, outcomes)).(threads := t.threads)
    requires GivenUp(preset, outcomes) <= Tried(preset, outcomes)
    ensures Mirrors(t, Loaded(w, preset, outcomes).rack)
  {
    hide LoadedSlots, ActiveSlots, G.ActiveOf, G.PluginsOf, Live, PublishedPlugins, Tried, GivenUp, FirstUnused, Loadable,
      G.Recorded, RetiredFrom, StoreRetired;
    LiveActive(LoadedSlots(preset, outcomes));
    RetiredFromIsRecorded(w.rack.slots, w.rack.index);
    StoreRetiredConcat(w.rack.retired, RetiredFrom(w.rack.slots, w.rack.index));
  }

  lemma GoodAfterGiveBack(s: G.State, w: Worker, preset: seq<Snapshot>, outcomes: seq<Outcome>)
    requires |outcomes| == |preset| && G.GoodPlan(s, PlanOfLoad(w, preset, outcomes))
    ensures G.GoodPlan(GivenBack(s, GivenUp(preset, outcomes)), PlanOfLoad(w, preset, outcomes))
  {
    hide G.PluginsOf, Live, Tried, GivenUp, G.Elements, G.NoDuplicates;
  }

  // How many looks at retired entries an event can take.
  function Looks(w: Worker, e: Event): nat {
    match e
    case Run(_, _, _) => 2 * |w.rack.retired| + 1
    case LoadFrom(_, _, _, _) => |w.rack.retired| + |w.rack.slots|
  }

  lemma {:induction false} KeptIsNoLonger(retired: seq<Retired>, idle: seq<bool>, n: nat)
    ensures |Kept(retired, idle, n)| <= |retired|
    decreases |retired|
  {
    if retired != [] { KeptIsNoLonger(retired[1..], idle, n + 1); }
  }

  lemma {:induction false} RetiredFromIsNoLonger(slots: seq<Slot>, index: nat)
    ensures |RetiredFrom(slots, index)| <= |slots|
  {
    if slots != [] { RetiredFromIsNoLonger(slots[..|slots| - 1], index); }
  }

  lemma SuppliedLess(s: G.State, st: Stock, n: nat, m: nat)
    requires Supplied(s, st, n) && m <= n
    ensures Supplied(s, st, m)
  {
  }

  // Every command has its run of the store.
  lemma CommandPath(s: G.State, w: Worker, c: Command, before: seq<bool>, after: seq<bool>, st: Stock, n: nat)
    returns (fs: seq<G.Event>, t: G.State, left: Stock)
    requires G.Inv(s) && Mirrors(s, w.rack) && OwnedOnce(w.rack) && Enabled(w, Run(c, before, after))
    requires Supplied(s, st, n + Looks(w, Run(c, before, after)))
    ensures Path(s, fs, t) && G.Inv(t) && Supplied(t, left, n) && Mirrors(t, Apply(w, Run(c, before, after)).rack)
  {
    hide Path, G.Inv, G.Shape, G.GoodPlan, Supplied, Mirrors, OwnedOnce, Verdict, Committed, Kept, Freed, PlanOf, AfterPlan;
    var r, k := Reaped(w.rack, before), |w.rack.retired|;
    KeptIsNoLonger(w.rack.retired, before, 0);
    ReapKeepsOwnership(w.rack, before);
    fs, t, left := ReapMirrors(s, w.rack, before, st, n + k + 1);
    if Verdict(r, c).Accepted? {
      var gs, hs, u, v;
      gs, u, left := CommittedPath(t, r, c, left, n + k + 1);
      if c.Remove? || c.Replace? {
        assert |Committed(r, c).retired| <= k + 1 by { CommittedRetired(r, c); }
        SuppliedLess(u, left, n + k + 1, n + |Committed(r, c).retired|);
        hs, v, left := ReapMirrors(u, Committed(r, c), after, left, n);
        PathConcat(t, gs, u, hs, v);
        gs, u := gs + hs, v;
      } else {
        SuppliedLess(u, left, n + k + 1, n);
      }
      PathConcat(s, fs, t, gs, u);
      fs, t := fs + gs, u;
    } else {
      var gs, u := RefusedMirrors(t, r, Opened(r, c), left, n + k + 1);
      SuppliedLess(u, left, n + k + 1, n);
      PathConcat(s, fs, t, gs, u);
      fs, t := fs + gs, u;
    }
  }

  lemma CommittedRetired(r: Rack, c: Command)
    requires Verdict(r, c).Accepted?
    ensures |Committed(r, c).retired| <= |r.retired| + 1
  {
    hide Verdict, SlotsAfter, ActiveSlots;
  }

  lemma CommittedPath(s: G.State, r: Rack, c: Command, st: Stock, n: nat)
    returns (fs: seq<G.Event>, t: G.State, left: Stock)
    requires G.Inv(s) && Mirrors(s, r) && OwnedOnce(r) && Verdict(r, c).Accepted? && Supplied(s, st, n)
    requires OpeningOf(c).Some? ==> OpeningOf(c).value.plugin !in r.everOpened
    ensures Path(s, fs, t) && G.Inv(t) && Supplied(t, left, n) && Mirrors(t, Committed(r, c))
  {
    hide Path, G.Inv, G.Shape, G.GoodPlan, Supplied, OwnedOnce, Verdict, Committed, AfterPlan, PlanOf;
    MirrorsMatches(s, r);
    AcceptedIsGoodPlan(s, r, c);
    fs, t, left := CommitAndStock(s, PlanOf(r, c), st, n);
    ShapeOf(t);
    CommittedMirrors(s, r, c, t);
  }

  // So has every load, refused ones included.
  lemma LoadPresetPath(s: G.State, w: Worker, preset: seq<Snapshot>, outcomes: seq<Outcome>, reserved: bool, idle: seq<bool>,
                       st: Stock, n: nat)
    returns (fs: seq<G.Event>, t: G.State, left: Stock)
    requires G.Inv(s) && Mirrors(s, w.rack) && OwnedOnce(w.rack) && |outcomes| == |preset|
    requires Enabled(w, LoadFrom(preset, outcomes, reserved, idle))
    requires Supplied(s, st, n + |w.rack.retired| + |w.rack.slots|)
    ensures Path(s, fs, t) && G.Inv(t) && Supplied(t, left, n)
    ensures Mirrors(t, Load(w, preset, outcomes, reserved, idle).rack)
  {
    hide Path, G.Inv, G.Shape, Supplied, Mirrors, OwnedOnce, Loadable, Loaded, Tried, GivenUp, Kept, Freed;
    var m := n + |w.rack.retired| + |w.rack.slots|;
    if Loadable(preset) && Reservable(w.rack, reserved) {
      var gs, u;
      fs, t, left := LoadedPath(s, w, preset, outcomes, st, m);
      LoadedRetired(w, preset, outcomes);
      SuppliedLess(t, left, m, n + |Loaded(w, preset, outcomes).rack.retired|);
      gs, u, left := ReapMirrors(t, Loaded(w, preset, outcomes).rack, idle, left, n);
      PathConcat(s, fs, t, gs, u);
      fs, t := fs + gs, u;
    } else {
      RefusedTriedAreNew(w, preset, outcomes);
      fs, t := RefusedMirrors(s, w.rack, Tried(preset[..Reached(preset)], outcomes[..Reached(preset)]), st, m);
      left := st;
      SuppliedLess(t, left, m, n);
    }
  }

  lemma LoadedRetired(w: Worker, preset: seq<Snapshot>, outcomes: seq<Outcome>)
    requires |outcomes| == |preset| && Loadable(preset) && w.rack.generation < LAST_GENERATION
    ensures |Loaded(w, preset, outcomes).rack.retired| <= |w.rack.retired| + |w.rack.slots|
  {
    hide Loadable, FirstUnused, ActiveSlots, LoadedSlots;
    RetiredFromIsNoLonger(w.rack.slots, w.rack.index);
  }

  lemma RefusedTriedAreNew(w: Worker, preset: seq<Snapshot>, outcomes: seq<Outcome>)
    requires |outcomes| == |preset| && Enabled(w, LoadFrom(preset, outcomes, true, []))
    ensures Tried(preset[..Reached(preset)], outcomes[..Reached(preset)]) !! w.rack.everOpened
  {
    var n := Reached(preset);
    assert forall i :: 0 <= i < n && !outcomes[..n][i].CannotOpen? ==> outcomes[..n][i].plugin == outcomes[i].plugin;
  }

  lemma LoadedPath(s: G.State, w: Worker, preset: seq<Snapshot>, outcomes: seq<Outcome>, st: Stock, n: nat)
    returns (fs: seq<G.Event>, t: G.State, left: Stock)
    requires G.Inv(s) && Mirrors(s, w.rack) && OwnedOnce(w.rack) && |outcomes| == |preset| && Supplied(s, st, n)
    requires Enabled(w, LoadFrom(preset, outcomes, true, [])) && Loadable(preset) && w.rack.generation < LAST_GENERATION
    ensures Path(s, fs, t) && G.Inv(t) && Supplied(t, left, n) && Mirrors(t, Loaded(w, preset, outcomes).rack)
  {
    hide Path, G.Inv, G.Shape, G.GoodPlan, Supplied, OwnedOnce, Loadable, Loaded, Tried, GivenUp, Enabled, PlanOfLoad, AfterPlan,
      Live, PublishedPlugins, StoreRetired;
    var p, u := PlanOfLoad(w, preset, outcomes), GivenBack(s, GivenUp(preset, outcomes));
    MirrorsMatches(s, w.rack);
    LoadIsGoodPlan(s, w, preset, outcomes);
    LoadedPlugins(w, preset, outcomes);
    GoodAfterGiveBack(s, w, preset, outcomes);
    var gs := GiveUpAndStock(s, GivenUp(preset, outcomes), st, n);
    fs, t, left := CommitAndStock(u, p, st, n);
    PathConcat(s, gs, u, fs, t);
    fs := gs + fs;
    ShapeOf(t);
    LoadedMirrors(s, w, preset, outcomes, t);
  }

  lemma EventPath(s: G.State, w: Worker, e: Event, st: Stock, n: nat)
    returns (fs: seq<G.Event>, t: G.State, left: Stock)
    requires G.Inv(s) && Mirrors(s, w.rack) && OwnedOnce(w.rack) && Enabled(w, e) && Supplied(s, st, n + Looks(w, e))
    ensures Path(s, fs, t) && G.Inv(t) && Supplied(t, left, n) && Mirrors(t, Apply(w, e).rack)
  {
    hide Path, G.Inv, Supplied, Mirrors, OwnedOnce, Serve, Load;
    match e
    case Run(c, before, after) => fs, t, left := CommandPath(s, w, c, before, after, st, n);
    case LoadFrom(preset, outcomes, reserved, idle) =>
      fs, t, left := LoadPresetPath(s, w, preset, outcomes, reserved, idle, st, n);
  }

  // ---------------------------------------------------------------- every run

  ghost function AllLooks(w: Worker, es: seq<Event>): nat
    requires Runs(w, es)
    decreases |es|
  {
    if es == [] then 0 else Looks(w, es[0]) + AllLooks(Apply(w, es[0]), es[1..])
  }

  lemma {:induction false} RunPath(s: G.State, w: Worker, es: seq<Event>, st: Stock)
    returns (fs: seq<G.Event>, t: G.State)
    requires G.Inv(s) && Mirrors(s, w.rack) && OwnedOnce(w.rack) && Runs(w, es) && Supplied(s, st, AllLooks(w, es))
    ensures Path(s, fs, t) && Mirrors(t, End(w, es).rack)
    decreases |es|
  {
    hide Path, G.Inv, Supplied, Mirrors, OwnedOnce, Enabled, Apply, Looks;
    if es == [] {
      NoPath(s);
      fs, t := [], s;
    } else {
      var gs, u, left := EventPath(s, w, es[0], st, AllLooks(Apply(w, es[0]), es[1..]));
      StepKeepsOwnership(w, es[0]);
      fs, t := RunPath(u, Apply(w, es[0]), es[1..], left);
      PathConcat(s, gs, u, fs, t);
      fs := gs + fs;
    }
  }

  function Range(lo: nat, n: nat): seq<G.Thread> {
    seq(n, i requires 0 <= i < n => lo + i)
  }

  // As many readers as the run can need, all outside.
  ghost function InitialStore(readers: nat): G.State {
    G.State.State([G.Generation(1, []), G.Generation(0, [])], [0, 0], 0, map t | t in Range(0, readers) :: G.Outside,
                  G.Control.Idle, [], [], {}, {}, [G.Generation(1, [])])
  }

  lemma InitialMirrors(readers: nat)
    ensures G.Init(InitialStore(readers)) && G.Inv(InitialStore(readers)) && Mirrors(InitialStore(readers), EMPTY_RACK)
  {
    G.InvInit(InitialStore(readers));
  }

  lemma InitialSupply(n: nat) returns (fs: seq<G.Event>, t: G.State, st: Stock)
    ensures Path(InitialStore(2 * n), fs, t) && G.Inv(t) && Supplied(t, st, n) && Mirrors(t, EMPTY_RACK)
  {
    hide Path, G.Inv;
    var s, zero, one := InitialStore(2 * n), Range(0, n), Range(n, n);
    InitialMirrors(2 * n);
    forall x | x in zero || x in one
      ensures x in s.threads
    {
      assert Range(0, 2 * n)[x] == x;
    }
    fs := LoadPath(s, zero);
    t, st := s.(threads := LoadedBy(s.threads, zero, 0)), Stock(zero, one, false);
    LoadedByPoised(s.threads, zero, 0, [], G.Reader.Loaded(0));
    forall x | x in one
      ensures x in t.threads && t.threads[x] == G.Outside
    {
      assert x !in zero;
    }
    ShapeOf(t);
  }

  // For every run of commands and loads from the empty Rack there is a run of
  // the generation store, from its initial state, that carries it out: readers
  // step in between so that every look of a reap finds what the run says, and
  // both end with the same live slots, retired list, closed plug-ins and
  // published generation.  What is proved of every run of the store therefore
  // holds of the store under the command worker.
  lemma EveryRunIsAStoreRun(es: seq<Event>) returns (readers: nat, fs: seq<G.Event>)
    requires Runs(EMPTY_WORKER, es)
    ensures G.Init(InitialStore(readers)) && G.Runs(InitialStore(readers), fs)
    ensures Mirrors(G.End(InitialStore(readers), fs), End(EMPTY_WORKER, es).rack)
  {
    hide Mirrors, Supplied, G.Inv, Runs, End, G.Runs, G.End;
    var n := AllLooks(EMPTY_WORKER, es);
    readers := 2 * n;
    InitialMirrors(readers);
    var gs, s, st := InitialSupply(n);
    var hs, t := RunPath(s, EMPTY_WORKER, es, st);
    PathConcat(InitialStore(readers), gs, s, hs, t);
    fs := gs + hs;
  }
}
