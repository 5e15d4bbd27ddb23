/**
The generation store: two buffers, a published index and a reader count per
buffer.  DSP readers announce themselves on the index they loaded and look
again; the control thread rewrites the other buffer, publishes it, and closes
removed plug-ins once the buffer they were removed from has no readers.

One step per atomic operation, and one per slot copied while a buffer is
rewritten, so a reader could see a half-written buffer if the protocol let it.
 */
module Generations {
  import opened Wrappers
  import opened Counting

  type Plugin = nat
  type Thread = nat

  datatype Generation = Generation(number: nat, plugins: seq<Plugin>)

  // acquire_published_generation and release_generation, between their atomics.
  datatype Reader =
    | Outside
    | Loaded(index: nat)
    | Announced(index: nat)
    | Withdrawing(index: nat)
    | Holding(index: nat, generation: Generation)

  datatype LiveSlot = LiveSlot(plugin: Option<Plugin>, active: bool)

  datatype Retired = Retired(plugin: Plugin, index: nat)

  // A commit in progress: the new slot list, what it opened, what it drops, and
  // whether it hands the dropped plug-ins over before publishing (a preset
  // load) or after (Remove and Replace).
  datatype Plan = Plan(
    live: seq<LiveSlot>, added: set<Plugin>, dropped: seq<Plugin>, retireFirst: bool, number: nat)

  datatype Control =
    | Idle
    | Reaping(k: nat)
    | Closing(k: nat)
    | Waiting(plan: Plan)
    | Building(plan: Plan, cleared: bool)
    | Retiring(plan: Plan)

  datatype State = State(
    buffers: seq<Generation>, readers: seq<int>, published: nat,
    threads: map<Thread, Reader>,
    control: Control, live: seq<LiveSlot>, retired: seq<Retired>, closed: set<Plugin>,
    everOpened: set<Plugin>, history: seq<Generation>)

  datatype Event =
    | Load(t: Thread) | Announce(t: Thread) | Check(t: Thread) | Withdraw(t: Thread) | Release(t: Thread)
    | StartReap | ReapNext | Close
    | StartCommit(plan: Plan) | WaitOver | GiveUp | Clear | CopySlot | Publish | Retire

  // ---------------------------------------------------------------- plug-ins of a slot list

  function PluginsOf(live: seq<LiveSlot>): seq<Plugin> {
    if live == [] then []
    else PluginsOf(live[..|live| - 1])
         + (if live[|live| - 1].plugin.Some? then [live[|live| - 1].plugin.value] else [])
  }

  // What build_active_generation copies: the plug-ins that are not bypassed.
  function ActiveOf(live: seq<LiveSlot>): seq<Plugin> {
    if live == [] then []
    else ActiveOf(live[..|live| - 1])
         + (if live[|live| - 1].plugin.Some? && live[|live| - 1].active
            then [live[|live| - 1].plugin.value] else [])
  }

  ghost function Elements<T>(s: seq<T>): set<T> {
    set x | x in s
  }

  ghost predicate NoDuplicates<T>(s: seq<T>) {
    forall i, j :: 0 <= i < j < |s| ==> s[i] != s[j]
  }

  ghost function RetiredPlugins(retired: seq<Retired>): set<Plugin> {
    set r | r in retired :: r.plugin
  }

  // ---------------------------------------------------------------- steps

  function Other(index: nat): nat {
    if index == 0 then 1 else 0
  }

  ghost predicate GoodPlan(s: State, p: Plan) {
    && p.added !! s.everOpened
    && NoDuplicates(PluginsOf(p.live)) && NoDuplicates(p.dropped)
    && p.added <= Elements(PluginsOf(p.live))
    && Elements(PluginsOf(p.live)) <= Elements(PluginsOf(s.live)) + p.added
    && Elements(p.dropped) == Elements(PluginsOf(s.live)) - Elements(PluginsOf(p.live))
  }

  ghost predicate Enabled(s: State, e: Event)
    requires Shape(s)
  {
    match e
    case Load(t) => t in s.threads && s.threads[t].Outside?
    case Announce(t) => t in s.threads && s.threads[t].Loaded?
    case Check(t) => t in s.threads && s.threads[t].Announced?
    case Withdraw(t) => t in s.threads && s.threads[t].Withdrawing?
    case Release(t) => t in s.threads && s.threads[t].Holding?
    case StartReap => s.control.Idle?
    case ReapNext => s.control.Reaping?
    case Close => s.control.Closing?
    case StartCommit(p) => s.control.Idle? && GoodPlan(s, p)
    case WaitOver => s.control.Waiting? && s.readers[Other(s.published)] == 0
    case GiveUp => s.control.Waiting?
    case Clear => s.control.Building? && !s.control.cleared
    case CopySlot => s.control.Building? && s.control.cleared
      && |s.buffers[Other(s.published)].plugins| < |ActiveOf(s.live)|
    case Publish => s.control.Building? && s.control.cleared
      && |s.buffers[Other(s.published)].plugins| == |ActiveOf(s.live)|
    case Retire => s.control.Retiring?
  }

  // The dropped plug-ins, each recorded with the buffer it may still be read from.
  function Recorded(dropped: seq<Plugin>, index: nat): seq<Retired> {
    seq(|dropped|, i requires 0 <= i < |dropped| => Retired(dropped[i], index))
  }

  ghost function ReaderStep(s: State, e: Event): State
    requires Shape(s) && Enabled(s, e) && (e.Load? || e.Announce? || e.Check? || e.Withdraw? || e.Release?)
  {
    match e
    case Load(t) => s.(threads := s.threads[t := Loaded(s.published)])
    case Announce(t) =>
      s.(readers := s.readers[s.threads[t].index := s.readers[s.threads[t].index] + 1],
         threads := s.threads[t := Announced(s.threads[t].index)])
    case Check(t) => s.(threads := s.threads[t := AfterCheck(s, s.threads[t].index)])
    case Withdraw(t) =>
      s.(readers := s.readers[s.threads[t].index := s.readers[s.threads[t].index] - 1],
         threads := s.threads[t := Outside])
    case Release(t) =>
      s.(readers := s.readers[s.threads[t].index := s.readers[s.threads[t].index] - 1],
         threads := s.threads[t := Outside])
  }

  ghost function AfterCheck(s: State, index: nat): Reader
    requires Shape(s) && index < 2
  {
    if s.published == index then Holding(index, s.buffers[index]) else Withdrawing(index)
  }

  ghost function AfterReapLook(s: State): Control
    requires Shape(s) && s.control.Reaping?
  {
    if s.control.k >= |s.retired| then Idle
    else if s.readers[s.retired[s.control.k].index] == 0 then Closing(s.control.k)
    else Reaping(s.control.k + 1)
  }

  function Copied(g: Generation, active: seq<Plugin>): Generation
    requires |g.plugins| < |active|
  {
    Generation(g.number, g.plugins + [active[|g.plugins|]])
  }

  function Without<T>(q: seq<T>, k: nat): seq<T>
    requires k < |q|
  {
    q[..k] + q[k + 1..]
  }

  ghost function ControlStep(s: State, e: Event): State
    requires Shape(s) && Enabled(s, e) && !(e.Load? || e.Announce? || e.Check? || e.Withdraw? || e.Release?)
  {
    match e
    case StartReap => s.(control := Reaping(0))
    case ReapNext => s.(control := AfterReapLook(s))
    case Close =>
      s.(closed := s.closed + {s.retired[s.control.k].plugin}, retired := Without(s.retired, s.control.k),
         control := Reaping(s.control.k))
    case StartCommit(p) => s.(control := Waiting(p), everOpened := s.everOpened + p.added)
    case WaitOver =>
      s.(control := Building(s.control.plan, false), live := s.control.plan.live,
         retired := if s.control.plan.retireFirst then s.retired + Recorded(s.control.plan.dropped, s.published)
                    else s.retired)
    case GiveUp => s.(control := Idle, closed := s.closed + s.control.plan.added)
    case Clear =>
      s.(control := Building(s.control.plan, true),
         buffers := s.buffers[Other(s.published) := Generation(s.control.plan.number, [])])
    case CopySlot =>
      s.(buffers := s.buffers[Other(s.published) := Copied(s.buffers[Other(s.published)], ActiveOf(s.live))])
    case Publish =>
      s.(published := Other(s.published), history := s.history + [s.buffers[Other(s.published)]],
         control := if s.control.plan.retireFirst then Idle else Retiring(s.control.plan))
    case Retire =>
      s.(retired := s.retired + Recorded(s.control.plan.dropped, Other(s.published)), control := Idle)
  }

  ghost function Apply(s: State, e: Event): State
    requires Shape(s) && Enabled(s, e)
  {
    if e.Load? || e.Announce? || e.Check? || e.Withdraw? || e.Release? then ReaderStep(s, e) else ControlStep(s, e)
  }

  ghost predicate Shape(s: State) {
    && |s.buffers| == 2 && |s.readers| == 2 && s.published < 2
    && (forall t | t in s.threads && !s.threads[t].Outside? :: s.threads[t].index < 2)
    && (s.control.Closing? ==> s.control.k < |s.retired|)
    && (forall k :: 0 <= k < |s.retired| ==> s.retired[k].index < 2)
  }

  // ---------------------------------------------------------------- the invariant

  ghost predicate Counted(r: Reader, index: nat) {
    (r.Announced? || r.Withdrawing? || r.Holding?) && r.index == index
  }

  ghost function CountedOn(index: nat): Reader -> bool {
    (r: Reader) => Counted(r, index)
  }

  ghost predicate CountsRight(s: State) {
    && Shape(s)
    && s.readers[0] == |On(s.threads, CountedOn(0))| && s.readers[1] == |On(s.threads, CountedOn(1))|
  }

  ghost predicate Held(threads: map<Thread, Reader>, index: nat) {
    exists t :: t in threads && threads[t].Holding? && threads[t].index == index
  }

  ghost function PendingOpen(s: State): set<Plugin> {
    if s.control.Waiting? then s.control.plan.added else {}
  }

  ghost function PendingDrop(s: State): seq<Plugin> {
    if (s.control.Building? || s.control.Retiring?) && !s.control.plan.retireFirst
    then s.control.plan.dropped else []
  }

  // Every plug-in ever opened is in exactly one place.
  ghost predicate OneOwner(s: State) {
    var l, o, d := Elements(PluginsOf(s.live)), PendingOpen(s), Elements(PendingDrop(s));
    var r := RetiredPlugins(s.retired);
    && l !! o && l !! d && l !! r && l !! s.closed
    && o !! d && o !! r && o !! s.closed
    && d !! r && d !! s.closed
    && r !! s.closed
    && l + o + d + r + s.closed == s.everOpened
    && NoDuplicates(PluginsOf(s.live)) && NoDuplicates(PendingDrop(s))
    && (forall i, j :: 0 <= i < j < |s.retired| ==> s.retired[i].plugin != s.retired[j].plugin)
  }

  ghost predicate PlanInProgress(s: State) {
    && (s.control.Waiting? ==> PlanFits(s, s.control.plan))
    && (s.control.Building? || s.control.Retiring? ==> s.live == s.control.plan.live)
    && (s.control.Building? && s.control.plan.retireFirst ==>
         Elements(s.control.plan.dropped) <= RetiredPlugins(s.retired))
    && (s.control.Retiring? ==> !s.control.plan.retireFirst)
  }

  ghost predicate PlanFits(s: State, p: Plan) {
    && NoDuplicates(PluginsOf(p.live)) && NoDuplicates(p.dropped)
    && p.added <= Elements(PluginsOf(p.live))
    && Elements(PluginsOf(p.live)) <= Elements(PluginsOf(s.live)) + p.added
    && Elements(p.dropped) == Elements(PluginsOf(s.live)) - Elements(PluginsOf(p.live))
  }

  ghost predicate BuffersRight(s: State) {
    && Shape(s)
    && s.history != [] && s.history[|s.history| - 1] == s.buffers[s.published]
    && (!s.control.Building? ==> s.buffers[s.published].plugins == ActiveOf(s.live))
    && (s.control.Building? ==>
         Elements(s.buffers[s.published].plugins)
         <= Elements(PluginsOf(s.live)) + Elements(s.control.plan.dropped))
    && (s.control.Building? && s.control.cleared ==>
         && s.buffers[Other(s.published)].plugins <= ActiveOf(s.live)
         && s.buffers[Other(s.published)].number == s.control.plan.number)
    && Elements(s.buffers[0].plugins) + Elements(s.buffers[1].plugins) <= s.everOpened - PendingOpen(s)
  }

  // A retired plug-in is reachable at most through the buffer recorded with it.
  ghost predicate Confined(s: State, r: Retired)
    requires Shape(s) && r.index < 2
  {
    r.plugin in s.buffers[Other(r.index)].plugins ==>
      s.control.Building? && !s.control.cleared && r.plugin in s.control.plan.dropped && r.index == s.published
  }

  ghost predicate RetiredConfined(s: State) {
    Shape(s) && forall k :: 0 <= k < |s.retired| ==> Confined(s, s.retired[k])
  }

  ghost predicate Avoids(g: Generation, closed: set<Plugin>) {
    forall p | p in g.plugins :: p !in closed
  }

  // What a validated reader holds is a published generation nobody has touched.
  ghost predicate HolderSafe(r: Reader, buffers: seq<Generation>, history: seq<Generation>, closed: set<Plugin>)
    requires |buffers| == 2
  {
    r.Holding? ==>
      r.index < 2 && r.generation == buffers[r.index] && r.generation in history && Avoids(r.generation, closed)
  }

  ghost predicate HoldersSafe(
    threads: map<Thread, Reader>, buffers: seq<Generation>, history: seq<Generation>, closed: set<Plugin>)
  {
    |buffers| == 2 && forall t :: t in threads ==> HolderSafe(threads[t], buffers, history, closed)
  }

  ghost predicate ReadersSafe(s: State) {
    && Shape(s)
    && HoldersSafe(s.threads, s.buffers, s.history, s.closed)
    && (s.control.Building? ==> !Held(s.threads, Other(s.published)))
    && (s.control.Closing? && s.retired[s.control.k].index != s.published ==>
          !Held(s.threads, s.retired[s.control.k].index))
  }

  ghost predicate Inv(s: State) {
    && Shape(s)
    && CountsRight(s)
    && OneOwner(s)
    && PlanInProgress(s)
    && BuffersRight(s)
    && RetiredConfined(s)
    && ReadersSafe(s)
  }

  ghost predicate Init(s: State) {
    && s.buffers == [Generation(1, []), Generation(0, [])] && s.readers == [0, 0] && s.published == 0
    && (forall t | t in s.threads :: s.threads[t] == Outside)
    && s.control == Idle && s.live == [] && s.retired == [] && s.closed == {} && s.everOpened == {}
    && s.history == [Generation(1, [])]
  }

  lemma InvInit(s: State)
    requires Init(s)
    ensures Inv(s)
  {
    assert On(s.threads, CountedOn(0)) == {} && On(s.threads, CountedOn(1)) == {};
  }

  // ---------------------------------------------------------------- readers

  // What only the control thread writes is untouched by a reader's step.
  lemma ReaderFrame(s: State, readers: seq<int>, threads: map<Thread, Reader>)
    requires Inv(s) && |readers| == 2
    requires forall t | t in threads && !threads[t].Outside? :: threads[t].index < 2
    ensures var t := s.(readers := readers, threads := threads);
      Shape(t) && OneOwner(t) && PlanInProgress(t) && BuffersRight(t) && RetiredConfined(t)
  {
    hide On, ActiveOf, PluginsOf, NoDuplicates, RetiredPlugins, Elements, ReadersSafe, CountsRight;
  }

  lemma ReaderCounts(s: State, e: Event)
    requires Shape(s) && CountsRight(s) && Enabled(s, e)
    requires e.Load? || e.Announce? || e.Check? || e.Withdraw? || e.Release?
    ensures Shape(ReaderStep(s, e)) && CountsRight(ReaderStep(s, e))
  {
    hide On;
    var r := ReaderStep(s, e).threads[e.t];
    CountMove(s.threads, e.t, r, CountedOn(0));
    CountMove(s.threads, e.t, r, CountedOn(1));
  }

  lemma {:induction false} ActiveArePlugins(live: seq<LiveSlot>)
    ensures forall p | p in ActiveOf(live) :: p in PluginsOf(live)
  {
    if live != [] {
      ActiveArePlugins(live[..|live| - 1]);
    }
  }

  // The buffer a validated reader gets holds no closed plug-in.
  lemma ShownIsOpen(s: State)
    requires Inv(s)
    ensures Avoids(s.buffers[s.published], s.closed)
  {
    hide CountsRight, RetiredConfined, ReadersSafe;
    ActiveArePlugins(s.live);
    forall p | p in s.buffers[s.published].plugins
      ensures p !in s.closed
    {
      assert p in Elements(s.buffers[s.published].plugins);
      if !s.control.Building? {
        assert p in Elements(PluginsOf(s.live));
      }
    }
  }

  lemma ReaderSafe(s: State, e: Event)
    requires Inv(s) && Enabled(s, e) && (e.Load? || e.Announce? || e.Check? || e.Withdraw? || e.Release?)
    ensures ReadersSafe(ReaderStep(s, e))
  {
    hide CountsRight, RetiredConfined, OneOwner, PlanInProgress, Avoids;
    ShownIsOpen(s);
    var t := ReaderStep(s, e);
    forall i | Held(t.threads, i)
      ensures Held(s.threads, i) || i == s.published
    {
      var x :| x in t.threads && t.threads[x].Holding? && t.threads[x].index == i;
      assert x == e.t || x in s.threads;
    }
  }

  lemma InvReader(s: State, e: Event)
    requires Inv(s) && Enabled(s, e) && (e.Load? || e.Announce? || e.Check? || e.Withdraw? || e.Release?)
    ensures Inv(Apply(s, e))
  {
    hide CountsRight, RetiredConfined, OneOwner, PlanInProgress, BuffersRight, ReadersSafe;
    var t := ReaderStep(s, e);
    ReaderCounts(s, e);
    ReaderFrame(s, t.readers, t.threads);
    ReaderSafe(s, e);
    assert t == s.(readers := t.readers, threads := t.threads);
  }

  // ---------------------------------------------------------------- reaping

  ghost predicate Quiet(c: Control) {
    c.Idle? || c.Reaping? || c.Closing?
  }

  // Between commits only the place in the reap loop changes.
  lemma QuietFrame(s: State, c: Control)
    requires Inv(s) && Quiet(s.control) && Quiet(c)
    requires c.Closing? ==> c.k < |s.retired|
    ensures var t := s.(control := c);
      Shape(t) && CountsRight(t) && OneOwner(t) && PlanInProgress(t) && BuffersRight(t) && RetiredConfined(t)
  {
    hide ActiveOf, PluginsOf, NoDuplicates, RetiredPlugins, Elements, ReadersSafe, OneOwner, CountsRight;
    var t := s.(control := c);
    CountsFrame(s, t);
    OwnerFrame(s, t);
    forall k | 0 <= k < |t.retired|
      ensures Confined(t, t.retired[k])
    {
      assert Confined(s, s.retired[k]);
    }
  }

  lemma InvReap(s: State, e: Event)
    requires Inv(s) && Enabled(s, e) && (e.StartReap? || e.ReapNext?)
    ensures Inv(ControlStep(s, e))
  {
    hide OneOwner, BuffersRight, RetiredConfined, PlanInProgress, CountsRight, Avoids;
    var t := ControlStep(s, e);
    QuietFrame(s, t.control);
    assert t == s.(control := t.control);
    if e.ReapNext? && s.control.k < |s.retired| {
      NobodyThere(s, s.retired[s.control.k].index);
    }
    forall i | Held(t.threads, i)
      ensures Held(s.threads, i)
    {
    }
  }

  // A zero reader count means no validated reader of that buffer.
  lemma NobodyThere(s: State, index: nat)
    requires Shape(s) && CountsRight(s) && index < 2
    ensures s.readers[index] == 0 ==> !Held(s.threads, index)
  {
    hide On;
    if s.readers[index] == 0 && Held(s.threads, index) {
      var t :| t in s.threads && s.threads[t].Holding? && s.threads[t].index == index;
      NoneCounted(s.threads, t, CountedOn(index));
    }
  }

  // Closing a retired plug-in never touches one a validated reader may call.
  lemma CloseIsSafe(s: State, t: Thread)
    requires Inv(s) && s.control.Closing? && t in s.threads && s.threads[t].Holding?
    ensures s.retired[s.control.k].plugin !in s.threads[t].generation.plugins
  {
    hide CountsRight, Avoids;
    var r, h := s.retired[s.control.k], s.threads[t];
    assert h.generation == s.buffers[h.index];
    assert Held(s.threads, h.index);
    if h.index == r.index {
      assert h.index == s.published;
      ActiveArePlugins(s.live);
      assert r.plugin in RetiredPlugins(s.retired);
      assert r.plugin !in Elements(PluginsOf(s.live));
    }
  }

  lemma WithoutRetired(q: seq<Retired>, k: nat)
    requires k < |q| && forall i, j :: 0 <= i < j < |q| ==> q[i].plugin != q[j].plugin
    ensures RetiredPlugins(Without(q, k)) == RetiredPlugins(q) - {q[k].plugin}
    ensures var w := Without(q, k); forall i, j :: 0 <= i < j < |w| ==> w[i].plugin != w[j].plugin
    ensures q[k].plugin in RetiredPlugins(q)
    ensures forall r | r in Without(q, k) :: r in q
  {
    var w := Without(q, k);
    forall r | r in w
      ensures r in q && r.plugin != q[k].plugin
    {
      var i :| 0 <= i < |w| && w[i] == r;
      assert r == q[if i < k then i else i + 1];
    }
    forall p | p in RetiredPlugins(q) && p != q[k].plugin
      ensures p in RetiredPlugins(w)
    {
      var i :| 0 <= i < |q| && q[i].plugin == p;
      assert w[if i < k then i else i - 1] == q[i];
    }
  }

  lemma CloseOwner(s: State)
    requires Shape(s) && OneOwner(s) && Enabled(s, Close)
    ensures OneOwner(ControlStep(s, Close))
  {
    hide PluginsOf, RetiredPlugins, Elements, NoDuplicates;
    WithoutRetired(s.retired, s.control.k);
  }

  lemma InvClose(s: State)
    requires Inv(s) && Enabled(s, Close)
    ensures Inv(ControlStep(s, Close))
  {
    hide CountsRight, OneOwner, PluginsOf, ActiveOf, RetiredPlugins, Elements, On;
    CloseOwner(s);
    var k := s.control.k;
    WithoutRetiredEntries(s.retired, k);
    forall t | t in s.threads && s.threads[t].Holding?
      ensures s.retired[k].plugin !in s.threads[t].generation.plugins
    {
      CloseIsSafe(s, t);
    }
    var t := ControlStep(s, Close);
    assert CountsRight(t) by { CountsFrame(s, t); }
  }

  lemma WithoutRetiredEntries(q: seq<Retired>, k: nat)
    requires k < |q|
    ensures var w := q[..k] + q[k + 1..]; forall i :: 0 <= i < |w| ==> w[i] in q
  {
  }

  lemma CountsFrame(s: State, t: State)
    requires Shape(s) && Shape(t) && CountsRight(s) && s.readers == t.readers && s.threads == t.threads
    ensures CountsRight(t)
  {
  }

  // ---------------------------------------------------------------- committing

  lemma NothingDropped()
    ensures Elements<Plugin>([]) == {} && NoDuplicates<Plugin>([])
  {
  }

  lemma StartCommitOwner(s: State, p: Plan)
    requires Shape(s) && OneOwner(s) && s.control.Idle? && GoodPlan(s, p)
    ensures OneOwner(s.(control := Waiting(p), everOpened := s.everOpened + p.added))
  {
    hide PluginsOf, RetiredPlugins, NoDuplicates, Elements;
    NothingDropped();
  }

  lemma InvStartCommit(s: State, p: Plan)
    requires Inv(s) && Enabled(s, StartCommit(p))
    ensures Inv(ControlStep(s, StartCommit(p)))
  {
    hide CountsRight, ActiveOf, PluginsOf, RetiredPlugins, NoDuplicates, Elements, HoldersSafe, OneOwner, Held;
    CountsFrame(s, ControlStep(s, StartCommit(p)));
    StartCommitOwner(s, p);
  }

  lemma GiveUpOwner(s: State)
    requires Shape(s) && OneOwner(s) && s.control.Waiting?
    ensures OneOwner(s.(control := Idle, closed := s.closed + s.control.plan.added))
  {
    hide PluginsOf, RetiredPlugins, NoDuplicates, Elements;
    NothingDropped();
  }

  // No buffer holds a plug-in that is still pending.
  lemma GiveUpSafe(s: State)
    requires Inv(s) && s.control.Waiting?
    ensures HoldersSafe(s.threads, s.buffers, s.history, s.closed + s.control.plan.added)
  {
    hide CountsRight, RetiredConfined, OneOwner, PlanInProgress;
    forall x | x in s.threads
      ensures HolderSafe(s.threads[x], s.buffers, s.history, s.closed + s.control.plan.added)
    {
      assert HolderSafe(s.threads[x], s.buffers, s.history, s.closed);
      if s.threads[x].Holding? {
        forall p | p in s.threads[x].generation.plugins
          ensures p !in s.control.plan.added
        {
          assert p in Elements(s.buffers[s.threads[x].index].plugins);
        }
      }
    }
  }

  lemma InvGiveUp(s: State)
    requires Inv(s) && Enabled(s, GiveUp)
    ensures Inv(ControlStep(s, GiveUp))
  {
    hide CountsRight, ActiveOf, PluginsOf, RetiredPlugins, NoDuplicates, Elements, HoldersSafe, OneOwner, Held;
    CountsFrame(s, ControlStep(s, GiveUp));
    GiveUpOwner(s);
    GiveUpSafe(s);
  }

  lemma RecordedPlugins(dropped: seq<Plugin>, index: nat)
    ensures |Recorded(dropped, index)| == |dropped|
    ensures RetiredPlugins(Recorded(dropped, index)) == Elements(dropped)
  {
    var r := Recorded(dropped, index);
    forall p | p in dropped
      ensures p in RetiredPlugins(r)
    {
      var i :| 0 <= i < |dropped| && dropped[i] == p;
      assert r[i].plugin == p;
    }
  }

  // Handing over plug-ins nobody else owns keeps every plug-in in one place.
  lemma HandOver(retired: seq<Retired>, dropped: seq<Plugin>, index: nat)
    requires RetiredPlugins(retired) !! Elements(dropped) && NoDuplicates(dropped)
    requires forall i, j :: 0 <= i < j < |retired| ==> retired[i].plugin != retired[j].plugin
    ensures var r := retired + Recorded(dropped, index);
      && RetiredPlugins(r) == RetiredPlugins(retired) + Elements(dropped)
      && forall i, j :: 0 <= i < j < |r| ==> r[i].plugin != r[j].plugin
  {
    RecordedPlugins(dropped, index);
    var added := Recorded(dropped, index);
    var r := retired + added;
    assert RetiredPlugins(r) == RetiredPlugins(retired) + RetiredPlugins(added) by {
      forall p | p in RetiredPlugins(retired) + RetiredPlugins(added)
        ensures p in RetiredPlugins(r)
      {
        var x: Retired :| (x in retired || x in added) && x.plugin == p;
        assert x in r;
      }
    }
    forall i, j | 0 <= i < j < |r|
      ensures r[i].plugin != r[j].plugin
    {
      if i < |retired| <= j {
        assert r[i].plugin in RetiredPlugins(retired);
        assert dropped[j - |retired|] in Elements(dropped);
      }
    }
  }

  lemma WaitOverOwner(s: State)
    requires Inv(s) && Enabled(s, WaitOver)
    ensures OneOwner(ControlStep(s, WaitOver)) && PlanInProgress(ControlStep(s, WaitOver))
  {
    hide CountsRight, BuffersRight, RetiredConfined, ReadersSafe, PluginsOf, ActiveOf;
    var p := s.control.plan;
    if p.retireFirst {
      HandOver(s.retired, p.dropped, s.published);
    }
    hide RetiredPlugins, Elements, NoDuplicates;
  }

  lemma InvWaitOver(s: State)
    requires Inv(s) && Enabled(s, WaitOver)
    ensures Inv(ControlStep(s, WaitOver))
  {
    hide CountsRight, OneOwner, PluginsOf, ActiveOf, RetiredPlugins, NoDuplicates, Avoids;
    var t := ControlStep(s, WaitOver);
    WaitOverOwner(s);
    CountsFrame(s, t);
    NobodyThere(s, Other(s.published));
    ActiveArePlugins(s.live);
  }

  lemma OwnerFrame(s: State, t: State)
    requires OneOwner(s)
    requires s.live == t.live && s.retired == t.retired && s.closed == t.closed && s.everOpened == t.everOpened
    requires PendingOpen(s) == PendingOpen(t) && PendingDrop(s) == PendingDrop(t)
    ensures OneOwner(t)
  {
  }

  // Writing the hidden buffer touches nothing a validated reader holds.
  lemma HiddenIsUnread(s: State, g: Generation)
    requires ReadersSafe(s) && s.control.Building?
    ensures HoldersSafe(s.threads, s.buffers[Other(s.published) := g], s.history, s.closed)
  {
    hide Avoids;
    forall x | x in s.threads
      ensures HolderSafe(s.threads[x], s.buffers[Other(s.published) := g], s.history, s.closed)
    {
      assert HolderSafe(s.threads[x], s.buffers, s.history, s.closed);
      assert s.threads[x].Holding? ==> Held(s.threads, s.threads[x].index);
    }
  }

  lemma ClearBuffers(s: State)
    requires BuffersRight(s) && Enabled(s, Clear)
    ensures BuffersRight(ControlStep(s, Clear))
  {
    hide ActiveOf, PluginsOf, Elements;
    NothingDropped();
  }

  lemma ClearConfined(s: State)
    requires RetiredConfined(s) && Enabled(s, Clear)
    ensures RetiredConfined(ControlStep(s, Clear))
  {
    var t := ControlStep(s, Clear);
    forall k | 0 <= k < |t.retired|
      ensures Confined(t, t.retired[k])
    {
      assert Confined(s, s.retired[k]);
    }
  }

  lemma InvClear(s: State)
    requires Inv(s) && Enabled(s, Clear)
    ensures Inv(ControlStep(s, Clear))
  {
    hide CountsRight, OneOwner, BuffersRight, RetiredConfined, HoldersSafe, Held, NoDuplicates, Elements;
    CountsFrame(s, ControlStep(s, Clear));
    OwnerFrame(s, ControlStep(s, Clear));
    ClearBuffers(s);
    ClearConfined(s);
    HiddenIsUnread(s, Generation(s.control.plan.number, []));
  }

  lemma LiveNotRetired(s: State, p: Plugin)
    requires OneOwner(s) && p in ActiveOf(s.live)
    ensures p in s.everOpened && p !in PendingOpen(s) && p !in PendingDrop(s)
    ensures forall r | r in s.retired :: r.plugin != p
  {
    ActiveArePlugins(s.live);
    assert p in Elements(PluginsOf(s.live));
    forall r | r in s.retired
      ensures r.plugin != p
    {
      assert r.plugin in RetiredPlugins(s.retired);
    }
    assert p !in Elements(PendingDrop(s));
  }

  lemma ElementsAppend(q: seq<Plugin>, p: Plugin)
    ensures Elements(q + [p]) == Elements(q) + {p}
  {
  }

  // The plug-in copied next is alive, so the buffer it goes to may show it.
  lemma CopyBuffers(s: State)
    requires BuffersRight(s) && OneOwner(s) && Enabled(s, CopySlot)
    ensures BuffersRight(ControlStep(s, CopySlot))
  {
    hide ActiveOf, PluginsOf, Elements, OneOwner;
    var hidden := s.buffers[Other(s.published)].plugins;
    LiveNotRetired(s, ActiveOf(s.live)[|hidden|]);
    ElementsAppend(hidden, ActiveOf(s.live)[|hidden|]);
  }

  lemma CopyConfined(s: State)
    requires RetiredConfined(s) && OneOwner(s) && Enabled(s, CopySlot)
    ensures RetiredConfined(ControlStep(s, CopySlot))
  {
    hide ActiveOf, PluginsOf, OneOwner;
    var t, hidden := ControlStep(s, CopySlot), s.buffers[Other(s.published)].plugins;
    LiveNotRetired(s, ActiveOf(s.live)[|hidden|]);
    forall k | 0 <= k < |t.retired|
      ensures Confined(t, t.retired[k])
    {
      assert Confined(s, s.retired[k]) && s.retired[k] in s.retired;
    }
  }

  lemma InvCopySlot(s: State)
    requires Inv(s) && Enabled(s, CopySlot)
    ensures Inv(ControlStep(s, CopySlot))
  {
    hide CountsRight, OneOwner, BuffersRight, RetiredConfined, HoldersSafe, Held, NoDuplicates, Elements, ActiveOf, Copied;
    CountsFrame(s, ControlStep(s, CopySlot));
    OwnerFrame(s, ControlStep(s, CopySlot));
    CopyBuffers(s);
    CopyConfined(s);
    HiddenIsUnread(s, Copied(s.buffers[Other(s.published)], ActiveOf(s.live)));
  }

  lemma PublishBuffers(s: State)
    requires BuffersRight(s) && Enabled(s, Publish)
    ensures BuffersRight(ControlStep(s, Publish))
  {
    hide ActiveOf, PluginsOf, Elements;
  }

  lemma PublishConfined(s: State)
    requires RetiredConfined(s) && Enabled(s, Publish)
    ensures RetiredConfined(ControlStep(s, Publish))
  {
    var t := ControlStep(s, Publish);
    forall k | 0 <= k < |t.retired|
      ensures Confined(t, t.retired[k])
    {
      assert Confined(s, s.retired[k]);
    }
  }

  lemma PublishReaders(s: State)
    requires ReadersSafe(s) && Enabled(s, Publish)
    ensures HoldersSafe(s.threads, s.buffers, s.history + [s.buffers[Other(s.published)]], s.closed)
  {
    hide Avoids;
    forall x | x in s.threads
      ensures HolderSafe(s.threads[x], s.buffers, s.history + [s.buffers[Other(s.published)]], s.closed)
    {
      assert HolderSafe(s.threads[x], s.buffers, s.history, s.closed);
    }
  }

  lemma InvPublish(s: State)
    requires Inv(s) && Enabled(s, Publish)
    ensures Inv(ControlStep(s, Publish))
  {
    hide CountsRight, OneOwner, BuffersRight, RetiredConfined, HoldersSafe, Held, NoDuplicates, Elements;
    CountsFrame(s, ControlStep(s, Publish));
    OwnerFrame(s, ControlStep(s, Publish));
    PublishBuffers(s);
    PublishConfined(s);
    PublishReaders(s);
  }

  lemma RetireOwner(s: State, index: nat)
    requires OneOwner(s) && s.control.Retiring? && !s.control.plan.retireFirst
    ensures OneOwner(s.(retired := s.retired + Recorded(s.control.plan.dropped, index), control := Idle))
  {
    HandOver(s.retired, s.control.plan.dropped, index);
    hide PluginsOf, RetiredPlugins, NoDuplicates, Elements, Recorded;
    NothingDropped();
  }

  // The plug-ins handed over are in no slot that is shown, and their buffer is the hidden one.
  lemma RetireConfined(s: State)
    requires BuffersRight(s) && RetiredConfined(s) && OneOwner(s) && Enabled(s, Retire)
    requires !s.control.plan.retireFirst
    ensures RetiredConfined(ControlStep(s, Retire))
  {
    hide CountsRight, PluginsOf, ActiveOf, HoldersSafe, Elements, RetiredPlugins;
    var t, dropped, index := ControlStep(s, Retire), s.control.plan.dropped, Other(s.published);
    forall p | p in ActiveOf(s.live)
      ensures p !in dropped
    {
      LiveNotRetired(s, p);
    }
    forall k | 0 <= k < |t.retired|
      ensures Confined(t, t.retired[k])
    {
      if k < |s.retired| {
        assert Confined(s, s.retired[k]);
      } else {
        assert t.retired[k] == Retired(dropped[k - |s.retired|], index);
      }
    }
  }

  lemma InvRetire(s: State)
    requires Inv(s) && Enabled(s, Retire)
    ensures Inv(ControlStep(s, Retire))
  {
    hide CountsRight, PluginsOf, ActiveOf, HoldersSafe, Held, OneOwner, RetiredConfined, Elements, NoDuplicates;
    assert Shape(ControlStep(s, Retire));
    CountsFrame(s, ControlStep(s, Retire));
    RetireOwner(s, Other(s.published));
    RetireConfined(s);
  }

  // ---------------------------------------------------------------- every run

  lemma InvStep(s: State, e: Event)
    requires Inv(s) && Enabled(s, e)
    ensures Inv(Apply(s, e))
  {
    hide Inv, ReaderStep, ControlStep, Enabled;
    match e
    case StartReap => InvReap(s, e);
    case ReapNext => InvReap(s, e);
    case Close => InvClose(s);
    case StartCommit(p) => InvStartCommit(s, p);
    case WaitOver => InvWaitOver(s);
    case GiveUp => InvGiveUp(s);
    case Clear => InvClear(s);
    case CopySlot => InvCopySlot(s);
    case Publish => InvPublish(s);
    case Retire => InvRetire(s);
    case _ => InvReader(s, e);
  }

  ghost predicate Runs(s: State, es: seq<Event>)
    decreases |es|
  {
    es == [] || (Shape(s) && Enabled(s, es[0]) && Runs(Apply(s, es[0]), es[1..]))
  }

  ghost function End(s: State, es: seq<Event>): State
    requires Runs(s, es)
    decreases |es|
  {
    if es == [] then s else End(Apply(s, es[0]), es[1..])
  }

  lemma {:induction false} InvRun(s: State, es: seq<Event>)
    requires Inv(s) && Runs(s, es)
    ensures Inv(End(s, es))
    decreases |es|
  {
    hide Inv, Apply, Enabled;
    if es != [] {
      InvStep(s, es[0]);
      InvRun(Apply(s, es[0]), es[1..]);
    }
  }

  // In every interleaving of readers, commits and preset loads: a validated
  // reader holds one complete published generation that nothing has changed
  // since, and no plug-in in it has been closed.
  lemma HeldGenerationIsWholeAndOpen(s: State, es: seq<Event>, t: Thread)
    requires Init(s) && Runs(s, es)
    requires t in End(s, es).threads && End(s, es).threads[t].Holding?
    ensures var e := End(s, es);
      var h := e.threads[t];
      && Shape(e)
      && h.generation == e.buffers[h.index]
      && h.generation in e.history
      && forall p | p in h.generation.plugins :: p !in e.closed
  {
    InvInit(s);
    InvRun(s, es);
  }

  // A retired plug-in can be reached at most through the buffer recorded with
  // it, and, once the commit that dropped it is through, only while that buffer
  // is not the published one.
  lemma RetiredOnlyInRecordedBuffer(s: State, es: seq<Event>, k: nat)
    requires Init(s) && Runs(s, es)
    requires Quiet(End(s, es).control) && k < |End(s, es).retired|
    ensures var e := End(s, es);
      var r := e.retired[k];
      && Shape(e)
      && r.plugin !in e.buffers[Other(r.index)].plugins
      && (r.plugin in e.buffers[r.index].plugins ==> r.index != e.published)
  {
    InvInit(s);
    InvRun(s, es);
    var e := End(s, es);
    if e.retired[k].index == e.published && e.retired[k].plugin in ActiveOf(e.live) {
      LiveNotRetired(e, e.retired[k].plugin);
    }
  }

  // Nothing is leaked and nothing is owned twice: in every reachable state each
  // plug-in ever opened is live, pending in one commit, retired, or closed.
  lemma EveryPluginHasOneOwner(s: State, es: seq<Event>)
    requires Init(s) && Runs(s, es)
    ensures OneOwner(End(s, es))
  {
    InvInit(s);
    InvRun(s, es);
  }

  // Between commits the published buffer is exactly the active live slots, in order.
  lemma PublishedIsActiveLive(s: State, es: seq<Event>)
    requires Init(s) && Runs(s, es) && Quiet(End(s, es).control)
    ensures var e := End(s, es); Shape(e) && e.buffers[e.published].plugins == ActiveOf(e.live)
  {
    InvInit(s);
    InvRun(s, es);
  }
}
