/**
The announce-then-check gate: a caller raises a counter and looks at a flag
again; the owner raises the flag and waits, bounded, for the counter to reach
zero before its protected action.

Two uses: DspVendorCallGuard against capture_state, which looks before it
announces and reopens after every capture, and RackAudioReadGuard against
rack_destroy, which only announces and never reopens.
 */
module Gate {
  import opened Counting

  type Thread = nat

  datatype Kind = Kind(looksFirst: bool, reopens: bool)

  const VENDOR_CALLS := Kind(true, true)
  const AUDIO_READS := Kind(false, false)

  datatype Caller = Outside | Entering | Announced | BackingOff | Inside

  datatype Owner = Open | Draining | Acting | GaveUp | Done

  datatype State = State(requested: bool, calls: int, threads: map<Thread, Caller>, owner: Owner)

  datatype Event =
    | Approach(t: Thread) | Announce(t: Thread) | Look(t: Thread) | BackOff(t: Thread) | Leave(t: Thread)
    | Request | SeeZero | TimeOut | Finish

  ghost predicate Enabled(s: State, e: Event) {
    match e
    case Approach(t) => t in s.threads && s.threads[t].Outside?
    case Announce(t) => t in s.threads && s.threads[t].Entering?
    case Look(t) => t in s.threads && s.threads[t].Announced?
    case BackOff(t) => t in s.threads && s.threads[t].BackingOff?
    case Leave(t) => t in s.threads && s.threads[t].Inside?
    case Request => s.owner.Open?
    case SeeZero => s.owner.Draining? && s.calls == 0
    case TimeOut => s.owner.Draining?
    case Finish => s.owner.Acting?
  }

  ghost function Apply(k: Kind, s: State, e: Event): State
    requires Enabled(s, e)
  {
    match e
    case Approach(t) =>
      s.(threads := s.threads[t := if k.looksFirst && s.requested then Outside else Entering])
    case Announce(t) => s.(calls := s.calls + 1, threads := s.threads[t := Announced])
    case Look(t) => s.(threads := s.threads[t := if s.requested then BackingOff else Inside])
    case BackOff(t) => s.(calls := s.calls - 1, threads := s.threads[t := Outside])
    case Leave(t) => s.(calls := s.calls - 1, threads := s.threads[t := Outside])
    case Request => s.(requested := true, owner := Draining)
    case SeeZero => s.(owner := Acting)
    case TimeOut => if k.reopens then s.(requested := false, owner := Open) else s.(owner := GaveUp)
    case Finish => if k.reopens then s.(requested := false, owner := Open) else s.(owner := Done)
  }

  ghost predicate Runs(k: Kind, s: State, es: seq<Event>)
    decreases |es|
  {
    es == [] || (Enabled(s, es[0]) && Runs(k, Apply(k, s, es[0]), es[1..]))
  }

  ghost function End(k: Kind, s: State, es: seq<Event>): State
    requires Runs(k, s, es)
    decreases |es|
  {
    if es == [] then s else End(k, Apply(k, s, es[0]), es[1..])
  }

  ghost predicate Init(s: State) {
    && !s.requested && s.calls == 0 && s.owner == Open
    && forall t | t in s.threads :: s.threads[t].Outside?
  }

  ghost function Counts(): Caller -> bool {
    (c: Caller) => c.Announced? || c.BackingOff? || c.Inside?
  }

  ghost predicate NobodyInside(s: State) {
    forall t | t in s.threads :: !s.threads[t].Inside?
  }

  ghost predicate Inv(s: State) {
    && s.calls == |On(s.threads, Counts())|
    && (s.requested <==> !s.owner.Open?)
    && (s.owner.Acting? || s.owner.Done? ==> NobodyInside(s))
  }

  lemma InvStep(k: Kind, s: State, e: Event)
    requires Inv(s) && Enabled(s, e)
    ensures Inv(Apply(k, s, e))
  {
    hide On;
    var t := Apply(k, s, e);
    if e.Approach? || e.Announce? || e.Look? || e.BackOff? || e.Leave? {
      CountMove(s.threads, e.t, t.threads[e.t], Counts());
    } else if e.SeeZero? {
      forall x | x in s.threads
        ensures !s.threads[x].Inside?
      {
        NoneCounted(s.threads, x, Counts());
      }
    }
  }

  lemma {:induction false} InvRun(k: Kind, s: State, es: seq<Event>)
    requires Inv(s) && Runs(k, s, es)
    ensures Inv(End(k, s, es))
    decreases |es|
  {
    if es != [] {
      InvStep(k, s, es[0]);
      InvRun(k, Apply(k, s, es[0]), es[1..]);
    }
  }

  // While the owner acts, no caller is inside, for any number of callers and
  // any interleaving, timeouts and late announcements included.
  lemma ActionExcludesCallers(k: Kind, s: State, es: seq<Event>)
    requires Init(s) && Runs(k, s, es) && End(k, s, es).owner.Acting?
    ensures NobodyInside(End(k, s, es))
  {
    assert On(s.threads, Counts()) == {};
    InvRun(k, s, es);
  }

  // A gate that never reopens admits nobody once its owner has acted.
  lemma ClosedForGood(s: State, es: seq<Event>)
    requires Init(s) && Runs(AUDIO_READS, s, es) && End(AUDIO_READS, s, es).owner.Done?
    ensures NobodyInside(End(AUDIO_READS, s, es))
  {
    assert On(s.threads, Counts()) == {};
    InvRun(AUDIO_READS, s, es);
  }

  ghost function Owners(k: Kind, s: State, es: seq<Event>): (r: seq<Owner>)
    requires Runs(k, s, es)
    ensures |r| == |es| + 1 && r[0] == s.owner
    decreases |es|
  {
    if es == [] then [s.owner] else [s.owner] + Owners(k, Apply(k, s, es[0]), es[1..])
  }

  // An owner that times out gives the action up: it acts only after it has
  // itself seen the counter at zero, with the flag still raised.
  lemma {:induction false} ActsOnlyAfterZero(k: Kind, s: State, es: seq<Event>, i: nat)
    requires Runs(k, s, es) && i < |es| && Owners(k, s, es)[i + 1].Acting? && !Owners(k, s, es)[i].Acting?
    ensures es[i].SeeZero? && Runs(k, s, es[..i]) && End(k, s, es[..i]).calls == 0
    decreases |es|
  {
    if i == 0 {
      assert es[..0] == [];
    } else {
      ActsOnlyAfterZero(k, Apply(k, s, es[0]), es[1..], i - 1);
      assert es[..i][1..] == es[1..][..i - 1];
    }
  }

  // A gate that reopens is never closed for longer than one use of it.
  lemma {:induction false} ReopensAfterEveryUse(s: State, es: seq<Event>)
    requires Runs(VENDOR_CALLS, s, es) && s.owner in {Open, Draining, Acting} && (s.requested <==> !s.owner.Open?)
    ensures var n := End(VENDOR_CALLS, s, es); n.owner in {Open, Draining, Acting} && (n.requested <==> !n.owner.Open?)
    decreases |es|
  {
    if es != [] { ReopensAfterEveryUse(Apply(VENDOR_CALLS, s, es[0]), es[1..]); }
  }

  // One that does not reopen stays closed.
  lemma {:induction false} StaysClosed(s: State, es: seq<Event>)
    requires Runs(AUDIO_READS, s, es) && s.requested && !s.owner.Open?
    ensures End(AUDIO_READS, s, es).requested && !End(AUDIO_READS, s, es).owner.Open?
    decreases |es|
  {
    if es != [] { StaysClosed(Apply(AUDIO_READS, s, es[0]), es[1..]); }
  }

  ghost predicate OfOwner(e: Event) {
    e.Request? || e.SeeZero? || e.TimeOut? || e.Finish?
  }

  ghost function Approaching(): Caller -> bool {
    (c: Caller) => !c.Outside?
  }

  // While the flag is up, vendor callers that come late do not even reach for
  // the counter: only those already on their way in can still raise it.
  lemma {:induction false} LateCallersStayOutside(s: State, es: seq<Event>)
    requires Runs(VENDOR_CALLS, s, es) && s.requested && forall i :: 0 <= i < |es| ==> !OfOwner(es[i])
    ensures On(End(VENDOR_CALLS, s, es).threads, Approaching()) <= On(s.threads, Approaching())
    decreases |es|
  {
    if es != [] {
      LateCallersStayOutside(Apply(VENDOR_CALLS, s, es[0]), es[1..]);
    }
  }

  // ---------------------------------------------------------------- and the gate lets through

  // A caller that finds the flag down, and finds it down again, is inside.
  lemma UndisturbedCallerEnters(k: Kind, s: State, t: Thread)
    requires !s.requested && t in s.threads && s.threads[t].Outside?
    ensures Runs(k, s, [Approach(t), Announce(t), Look(t)])
    ensures var n := End(k, s, [Approach(t), Announce(t), Look(t)]);
            n.threads == s.threads[t := Inside] && n.calls == s.calls + 1 && n.owner == s.owner && !n.requested
  {
    var s1 := Apply(k, s, Approach(t));
    var s2 := Apply(k, s1, Announce(t));
    RunsOne(k, s2, Look(t), []);
    RunsOne(k, s1, Announce(t), [Look(t)]);
    RunsOne(k, s, Approach(t), [Announce(t), Look(t)]);
    assert Apply(k, s2, Look(t)).threads == s.threads[t := Inside];
  }

  lemma RunsOne(k: Kind, s: State, e: Event, es: seq<Event>)
    requires Enabled(s, e) && Runs(k, Apply(k, s, e), es)
    ensures Runs(k, s, [e] + es) && End(k, s, [e] + es) == End(k, Apply(k, s, e), es)
  {
    hide Enabled, Apply;
    assert ([e] + es)[1..] == es;
  }

  // The step by which a counted caller comes nearer to the way out.
  ghost function WayOut(c: Caller, t: Thread): Event
    requires Counts()(c)
  {
    match c
    case Announced => Look(t)
    case BackingOff => BackOff(t)
    case Inside => Leave(t)
  }

  ghost function Steps(c: Caller): nat {
    if c.Announced? then 2 else if c.BackingOff? || c.Inside? then 1 else 0
  }

  // One caller leaves, whatever it was doing, while the owner waits.
  lemma OneLeaves(k: Kind, s: State, t: Thread) returns (es: seq<Event>)
    requires Inv(s) && s.owner.Draining? && t in s.threads && Counts()(s.threads[t])
    ensures Runs(k, s, es)
    ensures var n := End(k, s, es); Inv(n) && n.owner.Draining? && n.threads == s.threads[t := Outside]
    decreases Steps(s.threads[t])
  {
    hide Inv;
    var e := WayOut(s.threads[t], t);
    var n := Apply(k, s, e);
    InvStep(k, s, e);
    assert s.requested by { DrainingMeansRequested(s); }
    if s.threads[t].Announced? {
      var rest := OneLeaves(k, n, t);
      RunsOne(k, s, e, rest);
      es := [e] + rest;
      assert s.threads[t := BackingOff][t := Outside] == s.threads[t := Outside];
    } else {
      RunsOne(k, s, e, []);
      es := [e] + [];
    }
  }

  lemma DrainingMeansRequested(s: State)
    requires Inv(s) && s.owner.Draining?
    ensures s.requested
  {
  }

  // Callers that go their way let the owner have its turn: from every state in
  // which it waits, some steps of theirs bring the counter to zero.
  lemma {:induction false} WaitingOwnerGetsItsTurn(k: Kind, s: State) returns (es: seq<Event>)
    requires Inv(s) && s.owner.Draining?
    ensures Runs(k, s, es) && End(k, s, es).owner.Acting?
    decreases |On(s.threads, Counts())|
  {
    if t :| t in On(s.threads, Counts()) {
      var first := OneLeaves(k, s, t);
      var n := End(k, s, first);
      assert On(n.threads, Counts()) == On(s.threads, Counts()) - {t};
      var rest := WaitingOwnerGetsItsTurn(k, n);
      RunsMany(k, s, first, rest);
      es := first + rest;
    } else {
      assert s.calls == 0;
      RunsOne(k, s, SeeZero, []);
      es := [SeeZero] + [];
    }
  }

  lemma {:induction false} RunsMany(k: Kind, s: State, es: seq<Event>, fs: seq<Event>)
    requires Runs(k, s, es) && Runs(k, End(k, s, es), fs)
    ensures Runs(k, s, es + fs) && End(k, s, es + fs) == End(k, End(k, s, es), fs)
    decreases |es|
  {
    hide Enabled, Apply;
    if es == [] {
      assert es + fs == fs;
    } else {
      assert (es + fs)[1..] == es[1..] + fs;
      RunsMany(k, Apply(k, s, es[0]), es[1..], fs);
    }
  }

  // So it does in every run, with any number of callers.
  lemma EveryWaitCanEnd(k: Kind, s: State, es: seq<Event>) returns (fs: seq<Event>)
    requires Init(s) && Runs(k, s, es) && End(k, s, es).owner.Draining?
    ensures Runs(k, End(k, s, es), fs) && End(k, End(k, s, es), fs).owner.Acting?
  {
    assert On(s.threads, Counts()) == {};
    InvRun(k, s, es);
    fs := WaitingOwnerGetsItsTurn(k, End(k, s, es));
  }
}
