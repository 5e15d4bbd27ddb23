/**
The hazard slots of src/obs-plugin/plugin.cpp, which let audio threads use a
filter's bridge without locks while it is replaced, retired and destroyed.

One step per atomic operation.  A pointer is an address, and an address is used
again once its bridge is destroyed; `Bridge` numbers the bridges themselves.
 */
module HazardBridge {
  import opened Wrappers

  type Thread = nat
  type Bridge = nat
  type Address = nat

  const NULL: Address := 0
  const SLOTS: nat := 8
  const ATTEMPTS: nat := 2

  datatype Reader =
    | Outside
    | Claiming(next: nat)
    | Claimed(slot: nat, attempt: nat)
    | Loaded(slot: nat, attempt: nat, candidate: Address)
    | Announced(slot: nat, attempt: nat, candidate: Address)
    | Dropping(slot: nat)
    | Holding(slot: nat, pointer: Address, bridge: Option<Bridge>)
    | WithoutBridge(slot: nat)
    | WithoutSlot
    | Unclaiming(slot: nat)

  datatype Publisher =
    | Idle
    | Created(bridge: Bridge)
    | Moved(previous: Option<Bridge>)      // the owner is replaced, active not yet
    | Stored(previous: Option<Bridge>)     // active is replaced, previous not yet retired

  datatype Scan = NoScan | Scanning(bridge: Bridge, next: nat)

  // `alive` maps every bridge not yet destroyed to its address; `current` is
  // the bridge whose address `active` holds.
  datatype State = State(
    alive: map<Bridge, Address>, nextBridge: nat,
    owner: Option<Bridge>, active: Address, current: Option<Bridge>, publisher: Publisher,
    retired: set<Bridge>, scan: Scan, ready: set<Bridge>,
    hazards: seq<Address>, claimed: seq<bool>, readers: map<Thread, Reader>)

  datatype Event =
    | Enter(t: Thread) | TryClaim(t: Thread) | LoadActive(t: Thread) | Announce(t: Thread) | Validate(t: Thread)
    | Drop(t: Thread) | Release(t: Thread) | Unclaim(t: Thread)
    | Create(address: Address) | Replace | StoreActive | Retire
    | StartScan(b: Bridge) | LookAtSlot | Destroy(b: Bridge)

  // ---------------------------------------------------------------- the audio threads

  ghost predicate HasSlot(r: Reader) {
    !(r.Outside? || r.Claiming? || r.WithoutSlot?)
  }

  ghost predicate ReaderEnabled(s: State, t: Thread, e: Event)
    requires t in s.readers && |s.hazards| == |s.claimed| == SLOTS
  {
    match e
    case Enter(_) => s.readers[t].Outside?
    case TryClaim(_) => s.readers[t].Claiming?
    case LoadActive(_) => s.readers[t].Claimed?
    case Announce(_) => s.readers[t].Loaded? && s.readers[t].slot < SLOTS
    case Validate(_) => s.readers[t].Announced?
    case Drop(_) => s.readers[t].Dropping? && s.readers[t].slot < SLOTS
    case Release(_) =>
      s.readers[t].WithoutSlot? || ((s.readers[t].Holding? || s.readers[t].WithoutBridge?) && s.readers[t].slot < SLOTS)
    case Unclaim(_) => s.readers[t].Unclaiming? && s.readers[t].slot < SLOTS
    case _ => false
  }

  function AfterTry(next: nat, claimed: seq<bool>): Reader
    requires |claimed| == SLOTS
  {
    if next >= SLOTS then WithoutSlot else if claimed[next] then Claiming(next + 1) else Claimed(next, 0)
  }

  function AfterValidate(r: Reader, active: Address, current: Option<Bridge>): Reader
    requires r.Announced?
  {
    if r.candidate == active then Holding(r.slot, r.candidate, current)
    else if r.attempt + 1 < ATTEMPTS then Claimed(r.slot, r.attempt + 1)
    else Dropping(r.slot)
  }

  ghost function ReaderStep(s: State, t: Thread, e: Event): State
    requires t in s.readers && |s.hazards| == |s.claimed| == SLOTS && ReaderEnabled(s, t, e)
  {
    var r := s.readers[t];
    match e
    case Enter(_) => s.(readers := s.readers[t := Claiming(0)])
    case TryClaim(_) =>
      s.(claimed := if r.next < SLOTS then s.claimed[r.next := true] else s.claimed,
         readers := s.readers[t := AfterTry(r.next, s.claimed)])
    case LoadActive(_) => s.(readers := s.readers[t := Loaded(r.slot, r.attempt, s.active)])
    case Announce(_) =>
      s.(hazards := s.hazards[r.slot := r.candidate],
         readers := s.readers[t := Announced(r.slot, r.attempt, r.candidate)])
    case Validate(_) => s.(readers := s.readers[t := AfterValidate(r, s.active, s.current)])
    case Drop(_) =>
      s.(hazards := s.hazards[r.slot := NULL], readers := s.readers[t := WithoutBridge(r.slot)])
    case Release(_) =>
      s.(hazards := if r.WithoutSlot? then s.hazards else s.hazards[r.slot := NULL],
         readers := s.readers[t := if r.WithoutSlot? then Outside else Unclaiming(r.slot)])
    case Unclaim(_) =>
      s.(claimed := s.claimed[r.slot := false], readers := s.readers[t := Outside])
    case _ => s
  }

  // ---------------------------------------------------------------- publisher and reaper

  ghost predicate OwnerEnabled(s: State, e: Event)
    requires |s.hazards| == SLOTS
  {
    match e
    case Create(address) => s.publisher.Idle? && address != NULL && address !in s.alive.Values
    case Replace => s.publisher.Idle? || s.publisher.Created?
    case StoreActive => s.publisher.Moved? && (s.owner.Some? ==> s.owner.value in s.alive)
    case Retire => s.publisher.Stored? && s.scan.NoScan?
    case StartScan(b) => s.scan.NoScan? && b in s.retired
    case LookAtSlot => s.scan.Scanning? && s.scan.next < SLOTS && s.scan.bridge in s.alive
    case Destroy(b) => b in s.ready
    case _ => false
  }

  // The last slot was looked at in vain: the bridge may be destroyed.
  ghost predicate ScanFinds(s: State)
    requires |s.hazards| == SLOTS && OwnerEnabled(s, LookAtSlot)
  {
    s.hazards[s.scan.next] == s.alive[s.scan.bridge]
  }

  ghost predicate ScanClears(s: State)
    requires |s.hazards| == SLOTS && OwnerEnabled(s, LookAtSlot)
  {
    !ScanFinds(s) && s.scan.next + 1 == SLOTS
  }

  ghost function OwnerStep(s: State, e: Event): State
    requires |s.hazards| == SLOTS && OwnerEnabled(s, e)
  {
    match e
    case Create(address) =>
      s.(alive := s.alive[s.nextBridge := address], nextBridge := s.nextBridge + 1, publisher := Created(s.nextBridge))
    case Replace =>
      s.(owner := if s.publisher.Created? then Some(s.publisher.bridge) else None, publisher := Moved(s.owner))
    case StoreActive =>
      s.(active := if s.owner.Some? then s.alive[s.owner.value] else NULL, current := s.owner,
         publisher := Stored(s.publisher.previous))
    case Retire =>
      s.(retired := if s.publisher.previous.Some? then s.retired + {s.publisher.previous.value} else s.retired,
         publisher := Idle)
    case StartScan(b) => s.(scan := Scanning(b, 0))
    case LookAtSlot =>
      s.(scan := if ScanFinds(s) || ScanClears(s) then NoScan else Scanning(s.scan.bridge, s.scan.next + 1),
         retired := if ScanClears(s) then s.retired - {s.scan.bridge} else s.retired,
         ready := if ScanClears(s) then s.ready + {s.scan.bridge} else s.ready)
    case Destroy(b) => s.(alive := s.alive - {b}, ready := s.ready - {b})
    case _ => s
  }

  // ---------------------------------------------------------------- runs

  function ReaderOf(e: Event): Option<Thread> {
    match e
    case Enter(t) => Some(t)
    case TryClaim(t) => Some(t)
    case LoadActive(t) => Some(t)
    case Announce(t) => Some(t)
    case Validate(t) => Some(t)
    case Drop(t) => Some(t)
    case Release(t) => Some(t)
    case Unclaim(t) => Some(t)
    case _ => None
  }

  ghost predicate Enabled(s: State, e: Event) {
    && |s.hazards| == |s.claimed| == SLOTS
    && match ReaderOf(e)
       case Some(t) => t in s.readers && ReaderEnabled(s, t, e)
       case None => OwnerEnabled(s, e)
  }

  ghost function Apply(s: State, e: Event): State
    requires Enabled(s, e)
  {
    match ReaderOf(e)
    case Some(t) => ReaderStep(s, t, e)
    case None => OwnerStep(s, e)
  }

  ghost predicate Runs(s: State, es: seq<Event>)
    decreases |es|
  {
    es == [] || (Enabled(s, es[0]) && Runs(Apply(s, es[0]), es[1..]))
  }

  ghost function End(s: State, es: seq<Event>): State
    requires Runs(s, es)
    decreases |es|
  {
    if es == [] then s else End(Apply(s, es[0]), es[1..])
  }

  ghost predicate Init(s: State) {
    && s.alive == map[] && s.owner.None? && s.active == NULL && s.current.None? && s.publisher.Idle?
    && s.retired == {} && s.scan.NoScan? && s.ready == {}
    && |s.hazards| == |s.claimed| == SLOTS
    && (forall i :: 0 <= i < SLOTS ==> s.hazards[i] == NULL && !s.claimed[i])
    && (forall t :: t in s.readers ==> s.readers[t].Outside?)
  }

  // ---------------------------------------------------------------- the invariant

  // Whom the publisher alone still knows.
  ghost function Pending(p: Publisher): set<Bridge> {
    match p
    case Idle => {}
    case Created(b) => {b}
    case Moved(previous) => if previous.Some? then {previous.value} else {}
    case Stored(previous) => if previous.Some? then {previous.value} else {}
  }

  ghost function Owned(o: Option<Bridge>): set<Bridge> {
    if o.Some? then {o.value} else {}
  }

  // Every living bridge is in exactly one place.
  ghost predicate PlacesRight(s: State) {
    && s.alive.Keys == Owned(s.owner) + Pending(s.publisher) + s.retired + s.ready
    && Owned(s.owner) !! Pending(s.publisher) && (Owned(s.owner) + Pending(s.publisher)) !! s.retired
    && (Owned(s.owner) + Pending(s.publisher) + s.retired) !! s.ready
    && (s.scan.Scanning? ==> s.scan.bridge in s.retired && s.scan.next < SLOTS)
  }

  ghost predicate AddressesRight(s: State) {
    && (forall b :: b in s.alive ==> b < s.nextBridge && s.alive[b] != NULL)
    && (forall a, b :: a in s.alive && b in s.alive && s.alive[a] == s.alive[b] ==> a == b)
  }

  ghost predicate ActiveRight(s: State) {
    && s.current == (if s.publisher.Moved? then s.publisher.previous else s.owner)
    && (s.current.None? ==> s.active == NULL)
    && (s.current.Some? ==> s.current.value in s.alive && s.alive[s.current.value] == s.active)
  }

  ghost predicate SlotRight(s: State, t: Thread)
    requires t in s.readers && |s.hazards| == |s.claimed| == SLOTS
  {
    && (HasSlot(s.readers[t]) ==> s.readers[t].slot < SLOTS && s.claimed[s.readers[t].slot])
    && (s.readers[t].Announced? ==> s.hazards[s.readers[t].slot] == s.readers[t].candidate)
    && (s.readers[t].Holding? ==> s.hazards[s.readers[t].slot] == s.readers[t].pointer)
  }

  ghost predicate Apart(r: Reader, q: Reader) {
    HasSlot(r) && HasSlot(q) ==> r.slot != q.slot
  }

  ghost predicate SlotsRight(s: State) {
    && |s.hazards| == |s.claimed| == SLOTS
    && (forall t :: t in s.readers ==> SlotRight(s, t))
    && (forall t, u :: t in s.readers && u in s.readers && t != u ==> Apart(s.readers[t], s.readers[u]))
  }

  // A held bridge is alive at the address held, is not waiting for its
  // destruction, and no scan has passed the slot that protects it.
  ghost predicate HeldRight(s: State, r: Reader) {
    r.Holding? ==>
      && (r.bridge.None? ==> r.pointer == NULL)
      && (r.bridge.Some? ==>
            && r.bridge.value in s.alive && s.alive[r.bridge.value] == r.pointer
            && r.bridge.value !in s.ready
            && (s.scan.Scanning? && s.scan.bridge == r.bridge.value ==> s.scan.next <= r.slot))
  }

  ghost predicate AllHeldRight(s: State) {
    forall t :: t in s.readers ==> HeldRight(s, s.readers[t])
  }

  ghost predicate Inv(s: State) {
    PlacesRight(s) && AddressesRight(s) && ActiveRight(s) && SlotsRight(s) && AllHeldRight(s)
  }

  lemma ReaderOwnSlot(s: State, t: Thread, e: Event)
    requires |s.hazards| == |s.claimed| == SLOTS && t in s.readers && ReaderEnabled(s, t, e) && SlotRight(s, t)
    ensures var n := ReaderStep(s, t, e);
            |n.hazards| == |n.claimed| == SLOTS && n.readers.Keys == s.readers.Keys && SlotRight(n, t)
  {
    match e
    case Enter(_) | TryClaim(_) | LoadActive(_) | Announce(_) | Validate(_) | Drop(_) | Release(_) | Unclaim(_) =>
  }

  // A thread only touches its own slot, and claims one that nobody has.
  lemma ReaderOtherSlot(s: State, t: Thread, e: Event, u: Thread)
    requires |s.hazards| == |s.claimed| == SLOTS && t in s.readers && u in s.readers && t != u
    requires ReaderEnabled(s, t, e) && SlotRight(s, t) && SlotRight(s, u) && Apart(s.readers[t], s.readers[u])
    ensures |ReaderStep(s, t, e).hazards| == |ReaderStep(s, t, e).claimed| == SLOTS
    ensures t in ReaderStep(s, t, e).readers && u in ReaderStep(s, t, e).readers
    ensures ReaderStep(s, t, e).readers[u] == s.readers[u]
    ensures SlotRight(ReaderStep(s, t, e), u) && Apart(ReaderStep(s, t, e).readers[t], s.readers[u])
  {
    match e
    case Enter(_) | TryClaim(_) | LoadActive(_) | Announce(_) | Validate(_) | Drop(_) | Release(_) | Unclaim(_) =>
  }

  lemma ReaderSlots(s: State, t: Thread, e: Event)
    requires SlotsRight(s) && t in s.readers && ReaderEnabled(s, t, e)
    ensures SlotsRight(ReaderStep(s, t, e))
  {
    hide ReaderStep, ReaderEnabled, SlotRight, Apart, HasSlot;
    var n := ReaderStep(s, t, e);
    ReaderOwnSlot(s, t, e);
    forall u | u in n.readers && u != t
      ensures n.readers[u] == s.readers[u] && SlotRight(n, u)
      ensures Apart(n.readers[t], n.readers[u]) && Apart(n.readers[u], n.readers[t])
    {
      ReaderOtherSlot(s, t, e, u);
      ApartSwaps(n.readers[t], n.readers[u]);
    }
  }

  lemma ApartSwaps(r: Reader, q: Reader)
    ensures Apart(r, q) <==> Apart(q, r)
  {
  }

  lemma ReaderHeld(s: State, t: Thread, e: Event)
    requires Inv(s) && t in s.readers && ReaderEnabled(s, t, e)
    ensures AllHeldRight(ReaderStep(s, t, e))
  {
    hide SlotRight;
    match e
    case Enter(_) | TryClaim(_) | LoadActive(_) | Announce(_) | Validate(_) | Drop(_) | Release(_) | Unclaim(_) =>
  }

  lemma ReaderOthers(s: State, t: Thread, e: Event)
    requires Inv(s) && t in s.readers && ReaderEnabled(s, t, e)
    ensures var n := ReaderStep(s, t, e); PlacesRight(n) && AddressesRight(n) && ActiveRight(n)
  {
    match e
    case Enter(_) | TryClaim(_) | LoadActive(_) | Announce(_) | Validate(_) | Drop(_) | Release(_) | Unclaim(_) =>
  }

  lemma OwnerPlaces(s: State, e: Event)
    requires Inv(s) && OwnerEnabled(s, e)
    ensures var n := OwnerStep(s, e); PlacesRight(n) && AddressesRight(n) && ActiveRight(n)
  {
    hide AllHeldRight;
    match e
    case Create(_) | Replace | StoreActive | Retire | StartScan(_) | LookAtSlot | Destroy(_) =>
  }

  // Publisher and reaper write no hazard and no claim.
  lemma OwnerKeepsSlots(s: State, e: Event)
    requires SlotsRight(s) && OwnerEnabled(s, e)
    ensures var n := OwnerStep(s, e); n.hazards == s.hazards && n.claimed == s.claimed && n.readers == s.readers
  {
    match e
    case Create(_) | Replace | StoreActive | Retire | StartScan(_) | LookAtSlot | Destroy(_) =>
  }

  lemma SlotsFrame(s: State, n: State)
    requires SlotsRight(s) && n.hazards == s.hazards && n.claimed == s.claimed && n.readers == s.readers
    ensures SlotsRight(n)
  {
    hide Apart, HasSlot;
    forall t | t in n.readers
      ensures SlotRight(n, t)
    {
      assert SlotRight(s, t);
    }
  }

  // A held bridge stays where it is: it may be retired, but a scan stops at the
  // slot that protects it.
  lemma OwnerKeepsHeld(s: State, e: Event, t: Thread)
    requires PlacesRight(s) && AddressesRight(s) && |s.hazards| == |s.claimed| == SLOTS && OwnerEnabled(s, e)
    requires t in s.readers && SlotRight(s, t) && HeldRight(s, s.readers[t])
    ensures HeldRight(OwnerStep(s, e), s.readers[t])
  {
    match e
    case Create(_) | Replace | StoreActive | Retire | StartScan(_) | LookAtSlot | Destroy(_) =>
  }

  lemma OwnerHeld(s: State, e: Event)
    requires Inv(s) && OwnerEnabled(s, e)
    ensures SlotsRight(OwnerStep(s, e)) && AllHeldRight(OwnerStep(s, e))
  {
    hide OwnerStep, OwnerEnabled, HeldRight, SlotRight, PlacesRight, AddressesRight, ActiveRight, Apart;
    var n := OwnerStep(s, e);
    OwnerKeepsSlots(s, e);
    SlotsFrame(s, n);
    forall t | t in n.readers
      ensures HeldRight(n, n.readers[t])
    {
      OwnerKeepsHeld(s, e, t);
    }
  }

  lemma InvStep(s: State, e: Event)
    requires Inv(s) && Enabled(s, e)
    ensures Inv(Apply(s, e))
  {
    hide PlacesRight, AddressesRight, ActiveRight, SlotRight, Apart, AllHeldRight, ReaderStep, ReaderEnabled,
      OwnerStep, OwnerEnabled;
    match ReaderOf(e)
    case Some(t) =>
      ReaderSlots(s, t, e);
      ReaderHeld(s, t, e);
      ReaderOthers(s, t, e);
    case None =>
      OwnerPlaces(s, e);
      OwnerHeld(s, e);
  }

  lemma {:induction false} InvRun(s: State, es: seq<Event>)
    requires Inv(s) && Runs(s, es)
    ensures Inv(End(s, es))
    decreases |es|
  {
    hide Inv, Enabled, Apply;
    if es != [] {
      InvStep(s, es[0]);
      InvRun(Apply(s, es[0]), es[1..]);
    }
  }

  // ---------------------------------------------------------------- what every run keeps

  // Whoever holds a bridge holds a living one: the one bridge at the address
  // held, and the one that was active when the hold was validated.  Addresses
  // may have been used again in between; scans may be under way.
  lemma HeldBridgeIsAlive(s: State, es: seq<Event>, t: Thread)
    requires Init(s) && Runs(s, es)
    ensures var n := End(s, es);
            t in n.readers && n.readers[t].Holding? && n.readers[t].pointer != NULL ==>
              && n.readers[t].bridge.Some? && n.readers[t].bridge.value in n.alive
              && n.readers[t].bridge.value !in n.ready
              && (forall b :: b in n.alive ==> (n.alive[b] == n.readers[t].pointer <==> b == n.readers[t].bridge.value))
  {
    hide Runs, PlacesRight, ActiveRight, SlotsRight;
    InvInit(s);
    InvRun(s, es);
  }

  lemma InvInit(s: State)
    requires Init(s)
    ensures Inv(s)
  {
  }

  // A validated hold is on the bridge that is active at that very step.
  lemma ValidatedHoldIsActive(s: State, es: seq<Event>, t: Thread)
    requires Init(s) && Runs(s, es) && Enabled(End(s, es), Validate(t))
    ensures var n := End(s, es); var m := Apply(n, Validate(t));
            m.readers[t].Holding? ==>
              && m.readers[t].pointer == n.active && m.readers[t].bridge == n.current
              && (n.active != NULL ==> n.current.Some? && n.current.value in n.alive && n.current.value !in n.retired + n.ready)
  {
    hide Runs, AddressesRight, SlotsRight, AllHeldRight;
    InvInit(s);
    InvRun(s, es);
  }

  // Slots are exclusive, so at most eight threads hold a bridge; the ninth goes without.
  lemma {:induction false} DistinctSlots(slots: map<Thread, nat>, bound: nat)
    requires forall t :: t in slots ==> slots[t] < bound
    requires forall t, u :: t in slots && u in slots && slots[t] == slots[u] ==> t == u
    ensures |slots| <= bound
    decreases bound
  {
    if bound == 0 {
      assert slots == map[] by {
        if t :| t in slots { assert false; }
      }
    } else if t :| t in slots && slots[t] == bound - 1 {
      var rest := slots - {t};
      DistinctSlots(rest, bound - 1);
      assert slots.Keys == rest.Keys + {t};
      assert |slots| == |slots.Keys| && |rest| == |rest.Keys|;
    } else {
      DistinctSlots(slots, bound - 1);
    }
  }

  lemma HoldersHaveDistinctSlots(s: State)
    requires SlotsRight(s)
    ensures |set t | t in s.readers && s.readers[t].Holding?| <= SLOTS
  {
    var holders := set t | t in s.readers && s.readers[t].Holding?;
    var slots := map t | t in holders :: s.readers[t].slot;
    forall t | t in slots
      ensures slots[t] < SLOTS
    {
      assert SlotRight(s, t);
    }
    hide SlotRight;
    forall t, u | t in slots && u in slots && t != u
      ensures slots[t] != slots[u]
    {
      assert Apart(s.readers[t], s.readers[u]);
    }
    hide Apart;
    DistinctSlots(slots, SLOTS);
    assert slots.Keys == holders;
    assert |slots| == |slots.Keys|;
  }

  lemma AtMostEightHolders(s: State, es: seq<Event>)
    requires Init(s) && Runs(s, es)
    ensures var n := End(s, es); |set t | t in n.readers && n.readers[t].Holding?| <= SLOTS
  {
    hide Runs, PlacesRight, AddressesRight, ActiveRight, AllHeldRight, SlotsRight;
    InvInit(s);
    InvRun(s, es);
    HoldersHaveDistinctSlots(End(s, es));
  }

  // ---------------------------------------------------------------- nothing is kept for ever

  // The reader has this address in hand and may still announce or use it.
  ghost predicate Knows(r: Reader, a: Address) {
    ((r.Loaded? || r.Announced?) && r.candidate == a) || (r.Holding? && r.pointer == a)
  }

  // No reader knows bridge b any more, no slot protects it, and it is on its way out.
  ghost predicate Forgotten(s: State, b: Bridge) {
    && b in s.alive && b in s.retired + s.ready
    && (forall t :: t in s.readers ==> !Knows(s.readers[t], s.alive[b]))
    && (forall i :: 0 <= i < |s.hazards| ==> s.hazards[i] != s.alive[b])
  }

  // Bridge b has left the retired list for good.
  ghost predicate Gone(s: State, b: Bridge) {
    b < s.nextBridge && b !in Owned(s.owner) && b !in Pending(s.publisher) && b !in s.retired
  }

  // A reader can only come to know the active bridge, and that is another one.
  lemma ReaderForgets(s: State, t: Thread, e: Event, b: Bridge)
    requires Inv(s) && t in s.readers && ReaderEnabled(s, t, e) && Forgotten(s, b)
    ensures Forgotten(ReaderStep(s, t, e), b)
  {
    hide AllHeldRight, SlotRight, Apart;
    match e
    case Enter(_) | TryClaim(_) | LoadActive(_) | Announce(_) | Validate(_) | Drop(_) | Release(_) | Unclaim(_) =>
  }

  // Until it is destroyed its address is given to no other bridge.
  lemma OwnerForgets(s: State, e: Event, b: Bridge)
    requires Inv(s) && OwnerEnabled(s, e) && Forgotten(s, b)
    ensures b in OwnerStep(s, e).alive ==> Forgotten(OwnerStep(s, e), b)
    ensures b !in OwnerStep(s, e).alive ==> Gone(OwnerStep(s, e), b)
  {
    hide AllHeldRight, SlotsRight, ActiveRight;
    match e
    case Create(_) | Replace | StoreActive | Retire | StartScan(_) | LookAtSlot | Destroy(_) =>
  }

  lemma StaysGone(s: State, e: Event, b: Bridge)
    requires Inv(s) && Enabled(s, e) && Gone(s, b)
    ensures Gone(Apply(s, e), b)
  {
    hide AllHeldRight, SlotsRight, ActiveRight, AddressesRight;
    match e
    case Create(_) | Replace | StoreActive | Retire | StartScan(_) | LookAtSlot | Destroy(_) =>
    case Enter(_) | TryClaim(_) | LoadActive(_) | Announce(_) | Validate(_) | Drop(_) | Release(_) | Unclaim(_) =>
  }

  function LooksIn(es: seq<Event>): nat {
    if es == [] then 0 else (if es[0].LookAtSlot? then 1 else 0) + LooksIn(es[1..])
  }

  // A scan of a forgotten bridge never stops: each look brings it one slot further.
  lemma ScanGoesOn(s: State, e: Event, b: Bridge)
    requires Inv(s) && Enabled(s, e) && Forgotten(s, b) && s.scan.Scanning? && s.scan.bridge == b && b in s.retired
    ensures var t := Apply(s, e);
            || Gone(t, b)
            || (Forgotten(t, b) && b in t.retired && t.scan.Scanning? && t.scan.bridge == b
                && t.scan.next == s.scan.next + if e.LookAtSlot? then 1 else 0)
  {
    hide AllHeldRight, SlotsRight, ActiveRight, AddressesRight, Forgotten;
    match ReaderOf(e)
    case Some(t) =>
      ReaderForgets(s, t, e, b);
      ReaderLeavesScan(s, t, e);
    case None =>
      OwnerForgets(s, e, b);
      ScanMoves(s, e, b);
  }

  lemma ReaderLeavesScan(s: State, t: Thread, e: Event)
    requires |s.hazards| == |s.claimed| == SLOTS && t in s.readers && ReaderEnabled(s, t, e)
    ensures ReaderStep(s, t, e).scan == s.scan && ReaderStep(s, t, e).retired == s.retired
  {
    match e
    case Enter(_) | TryClaim(_) | LoadActive(_) | Announce(_) | Validate(_) | Drop(_) | Release(_) | Unclaim(_) =>
  }

  lemma ScanMoves(s: State, e: Event, b: Bridge)
    requires Inv(s) && OwnerEnabled(s, e) && Forgotten(s, b) && s.scan.Scanning? && s.scan.bridge == b && b in s.retired
    ensures var t := OwnerStep(s, e);
            || Gone(t, b)
            || (b in t.alive && b in t.retired && t.scan.Scanning? && t.scan.bridge == b
                && t.scan.next == s.scan.next + if e.LookAtSlot? then 1 else 0)
  {
    hide AllHeldRight, SlotRight, Apart, ActiveRight;
    match e
    case LookAtSlot => assert !ScanFinds(s);
    case Create(_) | Replace | StoreActive | Retire | StartScan(_) | Destroy(_) =>
  }

  lemma {:induction false} GoneRun(s: State, es: seq<Event>, b: Bridge)
    requires Inv(s) && Runs(s, es) && Gone(s, b)
    ensures Gone(End(s, es), b)
    decreases |es|
  {
    hide Inv, Enabled, Apply, Gone;
    if es != [] {
      InvStep(s, es[0]);
      StaysGone(s, es[0], b);
      GoneRun(Apply(s, es[0]), es[1..], b);
    }
  }

  lemma {:induction false} ForgottenScanRun(s: State, es: seq<Event>, b: Bridge)
    requires Inv(s) && Runs(s, es) && Forgotten(s, b) && b in s.retired
    requires s.scan.Scanning? && s.scan.bridge == b && s.scan.next + LooksIn(es) >= SLOTS
    ensures Gone(End(s, es), b)
    decreases |es|
  {
    hide Enabled, Apply, Gone, Forgotten, AddressesRight, ActiveRight, SlotsRight, AllHeldRight;
    if es != [] {
      InvStep(s, es[0]);
      ScanGoesOn(s, es[0], b);
      hide Inv;
      if Gone(Apply(s, es[0]), b) {
        GoneRun(Apply(s, es[0]), es[1..], b);
      } else {
        ForgottenScanRun(Apply(s, es[0]), es[1..], b);
      }
    }
  }

  // Once no reader knows a retired bridge and no slot protects it, its next scan
  // clears it, whatever readers, publisher and destructions come in between: no
  // reader can come to know it again.
  lemma ForgottenBridgeIsReclaimed(s: State, es: seq<Event>, b: Bridge, fs: seq<Event>)
    requires Init(s) && Runs(s, es)
    requires var n := End(s, es); Forgotten(n, b) && Enabled(n, StartScan(b)) && Runs(Apply(n, StartScan(b)), fs)
    requires LooksIn(fs) >= SLOTS
    ensures b !in End(Apply(End(s, es), StartScan(b)), fs).retired
  {
    hide Runs, LooksIn;
    var n := End(s, es);
    InvInit(s);
    InvRun(s, es);
    InvStep(n, StartScan(b));
    OwnerForgets(n, StartScan(b), b);
    ForgottenScanRun(Apply(n, StartScan(b)), fs, b);
  }

  // Forgetting does not come back: a bridge nobody knows stays unknown until it
  // is destroyed.
  lemma {:induction false} ForgottenForGood(s: State, es: seq<Event>, b: Bridge)
    requires Inv(s) && Runs(s, es) && (Forgotten(s, b) || Gone(s, b))
    ensures Forgotten(End(s, es), b) || Gone(End(s, es), b)
    decreases |es|
  {
    hide Inv, Gone, Forgotten;
    if es != [] {
      InvStep(s, es[0]);
      if Gone(s, b) {
        StaysGone(s, es[0], b);
      } else {
        match ReaderOf(es[0])
        case Some(t) => ReaderForgets(s, t, es[0], b);
        case None => OwnerForgets(s, es[0], b);
      }
      ForgottenForGood(Apply(s, es[0]), es[1..], b);
    }
  }

  // ---------------------------------------------------------------- what an undisturbed thread gets

  ghost predicate StepsTo(s: State, e: Event, n: State) {
    Enabled(s, e) && Apply(s, e) == n
  }

  lemma RunsOne(s: State, e: Event, n: State, es: seq<Event>)
    requires StepsTo(s, e, n) && Runs(n, es)
    ensures Runs(s, [e] + es) && End(s, [e] + es) == End(n, es)
  {
    hide Enabled, Apply;
    assert ([e] + es)[1..] == es;
  }

  lemma ClaimStep(s: State, t: Thread, k: nat)
    requires SlotsRight(s) && t in s.readers && s.readers[t] == Claiming(k) && k < SLOTS
    ensures StepsTo(s, TryClaim(t), if s.claimed[k] then s.(readers := s.readers[t := Claiming(k + 1)])
                                    else s.(claimed := s.claimed[k := true], readers := s.readers[t := Claimed(k, 0)]))
  {
    hide SlotRight, Apart;
    assert s.claimed[k] ==> s.claimed[k := true] == s.claimed;
  }

  ghost function Hunts(t: Thread, n: nat): seq<Event> {
    if n == 0 then [] else [TryClaim(t)] + Hunts(t, n - 1)
  }

  // The hunt for a slot ends at the first free one.
  lemma {:induction false} HuntRuns(s: State, t: Thread, k: nat, free: nat)
    requires SlotsRight(s) && t in s.readers && s.readers[t] == Claiming(k) && k <= free < SLOTS
    requires !s.claimed[free] && forall i :: k <= i < free ==> s.claimed[i]
    ensures Runs(s, Hunts(t, free + 1 - k))
    ensures End(s, Hunts(t, free + 1 - k))
         == s.(claimed := s.claimed[free := true], readers := s.readers[t := Claimed(free, 0)])
    decreases free - k
  {
    hide Runs, End, StepsTo;
    ClaimStep(s, t, k);
    if k == free {
      NoRun(s.(claimed := s.claimed[free := true], readers := s.readers[t := Claimed(free, 0)]));
      RunsOne(s, TryClaim(t), s.(claimed := s.claimed[free := true], readers := s.readers[t := Claimed(free, 0)]), []);
      assert Hunts(t, 0) == [] && Hunts(t, 1) == [TryClaim(t)] + [];
    } else {
      var n := s.(readers := s.readers[t := Claiming(k + 1)]);
      HuntKeepsSlots(s, t, k);
      HuntRuns(n, t, k + 1, free);
      RunsOne(s, TryClaim(t), n, Hunts(t, free - k));
      assert n.readers[t := Claimed(free, 0)] == s.readers[t := Claimed(free, 0)];
    }
  }

  lemma NoRun(s: State)
    ensures Runs(s, []) && End(s, []) == s
  {
  }

  lemma HuntKeepsSlots(s: State, t: Thread, k: nat)
    requires SlotsRight(s) && t in s.readers && s.readers[t] == Claiming(k)
    ensures SlotsRight(s.(readers := s.readers[t := Claiming(k + 1)]))
  {
    var n := s.(readers := s.readers[t := Claiming(k + 1)]);
    forall u | u in n.readers
      ensures SlotRight(n, u)
    {
      assert SlotRight(s, u);
    }
    assert forall u, v :: u in n.readers && v in n.readers && u != v && u != t && v != t ==> Apart(s.readers[u], s.readers[v]);
  }

  lemma EnterStep(s: State, t: Thread)
    requires |s.hazards| == |s.claimed| == SLOTS && t in s.readers && s.readers[t].Outside?
    ensures StepsTo(s, Enter(t), s.(readers := s.readers[t := Claiming(0)]))
  {
  }

  // From entering to the slot.
  lemma EnterAndHunt(s: State, t: Thread, free: nat)
    requires SlotsRight(s) && t in s.readers && s.readers[t].Outside? && free < SLOTS && !s.claimed[free]
    requires forall i :: 0 <= i < free ==> s.claimed[i]
    ensures Runs(s, [Enter(t)] + Hunts(t, free + 1))
    ensures End(s, [Enter(t)] + Hunts(t, free + 1))
         == s.(claimed := s.claimed[free := true], readers := s.readers[t := Claimed(free, 0)])
  {
    var n1 := s.(readers := s.readers[t := Claiming(0)]);
    EnterStep(s, t);
    EnterKeepsSlots(s, t);
    hide Runs, End, Hunts, StepsTo, SlotsRight;
    HuntRuns(n1, t, 0, free);
    RunsOne(s, Enter(t), n1, Hunts(t, free + 1));
    assert n1.readers[t := Claimed(free, 0)] == s.readers[t := Claimed(free, 0)];
  }

  lemma EnterKeepsSlots(s: State, t: Thread)
    requires SlotsRight(s) && t in s.readers && s.readers[t].Outside?
    ensures SlotsRight(s.(readers := s.readers[t := Claiming(0)]))
  {
    hide SlotsRight;
    ReaderSlots(s, t, Enter(t));
  }

  // A thread that nobody disturbs gets the first free slot and, in it, a hold on
  // the bridge that is active: null only if there is none.
  lemma UndisturbedReaderHolds(s: State, es: seq<Event>, t: Thread, free: nat) returns (fs: seq<Event>)
    requires Init(s) && Runs(s, es)
    requires var n := End(s, es);
             t in n.readers && n.readers[t].Outside? && |n.claimed| == SLOTS && free < SLOTS && !n.claimed[free]
             && forall i :: 0 <= i < free ==> n.claimed[i]
    ensures var n := End(s, es);
            && (forall i :: 0 <= i < |fs| ==> ReaderOf(fs[i]) == Some(t)) && Runs(n, fs)
            && t in End(n, fs).readers && End(n, fs).readers[t] == Holding(free, n.active, n.current)
  {
    hide Runs, End, Hunts, Inv, Init;
    var n := End(s, es);
    InvInit(s);
    InvRun(s, es);
    InvHasSlots(n);
    EnterAndHunt(n, t, free);
    var hold := HoldRuns(n.(claimed := n.claimed[free := true], readers := n.readers[t := Claimed(free, 0)]), t, free);
    HuntsAreOf(t, free + 1);
    RunsMany(n, [Enter(t)] + Hunts(t, free + 1), hold);
    fs := [Enter(t)] + Hunts(t, free + 1) + hold;
  }

  lemma {:induction false} HuntsAreOf(t: Thread, n: nat)
    ensures forall i :: 0 <= i < |Hunts(t, n)| ==> ReaderOf(Hunts(t, n)[i]) == Some(t)
  {
    if n > 0 { HuntsAreOf(t, n - 1); }
  }

  lemma HoldRuns(s: State, t: Thread, slot: nat) returns (es: seq<Event>)
    requires |s.hazards| == |s.claimed| == SLOTS && t in s.readers && s.readers[t] == Claimed(slot, 0) && slot < SLOTS
    ensures forall i :: 0 <= i < |es| ==> ReaderOf(es[i]) == Some(t)
    ensures Runs(s, es) && t in End(s, es).readers && End(s, es).readers[t] == Holding(slot, s.active, s.current)
  {
    var s1 := s.(readers := s.readers[t := Loaded(slot, 0, s.active)]);
    var s2 := s.(hazards := s.hazards[slot := s.active], readers := s.readers[t := Announced(slot, 0, s.active)]);
    var s3 := s2.(readers := s.readers[t := Holding(slot, s.active, s.current)]);
    assert s1.readers[t := Announced(slot, 0, s.active)] == s2.readers;
    assert s2.readers[t := Holding(slot, s.active, s.current)] == s3.readers;
    assert StepsTo(s, LoadActive(t), s1) && StepsTo(s1, Announce(t), s2) && StepsTo(s2, Validate(t), s3);
    NoRun(s3);
    hide Runs, End, StepsTo;
    RunsOne(s2, Validate(t), s3, []);
    RunsOne(s1, Announce(t), s2, [Validate(t)] + []);
    RunsOne(s, LoadActive(t), s1, [Announce(t)] + ([Validate(t)] + []));
    es := [LoadActive(t)] + ([Announce(t)] + ([Validate(t)] + []));
  }

  lemma {:induction false} RunsMany(s: State, es: seq<Event>, fs: seq<Event>)
    requires Runs(s, es) && Runs(End(s, es), fs)
    ensures Runs(s, es + fs) && End(s, es + fs) == End(End(s, es), fs)
    decreases |es|
  {
    hide Enabled, Apply;
    if es == [] {
      assert es + fs == fs;
    } else {
      assert (es + fs)[1..] == es[1..] + fs;
      RunsMany(Apply(s, es[0]), es[1..], fs);
    }
  }

  ghost function AfterCreate(s: State, a: Address): State {
    s.(alive := s.alive[s.nextBridge := a], nextBridge := s.nextBridge + 1, publisher := Created(s.nextBridge))
  }

  ghost function AfterStore(s: State, b: Bridge, a: Address): State {
    s.(owner := Some(b), active := a, current := Some(b), publisher := Stored(s.owner))
  }

  lemma CreateStep(s: State, a: Address)
    requires |s.hazards| == |s.claimed| == SLOTS && s.publisher.Idle? && a != NULL && a !in s.alive.Values
    ensures StepsTo(s, Create(a), AfterCreate(s, a))
  {
  }

  lemma ReplaceAndStore(s: State, b: Bridge, a: Address)
    requires |s.hazards| == |s.claimed| == SLOTS && s.publisher == Created(b) && b in s.alive && s.alive[b] == a
    ensures var m := s.(owner := Some(b), publisher := Moved(s.owner));
            StepsTo(s, Replace, m) && StepsTo(m, StoreActive, AfterStore(s, b, a))
  {
  }

  lemma RetireStep(s: State)
    requires |s.hazards| == |s.claimed| == SLOTS && s.publisher.Stored? && s.scan.NoScan?
    ensures StepsTo(s, Retire, s.(retired := s.retired + Owned(s.publisher.previous), publisher := Idle))
  {
    assert s.retired + {} == s.retired;
  }

  // A holder that leaves takes its protection along and frees its slot.
  lemma LeavingFreesTheSlot(s: State, t: Thread)
    requires |s.hazards| == |s.claimed| == SLOTS && t in s.readers && s.readers[t].Holding? && s.readers[t].slot < SLOTS
    ensures var es := [Release(t), Unclaim(t)]; var k := s.readers[t].slot;
            && Runs(s, es)
            && End(s, es) == s.(hazards := s.hazards[k := NULL], claimed := s.claimed[k := false],
                                readers := s.readers[t := Outside])
  {
    var k := s.readers[t].slot;
    var s1 := s.(hazards := s.hazards[k := NULL], readers := s.readers[t := Unclaiming(k)]);
    var s2 := s.(hazards := s.hazards[k := NULL], claimed := s.claimed[k := false], readers := s.readers[t := Outside]);
    assert s1.readers[t := Outside] == s2.readers;
    assert StepsTo(s, Release(t), s1) && StepsTo(s1, Unclaim(t), s2);
    NoRun(s2);
    hide Runs, End, StepsTo;
    RunsOne(s1, Unclaim(t), s2, []);
    RunsOne(s, Release(t), s1, [Unclaim(t)] + []);
    assert [Release(t), Unclaim(t)] == [Release(t)] + ([Unclaim(t)] + []);
  }

  // Publishing a bridge at a free address makes it the active one, and the one
  // before goes to the retired list.
  lemma PublishingReplaces(s: State, a: Address)
    requires Inv(s) && s.publisher.Idle? && s.scan.NoScan? && a != NULL && a !in s.alive.Values
    ensures var es := [Create(a), Replace, StoreActive, Retire];
            && Runs(s, es)
            && var n := End(s, es);
               n.active == a && n.current == Some(s.nextBridge) && n.owner == n.current && n.publisher.Idle?
               && s.nextBridge in n.alive && n.alive[s.nextBridge] == a && n.retired == s.retired + Owned(s.owner)
  {
    assert |s.hazards| == |s.claimed| == SLOTS;
    hide Inv, Runs, End, StepsTo;
    var s1 := AfterCreate(s, a);
    var s2 := s1.(owner := Some(s.nextBridge), publisher := Moved(s.owner));
    var s3 := AfterStore(s1, s.nextBridge, a);
    var s4 := s3.(retired := s.retired + Owned(s.owner), publisher := Idle);
    CreateStep(s, a);
    ReplaceAndStore(s1, s.nextBridge, a);
    RetireStep(s3);
    NoRun(s4);
    RunsOne(s3, Retire, s4, []);
    RunsOne(s2, StoreActive, s3, [Retire] + []);
    RunsOne(s1, Replace, s2, [StoreActive] + ([Retire] + []));
    RunsOne(s, Create(a), s1, [Replace] + ([StoreActive] + ([Retire] + [])));
    assert [Create(a), Replace, StoreActive, Retire] == [Create(a)] + ([Replace] + ([StoreActive] + ([Retire] + [])));
  }

  // A destroyed bridge gives its address back.
  lemma DestroyingFreesTheAddress(s: State, b: Bridge)
    requires Inv(s) && Enabled(s, Destroy(b))
    ensures var n := Apply(s, Destroy(b)); b !in n.alive && s.alive[b] !in n.alive.Values
  {
    hide ActiveRight, AllHeldRight, SlotRight, Apart;
    var n := Apply(s, Destroy(b));
    forall a | a in n.alive
      ensures n.alive[a] != s.alive[b]
    {
      assert a in s.alive && a != b;
    }
  }

  // ---------------------------------------------------------------- bounded and clean

  ghost predicate AcquireRight(r: Reader) {
    match r
    case Claimed(_, attempt) => attempt < ATTEMPTS
    case Loaded(_, attempt, _) => attempt < ATTEMPTS
    case Announced(_, attempt, _) => attempt < ATTEMPTS
    case _ => true
  }

  // How many steps of its own a thread may still need until it holds something
  // or goes without.
  ghost function StepsLeft(r: Reader): nat {
    match r
    case Claiming(next) => if next < SLOTS then 9 + SLOTS - next else 1
    case Claimed(_, attempt) => if attempt < ATTEMPTS then 3 * (ATTEMPTS - attempt) + 1 else 0
    case Loaded(_, attempt, _) => if attempt < ATTEMPTS then 3 * (ATTEMPTS - attempt) else 0
    case Announced(_, attempt, _) => if attempt < ATTEMPTS then 3 * (ATTEMPTS - attempt) - 1 else 0
    case Dropping(_) => 1
    case _ => 0
  }

  ghost predicate Leaves(e: Event) {
    e.Enter? || e.Release? || e.Unclaim?
  }

  // The steps thread t takes among these.
  ghost function Taken(t: Thread, es: seq<Event>): nat {
    if es == [] then 0 else (if ReaderOf(es[0]) == Some(t) then 1 else 0) + Taken(t, es[1..])
  }

  lemma AcquireAdvances(s: State, t: Thread, e: Event, u: Thread)
    requires |s.hazards| == |s.claimed| == SLOTS && u in s.readers && ReaderEnabled(s, u, e) && t in s.readers
    requires AcquireRight(s.readers[t]) && (u == t ==> !Leaves(e))
    ensures t in ReaderStep(s, u, e).readers && AcquireRight(ReaderStep(s, u, e).readers[t])
    ensures StepsLeft(ReaderStep(s, u, e).readers[t]) + (if u == t then 1 else 0) <= StepsLeft(s.readers[t])
  {
    match e
    case Enter(_) | TryClaim(_) | LoadActive(_) | Announce(_) | Validate(_) | Drop(_) | Release(_) | Unclaim(_) =>
  }

  // Whatever the publisher, the scans and the other threads do, a thread is
  // through with acquiring after at most that many steps of its own: seventeen
  // from the start.
  lemma {:induction false} AcquireIsBounded(s: State, es: seq<Event>, t: Thread)
    requires Runs(s, es) && SlotsShaped(s) && t in s.readers && AcquireRight(s.readers[t])
    requires forall i :: 0 <= i < |es| && ReaderOf(es[i]) == Some(t) ==> !Leaves(es[i])
    ensures Taken(t, es) <= StepsLeft(s.readers[t])
    ensures s.readers[t] == Claiming(0) ==> Taken(t, es) <= 17
    decreases |es|
  {
    if es != [] {
      var n := Apply(s, es[0]);
      match ReaderOf(es[0]) {
        case Some(u) => AcquireAdvances(s, t, es[0], u);
        case None => OwnerLeavesReaders(s, es[0]);
      }
      ShapeStays(s, es[0]);
      hide Enabled, Apply, StepsLeft;
      AcquireIsBounded(n, es[1..], t);
    }
  }

  ghost predicate SlotsShaped(s: State) {
    |s.hazards| == |s.claimed| == SLOTS
  }

  lemma OwnerLeavesReaders(s: State, e: Event)
    requires |s.hazards| == SLOTS && OwnerEnabled(s, e)
    ensures OwnerStep(s, e).readers == s.readers && OwnerStep(s, e).hazards == s.hazards
      && OwnerStep(s, e).claimed == s.claimed
  {
    match e
    case Create(_) | Replace | StoreActive | Retire | StartScan(_) | LookAtSlot | Destroy(_) =>
  }

  lemma ShapeStays(s: State, e: Event)
    requires Enabled(s, e)
    ensures SlotsShaped(Apply(s, e))
  {
    match ReaderOf(e)
    case Some(t) =>
      match e {
        case Enter(_) | TryClaim(_) | LoadActive(_) | Announce(_) | Validate(_) | Drop(_) | Release(_) | Unclaim(_) =>
      }
    case None => OwnerLeavesReaders(s, e);
  }

  // The thread has given up, or has left, but has its slot still.
  ghost predicate Through(r: Reader) {
    r.WithoutBridge? || r.Unclaiming?
  }

  ghost predicate FreeSlotsAreClear(s: State) {
    SlotsShaped(s) && forall i :: 0 <= i < SLOTS && !s.claimed[i] ==> s.hazards[i] == NULL
  }

  ghost predicate ClearsItsSlot(s: State, t: Thread)
    requires t in s.readers && SlotsShaped(s)
  {
    Through(s.readers[t]) && s.readers[t].slot < SLOTS ==> s.hazards[s.readers[t].slot] == NULL
  }

  // A slot that nobody has claimed, or whose thread has given up or left,
  // protects nothing.
  ghost predicate NothingStray(s: State) {
    FreeSlotsAreClear(s) && forall t :: t in s.readers ==> ClearsItsSlot(s, t)
  }

  lemma FreeSlotsStayClear(s: State, t: Thread, e: Event)
    requires FreeSlotsAreClear(s) && t in s.readers && SlotRight(s, t) && ClearsItsSlot(s, t) && ReaderEnabled(s, t, e)
    ensures FreeSlotsAreClear(ReaderStep(s, t, e)) && t in ReaderStep(s, t, e).readers
    ensures ClearsItsSlot(ReaderStep(s, t, e), t)
  {
    match e
    case Enter(_) | TryClaim(_) | LoadActive(_) | Announce(_) | Validate(_) | Drop(_) | Release(_) | Unclaim(_) =>
  }

  lemma OthersStayClear(s: State, t: Thread, e: Event, u: Thread)
    requires SlotsShaped(s) && t in s.readers && u in s.readers && u != t && ReaderEnabled(s, t, e)
    requires SlotRight(s, t) && ClearsItsSlot(s, u) && Apart(s.readers[t], s.readers[u])
    ensures SlotsShaped(ReaderStep(s, t, e)) && u in ReaderStep(s, t, e).readers && ClearsItsSlot(ReaderStep(s, t, e), u)
    ensures ReaderStep(s, t, e).readers.Keys == s.readers.Keys
  {
    match e
    case Enter(_) | TryClaim(_) | LoadActive(_) | Announce(_) | Validate(_) | Drop(_) | Release(_) | Unclaim(_) =>
  }

  lemma NothingStrayStep(s: State, t: Thread, e: Event)
    requires SlotsRight(s) && NothingStray(s) && t in s.readers && ReaderEnabled(s, t, e)
    ensures NothingStray(ReaderStep(s, t, e))
  {
    hide SlotRight, Apart, ClearsItsSlot, ReaderStep, ReaderEnabled;
    var n := ReaderStep(s, t, e);
    FreeSlotsStayClear(s, t, e);
    ReaderOwnSlot(s, t, e);
    forall u | u in n.readers && u != t
      ensures ClearsItsSlot(n, u)
    {
      OthersStayClear(s, t, e, u);
    }
  }

  lemma {:induction false} NoStrayRun(s: State, es: seq<Event>)
    requires Inv(s) && NothingStray(s) && Runs(s, es)
    ensures NothingStray(End(s, es))
    decreases |es|
  {
    hide Inv, NothingStray, ReaderStep, ReaderEnabled, OwnerStep, OwnerEnabled;
    if es != [] {
      InvStep(s, es[0]);
      assert SlotsRight(s) by { InvHasSlots(s); }
      match ReaderOf(es[0]) {
        case Some(t) => NothingStrayStep(s, t, es[0]);
        case None =>
          OwnerLeavesReaders(s, es[0]);
          StrayFrame(s, OwnerStep(s, es[0]));
      }
      NoStrayRun(Apply(s, es[0]), es[1..]);
    }
  }

  lemma InvHasSlots(s: State)
    requires Inv(s)
    ensures SlotsRight(s)
  {
  }

  lemma StrayFrame(s: State, n: State)
    requires NothingStray(s) && n.readers == s.readers && n.hazards == s.hazards && n.claimed == s.claimed
    ensures NothingStray(n)
  {
  }

  // So on every run: what a scan finds is a thread on its way to a hold, or one
  // that has it.
  lemma NoStrayProtection(s: State, es: seq<Event>)
    requires Init(s) && Runs(s, es)
    ensures NothingStray(End(s, es))
  {
    InvInit(s);
    NoStrayRun(s, es);
  }
}
