/**
The controller-to-DSP edit bridge of src/rack/rack_hosted_plugin.hpp, together
with the capture gate around getState.

The control thread runs the vendor's callbacks, services the bridge and
captures state; the DSP thread drains the ring and delivers.  One step per
atomic operation of either thread.  Vendor callbacks happen on the control
thread while it pumps messages, as the component handler requires.
 */
module EditBridge {
  import opened Wrappers
  import opened ParameterValues

  datatype Update = Update(id: ParamId, value: real)

  datatype Config = Config(catalog: seq<Parameter>, hasController: bool)

  const QUEUE_CAPACITY: nat := 1024

  // The value the processor is given for an edit of parameter `id`.
  function Norm(c: Config, id: ParamId, v: real): real {
    Normalized(c.catalog, id, v)
  }

  // ---------------------------------------------------------------- state

  datatype Control =
    | Pumping
    | EditPushed                              // enqueue_controller_edit, before the counter
    | Serving(forCapture: bool)               // service_component_handler_callbacks
    | Forcing(forCapture: bool)
    | Resyncing(forCapture: bool)
    | ResyncPushed(forCapture: bool)
    | CheckingFailed                          // synchronize_component_handler_state
    | ReadingSubmitted
    | ReadingApplied(submitted: nat)
    | CheckingForce(submitted: nat, applied: nat)
    | Synchronized                            // it returned true
    | GateRaised                              // capture_state, waiting for the DSP to leave
    | Capturing                               // getState
    | Lowering

  datatype Dsp =
    | Idle
    | Looked(process: bool)
    | Announced(process: bool)
    | BackingOff
    | Draining(process: bool, drained: nat, ok: bool)
    | Calling(drained: nat, ok: bool)
    | Counting(drained: nat, good: bool)
    | Flagging(good: bool)
    | Leaving

  datatype State = State(
    controller: map<ParamId, real>, unannounced: set<ParamId>,
    ring: seq<Update>, submitted: nat, applied: nat,
    force: bool, restartFlag: bool, failed: bool, resyncActive: bool, resyncIndex: nat,
    requested: bool, calls: int,
    pending: map<ParamId, real>, processor: map<ParamId, real>,
    control: Control, dsp: Dsp,
    lost: bool)

  datatype ControlEvent =
    // the vendor, inside the message pump
    | VendorSets(id: ParamId, value: real) | VendorEdits(id: ParamId, value: real) | VendorRestarts
    // the control thread
    | CountEdit | Serve | Capture | TakeFlags | TakeForce | Resync | CountResync
    | CheckFailed | ReadSubmitted | ReadApplied | CheckForce | Retry | SyncTimeOut
    | RaiseGate | SeeZero | GateTimeOut | Captured | LowerGate

  datatype DspEvent =
    | Approach(process: bool) | Announce | Look | BackOff | Pop(accepted: bool) | Drained
    | Deliver(success: bool, reached: bool) | CountDrained | Flag | Leave

  datatype Event = Control(move: ControlEvent) | Dsp(call: DspEvent)

  // ---------------------------------------------------------------- steps

  ghost predicate ControlEnabled(c: Config, s: State, e: ControlEvent) {
    match e
    case VendorSets(_, _) => s.control.Pumping? && c.hasController
    case VendorEdits(_, _) => s.control.Pumping? && c.hasController
    case VendorRestarts => s.control.Pumping? && c.hasController
    case CountEdit => s.control.EditPushed?
    case Serve => s.control.Pumping?
    case Capture => s.control.Pumping?
    case TakeFlags => s.control.Serving?
    case TakeForce => s.control.Forcing?
    case Resync => s.control.Resyncing?
    case CountResync => s.control.ResyncPushed?
    case CheckFailed => s.control.CheckingFailed?
    case ReadSubmitted => s.control.ReadingSubmitted?
    case ReadApplied => s.control.ReadingApplied?
    case CheckForce => s.control.CheckingForce? && Settled(s)
    case Retry => s.control.CheckingForce? && !Settled(s)
    case SyncTimeOut => s.control.CheckingForce? && !Settled(s)
    case RaiseGate => s.control.Synchronized?
    case SeeZero => s.control.GateRaised? && s.calls == 0
    case GateTimeOut => s.control.GateRaised?
    case Captured => s.control.Capturing?
    case LowerGate => s.control.Lowering?
  }

  // The condition on which synchronize_component_handler_state returns true.
  ghost predicate Settled(s: State)
    requires s.control.CheckingForce?
  {
    !s.resyncActive && !s.force && s.control.applied >= s.control.submitted
  }

  function AfterService(forCapture: bool): Control {
    if forCapture then CheckingFailed else Pumping
  }

  // The resync ends: nothing to copy from, or every catalog entry was queued.
  ghost predicate ResyncDone(c: Config, s: State) {
    s.resyncActive && (!c.hasController || s.resyncIndex >= |c.catalog|)
  }

  ghost predicate ResyncPushes(c: Config, s: State) {
    s.resyncActive && c.hasController && s.resyncIndex < |c.catalog| && |s.ring| < QUEUE_CAPACITY
  }

  ghost function ResyncStep(c: Config, s: State): State
    requires s.control.Resyncing?
  {
    s.(resyncActive := s.resyncActive && !ResyncDone(c, s),
       resyncIndex := if ResyncDone(c, s) then 0 else s.resyncIndex,
       ring := if ResyncPushes(c, s) then s.ring + [Snapshot(s.controller, c.catalog[s.resyncIndex].id)] else s.ring,
       control := if ResyncPushes(c, s) then ResyncPushed(s.control.forCapture) else AfterService(s.control.forCapture))
  }

  ghost function Snapshot(controller: map<ParamId, real>, id: ParamId): Update {
    Update(id, if id in controller then controller[id] else 0.0)
  }

  // performEdit: push, or ask for a full resync when the ring is full.
  ghost function EditStep(s: State, id: ParamId, v: real): State {
    s.(force := s.force || |s.ring| >= QUEUE_CAPACITY,
       ring := if |s.ring| >= QUEUE_CAPACITY then s.ring else s.ring + [Update(id, v)],
       control := if |s.ring| >= QUEUE_CAPACITY then s.control else EditPushed,
       unannounced := if |s.ring| >= QUEUE_CAPACITY || (id in s.controller && s.controller[id] == v)
                      then s.unannounced - {id} else s.unannounced + {id})
  }

  ghost function ControlStep(c: Config, s: State, e: ControlEvent): State
    requires ControlEnabled(c, s, e)
  {
    match e
    case VendorSets(id, v) => s.(controller := s.controller[id := v], unannounced := s.unannounced + {id})
    case VendorEdits(id, v) => EditStep(s, id, v)
    case VendorRestarts => s.(restartFlag := true, unannounced := {})
    case CountEdit => s.(submitted := s.submitted + 1, control := Pumping)
    case Serve => s.(control := Serving(false))
    case Capture => s.(control := Serving(true))
    case TakeFlags =>
      s.(restartFlag := false, force := s.force || s.restartFlag, control := Forcing(s.control.forCapture))
    case TakeForce =>
      s.(force := false, resyncActive := s.resyncActive || s.force,
         resyncIndex := if s.force then 0 else s.resyncIndex, control := Resyncing(s.control.forCapture))
    case Resync => ResyncStep(c, s)
    case CountResync =>
      s.(submitted := s.submitted + 1, resyncIndex := s.resyncIndex + 1,
         control := Resyncing(s.control.forCapture))
    case CheckFailed => s.(control := if s.failed then Pumping else ReadingSubmitted)
    case ReadSubmitted => s.(control := ReadingApplied(s.submitted))
    case ReadApplied => s.(control := CheckingForce(s.control.submitted, s.applied))
    case CheckForce => s.(control := Synchronized)
    case Retry => s.(control := Serving(true))
    case SyncTimeOut => s.(control := Pumping)
    case RaiseGate => s.(requested := true, control := GateRaised)
    case SeeZero => s.(control := Capturing)
    case GateTimeOut => s.(control := Lowering)
    case Captured => s.(control := Lowering)
    case LowerGate => s.(requested := false, control := Pumping)
  }

  ghost predicate DspEnabled(c: Config, s: State, e: DspEvent) {
    match e
    case Approach(_) => s.dsp.Idle?
    case Announce => s.dsp.Looked?
    case Look => s.dsp.Announced?
    case BackOff => s.dsp.BackingOff?
    case Pop(accepted) => s.dsp.Draining? && s.dsp.drained < QUEUE_CAPACITY && s.ring != []
      && (accepted ==> Catalogued(c.catalog, s.ring[0].id))
    case Drained => s.dsp.Draining? && (s.dsp.drained >= QUEUE_CAPACITY || s.ring == [])
    case Deliver(_, _) => s.dsp.Calling?
    case CountDrained => s.dsp.Counting?
    case Flag => s.dsp.Flagging?
    case Leave => s.dsp.Leaving?
  }

  // The processor's pending changes once `u` was queued: the last value of a parameter wins.
  ghost function Queued(c: Config, pending: map<ParamId, real>, u: Update): map<ParamId, real> {
    pending[u.id := Norm(c, u.id, u.value)]
  }

  // The processor's values once the pending changes went through a vendor call.
  ghost function Delivered(processor: map<ParamId, real>, pending: map<ParamId, real>): map<ParamId, real> {
    processor + pending
  }

  ghost function DspStep(c: Config, s: State, e: DspEvent): State
    requires DspEnabled(c, s, e)
  {
    match e
    case Approach(process) => s.(dsp := if s.requested then Idle else Looked(process))
    case Announce => s.(calls := s.calls + 1, dsp := Announced(s.dsp.process))
    case Look => s.(dsp := if s.requested then BackingOff else Draining(s.dsp.process, 0, true))
    case BackOff => s.(calls := s.calls - 1, dsp := Idle)
    case Pop(accepted) =>
      s.(ring := s.ring[1..], lost := s.lost || !accepted,
         pending := if accepted then Queued(c, s.pending, s.ring[0]) else s.pending,
         dsp := Draining(s.dsp.process, s.dsp.drained + 1, s.dsp.ok && accepted))
    case Drained =>
      s.(failed := s.failed || !s.dsp.ok,
         dsp := if !s.dsp.process && s.dsp.drained == 0 then Leaving else Calling(s.dsp.drained, s.dsp.ok))
    // A delivery may fail before or after the pending changes were consumed.
    case Deliver(success, reached) =>
      s.(processor := if success then Delivered(s.processor, s.pending) else s.processor,
         pending := if success || reached then map[] else s.pending, lost := s.lost || !success,
         dsp := Counting(s.dsp.drained, s.dsp.ok && success))
    case CountDrained => s.(applied := s.applied + s.dsp.drained, dsp := Flagging(s.dsp.good))
    case Flag => s.(failed := s.failed || !s.dsp.good, dsp := Leaving)
    case Leave => s.(calls := s.calls - 1, dsp := Idle)
  }

  ghost predicate Enabled(c: Config, s: State, e: Event) {
    match e
    case Control(move) => ControlEnabled(c, s, move)
    case Dsp(call) => DspEnabled(c, s, call)
  }

  ghost function Apply(c: Config, s: State, e: Event): State
    requires Enabled(c, s, e)
  {
    match e
    case Control(move) => ControlStep(c, s, move)
    case Dsp(call) => DspStep(c, s, call)
  }

  ghost predicate Runs(c: Config, s: State, es: seq<Event>)
    decreases |es|
  {
    es == [] || (Enabled(c, s, es[0]) && Runs(c, Apply(c, s, es[0]), es[1..]))
  }

  ghost function End(c: Config, s: State, es: seq<Event>): State
    requires Runs(c, s, es)
    decreases |es|
  {
    if es == [] then s else End(c, Apply(c, s, es[0]), es[1..])
  }

  // At open the bridge is reset; a parameter on which controller and processor
  // disagree at that moment has not been announced by the vendor.
  ghost predicate Init(c: Config, s: State) {
    && s.ring == [] && s.submitted == 0 && s.applied == 0
    && !s.force && !s.restartFlag && !s.failed && !s.resyncActive && s.resyncIndex == 0
    && !s.requested && s.calls == 0 && s.pending == map[] && s.control == Pumping && s.dsp == Idle && !s.lost
    && (forall j :: 0 <= j < |c.catalog| ==> c.catalog[j].id in s.controller)
    && (forall j :: 0 <= j < |c.catalog| && c.catalog[j].id !in s.unannounced ==> Agree(c, s, c.catalog[j].id))
  }

  // The processor has the controller's value of this parameter.
  ghost predicate Agree(c: Config, s: State, id: ParamId) {
    && id in s.controller
    && id in s.processor
    && Carries(c.catalog, id, s.controller[id], s.processor[id])
  }

  // ---------------------------------------------------------------- the invariant

  // The newest value queued for `id`.
  ghost function Newest(ring: seq<Update>, id: ParamId): Option<real> {
    if ring == [] then None
    else if ring[|ring| - 1].id == id then Some(ring[|ring| - 1].value)
    else Newest(ring[..|ring| - 1], id)
  }

  // The value the processor will have once everything queued is delivered.
  ghost function Effective(c: Config, ring: seq<Update>, pending: map<ParamId, real>,
                           processor: map<ParamId, real>, id: ParamId): Option<real>
  {
    match Newest(ring, id)
    case Some(v) => Some(Norm(c, id, v))
    case None =>
      if id in pending then Some(pending[id])
      else if id in processor then Some(processor[id]) else None
  }

  // A resync that will still visit catalog entry j is pending.
  ghost predicate Covered(s: State, j: nat) {
    s.force || s.restartFlag || (s.resyncActive && s.resyncIndex <= j)
  }

  ghost predicate UpToDateValue(c: Config, s: State, id: ParamId) {
    && id in s.controller
    && Effective(c, s.ring, s.pending, s.processor, id) == Some(Norm(c, id, s.controller[id]))
  }

  ghost predicate UpToDate(c: Config, s: State, j: nat)
    requires j < |c.catalog|
  {
    c.catalog[j].id in s.unannounced || Covered(s, j) || UpToDateValue(c, s, c.catalog[j].id)
  }

  ghost function InFlight(s: State): nat {
    match s.dsp
    case Draining(_, n, _) => n
    case Calling(n, _) => n
    case Counting(n, _) => n
    case _ => 0
  }

  ghost predicate CountersRight(s: State) {
    s.applied + InFlight(s) + |s.ring|
    == s.submitted + (if s.control.EditPushed? || s.control.ResyncPushed? then 1 else 0)
  }

  ghost predicate InsideCall(d: Dsp) {
    d.Draining? || d.Calling? || d.Counting? || d.Flagging? || d.Leaving?
  }

  ghost predicate GateRight(s: State) {
    && s.calls == (if s.dsp.Announced? || s.dsp.BackingOff? || InsideCall(s.dsp) then 1 else 0)
    && (s.requested <==> s.control.GateRaised? || s.control.Capturing? || s.control.Lowering?)
    && (s.control.Capturing? ==> !InsideCall(s.dsp))
  }

  // A failure the flag does not show yet is still in the hands of the DSP thread.
  ghost predicate FailuresRight(s: State) {
    && (s.failed ==> s.lost)
    && (s.lost && !s.failed ==>
         || (s.dsp.Draining? && !s.dsp.ok)
         || (s.dsp.Counting? && !s.dsp.good)
         || (s.dsp.Flagging? && !s.dsp.good))
    && (!s.lost && s.pending != map[] ==> InFlight(s) > 0 && !s.dsp.Counting?)
    && (!s.lost && (s.dsp.Draining? || s.dsp.Calling?) ==> s.dsp.ok)
    && (!s.lost && (s.dsp.Counting? || s.dsp.Flagging?) ==> s.dsp.good)
  }

  ghost predicate Quiescent(s: State) {
    !s.resyncActive && !s.force && !s.restartFlag && s.applied >= s.submitted
  }

  ghost predicate ControlRight(c: Config, s: State) {
    match s.control
    case ResyncPushed(_) =>
      && !s.force && !s.restartFlag && s.resyncActive && s.resyncIndex < |c.catalog|
      && (!s.lost ==> UpToDateValue(c, s, c.catalog[s.resyncIndex].id))
    case ReadingApplied(n) => n == s.submitted && !s.restartFlag
    case CheckingForce(n, a) => n == s.submitted && a <= s.applied && !s.restartFlag
    case CheckingFailed => !s.restartFlag
    case ReadingSubmitted => !s.restartFlag
    case Forcing(_) => !s.restartFlag
    case Resyncing(_) => !s.force && !s.restartFlag
    case Synchronized => Quiescent(s)
    case GateRaised => Quiescent(s)
    case Capturing => Quiescent(s)
    case _ => true
  }

  ghost predicate AllUpToDate(c: Config, s: State) {
    !s.lost ==> forall j :: 0 <= j < |c.catalog| ==> UpToDate(c, s, j)
  }

  // Without a controller there is nobody to edit, so nothing ever asks for a resync.
  ghost predicate ResyncsRight(c: Config, s: State) {
    !c.hasController ==> !s.force && !s.restartFlag && !s.resyncActive
  }

  ghost predicate Inv(c: Config, s: State) {
    && |s.ring| <= QUEUE_CAPACITY
    && ResyncsRight(c, s)
    && (forall j :: 0 <= j < |c.catalog| ==> c.catalog[j].id in s.controller)
    && CountersRight(s)
    && GateRight(s)
    && FailuresRight(s)
    && ControlRight(c, s)
    && AllUpToDate(c, s)
  }

  lemma AgreeIsNorm(c: Config, s: State, id: ParamId)
    requires Catalogued(c.catalog, id)
    ensures Agree(c, s, id) <==>
      id in s.controller && id in s.processor && s.processor[id] == Norm(c, id, s.controller[id])
  {
    if id in s.controller && id in s.processor {
      NormCarries(c.catalog, id, s.controller[id], s.processor[id]);
    }
  }

  lemma InvInit(c: Config, s: State)
    requires Init(c, s)
    ensures Inv(c, s)
  {
    hide Norm;
    forall j | 0 <= j < |c.catalog|
      ensures UpToDate(c, s, j)
    {
      if c.catalog[j].id !in s.unannounced { AgreeIsNorm(c, s, c.catalog[j].id); }
    }
  }

  lemma {:induction false} NewestPop(ring: seq<Update>, id: ParamId)
    requires ring != []
    ensures Newest(ring, id)
         == if Newest(ring[1..], id).Some? then Newest(ring[1..], id)
            else if ring[0].id == id then Some(ring[0].value) else None
  {
    if |ring| > 1 {
      NewestPop(ring[..|ring| - 1], id);
      assert ring[1..][..|ring[1..]| - 1] == ring[..|ring| - 1][1..];
    }
  }

  // ---------------------------------------------------------------- the DSP thread

  // Draining an update and delivering the pending ones leave every effective value where it was.
  lemma EffectiveAfterPop(c: Config, ring: seq<Update>, pending: map<ParamId, real>,
                          processor: map<ParamId, real>, id: ParamId)
    requires ring != []
    ensures Effective(c, ring[1..], Queued(c, pending, ring[0]), processor, id)
         == Effective(c, ring, pending, processor, id)
  {
    hide Norm, Newest;
    NewestPop(ring, id);
  }

  lemma EffectiveAfterDelivery(c: Config, ring: seq<Update>, pending: map<ParamId, real>,
                               processor: map<ParamId, real>, id: ParamId)
    ensures Effective(c, ring, map[], Delivered(processor, pending), id) == Effective(c, ring, pending, processor, id)
  {
    hide Norm, Newest;
  }

  lemma EffectiveKept(c: Config, s: State, e: DspEvent, id: ParamId)
    requires DspEnabled(c, s, e) && !DspStep(c, s, e).lost
    ensures var t := DspStep(c, s, e);
            Effective(c, t.ring, t.pending, t.processor, id) == Effective(c, s.ring, s.pending, s.processor, id)
  {
    hide Norm, Effective, Newest, Catalogued;
    if e.Pop? {
      EffectiveAfterPop(c, s.ring, s.pending, s.processor, id);
    } else if e.Deliver? {
      EffectiveAfterDelivery(c, s.ring, s.pending, s.processor, id);
    }
  }

  lemma UpToDateValueKept(c: Config, s: State, e: DspEvent, id: ParamId)
    requires DspEnabled(c, s, e) && !DspStep(c, s, e).lost
    requires UpToDateValue(c, s, id)
    ensures UpToDateValue(c, DspStep(c, s, e), id)
  {
    hide Norm, Effective, Newest, Catalogued;
    EffectiveKept(c, s, e, id);
  }

  // What the DSP thread never changes, and what it changes one way only.
  ghost predicate ControlSideKept(s: State, t: State) {
    && t.controller == s.controller && t.unannounced == s.unannounced && t.submitted == s.submitted
    && t.force == s.force && t.restartFlag == s.restartFlag && t.resyncActive == s.resyncActive
    && t.resyncIndex == s.resyncIndex && t.requested == s.requested && t.control == s.control
    && s.applied <= t.applied && (s.lost ==> t.lost) && |t.ring| <= |s.ring|
  }

  lemma DspSharedFields(c: Config, s: State, e: DspEvent)
    requires DspEnabled(c, s, e)
    ensures ControlSideKept(s, DspStep(c, s, e))
  {
    hide Norm, Catalogued, Queued, Delivered;
    match e
    case Approach(_) | Announce | Look | BackOff | Pop(_) | Drained | Deliver(_, _) | CountDrained | Flag
       | Leave =>
  }

  lemma DspAllUpToDate(c: Config, s: State, e: DspEvent)
    requires AllUpToDate(c, s) && DspEnabled(c, s, e)
    ensures AllUpToDate(c, DspStep(c, s, e))
  {
    hide UpToDateValue, DspStep, DspEnabled;
    DspSharedFields(c, s, e);
    var t := DspStep(c, s, e);
    if !t.lost {
      forall j | 0 <= j < |c.catalog|
        ensures UpToDate(c, t, j)
      {
        assert UpToDate(c, s, j);
        if UpToDateValue(c, s, c.catalog[j].id) {
          UpToDateValueKept(c, s, e, c.catalog[j].id);
        }
      }
    }
  }

  lemma DspControlRight(c: Config, s: State, e: DspEvent)
    requires ControlRight(c, s) && DspEnabled(c, s, e)
    ensures ControlRight(c, DspStep(c, s, e))
  {
    hide UpToDateValue, DspStep, DspEnabled;
    DspSharedFields(c, s, e);
    if s.control.ResyncPushed? && !DspStep(c, s, e).lost {
      UpToDateValueKept(c, s, e, c.catalog[s.resyncIndex].id);
    }
  }

  lemma DspCounters(c: Config, s: State, e: DspEvent)
    requires CountersRight(s) && GateRight(s) && DspEnabled(c, s, e)
    ensures CountersRight(DspStep(c, s, e)) && GateRight(DspStep(c, s, e))
  {
    hide Norm, Catalogued;
  }

  lemma DspFailures(c: Config, s: State, e: DspEvent)
    requires FailuresRight(s) && DspEnabled(c, s, e)
    ensures FailuresRight(DspStep(c, s, e))
  {
    hide Norm, Catalogued;
  }

  lemma InvDsp(c: Config, s: State, e: DspEvent)
    requires Inv(c, s) && DspEnabled(c, s, e)
    ensures Inv(c, DspStep(c, s, e))
  {
    hide DspStep, DspEnabled, ControlRight, AllUpToDate, CountersRight, GateRight, FailuresRight;
    DspSharedFields(c, s, e);
    DspAllUpToDate(c, s, e);
    DspControlRight(c, s, e);
    DspCounters(c, s, e);
    DspFailures(c, s, e);
  }

  // ---------------------------------------------------------------- the control thread

  lemma EffectiveAfterPush(c: Config, ring: seq<Update>, u: Update, pending: map<ParamId, real>,
                           processor: map<ParamId, real>, id: ParamId)
    ensures Effective(c, ring + [u], pending, processor, id)
         == if u.id == id then Some(Norm(c, id, u.value)) else Effective(c, ring, pending, processor, id)
  {
    hide Norm;
    assert (ring + [u])[..|ring|] == ring;
  }

  // The fields the DSP thread owns are untouched by the control thread.
  ghost predicate DspSideKept(s: State, t: State) {
    && t.applied == s.applied && t.failed == s.failed && t.calls == s.calls && t.lost == s.lost
    && t.pending == s.pending && t.processor == s.processor && t.dsp == s.dsp
  }

  lemma ControlSharedFields(c: Config, s: State, e: ControlEvent)
    requires ControlEnabled(c, s, e)
    ensures DspSideKept(s, ControlStep(c, s, e))
  {
    match e
    case VendorSets(_, _) | VendorEdits(_, _) | VendorRestarts | CountEdit | Serve | Capture | TakeFlags
       | TakeForce | Resync | CountResync | CheckFailed | ReadSubmitted | ReadApplied | CheckForce | Retry
       | SyncTimeOut | RaiseGate | SeeZero | GateTimeOut | Captured | LowerGate =>
  }

  // An update carrying the controller's value settles its parameter and disturbs no other.
  lemma ValueAfterPush(c: Config, s: State, t: State, u: Update, id: ParamId)
    requires t.ring == s.ring + [u] && t.controller == s.controller && DspSideKept(s, t)
    requires UpToDateValue(c, s, id) || u.id == id
    requires u.id == id ==> id in s.controller && u.value == s.controller[id]
    ensures UpToDateValue(c, t, id)
  {
    hide Norm, Effective;
    EffectiveAfterPush(c, s.ring, u, s.pending, s.processor, id);
  }

  lemma VendorUpToDate(c: Config, s: State, e: ControlEvent, j: nat)
    requires ControlEnabled(c, s, e) && (e.VendorSets? || e.VendorEdits?)
    requires j < |c.catalog| && UpToDate(c, s, j)
    requires forall k :: 0 <= k < |c.catalog| ==> c.catalog[k].id in s.controller
    ensures UpToDate(c, ControlStep(c, s, e), j)
  {
    hide Norm, Effective;
    var t, id := ControlStep(c, s, e), c.catalog[j].id;
    ControlSharedFields(c, s, e);
    if e.VendorEdits? && |s.ring| < QUEUE_CAPACITY && id !in t.unannounced && !Covered(s, j) {
      ValueAfterPush(c, s, t, Update(e.id, e.value), id);
    }
  }

  lemma ResyncUpToDate(c: Config, s: State, j: nat)
    requires s.control.Resyncing? && !s.force && !s.restartFlag && ResyncsRight(c, s)
    requires j < |c.catalog| && UpToDate(c, s, j)
    requires forall k :: 0 <= k < |c.catalog| ==> c.catalog[k].id in s.controller
    ensures UpToDate(c, ResyncStep(c, s), j)
  {
    hide Norm, Effective;
    var t, id := ResyncStep(c, s), c.catalog[j].id;
    ControlSharedFields(c, s, ControlEvent.Resync);
    if ResyncPushes(c, s) && UpToDateValue(c, s, id) {
      ValueAfterPush(c, s, t, Snapshot(s.controller, c.catalog[s.resyncIndex].id), id);
    }
  }

  lemma ResyncSettles(c: Config, s: State)
    requires s.control.Resyncing? && ResyncPushes(c, s)
    requires forall k :: 0 <= k < |c.catalog| ==> c.catalog[k].id in s.controller
    ensures UpToDateValue(c, ResyncStep(c, s), c.catalog[s.resyncIndex].id)
  {
    hide Norm, Effective;
    ControlSharedFields(c, s, ControlEvent.Resync);
    var id := c.catalog[s.resyncIndex].id;
    ValueAfterPush(c, s, ResyncStep(c, s), Snapshot(s.controller, id), id);
  }

  lemma ControlUpToDate(c: Config, s: State, e: ControlEvent, j: nat)
    requires Inv(c, s) && ControlEnabled(c, s, e) && !s.lost && j < |c.catalog|
    ensures UpToDate(c, ControlStep(c, s, e), j)
  {
    hide Norm, Effective, CountersRight, GateRight, FailuresRight, ResyncStep, EditStep, Settled;
    assert UpToDate(c, s, j);
    ControlSharedFields(c, s, e);
    match e
    case VendorSets(_, _) => VendorUpToDate(c, s, e, j);
    case VendorEdits(_, _) => VendorUpToDate(c, s, e, j);
    case VendorRestarts | CountEdit | Serve | Capture | TakeFlags | TakeForce =>
    case Resync => ResyncUpToDate(c, s, j);
    case CountResync | CheckFailed | ReadSubmitted | ReadApplied | CheckForce | Retry | SyncTimeOut
       | RaiseGate | SeeZero | GateTimeOut | Captured | LowerGate =>
  }

  lemma ControlControlRight(c: Config, s: State, e: ControlEvent)
    requires Inv(c, s) && ControlEnabled(c, s, e)
    ensures ControlRight(c, ControlStep(c, s, e))
  {
    hide Norm, Effective, AllUpToDate, UpToDateValue, CountersRight, GateRight, FailuresRight;
    match e
    case VendorSets(_, _) | VendorEdits(_, _) | VendorRestarts | CountEdit | Serve | Capture | TakeFlags
       | TakeForce =>
    case Resync =>
      if ResyncPushes(c, s) { ResyncSettles(c, s); }
    case CountResync | CheckFailed | ReadSubmitted | ReadApplied | CheckForce | Retry | SyncTimeOut
       | RaiseGate | SeeZero | GateTimeOut | Captured | LowerGate =>
  }

  lemma ControlCounters(c: Config, s: State, e: ControlEvent)
    requires Inv(c, s) && ControlEnabled(c, s, e)
    ensures var t := ControlStep(c, s, e); |t.ring| <= QUEUE_CAPACITY && CountersRight(t) && ResyncsRight(c, t)
  {
    hide Norm, Effective, AllUpToDate, UpToDateValue, GateRight, FailuresRight;
    match e
    case VendorSets(_, _) | VendorEdits(_, _) | VendorRestarts | CountEdit | Serve | Capture | TakeFlags
       | TakeForce | Resync | CountResync | CheckFailed | ReadSubmitted | ReadApplied | CheckForce | Retry
       | SyncTimeOut | RaiseGate | SeeZero | GateTimeOut | Captured | LowerGate =>
  }

  lemma ControlGate(c: Config, s: State, e: ControlEvent)
    requires GateRight(s) && ControlEnabled(c, s, e)
    ensures GateRight(ControlStep(c, s, e))
  {
    hide Settled;
    match e
    case VendorSets(_, _) | VendorEdits(_, _) | VendorRestarts | CountEdit | Serve | Capture | TakeFlags
       | TakeForce | Resync | CountResync | CheckFailed | ReadSubmitted | ReadApplied | CheckForce | Retry
       | SyncTimeOut | RaiseGate | SeeZero | GateTimeOut | Captured | LowerGate =>
  }

  lemma ControlCatalogKnown(c: Config, s: State, e: ControlEvent, id: ParamId)
    requires ControlEnabled(c, s, e) && id in s.controller
    ensures id in ControlStep(c, s, e).controller
  {
    hide Settled;
    match e
    case VendorSets(_, _) | VendorEdits(_, _) | VendorRestarts | CountEdit | Serve | Capture | TakeFlags
       | TakeForce | Resync | CountResync | CheckFailed | ReadSubmitted | ReadApplied | CheckForce | Retry
       | SyncTimeOut | RaiseGate | SeeZero | GateTimeOut | Captured | LowerGate =>
  }

  lemma InvControl(c: Config, s: State, e: ControlEvent)
    requires Inv(c, s) && ControlEnabled(c, s, e)
    ensures Inv(c, ControlStep(c, s, e))
  {
    hide ControlStep, ControlEnabled, ControlRight, UpToDate, CountersRight, GateRight;
    ControlSharedFields(c, s, e);
    ControlControlRight(c, s, e);
    ControlCounters(c, s, e);
    ControlGate(c, s, e);
    forall j | 0 <= j < |c.catalog|
      ensures c.catalog[j].id in ControlStep(c, s, e).controller
    {
      ControlCatalogKnown(c, s, e, c.catalog[j].id);
    }
    if !s.lost {
      forall j | 0 <= j < |c.catalog|
        ensures UpToDate(c, ControlStep(c, s, e), j)
      {
        ControlUpToDate(c, s, e, j);
      }
    }
  }

  lemma {:induction false} InvRun(c: Config, s: State, es: seq<Event>)
    requires Inv(c, s) && Runs(c, s, es)
    ensures Inv(c, End(c, s, es))
    decreases |es|
  {
    hide Inv, ControlStep, ControlEnabled, DspStep, DspEnabled;
    if es != [] {
      match es[0] {
        case Control(move) => InvControl(c, s, move);
        case Dsp(call) => InvDsp(c, s, call);
      }
      InvRun(c, Apply(c, s, es[0]), es[1..]);
    }
  }

  // ---------------------------------------------------------------- convergence

  // Every parameter the vendor announced has the same value on both sides: the
  // controller's own if it is continuous, the nearest step if it is stepped.
  ghost predicate Converged(c: Config, s: State) {
    forall j: nat :: First(c.catalog, j) && c.catalog[j].id !in s.unannounced ==>
      var id := c.catalog[j].id;
      id in s.controller && id in s.processor && Nearest(c.catalog[j].stepCount, s.controller[id], s.processor[id])
  }

  // From the moment synchronization returned true until getState ended.
  ghost predicate Synced(s: State) {
    s.control.Synchronized? || s.control.GateRaised? || s.control.Capturing?
  }

  lemma SettledBridgeIsEmpty(c: Config, s: State)
    requires Inv(c, s) && Synced(s)
    ensures s.ring == [] && InFlight(s) == 0
    ensures !s.lost ==> s.pending == map[]
  {
    hide AllUpToDate, UpToDateValue;
  }

  lemma NormIsNearest(c: Config, j: nat, v: real)
    requires First(c.catalog, j)
    ensures Nearest(c.catalog[j].stepCount, v, Norm(c, c.catalog[j].id, v))
  {
    hide Nearest, Normalize;
    FindIsFirst(c.catalog, j);
    NormalizeIsNearest(v, c.catalog[j].stepCount);
  }

  lemma SettledBridgeConverged(c: Config, s: State)
    requires Inv(c, s) && Synced(s) && !s.lost
    ensures Converged(c, s)
  {
    hide Norm, Nearest, CountersRight, GateRight, FailuresRight;
    SettledBridgeIsEmpty(c, s);
    forall j: nat | First(c.catalog, j) && c.catalog[j].id !in s.unannounced
      ensures var id := c.catalog[j].id;
              id in s.controller && id in s.processor && Nearest(c.catalog[j].stepCount, s.controller[id], s.processor[id])
    {
      assert UpToDate(c, s, j);
      NormIsNearest(c, j, s.controller[c.catalog[j].id]);
    }
  }

  // Once synchronization returned true, every announced parameter has crossed
  // to the processor, unless a delivery has failed on the way.
  lemma SynchronizedConverges(c: Config, s: State, es: seq<Event>)
    requires Init(c, s) && Runs(c, s, es)
    ensures var t := End(c, s, es);
            Synced(t) ==> t.ring == [] && InFlight(t) == 0 && (!t.lost ==> Converged(c, t))
  {
    hide Inv, Init, Runs, Synced, Converged, InFlight;
    InvInit(c, s);
    InvRun(c, s, es);
    var t := End(c, s, es);
    if Synced(t) {
      SettledBridgeIsEmpty(c, t);
      if !t.lost { SettledBridgeConverged(c, t); }
    }
  }

  // While getState runs no vendor call runs, the failure flag tells exactly
  // whether a delivery ever failed, and a clear flag means both sides agree.
  lemma CaptureIsFaithful(c: Config, s: State, es: seq<Event>)
    requires Init(c, s) && Runs(c, s, es) && End(c, s, es).control.Capturing?
    ensures var t := End(c, s, es);
            !InsideCall(t.dsp) && (t.failed <==> t.lost) && (!t.failed ==> Converged(c, t))
  {
    hide Init, Runs, Converged, Agree, AllUpToDate, ControlRight, CountersRight;
    InvInit(c, s);
    InvRun(c, s, es);
    var t := End(c, s, es);
    if !t.lost { SettledBridgeConverged(c, t); }
  }

  // The failure flag is looked at before the counters.
  ghost predicate BeforeTheLook(d: Control) {
    d.Pumping? || d.EditPushed? || d.Serving? || d.Forcing? || d.Resyncing? || d.ResyncPushed? || d.CheckingFailed?
  }

  lemma ControlStaysBefore(c: Config, s: State, e: ControlEvent)
    requires s.failed && BeforeTheLook(s.control) && ControlEnabled(c, s, e)
    ensures ControlStep(c, s, e).failed && BeforeTheLook(ControlStep(c, s, e).control)
  {
    hide ResyncDone, ResyncPushes, Snapshot;
    match e
    case VendorSets(_, _) | VendorEdits(_, _) | VendorRestarts | CountEdit | Serve | Capture | TakeFlags | TakeForce =>
    case Resync | CountResync | CheckFailed | ReadSubmitted | ReadApplied | CheckForce | Retry | SyncTimeOut =>
    case RaiseGate | SeeZero | GateTimeOut | Captured | LowerGate =>
  }

  lemma DspStaysBefore(c: Config, s: State, e: DspEvent)
    requires s.failed && DspEnabled(c, s, e)
    ensures DspStep(c, s, e).failed && DspStep(c, s, e).control == s.control
  {
    hide Queued, Delivered, Catalogued;
    match e
    case Approach(_) | Announce | Look | BackOff | Pop(_) | Drained | Deliver(_, _) | CountDrained | Flag | Leave =>
  }

  lemma FailureStaysBefore(c: Config, s: State, e: Event)
    requires s.failed && BeforeTheLook(s.control) && Enabled(c, s, e)
    ensures Apply(c, s, e).failed && BeforeTheLook(Apply(c, s, e).control)
  {
    match e
    case Control(move) => ControlStaysBefore(c, s, move);
    case Dsp(call) => DspStaysBefore(c, s, call);
  }

  // Once the flag is up, no synchronization that has not yet looked at it ever
  // returns true, and nothing takes the flag down.
  lemma {:induction false} FailureBlocksEveryCapture(c: Config, s: State, es: seq<Event>)
    requires s.failed && BeforeTheLook(s.control) && Runs(c, s, es)
    ensures End(c, s, es).failed && !Synced(End(c, s, es))
    decreases |es|
  {
    hide Enabled, Apply;
    if es != [] {
      FailureStaysBefore(c, s, es[0]);
      FailureBlocksEveryCapture(c, Apply(c, s, es[0]), es[1..]);
    }
  }

  // ---------------------------------------------------------------- runs, piece by piece

  lemma {:induction false} RunsConcat(c: Config, s: State, es: seq<Event>, fs: seq<Event>)
    requires Runs(c, s, es) && Runs(c, End(c, s, es), fs)
    ensures Runs(c, s, es + fs) && End(c, s, es + fs) == End(c, End(c, s, es), fs)
    decreases |es|
  {
    hide Enabled, Apply;
    if es == [] {
      assert es + fs == fs;
    } else {
      assert (es + fs)[1..] == es[1..] + fs;
      RunsConcat(c, Apply(c, s, es[0]), es[1..], fs);
    }
  }

  ghost predicate Steps(c: Config, s: State, e: Event, t: State) {
    Enabled(c, s, e) && Apply(c, s, e) == t
  }

  // The states a run goes through.
  ghost predicate Trace(c: Config, states: seq<State>, es: seq<Event>) {
    |states| == |es| + 1 && forall k :: 0 <= k < |es| ==> Steps(c, states[k], es[k], states[k + 1])
  }

  lemma {:induction false} TraceRuns(c: Config, states: seq<State>, es: seq<Event>)
    requires Trace(c, states, es)
    ensures Runs(c, states[0], es) && End(c, states[0], es) == states[|es|]
    decreases |es|
  {
    hide Enabled, Apply;
    if es != [] {
      assert forall k :: 0 <= k < |es[1..]| ==> es[1..][k] == es[k + 1] && states[1..][k] == states[k + 1];
      TraceRuns(c, states[1..], es[1..]);
    }
  }

  // The vendor announces one edit of `id`.
  function AnnouncedEdit(id: ParamId, v: real): seq<Event> {
    [Control(VendorSets(id, v)), Control(VendorEdits(id, v)), Control(CountEdit)]
  }

  // Synchronization starts and gets past the failure check.
  const STARTED_SYNC: seq<Event> :=
    [Control(Capture), Control(TakeFlags), Control(TakeForce), Control(Resync), Control(CheckFailed)]

  // The DSP thread enters, takes the edit, fails to deliver it, and counts it as
  // applied before it raises the failure flag.
  const ENTERED: seq<Event> := [Dsp(Approach(true)), Dsp(Announce), Dsp(Look)]

  const FAILED_DELIVERY: seq<Event> := [Dsp(Pop(true)), Dsp(Drained), Dsp(Deliver(false, true)), Dsp(CountDrained)]

  const MATCHED_COUNTERS: seq<Event> := [Control(ReadSubmitted), Control(ReadApplied), Control(CheckForce)]

  const CAPTURE_AFTER_FLAG: seq<Event> := [Dsp(Flag), Dsp(Leave), Control(RaiseGate), Control(SeeZero)]

  ghost function AfterEdit(s: State, id: ParamId, v: real): State {
    s.(controller := s.controller[id := v], unannounced := s.unannounced - {id}, ring := [Update(id, v)],
       submitted := s.submitted + 1)
  }

  lemma EditSteps(c: Config, s: State, id: ParamId, v: real, unannounced: set<ParamId>)
    requires s.control.Pumping? && s.ring == [] && c.hasController && id in s.controller && s.controller[id] == v
    requires unannounced == s.unannounced - {id}
    ensures Steps(c, s, Control(VendorEdits(id, v)),
                  s.(ring := [Update(id, v)], control := EditPushed, unannounced := unannounced))
  {
    assert [] + [Update(id, v)] == [Update(id, v)];
  }

  lemma AnnouncedEditRuns(c: Config, s: State, id: ParamId, v: real)
    requires s.control.Pumping? && s.ring == [] && c.hasController
    ensures Runs(c, s, AnnouncedEdit(id, v)) && End(c, s, AnnouncedEdit(id, v)) == AfterEdit(s, id, v)
  {
    hide Runs, End, EditStep;
    var unannounced := s.unannounced - {id};
    var s1 := s.(controller := s.controller[id := v], unannounced := s.unannounced + {id});
    var s2 := s1.(ring := [Update(id, v)], control := EditPushed, unannounced := unannounced);
    assert (s.unannounced + {id}) - {id} == unannounced;
    assert Steps(c, s, Control(VendorSets(id, v)), s1);
    EditSteps(c, s1, id, v, unannounced);
    assert Steps(c, s2, Control(CountEdit), AfterEdit(s, id, v));
    hide Steps;
    TraceRuns(c, [s, s1, s2, AfterEdit(s, id, v)], AnnouncedEdit(id, v));
  }

  lemma StartedSyncRuns(c: Config, s: State)
    requires s.control.Pumping? && !s.force && !s.restartFlag && !s.resyncActive && !s.failed
    ensures Runs(c, s, STARTED_SYNC) && End(c, s, STARTED_SYNC) == s.(control := ReadingSubmitted)
  {
    hide Runs, End;
    var states := [s, s.(control := Serving(true)), s.(control := Forcing(true)), s.(control := Resyncing(true)),
                   s.(control := CheckingFailed), s.(control := ReadingSubmitted)];
    TraceRuns(c, states, STARTED_SYNC);
  }

  lemma EnteredRuns(c: Config, s: State)
    requires s.dsp.Idle? && !s.requested
    ensures Runs(c, s, ENTERED)
    ensures End(c, s, ENTERED) == s.(calls := s.calls + 1, dsp := Draining(true, 0, true))
  {
    hide Runs, End;
    var states := [s, s.(dsp := Looked(true)), s.(calls := s.calls + 1, dsp := Announced(true)),
                   s.(calls := s.calls + 1, dsp := Draining(true, 0, true))];
    TraceRuns(c, states, ENTERED);
  }

  // The only waiting edit was lost, and the flag does not show it yet.
  ghost function AfterFailure(s: State): State {
    s.(ring := [], pending := map[], lost := true, applied := s.applied + 1, dsp := Flagging(false))
  }

  lemma FailedDeliveryRuns(c: Config, s: State)
    requires s.dsp == Draining(true, 0, true) && !s.failed && |s.ring| == 1 && Catalogued(c.catalog, s.ring[0].id)
    ensures Runs(c, s, FAILED_DELIVERY) && End(c, s, FAILED_DELIVERY) == AfterFailure(s)
  {
    hide Runs, End, Catalogued, Queued, Delivered;
    var s1 := s.(ring := [], pending := Queued(c, s.pending, s.ring[0]), dsp := Draining(true, 1, true));
    var s2 := s1.(dsp := Calling(1, true));
    var s3 := s.(ring := [], pending := map[], lost := true, dsp := Counting(1, false));
    assert s.ring[1..] == [];
    assert Steps(c, s, Dsp(Pop(true)), s1);
    assert Steps(c, s1, Dsp(Drained), s2);
    assert Steps(c, s2, Dsp(Deliver(false, true)), s3);
    assert Steps(c, s3, Dsp(CountDrained), AfterFailure(s));
    hide Steps;
    TraceRuns(c, [s, s1, s2, s3, AfterFailure(s)], FAILED_DELIVERY);
  }

  lemma MatchedCountersRuns(c: Config, s: State)
    requires s.control.ReadingSubmitted? && s.applied >= s.submitted && !s.force && !s.resyncActive
    ensures Runs(c, s, MATCHED_COUNTERS) && End(c, s, MATCHED_COUNTERS) == s.(control := Synchronized)
  {
    hide Runs, End;
    var states := [s, s.(control := ReadingApplied(s.submitted)),
                   s.(control := CheckingForce(s.submitted, s.applied)), s.(control := Synchronized)];
    TraceRuns(c, states, MATCHED_COUNTERS);
  }

  lemma CaptureAfterFlagRuns(c: Config, s: State)
    requires s.control.Synchronized? && s.dsp == Flagging(false) && s.calls == 1
    ensures Runs(c, s, CAPTURE_AFTER_FLAG)
    ensures End(c, s, CAPTURE_AFTER_FLAG)
         == s.(failed := true, calls := 0, requested := true, dsp := Idle, control := Capturing)
  {
    hide Runs, End;
    hide Settled;
    var s2 := s.(failed := true, calls := 0, dsp := Idle);
    var states := [s, s.(failed := true, dsp := Leaving), s2, s2.(requested := true, control := GateRaised),
                   s2.(requested := true, control := Capturing)];
    assert Steps(c, s, Dsp(Flag), states[1]) && Steps(c, states[1], Dsp(Leave), s2);
    assert Steps(c, s2, Control(RaiseGate), states[3]) && Steps(c, states[3], Control(SeeZero), states[4]);
    hide Steps;
    TraceRuns(c, states, CAPTURE_AFTER_FLAG);
  }

  // ---------------------------------------------------------------- and what an undisturbed edit comes to

  const DELIVERED: seq<Event> := [Dsp(Pop(true)), Dsp(Drained), Dsp(Deliver(true, true))]

  const LEFT: seq<Event> := [Dsp(CountDrained), Dsp(Flag), Dsp(Leave)]

  const ENTERED_CAPTURE: seq<Event> := [Control(RaiseGate), Control(SeeZero)]

  ghost function AfterDelivery(c: Config, s: State): State
    requires |s.ring| == 1
  {
    s.(ring := [], dsp := Counting(1, true),
       processor := s.processor + map[s.ring[0].id := Norm(c, s.ring[0].id, s.ring[0].value)])
  }

  lemma DeliveredRuns(c: Config, s: State)
    requires s.dsp == Draining(true, 0, true) && |s.ring| == 1 && s.pending == map[] && Catalogued(c.catalog, s.ring[0].id)
    ensures Runs(c, s, DELIVERED) && End(c, s, DELIVERED) == AfterDelivery(c, s)
  {
    hide Runs, End, Catalogued, Norm;
    var u := s.ring[0];
    var s1 := s.(ring := [], pending := map[u.id := Norm(c, u.id, u.value)], dsp := Draining(true, 1, true));
    var s2 := s1.(dsp := Calling(1, true));
    assert s.ring[1..] == [] && s.pending[u.id := Norm(c, u.id, u.value)] == s1.pending;
    assert Steps(c, s, Dsp(Pop(true)), s1);
    assert Steps(c, s1, Dsp(Drained), s2);
    assert Steps(c, s2, Dsp(Deliver(true, true)), AfterDelivery(c, s));
    hide Steps;
    TraceRuns(c, [s, s1, s2, AfterDelivery(c, s)], DELIVERED);
  }

  lemma CountStep(c: Config, s: State)
    requires s.dsp == Counting(1, true)
    ensures Steps(c, s, Dsp(CountDrained), s.(applied := s.applied + 1, dsp := Flagging(true)))
  {
  }

  lemma FlagStep(c: Config, s: State)
    requires s.dsp == Flagging(true)
    ensures Steps(c, s, Dsp(Flag), s.(dsp := Leaving))
  {
  }

  lemma LeaveStep(c: Config, s: State)
    requires s.dsp == Leaving
    ensures Steps(c, s, Dsp(Leave), s.(calls := s.calls - 1, dsp := Idle))
  {
  }

  lemma LeftRuns(c: Config, s: State)
    requires s.dsp == Counting(1, true)
    ensures Runs(c, s, LEFT) && End(c, s, LEFT) == s.(applied := s.applied + 1, calls := s.calls - 1, dsp := Idle)
  {
    hide Runs, End, Steps, Enabled, Apply;
    var s1 := s.(applied := s.applied + 1, dsp := Flagging(true));
    var s3 := s.(applied := s.applied + 1, calls := s.calls - 1, dsp := Idle);
    CountStep(c, s);
    FlagStep(c, s1);
    LeaveStep(c, s1.(dsp := Leaving));
    TraceRuns(c, [s, s1, s1.(dsp := Leaving), s3], LEFT);
  }

  lemma EnteredCaptureRuns(c: Config, s: State)
    requires s.control.Synchronized? && s.calls == 0
    ensures Runs(c, s, ENTERED_CAPTURE)
    ensures End(c, s, ENTERED_CAPTURE) == s.(requested := true, control := Capturing)
  {
    hide Runs, End;
    TraceRuns(c, [s, s.(requested := true, control := GateRaised), s.(requested := true, control := Capturing)],
              ENTERED_CAPTURE);
  }

  function CapturedEdit(id: ParamId, v: real): seq<Event> {
    AnnouncedEdit(id, v) + ENTERED + DELIVERED + LEFT + STARTED_SYNC + MATCHED_COUNTERS + ENTERED_CAPTURE
  }

  lemma NormIsCarried(c: Config, id: ParamId, v: real)
    requires Catalogued(c.catalog, id)
    ensures Carries(c.catalog, id, v, Norm(c, id, v))
  {
    NormCarries(c.catalog, id, v, Norm(c, id, v));
  }

  // From every fresh bridge an announced edit that nothing disturbs is in the
  // processor, as what it comes to, when getState runs.
  lemma UndisturbedEditIsCaptured(c: Config, s: State, id: ParamId, v: real)
    requires Init(c, s) && c.hasController && Catalogued(c.catalog, id)
    ensures Runs(c, s, CapturedEdit(id, v))
    ensures var t := End(c, s, CapturedEdit(id, v));
            && t.control.Capturing? && !t.failed && id in t.controller && t.controller[id] == v
            && id in t.processor && Carries(c.catalog, id, v, t.processor[id])
  {
    hide Runs, End, Norm, Enabled, Apply, Catalogued, Carries, Agree;
    var run := AnnouncedEdit(id, v);
    AnnouncedEditRuns(c, s, id, v);
    var s1 := AfterEdit(s, id, v);
    EnteredRuns(c, s1);
    RunsConcat(c, s, run, ENTERED);
    var s2 := s1.(calls := s1.calls + 1, dsp := Draining(true, 0, true));
    DeliveredRuns(c, s2);
    RunsConcat(c, s, run + ENTERED, DELIVERED);
    var s3 := AfterDelivery(c, s2);
    LeftRuns(c, s3);
    RunsConcat(c, s, run + ENTERED + DELIVERED, LEFT);
    var s4 := s3.(applied := s3.applied + 1, calls := s3.calls - 1, dsp := Idle);
    StartedSyncRuns(c, s4);
    RunsConcat(c, s, run + ENTERED + DELIVERED + LEFT, STARTED_SYNC);
    var s5 := s4.(control := ReadingSubmitted);
    MatchedCountersRuns(c, s5);
    RunsConcat(c, s, run + ENTERED + DELIVERED + LEFT + STARTED_SYNC, MATCHED_COUNTERS);
    EnteredCaptureRuns(c, s5.(control := Synchronized));
    RunsConcat(c, s, run + ENTERED + DELIVERED + LEFT + STARTED_SYNC + MATCHED_COUNTERS, ENTERED_CAPTURE);
    NormIsCarried(c, id, v);
  }

  ghost predicate KnowsCatalog(c: Config, controller: map<ParamId, real>) {
    forall j :: 0 <= j < |c.catalog| ==> c.catalog[j].id in controller
  }

  // The controller's values of k catalog entries from `first` on.
  ghost function Values(c: Config, controller: map<ParamId, real>, first: nat, k: nat): seq<Update>
    requires first + k <= |c.catalog| && KnowsCatalog(c, controller)
  {
    seq(k, i requires 0 <= i < k => Update(c.catalog[first + i].id, controller[c.catalog[first + i].id]))
  }

  function ResyncPushing(k: nat): seq<Event> {
    if k == 0 then [] else [Control(Resync), Control(CountResync)] + ResyncPushing(k - 1)
  }

  lemma ValuesCons(c: Config, ring: seq<Update>, controller: map<ParamId, real>, first: nat, k: nat)
    requires first + k <= |c.catalog| && KnowsCatalog(c, controller)
    ensures k == 0 ==> ring + Values(c, controller, first, k) == ring
    ensures k > 0 ==>
      var id := c.catalog[first].id;
      ring + Values(c, controller, first, k) == ring + [Update(id, controller[id])] + Values(c, controller, first + 1, k - 1)
  {
  }

  lemma NoRun(c: Config, s: State)
    ensures Runs(c, s, []) && End(c, s, []) == s
  {
  }

  // As long as the ring has room, a resync queues one entry of the catalog after
  // the other with its value at the controller.
  lemma {:induction false} ResyncQueues(c: Config, s: State, k: nat)
    requires s.control.Resyncing? && s.resyncActive && c.hasController
    requires s.resyncIndex + k <= |c.catalog| && |s.ring| + k <= QUEUE_CAPACITY
    requires KnowsCatalog(c, s.controller)
    ensures Runs(c, s, ResyncPushing(k))
    ensures End(c, s, ResyncPushing(k))
         == s.(ring := s.ring + Values(c, s.controller, s.resyncIndex, k), submitted := s.submitted + k,
               resyncIndex := s.resyncIndex + k)
    decreases k
  {
    hide Enabled, Apply, Steps, Values, Runs, End;
    ValuesCons(c, s.ring, s.controller, s.resyncIndex, k);
    if k == 0 {
      NoRun(c, s);
    } else {
      assert c.catalog[s.resyncIndex].id in s.controller;
      hide KnowsCatalog;
      var s2 := ResyncedOne(c, s);
      ResyncPair(c, s);
      ResyncQueues(c, s2, k - 1);
      StepThenStep(c, s, Control(Resync), s2.(submitted := s.submitted, resyncIndex := s.resyncIndex,
        control := ResyncPushed(s.control.forCapture)), Control(CountResync), s2, ResyncPushing(k - 1));
    }
  }

  ghost function ResyncedOne(c: Config, s: State): State
    requires s.resyncIndex < |c.catalog| && c.catalog[s.resyncIndex].id in s.controller
  {
    var id := c.catalog[s.resyncIndex].id;
    s.(ring := s.ring + [Update(id, s.controller[id])], submitted := s.submitted + 1, resyncIndex := s.resyncIndex + 1)
  }

  lemma ResyncPair(c: Config, s: State)
    requires s.control.Resyncing? && s.resyncActive && c.hasController
    requires s.resyncIndex < |c.catalog| && |s.ring| < QUEUE_CAPACITY && c.catalog[s.resyncIndex].id in s.controller
    ensures var t := ResyncedOne(c, s);
            var m := t.(submitted := s.submitted, resyncIndex := s.resyncIndex, control := ResyncPushed(s.control.forCapture));
            Steps(c, s, Control(Resync), m) && Steps(c, m, Control(CountResync), t)
  {
  }

  lemma StepThenStep(c: Config, s: State, e: Event, s1: State, f: Event, s2: State, es: seq<Event>)
    requires Steps(c, s, e, s1) && Steps(c, s1, f, s2) && Runs(c, s2, es)
    ensures Runs(c, s, [e, f] + es) && End(c, s, [e, f] + es) == End(c, s2, es)
  {
    hide Enabled, Apply;
    assert ([e, f] + es)[1..] == [f] + es && ([f] + es)[1..] == es;
  }

  const EMPTY_FLUSH: seq<Event> := [Dsp(Approach(false)), Dsp(Announce), Dsp(Look), Dsp(Drained), Dsp(Leave)]

  lemma EmptyFlushRuns(c: Config, s: State)
    requires s.dsp.Idle? && !s.requested && s.ring == []
    ensures Runs(c, s, EMPTY_FLUSH) && End(c, s, EMPTY_FLUSH) == s
  {
    hide Runs, End;
    var a, b := s.(dsp := Looked(false)), s.(calls := s.calls + 1, dsp := Announced(false));
    assert Steps(c, s, Dsp(Approach(false)), a) && Steps(c, a, Dsp(Announce), b);
    assert Steps(c, b, Dsp(Look), b.(dsp := Draining(false, 0, true)));
    assert Steps(c, b.(dsp := Draining(false, 0, true)), Dsp(Drained), b.(dsp := Leaving));
    assert Steps(c, b.(dsp := Leaving), Dsp(Leave), s);
    hide Steps;
    TraceRuns(c, [s, a, b, b.(dsp := Draining(false, 0, true)), b.(dsp := Leaving), s], EMPTY_FLUSH);
  }

  // A block that nothing disturbs reaches the vendor's process call, with or
  // without edits before it; a flush that finds none leaves the vendor alone.
  lemma UndisturbedBlockIsProcessed(c: Config, s: State)
    requires s.dsp.Idle? && !s.requested && s.ring == []
    ensures Runs(c, s, ENTERED + [Dsp(Drained)]) && End(c, s, ENTERED + [Dsp(Drained)]).dsp == Calling(0, true)
    ensures Runs(c, s, EMPTY_FLUSH) && End(c, s, EMPTY_FLUSH) == s
  {
    hide Runs, End;
    var a := s.(calls := s.calls + 1, dsp := Draining(true, 0, true));
    assert Steps(c, a, Dsp(Drained), a.(dsp := Calling(0, true)));
    hide Steps;
    EnteredRuns(c, s);
    TraceRuns(c, [a, a.(dsp := Calling(0, true))], [Dsp(Drained)]);
    RunsConcat(c, s, ENTERED, [Dsp(Drained)]);
    EmptyFlushRuns(c, s);
  }

  // While a capture has the gate, a block that comes late does not even reach
  // for the counter the capture waits on.
  lemma {:induction false} LateBlocksStayOutside(c: Config, s: State, es: seq<Event>)
    requires s.dsp.Idle? && s.requested && Runs(c, s, es) && forall i :: 0 <= i < |es| ==> es[i].Dsp?
    ensures End(c, s, es) == s
    decreases |es|
  {
    if es != [] {
      assert Apply(c, s, es[0]) == s by { LateBlock(c, s, es[0].call); }
      hide Enabled, Apply;
      LateBlocksStayOutside(c, s, es[1..]);
    }
  }

  lemma LateBlock(c: Config, s: State, e: DspEvent)
    requires s.dsp.Idle? && s.requested && DspEnabled(c, s, e)
    ensures DspStep(c, s, e) == s
  {
  }

  // ---------------------------------------------------------------- a failure that slips through

  function RacyCapture(id: ParamId, v: real): seq<Event> {
    AnnouncedEdit(id, v) + STARTED_SYNC + ENTERED + FAILED_DELIVERY + MATCHED_COUNTERS
  }

  // The failure flag is read before the counters, and the DSP thread counts an
  // edit as applied before it raises the flag.  So from every fresh bridge, for
  // every catalogued parameter and every value the processor does not have yet,
  // some run lets synchronization return true, and then getState run, with the
  // announced value missing from the processor.
  lemma FailedDeliveryCanSlipThrough(c: Config, s: State, id: ParamId, v: real)
    requires Init(c, s) && c.hasController && Catalogued(c.catalog, id)
    requires id in s.processor ==> !Carries(c.catalog, id, v, s.processor[id])
    ensures Runs(c, s, RacyCapture(id, v))
    ensures var t := End(c, s, RacyCapture(id, v));
            t.control.Synchronized? && !t.failed && id !in t.unannounced && !Agree(c, t, id)
    ensures Runs(c, s, RacyCapture(id, v) + CAPTURE_AFTER_FLAG)
    ensures var t := End(c, s, RacyCapture(id, v) + CAPTURE_AFTER_FLAG);
            t.control.Capturing? && t.failed && id !in t.unannounced && !Agree(c, t, id)
  {
    hide Runs, End, Norm, Enabled, Apply, Catalogued, Carries;
    var run := AnnouncedEdit(id, v);
    AnnouncedEditRuns(c, s, id, v);
    var s1 := AfterEdit(s, id, v);
    StartedSyncRuns(c, s1);
    RunsConcat(c, s, run, STARTED_SYNC);
    var s2 := s1.(control := ReadingSubmitted);
    EnteredRuns(c, s2);
    RunsConcat(c, s, run + STARTED_SYNC, ENTERED);
    var s3 := s2.(calls := s2.calls + 1, dsp := Draining(true, 0, true));
    FailedDeliveryRuns(c, s3);
    RunsConcat(c, s, run + STARTED_SYNC + ENTERED, FAILED_DELIVERY);
    var s4 := AfterFailure(s3);
    MatchedCountersRuns(c, s4);
    RunsConcat(c, s, run + STARTED_SYNC + ENTERED + FAILED_DELIVERY, MATCHED_COUNTERS);
    CaptureAfterFlagRuns(c, s4.(control := Synchronized));
    RunsConcat(c, s, RacyCapture(id, v), CAPTURE_AFTER_FLAG);
  }
}
