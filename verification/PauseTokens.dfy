/**
DspWorker of src/host/main.cpp: the control thread pauses and resumes the DSP
worker with numbered tokens, may stop waiting for an acknowledgement, and
touches the engine itself only while it holds a pause.

One step per atomic operation; `stop` stands for the stop token and the
region's shutdown flag, neither of which is ever taken back.
 */
module PauseTokens {
  type Token = nat

  function MakeToken(generation: nat, pause: bool): Token {
    2 * generation + (if pause then 1 else 0)
  }

  predicate RequestsPause(t: Token) {
    t % 2 == 1
  }

  datatype Control =
    | Free
    | Claimed(token: Token, waits: bool)   // generation taken, token not stored yet
    | Waiting(token: Token)
    | GivingUp                             // a pause timed out; a resume request follows
    | Holding(token: Token)                // pause returned true
    | Resumed(token: Token)                // resume returned true

  datatype Worker =
    | Top
    | Loading                              // about to load the requested token
    | AckingRun
    | Draining(requested: Token)           // engine call: queue waiting commands
    | Flushing(requested: Token)           // engine call: flush_parameter_changes
    | Feedback(requested: Token)           // engine call: take the parameter feedback
    | Rechecking(requested: Token)
    | AckingPause
    | PausedTop
    | PausedLoading
    | Leaving(latest: Token)               // left the paused loop, token not taken over yet
    | Sleeping
    | Serving                              // engine calls: process, drain, flush, feedback
    | Exited

  // `acknowledged` is the atomic; `local` is the worker's own copy.
  datatype State = State(
    requested: Token, acknowledged: Token, nextGeneration: nat, local: Token, stop: bool,
    control: Control, worker: Worker)

  datatype Wait = Signalled | TimedOut | Failed

  datatype Event =
    // the control thread
    | Claim(pause: bool) | Store | SeeAck | TimeOut | GiveUp | Stop
    // the worker
    | CheckStop | Load | StoreAck | Call(ok: bool) | Recheck | Wake(wait: Wait) | Finish(ok: bool)

  ghost predicate Enabled(s: State, e: Event) {
    match e
    case Claim(_) => s.control.Free? || s.control.Holding? || s.control.Resumed?
    case Store => s.control.Claimed?
    case SeeAck => s.control.Waiting? && s.acknowledged == s.control.token
    case TimeOut => s.control.Waiting?
    case GiveUp => s.control.GivingUp?
    case Stop => true
    case CheckStop => s.worker.Top? || s.worker.PausedTop?
    case Load => s.worker.Loading? || s.worker.PausedLoading?
    case StoreAck => s.worker.AckingRun? || s.worker.AckingPause? || s.worker.Leaving?
    case Call(_) => s.worker.Draining? || s.worker.Flushing? || s.worker.Feedback?
    case Recheck => s.worker.Rechecking?
    case Wake(_) => s.worker.Sleeping?
    case Finish(_) => s.worker.Serving?
  }

  // The top of the loop: a request to run is taken over at once, a request to
  // pause only after the worker has drained and flushed.
  function AfterLoad(s: State): Worker {
    if s.requested == s.local then Sleeping
    else if RequestsPause(s.requested) then Draining(s.requested)
    else AckingRun
  }

  function AfterPausedLoad(s: State): Worker {
    if s.requested == s.local then PausedTop
    else if RequestsPause(s.requested) then AckingPause
    else Leaving(s.requested)
  }

  function AfterCall(w: Worker, ok: bool): Worker {
    match w
    case Draining(r) => if ok then Flushing(r) else Exited
    case Flushing(r) => if ok then Feedback(r) else Exited
    case Feedback(r) => Rechecking(r)
    case _ => Exited
  }

  function AfterAck(w: Worker): Worker {
    if w.AckingPause? then PausedTop else if w.AckingRun? then Sleeping else Top
  }

  function AfterCheck(w: Worker, stop: bool): Worker {
    if w.Top? then (if stop then Exited else Loading) else if stop then Top else PausedLoading
  }

  function AfterWake(wait: Wait, stop: bool): Worker {
    if stop || wait.Failed? then Exited else if wait.TimedOut? then Top else Serving
  }

  ghost function Apply(s: State, e: Event): State
    requires Enabled(s, e)
  {
    match e
    case Claim(pause) =>
      s.(nextGeneration := s.nextGeneration + 1, control := Claimed(MakeToken(s.nextGeneration, pause), true))
    case Store =>
      s.(requested := s.control.token, control := if s.control.waits then Waiting(s.control.token) else Free)
    case SeeAck =>
      s.(control := if RequestsPause(s.control.token) then Holding(s.control.token) else Resumed(s.control.token))
    case TimeOut => s.(control := if RequestsPause(s.control.token) then GivingUp else Free)
    case GiveUp =>
      s.(nextGeneration := s.nextGeneration + 1, control := Claimed(MakeToken(s.nextGeneration, false), false))
    case Stop => s.(stop := true)
    case CheckStop => s.(worker := AfterCheck(s.worker, s.stop))
    case Load =>
      s.(local := if s.worker.Loading? && AfterLoad(s).Draining? then s.local
                  else if s.worker.PausedLoading? && AfterPausedLoad(s).Leaving? then s.local
                  else s.requested,
         worker := if s.worker.Loading? then AfterLoad(s) else AfterPausedLoad(s))
    case StoreAck =>
      s.(local := if s.worker.Leaving? then s.worker.latest else s.local,
         acknowledged := if s.worker.Leaving? then s.worker.latest else s.local, worker := AfterAck(s.worker))
    case Call(ok) => s.(worker := AfterCall(s.worker, ok))
    case Recheck =>
      s.(local := if s.requested == s.worker.requested then s.requested else s.local,
         worker := if s.requested == s.worker.requested then AckingPause else Top)
    case Wake(wait) => s.(worker := AfterWake(wait, s.stop))
    case Finish(ok) => s.(worker := if ok then Top else Exited)
  }

  ghost predicate Runs(s: State, es: seq<Event>)
    decreases |es|
  {
    es == [] || (Enabled(s, es[0]) && Runs(Apply(s, es[0]), es[1..]))
  }

  ghost function End(s: State, es: seq<Event>): State
    requires Runs(s, es)
    decreases |es|
  {
    if es == [] then s else End(Apply(s, es[0]), es[1..])
  }

  const INITIAL := State(0, 0, 1, 0, false, Free, Top)

  // ---------------------------------------------------------------- the invariant

  ghost predicate InEngineCall(w: Worker) {
    w.Draining? || w.Flushing? || w.Feedback? || w.Serving?
  }

  ghost predicate InPausedLoop(w: Worker) {
    w.AckingPause? || w.PausedTop? || w.PausedLoading? || w.Leaving?
  }

  // The worker's tokens never run ahead of the control thread's, and an
  // acknowledgement is stored before the worker looks at another request.
  ghost predicate Ordered(s: State) {
    && s.acknowledged <= s.local <= s.requested < 2 * s.nextGeneration
    && (s.worker.AckingPause? || s.worker.AckingRun? || s.acknowledged == s.local)
    && (s.worker.Draining? || s.worker.Flushing? || s.worker.Feedback? || s.worker.Rechecking? ==>
          s.local < s.worker.requested <= s.requested && RequestsPause(s.worker.requested))
    && (s.worker.Leaving? ==> s.local < s.worker.latest <= s.requested && !RequestsPause(s.worker.latest))
  }

  // Exactly the paused loop runs with a pause token, except on the way out of a stopped worker.
  ghost predicate Located(s: State) {
    && (InPausedLoop(s.worker) ==> RequestsPause(s.local))
    && (RequestsPause(s.local) ==> InPausedLoop(s.worker) || s.worker.Exited? || (s.worker.Top? && s.stop))
  }

  ghost predicate Controlled(s: State) {
    match s.control
    case Claimed(t, _) => s.requested < t < 2 * s.nextGeneration
    case Waiting(t) => s.requested == t
    case Holding(t) => s.requested == t == s.acknowledged && RequestsPause(t)
    case Resumed(t) => s.requested == t == s.acknowledged && !RequestsPause(t)
    case _ => true
  }

  ghost predicate Inv(s: State) {
    Ordered(s) && Located(s) && Controlled(s)
  }

  ghost predicate OfControl(e: Event) {
    e.Claim? || e.Store? || e.SeeAck? || e.TimeOut? || e.GiveUp? || e.Stop?
  }

  lemma InvControl(s: State, e: Event)
    requires Inv(s) && Enabled(s, e) && OfControl(e)
    ensures Inv(Apply(s, e))
  {
    match e
    case Claim(_) | Store | SeeAck | TimeOut | GiveUp | Stop =>
  }

  lemma InvWorker(s: State, e: Event)
    requires Inv(s) && Enabled(s, e) && !OfControl(e)
    ensures Inv(Apply(s, e))
  {
    match e
    case CheckStop | Load | StoreAck | Call(_) | Recheck | Wake(_) | Finish(_) =>
  }

  lemma InvStep(s: State, e: Event)
    requires Inv(s) && Enabled(s, e)
    ensures Inv(Apply(s, e))
  {
    hide Inv, Enabled, Apply;
    if OfControl(e) { InvControl(s, e); } else { InvWorker(s, e); }
  }

  lemma {:induction false} InvRun(s: State, es: seq<Event>)
    requires Inv(s) && Runs(s, es)
    ensures Inv(End(s, es))
    decreases |es|
  {
    hide Inv, Enabled, Apply;
    if es != [] {
      InvStep(s, es[0]);
      InvRun(Apply(s, es[0]), es[1..]);
    }
  }

  // ---------------------------------------------------------------- what every run keeps

  // From the moment pause returned true until the next request, the worker
  // makes no engine call, however many earlier pauses timed out.
  lemma PauseIsExclusive(es: seq<Event>)
    requires Runs(INITIAL, es)
    ensures var t := End(INITIAL, es);
            t.control.Holding? ==> !InEngineCall(t.worker) && RequestsPause(t.control.token)
  {
    hide Runs;
    InvRun(INITIAL, es);
  }

  // While a resume that returned true is in force the worker is out of the paused loop.
  lemma ResumeIsTakenOver(es: seq<Event>)
    requires Runs(INITIAL, es)
    ensures var t := End(INITIAL, es); t.control.Resumed? ==> !InPausedLoop(t.worker)
  {
    hide Runs;
    InvRun(INITIAL, es);
  }

  // A token nobody has stored yet is neither acknowledged nor in the worker's
  // hands, and the wait for it succeeds only on that very token: an answer to
  // another request, early or late, is never taken for it.
  lemma AcknowledgementIsForThisRequest(es: seq<Event>, fs: seq<Event>)
    requires Runs(INITIAL, es) && End(INITIAL, es).control.Claimed? && Runs(End(INITIAL, es), fs)
    ensures var s := End(INITIAL, es); var token := s.control.token; var t := End(s, fs);
            && s.acknowledged < token && s.local < token && s.requested < token
            && ((t.control.Holding? || t.control.Resumed?) && t.control.token == token ==>
                  t.acknowledged == token == t.local == t.requested)
  {
    hide Runs;
    InvRun(INITIAL, es);
    InvRun(End(INITIAL, es), fs);
  }

  // ---------------------------------------------------------------- every wait is answered

  // A step of a worker whose engine calls succeed and whose waits do not fail.
  predicate Healthy(e: Event) {
    match e
    case CheckStop | Load | StoreAck | Recheck => true
    case Call(ok) => ok
    case Finish(ok) => ok
    case Wake(wait) => !wait.Failed?
    case _ => false
  }

  // A live worker is never stuck: in every state it has such a step.
  lemma WorkerHasAStep(s: State) returns (e: Event)
    requires !s.worker.Exited?
    ensures Healthy(e) && Enabled(s, e)
  {
    match s.worker
    case Top | PausedTop => e := CheckStop;
    case Loading | PausedLoading => e := Load;
    case AckingRun | AckingPause | Leaving(_) => e := StoreAck;
    case Draining(_) | Flushing(_) | Feedback(_) => e := Call(true);
    case Rechecking(_) => e := Recheck;
    case Sleeping => e := Wake(Signalled);
    case Serving => e := Finish(true);
  }

  // An upper bound on the worker's steps up to the acknowledgement of `token`.
  function StepsLeft(w: Worker, local: Token, token: Token): nat {
    match w
    case AckingPause => if local == token then 1 else 4
    case AckingRun => if local == token then 1 else 10
    case PausedTop => 3
    case PausedLoading => 2
    case Leaving(r) => if r == token then 1 else 8
    case Loading => 6
    case Top => 7
    case Draining(r) => if r == token then 5 else 11
    case Flushing(r) => if r == token then 4 else 10
    case Feedback(r) => if r == token then 3 else 9
    case Rechecking(r) => if r == token then 2 else 8
    case Serving => 8
    case Sleeping => 9
    case Exited => 0
  }

  function Unanswered(s: State): nat {
    if s.acknowledged == s.requested then 0 else StepsLeft(s.worker, s.local, s.requested)
  }

  ghost predicate Live(s: State) {
    Inv(s) && s.control.Waiting? && !s.stop && !s.worker.Exited?
  }

  lemma HealthyStepAdvances(s: State, e: Event)
    requires Live(s) && Healthy(e) && Enabled(s, e)
    ensures var t := Apply(s, e);
            && t.control == s.control && t.requested == s.requested && !t.stop && !t.worker.Exited?
            && (Unanswered(t) < Unanswered(s) || Unanswered(t) == Unanswered(s) == 0)
  {
    match e
    case CheckStop | Load | StoreAck | Recheck | Call(_) | Finish(_) | Wake(_) =>
  }

  lemma AnsweredAtZero(s: State)
    requires Live(s) && Unanswered(s) == 0
    ensures s.acknowledged == s.requested
  {
  }

  lemma {:induction false} HealthyRunAnswers(s: State, fs: seq<Event>)
    requires Live(s) && Runs(s, fs) && (forall i :: 0 <= i < |fs| ==> Healthy(fs[i])) && |fs| >= Unanswered(s)
    ensures var t := End(s, fs); t.control == s.control && t.requested == t.acknowledged == s.requested
    decreases |fs|
  {
    hide Enabled, Apply, Unanswered, Inv, Healthy;
    if fs == [] {
      AnsweredAtZero(s);
    } else {
      HealthyStepAdvances(s, fs[0]);
      InvStep(s, fs[0]);
      HealthyRunAnswers(Apply(s, fs[0]), fs[1..]);
    }
  }

  // However the request came about (after timed-out pauses, with resume tokens
  // the worker never saw), any eleven steps of a worker whose calls succeed
  // answer it, and it stays answered: no history of tokens leaves it stuck.
  lemma WaitIsAnswered(es: seq<Event>, fs: seq<Event>)
    requires Runs(INITIAL, es) && Runs(End(INITIAL, es), fs)
    requires var s := End(INITIAL, es); s.control.Waiting? && !s.stop && !s.worker.Exited?
    requires |fs| >= 11 && forall i :: 0 <= i < |fs| ==> Healthy(fs[i])
    ensures var s := End(INITIAL, es); var t := End(s, fs);
            t.control == s.control && t.acknowledged == s.control.token && Enabled(t, SeeAck)
  {
    hide Runs, Healthy;
    InvRun(INITIAL, es);
    HealthyRunAnswers(End(INITIAL, es), fs);
  }

  // Once a request to run is acknowledged and in force, a live worker that is
  // signalled serves: at most three of its own steps from wherever it stands.
  lemma ResumedWorkerServes(es: seq<Event>) returns (fs: seq<Event>)
    requires Runs(INITIAL, es)
    requires var s := End(INITIAL, es);
             s.acknowledged == s.requested && !RequestsPause(s.requested) && !s.stop && !s.worker.Exited?
    ensures var s := End(INITIAL, es);
            && (forall i :: 0 <= i < |fs| ==> Healthy(fs[i])) && |fs| <= 3 && Runs(s, fs) && End(s, fs).worker.Serving?
  {
    hide Runs, End;
    InvRun(INITIAL, es);
    var s := End(INITIAL, es);
    var a, b, c := s.(worker := Loading), s.(worker := Sleeping), s.(worker := Serving);
    EmptyRun(c);
    match s.worker
    case Top =>
      RunsOne(b, Wake(Signalled), []);
      RunsOne(a, Load, [Wake(Signalled)] + []);
      RunsOne(s, CheckStop, [Load] + ([Wake(Signalled)] + []));
      fs := [CheckStop] + ([Load] + ([Wake(Signalled)] + []));
    case Loading =>
      RunsOne(b, Wake(Signalled), []);
      RunsOne(s, Load, [Wake(Signalled)] + []);
      fs := [Load] + ([Wake(Signalled)] + []);
    case AckingRun =>
      RunsOne(b, Wake(Signalled), []);
      RunsOne(s, StoreAck, [Wake(Signalled)] + []);
      fs := [StoreAck] + ([Wake(Signalled)] + []);
    case Sleeping =>
      RunsOne(s, Wake(Signalled), []);
      fs := [Wake(Signalled)] + [];
    case Serving =>
      fs := [];
  }

  lemma EmptyRun(s: State)
    ensures Runs(s, []) && End(s, []) == s
  {
  }

  lemma RunsOne(s: State, e: Event, es: seq<Event>)
    requires Enabled(s, e) && Runs(Apply(s, e), es)
    ensures Runs(s, [e] + es) && End(s, [e] + es) == End(Apply(s, e), es)
  {
    hide Enabled, Apply;
    assert ([e] + es)[1..] == es;
  }

  // A pause that is given up is taken back: a token that asks for a pause is in
  // force only while the control thread waits for it, holds it, or is about to
  // replace it.
  ghost predicate TakenBack(s: State) {
    && (s.control.Free? || s.control.Resumed? ==> !RequestsPause(s.requested))
    && (s.control.Claimed? && !s.control.waits ==> !RequestsPause(s.control.token))
  }

  lemma {:induction false} TakenBackRun(s: State, es: seq<Event>)
    requires Inv(s) && TakenBack(s) && Runs(s, es)
    ensures TakenBack(End(s, es))
    decreases |es|
  {
    hide Inv;
    if es != [] {
      InvStep(s, es[0]);
      TakenBackStep(s, es[0]);
      hide Enabled, Apply, TakenBack;
      TakenBackRun(Apply(s, es[0]), es[1..]);
    }
  }

  lemma TakenBackStep(s: State, e: Event)
    requires Inv(s) && TakenBack(s) && Enabled(s, e)
    ensures TakenBack(Apply(s, e))
  {
    hide Ordered, Located;
    match e
    case Claim(_) | Store | SeeAck | TimeOut | GiveUp | Stop =>
    case CheckStop | Load | StoreAck | Call(_) | Recheck | Wake(_) | Finish(_) =>
  }

  lemma NoPauseIsLeftBehind(es: seq<Event>)
    requires Runs(INITIAL, es) && End(INITIAL, es).control.Free?
    ensures !RequestsPause(End(INITIAL, es).requested)
  {
    TakenBackRun(INITIAL, es);
  }

  // A call that fails ends the worker: it acknowledges nothing from then on.
  lemma {:induction false} ExitedForGood(s: State, fs: seq<Event>)
    requires s.worker.Exited? && Runs(s, fs)
    ensures End(s, fs).worker.Exited? && End(s, fs).acknowledged == s.acknowledged
    decreases |fs|
  {
    if fs != [] { ExitedForGood(Apply(s, fs[0]), fs[1..]); }
  }

  lemma FailedCallEndsTheWorker(s: State, e: Event, fs: seq<Event>)
    requires Enabled(s, e) && (e == Finish(false) || e == Wake(Failed) || (e == Call(false) && !s.worker.Feedback?))
    requires Runs(Apply(s, e), fs)
    ensures End(Apply(s, e), fs).worker.Exited? && End(Apply(s, e), fs).acknowledged == s.acknowledged
  {
    ExitedForGood(Apply(s, e), fs);
  }

  // How many steps a worker that has been told to stop may still take.
  function StepsToTheEnd(w: Worker): nat {
    match w
    case Exited => 0
    case Top => 1
    case Sleeping => 1
    case AckingRun => 2
    case Serving => 2
    case Leaving(_) => 2
    case PausedTop => 2
    case AckingPause => 3
    case Rechecking(_) => 4
    case PausedLoading => 4
    case Feedback(_) => 5
    case Flushing(_) => 6
    case Draining(_) => 7
    case Loading => 8
  }

  function WorkerSteps(fs: seq<Event>): nat {
    if fs == [] then 0
    else (if fs[0].Claim? || fs[0].Store? || fs[0].SeeAck? || fs[0].TimeOut? || fs[0].GiveUp? || fs[0].Stop? then 0 else 1)
         + WorkerSteps(fs[1..])
  }

  // A stopped worker is through after at most eight steps of its own, whatever
  // its calls return and the control thread does.
  lemma {:induction false} StoppedWorkerEnds(s: State, fs: seq<Event>)
    requires s.stop && Runs(s, fs)
    ensures WorkerSteps(fs) <= StepsToTheEnd(s.worker) <= 8
    decreases |fs|
  {
    if fs != [] {
      StopStep(s, fs[0]);
      hide Enabled, Apply, StepsToTheEnd;
      StoppedWorkerEnds(Apply(s, fs[0]), fs[1..]);
    }
  }

  lemma StopStep(s: State, e: Event)
    requires s.stop && Enabled(s, e)
    ensures Apply(s, e).stop
    ensures StepsToTheEnd(Apply(s, e).worker) + WorkerSteps([e]) <= StepsToTheEnd(s.worker)
  {
    assert [e][1..] == [];
    match e
    case Claim(_) | Store | SeeAck | TimeOut | GiveUp | Stop =>
    case CheckStop | Load | StoreAck | Call(_) | Recheck | Wake(_) | Finish(_) =>
  }
}
