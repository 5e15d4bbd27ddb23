/**
The restart back-off of src/common/recovery_policy.hpp, and how often the
supervising loop of src/obs-plugin/plugin.cpp can restart a helper with it.
Times are milliseconds of a clock that never goes back.
 */
module RecoveryPolicy {
  const HEARTBEAT_TIMEOUT_MS: nat := 2500
  const STABLE_RESET_MS: nat := 10000
  const MAX_BACKOFF_MS: nat := 30000
  const MAX_ATTEMPTS: nat := 31
  const PRESSURE_MISSES: nat := 8

  datatype Health = Healthy | DeadlinePressure | Hung | Exited | Backoff

  datatype Observation = Observation(alive: bool, heartbeatAge: nat, misses: nat)

  datatype Decision = Decision(health: Health, restart: bool, retryAfter: nat)

  datatype Policy = Policy(attempts: nat, nextRetry: nat, healthySince: nat)

  const INITIAL := Policy(0, 0, 0)

  function Power(n: nat): nat {
    if n == 0 then 1 else 2 * Power(n - 1)
  }

  // The wait before the restart after the n-th: doubling from one second, at most thirty.
  function Delay(n: nat): (ms: nat)
    requires n > 0
    ensures ms == (match n case 1 => 1000 case 2 => 2000 case 3 => 4000 case 4 => 8000 case 5 => 16000 case _ => 30000)
  {
    var shift := if n - 1 < 5 then n - 1 else 5;
    assert Power(0) == 1 && Power(1) == 2 && Power(2) == 4 && Power(3) == 8 && Power(4) == 16 && Power(5) == 32;
    if 1000 * Power(shift) < MAX_BACKOFF_MS then 1000 * Power(shift) else MAX_BACKOFF_MS
  }

  predicate Responsive(o: Observation) {
    o.alive && o.heartbeatAge <= HEARTBEAT_TIMEOUT_MS
  }

  function Since(p: Policy, now: nat): nat {
    if p.healthySince == 0 then now else p.healthySince
  }

  // Ten seconds of health forgive every attempt.
  predicate Forgiven(p: Policy, now: nat) {
    p.attempts != 0 && now >= Since(p, now) && now - Since(p, now) >= STABLE_RESET_MS
  }

  function Observed(p: Policy, now: nat, o: Observation): Policy {
    if !Responsive(o) then p.(healthySince := 0)
    else if Forgiven(p, now) then Policy(0, 0, Since(p, now))
    else p.(healthySince := Since(p, now))
  }

  function Decided(p: Policy, now: nat, o: Observation): Decision {
    if Responsive(o) then Decision(if o.misses >= PRESSURE_MISSES then DeadlinePressure else Healthy, false, 0)
    else if now < p.nextRetry then Decision(Backoff, false, p.nextRetry - now)
    else Decision(if o.alive then Hung else Exited, true, 0)
  }

  function Restarted(p: Policy, now: nat): Policy {
    var n := if p.attempts + 1 < MAX_ATTEMPTS then p.attempts + 1 else MAX_ATTEMPTS;
    Policy(n, now + Delay(n), 0)
  }

  class RecoveryPolicy {
    var attempts: nat
    var nextRetry: nat
    var healthySince: nat

    ghost function Model(): Policy
      reads this
    {
      Policy(attempts, nextRetry, healthySince)
    }

    constructor ()
      ensures Model() == INITIAL
    {
      attempts, nextRetry, healthySince := 0, 0, 0;
    }

    method Observe(now: nat, o: Observation) returns (d: Decision)
      modifies this
      ensures Model() == Observed(old(Model()), now, o) && d == Decided(old(Model()), now, o)
    {
      if o.alive && o.heartbeatAge <= HEARTBEAT_TIMEOUT_MS {
        if healthySince == 0 { healthySince := now; }
        if attempts != 0 && now >= healthySince && now - healthySince >= STABLE_RESET_MS {
          attempts := 0;
          nextRetry := 0;
        }
        return Decision(if o.misses >= PRESSURE_MISSES then DeadlinePressure else Healthy, false, 0);
      }
      healthySince := 0;
      if now < nextRetry { return Decision(Backoff, false, nextRetry - now); }
      d := Decision(if o.alive then Hung else Exited, true, 0);
    }

    method RecordRestartAttempt(now: nat)
      modifies this
      ensures Model() == Restarted(old(Model()), now)
    {
      attempts := if attempts + 1 < MAX_ATTEMPTS then attempts + 1 else MAX_ATTEMPTS;
      nextRetry := now + Delay(attempts);
      healthySince := 0;
    }

    method Reset()
      modifies this
      ensures Model() == INITIAL
    {
      attempts, nextRetry, healthySince := 0, 0, 0;
    }
  }

  // ---------------------------------------------------------------- the supervising loop

  // `enabled`: the filter is switched on and has a plug-in path.
  datatype Tick = Tick(now: nat, enabled: bool, seen: Observation)

  ghost predicate ClockFrom(clock: nat, ticks: seq<Tick>)
    decreases |ticks|
  {
    ticks == [] || (clock <= ticks[0].now && ClockFrom(ticks[0].now, ticks[1..]))
  }

  ghost predicate AllEnabled(ticks: seq<Tick>) {
    forall k :: 0 <= k < |ticks| ==> ticks[k].enabled
  }

  predicate Restarting(p: Policy, t: Tick) {
    t.enabled && Decided(p, t.now, t.seen).restart
  }

  function After(p: Policy, t: Tick): Policy {
    if !t.enabled then INITIAL
    else if Restarting(p, t) then Restarted(Observed(p, t.now, t.seen), t.now)
    else Observed(p, t.now, t.seen)
  }

  function AfterAll(p: Policy, ticks: seq<Tick>): Policy
    decreases |ticks|
  {
    if ticks == [] then p else AfterAll(After(p, ticks[0]), ticks[1..])
  }

  // The times at which the loop restarts the helper.
  function Restarts(p: Policy, ticks: seq<Tick>): seq<nat>
    decreases |ticks|
  {
    if ticks == [] then []
    else (if Restarting(p, ticks[0]) then [ticks[0].now] else []) + Restarts(After(p, ticks[0]), ticks[1..])
  }

  method Supervise(ticks: seq<Tick>) returns (restarts: seq<nat>)
    ensures restarts == Restarts(INITIAL, ticks)
  {
    var policy := new RecoveryPolicy();
    restarts := [];
    var k := 0;
    while k < |ticks|
      invariant k <= |ticks|
      invariant restarts + Restarts(policy.Model(), ticks[k..]) == Restarts(INITIAL, ticks)
    {
      ghost var rest := ticks[k..];
      assert rest[1..] == ticks[k + 1..];
      if !ticks[k].enabled {
        policy.Reset();
      } else {
        var decision := policy.Observe(ticks[k].now, ticks[k].seen);
        if decision.restart {
          policy.RecordRestartAttempt(ticks[k].now);
          restarts := restarts + [ticks[k].now];
        }
      }
      k := k + 1;
    }
  }

  lemma {:induction false} RestartsSplit(p: Policy, before: seq<Tick>, stretch: seq<Tick>)
    ensures Restarts(p, before + stretch) == Restarts(p, before) + Restarts(AfterAll(p, before), stretch)
    decreases |before|
  {
    if before == [] {
      assert before + stretch == stretch;
    } else {
      assert (before + stretch)[1..] == before[1..] + stretch;
      RestartsSplit(After(p, before[0]), before[1..], stretch);
    }
  }

  lemma {:induction false} AttemptsBounded(p: Policy, ticks: seq<Tick>)
    requires p.attempts <= MAX_ATTEMPTS
    ensures AfterAll(p, ticks).attempts <= MAX_ATTEMPTS
    decreases |ticks|
  {
    if ticks != [] { AttemptsBounded(After(p, ticks[0]), ticks[1..]); }
  }

  // ---------------------------------------------------------------- the rate bound

  // How much sooner than 4250 ms apart the restarts up to the n-th may have come.
  function Credit(n: nat): (c: nat)
    ensures c <= 5750
  {
    match n
    case 2 => 3250
    case 3 => 5500
    case 4 => 5750
    case 5 => 2000
    case _ => 0
  }

  // The last restart was at `last` and was the n-th since the policy last
  // forgave; or ten seconds of health have gone by since.
  ghost predicate Linked(p: Policy, last: nat, n: nat, clock: nat) {
    && 0 < n && last <= clock
    && (p.healthySince == 0 || p.healthySince >= last)
    && ((p.attempts == n && p.nextRetry == last + Delay(n))
        || (p.attempts == 0 && clock >= last + STABLE_RESET_MS))
  }

  lemma ObservationKeepsLink(p: Policy, last: nat, n: nat, clock: nat, now: nat, o: Observation)
    requires Linked(p, last, n, clock) && clock <= now
    ensures Linked(Observed(p, now, o), last, n, now)
  {
  }

  // One gap between restarts, paid for by the credit it uses or earns.
  lemma OneGap(p: Policy, last: nat, n: nat, clock: nat, now: nat, o: Observation)
    requires Linked(p, last, n, clock) && clock <= now && n <= MAX_ATTEMPTS && Decided(p, now, o).restart
    ensures var q := Restarted(Observed(p, now, o), now);
            && Linked(q, now, q.attempts, now) && q.attempts <= MAX_ATTEMPTS
            && now - last + Credit(q.attempts) >= 4250 + Credit(n)
  {
  }

  lemma {:induction false} RateFrom(p: Policy, last: nat, n: nat, clock: nat, ticks: seq<Tick>, j: nat)
    requires Linked(p, last, n, clock) && n <= MAX_ATTEMPTS && ClockFrom(clock, ticks) && AllEnabled(ticks)
    requires j < |Restarts(p, ticks)|
    ensures Restarts(p, ticks)[j] - last >= 4250 * (j + 1) + Credit(n) - 5750
    decreases |ticks|
  {
    var now, seen, q := ticks[0].now, ticks[0].seen, After(p, ticks[0]);
    if Restarting(p, ticks[0]) {
      OneGap(p, last, n, clock, now, seen);
      if j > 0 { RateFrom(q, now, q.attempts, now, ticks[1..], j - 1); }
    } else {
      ObservationKeepsLink(p, last, n, clock, now, seen);
      RateFrom(q, last, n, now, ticks[1..], j);
    }
  }

  lemma {:induction false} RateBetween(p: Policy, clock: nat, ticks: seq<Tick>, i: nat, j: nat)
    requires p.attempts <= MAX_ATTEMPTS && ClockFrom(clock, ticks) && AllEnabled(ticks) && i < j < |Restarts(p, ticks)|
    ensures Restarts(p, ticks)[j] - Restarts(p, ticks)[i] >= 4250 * (j - i) - 5750
    decreases |ticks|
  {
    var now, q := ticks[0].now, After(p, ticks[0]);
    if !Restarting(p, ticks[0]) {
      RateBetween(q, now, ticks[1..], i, j);
    } else if i > 0 {
      RateBetween(q, now, ticks[1..], i - 1, j - 1);
    } else {
      RateFrom(q, now, q.attempts, now, ticks[1..], j - 1);
    }
  }

  lemma {:induction false} ClockOfSuffix(clock: nat, before: seq<Tick>, stretch: seq<Tick>)
    requires ClockFrom(clock, before + stretch)
    ensures ClockFrom(0, stretch)
    decreases |before|
  {
    if before == [] {
      assert before + stretch == stretch;
    } else {
      assert (before + stretch)[1..] == before[1..] + stretch;
      ClockOfSuffix(before[0].now, before[1..], stretch);
    }
  }

  // Whatever the helper does and whatever went before, while the filter stays
  // enabled a window of T ms holds at most 1 + (T + 5750) / 4250 restarts.
  lemma RestartRate(before: seq<Tick>, stretch: seq<Tick>, i: nat, j: nat, window: nat)
    requires ClockFrom(0, before + stretch) && AllEnabled(stretch)
    requires |Restarts(INITIAL, before)| <= i <= j < |Restarts(INITIAL, before + stretch)|
    requires Restarts(INITIAL, before + stretch)[j] - Restarts(INITIAL, before + stretch)[i] <= window
    ensures j - i + 1 <= 1 + (window + 5750) / 4250
  {
    var p, k := AfterAll(INITIAL, before), |Restarts(INITIAL, before)|;
    RestartsSplit(INITIAL, before, stretch);
    AttemptsBounded(INITIAL, before);
    ClockOfSuffix(0, before, stretch);
    if i < j { RateBetween(p, 0, stretch, i - k, j - k); }
  }

  const DEAD := Observation(false, 0, 0)
  const WELL := Observation(true, 0, 0)

  const PACE_MS: nat := 1000

  // Every disabled tick forgets the back-off: switched off between any two
  // restarts, the filter restarts its helper as often as its loop looks.
  function Toggled(times: seq<nat>): seq<Tick> {
    if times == [] then []
    else [Tick(times[0], true, DEAD), Tick(times[0] + PACE_MS, false, DEAD)] + Toggled(times[1..])
  }

  lemma {:induction false} TogglingRestartsAtWill(clock: nat, times: seq<nat>)
    requires times != [] ==> clock <= times[0]
    requires forall i :: 0 <= i < |times| - 1 ==> times[i] + 2 * PACE_MS <= times[i + 1]
    ensures ClockFrom(clock, Toggled(times)) && Restarts(INITIAL, Toggled(times)) == times
    ensures times != [] ==> Toggled(times) != [] && Toggled(times)[0].now == times[0]
    ensures forall i :: 0 <= i < |Toggled(times)| - 1 ==> Toggled(times)[i].now + PACE_MS <= Toggled(times)[i + 1].now
    decreases |times|
  {
    if times != [] {
      var a, b := Tick(times[0], true, DEAD), Tick(times[0] + PACE_MS, false, DEAD);
      var rest := Toggled(times[1..]);
      assert Toggled(times) == [a, b] + rest;
      assert ([a, b] + rest)[1..] == [b] + rest && ([b] + rest)[1..] == rest;
      TogglingRestartsAtWill(times[0] + PACE_MS, times[1..]);
      assert Restarts(After(INITIAL, a), [b] + rest) == times[1..];
    }
  }

  // ---------------------------------------------------------------- nobody is left alone

  function LastOf(times: seq<nat>): nat
    requires times != []
  {
    times[|times| - 1]
  }

  // The next restart is due thirty seconds after the last at the latest.
  ghost predicate DueInTime(p: Policy, restarts: seq<nat>) {
    p.nextRetry <= if restarts == [] then 0 else LastOf(restarts) + MAX_BACKOFF_MS
  }

  lemma {:induction false} AlwaysDueInTime(p: Policy, done: seq<nat>, ticks: seq<Tick>)
    requires DueInTime(p, done)
    ensures DueInTime(AfterAll(p, ticks), done + Restarts(p, ticks))
    decreases |ticks|
  {
    if ticks == [] {
      assert done + [] == done;
    } else {
      var now := if Restarting(p, ticks[0]) then [ticks[0].now] else [];
      assert done + Restarts(p, ticks) == done + now + Restarts(After(p, ticks[0]), ticks[1..]);
      AlwaysDueInTime(After(p, ticks[0]), done + now, ticks[1..]);
    }
  }

  // After any history: a helper that is gone, or has been silent for more than
  // two and a half seconds, is restarted by the next look that comes thirty
  // seconds after the last restart, or at once if there was none; and one that
  // answers, or a filter that is off, is never restarted.
  lemma SilentHelperIsRestarted(before: seq<Tick>, t: Tick)
    ensures var r := Restarts(INITIAL, before); var n := Restarts(INITIAL, before + [t]);
            var silent := t.enabled && (!t.seen.alive || t.seen.heartbeatAge > 2500);
            && (n == r || n == r + [t.now])
            && (n != r ==> silent)
            && (silent && (r == [] || t.now >= LastOf(r) + 30000) ==> n == r + [t.now])
  {
    RestartsSplit(INITIAL, before, [t]);
    AlwaysDueInTime(INITIAL, [], before);
    assert [] + Restarts(INITIAL, before) == Restarts(INITIAL, before);
    assert Restarts(INITIAL, before) + [] == Restarts(INITIAL, before);
    var p := AfterAll(INITIAL, before);
    assert [t][1..] == [];
    assert Restarts(p, [t]) == if Restarting(p, t) then [t.now] else [];
  }

  // Ten seconds of health count only if they are unbroken: one look that finds
  // the helper silent puts forgiveness off for ten seconds from then on.
  lemma {:induction false} UnforgivenSince(p: Policy, since: nat, clock: nat, ticks: seq<Tick>)
    requires p.attempts > 0 && (p.healthySince == 0 || p.healthySince >= since) && since <= clock
    requires ClockFrom(clock, ticks) && AllEnabled(ticks)
    requires forall k :: 0 <= k < |ticks| ==> ticks[k].now < since + 10000
    ensures AfterAll(p, ticks).attempts > 0
    decreases |ticks|
  {
    if ticks != [] { UnforgivenSince(After(p, ticks[0]), since, ticks[0].now, ticks[1..]); }
  }

  lemma BrokenHealthIsNotForgiven(p: Policy, t: Tick, ticks: seq<Tick>)
    requires p.attempts > 0 && t.enabled && (!t.seen.alive || t.seen.heartbeatAge > 2500)
    requires ClockFrom(t.now, ticks) && AllEnabled(ticks)
    requires forall k :: 0 <= k < |ticks| ==> ticks[k].now < t.now + 10000
    ensures AfterAll(p, [t] + ticks).attempts > 0
  {
    assert ([t] + ticks)[1..] == ticks;
    UnforgivenSince(After(p, t), t.now, t.now, ticks);
  }

  // What the supervisor logs for a helper.
  lemma HealthTells(p: Policy, now: nat, o: Observation)
    ensures var h := Decided(p, now, o).health;
            && (h in {Healthy, DeadlinePressure} <==> o.alive && o.heartbeatAge <= 2500)
            && (h == DeadlinePressure ==> o.misses >= 8) && (h == Healthy ==> o.misses < 8)
            && (h == Hung ==> o.alive) && (h == Exited ==> !o.alive)
            && (h == Backoff ==> now + Decided(p, now, o).retryAfter == p.nextRetry)
            && (h in {Hung, Exited} <==> Decided(p, now, o).restart)
  {
  }

  // ---------------------------------------------------------------- and it is reached

  function Burst(t: nat): seq<Tick> {
    [Tick(t, true, DEAD), Tick(t + 1000, true, DEAD), Tick(t + 3000, true, DEAD), Tick(t + 7000, true, DEAD)]
  }

  // Four restarts as fast as the back-off allows, then ten seconds of health, n times; then four more.
  function Worst(t: nat, n: nat): seq<Tick>
    decreases n
  {
    if n == 0 then Burst(t)
    else Burst(t) + [Tick(t + 7000, true, WELL), Tick(t + 17000, true, WELL)] + Worst(t + 17000, n - 1)
  }

  lemma BurstRestarts(p: Policy, t: nat, rest: seq<Tick>)
    requires p.attempts == 0 && p.nextRetry == 0
    ensures Restarts(p, Burst(t) + rest)
         == [t, t + 1000, t + 3000, t + 7000] + Restarts(Policy(4, t + 15000, 0), rest)
  {
    var p1, p2, p3 := Policy(1, t + 1000, 0), Policy(2, t + 3000, 0), Policy(3, t + 7000, 0);
    var b := Burst(t);
    assert (b + rest)[1..] == [b[1], b[2], b[3]] + rest;
    assert ([b[1], b[2], b[3]] + rest)[1..] == [b[2], b[3]] + rest;
    assert ([b[2], b[3]] + rest)[1..] == [b[3]] + rest;
    assert ([b[3]] + rest)[1..] == rest;
    assert Restarts(p3, [b[3]] + rest) == [t + 7000] + Restarts(Policy(4, t + 15000, 0), rest);
    assert Restarts(p2, [b[2], b[3]] + rest) == [t + 3000] + Restarts(p3, [b[3]] + rest);
    assert Restarts(p1, [b[1], b[2], b[3]] + rest) == [t + 1000] + Restarts(p2, [b[2], b[3]] + rest);
  }

  lemma HealthForgives(t: nat, rest: seq<Tick>)
    ensures Restarts(Policy(4, t + 15000, 0), [Tick(t + 7000, true, WELL), Tick(t + 17000, true, WELL)] + rest)
         == Restarts(Policy(0, 0, t + 7000), rest)
  {
    var a, b := Tick(t + 7000, true, WELL), Tick(t + 17000, true, WELL);
    assert ([a, b] + rest)[1..] == [b] + rest && ([b] + rest)[1..] == rest;
  }

  lemma {:induction false} WorstRestarts(p: Policy, t: nat, n: nat)
    requires p.attempts == 0 && p.nextRetry == 0
    ensures var r := Restarts(p, Worst(t, n)); |r| == 4 * n + 4 && r[0] == t && r[|r| - 1] == t + 17000 * n + 7000
    decreases n
  {
    if n == 0 {
      BurstRestarts(p, t, []);
      assert Burst(t) + [] == Burst(t);
    } else {
      var health, rest := [Tick(t + 7000, true, WELL), Tick(t + 17000, true, WELL)], Worst(t + 17000, n - 1);
      assert Worst(t, n) == Burst(t) + (health + rest);
      BurstRestarts(p, t, health + rest);
      HealthForgives(t, rest);
      WorstRestarts(Policy(0, 0, t + 7000), t + 17000, n - 1);
    }
  }

  lemma BurstClock(clock: nat, t: nat, rest: seq<Tick>)
    requires clock <= t && ClockFrom(t + 7000, rest)
    ensures ClockFrom(clock, Burst(t) + rest)
    ensures AllEnabled(rest) ==> AllEnabled(Burst(t) + rest)
  {
    var b := Burst(t);
    assert (b + rest)[1..] == [b[1], b[2], b[3]] + rest;
    assert ([b[1], b[2], b[3]] + rest)[1..] == [b[2], b[3]] + rest;
    assert ([b[2], b[3]] + rest)[1..] == [b[3]] + rest;
    assert ([b[3]] + rest)[1..] == rest;
    assert ClockFrom(t + 3000, [b[3]] + rest);
    assert ClockFrom(t + 1000, [b[2], b[3]] + rest);
  }

  lemma {:induction false} WorstClock(clock: nat, t: nat, n: nat)
    requires clock <= t
    ensures ClockFrom(clock, Worst(t, n)) && AllEnabled(Worst(t, n))
    decreases n
  {
    hide Burst;
    if n == 0 {
      BurstClock(clock, t, []);
      assert Burst(t) + [] == Burst(t);
    } else {
      WorstClock(t + 17000, t + 17000, n - 1);
      var a, b, rest := Tick(t + 7000, true, WELL), Tick(t + 17000, true, WELL), Worst(t + 17000, n - 1);
      assert ([a, b] + rest)[1..] == [b] + rest && ([b] + rest)[1..] == rest;
      assert ClockFrom(t + 7000, [b] + rest);
      BurstClock(clock, t, [a, b] + rest);
      assert Worst(t, n) == Burst(t) + ([a, b] + rest);
    }
  }

  // The bound is exact for every window of 17000 n + 7000 ms.
  lemma RateIsSharp(n: nat)
    ensures ClockFrom(0, Worst(0, n)) && AllEnabled(Worst(0, n))
    ensures var r := Restarts(INITIAL, Worst(0, n));
            && |r| == 4 * n + 4 && r[|r| - 1] - r[0] == 17000 * n + 7000
            && |r| == 1 + (17000 * n + 7000 + 5750) / 4250
  {
    WorstRestarts(INITIAL, 0, n);
    WorstClock(0, 0, n);
  }
}
