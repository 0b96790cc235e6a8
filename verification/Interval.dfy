/** How often a device is polled in the background: the policy's steps and three capped backoffs.
    Intervals are whole seconds. */
module Interval {
  import opened Options

  const BASE := 120
  const MAXIMUM := 1800
  const ON_MAXIMUM := 900
  const MAX_BACKOFF_STEPS := 4
  const MAX_ON_BACKOFF_STEPS := 3
  const SLOW_MAX_STEPS := 3

  datatype Policy = Fixed | On | Off | Relay {
    predicate Unpolled() {
      Off? || Relay?
    }
  }

  datatype Pace = Pace(
    policy: Policy,
    nominal: Option<int>,
    onSteps: nat,
    slowSteps: nat,
    failures: nat,
    backoffFailures: nat,
    resetUsed: bool)

  const START := Pace(Fixed, Some(BASE), 0, 0, 0, 0, false)

  function Min(x: int, y: int): int {
    if x < y then x else y
  }

  function Max(x: int, y: int): int {
    if x < y then y else x
  }

  function Power(n: nat): int {
    if n == 0 then 1 else 2 * Power(n - 1)
  }

  function Floor(slowSteps: nat): int {
    if slowSteps == 0 then 0 else Min(BASE * Power(slowSteps), MAXIMUM)
  }

  function Floored(p: Pace, interval: int): int {
    Max(interval, Floor(p.slowSteps))
  }

  function FailureInterval(failures: nat): int {
    Min(BASE * Power(Min(Max(0, failures - 1), MAX_BACKOFF_STEPS)), MAXIMUM)
  }

  function HealthyInterval(p: Pace): int {
    if p.policy.On? then Min(BASE * Power(p.onSteps), ON_MAXIMUM) else BASE
  }

  function SetInterval(p: Pace, nominal: int): Pace {
    p.(nominal := Some(Floored(p, nominal)))
  }

  function SetPolicy(p: Pace, step: Policy): Pace {
    if step == p.policy then p else p.(policy := step, onSteps := 0)
  }

  /** The policy re-checked between polls. */
  function ApplyPolicy(p: Pace, step: Policy): Pace {
    if step == p.policy then p
    else
      var p' := SetPolicy(p, step);
      if step.Unpolled() then p'.(nominal := None)
      else if p.nominal.None? then SetInterval(p', if p.failures > 0 then FailureInterval(p.backoffFailures) else BASE)
      else if p.failures > 0 then p'
      else SetInterval(p', BASE)
  }

  /** A light's on-backoff starts over. `enabled`: HA schedules polls. */
  predicate RestartsOn(p: Pace, enabled: bool) {
    p.policy.On? && p.failures == 0 && enabled && p.nominal.Some? && p.nominal.value > Floored(p, BASE)
  }

  function RestartOn(p: Pace, enabled: bool): Pace {
    var p' := p.(onSteps := 0);
    if RestartsOn(p', enabled) then SetInterval(p', BASE) else p'
  }

  /** A command that landed drops the failure backoff, once a streak. */
  predicate Resets(p: Pace, enabled: bool) {
    p.failures > 0 && !p.resetUsed && enabled && p.nominal.Some? && p.nominal.value > Floored(p, BASE)
  }

  function CommandLanded(p: Pace, step: Policy, enabled: bool): Pace {
    var p' := RestartOn(ApplyPolicy(p, step), enabled);
    if Resets(p', enabled) then SetInterval(p'.(resetUsed := true), BASE) else p'
  }

  function NoteSpeed(p: Pace, slow: bool): Pace {
    p.(slowSteps := if slow then Min(p.slowSteps + 1, SLOW_MAX_STEPS) else 0)
  }

  /** A poll succeeded. `changed`: it read something new; `slow`: it was slow, or the signal weak. */
  function Succeeded(p: Pace, step: Policy, changed: bool, slow: bool): Pace {
    var p' := BeforeInterval(p, step, changed, slow);
    if step.Unpolled() then p'.(nominal := None) else SetInterval(p', HealthyInterval(p'))
  }

  function BeforeInterval(p: Pace, step: Policy, changed: bool, slow: bool): Pace {
    var p0 := NoteSpeed(p.(failures := 0, backoffFailures := 0, resetUsed := false), slow);
    var p1 := SetPolicy(p0, step);
    if step != p.policy || changed then p1.(onSteps := 0)
    else if p1.policy.On? then p1.(onSteps := Min(p1.onSteps + 1, MAX_ON_BACKOFF_STEPS))
    else p1
  }

  /** A poll failed, or was skipped. `slow`: it timed out slowly, which adds a slow step instead. */
  function Failed(p: Pace, step: Policy, slow: bool): Pace {
    var p' := AfterFailure(p, step, slow);
    if step.Unpolled() then p'.(nominal := None) else SetInterval(p', FailureInterval(p'.backoffFailures))
  }

  function AfterFailure(p: Pace, step: Policy, slow: bool): Pace {
    var p0 := p.(failures := p.failures + 1);
    SetPolicy(if slow then p0.(slowSteps := Min(p0.slowSteps + 1, SLOW_MAX_STEPS))
              else p0.(backoffFailures := p0.backoffFailures + 1), step)
  }

  /** The device is heard again after polls were skipped. */
  function Returned(p: Pace): Pace {
    if p.policy.Unpolled() then p else SetInterval(p, BASE)
  }

  datatype Event =
    | PolicyChecked(step: Policy)
    | PowerFlipped(step: Policy, enabled: bool)
    | Command(step: Policy, enabled: bool)
    | PollSucceeded(step: Policy, changed: bool, slow: bool)
    | PollFailed(step: Policy, slow: bool)
    | HeardAgain

  function Next(p: Pace, e: Event): Pace {
    match e
    case PolicyChecked(step) => ApplyPolicy(p, step)
    case PowerFlipped(step, enabled) => RestartOn(ApplyPolicy(p, step), enabled)
    case Command(step, enabled) => CommandLanded(p, step, enabled)
    case PollSucceeded(step, changed, slow) => Succeeded(p, step, changed, slow)
    case PollFailed(step, slow) => Failed(p, step, slow)
    case HeardAgain => Returned(p)
  }

  ghost predicate IsRun(trace: seq<Pace>, events: seq<Event>) {
    && |trace| == |events| + 1
    && trace[0] == START
    && (forall k | 0 <= k < |events| :: StepAt(trace, events, k))
  }

  ghost predicate StepAt(trace: seq<Pace>, events: seq<Event>, k: int)
    requires 0 <= k < |events| && |trace| == |events| + 1
  {
    trace[k + 1] == Next(trace[k], events[k])
  }

  // ---- the interval ----

  /** No interval exactly while the policy polls nothing; else one from the base to the maximum, at or
      above the slow device's floor already. */
  ghost predicate PaceSound(p: Pace) {
    && (p.nominal.None? <==> p.policy.Unpolled())
    && (p.nominal.Some? ==> BASE <= p.nominal.value <= MAXIMUM && p.nominal.value >= Floor(p.slowSteps))
    && p.onSteps <= MAX_ON_BACKOFF_STEPS && p.slowSteps <= SLOW_MAX_STEPS
  }

  lemma {:induction false} PowerGrows(n: nat, m: nat)
    requires n <= m
    ensures 1 <= Power(n) <= Power(m)
  {
    if m == 0 {
    } else if n < m {
      PowerGrows(n, m - 1);
    } else {
      PowerGrows(n - 1, m - 1);
    }
  }

  lemma IntervalBounds(n: nat)
    ensures BASE <= Min(BASE * Power(n), MAXIMUM) <= MAXIMUM
    ensures BASE <= Min(BASE * Power(n), ON_MAXIMUM) <= MAXIMUM
    ensures 0 <= Floor(n) <= MAXIMUM
  {
    PowerGrows(0, n);
  }

  lemma SetIntervalSound(p: Pace, nominal: int)
    requires p.onSteps <= MAX_ON_BACKOFF_STEPS && p.slowSteps <= SLOW_MAX_STEPS && !p.policy.Unpolled()
    requires BASE <= nominal <= MAXIMUM
    ensures PaceSound(SetInterval(p, nominal))
  {
    hide Power;
    IntervalBounds(p.slowSteps);
  }

  lemma BackoffBounds(p: Pace)
    ensures BASE <= FailureInterval(p.backoffFailures) <= MAXIMUM && BASE <= HealthyInterval(p) <= MAXIMUM
  {
    hide Power;
    IntervalBounds(Min(Max(0, p.backoffFailures - 1), MAX_BACKOFF_STEPS));
    IntervalBounds(p.onSteps);
  }

  lemma ApplyPolicySound(p: Pace, step: Policy)
    requires PaceSound(p)
    ensures PaceSound(ApplyPolicy(p, step))
  {
    hide SetInterval, FailureInterval, Floor;
    BackoffBounds(p);
    var p' := SetPolicy(p, step);
    if !step.Unpolled() {
      SetIntervalSound(p', FailureInterval(p.backoffFailures));
      SetIntervalSound(p', BASE);
    }
  }

  lemma RestartOnSound(p: Pace, enabled: bool)
    requires PaceSound(p)
    ensures PaceSound(RestartOn(p, enabled))
  {
    hide SetInterval, Floor;
    if RestartsOn(p.(onSteps := 0), enabled) {
      SetIntervalSound(p.(onSteps := 0), BASE);
    }
  }

  lemma CommandLandedSound(p: Pace, step: Policy, enabled: bool)
    requires PaceSound(p)
    ensures PaceSound(CommandLanded(p, step, enabled))
  {
    hide SetInterval, ApplyPolicy, RestartOn, Floor;
    ApplyPolicySound(p, step);
    RestartOnSound(ApplyPolicy(p, step), enabled);
    var p' := RestartOn(ApplyPolicy(p, step), enabled);
    if Resets(p', enabled) {
      SetIntervalSound(p'.(resetUsed := true), BASE);
    }
  }

  lemma SucceededSound(p: Pace, step: Policy, changed: bool, slow: bool)
    requires PaceSound(p)
    ensures PaceSound(Succeeded(p, step, changed, slow))
  {
    hide SetInterval, HealthyInterval, Floor;
    var p' := Succeeded(p, step, changed, slow);
    if !step.Unpolled() {
      BackoffBounds(BeforeInterval(p, step, changed, slow));
      SetIntervalSound(BeforeInterval(p, step, changed, slow), HealthyInterval(BeforeInterval(p, step, changed, slow)));
    }
  }

  lemma FailedSound(p: Pace, step: Policy, slow: bool)
    requires PaceSound(p)
    ensures PaceSound(Failed(p, step, slow))
  {
    hide SetInterval, FailureInterval, Floor;
    if !step.Unpolled() {
      BackoffBounds(AfterFailure(p, step, slow));
      SetIntervalSound(AfterFailure(p, step, slow), FailureInterval(AfterFailure(p, step, slow).backoffFailures));
    }
  }

  lemma StepKeepsPace(p: Pace, e: Event)
    requires PaceSound(p)
    ensures PaceSound(Next(p, e))
  {
    hide SetInterval, ApplyPolicy, RestartOn, CommandLanded, Succeeded, Failed, Floor;
    match e
    case PolicyChecked(step) => ApplyPolicySound(p, step);
    case PowerFlipped(step, enabled) => ApplyPolicySound(p, step); RestartOnSound(ApplyPolicy(p, step), enabled);
    case Command(step, enabled) => CommandLandedSound(p, step, enabled);
    case PollSucceeded(step, changed, slow) => SucceededSound(p, step, changed, slow);
    case PollFailed(step, slow) => FailedSound(p, step, slow);
    case HeardAgain => if !p.policy.Unpolled() { SetIntervalSound(p, BASE); }
  }

  lemma {:induction false} PaceAlwaysSound(trace: seq<Pace>, events: seq<Event>, n: nat)
    requires IsRun(trace, events) && n < |trace|
    ensures PaceSound(trace[n])
  {
    hide Next, Power;
    if n > 0 {
      PaceAlwaysSound(trace, events, n - 1);
      assert StepAt(trace, events, n - 1);
      StepKeepsPace(trace[n - 1], events[n - 1]);
    }
  }

  // ---- the backoffs in closed form ----

  lemma FourDoublings(n: nat)
    requires n >= 4
    ensures BASE * Power(n) >= MAXIMUM
  {
    PowerGrows(4, n);
    assert Power(4) == 16;
  }

  /** Clamping the exponent changes nothing: the backoff is the capped power for every count. */
  lemma FailureClosedForm(failures: nat)
    ensures FailureInterval(failures) == Min(BASE * Power(Max(0, failures - 1)), MAXIMUM)
  {
    if failures > 5 {
      FourDoublings(failures - 1);
      assert Power(4) == 16;
    }
  }

  /** A light that stays on and reads the same `m - n` polls in a row, with nothing else between,
      backs off to the capped power of that many doublings. */
  lemma {:induction false} OnBackoffClosedForm(trace: seq<Pace>, events: seq<Event>, n: nat, m: nat)
    requires IsRun(trace, events) && n <= m < |trace| && 0 < m
    requires trace[n].policy.On? && trace[n].onSteps == 0
    requires forall k | n <= k < m :: events[k] == PollSucceeded(On, false, false)
    requires n < m
    ensures trace[m].policy.On? && trace[m].onSteps == Min(m - n, MAX_ON_BACKOFF_STEPS)
    ensures trace[m].nominal == Some(Min(BASE * Power(m - n), ON_MAXIMUM))
  {
    assert StepAt(trace, events, m - 1);
    assert events[m - 1] == PollSucceeded(On, false, false);
    if n < m - 1 {
      OnBackoffClosedForm(trace, events, n, m - 1);
    }
    var steps := trace[m].onSteps;
    if m - n > 3 {
      PowerGrows(3, m - n);
    }
    assert Power(3) == 8;
    IntervalBounds(steps);
  }

  /** After a failed poll of a polled device the interval is its backoff, floored: `n` plain failures
      in a row since the last success back off to the capped power. */
  lemma {:induction false} FailureStreak(trace: seq<Pace>, events: seq<Event>, n: nat, m: nat)
    requires IsRun(trace, events) && n < m < |trace| && trace[n].backoffFailures == 0
    requires forall k | n <= k < m :: events[k].PollFailed? && !events[k].slow
    ensures trace[m].backoffFailures == m - n && trace[m].slowSteps == trace[n].slowSteps
    ensures !trace[m].policy.Unpolled() ==>
              trace[m].nominal == Some(Max(Min(BASE * Power(m - n - 1), MAXIMUM), Floor(trace[n].slowSteps)))
  {
    hide Power, Floor;
    assert StepAt(trace, events, m - 1);
    if n < m - 1 {
      FailureStreak(trace, events, n, m - 1);
    }
    FailureClosedForm(m - n);
  }

  // ---- commands can't keep postponing a poll ----

  /** The event re-arms HA's poll timer with the base interval because a command landed. */
  predicate CommandRearms(p: Pace, e: Event) {
    e.Command? &&
    (RestartsOn(ApplyPolicy(p, e.step).(onSteps := 0), e.enabled)
     || Resets(RestartOn(ApplyPolicy(p, e.step), e.enabled), e.enabled))
  }

  /** After a command the next poll comes at the base cadence, floored: for a light that is on, and
      after failures the first time in the streak; later in it the backoff stays. */
  lemma CommandRestoresBase(p: Pace, step: Policy)
    requires PaceSound(p) && step == p.policy && !step.Unpolled()
    ensures var after := Next(p, Command(step, true));
            if (p.failures == 0 && step.On?) || (p.failures > 0 && !p.resetUsed)
            then after.nominal == Some(Floored(p, BASE))
            else after.nominal == p.nominal
  {
    hide Power;
  }

  /** Once a command landed, the next with the policy unchanged re-arms nothing: a stream of commands
      postpones the poll once. */
  lemma CommandsPostponeOnce(p: Pace, step: Policy, enabled: bool, again: bool)
    requires PaceSound(p) && (enabled || !again)
    ensures !CommandRearms(Next(p, Command(step, enabled)), Command(step, again))
  {
    hide Power;
  }

  function ResetsIn(trace: seq<Pace>, n: nat, m: nat): nat
    requires n <= m < |trace|
  {
    if n == m then 0 else ResetsIn(trace, n, m - 1) + if !trace[m - 1].resetUsed && trace[m].resetUsed then 1 else 0
  }

  /** Commands drop the failure backoff at most once until a poll succeeds. */
  lemma {:induction false} OneResetAStreak(trace: seq<Pace>, events: seq<Event>, n: nat, m: nat)
    requires IsRun(trace, events) && n <= m < |trace|
    requires forall k | n <= k < m :: !events[k].PollSucceeded?
    ensures ResetsIn(trace, n, m) <= 1
    ensures trace[n].resetUsed || ResetsIn(trace, n, m) == 1 ==> trace[m].resetUsed
    ensures trace[n].resetUsed ==> ResetsIn(trace, n, m) == 0
  {
    hide Power;
    if n < m {
      OneResetAStreak(trace, events, n, m - 1);
      assert StepAt(trace, events, m - 1);
    }
  }

  // ---- the counters, from the events ----

  /** The policy a step of the program found, if it looked. */
  function StepOf(e: Event): Option<Policy> {
    match e
    case HeardAgain => None
    case PolicyChecked(step) => Some(step)
    case PowerFlipped(step, _) => Some(step)
    case Command(step, _) => Some(step)
    case PollSucceeded(step, _, _) => Some(step)
    case PollFailed(step, _) => Some(step)
  }

  /** The policy last found. */
  function PolicyAfter(events: seq<Event>, n: nat): Policy
    requires n <= |events|
  {
    if n == 0 then Fixed
    else if StepOf(events[n - 1]).Some? then StepOf(events[n - 1]).value
    else PolicyAfter(events, n - 1)
  }

  /** How many of the events count since the last that starts the count over (which may count itself). */
  function Since(events: seq<Event>, n: nat, restarts: Event -> bool, counts: Event -> bool): nat
    requires n <= |events|
  {
    if n == 0 then 0
    else (if restarts(events[n - 1]) then 0 else Since(events, n - 1, restarts, counts)) + if counts(events[n - 1]) then 1 else 0
  }

  function PollsFailed(events: seq<Event>, n: nat): nat
    requires n <= |events|
  {
    Since(events, n, (e: Event) => e.PollSucceeded?, (e: Event) => e.PollFailed?)
  }

  /** Those of them that count towards the backoff: all but the slow ones. */
  function BackoffFailures(events: seq<Event>, n: nat): nat
    requires n <= |events|
  {
    Since(events, n, (e: Event) => e.PollSucceeded?, (e: Event) => e.PollFailed? && !e.slow)
  }

  /** The polls that were slow since one read the device without being so. */
  function SlowPolls(events: seq<Event>, n: nat): nat
    requires n <= |events|
  {
    Since(events, n, (e: Event) => e.PollSucceeded? && !e.slow, (e: Event) => (e.PollSucceeded? || e.PollFailed?) && e.slow)
  }

  /** The policy moved with the event, it was a command or a flip of the power, or it read news. */
  predicate OnNews(events: seq<Event>, i: nat)
    requires i < |events|
  {
    var e := events[i];
    || PolicyAfter(events, i + 1) != PolicyAfter(events, i)
    || e.Command? || e.PowerFlipped? || (e.PollSucceeded? && e.changed)
  }

  /** The polls since that found a light still on, and the same as before. */
  function SamePolls(events: seq<Event>, n: nat): nat
    requires n <= |events|
  {
    if n == 0 || OnNews(events, n - 1) then 0
    else SamePolls(events, n - 1) + if events[n - 1].PollSucceeded? && events[n - 1].step.On? then 1 else 0
  }

  /** On every run each counter counts those, the capped ones up to their limit. */
  lemma {:induction false} CountersExact(trace: seq<Pace>, events: seq<Event>, n: nat)
    requires IsRun(trace, events) && n < |trace|
    ensures trace[n].policy == PolicyAfter(events, n)
    ensures trace[n].failures == PollsFailed(events, n) && trace[n].backoffFailures == BackoffFailures(events, n)
    ensures trace[n].slowSteps == if SlowPolls(events, n) < SLOW_MAX_STEPS then SlowPolls(events, n) else SLOW_MAX_STEPS
    ensures trace[n].onSteps == if SamePolls(events, n) < MAX_ON_BACKOFF_STEPS then SamePolls(events, n) else MAX_ON_BACKOFF_STEPS
  {
    hide Next, Power;
    if n > 0 {
      CountersExact(trace, events, n - 1);
      assert StepAt(trace, events, n - 1);
      StepCounters(trace[n - 1], events[n - 1]);
    }
  }

  lemma StepCounters(p: Pace, e: Event)
    ensures var p' := Next(p, e);
            && p'.policy == (if StepOf(e).Some? then StepOf(e).value else p.policy)
            && p'.failures == (if e.PollSucceeded? then 0 else if e.PollFailed? then p.failures + 1 else p.failures)
            && p'.backoffFailures == (if e.PollSucceeded? then 0
                                      else if e.PollFailed? && !e.slow then p.backoffFailures + 1 else p.backoffFailures)
            && p'.slowSteps == (if e.PollSucceeded? && !e.slow then 0
                                else if (e.PollSucceeded? || e.PollFailed?) && e.slow then Min(p.slowSteps + 1, SLOW_MAX_STEPS)
                                else p.slowSteps)
            && p'.onSteps == (if p'.policy != p.policy || e.Command? || e.PowerFlipped? || (e.PollSucceeded? && e.changed) then 0
                              else if e.PollSucceeded? && e.step.On? then Min(p.onSteps + 1, MAX_ON_BACKOFF_STEPS)
                              else p.onSteps)
  {
    hide Floored, FailureInterval, HealthyInterval, SetInterval, RestartOn, ApplyPolicy;
    match e
    case PollSucceeded(step, changed, slow) => SetIntervalKeeps(BeforeInterval(p, step, changed, slow));
    case PollFailed(step, slow) => SetIntervalKeeps(AfterFailure(p, step, slow));
    case HeardAgain => SetIntervalKeeps(p);
    case PolicyChecked(step) => ApplyPolicyKeeps(p, step);
    case PowerFlipped(step, enabled) => RestartKeeps(p, step, enabled);
    case Command(step, enabled) =>
      RestartKeeps(p, step, enabled);
      SetIntervalKeeps(RestartOn(ApplyPolicy(p, step), enabled).(resetUsed := true));
  }

  predicate KeepsCounters(p: Pace, p': Pace) {
    p' == p.(nominal := p'.nominal, resetUsed := p'.resetUsed)
  }

  lemma SetIntervalKeeps(p: Pace)
    ensures forall nominal :: KeepsCounters(p, SetInterval(p, nominal))
  {
  }

  lemma ApplyPolicyKeeps(p: Pace, step: Policy)
    ensures KeepsCounters(p.(policy := step, onSteps := if step == p.policy then p.onSteps else 0), ApplyPolicy(p, step))
  {
    hide SetInterval, FailureInterval;
    SetIntervalKeeps(SetPolicy(p, step));
  }

  lemma RestartKeeps(p: Pace, step: Policy, enabled: bool)
    ensures KeepsCounters(p.(policy := step, onSteps := 0), RestartOn(ApplyPolicy(p, step), enabled))
  {
    hide SetInterval, Floored, ApplyPolicy;
    ApplyPolicyKeeps(p, step);
    SetIntervalKeeps(ApplyPolicy(p, step).(onSteps := 0));
  }


  // ---- the interval, from the events ----

  function TwoTo(n: nat): int {
    if n == 0 then 1 else TwoTo(n - 1) + TwoTo(n - 1)
  }

  function Capped(interval: int, cap: int): int {
    if interval < cap then interval else cap
  }

  /** The interval, but at least the slow device's floor: the base doubled for each slow poll, up to
      three, and up to the maximum. */
  function AtLeastFloor(events: seq<Event>, n: nat, interval: int): int
    requires n <= |events|
  {
    var steps := if SlowPolls(events, n) < SLOW_MAX_STEPS then SlowPolls(events, n) else SLOW_MAX_STEPS;
    var floor := if steps == 0 then 0 else Capped(BASE * TwoTo(steps), MAXIMUM);
    if interval < floor then floor else interval
  }

  /** The base, doubled for each failure after the first, up to the maximum. */
  function FailureBackoff(events: seq<Event>, n: nat): int
    requires n <= |events|
  {
    Capped(BASE * TwoTo(if BackoffFailures(events, n) == 0 then 0 else BackoffFailures(events, n) - 1), MAXIMUM)
  }

  /** The base, doubled for each poll that found a light still on and the same, up to its maximum. */
  function OnBackoff(events: seq<Event>, n: nat): int
    requires n <= |events|
  {
    Capped(BASE * TwoTo(SamePolls(events, n)), ON_MAXIMUM)
  }

  /** After a poll. */
  function AfterPoll(events: seq<Event>, n: nat): Option<int>
    requires 0 < n <= |events| && (events[n - 1].PollSucceeded? || events[n - 1].PollFailed?)
  {
    var e := events[n - 1];
    if e.step.Off? || e.step.Relay? then None
    else Some(AtLeastFloor(events, n, if e.PollFailed? then FailureBackoff(events, n)
                                      else if e.step.On? then OnBackoff(events, n) else BASE))
  }

  /** When a step finds the policy moved: polls that resume after failures resume backed off, else the
      base cadence starts over, but failing polls between two polled steps keep their backoff. */
  function AfterMove(events: seq<Event>, n: nat, nominal: Option<int>): Option<int>
    requires 0 < n <= |events| && StepOf(events[n - 1]).Some?
  {
    var step := StepOf(events[n - 1]).value;
    if step == PolicyAfter(events, n - 1) then nominal
    else if step.Off? || step.Relay? then None
    else if PollsFailed(events, n) == 0 then Some(AtLeastFloor(events, n, BASE))
    else if nominal.None? then Some(AtLeastFloor(events, n, FailureBackoff(events, n)))
    else nominal
  }

  /** A flip of the power, or a command, brings a light that is on back to the base cadence; a command
      does so for failing polls, the first time in the streak. */
  predicate BackToBase(events: seq<Event>, n: nat, resetUsed: bool)
    requires 0 < n <= |events|
  {
    var e := events[n - 1];
    && (e.PowerFlipped? || e.Command?) && e.enabled
    && if PollsFailed(events, n) == 0 then e.step.On?
       else e.Command? && !resetUsed && !e.step.Off? && !e.step.Relay?
  }

  lemma {:induction false} PowersOfTwo(n: nat)
    ensures TwoTo(n) == Power(n)
  {
    if n > 0 {
      PowersOfTwo(n - 1);
    }
  }

  /** The computed intervals are those. */
  lemma IntervalsAre(trace: seq<Pace>, events: seq<Event>, n: nat)
    requires IsRun(trace, events) && n < |trace|
    ensures forall interval :: Floored(trace[n], interval) == AtLeastFloor(events, n, interval)
    ensures FailureInterval(trace[n].backoffFailures) == FailureBackoff(events, n)
    ensures Min(BASE * Power(trace[n].onSteps), ON_MAXIMUM) == OnBackoff(events, n)
  {
    hide StepAt, Power, SlowPolls, BackoffFailures, SamePolls, TwoTo;
    CountersExact(trace, events, n);
    PowersOfTwo(trace[n].slowSteps);
    FailureClosedForm(BackoffFailures(events, n));
    PowersOfTwo(Max(0, BackoffFailures(events, n) - 1));
    PowersOfTwo(SamePolls(events, n));
    if SamePolls(events, n) > 3 {
      PowerGrows(3, SamePolls(events, n));
      EightTimes();
    }
  }

  lemma EightTimes()
    ensures Power(3) == 8
  {
  }

  lemma StepInterval(p: Pace, e: Event)
    requires PaceSound(p)
    ensures var p' := Next(p, e);
            p'.nominal ==
              if e.PollSucceeded? || e.PollFailed? then
                if e.step.Off? || e.step.Relay? then None
                else Some(Floored(p', if e.PollFailed? then FailureInterval(p'.backoffFailures)
                                      else if e.step.On? then Min(BASE * Power(p'.onSteps), ON_MAXIMUM) else BASE))
              else if e.HeardAgain? then
                if p.policy.Off? || p.policy.Relay? then p.nominal else Some(Floored(p', BASE))
              else if (e.PowerFlipped? || e.Command?) && e.enabled
                   && if p.failures == 0 then e.step.On? else e.Command? && !p.resetUsed && !e.step.Off? && !e.step.Relay?
              then Some(Floored(p', BASE))
              else if e.step == p.policy then p.nominal
              else if e.step.Off? || e.step.Relay? then None
              else if p.failures == 0 then Some(Floored(p', BASE))
              else if p.nominal.None? then Some(Floored(p', FailureInterval(p'.backoffFailures)))
              else p.nominal
  {
    hide Power, FailureInterval, Floor;
    if e.PowerFlipped? || e.Command? {
      ApplyPolicySound(p, e.step);
    }
  }

  /** On every run: the interval each event leaves. */
  lemma IntervalExact(trace: seq<Pace>, events: seq<Event>, n: nat)
    requires IsRun(trace, events) && 0 < n < |trace|
    ensures var e, before := events[n - 1], trace[n - 1].nominal;
            trace[n].nominal ==
              if e.PollSucceeded? || e.PollFailed? then AfterPoll(events, n)
              else if e.HeardAgain? then
                if PolicyAfter(events, n) in {Off, Relay} then before else Some(AtLeastFloor(events, n, BASE))
              else if BackToBase(events, n, trace[n - 1].resetUsed) then Some(AtLeastFloor(events, n, BASE))
              else AfterMove(events, n, before)
  {
    hide Floored, FailureInterval, Since, SamePolls, AtLeastFloor, FailureBackoff, OnBackoff, Next, Power, PaceSound;
    assert StepAt(trace, events, n - 1);
    CountersExact(trace, events, n - 1);
    CountersExact(trace, events, n);
    StepCounters(trace[n - 1], events[n - 1]);
    IntervalsAre(trace, events, n);
    PaceAlwaysSound(trace, events, n - 1);
    StepInterval(trace[n - 1], events[n - 1]);
  }

  lemma StepReset(p: Pace, e: Event)
    requires PaceSound(p)
    ensures var p' := Next(p, e);
            var applied := if e.Command? then Next(p, PolicyChecked(e.step)).nominal else None;
            var resets := e.Command? && e.enabled && p.failures > 0 && applied.Some? && applied.value > Floored(p', BASE);
            p'.resetUsed <==> !e.PollSucceeded? && (p.resetUsed || resets)
  {
    hide Power, FailureInterval, Floor;
    if e.Command? {
      ApplyPolicySound(p, e.step);
    }
  }

  /** On every run the streak's one reset is used by the first command that finds failing polls backed
      off beyond the base, and given back by a poll that succeeds. */
  lemma ResetExact(trace: seq<Pace>, events: seq<Event>, n: nat)
    requires IsRun(trace, events) && 0 < n < |trace|
    ensures var e := events[n - 1];
            var found := if e.Command? then AfterMove(events, n, trace[n - 1].nominal) else None;
            var resets := e.Command? && e.enabled && PollsFailed(events, n) > 0
                          && found.Some? && found.value > AtLeastFloor(events, n, BASE);
            trace[n].resetUsed <==> !e.PollSucceeded? && (trace[n - 1].resetUsed || resets)
  {
    hide Floored, FailureInterval, Since, SamePolls, AtLeastFloor, FailureBackoff, OnBackoff, Next, Power, PaceSound;
    var p, e := trace[n - 1], events[n - 1];
    assert StepAt(trace, events, n - 1);
    CountersExact(trace, events, n - 1);
    CountersExact(trace, events, n);
    StepCounters(p, e);
    IntervalsAre(trace, events, n);
    PaceAlwaysSound(trace, events, n - 1);
    StepReset(p, e);
    if e.Command? {
      StepCounters(p, PolicyChecked(e.step));
      StepInterval(p, PolicyChecked(e.step));
      FlooredAlike(Next(p, PolicyChecked(e.step)), trace[n]);
    }
  }

  lemma FlooredAlike(p: Pace, q: Pace)
    requires p.slowSteps == q.slowSteps
    ensures forall interval :: Floored(p, interval) == Floored(q, interval)
  {
  }
}
