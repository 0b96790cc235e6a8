/** A coordinator's poll interval as the program writes it: a policy, an interval and counters,
    updated in place. Each method is proved to make exactly the step its function in Interval.dfy
    describes; those that re-arm Home Assistant's timer say when. */
module IntervalObject {
  import opened Options
  import opened I = Interval

  class Coordinator {
    var pollPolicy: Policy
    var nominalInterval: Option<int>
    var onBackoffSteps: nat
    var slowPollSteps: nat
    var consecutiveFailures: nat
    var backoffFailures: nat
    var commandResetUsed: bool

    function State(): Pace
      reads this
    {
      Pace(pollPolicy, nominalInterval, onBackoffSteps, slowPollSteps, consecutiveFailures, backoffFailures,
           commandResetUsed)
    }

    constructor ()
      ensures State() == I.START
    {
      pollPolicy, nominalInterval := Fixed, Some(BASE);
      onBackoffSteps, slowPollSteps, consecutiveFailures, backoffFailures := 0, 0, 0, 0;
      commandResetUsed := false;
    }

    method SetPollInterval(nominal: int)
      modifies this
      ensures State() == I.SetInterval(old(State()), nominal)
    {
      nominalInterval := Some(Floored(State(), nominal));
    }

    method ClearPollInterval()
      modifies this
      ensures State() == old(State()).(nominal := None)
    {
      nominalInterval := None;
    }

    method SetPolicy(step: Policy) returns (moved: bool)
      modifies this
      ensures State() == I.SetPolicy(old(State()), step) && moved == (step != old(pollPolicy))
    {
      if step == pollPolicy {
        return false;
      }
      pollPolicy := step;
      onBackoffSteps := 0;
      return true;
    }

    /** Re-checks the policy between polls. The timer is re-armed only for another interval. */
    method ApplyPolicy(step: Policy, enabled: bool) returns (moved: bool, rearmed: bool)
      modifies this
      ensures State() == I.ApplyPolicy(old(State()), step) && moved == (step != old(pollPolicy))
      ensures rearmed == (enabled && nominalInterval.Some? && nominalInterval != old(nominalInterval))
    {
      hide FailureInterval, Floor;
      var previous := nominalInterval;
      rearmed := false;
      moved := SetPolicy(step);
      if !moved {
        return;
      }
      if pollPolicy.Unpolled() {
        ClearPollInterval();
        return;
      }
      var nominal;
      if previous.None? {
        nominal := if consecutiveFailures > 0 then FailureInterval(backoffFailures) else BASE;
      } else if consecutiveFailures > 0 {
        return;
      } else {
        nominal := BASE;
      }
      nominal := Floored(State(), nominal);
      FlooredTwice(State(), if previous.None? && consecutiveFailures > 0 then FailureInterval(backoffFailures) else BASE);
      if Some(nominal) != previous {
        SetPollInterval(nominal);
        rearmed := enabled;
      }
    }

    /** A light's on-backoff starts over after a change. */
    method RestartOnBackoff(enabled: bool) returns (rearmed: bool)
      modifies this
      ensures State() == I.RestartOn(old(State()), enabled)
      ensures rearmed == RestartsOn(old(State()).(onSteps := 0), enabled)
    {
      hide Floor;
      onBackoffSteps := 0;
      if !pollPolicy.On? || consecutiveFailures > 0 || !enabled || nominalInterval.None?
         || nominalInterval.value <= Floored(State(), BASE) {
        return false;
      }
      SetPollInterval(BASE);
      return true;
    }

    /** A command just reached the device. */
    method HandleCommandSuccess(step: Policy, enabled: bool) returns (rescheduled: bool, rearmed: bool)
      modifies this
      ensures State() == CommandLanded(old(State()), step, enabled)
      ensures rearmed ==> rescheduled
      ensures step == old(pollPolicy) ==> (rearmed <==> CommandRearms(old(State()), Command(step, enabled)))
    {
      hide Floor, FailureInterval, I.ApplyPolicy;
      ghost var before := State();
      rescheduled, rearmed := ApplyPolicy(step, enabled);
      SamePolicy(before, step);
      ghost var applied := State();
      var restarted := RestartOnBackoff(enabled);
      rescheduled := restarted || rescheduled;
      rearmed := restarted || rearmed;
      if consecutiveFailures > 0 && !commandResetUsed && enabled && nominalInterval.Some?
         && nominalInterval.value > Floored(State(), BASE) {
        commandResetUsed := true;
        SetPollInterval(BASE);
        rescheduled := true;
        rearmed := true;
      }
    }

    /** The device is heard again after polls were skipped for its absence. */
    method HeardAgain()
      modifies this
      ensures State() == Returned(old(State()))
    {
      if !pollPolicy.Unpolled() {
        SetPollInterval(BASE);
      }
    }

    method NotePollSpeed(slow: bool)
      modifies this
      ensures State() == NoteSpeed(old(State()), slow)
    {
      if slow {
        slowPollSteps := Min(slowPollSteps + 1, SLOW_MAX_STEPS);
      } else {
        slowPollSteps := 0;
      }
    }

    method NoteSuccess(step: Policy, changed: bool, slow: bool)
      modifies this
      ensures State() == Succeeded(old(State()), step, changed, slow)
    {
      hide HealthyInterval, Floor;
      consecutiveFailures, backoffFailures, commandResetUsed := 0, 0, false;
      NotePollSpeed(slow);
      var moved := SetPolicy(step);
      if moved || changed {
        onBackoffSteps := 0;
      } else if pollPolicy.On? {
        onBackoffSteps := Min(onBackoffSteps + 1, MAX_ON_BACKOFF_STEPS);
      }
      if pollPolicy.Unpolled() {
        ClearPollInterval();
      } else {
        SetPollInterval(HealthyInterval(State()));
      }
    }

    method NoteFailure(step: Policy, slow: bool)
      modifies this
      ensures State() == Failed(old(State()), step, slow)
    {
      hide FailureInterval, Floor;
      consecutiveFailures := consecutiveFailures + 1;
      if slow {
        slowPollSteps := Min(slowPollSteps + 1, SLOW_MAX_STEPS);
      } else {
        backoffFailures := backoffFailures + 1;
      }
      var moved := SetPolicy(step);
      if pollPolicy.Unpolled() {
        ClearPollInterval();
      } else {
        SetPollInterval(FailureInterval(backoffFailures));
      }
    }
  }

  lemma FlooredTwice(p: Pace, interval: int)
    ensures Floored(p, Floored(p, interval)) == Floored(p, interval)
  {
  }

  lemma SamePolicy(p: Pace, step: Policy)
    ensures step == p.policy ==> I.ApplyPolicy(p, step) == p
  {
  }
}
