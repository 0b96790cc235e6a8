/** By when a poll that commands held off runs: what keeps its deadline, and exactly what loses it. */
module HoldoffDeadline {
  import opened Options
  import opened Holdoff

  /** A poll is owed by `deadline`: held with a cap no later, running, or about to. `apart`: held
      apart, as the first poll after setup is (an update held again is, if one held meanwhile is). */
  ghost predicate Owed(p: Polls, deadline: int, apart: bool) {
    || (p.cap.Some? && p.cap.value <= deadline && (apart ==> p.firstWaiting))
    || (p.running && InTime(p.current, deadline, apart && !p.firstWaiting))
    || (exists t :: t in p.tasks && TaskInTime(p.tasks[t], deadline, apart))
  }

  predicate InTime(current: Option<Again>, deadline: int, apart: bool) {
    current.Some? ==> current.value.since + HOLDOFF_MAX <= deadline && (apart ==> current.value.apart)
  }

  predicate TaskInTime(background: Option<Background>, deadline: int, apart: bool) {
    background.Some? ==>
      background.value.heldSince.Some? && background.value.heldSince.value + HOLDOFF_MAX <= deadline
      && (apart ==> background.value.apart)
  }

  /** A poll ran, or was dropped: by an update that read the device (or failed), HA stopping or the
      entry unloading; a poll not held apart also by a re-arm or a policy step. */
  predicate Settles(p: Polls, at: At, apart: bool) {
    match at.event
    case UpdateEnds(_) => true
    case Abandoned(_) => true
    case Shutdown => true
    case Rearm(_) => !apart
    case FindsItsPlace(_) => false
    case CapFires(_) => p.stopping
    case HoldingEnds(_) => p.stopping
    case Request(_, _) => p.stopping
    case _ => false
  }

  /** The cap fires while an update runs that came due later: the update uses the held poll up, and
      may be held again itself. */
  predicate Overtakes(p: Polls, at: At, deadline: int, apart: bool) {
    at.event.CapFires? && p.running && !InTime(p.current, deadline, apart && !p.firstWaiting)
  }

  /** A refresh that came due later starts while a scheduled poll is held: that is dropped for it. */
  predicate Replaces(p: Polls, at: At, deadline: int, apart: bool)
    requires Enabled(p, at)
  {
    !apart && at.event.UpdateStarts? && p.Held() && !p.firstWaiting
    && !InTime(TakenBy(p.(now := at.now), at.event.starter), deadline, false)
  }

  /** A one-off poll not held apart runs while one held apart waits with nothing holding it: the two
      run as one, no longer apart. */
  predicate Demotes(p: Polls, at: At, apart: bool) {
    apart && at.event.Request? && !at.event.keep && p.firstWaiting && !p.holding && !p.running
  }

  lemma HoldOwed(p: Polls, first: bool, since: Option<int>, deadline: int, apart: bool)
    requires Owed(p, deadline, apart)
    ensures Owed(Hold(p, first, since), deadline, apart)
  {
  }

  /** Held again, a poll's cap counts from the earlier of its own and the held poll's time. */
  lemma HeldAgainOwed(p: Polls, rearms: bool, deadline: int, apart: bool)
    requires CapExact(p) && p.running && p.current.Some?
    requires InTime(p.current, deadline, apart && !p.firstWaiting)
             || (p.cap.Some? && p.cap.value <= deadline && (apart ==> p.firstWaiting))
    ensures Owed(EndUpdate(p, p.current, rearms), deadline, apart)
  {
  }

  lemma ReleaseOwed(p: Polls, task: Task, apart: Option<bool>, deadline: int, kept: bool)
    requires CapExact(p) && Owed(p, deadline, kept) && task !in p.tasks && !p.stopping && !p.running
    requires apart.None? || (kept && p.firstWaiting ==> apart.value)
    ensures Owed(ReleasePoll(p, task, apart), deadline, kept)
  {
    var p' := ReleasePoll(p, task, apart);
    if t :| t in p.tasks && TaskInTime(p.tasks[t], deadline, kept) {
      assert p'.tasks[t] == p.tasks[t];
    } else {
      assert task in p'.tasks;
    }
  }

  lemma CapReachedOwed(p: Polls, task: Task, deadline: int, apart: bool)
    requires CapExact(p) && Owed(p, deadline, apart) && task !in p.tasks && !p.stopping && p.cap.Some?
    requires p.running ==> InTime(p.current, deadline, apart && !p.firstWaiting)
    ensures Owed(CapReached(p, task), deadline, apart)
  {
    var p' := CapReached(p, task);
    if !p.running {
      assert task in p'.tasks && TaskInTime(p'.tasks[task], deadline, apart);
    }
  }

  lemma StartUpdateOwed(p: Polls, starter: Option<Task>, deadline: int, apart: bool)
    requires CapExact(p) && Owed(p, deadline, apart) && !p.running && (starter.Some? ==> starter.value in p.tasks)
    requires apart || !p.Held() || p.firstWaiting || InTime(TakenBy(p, starter), deadline, false)
    ensures Owed(StartUpdate(p, starter), deadline, apart)
  {
    var p' := StartUpdate(p, starter);
    if p.cap.Some? && p.cap.value <= deadline && (apart ==> p.firstWaiting) {
      if p.firstWaiting {
        assert p'.cap == p.cap && p'.firstWaiting;
      }
    } else if t :| t in p.tasks && TaskInTime(p.tasks[t], deadline, apart) {
      if starter != Some(t) {
        assert t in p'.tasks && p'.tasks[t] == p.tasks[t];
      }
    }
  }

  lemma UnsubOwed(p: Polls, deadline: int, armed: bool)
    requires Owed(p, deadline, true)
    ensures Owed(UnsubRefresh(p).(timer := armed), deadline, true)
  {
  }

  lemma QuietOwed(p: Polls, p': Polls, deadline: int, apart: bool)
    requires Owed(p, deadline, apart)
    requires p'.cap == p.cap && p'.firstWaiting == p.firstWaiting && p'.running == p.running && p'.current == p.current
    requires forall t | t in p.tasks :: t in p'.tasks && p'.tasks[t] == p.tasks[t]
    ensures Owed(p', deadline, apart)
  {
  }

  /** Owed by a task yet to start, while an update is held again. */
  lemma FindsItsPlaceOwed(p: Polls, rearms: bool, deadline: int, apart: bool)
    requires CapExact(p) && p.running && p.current.Some? && Owed(p, deadline, apart)
    ensures Owed(EndUpdate(p, p.current, rearms), deadline, apart)
  {
    hide TaskInTime, EndUpdate;
    TasksKept(p, p.current, rearms);
    if t :| t in p.tasks && TaskInTime(p.tasks[t], deadline, apart) {
    } else {
      HeldAgainOwed(p, rearms, deadline, apart);
    }
  }

  /** A poll comes due while another is owed. */
  lemma DueOwed(p: Polls, task: Task, deadline: int, apart: bool)
    requires CapExact(p) && Owed(p, deadline, apart) && task !in p.tasks
    ensures Owed(TimerFired(p, task), deadline, apart) && Owed(FirstPoll(p, task), deadline, apart)
    ensures !p.stopping ==> Owed(ReleaseHeld(p, task), deadline, apart)
  {
    hide Hold, ReleasePoll, CapExact, TaskInTime;
    QuietOwed(p, p.(timer := false), deadline, apart);
    HoldOwed(p.(timer := false), false, None, deadline, apart);
    HoldOwed(p, true, None, deadline, apart);
    if !p.running && !p.holding {
      QuietOwed(p, TimerFired(p, task), deadline, apart);
      QuietOwed(p, FirstPoll(p, task), deadline, apart);
      if !p.stopping { ReleaseOwed(p, task, Some(p.firstWaiting), deadline, apart); }
    }
  }

  lemma RequestOwed(p: Polls, task: Task, keep: bool, deadline: int, apart: bool)
    requires CapExact(p) && Owed(p, deadline, apart) && task !in p.tasks && !p.stopping
    requires p.holding || p.running || (apart && p.firstWaiting ==> keep)
    ensures Owed(RequestPoll(p, task, keep), deadline, apart)
  {
    hide Hold, ReleasePoll, CapExact, TaskInTime, Owed;
    if p.holding || p.running {
      HoldOwed(p, keep, None, deadline, apart);
    } else {
      ReleaseOwed(p, task, Some(keep), deadline, apart);
    }
  }

  /** Short of that, a poll once owed by its deadline stays owed by it: released, waiting for its
      place or held again, it never gets a later first-held time. */
  lemma StepKeepsOwed(p: Polls, at: At, deadline: int, apart: bool)
    requires CapExact(p) && Enabled(p, at) && Owed(p, deadline, apart)
    requires !Settles(p, at, apart) && !Overtakes(p, at, deadline, apart)
    requires !Replaces(p, at, deadline, apart) && !Demotes(p, at, apart)
    ensures Owed(Next(p, at), deadline, apart)
  {
    hide Next, CapExact, Owed, InTime, Settles, Overtakes, Replaces, Demotes;
    var q := p.(now := at.now);
    QuietExact(p, q);
    QuietOwed(p, q, deadline, apart);
    var e := at.event;
    if e.TimerFires? || e.FirstPollDue? || e.Request? || e.HoldingEnds? {
      DueStepOwed(p, at, deadline, apart);
    } else {
      OtherStepOwed(p, at, deadline, apart);
    }
  }

  lemma DueStepOwed(p: Polls, at: At, deadline: int, apart: bool)
    requires Enabled(p, at) && !Settles(p, at, apart) && !Demotes(p, at, apart)
    requires CapExact(p.(now := at.now)) && Owed(p.(now := at.now), deadline, apart)
    requires at.event.TimerFires? || at.event.FirstPollDue? || at.event.Request? || at.event.HoldingEnds?
    ensures Owed(Next(p, at), deadline, apart)
  {
    hide TimerFired, FirstPoll, RequestPoll, ReleaseHeld, CapExact, Owed;
    var q := p.(now := at.now);
    match at.event
    case TimerFires(task) => DueOwed(q, task, deadline, apart);
    case FirstPollDue(task) => DueOwed(q, task, deadline, apart);
    case Request(task, keep) => RequestOwed(q, task, keep, deadline, apart);
    case HoldingEnds(task) => DueOwed(q, task, deadline, apart);
    case _ =>
  }

  lemma OtherStepOwed(p: Polls, at: At, deadline: int, apart: bool)
    requires Enabled(p, at) && !Settles(p, at, apart) && !Overtakes(p, at, deadline, apart) && !Replaces(p, at, deadline, apart)
    requires CapExact(p.(now := at.now)) && Owed(p.(now := at.now), deadline, apart)
    requires !at.event.TimerFires? && !at.event.FirstPollDue? && !at.event.Request? && !at.event.HoldingEnds?
    ensures Owed(Next(p, at), deadline, apart)
  {
    hide UnsubRefresh, EndUpdate, StartUpdate, CapReached, CapExact, Owed, InTime;
    var q := p.(now := at.now);
    match at.event
    case CapFires(task) => CapReachedOwed(q, task, deadline, apart);
    case UpdateStarts(starter) => StartUpdateOwed(q, starter, deadline, apart);
    case FindsItsPlace(rearms) => FindsItsPlaceOwed(q, rearms, deadline, apart);
    case Rearm(armed) => UnsubOwed(q, deadline, armed);
    case HoldingChanges(holding) => QuietOwed(q, q.(holding := holding), deadline, apart);
    case Stopping => QuietOwed(q, q.(stopping := true), deadline, apart);
    case _ =>
  }

  /** A poll that comes due while commands hold polls off, no update running, is owed from then on by
      its due time plus the maximum, apart if it is to be kept. */
  lemma DueIsOwed(trace: seq<Polls>, events: seq<At>, n: nat)
    requires IsRun(trace, events) && n < |events|
    requires ComesDue(events[n].event) && trace[n].holding && !trace[n].running
    ensures Owed(trace[n + 1], events[n].now + HOLDOFF_MAX, ToKeep(events[n].event))
  {
    hide Next, CapExact;
    CapAlwaysExact(trace, events, n);
    assert StepAt(trace, events, n);
    DueIsHeld(trace[n], events[n]);
    CapSoon(trace[n], events[n]);
  }

  /** Nothing at this step makes a poll later than owed. */
  ghost predicate Undisturbed(trace: seq<Polls>, events: seq<At>, k: nat, deadline: int, apart: bool)
    requires k < |events| && |trace| == |events| + 1
  {
    Enabled(trace[k], events[k]) ==>
      !Overtakes(trace[k], events[k], deadline, apart) && !Replaces(trace[k], events[k], deadline, apart)
      && !Demotes(trace[k], events[k], apart)
  }

  lemma {:induction false} DeadlineKept(trace: seq<Polls>, events: seq<At>, n: nat, m: nat, deadline: int, apart: bool)
    requires IsRun(trace, events) && n <= m < |trace| && Owed(trace[n], deadline, apart)
    requires forall k | n <= k < m :: !Settles(trace[k], events[k], apart) && Undisturbed(trace, events, k, deadline, apart)
    ensures Owed(trace[m], deadline, apart)
  {
    hide Next, Enabled, CapExact, Owed, Settles, Overtakes, Replaces, Demotes;
    if n < m {
      DeadlineKept(trace, events, n, m - 1, deadline, apart);
      assert StepAt(trace, events, m - 1);
      assert Undisturbed(trace, events, m - 1, deadline, apart);
      CapAlwaysExact(trace, events, m - 1);
      StepKeepsOwed(trace[m - 1], events[m - 1], deadline, apart);
    }
  }

  ghost predicate TaskOwed(p: Polls, deadline: int, apart: bool) {
    exists t :: t in p.tasks && TaskInTime(p.tasks[t], deadline, apart)
  }

  /** That loses what was owed apart, exactly: unless another poll waiting for its place is. */
  lemma DemotedExactly(p: Polls, at: At, deadline: int)
    requires CapExact(p) && Enabled(p, at) && Owed(p, deadline, true) && at.event.Request? && !p.stopping
    ensures Owed(Next(p, at), deadline, true) <==> !Demotes(p, at, true) || TaskOwed(p, deadline, true)
  {
    var p', task := Next(p, at), at.event.task;
    if !Demotes(p, at, true) {
      StepKeepsOwed(p, at, deadline, true);
    } else {
      assert forall t | t in p'.tasks :: t == task || (t in p.tasks && p'.tasks[t] == p.tasks[t]);
      assert forall t | t in p.tasks :: t in p'.tasks && p'.tasks[t] == p.tasks[t];
    }
  }

  // ---- an update held again ----

  /** The update under way at step `n` goes on to step `m`. */
  ghost predicate GoesOn(trace: seq<Polls>, events: seq<At>, n: nat, m: nat)
    requires n <= m < |trace| && |trace| == |events| + 1
  {
    forall k | n <= k < m :: !events[k].event.UpdateEnds? && !events[k].event.FindsItsPlace? && !events[k].event.Shutdown?
  }

  /** It stays the update it was; what comes due is held from now on, and what was held apart stays so. */
  predicate Unmoved(p: Polls, p': Polls) {
    && p'.running && p'.current == p.current && p.now <= p'.now
    && (p.firstWaiting ==> p'.firstWaiting)
    && (p'.cap.Some? ==> p'.since.Some? && (p'.since == p.since || p'.since.value >= p.now))
  }

  lemma DueUnmoved(p: Polls, task: Task, keep: bool)
    requires CapExact(p) && p.running
    ensures Unmoved(p, TimerFired(p, task)) && Unmoved(p, FirstPoll(p, task)) && Unmoved(p, RequestPoll(p, task, keep))
    ensures Unmoved(p, ReleaseHeld(p, task)) && Unmoved(p, CapReached(p, task))
    ensures forall armed :: Unmoved(p, UnsubRefresh(p).(timer := armed))
  {
    hide ReleasePoll;
  }

  lemma AbandonedUnmoved(p: Polls, task: Task)
    requires CapExact(p) && p.running
    ensures Unmoved(p, UnsubRefresh(p).(tasks := p.tasks - {task}))
  {
  }

  lemma UnmovedSince(p: Polls, q: Polls, p': Polls)
    requires q == p.(now := q.now) && p.now <= q.now && Unmoved(q, p')
    ensures Unmoved(p, p')
  {
  }

  lemma MeanwhileStep(p: Polls, at: At)
    requires CapExact(p) && Enabled(p, at) && p.running
    requires !at.event.UpdateEnds? && !at.event.FindsItsPlace? && !at.event.Shutdown?
    ensures Unmoved(p, Next(p, at))
  {
    hide TimerFired, FirstPoll, RequestPoll, ReleaseHeld, CapReached, UnsubRefresh, CapExact, Unmoved;
    var q := p.(now := at.now);
    LaterExact(p, at);
    match at.event {
      case TimerFires(task) => DueUnmoved(q, task, false);
      case FirstPollDue(task) => DueUnmoved(q, task, false);
      case Request(task, keep) => DueUnmoved(q, task, keep);
      case HoldingEnds(task) => DueUnmoved(q, task, false);
      case CapFires(task) => DueUnmoved(q, task, false);
      case Abandoned(task) => AbandonedUnmoved(q, task);
      case Rearm(armed) => DueUnmoved(q, 0, false);
      case HoldingChanges(holding) => QuietUnmoved(q, q.(holding := holding));
      case Stopping => QuietUnmoved(q, q.(stopping := true));
      case _ =>
    }
    UnmovedSince(p, q, Next(p, at));
  }

  lemma QuietUnmoved(p: Polls, p': Polls)
    requires CapExact(p) && p.running && p' == p.(holding := p'.holding, stopping := p'.stopping)
    ensures Unmoved(p, p')
  {
  }

  lemma {:induction false} Meanwhile(trace: seq<Polls>, events: seq<At>, n: nat, m: nat)
    requires IsRun(trace, events) && n <= m < |trace| && trace[n].running && trace[n].cap.None? && GoesOn(trace, events, n, m)
    ensures trace[m].running && trace[m].current == trace[n].current && trace[n].now <= trace[m].now
    ensures trace[n].firstWaiting ==> trace[m].firstWaiting
    ensures trace[m].cap.Some? ==> trace[m].since.Some? && trace[m].since.value >= trace[n].now
  {
    hide Next, Enabled, CapExact;
    CapSince(trace, events, n);
    if n < m {
      Meanwhile(trace, events, n, m - 1);
      assert StepAt(trace, events, m - 1);
      CapAlwaysExact(trace, events, m - 1);
      MeanwhileStep(trace[m - 1], events[m - 1]);
      CapSince(trace, events, m - 1);
    }
  }

  lemma CapSince(trace: seq<Polls>, events: seq<At>, n: nat)
    requires IsRun(trace, events) && n < |trace|
    ensures trace[n].cap.Some? <==> trace[n].since.Some?
    ensures trace[n].cap.Some? ==> trace[n].cap.value == trace[n].since.value + HOLDOFF_MAX && trace[n].since.value <= trace[n].now
    ensures trace[n].current.Some? ==> trace[n].current.value.since <= trace[n].now
  {
    hide IsRun;
    CapAlwaysExact(trace, events, n);
  }

  lemma HeldAgainCap(p: Polls, rearms: bool)
    requires CapExact(p) && p.running && p.current.Some?
    ensures var p', c := EndUpdate(p, p.current, rearms), p.current.value;
            && p'.Held() && !p'.running && (p.firstWaiting || c.apart ==> p'.firstWaiting)
            && p'.cap == Some((if p.since.Some? then Min(c.since, p.since.value) else c.since) + HOLDOFF_MAX)
  {
  }

  /** An update under way with nothing held, then held again: whatever was held meanwhile, it is held
      for no longer than `deadline` exactly if its own time is no later. */
  lemma HeldAgainExactly(trace: seq<Polls>, events: seq<At>, n: nat, m: nat, deadline: int)
    requires IsRun(trace, events) && n <= m < |events| && GoesOn(trace, events, n, m)
    requires trace[n].running && trace[n].current.Some? && trace[n].cap.None? && deadline <= trace[n].now + HOLDOFF_MAX
    requires events[m].event.FindsItsPlace?
    ensures trace[m + 1].Held() && !trace[m + 1].running && trace[m + 1].cap.Some?
    ensures trace[n].firstWaiting || trace[n].current.value.apart ==> trace[m + 1].firstWaiting
    ensures trace[m + 1].cap.value <= deadline <==> trace[n].current.value.since + HOLDOFF_MAX <= deadline
  {
    hide EndUpdate, CapExact, Enabled;
    Meanwhile(trace, events, n, m);
    CapSince(trace, events, n);
    CapAlwaysExact(trace, events, m);
    assert StepAt(trace, events, m);
    FindsItsPlaceIs(trace[m], events[m]);
    var q := trace[m].(now := events[m].now);
    LaterExact(trace[m], events[m]);
    HeldAgainCap(q, events[m].event.rearms);
  }

  lemma FindsItsPlaceIs(p: Polls, at: At)
    requires Enabled(p, at) && at.event.FindsItsPlace?
    ensures Next(p, at) == EndUpdate(p.(now := at.now), p.current, at.event.rearms) && p.now <= at.now && p.current.Some?
  {
  }

  lemma LaterExact(p: Polls, at: At)
    requires CapExact(p) && Enabled(p, at)
    ensures CapExact(p.(now := at.now))
  {
  }

  /** The cap of a held poll fires while another poll's update is under way, and that is then held
      again: the poll is held by its deadline still, and apart if it was, exactly if the update first
      came due no later than the held poll did. */
  lemma CapFiredThenHeldAgain(trace: seq<Polls>, events: seq<At>, n: nat, m: nat, deadline: int)
    requires IsRun(trace, events) && n < m < |events| && GoesOn(trace, events, n + 1, m)
    requires events[n].event.CapFires? && trace[n].cap == Some(deadline) && trace[n].running && trace[n].current.Some?
    requires events[m].event.FindsItsPlace?
    ensures trace[m + 1].Held() && !trace[m + 1].running && trace[m + 1].cap.Some?
    ensures trace[n].firstWaiting ==> trace[m + 1].firstWaiting
    ensures trace[m + 1].cap.value <= deadline <==> trace[n].current.value.since + HOLDOFF_MAX <= deadline
  {
    hide EndUpdate, CapExact;
    assert StepAt(trace, events, n);
    CapSince(trace, events, n);
    HeldAgainExactly(trace, events, n + 1, m, deadline);
  }

  /** A scheduled poll is dropped for a refresh that starts, and that is then held again: likewise. */
  lemma ReplacedThenHeldAgain(trace: seq<Polls>, events: seq<At>, n: nat, m: nat, deadline: int)
    requires IsRun(trace, events) && n < m < |events| && GoesOn(trace, events, n + 1, m)
    requires events[n].event.UpdateStarts? && trace[n].cap == Some(deadline) && !trace[n].firstWaiting
    requires trace[n + 1].current.Some? && events[m].event.FindsItsPlace?
    ensures trace[m + 1].Held() && !trace[m + 1].running && trace[m + 1].cap.Some?
    ensures trace[m + 1].cap.value <= deadline <==> trace[n + 1].current.value.since + HOLDOFF_MAX <= deadline
  {
    hide EndUpdate, CapExact, TakenBy;
    assert StepAt(trace, events, n);
    CapSince(trace, events, n);
    HeldAgainExactly(trace, events, n + 1, m, deadline);
  }

  // ---- runs that lose nothing ----

  /** The end of a hold-off releases what it held, and a refresh starts as it comes due. */
  ghost predicate Prompt(trace: seq<Polls>, events: seq<At>)
    requires |trace| == |events| + 1
  {
    forall k: nat | k < |events| :: PromptAt(trace[k], events[k])
  }

  predicate PromptAt(p: Polls, at: At) {
    && (p.Held() && !p.running && !p.holding ==> at.event.HoldingEnds?)
    && (p.tasks != map[] ==> at.event.Abandoned? || (at.event.UpdateStarts? && at.event.starter.Some?))
  }

  /** At most one refresh waits, with nothing held; an update under way came due before what is held. */
  predicate InOrder(p: Polls) {
    && (p.tasks != map[] ==> !p.running && !p.Held() && forall t, u | t in p.tasks && u in p.tasks :: t == u)
    && (p.running && p.current.Some? && p.since.Some? ==> p.current.value.since <= p.since.value)
  }

  lemma StepKeepsOrder(p: Polls, at: At)
    requires CapExact(p) && InOrder(p) && Enabled(p, at) && PromptAt(p, at)
    ensures InOrder(Next(p, at))
  {
    if p.tasks != map[] {
      StartKeepsOrder(p, at);
    } else if at.event.UpdateStarts? || at.event.Abandoned? {
    } else if at.event.FindsItsPlace? || at.event.UpdateEnds? {
      TasksKept(p.(now := at.now), p.current, at.event.rearms);
      TasksKept(p.(now := at.now), None, at.event.rearms);
      NotRunningAfter(p, at);
    } else {
      OtherKeepsOrder(p, at);
    }
  }

  lemma NotRunningAfter(p: Polls, at: At)
    requires Enabled(p, at) && (at.event.FindsItsPlace? || at.event.UpdateEnds?)
    ensures !Next(p, at).running
  {
  }

  lemma StartKeepsOrder(p: Polls, at: At)
    requires InOrder(p) && Enabled(p, at) && PromptAt(p, at) && p.tasks != map[] && CapExact(p)
    ensures InOrder(Next(p, at))
  {
    hide TakenBy;
    assert Next(p, at).tasks == map[];
  }

  lemma OtherKeepsOrder(p: Polls, at: At)
    requires CapExact(p) && InOrder(p) && Enabled(p, at) && PromptAt(p, at) && p.tasks == map[]
    requires !at.event.UpdateStarts? && !at.event.Abandoned? && !at.event.FindsItsPlace? && !at.event.UpdateEnds?
    ensures InOrder(Next(p, at))
  {
    hide TimerFired, FirstPoll, RequestPoll, ReleaseHeld, CapReached, UnsubRefresh, CapExact, InOrder;
    var q := p.(now := at.now);
    LaterExact(p, at);
    LaterInOrder(p, q);
    match at.event
    case TimerFires(task) => DueInOrder(q, task, false);
    case FirstPollDue(task) => DueInOrder(q, task, false);
    case Request(task, keep) => RequestInOrder(q, task, keep);
    case HoldingEnds(task) => DueInOrder(q, task, false);
    case CapFires(task) => RequestInOrder(q, task, false);
    case Rearm(armed) => DropInOrder(q, armed);
    case Shutdown => DropInOrder(q, false);
    case HoldingChanges(holding) => LaterInOrder(q, q.(holding := holding));
    case Stopping => LaterInOrder(q, q.(stopping := true));
    case _ =>
  }

  lemma LaterInOrder(p: Polls, p': Polls)
    requires InOrder(p) && p' == p.(now := p'.now, holding := p'.holding, stopping := p'.stopping)
    ensures InOrder(p')
  {
  }

  lemma DropInOrder(p: Polls, armed: bool)
    requires InOrder(p)
    ensures InOrder(UnsubRefresh(p).(timer := armed)) && InOrder(DropHeld(p).(timer := armed))
  {
  }

  lemma DueInOrder(p: Polls, task: Task, keep: bool)
    requires CapExact(p) && InOrder(p) && p.tasks == map[]
    ensures p.running || p.holding || !p.Held() ==> InOrder(TimerFired(p, task)) && InOrder(FirstPoll(p, task))
    ensures InOrder(ReleaseHeld(p, task))
  {
  }

  lemma RequestInOrder(p: Polls, task: Task, keep: bool)
    requires CapExact(p) && InOrder(p) && p.tasks == map[]
    ensures InOrder(RequestPoll(p, task, keep)) && InOrder(CapReached(p, task))
  {
  }

  lemma {:induction false} AlwaysInOrder(trace: seq<Polls>, events: seq<At>, n: nat)
    requires IsRun(trace, events) && Prompt(trace, events) && n < |trace|
    ensures InOrder(trace[n])
  {
    hide Next, Enabled, CapExact, InOrder;
    if n == 0 {
      StartInOrder();
    } else {
      AlwaysInOrder(trace, events, n - 1);
      CapAlwaysExact(trace, events, n - 1);
      assert StepAt(trace, events, n - 1) && PromptAt(trace[n - 1], events[n - 1]);
      StepKeepsOrder(trace[n - 1], events[n - 1]);
    }
  }

  lemma StartInOrder()
    ensures InOrder(START)
  {
  }

  lemma NothingDisturbs(p: Polls, at: At, deadline: int, apart: bool)
    requires CapExact(p) && InOrder(p) && Enabled(p, at) && PromptAt(p, at) && Owed(p, deadline, apart)
    ensures !Overtakes(p, at, deadline, apart) && !Replaces(p, at, deadline, apart) && !Demotes(p, at, apart)
  {
    hide TakenBy;
    if at.event.UpdateStarts? && at.event.starter.None? {
      assert TakenBy(p.(now := at.now), None) == None by { ManualTakesNone(p.(now := at.now)); }
    }
  }

  lemma ManualTakesNone(p: Polls)
    ensures TakenBy(p, None) == None
  {
  }

  /** Where each end of a hold-off releases what it held and each refresh starts as it comes due, no
      deadline is ever lost: a poll owed by one stays owed by it until it ran or was dropped. */
  lemma {:induction false} NoDeadlineLost(trace: seq<Polls>, events: seq<At>, n: nat, m: nat, deadline: int, apart: bool)
    requires IsRun(trace, events) && Prompt(trace, events) && n <= m < |trace| && Owed(trace[n], deadline, apart)
    requires forall k | n <= k < m :: !Settles(trace[k], events[k], apart)
    ensures Owed(trace[m], deadline, apart)
  {
    hide Next, Enabled, CapExact, InOrder, Owed, Settles, Overtakes, Replaces, Demotes, PromptAt;
    if n < m {
      NoDeadlineLost(trace, events, n, m - 1, deadline, apart);
      CapAlwaysExact(trace, events, m - 1);
      AlwaysInOrder(trace, events, m - 1);
      assert StepAt(trace, events, m - 1) && PromptAt(trace[m - 1], events[m - 1]);
      NothingDisturbs(trace[m - 1], events[m - 1], deadline, apart);
      StepKeepsOwed(trace[m - 1], events[m - 1], deadline, apart);
    }
  }

  /** So on such a run a poll that came due held off is owed by its due time plus the maximum, until it
      ran or was dropped. */
  lemma DueKeepsDeadline(trace: seq<Polls>, events: seq<At>, n: nat, m: nat)
    requires IsRun(trace, events) && Prompt(trace, events) && n < m < |trace|
    requires ComesDue(events[n].event) && trace[n].holding && !trace[n].running
    requires forall k | n < k < m :: !Settles(trace[k], events[k], ToKeep(events[n].event))
    ensures Owed(trace[m], events[n].now + HOLDOFF_MAX, ToKeep(events[n].event))
  {
    hide Owed, Settles;
    DueIsOwed(trace, events, n);
    NoDeadlineLost(trace, events, n + 1, m, events[n].now + HOLDOFF_MAX, ToKeep(events[n].event));
  }

  // ---- runs that lose a deadline ----

  /** A return poll is held at 5 s; its hold-off ends at 8 s with nothing released. */
  lemma LeftHeld() returns (trace: seq<Polls>, events: seq<At>)
    ensures IsRun(trace, events) && |events| == 4 && |trace| == 5
    ensures trace[4] == Polls(false, true, Some(125_000), Some(5_000), false, None, map[], true, false, false, 8_000)
  {
    trace, events := [START], [];
    Extend(trace, events, At(Rearm(true), 0));
    var p1 := START.(timer := true);
    assert Next(START, At(Rearm(true), 0)) == p1;
    trace, events := trace + [p1], events + [At(Rearm(true), 0)];
    Extend(trace, events, At(HoldingChanges(true), 5_000));
    var p2 := p1.(holding := true, now := 5_000);
    trace, events := trace + [p2], events + [At(HoldingChanges(true), 5_000)];
    Extend(trace, events, At(Request(1, true), 5_000));
    var p3 := p2.(firstWaiting := true, cap := Some(125_000), since := Some(5_000));
    assert Next(p2, At(Request(1, true), 5_000)) == p3;
    trace, events := trace + [p3], events + [At(Request(1, true), 5_000)];
    Extend(trace, events, At(HoldingChanges(false), 8_000));
    trace, events := trace + [p3.(holding := false, now := 8_000)], events + [At(HoldingChanges(false), 8_000)];
  }

  /** A scheduled poll comes due and starts at 10 s; commands hold polls off again from 11 s. */
  lemma LaterPollStarts() returns (trace: seq<Polls>, events: seq<At>)
    ensures IsRun(trace, events) && |events| == 7 && |trace| == 8
    ensures trace[7] == Polls(false, true, Some(125_000), Some(5_000), true, Some(Again(false, 10_000)), map[],
                              false, true, false, 11_000)
  {
    hide IsRun;
    trace, events := LeftHeld();
    var p4 := trace[4];
    Extend(trace, events, At(TimerFires(0), 10_000));
    var p5 := p4.(timer := false, tasks := map[0 := Some(Background(false, None))], now := 10_000);
    assert Next(p4, At(TimerFires(0), 10_000)) == p5;
    trace, events := trace + [p5], events + [At(TimerFires(0), 10_000)];
    Extend(trace, events, At(UpdateStarts(Some(0)), 10_000));
    assert p5.tasks - {0} == map[];
    var p6 := p5.(running := true, current := Some(Again(false, 10_000)), tasks := map[]);
    assert Next(p5, At(UpdateStarts(Some(0)), 10_000)) == p6;
    trace, events := trace + [p6], events + [At(UpdateStarts(Some(0)), 10_000)];
    Extend(trace, events, At(HoldingChanges(true), 11_000));
    trace, events := trace + [p6.(holding := true, now := 11_000)], events + [At(HoldingChanges(true), 11_000)];
  }

  /** A deadline can be lost: the return poll's cap is spent at 125 s on the poll that started, which
      commands then hold off again, until 130 s. */
  lemma CapCanBeOvertaken()
    ensures exists trace: seq<Polls>, events: seq<At>, n: nat ::
              && IsRun(trace, events) && n + 2 < |trace|
              && trace[n].firstWaiting && trace[n].cap == Some(125_000) && Overtakes(trace[n], events[n], 125_000, true)
              && trace[n + 2].Held() && !trace[n + 2].running && trace[n + 2].cap == Some(130_000)
              && !Owed(trace[n + 2], 125_000, true)
  {
    hide IsRun;
    var trace, events := LaterPollStarts();
    var p7 := trace[7];
    Extend(trace, events, At(CapFires(2), 125_000));
    var p8 := p7.(cap := None, since := None, now := 125_000);
    assert Next(p7, At(CapFires(2), 125_000)) == p8;
    trace, events := trace + [p8], events + [At(CapFires(2), 125_000)];
    Extend(trace, events, At(FindsItsPlace(true), 126_000));
    var p9 := Next(p8, At(FindsItsPlace(true), 126_000));
    assert p9.cap == Some(130_000) && p9.tasks == map[];
    trace, events := trace + [p9], events + [At(FindsItsPlace(true), 126_000)];
    assert trace[7] == p7 && trace[9] == p9 && events[7] == At(CapFires(2), 125_000);
  }

  /** A turn-on poll requested at 9 s runs for the return poll still held; commands hold it off from
      10 s, and it is held again at 11 s. */
  lemma RunForBoth() returns (trace: seq<Polls>, events: seq<At>)
    ensures IsRun(trace, events) && |events| == 8 && |trace| == 9 && events[4] == At(Request(1, false), 9_000)
    ensures trace[4].firstWaiting && trace[4].cap == Some(125_000) && Demotes(trace[4], events[4], true)
    ensures trace[8] == Polls(true, false, Some(125_000), Some(5_000), false, None, map[], true, true, false, 11_000)
    ensures forall k | 4 <= k < 8 :: !events[k].event.UpdateEnds? && !Settles(trace[k], events[k], true)
  {
    hide IsRun;
    trace, events := LeftHeld();
    var p4 := trace[4];
    Extend(trace, events, At(Request(1, false), 9_000));
    var p5 := p4.(firstWaiting := false, cap := None, since := None, timer := false,
                  tasks := map[1 := Some(Background(false, Some(5_000)))], now := 9_000);
    assert Next(p4, At(Request(1, false), 9_000)) == p5;
    trace, events := trace + [p5], events + [At(Request(1, false), 9_000)];
    Extend(trace, events, At(UpdateStarts(Some(1)), 9_000));
    assert p5.tasks - {1} == map[];
    var p6 := p5.(running := true, current := Some(Again(false, 5_000)), tasks := map[]);
    assert Next(p5, At(UpdateStarts(Some(1)), 9_000)) == p6;
    trace, events := trace + [p6], events + [At(UpdateStarts(Some(1)), 9_000)];
    Extend(trace, events, At(HoldingChanges(true), 10_000));
    var p7 := p6.(holding := true, now := 10_000);
    trace, events := trace + [p7], events + [At(HoldingChanges(true), 10_000)];
    Extend(trace, events, At(FindsItsPlace(true), 11_000));
    trace, events := trace + [Next(p7, At(FindsItsPlace(true), 11_000))], events + [At(FindsItsPlace(true), 11_000)];
  }

  /** So a poll to be kept can go unread: a re-arm at 12 s drops the one that ran for both. */
  lemma KeptPollCanBeDropped()
    ensures exists trace: seq<Polls>, events: seq<At>, n: nat, m: nat ::
              && IsRun(trace, events) && n < m < |trace|
              && Owed(trace[n], 125_000, true) && Demotes(trace[n], events[n], true)
              && (forall k | n <= k < m :: !Settles(trace[k], events[k], true))
              && !trace[m].Held() && !trace[m].running && trace[m].tasks == map[]
  {
    hide IsRun;
    var trace, events := RunForBoth();
    var p8 := trace[8];
    Extend(trace, events, At(Rearm(true), 12_000));
    var p9 := Next(p8, At(Rearm(true), 12_000));
    assert !p9.Held() && !p9.running && p9.tasks == map[];
    trace, events := trace + [p9], events + [At(Rearm(true), 12_000)];
    assert trace[9] == p9 && Owed(trace[4], 125_000, true) && Demotes(trace[4], events[4], true);
  }
}
