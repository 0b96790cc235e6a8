/** How one device's background polls are held off while commands run, released, and held again.
    Times are whole milliseconds. An event is one stretch of the program between two suspension
    points; the end of an update, HA's re-arming of its timer and `_async_refresh_finished` are one. */
module Holdoff {
  import opened Options

  const HOLDOFF_MAX := 120_000

  type Task = nat

  /** A background poll commands hold off: how it is held again, and when it was first held. */
  datatype Background = Background(apart: bool, heldSince: Option<int>)

  /** A poll to hold again: apart or not, its cap counting from `since`. */
  datatype Again = Again(apart: bool, since: int)

  datatype Polls = Polls(
    waiting: bool,                            // a scheduled poll is held
    firstWaiting: bool,                       // the first poll, or a return poll, is held (apart)
    cap: Option<int>,                         // when the cap timer fires, if armed
    since: Option<int>,                       // when the held poll was first held
    running: bool,                            // an update is under way
    current: Option<Again>,                   // how the update under way is held again, if commands hold it off
    tasks: map<Task, Option<Background>>,     // refreshes yet to start their update; None: runs whatever holds polls off
    timer: bool,                              // HA's poll timer is armed
    holding: bool,                            // commands hold polls off
    stopping: bool,
    now: int)
  {
    predicate Held() {
      waiting || firstWaiting
    }
  }

  const START := Polls(false, false, None, None, false, None, map[], false, false, false, 0)

  function Min(x: int, y: int): int {
    if x < y then x else y
  }

  function CancelCap(p: Polls): Polls {
    p.(cap := None, since := None)
  }

  function DropHeld(p: Polls): Polls {
    CancelCap(p.(waiting := false, firstWaiting := false))
  }

  /** A due poll is put by. The first one put by sets the cap; `since` dates it back. */
  function Hold(p: Polls, first: bool, since: Option<int>): Polls {
    var p' := if first then p.(firstWaiting := true) else p.(waiting := true);
    if p.cap.Some? then p'
    else
      var from := if since.None? then p.now else Min(since.value, p.now);
      p'.(since := Some(from), cap := Some(from + HOLDOFF_MAX))
  }

  /** Runs the held poll in place of HA's timer; `apart` None: it is never held again. */
  function ReleasePoll(p: Polls, task: Task, apart: Option<bool>): Polls {
    var p' := DropHeld(p);
    if p.stopping then p'
    else p'.(timer := false,
             tasks := p'.tasks[task := if apart.None? then None else Some(Background(apart.value, p.since))])
  }

  function ReleaseHeld(p: Polls, task: Task): Polls {
    if p.Held() && !p.running && !p.holding then ReleasePoll(p, task, Some(p.firstWaiting)) else p
  }

  function CapReached(p: Polls, task: Task): Polls {
    var p' := CancelCap(p);
    if p.Held() && !p.running then ReleasePoll(p', task, None) else p'
  }

  /** HA calls it before arming a timer; so does a policy step that stops polls. */
  function UnsubRefresh(p: Polls): Polls {
    var p' := p.(timer := false, waiting := false);
    if p.firstWaiting then p' else CancelCap(p')
  }

  function TimerFired(p: Polls, task: Task): Polls {
    if p.running then p.(timer := false)
    else if p.holding then Hold(p.(timer := false), false, None)
    else p.(timer := false, tasks := p.tasks[task := Some(Background(false, None))])
  }

  function FirstPoll(p: Polls, task: Task): Polls {
    if p.running then p
    else if p.holding then Hold(p, true, None)
    else p.(tasks := p.tasks[task := Some(Background(true, None))])
  }

  function RequestPoll(p: Polls, task: Task, keep: bool): Polls {
    if p.holding || p.running then Hold(p, keep, None) else ReleasePoll(p, task, Some(keep))
  }

  /** How the update this task starts is held again, if commands hold it off; `task` None: never. */
  function TakenBy(p: Polls, task: Option<Task>): Option<Again>
    requires task.Some? ==> task.value in p.tasks
  {
    var background := if task.Some? then p.tasks[task.value] else None;
    if background.None? then None
    else Some(Again(background.value.apart,
                    if background.value.heldSince.Some? then background.value.heldSince.value else p.now))
  }

  /** An update starts: HA drops its timer, and with it a held scheduled poll. */
  function StartUpdate(p: Polls, task: Option<Task>): Polls
    requires task.Some? ==> task.value in p.tasks
  {
    UnsubRefresh(p).(running := true, current := TakenBy(p, task),
                     tasks := if task.Some? then p.tasks - {task.value} else p.tasks)
  }

  /** An update ends: it used up the polls held meanwhile, unless it is held again itself. HA then
      re-arms its timer (`rearms`), and the poll is held again. */
  function EndUpdate(p: Polls, again: Option<Again>, rearms: bool): Polls {
    var ended := DropHeld(p.(running := false, current := None));
    HoldAgain(if rearms then UnsubRefresh(ended).(timer := true) else ended, Merged(p, again))
  }

  /** Apart if either is, its cap counting from the earlier hold. */
  function Merged(p: Polls, again: Option<Again>): Option<Again> {
    if again.None? then None
    else Some(Again(again.value.apart || p.firstWaiting,
                    if p.since.Some? then Min(again.value.since, p.since.value) else again.value.since))
  }

  function HoldAgain(p: Polls, again: Option<Again>): Polls {
    if again.None? then p else Hold(p, again.value.apart, Some(again.value.since))
  }

  datatype Event =
    | TimerFires(task: Task)
    | FirstPollDue(task: Task)
    | Request(task: Task, keep: bool)
    | HoldingEnds(task: Task)                 // this device's hold-off, or a burst, ends
    | HoldingChanges(holding: bool)
    | CapFires(task: Task)
    | UpdateStarts(starter: Option<Task>)        // None: a manual refresh
    | FindsItsPlace(rearms: bool)             // with commands holding polls off: reads nothing, held again
    | UpdateEnds(rearms: bool)                // read the device, or failed
    | Abandoned(task: Task)                   // its refresh reads nothing at all
    | Rearm(armed: bool)
    | Stopping
    | Shutdown

  datatype At = At(event: Event, now: int)

  predicate Enabled(p: Polls, at: At) {
    && p.now <= at.now
    && match at.event
       case TimerFires(task) => p.timer && task !in p.tasks
       case FirstPollDue(task) => task !in p.tasks
       case Request(task, _) => task !in p.tasks
       case HoldingEnds(task) => task !in p.tasks
       case CapFires(task) => p.cap.Some? && p.cap.value <= at.now && task !in p.tasks
       case UpdateStarts(task) => !p.running && (task.Some? ==> task.value in p.tasks)
       case FindsItsPlace(_) => p.running && p.current.Some? && p.holding
       case UpdateEnds(_) => p.running
       case Abandoned(task) => task in p.tasks
       case _ => true
  }

  function Next(before: Polls, at: At): Polls
    requires Enabled(before, at)
  {
    var p := before.(now := at.now);
    match at.event
    case TimerFires(task) => TimerFired(p, task)
    case FirstPollDue(task) => FirstPoll(p, task)
    case Request(task, keep) => RequestPoll(p, task, keep)
    case HoldingEnds(task) => ReleaseHeld(p, task)
    case HoldingChanges(holding) => p.(holding := holding)
    case CapFires(task) => CapReached(p, task)
    case UpdateStarts(task) => StartUpdate(p, task)
    case FindsItsPlace(rearms) => EndUpdate(p, p.current, rearms)
    case UpdateEnds(rearms) => EndUpdate(p, None, rearms)
    case Abandoned(task) => UnsubRefresh(p).(tasks := p.tasks - {task})
    case Rearm(armed) => UnsubRefresh(p).(timer := armed)
    case Stopping => p.(stopping := true)
    case Shutdown => DropHeld(p).(timer := false)
  }

  ghost predicate StepAt(trace: seq<Polls>, events: seq<At>, k: nat)
    requires k < |events| && |trace| == |events| + 1
  {
    Enabled(trace[k], events[k]) && trace[k + 1] == Next(trace[k], events[k])
  }

  ghost predicate IsRun(trace: seq<Polls>, events: seq<At>) {
    && |trace| == |events| + 1
    && trace[0] == START
    && (forall k: nat | k < |events| :: StepAt(trace, events, k))
  }

  // ---- the cap timer ----

  /** A held poll always has its cap: armed for exactly its first-held time plus the maximum; while
      an update runs the cap may be spent, for that update uses the held poll up. */
  ghost predicate CapExact(p: Polls) {
    && (p.cap.Some? <==> p.since.Some?)
    && (p.cap.Some? ==> (p.waiting || p.firstWaiting) && p.cap.value == p.since.value + HOLDOFF_MAX && p.since.value <= p.now)
    && ((p.waiting || p.firstWaiting) && !p.running ==> p.cap.Some?)
    && (p.current.Some? ==> p.running && p.current.value.since <= p.now)
    && (forall t | t in p.tasks && p.tasks[t].Some? && p.tasks[t].value.heldSince.Some? :: p.tasks[t].value.heldSince.value <= p.now)
  }

  lemma HoldExact(p: Polls, first: bool, since: Option<int>)
    requires CapExact(p)
    ensures CapExact(Hold(p, first, since))
    ensures Hold(p, first, since).now == p.now
  {
  }

  lemma DropExact(p: Polls)
    requires CapExact(p)
    ensures CapExact(DropHeld(p)) && CapExact(UnsubRefresh(p))
    ensures forall armed :: CapExact(UnsubRefresh(p).(timer := armed)) && CapExact(DropHeld(p).(timer := armed))
  {
  }

  lemma ReleaseExact(p: Polls, task: Task, apart: Option<bool>)
    requires CapExact(p)
    ensures CapExact(ReleasePoll(p, task, apart))
  {
  }

  lemma CapReachedExact(p: Polls, task: Task)
    requires CapExact(p)
    ensures CapExact(CapReached(p, task))
  {
  }

  lemma StartUpdateExact(p: Polls, task: Option<Task>)
    requires CapExact(p) && !p.running && (task.Some? ==> task.value in p.tasks)
    ensures CapExact(StartUpdate(p, task))
  {
  }

  lemma AbandonedExact(p: Polls, task: Task)
    requires CapExact(p)
    ensures CapExact(UnsubRefresh(p).(tasks := p.tasks - {task}))
  {
  }

  lemma EndUpdateExact(p: Polls, again: Option<Again>, rearms: bool)
    requires CapExact(p) && (again.Some? ==> again == p.current)
    ensures CapExact(EndUpdate(p, again, rearms))
  {
    hide Hold, UnsubRefresh, DropHeld, CapExact;
    var ended := DropHeld(p.(running := false, current := None));
    EndedExact(p);
    DropExact(ended);
    var armed := if rearms then UnsubRefresh(ended).(timer := true) else ended;
    if again.Some? {
      HoldExact(armed, Merged(p, again).value.apart, Some(Merged(p, again).value.since));
    }
  }

  lemma EndedExact(p: Polls)
    requires CapExact(p)
    ensures CapExact(DropHeld(p.(running := false, current := None)))
  {
  }

  /** A poll comes due: it is held, or runs. */
  lemma DueExact(p: Polls, task: Task, keep: bool)
    requires CapExact(p)
    ensures CapExact(TimerFired(p, task)) && CapExact(FirstPoll(p, task))
    ensures CapExact(RequestPoll(p, task, keep)) && CapExact(ReleaseHeld(p, task))
  {
    hide Hold, ReleasePoll;
    HoldExact(p.(timer := false), false, None);
    HoldExact(p, true, None);
    HoldExact(p, keep, None);
    ReleaseExact(p, task, Some(keep));
    ReleaseExact(p, task, Some(p.firstWaiting));
  }

  lemma QuietExact(p: Polls, p': Polls)
    requires CapExact(p) && p'.tasks.Items <= p.tasks.Items && p.now <= p'.now
    requires p' == p.(tasks := p'.tasks, holding := p'.holding, stopping := p'.stopping, now := p'.now)
    ensures CapExact(p')
  {
    forall t | t in p'.tasks ensures t in p.tasks && p.tasks[t] == p'.tasks[t] {
      assert (t, p'.tasks[t]) in p'.tasks.Items;
    }
  }

  lemma StepKeepsCap(p: Polls, at: At)
    requires CapExact(p) && Enabled(p, at)
    ensures CapExact(Next(p, at))
  {
    hide TimerFired, FirstPoll, RequestPoll, ReleaseHeld, UnsubRefresh, DropHeld, EndUpdate, StartUpdate, CapReached, CapExact;
    var q := p.(now := at.now);
    QuietExact(p, q);
    match at.event
    case TimerFires(task) => DueExact(q, task, false);
    case FirstPollDue(task) => DueExact(q, task, false);
    case Request(task, keep) => DueExact(q, task, keep);
    case HoldingEnds(task) => DueExact(q, task, false);
    case CapFires(task) => CapReachedExact(q, task);
    case UpdateStarts(starter) => StartUpdateExact(q, starter);
    case FindsItsPlace(rearms) => EndUpdateExact(q, q.current, rearms);
    case UpdateEnds(rearms) => EndUpdateExact(q, None, rearms);
    case Rearm(armed) => DropExact(q);
    case Shutdown => DropExact(q);
    case Abandoned(task) => AbandonedExact(q, task);
    case _ => QuietExact(q, Next(p, at));
  }

  lemma {:induction false} CapAlwaysExact(trace: seq<Polls>, events: seq<At>, n: nat)
    requires IsRun(trace, events) && n < |trace|
    ensures CapExact(trace[n])
  {
    hide Next, Enabled, CapExact;
    if n == 0 {
      StartExact();
    } else {
      CapAlwaysExact(trace, events, n - 1);
      assert StepAt(trace, events, n - 1);
      StepKeepsCap(trace[n - 1], events[n - 1]);
    }
  }

  lemma StartExact()
    ensures CapExact(START)
  {
  }

  // ---- one release, one poll ----

  /** What a release does: it clears every held poll and HA's timer, and starts one poll, which
      carries the first-held time on (none, if the cap released it: it is never held again). As Home
      Assistant stops it only drops what is held. */
  lemma OneReleaseOnePoll(p: Polls, at: At)
    requires CapExact(p) && Enabled(p, at) && (p.waiting || p.firstWaiting) && !p.running
    requires at.event.CapFires? || (at.event.HoldingEnds? && !p.holding)
    ensures p.cap.Some? && at.event.task !in p.tasks
    ensures Next(p, at) == p.(now := at.now, waiting := false, firstWaiting := false, cap := None, since := None,
              timer := p.timer && p.stopping,
              tasks := if p.stopping then p.tasks
                       else p.tasks[at.event.task :=
                              if at.event.CapFires? then None else Some(Background(p.firstWaiting, Some(p.cap.value - HOLDOFF_MAX)))])
  {
  }

  /** While commands hold polls off, and short of the cap, no poll starts, however many come due. */
  lemma NoneStarts(p: Polls, at: At)
    requires Enabled(p, at) && p.holding && !at.event.CapFires?
    ensures Next(p, at).tasks.Keys <= p.tasks.Keys
  {
    hide TimerFired, FirstPoll, RequestPoll, ReleaseHeld, UnsubRefresh, DropHeld, EndUpdate, StartUpdate, CapReached;
    var q := p.(now := at.now);
    match at.event
    case TimerFires(task) => DueStartsNone(q, task, false);
    case FirstPollDue(task) => DueStartsNone(q, task, false);
    case Request(task, keep) => DueStartsNone(q, task, keep);
    case HoldingEnds(task) => DueStartsNone(q, task, false);
    case UpdateStarts(starter) => StartTakesTask(q, starter);
    case FindsItsPlace(rearms) => TasksKept(q, q.current, rearms);
    case UpdateEnds(rearms) => TasksKept(q, None, rearms);
    case _ => DroppingKeepsTasks(q);
  }

  lemma DueStartsNone(p: Polls, task: Task, keep: bool)
    requires p.holding
    ensures TimerFired(p, task).tasks == FirstPoll(p, task).tasks == RequestPoll(p, task, keep).tasks == p.tasks
    ensures ReleaseHeld(p, task).tasks == p.tasks
  {
  }

  lemma StartTakesTask(p: Polls, starter: Option<Task>)
    requires starter.Some? ==> starter.value in p.tasks
    ensures StartUpdate(p, starter).tasks.Keys <= p.tasks.Keys
  {
  }

  lemma TasksKept(p: Polls, again: Option<Again>, rearms: bool)
    ensures EndUpdate(p, again, rearms).tasks == p.tasks
  {
  }

  lemma DroppingKeepsTasks(p: Polls)
    ensures UnsubRefresh(p).tasks == DropHeld(p).tasks == p.tasks
  {
  }

  lemma {:induction false} NoneStartsMeanwhile(trace: seq<Polls>, events: seq<At>, n: nat, m: nat)
    requires IsRun(trace, events) && n <= m < |trace|
    requires forall k | n <= k < m :: trace[k].holding && !events[k].event.CapFires?
    ensures trace[m].tasks.Keys <= trace[n].tasks.Keys
  {
    hide Next, Enabled;
    if n < m {
      NoneStartsMeanwhile(trace, events, n, m - 1);
      assert StepAt(trace, events, m - 1);
      NoneStarts(trace[m - 1], events[m - 1]);
    }
  }

  // ---- the flags, from the events ----

  /** Commands hold polls off if the latest change said so; an update runs from its start to its end. */
  predicate HoldingAfter(events: seq<At>, n: nat)
    requires n <= |events|
  {
    n > 0 && if events[n - 1].event.HoldingChanges? then events[n - 1].event.holding else HoldingAfter(events, n - 1)
  }

  predicate RunningAfter(events: seq<At>, n: nat)
    requires n <= |events|
  {
    n > 0 && (events[n - 1].event.UpdateStarts?
              || (!events[n - 1].event.UpdateEnds? && !events[n - 1].event.FindsItsPlace? && RunningAfter(events, n - 1)))
  }

  predicate SameFlags(p: Polls, p': Polls) {
    p'.now == p.now && p'.stopping == p.stopping && p'.holding == p.holding && p'.running == p.running
  }

  lemma DueFlags(p: Polls, task: Task, keep: bool)
    ensures SameFlags(p, TimerFired(p, task)) && SameFlags(p, FirstPoll(p, task)) && SameFlags(p, RequestPoll(p, task, keep))
    ensures SameFlags(p, ReleaseHeld(p, task)) && SameFlags(p, CapReached(p, task))
  {
  }

  lemma EndFlags(p: Polls, again: Option<Again>, rearms: bool)
    ensures SameFlags(p.(running := false), EndUpdate(p, again, rearms))
  {
    hide Merged, Hold;
    HoldFlags(p.(running := false), again);
  }

  lemma HoldFlags(p: Polls, again: Option<Again>)
    ensures forall q, first, since :: SameFlags(q, Hold(q, first, since))
  {
  }

  lemma StartFlags(p: Polls, starter: Option<Task>)
    requires starter.Some? ==> starter.value in p.tasks
    ensures SameFlags(p.(running := true), StartUpdate(p, starter))
  {
  }

  lemma OtherFlags(p: Polls, task: Task, armed: bool)
    ensures SameFlags(p, UnsubRefresh(p).(tasks := p.tasks - {task})) && SameFlags(p, UnsubRefresh(p).(timer := armed))
    ensures SameFlags(p, DropHeld(p).(timer := armed))
  {
  }

  lemma StepFlags(p: Polls, at: At)
    requires Enabled(p, at)
    ensures var p', e := Next(p, at), at.event;
            && p'.now == at.now
            && p'.stopping == (p.stopping || e.Stopping?)
            && p'.holding == (if e.HoldingChanges? then e.holding else p.holding)
            && p'.running == (e.UpdateStarts? || (!e.UpdateEnds? && !e.FindsItsPlace? && p.running))
  {
    hide TimerFired, FirstPoll, RequestPoll, ReleaseHeld, CapReached, UnsubRefresh, DropHeld, EndUpdate, StartUpdate;
    var q := p.(now := at.now);
    match at.event
    case TimerFires(task) => DueFlags(q, task, false);
    case FirstPollDue(task) => DueFlags(q, task, false);
    case Request(task, keep) => DueFlags(q, task, keep);
    case HoldingEnds(task) => DueFlags(q, task, false);
    case CapFires(task) => DueFlags(q, task, false);
    case FindsItsPlace(rearms) => EndFlags(q, q.current, rearms);
    case UpdateEnds(rearms) => EndFlags(q, None, rearms);
    case UpdateStarts(starter) => StartFlags(q, starter);
    case Abandoned(task) => OtherFlags(q, task, false);
    case Rearm(armed) => OtherFlags(q, 0, armed);
    case Shutdown => OtherFlags(q, 0, false);
    case _ =>
  }

  /** On every run. */
  lemma {:induction false} FlagsExact(trace: seq<Polls>, events: seq<At>, n: nat)
    requires IsRun(trace, events) && n < |trace|
    ensures trace[n].stopping <==> exists k | 0 <= k < n :: events[k].event.Stopping?
    ensures trace[n].holding <==> HoldingAfter(events, n)
    ensures trace[n].running <==> RunningAfter(events, n)
    ensures trace[n].now == if n == 0 then 0 else events[n - 1].now
  {
    hide Next, Enabled;
    if n > 0 {
      FlagsExact(trace, events, n - 1);
      assert StepAt(trace, events, n - 1);
      StepFlags(trace[n - 1], events[n - 1]);
    }
  }

  // ---- what becomes of a poll that comes due ----

  /** A scheduled poll, the first poll, or a requested one. */
  predicate ComesDue(e: Event) {
    e.TimerFires? || e.FirstPollDue? || e.Request?
  }

  /** To be kept apart: the first poll, or a return poll. */
  predicate ToKeep(e: Event) {
    e.FirstPollDue? || (e.Request? && e.keep)
  }

  function TaskOf(e: Event): Task
    requires ComesDue(e)
  {
    match e
    case TimerFires(task) => task
    case FirstPollDue(task) => task
    case Request(task, _) => task
  }

  /** It is held, by the cap of what was held first. */
  lemma DueIsHeld(p: Polls, at: At)
    requires CapExact(p) && Enabled(p, at) && ComesDue(at.event)
    requires if p.running then at.event.Request? else p.holding
    ensures var p', since := Next(p, at), if p.cap.Some? then p.cap.value - HOLDOFF_MAX else at.now;
            p' == p.(now := at.now, timer := p.timer && !at.event.TimerFires?,
                     waiting := p.waiting || !ToKeep(at.event), firstWaiting := p.firstWaiting || ToKeep(at.event),
                     since := Some(since), cap := Some(since + HOLDOFF_MAX))
  {
  }

  /** A scheduled poll, or the first, that comes due while an update runs is that update. */
  lemma DueIsUsedUp(p: Polls, at: At)
    requires Enabled(p, at) && (at.event.TimerFires? || at.event.FirstPollDue?) && p.running
    ensures Next(p, at) == p.(now := at.now, timer := p.timer && !at.event.TimerFires?)
  {
  }

  /** With nothing holding it off, its refresh starts; a requested one takes the place of what is held
      and of the timer, unless Home Assistant stops. */
  lemma DueStarts(p: Polls, at: At)
    requires Enabled(p, at) && ComesDue(at.event) && !p.running && !p.holding
    ensures var p' := Next(p, at);
            if !at.event.Request? then
              p' == p.(now := at.now, timer := p.timer && !at.event.TimerFires?,
                       tasks := p.tasks[TaskOf(at.event) := Some(Background(at.event.FirstPollDue?, None))])
            else
              p' == p.(now := at.now, waiting := false, firstWaiting := false, cap := None, since := None,
                       timer := p.timer && p.stopping,
                       tasks := if p.stopping then p.tasks
                                else p.tasks[at.event.task := Some(Background(at.event.keep, p.since))])
  {
  }

  /** The refresh's update starts: it takes a held scheduled poll's place, and knows how to be held
      again unless the cap released it, or none is its own. */
  lemma StartsAs(p: Polls, at: At)
    requires Enabled(p, at) && at.event.UpdateStarts?
    ensures var p', starter := Next(p, at), at.event.starter;
            && p' == p.(now := at.now, timer := false, waiting := false, running := true,
                        cap := if p.firstWaiting then p.cap else None, since := if p.firstWaiting then p.since else None,
                        current := p'.current, tasks := if starter.Some? then p.tasks - {starter.value} else p.tasks)
            && (p'.current.Some? <==> starter.Some? && p.tasks[starter.value].Some?)
            && (p'.current.Some? ==>
                  var background := p.tasks[starter.value].value;
                  && p'.current.value.apart == background.apart
                  && p'.current.value.since == if background.heldSince.Some? then background.heldSince.value else at.now)
  {
  }

  /** An update that read the device, or failed, used up what was held; one held again stands for it,
      apart if either was, from the earlier time. */
  lemma EndsAs(p: Polls, at: At)
    requires CapExact(p) && Enabled(p, at) && (at.event.UpdateEnds? || at.event.FindsItsPlace?)
    ensures var p', again := Next(p, at), at.event.FindsItsPlace?;
            && p' == p.(now := at.now, running := false, current := None, timer := p.timer || at.event.rearms,
                        waiting := p'.waiting, firstWaiting := p'.firstWaiting, cap := p'.cap, since := p'.since)
            && (p'.firstWaiting <==> again && (p.firstWaiting || p.current.value.apart))
            && (p'.waiting <==> again && !p'.firstWaiting)
            && (p'.since.Some? <==> again) && (p'.cap.Some? <==> again)
            && (again ==>
                  && p'.cap.value == p'.since.value + HOLDOFF_MAX
                  && p'.since.value == if p.since.Some? && p.since.value <= p.current.value.since then p.since.value
                                       else p.current.value.since)
  {
  }

  /** A re-arm of Home Assistant's timer, or a refresh that reads nothing, drops a held scheduled poll
      and leaves one held apart; unloading drops both. */
  lemma DropsAs(p: Polls, at: At)
    requires Enabled(p, at) && (at.event.Rearm? || at.event.Abandoned? || at.event.Shutdown?)
    ensures var p', kept := Next(p, at), p.firstWaiting && !at.event.Shutdown?;
            p' == p.(now := at.now, waiting := false, firstWaiting := kept,
                     cap := if kept then p.cap else None, since := if kept then p.since else None,
                     timer := at.event.Rearm? && at.event.armed,
                     tasks := if at.event.Abandoned? then p.tasks - {at.event.task} else p.tasks)
  {
  }

  /** An end of a hold-off that finds nothing held, an update under way or commands still running, and
      a cap that fires with an update under way, start nothing. */
  lemma ReleasesNothing(p: Polls, at: At)
    requires Enabled(p, at) && CapExact(p)
    requires (at.event.HoldingEnds? && (!(p.waiting || p.firstWaiting) || p.running || p.holding)) || (at.event.CapFires? && p.running)
    ensures Next(p, at) == if at.event.CapFires? then p.(now := at.now, cap := None, since := None) else p.(now := at.now)
  {
  }

  // ---- one hold-off, one poll ----

  /** An update starts or ends, or held polls are dropped. */
  predicate UsesUpOrDrops(e: Event) {
    e.UpdateStarts? || e.UpdateEnds? || e.FindsItsPlace? || e.Abandoned? || e.Rearm? || e.Shutdown? || e.CapFires?
  }

  lemma HeldStep(p: Polls, at: At)
    requires CapExact(p) && Enabled(p, at) && p.holding && !p.running && !UsesUpOrDrops(at.event)
    ensures var p' := Next(p, at);
            && !p'.running
            && (p.waiting ==> p'.waiting) && (p.firstWaiting ==> p'.firstWaiting)
            && (p.waiting || p.firstWaiting ==> p'.cap == p.cap)
  {
  }

  lemma {:induction false} StaysHeld(trace: seq<Polls>, events: seq<At>, n: nat, m: nat)
    requires IsRun(trace, events) && n <= m < |trace|
    requires (trace[n].waiting || trace[n].firstWaiting) && !trace[n].running
    requires forall k | n <= k < m :: trace[k].holding && !UsesUpOrDrops(events[k].event)
    ensures !trace[m].running && trace[m].cap == trace[n].cap
    ensures (trace[n].waiting ==> trace[m].waiting) && (trace[n].firstWaiting ==> trace[m].firstWaiting)
  {
    hide Next, Enabled, CapExact;
    if n < m {
      StaysHeld(trace, events, n, m - 1);
      assert StepAt(trace, events, m - 1);
      CapAlwaysExact(trace, events, m - 1);
      HeldStep(trace[m - 1], events[m - 1]);
    }
  }

  /** One hold-off yields one poll: if, since it began at step `n`, a poll came due (at `d`, no update
      running) that nothing used up or dropped, then however many more came due, exactly one poll
      starts as the hold-off ends at `m`; it counts from no later than that one, apart if that one
      was to be kept, and nothing is held any more. */
  lemma OneHoldoffOnePoll(trace: seq<Polls>, events: seq<At>, n: nat, d: nat, m: nat)
    requires IsRun(trace, events) && n <= d < m < |events|
    requires forall k | n <= k < m :: trace[k].holding && !events[k].event.CapFires?
    requires ComesDue(events[d].event) && !trace[d].running
    requires forall k | d < k < m :: !UsesUpOrDrops(events[k].event)
    requires events[m].event.HoldingEnds? && !trace[m].holding && !trace[m].stopping
    ensures trace[m].tasks.Keys <= trace[n].tasks.Keys
    ensures var task := events[m].event.task;
            && task !in trace[m].tasks && trace[m + 1].tasks.Keys == trace[m].tasks.Keys + {task}
            && trace[m + 1].tasks[task].Some? && trace[m + 1].tasks[task].value.heldSince.Some?
            && trace[m + 1].tasks[task].value.heldSince.value <= events[d].now
            && (ToKeep(events[d].event) ==> trace[m + 1].tasks[task].value.apart)
    ensures !trace[m + 1].waiting && !trace[m + 1].firstWaiting && trace[m + 1].cap.None? && !trace[m + 1].timer
  {
    hide Next, Enabled, CapExact;
    NoneStartsMeanwhile(trace, events, n, m);
    CapAlwaysExact(trace, events, d);
    CapAlwaysExact(trace, events, m);
    assert StepAt(trace, events, d);
    assert StepAt(trace, events, m);
    DueIsHeld(trace[d], events[d]);
    CapSoon(trace[d], events[d]);
    StaysHeld(trace, events, d + 1, m);
    OneReleaseOnePoll(trace[m], events[m]);
  }

  lemma CapSoon(p: Polls, at: At)
    requires CapExact(p) && Enabled(p, at)
    ensures p.cap.Some? ==> p.cap.value - HOLDOFF_MAX <= at.now
  {
  }

  // ---- the poll the cap released ----

  /** The poll the cap released (or a manual refresh) is never held again: commands hold off only an
      update that says how. */
  lemma CapReleasedRuns(p: Polls, at: At)
    requires CapExact(p) && Enabled(p, at) && p.running && p.current.None?
    ensures !at.event.FindsItsPlace?
    ensures if at.event.UpdateEnds? then !Next(p, at).Held() && Next(p, at).cap.None?
            else Next(p, at).running && Next(p, at).current.None?
  {
    hide CapExact, TimerFired, FirstPoll, RequestPoll, ReleaseHeld, UnsubRefresh, DropHeld, EndUpdate, StartUpdate, CapReached;
    var q := p.(now := at.now);
    match at.event
    case UpdateEnds(rearms) => EndedHoldsNone(q, rearms);
    case TimerFires(task) => UpdateGoesOn(q, task, false);
    case FirstPollDue(task) => UpdateGoesOn(q, task, false);
    case Request(task, keep) => UpdateGoesOn(q, task, keep);
    case HoldingEnds(task) => UpdateGoesOn(q, task, false);
    case CapFires(task) => UpdateGoesOn(q, task, false);
    case Rearm(_) => UpdateGoesOn(q, 0, false);
    case Shutdown => UpdateGoesOn(q, 0, false);
    case Abandoned(_) => UpdateGoesOn(q, 0, false);
    case _ =>
  }

  lemma UpdateGoesOn(p: Polls, task: Task, keep: bool)
    requires p.running && p.current.None?
    ensures forall p' | p' in {TimerFired(p, task), FirstPoll(p, task), RequestPoll(p, task, keep), ReleaseHeld(p, task),
                               CapReached(p, task), UnsubRefresh(p), DropHeld(p)} :: p'.running && p'.current.None?
  {
  }

  lemma EndedHoldsNone(p: Polls, rearms: bool)
    ensures !EndUpdate(p, None, rearms).Held() && EndUpdate(p, None, rearms).cap.None?
  {
  }

  /** A poll waiting for its place keeps how it is held again until it starts, or its refresh reads
      nothing. */
  lemma TaskStays(p: Polls, at: At, task: Task)
    requires Enabled(p, at) && task in p.tasks
    requires at.event != UpdateStarts(Some(task)) && at.event != Abandoned(task)
    ensures KeepsTask(p, Next(p, at), task)
  {
    hide TimerFired, FirstPoll, RequestPoll, ReleaseHeld, UnsubRefresh, DropHeld, EndUpdate, CapReached, StartUpdate, KeepsTask;
    var q := p.(now := at.now);
    SameTasksKeep(q, task);
    match at.event {
      case TimerFires(other) => OthersKeepTask(q, other, false, task);
      case FirstPollDue(other) => OthersKeepTask(q, other, false, task);
      case Request(other, keep) => OthersKeepTask(q, other, keep, task);
      case HoldingEnds(other) => OthersKeepTask(q, other, false, task);
      case CapFires(other) => OthersKeepTask(q, other, false, task);
      case UpdateStarts(starter) => StartKeepsTask(q, starter, task);
      case Abandoned(other) => AbandonedKeepsTask(q, other, task);
      case FindsItsPlace(rearms) => TasksKept(q, q.current, rearms);
      case UpdateEnds(rearms) => TasksKept(q, None, rearms);
      case Rearm(_) => DroppingKeepsTasks(q);
      case Shutdown => DroppingKeepsTasks(q);
      case _ =>
    }
    KeptSince(p, q, Next(p, at), task);
  }

  lemma SameTasksKeep(p: Polls, task: Task)
    requires task in p.tasks
    ensures forall p': Polls | p'.tasks == p.tasks :: KeepsTask(p, p', task)
  {
  }

  lemma KeptSince(p: Polls, q: Polls, p': Polls, task: Task)
    requires task in p.tasks && q.tasks == p.tasks && KeepsTask(q, p', task)
    ensures KeepsTask(p, p', task)
  {
  }

  lemma AbandonedKeepsTask(p: Polls, other: Task, task: Task)
    requires task in p.tasks && other != task
    ensures KeepsTask(p, UnsubRefresh(p).(tasks := p.tasks - {other}), task)
  {
  }

  lemma StartKeepsTask(p: Polls, starter: Option<Task>, task: Task)
    requires (starter.Some? ==> starter.value in p.tasks) && task in p.tasks && starter != Some(task)
    ensures KeepsTask(p, StartUpdate(p, starter), task)
  {
  }

  lemma OthersKeepTask(p: Polls, other: Task, keep: bool, task: Task)
    requires task in p.tasks && other !in p.tasks
    ensures KeepsTask(p, TimerFired(p, other), task) && KeepsTask(p, FirstPoll(p, other), task)
    ensures KeepsTask(p, RequestPoll(p, other, keep), task) && KeepsTask(p, ReleaseHeld(p, other), task)
    ensures KeepsTask(p, CapReached(p, other), task)
  {
    hide Hold;
    HoldKeepsTasks(p);
    HoldKeepsTasks(p.(timer := false));
  }

  predicate KeepsTask(p: Polls, p': Polls, task: Task)
    requires task in p.tasks
  {
    task in p'.tasks && p'.tasks[task] == p.tasks[task]
  }

  lemma HoldKeepsTasks(p: Polls)
    ensures forall first, since :: Hold(p, first, since).tasks == p.tasks
  {
  }

  lemma {:induction false} TaskWaits(trace: seq<Polls>, events: seq<At>, n: nat, m: nat, task: Task)
    requires IsRun(trace, events) && n <= m < |trace| && task in trace[n].tasks
    requires forall k | n <= k < m :: events[k].event != UpdateStarts(Some(task)) && events[k].event != Abandoned(task)
    ensures task in trace[m].tasks && trace[m].tasks[task] == trace[n].tasks[task]
  {
    hide Next, Enabled;
    if n < m {
      TaskWaits(trace, events, n, m - 1, task);
      assert StepAt(trace, events, m - 1);
      TaskStays(trace[m - 1], events[m - 1], task);
    }
  }

  lemma {:induction false} UpdateRunsOut(trace: seq<Polls>, events: seq<At>, n: nat, m: nat)
    requires IsRun(trace, events) && n <= m < |trace| && trace[n].running && trace[n].current.None?
    requires forall k | n <= k < m :: !events[k].event.UpdateEnds?
    ensures trace[m].running && trace[m].current.None?
    ensures forall k | n <= k < m :: !events[k].event.FindsItsPlace?
  {
    hide Next, Enabled, CapExact;
    if n < m {
      UpdateRunsOut(trace, events, n, m - 1);
      assert StepAt(trace, events, m - 1);
      CapAlwaysExact(trace, events, m - 1);
      CapReleasedRuns(trace[m - 1], events[m - 1]);
    }
  }

  /** On every run the poll the cap releases, once its update starts, is never held again: that update
      goes on until it reads the device or fails. */
  lemma CapReleasedRunsOut(trace: seq<Polls>, events: seq<At>, n: nat, start: nat, m: nat)
    requires IsRun(trace, events) && n < start < m < |trace|
    requires events[n].event.CapFires? && trace[n].Held() && !trace[n].running && !trace[n].stopping
    requires events[start].event == UpdateStarts(Some(events[n].event.task))
    requires forall k | n < k < start ::
               events[k].event != UpdateStarts(Some(events[n].event.task)) && events[k].event != Abandoned(events[n].event.task)
    requires forall k | start < k < m :: !events[k].event.UpdateEnds?
    ensures trace[m].running && trace[m].current.None?
    ensures forall k | start < k < m :: !events[k].event.FindsItsPlace?
  {
    hide Next, Enabled, CapExact;
    var task := events[n].event.task;
    assert StepAt(trace, events, n);
    assert StepAt(trace, events, start);
    CapAlwaysExact(trace, events, n);
    OneReleaseOnePoll(trace[n], events[n]);
    TaskWaits(trace, events, n + 1, start, task);
    StartsAs(trace[start], events[start]);
    UpdateRunsOut(trace, events, start + 1, m);
  }

  // ---- longer runs ----

  lemma Extend(trace: seq<Polls>, events: seq<At>, at: At)
    requires IsRun(trace, events) && Enabled(trace[|events|], at)
    ensures IsRun(trace + [Next(trace[|events|], at)], events + [at])
  {
    hide Next, Enabled;
    var longer, more := trace + [Next(trace[|events|], at)], events + [at];
    forall k: nat | k < |more| ensures StepAt(longer, more, k) {
      if k < |events| {
        assert StepAt(trace, events, k);
      }
    }
  }
}
