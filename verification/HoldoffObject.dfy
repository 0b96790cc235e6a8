/** A coordinator's hold-off as the program writes it: flags, a timer and a time, updated in place.
    Each method is proved to make exactly the step its function in Holdoff.dfy describes. */
module HoldoffObject {
  import opened Options
  import opened H = Holdoff
  import B = Burst
  import BurstObject

  class Coordinator {
    var pollWaiting: bool
    var firstPollWaiting: bool
    var holdoffCap: Option<int>
    var holdoffSince: Option<int>
    var pollRunning: bool
    var held: Option<Again>
    var backgroundPolls: map<Task, Option<Background>>
    var refreshArmed: bool
    var holdingOff: bool
    var stopping: bool
    var now: int

    function State(): Polls
      reads this
    {
      Polls(pollWaiting, firstPollWaiting, holdoffCap, holdoffSince, pollRunning, held, backgroundPolls,
            refreshArmed, holdingOff, stopping, now)
    }

    constructor ()
      ensures State() == H.START
    {
      pollWaiting, firstPollWaiting, holdoffCap, holdoffSince := false, false, None, None;
      pollRunning, held, backgroundPolls, refreshArmed := false, None, map[], false;
      holdingOff, stopping, now := false, false, 0;
    }

    // ---- holding and releasing ----

    method HoldPoll(first: bool, since: Option<int>)
      modifies this
      ensures State() == H.Hold(old(State()), first, since)
    {
      if first {
        firstPollWaiting := true;
      } else {
        pollWaiting := true;
      }
      if holdoffCap.None? {
        var from := if since.None? then now else Min(since.value, now);
        holdoffSince := Some(from);
        holdoffCap := Some(now + (from + HOLDOFF_MAX - now));
      }
    }

    method HoldoffCapReached(task: Task)
      modifies this
      ensures State() == H.CapReached(old(State()), task)
    {
      holdoffCap := None;
      holdoffSince := None;
      if (pollWaiting || firstPollWaiting) && !pollRunning {
        ReleasePoll(task, None);
      }
    }

    method ReleasePoll(task: Task, apart: Option<bool>)
      modifies this
      ensures State() == H.ReleasePoll(old(State()), task, apart)
    {
      var since := holdoffSince;
      DropHeldPolls();
      if stopping {
        return;
      }
      refreshArmed := false;
      backgroundPolls := backgroundPolls[task := if apart.None? then None else Some(Background(apart.value, since))];
    }

    method ReleaseHeldPoll(task: Task)
      modifies this
      ensures State() == H.ReleaseHeld(old(State()), task)
    {
      if (pollWaiting || firstPollWaiting) && !pollRunning && !holdingOff {
        ReleasePoll(task, Some(firstPollWaiting));
      }
    }

    method DropHeldPolls()
      modifies this
      ensures State() == H.DropHeld(old(State()))
    {
      pollWaiting := false;
      firstPollWaiting := false;
      CancelHoldoffCap();
    }

    method CancelHoldoffCap()
      modifies this
      ensures State() == H.CancelCap(old(State()))
    {
      if holdoffCap.Some? {
        holdoffCap := None;
      }
      holdoffSince := None;
    }

    /** Home Assistant calls it before arming a new timer. */
    method UnsubRefresh()
      modifies this
      ensures State() == H.UnsubRefresh(old(State()))
    {
      refreshArmed := false;
      pollWaiting := false;
      if !firstPollWaiting {
        CancelHoldoffCap();
      }
    }

    // ---- polls coming due ----

    /** Home Assistant's poll timer fired. */
    method HandleRefreshInterval(task: Task)
      modifies this
      ensures State() == H.TimerFired(old(State()), task)
    {
      if pollRunning {
        refreshArmed := false;
        return;
      }
      if holdingOff {
        refreshArmed := false;
        HoldPoll(false, None);
        return;
      }
      refreshArmed := false;
      backgroundPolls := backgroundPolls[task := Some(Background(false, None))];
    }

    /** The first poll after setup. */
    method BackgroundPoll(task: Task)
      modifies this
      ensures State() == H.FirstPoll(old(State()), task)
    {
      if pollRunning {
        return;
      }
      if holdingOff {
        HoldPoll(true, None);
        return;
      }
      backgroundPolls := backgroundPolls[task := Some(Background(true, None))];
    }

    /** A one-off poll: after an advertised turn-on, or a return. */
    method RequestPoll(task: Task, keep: bool)
      modifies this
      ensures State() == H.RequestPoll(old(State()), task, keep)
    {
      if holdingOff || pollRunning {
        HoldPoll(keep, None);
        return;
      }
      ReleasePoll(task, Some(keep));
    }

    // ---- updates ----

    /** An update starts; `task` None: none that commands hold off. */
    method StartUpdate(task: Option<Task>)
      requires task.Some? ==> task.value in backgroundPolls
      modifies this
      ensures State() == H.StartUpdate(old(State()), task)
    {
      UnsubRefresh();
      held := Taken(task);
      if task.Some? {
        backgroundPolls := backgroundPolls - {task.value};
      }
      pollRunning := true;
    }

    /** How the update is held again: only a background poll's, one that came due unheld from now. */
    method Taken(task: Option<Task>) returns (again: Option<Again>)
      requires task.Some? ==> task.value in backgroundPolls
      ensures again == H.TakenBy(State(), task)
    {
      if task.None? || backgroundPolls[task.value].None? {
        return None;
      }
      var background := backgroundPolls[task.value].value;
      again := Some(Again(background.apart, if background.heldSince.None? then now else background.heldSince.value));
    }

    /** An update ends, is held again if `again` says how, and Home Assistant re-arms its timer. */
    method EndUpdate(again: Option<Again>, rearms: bool)
      modifies this
      ensures State() == H.EndUpdate(old(State()), again, rearms)
    {
      hide H.HoldAgain, H.UnsubRefresh, H.DropHeld, H.Merged;
      var heldAgain := MergeHeld(again);
      pollRunning := false;
      held := None;
      DropHeldPolls();
      if rearms {
        UnsubRefresh();
        refreshArmed := true;
      }
      RefreshFinished(heldAgain);
    }

    method MergeHeld(again: Option<Again>) returns (merged: Option<Again>)
      ensures merged == H.Merged(State(), again)
    {
      if again.None? {
        return None;
      }
      var since := again.value.since;
      if holdoffSince.Some? {
        since := Min(since, holdoffSince.value);
      }
      merged := Some(Again(again.value.apart || firstPollWaiting, since));
    }

    method RefreshFinished(again: Option<Again>)
      modifies this
      ensures State() == H.HoldAgain(old(State()), again)
    {
      if again.Some? {
        HoldPoll(again.value.apart, Some(again.value.since));
      }
    }

    method Shutdown()
      modifies this
      ensures State() == H.DropHeld(old(State())).(timer := false)
    {
      DropHeldPolls();
      refreshArmed := false;
    }
  }

  /** A burst's tail ends: each loaded entry's held poll runs, unless its own hold-off still holds it. */
  method EndBurst(burst: BurstObject.CommandBurst, loaded: seq<Coordinator>, ownHoldoff: seq<bool>, tasks: seq<Task>)
    requires |ownHoldoff| == |loaded| && |tasks| == |loaded|
    requires forall i, j | 0 <= i < j < |loaded| :: loaded[i] != loaded[j]
    modifies burst, loaded
    ensures burst.State() == B.Next(old(burst.State()), B.TailEnds)
    ensures forall i | 0 <= i < |loaded| ::
              loaded[i].State() == H.ReleaseHeld(old(loaded[i].State()).(holding := ownHoldoff[i]), tasks[i])
  {
    hide B.Next, H.ReleaseHeld;
    burst.EndBurst();
    for k := 0 to |loaded|
      invariant burst.State() == B.Next(old(burst.State()), B.TailEnds)
      invariant forall i | 0 <= i < k ::
                  loaded[i].State() == H.ReleaseHeld(old(loaded[i].State()).(holding := ownHoldoff[i]), tasks[i])
      invariant forall i | k <= i < |loaded| :: loaded[i].State() == old(loaded[i].State())
    {
      loaded[k].holdingOff := ownHoldoff[k];
      loaded[k].ReleaseHeldPoll(tasks[k]);
    }
  }
}
