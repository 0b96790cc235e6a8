/** The burst tracker as the program writes it: one object updated in place. */
module BurstObject {
  import opened Options
  import opened B = Burst

  class CommandBurst {
    var running: map<Address, nat>
    var deferred: map<Address, nat>
    var active: bool
    var tailArmed: bool
    var windows: map<Address, bool>

    function State(): Burst
      reads this
    {
      Burst(running, deferred, active, tailArmed, windows)
    }

    constructor ()
      ensures State() == QUIET
    {
      running, deferred, active, tailArmed, windows := map[], map[], false, false, map[];
    }

    method NoteWindowOpen(a: Address)
      modifies this
      ensures State() == Next(old(State()), OpenWindow(a))
    {
      if a !in windows {
        windows := windows[a := false];
      }
      if |windows| > 1 {
        windows := map w | w in windows :: true;
      }
    }

    /** Closes the window; says whether another was open at some point while it was. */
    method CloseWindow(a: Address) returns (burst: bool)
      modifies this
      ensures State() == Next(old(State()), Event.CloseWindow(a))
      ensures burst <==> a in old(windows) && old(windows)[a]
    {
      burst := a in windows && windows[a];
      windows := windows - {a};
    }

    method NoteCommandStarted(a: Address)
      modifies this
      ensures State() == Next(old(State()), CommandStarted(a))
    {
      running := running[a := CountOf(running, a) + 1];
      CancelEnd();
      MaybeStart();
    }

    method NoteCommandFinished(a: Address, loaded: bool)
      modifies this
      ensures State() == Next(old(State()), CommandFinished(a, loaded))
    {
      var left := CountOf(running, a) - 1;
      running := running - {a};
      if left > 0 {
        running := running[a := left];
      }
      TailIfDone(loaded);
    }

    method NoteDeferredStarted(a: Address)
      modifies this
      ensures State() == Next(old(State()), DeferredStarted(a))
    {
      deferred := deferred[a := CountOf(deferred, a) + 1];
      CancelEnd();
      MaybeStart();
    }

    method NoteDeferredFinished(a: Address, loaded: bool)
      modifies this
      ensures State() == Next(old(State()), DeferredFinished(a, loaded))
    {
      var left := CountOf(deferred, a) - 1;
      deferred := deferred - {a};
      if left > 0 {
        deferred := deferred[a := left];
      }
      TailIfDone(loaded);
    }

    method TailIfDone(loaded: bool)
      modifies this
      ensures State() == B.TailIfDone(old(State()), loaded)
    {
      if active && running == map[] && deferred == map[] {
        StartTail(loaded);
      }
    }

    method MaybeStart()
      modifies this
      ensures State() == B.MaybeStart(old(State()))
    {
      if !active && |running.Keys + deferred.Keys| > 1 {
        active := true;
      }
    }

    method StartTail(loaded: bool)
      modifies this
      ensures State() == B.StartTail(old(State()), loaded)
    {
      CancelEnd();
      if !loaded {
        active := false;
        return;
      }
      tailArmed := true;
    }

    method NoteUnload(loaded: bool)
      modifies this
      ensures State() == Next(old(State()), Unload(loaded))
    {
      if !loaded {
        CancelEnd();
        if running == map[] && deferred == map[] {
          active := false;
        }
      }
    }

    /** The timer fired. */
    method EndBurst()
      modifies this
      ensures State() == Next(old(State()), TailEnds)
    {
      tailArmed := false;
      active := false;
    }

    method CancelEnd()
      modifies this
      ensures State() == B.CancelEnd(old(State()))
    {
      if tailArmed {
        tailArmed := false;
      }
    }
  }
}
