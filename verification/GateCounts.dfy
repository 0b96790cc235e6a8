/** The gate's counts of links being released and of deferred turn-offs, and the graces it keeps, told
    from the events of a run. */
module GateCounts {
  import opened Options
  import opened Counting
  import opened ConnectGate
  import opened GateRun
  import opened GateTickets
  import opened GateAvoid

  lemma PumpKeepsCounts(g: Gate, env: Env)
    ensures Pump(g, env).releasing == g.releasing && Pump(g, env).deferredOffs == g.deferredOffs
  {
    hide Pump, RunChecks, Waiting, Passes, Prepare;
    if Waiting(g) == [] {
      PumpIdle(g, env);
    } else {
      PumpRadios(g, env);
      RunChecksAvoid(g, env);
      PrepareKeepsCounts(RunChecks(g, env), Waiting(g), env.snap);
    }
  }

  lemma PrepareKeepsCounts(g: Gate, waiting: seq<Waiter>, snap: Snapshot)
    ensures Prepare(g, waiting, snap).releasing == g.releasing && Prepare(g, waiting, snap).deferredOffs == g.deferredOffs
  {
  }

  lemma ReleaseKeepsCounts(g: Gate, admission: Admission, check: bool, env: Env)
    ensures Release(g, admission, check, env).releasing == g.releasing
    ensures Release(g, admission, check, env).deferredOffs == g.deferredOffs
  {
    hide Pump;
    if admission.ticket.Some? && admission.ticket.value < |g.objects| {
      PumpKeepsCounts(GiveBack(g, admission.ticket.value, check, env.snap.now), env);
    }
  }

  lemma LeaveKeepsCounts(g: Gate, c: CallId)
    ensures Leave(g, c).releasing == g.releasing && Leave(g, c).deferredOffs == g.deferredOffs
  {
  }

  lemma StepCounts(s: System, e: Event)
    ensures NextGate(s, e).releasing == match e
              case BeginReleasing(a) => s.gate.releasing + multiset{a}
              case EndReleasing(a, _) => s.gate.releasing - multiset{a}
              case _ => s.gate.releasing
    ensures NextGate(s, e).deferredOffs == match e
              case BeginDeferred => s.gate.deferredOffs + 1
              case EndDeferred => s.gate.deferredOffs - 1
              case _ => s.gate.deferredOffs
  {
    hide Pump, Release, Leave, ReleaseWaiters, Leaving;
    var g := s.gate;
    match e
    case Call(id, a, poll, last, env) =>
      PumpKeepsCounts(g.(waiters := g.waiters + [Waiter(id, a, poll, env.snap.now, last)], futures := g.futures[id := Pending]), env);
    case Tick(env) => PumpKeepsCounts(g.(ticking := false), env);
    case EndReleasing(a, env) => PumpKeepsCounts(g.(releasing := g.releasing - multiset{a}), env);
    case Finish(id, ok, env) => if FutureOf(g, id).Done? { ReleaseKeepsCounts(g, FutureOf(g, id).admission, !ok, env); }
    case CancelResumes(id, env) =>
      if FutureOf(g, id).Done? { ReleaseKeepsCounts(g, FutureOf(g, id).admission, false, env); }
      LeaveKeepsCounts(if FutureOf(g, id).Done? then Release(g, FutureOf(g, id).admission, false, env) else g, id);
    case ReleaseCalls(a, at) => ReleaseWaitersRadios(g, Leaving(g, a), |Leaving(g, a)|, at);
    case _ =>
  }

  /** On every run the gate counts, for each device, the releases of its link begun and not ended, and
      the deferred turn-offs begun and not ended. */
  lemma {:induction false} CountsExact(trace: seq<System>, events: seq<Event>, n: nat, a: Address)
    requires IsRun(trace, events) && n < |trace|
    ensures trace[n].gate.releasing[a]
         == HowMany(events, n, (e: Event) => e == BeginReleasing(a)) - HowMany(events, n, (e: Event) => e.EndReleasing? && e.address == a)
    ensures trace[n].gate.deferredOffs
         == HowMany(events, n, (e: Event) => e.BeginDeferred?) - HowMany(events, n, (e: Event) => e.EndDeferred?)
  {
    hide NextGate;
    if n > 0 {
      CountsExact(trace, events, n - 1, a);
      assert StepAt(trace, events, n - 1);
      StepCounts(trace[n - 1], events[n - 1]);
    }
  }

  // ---- the graces ----

  /** With the event a call gives back the last share of a ticket on the source. */
  ghost predicate LastShareOn(s: System, e: Event, source: Source) {
    && (e.Finish? || e.CancelResumes?)
    && exists id | Carried(s.gate, e.id) == Some(id) ::
         id < |s.gate.objects| && s.gate.objects[id].holders == 1 && s.gate.objects[id].scanner.source == source
  }

  lemma PumpEndsGraces(g: Gate, env: Env)
    ensures forall s | s in Pump(g, env).released :: s in g.released && Pump(g, env).released[s] == g.released[s]
  {
    hide Pump, RunChecks, Waiting, Passes, Prepare;
    if Waiting(g) == [] {
      PumpIdle(g, env);
    } else {
      PumpRadios(g, env);
      RunChecksAvoid(g, env);
      PreparePrunes(RunChecks(g, env), Waiting(g), env.snap);
    }
  }

  lemma PreparePrunes(g: Gate, waiting: seq<Waiter>, snap: Snapshot)
    ensures forall s | s in Prepare(g, waiting, snap).released :: s in g.released && Prepare(g, waiting, snap).released[s] == g.released[s]
  {
  }

  lemma StepGraces(s: System, e: Event, source: Source)
    requires Sound(s) && Enabled(s, e) && source in NextGate(s, e).released
    ensures (source in s.gate.released && NextGate(s, e).released[source] == s.gate.released[source])
            || (LastShareOn(s, e, source) && NextGate(s, e).released[source] == TimeOf(e, s.now) + RELEASE_GRACE)
  {
    hide NextGate, Pump, Sound, GiveBack, Enabled, Coherent;
    StepRadios(s, e);
    if PumpedBy(s, e).Some? {
      PumpEndsGraces(PumpedBy(s, e).value, EnvOf(e));
      PumpedGraces(s, e, source);
    }
  }

  lemma PumpedGraces(s: System, e: Event, source: Source)
    requires PumpedBy(s, e).Some? && source in PumpedBy(s, e).value.released
    ensures (source in s.gate.released && PumpedBy(s, e).value.released[source] == s.gate.released[source])
            || (LastShareOn(s, e, source) && PumpedBy(s, e).value.released[source] == TimeOf(e, s.now) + RELEASE_GRACE)
  {
  }

  /** On every run a grace is one that the last share of a ticket on the radio, given back, began: it
      ends when that says. */
  lemma {:induction false} GracesFromEnds(trace: seq<System>, events: seq<Event>, n: nat, source: Source) returns (k: nat)
    requires IsRun(trace, events) && n < |trace| && source in trace[n].gate.released
    ensures k < n && LastShareOn(trace[k], events[k], source)
    ensures trace[n].gate.released[source] == trace[k + 1].now + RELEASE_GRACE
  {
    hide NextGate, Sound, LastShareOn, Enabled;
    assert n > 0;
    assert StepAt(trace, events, n - 1);
    RunsAreSound(trace, events, n - 1);
    StepGraces(trace[n - 1], events[n - 1], source);
    if LastShareOn(trace[n - 1], events[n - 1], source) && trace[n].gate.released[source] == trace[n].now + RELEASE_GRACE {
      k := n - 1;
    } else {
      k := GracesFromEnds(trace, events, n - 1, source);
    }
  }
}
