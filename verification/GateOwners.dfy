/** Whose ticket a call carries: over every run its own device's. */
module GateOwners {
  import opened Options
  import opened ConnectGate
  import opened GateLists
  import opened GateRun
  import opened GateTickets

  /** Every waiting call is for the device it called for, and every ticket carried is one of that
      device. */
  ghost predicate OwnTickets(g: Gate, calls: map<CallId, Address>) {
    && (forall w | w in g.waiters :: w.id in calls && calls[w.id] == w.address)
    && (forall c | Carried(g, c).Some? ::
          c in calls && Carried(g, c).value < |g.objects| && g.objects[Carried(g, c).value].address == calls[c])
  }

  // ---- steps that deliver no ticket ----

  /** Waiting calls may leave, outcomes without a ticket be delivered, tickets change but for their
      device. */
  ghost predicate NoneDelivered(g: Gate, g': Gate) {
    && (forall w | w in g'.waiters :: w in g.waiters)
    && (forall c | Carried(g', c).Some? :: Carried(g', c) == Carried(g, c))
    && |g.objects| <= |g'.objects|
    && (forall id | 0 <= id < |g.objects| :: g'.objects[id].address == g.objects[id].address)
  }

  lemma NoneDeliveredOwn(g: Gate, g': Gate, calls: map<CallId, Address>)
    requires OwnTickets(g, calls) && NoneDelivered(g, g')
    ensures OwnTickets(g', calls)
  {
  }

  lemma SameSharesNone(g: Gate, g': Gate)
    requires SameShares(g, g')
    ensures NoneDelivered(g, g')
  {
    forall c ensures Carried(g', c) == Carried(g, c) {}
  }

  lemma ResolveTicketlessNone(g: Gate, c: CallId, admission: Admission)
    requires admission.ticket.None?
    ensures NoneDelivered(g, Resolve(g, c, admission))
  {
    WithoutElements(g.waiters, c);
  }

  lemma NoneDeliveredChain(g: Gate, g': Gate, g'': Gate)
    requires NoneDelivered(g, g') && NoneDelivered(g', g'')
    ensures NoneDelivered(g, g'')
  {
  }

  lemma {:induction false} UnjudgeNone(g: Gate, waiting: seq<Waiter>, n: nat, now: int)
    requires n <= |waiting|
    ensures NoneDelivered(g, Unjudge(g, waiting, n, now))
  {
    hide Resolve, NoneDelivered;
    if n == 0 {
      SelfNone(g);
    } else {
      UnjudgeNone(g, waiting, n - 1, now);
      var g', w := Unjudge(g, waiting, n - 1, now), waiting[n - 1];
      ResolveTicketlessNone(g', w.id, Admission(Unjudged, now - w.queuedAt, None, now, None));
      NoneDeliveredChain(g, g', Resolve(g', w.id, Admission(Unjudged, now - w.queuedAt, None, now, None)));
    }
  }

  lemma SelfNone(g: Gate)
    ensures NoneDelivered(g, g)
  {
  }

  lemma {:induction false} ReleaseWaitersNone(g: Gate, leaving: seq<Waiter>, n: nat, now: int)
    requires n <= |leaving|
    ensures NoneDelivered(g, ReleaseWaiters(g, leaving, n, now))
  {
    hide Resolve, NoneDelivered;
    if n == 0 {
      SelfNone(g);
    } else {
      ReleaseWaitersNone(g, leaving, n - 1, now);
      var g', w := ReleaseWaiters(g, leaving, n - 1, now), leaving[n - 1];
      ResolveTicketlessNone(g', w.id, Admission(Released, now - w.queuedAt, None, now, None));
      NoneDeliveredChain(g, g', Resolve(g', w.id, Admission(Released, now - w.queuedAt, None, now, None)));
    }
  }

  // ---- judging ----

  /** A ticket delivered to a waiting call is its device's: the one it has, or a new one. */
  lemma DeliverOwn(g: Gate, g': Gate, w: Waiter, admission: Admission, calls: map<CallId, Address>)
    requires OwnTickets(g, calls) && w in g.waiters && g'.waiters == g.waiters && g'.futures == g.futures
    requires |g.objects| <= |g'.objects|
    requires forall id | 0 <= id < |g.objects| :: g'.objects[id].address == g.objects[id].address
    requires admission.ticket.Some? && admission.ticket.value < |g'.objects|
    requires g'.objects[admission.ticket.value].address == w.address
    ensures OwnTickets(Resolve(g', w.id, admission), calls)
  {
    var after := Resolve(g', w.id, admission);
    WithoutElements(g.waiters, w.id);
    forall c | Carried(after, c).Some?
      ensures c in calls && Carried(after, c).value < |after.objects| && after.objects[Carried(after, c).value].address == calls[c]
    {
      if c != w.id {
        assert Carried(after, c) == Carried(g, c);
      }
    }
  }

  lemma JudgeOwn(j: Judging, item: Item, snap: Snapshot, calls: map<CallId, Address>)
    requires OwnTickets(j.gate, calls) && MapSound(j.gate) && item.waiter in j.gate.waiters
    ensures OwnTickets(Judge(j, item, snap).gate, calls)
  {
    hide Judge, Decide, Resolve, OwnTickets;
    var g, w := j.gate, item.waiter;
    DecideShape(g, w, item.view, snap, w.poll && j.commandWaiting, j.capped);
    JudgeGate(j, item, snap);
    match Decide(g, w, item.view, snap, w.poll && j.commandWaiting, j.capped).admission
    case None =>
    case Some(a) =>
      if a.ticket.None? {
        ResolveTicketlessNone(g, w.id, a);
        NoneDeliveredOwn(g, Resolve(g, w.id, a), calls);
      } else if a.outcome == Joined {
        DeliverOwn(g, Join(g, w, snap.now).0, w, a, calls);
      } else {
        DeliverOwn(g, Admit(g, w, a.outcome, a.radio.value, snap.now).0, w, a, calls);
      }
  }

  lemma {:induction false} JudgeAllOwn(j: Judging, items: seq<Item>, n: nat, snap: Snapshot, open: set<CallId>, calls: map<CallId, Address>)
    requires n <= |items| && Coherent(j.gate, open) && OwnTickets(j.gate, calls)
    requires DistinctItems(items) && StillWaiting(j.gate, WaitersOf(items), 0)
    ensures OwnTickets(JudgeAll(j, items, n, snap).gate, calls)
  {
    hide Judge, SharesCounted, CarriesReal, QueueSound, MapSound, DistinctItems, Extends, IsPending, OwnTickets;
    if n > 0 {
      JudgeAllOwn(j, items, n - 1, snap, open, calls);
      JudgeAllKeeps(j, items, n - 1, snap, open);
      JudgeAllExtends(j, items, n - 1, snap);
      assert WaitersOf(items)[n - 1] == items[n - 1].waiter;
      JudgeOwn(JudgeAll(j, items, n - 1, snap), items[n - 1], snap, calls);
    }
  }

  // ---- pumping ----

  lemma PassOwn(g: Gate, waiting: seq<Waiter>, env: Env, open: set<CallId>, calls: map<CallId, Address>)
    requires Coherent(g, open) && DistinctIds(waiting) && StillWaiting(g, waiting, 0) && OwnTickets(g, calls)
    ensures OwnTickets(Pass(g, waiting, env).gate, calls)
  {
    hide Prepare, Serving, Coherent, JudgeAll, StillWaiting, DistinctItems, DistinctIds, OwnTickets, NoneDelivered;
    if !env.failure.InRead? {
      var ready := Prepare(g, waiting, env.snap);
      PrepareKeepsShares(g, waiting, env.snap);
      SameSharesCoherent(g, ready, open);
      SameSharesNone(g, ready);
      NoneDeliveredOwn(g, ready, calls);
      if !env.failure.InViews? {
        var items := Serving(waiting, ready.avoided, env.snap);
        ServedStillWait(g, ready, waiting, env.snap);
        var n := if env.failure.AfterJudging? && env.failure.judged < |items| then env.failure.judged else |items|;
        JudgeAllOwn(StartJudging(ready), items, n, env.snap, open, calls);
      }
    }
  }

  lemma PumpOwn(g: Gate, env: Env, open: set<CallId>, calls: map<CallId, Address>)
    requires Coherent(g, open) && OwnTickets(g, calls)
    ensures OwnTickets(Pump(g, env), calls)
  {
    hide MapSound, SharesCounted, CarriesReal, Pass, CheckAll, Unjudge, Waiting, OwnTickets, NoneDelivered;
    var waiting := Waiting(g);
    WaitingElements(g);
    if waiting == [] {
      SameSharesNone(g, Schedule(g));
      NoneDeliveredOwn(g, Schedule(g), calls);
    } else {
      var due := Due(g.checks, env.snap.now);
      var n := if env.failure.InChecks? && env.failure.checked < |due| then env.failure.checked else |due|;
      ChecksKeepShares(g.(checks := NotDue(g.checks, env.snap.now)), due, n, env.snap);
      var checked := RunChecks(g, env);
      SameSharesCoherent(g, checked, open);
      SameSharesNone(g, checked);
      NoneDeliveredOwn(g, checked, calls);
      PassOwn(checked, waiting, env, open, calls);
      var judged := if env.failure.InChecks? then checked else Pass(checked, waiting, env).gate;
      UnjudgeNone(judged, waiting, |waiting|, env.snap.now);
      NoneDeliveredOwn(judged, Unjudge(judged, waiting, |waiting|, env.snap.now), calls);
      var g' := if env.failure.NoFailure? then judged else Unjudge(judged, waiting, |waiting|, env.snap.now);
      SameSharesNone(g', Schedule(g'));
      NoneDeliveredOwn(g', Schedule(g'), calls);
    }
  }

  // ---- every step ----

  lemma EnqueueOwn(g: Gate, w: Waiter, env: Env, open: set<CallId>, calls: map<CallId, Address>)
    requires Coherent(g, open) && OwnTickets(g, calls) && w.id !in open && w.id !in g.futures
    ensures OwnTickets(Enqueue(g, w, env), calls[w.id := w.address])
  {
    hide Pump;
    var g' := g.(waiters := g.waiters + [w], futures := g.futures[w.id := Pending]);
    QueuedKeeps(g, w, open);
    forall c | Carried(g', c).Some? ensures Carried(g', c) == Carried(g, c) {}
    PumpOwn(g', env, open + {w.id}, calls[w.id := w.address]);
  }

  lemma GiveBackNone(g: Gate, id: TicketId, check: bool, now: int)
    requires id < |g.objects|
    ensures NoneDelivered(g, GiveBack(g, id, check, now))
  {
    forall c ensures Carried(GiveBack(g, id, check, now), c) == Carried(g, c) {}
  }

  lemma ReleaseOwn(g: Gate, c: CallId, check: bool, env: Env, open: set<CallId>, calls: map<CallId, Address>)
    requires Coherent(g, open) && OwnTickets(g, calls) && c in open && FutureOf(g, c).Done?
    ensures OwnTickets(Release(g, FutureOf(g, c).admission, check, env), calls)
  {
    hide Pump, SharesCounted, QueueSound, OwnTickets, NoneDelivered;
    if Carried(g, c) != None {
      var id := Carried(g, c).value;
      var g' := GiveBack(g, id, check, env.snap.now);
      GiveBackNone(g, id, check, env.snap.now);
      NoneDeliveredOwn(g, g', calls);
      ShareGivenBack(g, g', open, c, id);
      PumpOwn(g', env, open - {c}, calls);
    }
  }

  lemma LeaveNone(g: Gate, c: CallId)
    ensures NoneDelivered(g, Leave(g, c))
  {
    WithoutElements(g.waiters, c);
    forall d ensures Carried(Leave(g, c), d) == Carried(g, d) {}
  }

  lemma CancelNone(g: Gate, c: CallId)
    requires FutureOf(g, c).Pending?
    ensures NoneDelivered(g, g.(futures := g.futures[c := Cancelled]))
  {
    forall d ensures Carried(g.(futures := g.futures[c := Cancelled]), d) == Carried(g, d) {}
  }

  /** Which device each call was for. */
  function NextCalls(calls: map<CallId, Address>, e: Event): map<CallId, Address> {
    if e.Call? then calls[e.id := e.address] else calls
  }

  lemma PumpStepOwn(s: System, e: Event, calls: map<CallId, Address>)
    requires Sound(s) && Enabled(s, e) && OwnTickets(s.gate, calls) && (e.Call? || e.Tick? || e.EndReleasing?)
    ensures OwnTickets(Next(s, e).gate, NextCalls(calls, e))
  {
    hide Pump, Enqueue, Coherent, OwnTickets, NoneDelivered;
    var g, open := s.gate, Open(s.phases);
    match e
    case Call(id, a, poll, last, env) => EnqueueOwn(g, Waiter(id, a, poll, env.snap.now, last), env, open, calls);
    case Tick(env) =>
      SameSharesCoherent(g, g.(ticking := false), open);
      SameSharesNone(g, g.(ticking := false));
      NoneDeliveredOwn(g, g.(ticking := false), calls);
      PumpOwn(g.(ticking := false), env, open, calls);
    case EndReleasing(a, env) =>
      SameSharesCoherent(g, g.(releasing := g.releasing - multiset{a}), open);
      SameSharesNone(g, g.(releasing := g.releasing - multiset{a}));
      NoneDeliveredOwn(g, g.(releasing := g.releasing - multiset{a}), calls);
      PumpOwn(g.(releasing := g.releasing - multiset{a}), env, open, calls);
  }

  lemma EndStepOwn(s: System, e: Event, calls: map<CallId, Address>)
    requires Sound(s) && Enabled(s, e) && OwnTickets(s.gate, calls) && (e.Finish? || e.CancelResumes?)
    ensures OwnTickets(Next(s, e).gate, calls)
  {
    hide Release, Pump, Coherent, Leave, OwnTickets, NoneDelivered;
    var g, open := s.gate, Open(s.phases);
    var ended := if FutureOf(g, e.id).Done? then Release(g, FutureOf(g, e.id).admission, e.Finish? && !e.ok, e.env) else g;
    if FutureOf(g, e.id).Done? {
      ReleaseOwn(g, e.id, e.Finish? && !e.ok, e.env, open, calls);
    }
    LeaveNone(ended, e.id);
    NoneDeliveredOwn(ended, Leave(ended, e.id), calls);
  }

  lemma QuietStepOwn(s: System, e: Event, calls: map<CallId, Address>)
    requires Sound(s) && Enabled(s, e) && OwnTickets(s.gate, calls)
    requires e.Resume? || e.Cancel? || e.ReleaseCalls? || e.BeginReleasing? || e.BeginDeferred? || e.EndDeferred?
    ensures OwnTickets(Next(s, e).gate, calls)
  {
    hide Coherent, OwnTickets, NoneDelivered;
    var g, g' := s.gate, Next(s, e).gate;
    if e.Cancel? {
      CancelNone(g, e.id);
    } else if e.ReleaseCalls? {
      var leaving := Leaving(g, e.address);
      ReleaseWaitersNone(g, leaving, |leaving|, e.at);
      var released := ReleaseWaiters(g, leaving, |leaving|, e.at);
      SameSharesNone(released, Schedule(released));
      NoneDeliveredChain(g, released, Schedule(released));
    } else {
      SameSharesNone(g, g');
    }
    NoneDeliveredOwn(g, g', calls);
  }

  lemma StepOwn(s: System, e: Event, calls: map<CallId, Address>)
    requires Sound(s) && Enabled(s, e) && OwnTickets(s.gate, calls)
    ensures OwnTickets(Next(s, e).gate, NextCalls(calls, e))
  {
    hide Next, Sound, Enabled, OwnTickets;
    if e.Call? || e.Tick? || e.EndReleasing? {
      PumpStepOwn(s, e, calls);
    } else if e.Finish? || e.CancelResumes? {
      EndStepOwn(s, e, calls);
    } else {
      QuietStepOwn(s, e, calls);
    }
  }

  // ---- every run ----

  function CallsOf(events: seq<Event>, n: nat): map<CallId, Address>
    requires n <= |events|
  {
    if n == 0 then map[] else NextCalls(CallsOf(events, n - 1), events[n - 1])
  }

  lemma {:induction false} OwnAlways(trace: seq<System>, events: seq<Event>, n: nat)
    requires IsRun(trace, events) && n < |trace|
    ensures OwnTickets(trace[n].gate, CallsOf(events, n))
  {
    hide Next, Enabled, Sound, OwnTickets;
    if n == 0 {
      StartOwn();
    } else {
      OwnAlways(trace, events, n - 1);
      RunsAreSound(trace, events, n - 1);
      assert StepAt(trace, events, n - 1);
      StepOwn(trace[n - 1], events[n - 1], CallsOf(events, n - 1));
    }
  }

  lemma StartOwn()
    ensures OwnTickets(START.gate, map[])
  {
  }

  /** A call's id is never used again, so its device stays the one it called for. */
  lemma {:induction false} CalledFor(trace: seq<System>, events: seq<Event>, k: nat, n: nat)
    requires IsRun(trace, events) && k < n < |trace| && events[k].Call?
    ensures events[k].id in trace[n].phases
    ensures events[k].id in CallsOf(events, n) && CallsOf(events, n)[events[k].id] == events[k].address
  {
    hide NextGate;
    assert StepAt(trace, events, n - 1);
    if k < n - 1 {
      CalledFor(trace, events, k, n - 1);
    }
  }

  /** On every run the ticket a call's admission carries is one of the device it called for; while the
      call hasn't ended it is the one the map keeps for that device. */
  lemma CarriesOwnTicket(trace: seq<System>, events: seq<Event>, k: nat, n: nat)
    requires IsRun(trace, events) && k < n < |trace| && events[k].Call?
    requires Carried(trace[n].gate, events[k].id).Some?
    ensures var g, id := trace[n].gate, Carried(trace[n].gate, events[k].id).value;
            && id < |g.objects| && g.objects[id].address == events[k].address
            && (events[k].id in Open(trace[n].phases) ==>
                  events[k].address in g.tickets && g.tickets[events[k].address] == id)
  {
    hide NextGate;
    OwnAlways(trace, events, n);
    CalledFor(trace, events, k, n);
    RunsAreSound(trace, events, n);
    var g, open, c := trace[n].gate, Open(trace[n].phases), events[k].id;
    var id := Carried(g, c).value;
    if c in open {
      assert c in Holders(g, open, id);
      assert g.objects[id].holders > 0 <==> g.Live(id);
    }
  }
}
