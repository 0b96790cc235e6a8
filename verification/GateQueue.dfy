/** The queue over every run: the waiting calls, as they called and in the order they did. */
module GateQueue {
  import opened Options
  import opened StableSort
  import opened ConnectGate
  import opened GateLists
  import opened GateRun
  import opened GateTickets
  import opened GateAvoid

  type Order = (Waiter, Waiter) -> bool

  lemma WithoutOrder(waiters: seq<Waiter>, id: CallId, order: Order)
    requires Pairwise(waiters, order)
    ensures Pairwise(Without(waiters, id), order)
  {
    FilterPairwise(waiters, (w: Waiter) => w.id != id, order);
  }

  lemma {:induction false} JudgeAllOrder(j: Judging, items: seq<Item>, n: nat, snap: Snapshot, order: Order)
    requires n <= |items| && Pairwise(j.gate.waiters, order)
    ensures Pairwise(JudgeAll(j, items, n, snap).gate.waiters, order)
  {
    hide Judge, Decide, Pairwise;
    if n > 0 {
      JudgeAllOrder(j, items, n - 1, snap, order);
      var before, item := JudgeAll(j, items, n - 1, snap), items[n - 1];
      DecideShape(before.gate, item.waiter, item.view, snap, item.waiter.poll && before.commandWaiting, before.capped);
      JudgeGate(before, item, snap);
      WithoutOrder(before.gate.waiters, item.waiter.id, order);
    }
  }

  lemma {:induction false} UnjudgeOrder(g: Gate, waiting: seq<Waiter>, n: nat, now: int, order: Order)
    requires n <= |waiting| && Pairwise(g.waiters, order)
    ensures Pairwise(Unjudge(g, waiting, n, now).waiters, order)
  {
    hide Pairwise;
    if n > 0 {
      UnjudgeOrder(g, waiting, n - 1, now, order);
      WithoutOrder(Unjudge(g, waiting, n - 1, now).waiters, waiting[n - 1].id, order);
    }
  }

  lemma {:induction false} ReleaseOrder(g: Gate, leaving: seq<Waiter>, n: nat, now: int, order: Order)
    requires n <= |leaving| && Pairwise(g.waiters, order)
    ensures Pairwise(ReleaseWaiters(g, leaving, n, now).waiters, order)
  {
    hide Pairwise;
    if n > 0 {
      ReleaseOrder(g, leaving, n - 1, now, order);
      WithoutOrder(ReleaseWaiters(g, leaving, n - 1, now).waiters, leaving[n - 1].id, order);
    }
  }

  lemma PassOrder(g: Gate, waiting: seq<Waiter>, env: Env, order: Order)
    requires Pairwise(g.waiters, order)
    ensures Pairwise(Pass(g, waiting, env).gate.waiters, order)
  {
    hide Pairwise, JudgeAll, Serving;
    if !env.failure.InRead? && !env.failure.InViews? {
      var ready := Prepare(g, waiting, env.snap);
      var items := Serving(waiting, ready.avoided, env.snap);
      var n := if env.failure.AfterJudging? && env.failure.judged < |items| then env.failure.judged else |items|;
      JudgeAllOrder(StartJudging(ready), items, n, env.snap, order);
    }
  }

  lemma PumpOrder(g: Gate, env: Env, order: Order)
    requires Pairwise(g.waiters, order)
    ensures Pairwise(Pump(g, env).waiters, order)
  {
    hide Pairwise, Pass, CheckAll, Unjudge, Waiting;
    var waiting, due := Waiting(g), Due(g.checks, env.snap.now);
    var n := if env.failure.InChecks? && env.failure.checked < |due| then env.failure.checked else |due|;
    ChecksKeepShares(g.(checks := NotDue(g.checks, env.snap.now)), due, n, env.snap);
    var checked := RunChecks(g, env);
    PassOrder(checked, waiting, env, order);
    UnjudgeOrder(if env.failure.InChecks? then checked else Pass(checked, waiting, env).gate, waiting, |waiting|, env.snap.now, order);
  }

  lemma EndOrder(g: Gate, c: CallId, check: bool, env: Env, order: Order)
    requires Pairwise(g.waiters, order) && FutureOf(g, c).Done?
    ensures Pairwise(Release(g, FutureOf(g, c).admission, check, env).waiters, order)
  {
    hide Pairwise, Pump;
    if Carried(g, c).Some? && Carried(g, c).value < |g.objects| {
      PumpOrder(GiveBack(g, Carried(g, c).value, check, env.snap.now), env, order);
    }
  }

  /** A step leaves the calls still waiting in their order; a call joins at the end. */
  lemma StepOrder(s: System, e: Event, order: Order)
    requires Enabled(s, e) && Pairwise(s.gate.waiters, order)
    requires e.Call? ==> forall w | w in s.gate.waiters :: order(w, Arrival(e))
    ensures Pairwise(NextGate(s, e).waiters, order)
  {
    hide Pump, Release, ReleaseWaiters, Leaving, Pairwise, Without;
    var g := s.gate;
    match e
    case Call(id, a, poll, last, env) =>
      AppendOrder(g.waiters, Arrival(e), order);
      PumpOrder(g.(waiters := g.waiters + [Arrival(e)], futures := g.futures[id := Pending]), env, order);
    case Tick(env) => PumpOrder(g.(ticking := false), env, order);
    case EndReleasing(a, env) => PumpOrder(g.(releasing := g.releasing - multiset{a}), env, order);
    case Finish(id, ok, env) => if FutureOf(g, id).Done? { EndOrder(g, id, !ok, env, order); }
    case CancelResumes(id, env) =>
      if FutureOf(g, id).Done? { EndOrder(g, id, false, env, order); }
      WithoutOrder((if FutureOf(g, id).Done? then Release(g, FutureOf(g, id).admission, false, env) else g).waiters, id, order);
    case ReleaseCalls(a, at) => ReleaseOrder(g, Leaving(g, a), |Leaving(g, a)|, at, order);
    case _ =>
  }

  lemma AppendOrder(waiters: seq<Waiter>, w: Waiter, order: Order)
    requires Pairwise(waiters, order) && forall v | v in waiters :: order(v, w)
    ensures Pairwise(waiters + [w], order)
  {
  }

  // ---- over a run ----

  function Arrival(e: Event): Waiter
    requires e.Call?
  {
    Waiter(e.id, e.address, e.poll, e.env.snap.now, e.last)
  }

  /** The call arrived with event `i`. */
  ghost predicate ArrivedAt(events: seq<Event>, i: int, w: Waiter) {
    0 <= i < |events| && events[i].Call?
    && w == Waiter(events[i].id, events[i].address, events[i].poll, events[i].env.snap.now, events[i].last)
  }

  ghost predicate ArrivedBefore(events: seq<Event>, v: Waiter, w: Waiter) {
    exists i, j :: 0 <= i < j < |events| && ArrivedAt(events, i, v) && ArrivedAt(events, j, w)
  }

  ghost predicate InArrivalOrder(waiters: seq<Waiter>, events: seq<Event>) {
    && (forall w | w in waiters :: exists i :: ArrivedAt(events, i, w))
    && (forall i, j | 0 <= i < j < |waiters| :: ArrivedBefore(events, waiters[i], waiters[j]))
  }

  lemma MoreEvents(events: seq<Event>, e: Event)
    ensures forall i, w | ArrivedAt(events, i, w) :: ArrivedAt(events + [e], i, w)
    ensures forall v, w | ArrivedBefore(events, v, w) :: ArrivedBefore(events + [e], v, w)
    ensures e.Call? ==> ArrivedAt(events + [e], |events|, Arrival(e))
    ensures e.Call? ==> forall i, w | ArrivedAt(events, i, w) :: ArrivedBefore(events + [e], w, Arrival(e))
  {
    var more := events + [e];
    forall i, w | ArrivedAt(events, i, w) ensures ArrivedAt(more, i, w) && (e.Call? ==> ArrivedBefore(more, w, Arrival(e))) {
      assert ArrivedAt(more, i, w);
      assert e.Call? ==> ArrivedAt(more, |events|, Arrival(e));
    }
    forall v, w | ArrivedBefore(events, v, w) ensures ArrivedBefore(more, v, w) {
      var i, j :| 0 <= i < j < |events| && ArrivedAt(events, i, v) && ArrivedAt(events, j, w);
      assert ArrivedAt(more, i, v) && ArrivedAt(more, j, w);
    }
  }

  lemma StepKeepsArrivals(s: System, e: Event, events: seq<Event>)
    requires Sound(s) && Enabled(s, e) && InArrivalOrder(s.gate.waiters, events)
    ensures InArrivalOrder(NextGate(s, e).waiters, events + [e])
  {
    hide NextGate, Sound, ArrivedAt, ArrivedBefore, Enabled;
    var order := (v: Waiter, w: Waiter) => ArrivedBefore(events + [e], v, w);
    MoreEvents(events, e);
    StepKeepsSound(s, e);
    StepOrder(s, e, order);
    Arrivals(s, e);
    var waiters := NextGate(s, e).waiters;
    forall i, j | 0 <= i < j < |waiters| ensures ArrivedBefore(events + [e], waiters[i], waiters[j]) {
      assert order(waiters[i], waiters[j]);
    }
  }

  lemma Arrivals(s: System, e: Event)
    requires Sound(s) && Enabled(s, e)
    ensures forall w | w in NextGate(s, e).waiters :: w in s.gate.waiters || (e.Call? && w == Arrival(e))
  {
    hide Pump, Coherent;
    StepKeepsSound(s, e);
    if e.Call? {
      EnqueueKeeps(s.gate, Arrival(e), e.env, Open(s.phases));
    }
  }

  /** On every run the waiting calls stand in the queue as they called, in the order they did. */
  lemma {:induction false} QueueInArrivalOrder(trace: seq<System>, events: seq<Event>, n: nat)
    requires IsRun(trace, events) && n < |trace|
    ensures InArrivalOrder(trace[n].gate.waiters, events[..n])
  {
    hide NextGate, Sound, InArrivalOrder, Enabled;
    if n == 0 {
      Nobody();
    } else {
      QueueInArrivalOrder(trace, events, n - 1);
      RunsAreSound(trace, events, n - 1);
      assert StepAt(trace, events, n - 1);
      StepKeepsArrivals(trace[n - 1], events[n - 1], events[..n - 1]);
      assert events[..n] == events[..n - 1] + [events[n - 1]];
    }
  }

  lemma Nobody()
    ensures InArrivalOrder(START.gate.waiters, [])
  {
  }

  /** So every pump is given the calls it judges, those without an outcome, in that order, the one just
      arrived the last. */
  lemma PumpedInArrivalOrder(trace: seq<System>, events: seq<Event>, n: nat)
    requires IsRun(trace, events) && n < |events| && PumpedBy(trace[n], events[n]).Some?
    ensures InArrivalOrder(Waiting(PumpedBy(trace[n], events[n]).value), events[..n + 1])
    ensures var g := PumpedBy(trace[n], events[n]).value;
            forall w :: w in Waiting(g) <==> w in g.waiters && w.id in g.futures && g.futures[w.id] == Pending
  {
    hide Sound, ArrivedAt, ArrivedBefore, GiveBack;
    QueueInArrivalOrder(trace, events, n);
    var s, e, g := trace[n], events[n], PumpedBy(trace[n], events[n]).value;
    assert events[..n + 1] == events[..n] + [e];
    MoreEvents(events[..n], e);
    var order := (v: Waiter, w: Waiter) => ArrivedBefore(events[..n + 1], v, w);
    PumpedQueue(s, e);
    if e.Call? { AppendOrder(s.gate.waiters, Arrival(e), order); }
    WaitingElements(g);
    FilterPairwise(g.waiters, (w: Waiter) => IsPending(g.futures, w.id), order);
    forall i, j | 0 <= i < j < |Waiting(g)| ensures ArrivedBefore(events[..n + 1], Waiting(g)[i], Waiting(g)[j]) {
      assert order(Waiting(g)[i], Waiting(g)[j]);
    }
  }

  lemma PumpedQueue(s: System, e: Event)
    requires PumpedBy(s, e).Some?
    ensures PumpedBy(s, e).value.waiters == if e.Call? then s.gate.waiters + [Arrival(e)] else s.gate.waiters
  {
  }
}
