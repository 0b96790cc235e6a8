/** Calls that have waited their maximum drain: each tick lets at least one through. */
module GateDrain {
  import opened Options
  import opened ConnectGate
  import opened GateLists
  import opened GateRun
  import opened GateTickets
  import opened GateCapacity
  import opened GatePriority

  /** The calls still without an outcome. */
  function Unresolved(g: Gate): set<CallId> {
    set c | c in g.futures && g.futures[c].Pending?
  }

  /** What a pass decides it delivers: the call's future holds that admission. */
  lemma {:induction false} VerdictsDelivered(j: Judging, items: seq<Item>, n: nat, snap: Snapshot)
    requires n <= |items| && j.verdicts == [] && DistinctItems(items) && StillWaiting(j.gate, WaitersOf(items), 0)
    ensures var after := JudgeAll(j, items, n, snap);
            |after.verdicts| == n &&
            forall k | 0 <= k < n && after.verdicts[k].admission.Some? ::
              FutureOf(after.gate, items[k].waiter.id) == Done(after.verdicts[k].admission.value)
              && items[k].waiter.id in after.gate.futures
  {
    hide Judge, Decide, Extends;
    if n > 0 {
      VerdictsDelivered(j, items, n - 1, snap);
      JudgeAllExtends(j, items, n - 1, snap);
      var before, after, item := JudgeAll(j, items, n - 1, snap), JudgeAll(j, items, n, snap), items[n - 1];
      assert WaitersOf(items)[n - 1] == item.waiter;
      JudgeShape(before, item, snap);
      JudgeExtends(before, item, snap);
      JudgeKeepsCalls(before, item, snap);
      var differ := (x: Item, y: Item) => x.waiter.id != y.waiter.id;
      forall k | 0 <= k < n && after.verdicts[k].admission.Some?
        ensures FutureOf(after.gate, items[k].waiter.id) == Done(after.verdicts[k].admission.value)
                && items[k].waiter.id in after.gate.futures
      {
        if k < n - 1 {
          assert differ(items[k], item);
          assert after.verdicts[k] == before.verdicts[k];
        }
      }
    }
  }

  lemma JudgeKeepsCalls(j: Judging, item: Item, snap: Snapshot)
    ensures j.gate.futures.Keys <= Judge(j, item, snap).gate.futures.Keys
    ensures Judge(j, item, snap).gate.futures.Keys <= j.gate.futures.Keys + {item.waiter.id}
  {
    DecideShape(j.gate, item.waiter, item.view, snap, item.waiter.poll && j.commandWaiting, j.capped);
    JudgeGate(j, item, snap);
    hide Judge, Decide;
  }

  lemma {:induction false} UnjudgeResolves(g: Gate, waiting: seq<Waiter>, n: nat, now: int)
    requires n <= |waiting|
    ensures forall k | 0 <= k < n :: !IsPending(Unjudge(g, waiting, n, now).futures, waiting[k].id)
  {
    if n > 0 {
      UnjudgeResolves(g, waiting, n - 1, now);
    }
  }

  /** A pump that holds a call that has waited its maximum gives some waiting call its outcome:
      the pass does, or, failing, sends every one of them on unjudged. */
  lemma PumpProgress(g: Gate, env: Env, open: set<CallId>, w: Waiter)
    requires Coherent(g, open) && w in Waiting(g) && env.snap.now - w.queuedAt >= MAX_WAIT
    ensures exists c :: c in Unresolved(g) && c !in Unresolved(Pump(g, env))
  {
    hide Pass, Coherent, CheckAll, Waiting, Serving, Prepare, Decide;
    var waiting := Waiting(g);
    WaitingElements(g);
    if env.failure.NoFailure? {
      var checked := RunChecks(g, env);
      CheckedSame(g, env);
      assert DistinctIds(waiting) by { CoherentDistinct(g, open); }
      PassResolves(checked, waiting, env, w);
      var c :| c in Unresolved(checked) && c !in Unresolved(Pass(checked, waiting, env).gate);
      assert c in Unresolved(g);
    } else {
      var checked := RunChecks(g, env);
      var judged := if env.failure.InChecks? then checked else Pass(checked, waiting, env).gate;
      UnjudgeResolves(judged, waiting, |waiting|, env.snap.now);
      var k :| 0 <= k < |waiting| && waiting[k] == w;
      assert w.id in Unresolved(g) && w.id !in Unresolved(Pump(g, env));
    }
  }

  lemma CoherentDistinct(g: Gate, open: set<CallId>)
    requires Coherent(g, open)
    ensures DistinctIds(g.waiters)
  {
  }

  lemma CheckedSame(g: Gate, env: Env)
    ensures SameShares(g, RunChecks(g, env))
  {
    var due := Due(g.checks, env.snap.now);
    var n := if env.failure.InChecks? && env.failure.checked < |due| then env.failure.checked else |due|;
    ChecksKeepShares(g.(checks := NotDue(g.checks, env.snap.now)), due, n, env.snap);
  }

  lemma PassResolves(g: Gate, waiting: seq<Waiter>, env: Env, w: Waiter)
    requires env.failure.NoFailure? && w in waiting && env.snap.now - w.queuedAt >= MAX_WAIT
    requires DistinctIds(waiting) && StillWaiting(g, waiting, 0)
    ensures exists c :: c in Unresolved(g) && c !in Unresolved(Pass(g, waiting, env).gate)
  {
    hide Pass, JudgeAll, Decide, Prepare, Serving, Extends, DistinctItems;
    PassProgress(g, waiting, env, w);
    PassIs(g, waiting, env);
    PrepareKeepsShares(g, waiting, env.snap);
    var ready := Prepare(g, waiting, env.snap);
    ServedStillWait(g, ready, waiting, env.snap);
    var items := Ready(g, waiting, env);
    VerdictsDelivered(StartJudging(ready), items, |items|, env.snap);
    VerdictsRecord(StartJudging(ready), items, |items|, env.snap);
    var verdicts := Pass(g, waiting, env).verdicts;
    var v :| v in verdicts && v.admission.Some?;
    var k :| 0 <= k < |verdicts| && verdicts[k] == v;
    var c := items[k].waiter.id;
    assert WaitersOf(items)[k].id == c;
    assert c in Unresolved(g);
    assert c !in Unresolved(Pass(g, waiting, env).gate);
  }

  // ---- over a run ----

  function Ticks(events: seq<Event>, n: nat, m: nat): nat
    requires m <= |events|
  {
    if m <= n then 0 else Ticks(events, n, m - 1) + if events[m - 1].Tick? then 1 else 0
  }

  ghost predicate AllPastCap(s: System) {
    forall w | w in s.gate.waiters :: w.queuedAt + MAX_WAIT <= s.now
  }

  /** Any step without an arrival leaves no more calls unresolved, and a tick fewer. */
  lemma StepDrains(s: System, e: Event)
    requires Sound(s) && Enabled(s, e) && !e.Call? && AllPastCap(s)
    ensures AllPastCap(Next(s, e)) && Unresolved(Next(s, e).gate) <= Unresolved(s.gate)
    ensures e.Tick? && Unresolved(s.gate) != {} ==> Unresolved(Next(s, e).gate) < Unresolved(s.gate)
  {
    StepKeepsSound(s, e);
    if e.Tick? && Unresolved(s.gate) != {} {
      TickDrains(s, e);
    }
    hide NextGate, Coherent;
  }

  lemma TickDrains(s: System, e: Event)
    requires Sound(s) && Enabled(s, e) && e.Tick? && AllPastCap(s) && Unresolved(s.gate) != {}
    ensures exists c :: c in Unresolved(s.gate) && c !in Unresolved(Next(s, e).gate)
  {
    hide Pump, MapSound, SharesCounted, CarriesReal, Waiting;
    var g := s.gate.(ticking := false);
    SameSharesCoherent(s.gate, g, Open(s.phases));
    var c :| c in Unresolved(s.gate);
    assert QueueSound(g, Open(s.phases));
    assert g.futures[c].Pending?;
    var w :| w in g.waiters && w.id == c;
    WaitingElements(g);
    assert w in s.gate.waiters && IsPending(g.futures, w.id);
    PumpProgress(g, e.env, Open(s.phases), w);
  }

  lemma SmallerSet<T>(small: set<T>, big: set<T>)
    requires small <= big
    ensures |small| <= |big|
    ensures small < big ==> |small| < |big|
  {
    var rest := big - small;
    assert big == small + rest;
  }

  /** Once every waiting call has waited its maximum and none arrives, each tick leaves one call
      fewer: after as many ticks as there were calls, every one has its outcome. */
  lemma {:induction false} Drains(trace: seq<System>, events: seq<Event>, n: nat, m: nat)
    requires IsRun(trace, events) && n <= m < |trace|
    requires forall k | n <= k < m :: !events[k].Call?
    requires AllPastCap(trace[n])
    ensures AllPastCap(trace[m])
    ensures Unresolved(trace[m].gate) == {}
            || |Unresolved(trace[m].gate)| + Ticks(events, n, m) <= |Unresolved(trace[n].gate)|
    ensures Ticks(events, n, m) >= |Unresolved(trace[n].gate)| ==> Unresolved(trace[m].gate) == {}
  {
    hide Next, Enabled, Sound, AllPastCap;
    if n < m {
      Drains(trace, events, n, m - 1);
      RunsAreSound(trace, events, m - 1);
      assert StepAt(trace, events, m - 1);
      StepDrains(trace[m - 1], events[m - 1]);
      SmallerSet(Unresolved(trace[m].gate), Unresolved(trace[m - 1].gate));
    }
  }
}
