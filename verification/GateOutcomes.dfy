/** The outcomes a failing pass, or an entry going away, gives the calls still waiting. */
module GateOutcomes {
  import opened Options
  import opened ConnectGate
  import opened GateLists
  import opened GateRun
  import opened GateTickets
  import opened GateCapacity
  import opened GatePriority
  import opened GateDrain

  /** A call a pass sent back, or never got to, has no outcome yet. */
  lemma {:induction false} UndecidedWait(j: Judging, items: seq<Item>, n: nat, snap: Snapshot)
    requires n <= |items| && j.verdicts == [] && DistinctItems(items) && StillWaiting(j.gate, WaitersOf(items), 0)
    ensures var after := JudgeAll(j, items, n, snap);
            |after.verdicts| == n &&
            forall k | 0 <= k < |items| && (k >= n || after.verdicts[k].admission.None?) ::
              IsPending(after.gate.futures, items[k].waiter.id)
  {
    hide Judge, Decide, Extends;
    assert forall k | 0 <= k < |items| :: WaitersOf(items)[k] == items[k].waiter;
    if n > 0 {
      UndecidedWait(j, items, n - 1, snap);
      JudgeAllExtends(j, items, n - 1, snap);
      var before, after, item := JudgeAll(j, items, n - 1, snap), JudgeAll(j, items, n, snap), items[n - 1];
      JudgeShape(before, item, snap);
      JudgeExtends(before, item, snap);
      JudgeKeepsCalls(before, item, snap);
      DecideShape(before.gate, item.waiter, item.view, snap, item.waiter.poll && before.commandWaiting, before.capped);
      KeepsCalls(before, item, snap);
      var differ := (x: Item, y: Item) => x.waiter.id != y.waiter.id;
      forall k | 0 <= k < |items| && (k >= n || after.verdicts[k].admission.None?)
        ensures IsPending(after.gate.futures, items[k].waiter.id)
      {
        if k != n - 1 {
          assert differ(items[k], item);
          assert k < n - 1 ==> after.verdicts[k] == before.verdicts[k];
          assert IsPending(before.gate.futures, items[k].waiter.id);
        }
      }
    }
  }

  lemma KeepsCalls(j: Judging, item: Item, snap: Snapshot)
    ensures forall c | c in j.gate.futures :: c in Judge(j, item, snap).gate.futures
  {
    JudgeKeepsCalls(j, item, snap);
  }

  lemma {:induction false} UnjudgeOutcomes(g: Gate, waiting: seq<Waiter>, n: nat, now: int)
    requires n <= |waiting| && DistinctIds(waiting)
    ensures var g' := Unjudge(g, waiting, n, now);
            && (forall c | c in g.futures && !g.futures[c].Pending? :: FutureOf(g', c) == g.futures[c] && c in g'.futures)
            && (forall k | 0 <= k < |waiting| && IsPending(g.futures, waiting[k].id) ::
                  if k < n then FutureOf(g', waiting[k].id) == Done(Admission(Unjudged, now - waiting[k].queuedAt, None, now, None))
                  else IsPending(g'.futures, waiting[k].id))
  {
    if n > 0 {
      UnjudgeOutcomes(g, waiting, n - 1, now);
      IdsDiffer(waiting);
      hide DistinctIds;
    }
  }

  /** The verdicts a pump's pass reached. */
  function VerdictsOf(g: Gate, env: Env): seq<Verdict> {
    if env.failure.InChecks? then [] else Pass(RunChecks(g, env), Waiting(g), env).verdicts
  }

  ghost predicate Admits(verdicts: seq<Verdict>, w: Waiter, admission: Admission) {
    exists v :: v in verdicts && v == Verdict(w, Some(admission))
  }

  /** A pump that fails, wherever it does: each waiting call its pass admitted keeps that admission,
      and every other goes ahead unjudged, with no ticket. */
  lemma FailedPumpOutcomes(g: Gate, env: Env, open: set<CallId>, w: Waiter)
    requires Coherent(g, open) && w in Waiting(g) && !env.failure.NoFailure?
    ensures FutureOf(Pump(g, env), w.id).Done?
    ensures var a := FutureOf(Pump(g, env), w.id).admission;
            Admits(VerdictsOf(g, env), w, a)
            || ((forall b :: !Admits(VerdictsOf(g, env), w, b))
                && a == Admission(Unjudged, env.snap.now - w.queuedAt, None, env.snap.now, None))
  {
    hide Pass, Coherent, CheckAll, Waiting, RunChecks, Unjudge, Admits;
    var waiting, checked := Waiting(g), RunChecks(g, env);
    WaitingElements(g);
    CoherentDistinct(g, open);
    CheckedSame(g, env);
    var judged := if env.failure.InChecks? then checked else Pass(checked, waiting, env).gate;
    PassOutcomes(checked, waiting, env, w);
    UnjudgeOutcomes(judged, waiting, |waiting|, env.snap.now);
    var k :| 0 <= k < |waiting| && waiting[k] == w;
    if env.failure.InChecks? {
      NoneAdmitted(w);
    }
  }

  lemma NoneAdmitted(w: Waiter)
    ensures forall a :: !Admits([], w, a)
  {
  }

  /** As far as a pass gets, a waiting call either has the admission of its verdict, or none yet. */
  lemma PassOutcomes(g: Gate, waiting: seq<Waiter>, env: Env, w: Waiter)
    requires w in waiting && DistinctIds(waiting) && StillWaiting(g, waiting, 0)
    ensures var p := Pass(g, waiting, env);
            if IsPending(p.gate.futures, w.id) then forall a :: !Admits(p.verdicts, w, a)
            else w.id in p.gate.futures && FutureOf(p.gate, w.id).Done? && Admits(p.verdicts, w, FutureOf(p.gate, w.id).admission)
  {
    hide Pass, JudgeAll, Decide, Prepare, Serving, Extends;
    if env.failure.InRead? {
      NothingRead(g, waiting, env);
      NoneAdmitted(w);
      var k :| 0 <= k < |waiting| && waiting[k] == w;
      return;
    }
    PassIs(g, waiting, env);
    PrepareKeepsShares(g, waiting, env.snap);
    var ready := Prepare(g, waiting, env.snap);
    ServedStillWait(g, ready, waiting, env.snap);
    ServingElements(waiting, ready.avoided, env.snap);
    var items, n := Ready(g, waiting, env), Judged(g, waiting, env);
    var start := StartJudging(ready);
    VerdictsDelivered(start, items, n, env.snap);
    UndecidedWait(start, items, n, env.snap);
    VerdictsRecord(start, items, n, env.snap);
    var item := Item(w, ViewOf(env.snap.paths(w.address), ready.avoided, env.snap));
    assert item in items;
    var i :| 0 <= i < |items| && items[i] == item;
    var p := Pass(g, waiting, env);
    ItemsDiffer(items);
    forall a | Admits(p.verdicts, w, a) ensures i < n && p.verdicts[i].admission == Some(a) {
      var v :| v in p.verdicts && v == Verdict(w, Some(a));
      var k :| 0 <= k < |p.verdicts| && p.verdicts[k] == v;
      assert items[k].waiter.id == items[i].waiter.id;
    }
    if i < n && p.verdicts[i].admission.Some? {
      assert p.verdicts[i] in p.verdicts;
      assert Admits(p.verdicts, w, p.verdicts[i].admission.value);
    }
  }

  lemma ItemsDiffer(items: seq<Item>)
    requires DistinctItems(items)
    ensures forall i, k | 0 <= i < |items| && 0 <= k < |items| && i != k :: items[i].waiter.id != items[k].waiter.id
  {
    var differ := (x: Item, y: Item) => x.waiter.id != y.waiter.id;
    forall i, k | 0 <= i < |items| && 0 <= k < |items| && i != k ensures items[i].waiter.id != items[k].waiter.id {
      assert differ(items[i], items[k]);
    }
  }

  lemma IdsDiffer(waiters: seq<Waiter>)
    requires DistinctIds(waiters)
    ensures forall i, k | 0 <= i < |waiters| && 0 <= k < |waiters| && i != k :: waiters[i].id != waiters[k].id
  {
    var differ := (v: Waiter, w: Waiter) => v.id != w.id;
    forall i, k | 0 <= i < |waiters| && 0 <= k < |waiters| && i != k ensures waiters[i].id != waiters[k].id {
      if i < k { assert differ(waiters[i], waiters[k]); } else { assert differ(waiters[k], waiters[i]); }
    }
  }

  /** On every run a call cancelled while it waits gets no admission and carries no ticket, then or
      later. */
  lemma CancelledForGood(trace: seq<System>, events: seq<Event>, n: nat, m: nat, c: CallId)
    requires IsRun(trace, events) && n < m < |trace| && events[n] == Cancel(c)
    ensures c in trace[m].gate.futures && trace[m].gate.futures[c] == Cancelled && Carried(trace[m].gate, c).None?
  {
    hide Pump, Sound;
    assert StepAt(trace, events, n);
    assert trace[n + 1].gate.futures[c] == Cancelled;
    OneOutcome(trace, events, n + 1, m, c);
  }

  lemma NothingRead(g: Gate, waiting: seq<Waiter>, env: Env)
    requires env.failure.InRead?
    ensures Pass(g, waiting, env).gate == g && Pass(g, waiting, env).verdicts == []
  {
  }

  /** An entry going away: every call to its address without an outcome gets Released, with no ticket;
      every other call's outcome, and its place in the queue, stay. */
  lemma ReleasedOutcomes(g: Gate, a: Address, now: int, w: Waiter)
    requires DistinctIds(g.waiters) && w in g.waiters
    ensures var g' := ReleaseAddress(g, a, now);
            if w.address == a && IsPending(g.futures, w.id)
            then FutureOf(g', w.id) == Done(Admission(Released, now - w.queuedAt, None, now, None)) && w !in g'.waiters
            else FutureOf(g', w.id) == FutureOf(g, w.id) && w in g'.waiters
  {
    hide ReleaseWaiters, Leaving;
    var leaving := Leaving(g, a);
    LeavingElements(g, a);
    IdsDiffer(g.waiters);
    ReleaseSome(g, leaving, |leaving|, now, w);
    var i :| 0 <= i < |g.waiters| && g.waiters[i] == w;
    forall k | 0 <= k < |leaving| && leaving[k].id == w.id ensures leaving[k] == w {
      var j :| 0 <= j < |g.waiters| && g.waiters[j] == leaving[k];
    }
    if w in leaving {
      var k :| 0 <= k < |leaving| && leaving[k] == w;
      assert Named(leaving, |leaving|, w.id);
    }
  }

  ghost predicate Named(leaving: seq<Waiter>, n: nat, c: CallId) {
    exists k :: 0 <= k < n <= |leaving| && leaving[k].id == c
  }

  lemma {:induction false} ReleaseSome(g: Gate, leaving: seq<Waiter>, n: nat, now: int, w: Waiter)
    requires n <= |leaving| && w in g.waiters
    requires forall k | 0 <= k < |leaving| :: leaving[k].id == w.id ==> leaving[k] == w
    ensures var g' := ReleaseWaiters(g, leaving, n, now);
            if Named(leaving, n, w.id)
            then FutureOf(g', w.id) == Done(Admission(Released, now - w.queuedAt, None, now, None)) && w !in g'.waiters
            else FutureOf(g', w.id) == FutureOf(g, w.id) && w in g'.waiters
  {
    if n > 0 {
      ReleaseSome(g, leaving, n - 1, now, w);
      WithoutElements(ReleaseWaiters(g, leaving, n - 1, now).waiters, leaving[n - 1].id);
      assert Named(leaving, n, w.id) <==> Named(leaving, n - 1, w.id) || leaving[n - 1].id == w.id;
    }
  }
}
