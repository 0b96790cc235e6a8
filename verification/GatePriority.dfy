/** What a pass's verdicts promise together: commands come first, a call that waited too long gets
    through one per radio, and a pass that holds such a call lets some call through. */
module GatePriority {
  import opened Options
  import opened ConnectGate
  import opened GateLists
  import opened GateRun
  import opened GateTickets
  import opened GateOrder
  import opened GateCapacity

  function DecisionAt(j: Judging, items: seq<Item>, k: nat, snap: Snapshot): Decision
    requires k < |items|
  {
    var before, w := JudgeAll(j, items, k, snap), items[k].waiter;
    Decide(before.gate, w, items[k].view, snap, w.poll && before.commandWaiting, before.capped)
  }

  /** The verdicts record each call's decision, made as the loop stood when its turn came. */
  lemma {:induction false} VerdictsRecord(j: Judging, items: seq<Item>, n: nat, snap: Snapshot)
    requires n <= |items| && j.verdicts == []
    ensures var verdicts := JudgeAll(j, items, n, snap).verdicts;
            && |verdicts| == n
            && (forall k | 0 <= k < n ::
                  verdicts[k] == Verdict(items[k].waiter, DecisionAt(j, items, k, snap).admission))
            && (forall k | 0 <= k <= n :: JudgeAll(j, items, k, snap).verdicts == verdicts[..k])
  {
    hide Judge, DecisionAt;
    if n > 0 {
      VerdictsRecord(j, items, n - 1, snap);
      AddsVerdict(j, items, n - 1, snap);
    }
  }

  lemma AddsVerdict(j: Judging, items: seq<Item>, k: nat, snap: Snapshot)
    requires k < |items|
    ensures JudgeAll(j, items, k + 1, snap).verdicts
         == JudgeAll(j, items, k, snap).verdicts + [Verdict(items[k].waiter, DecisionAt(j, items, k, snap).admission)]
  {
    hide Decide, Resolve;
  }

  /** A command waits exactly if one did at the start or one judged so far was sent back. */
  lemma {:induction false} CommandWaits(j: Judging, items: seq<Item>, n: nat, snap: Snapshot)
    requires n <= |items| && j.verdicts == []
    ensures JudgeAll(j, items, n, snap).commandWaiting <==>
            j.commandWaiting
            || exists v :: v in JudgeAll(j, items, n, snap).verdicts && !v.waiter.poll && v.admission.None?
  {
    hide Judge, Decide;
    if n > 0 {
      CommandWaits(j, items, n - 1, snap);
      JudgeShape(JudgeAll(j, items, n - 1, snap), items[n - 1], snap);
    }
  }

  function Ready(g: Gate, waiting: seq<Waiter>, env: Env): seq<Item> {
    Serving(waiting, Prepare(g, waiting, env.snap).avoided, env.snap)
  }

  /** How far a pass judges. */
  function Judged(g: Gate, waiting: seq<Waiter>, env: Env): nat {
    if env.failure.InRead? || env.failure.InViews? then 0
    else
      var items := Ready(g, waiting, env);
      if env.failure.AfterJudging? && env.failure.judged < |items| then env.failure.judged else |items|
  }

  lemma PassIs(g: Gate, waiting: seq<Waiter>, env: Env)
    requires !env.failure.InRead?
    ensures Judged(g, waiting, env) <= |Ready(g, waiting, env)|
    ensures Pass(g, waiting, env)
         == JudgeAll(StartJudging(Prepare(g, waiting, env.snap)), Ready(g, waiting, env), Judged(g, waiting, env), env.snap)
  {
    hide Prepare, Serving;
  }

  /** A poll is admitted only if no turn-off is deferred and every command waiting at the pass's
      start was resolved in that pass, before it. */
  lemma CommandsFirst(g: Gate, waiting: seq<Waiter>, env: Env, k: nat)
    requires k < |Pass(g, waiting, env).verdicts|
    requires var v := Pass(g, waiting, env).verdicts[k];
             v.waiter.poll && v.admission.Some? && v.admission.value.outcome == Admitted
    ensures g.deferredOffs <= 0
    ensures forall w | w in waiting && !w.poll ::
              exists i | 0 <= i < k ::
                Pass(g, waiting, env).verdicts[i].waiter == w && Pass(g, waiting, env).verdicts[i].admission.Some?
  {
    hide Pass, JudgeAll, Decide, Prepare, Serving;
    if env.failure.InRead? { NoVerdicts(g, waiting, env); return; }
    PassIs(g, waiting, env);
    var start, items, n := StartJudging(Prepare(g, waiting, env.snap)), Ready(g, waiting, env), Judged(g, waiting, env);
    PrepareKeepsDeferred(g, waiting, env.snap);
    VerdictsRecord(start, items, n, env.snap);
    CommandWaits(start, items, k, env.snap);
    var verdicts := Pass(g, waiting, env).verdicts;
    var before := JudgeAll(start, items, k, env.snap);
    DecideGives(before.gate, items[k].waiter, items[k].view, env.snap, items[k].waiter.poll && before.commandWaiting, before.capped);
    AdmittedHasTicket(before.gate, items[k].waiter, items[k].view, env.snap, items[k].waiter.poll && before.commandWaiting, before.capped);
    assert !before.commandWaiting;
    ServingElements(waiting, Prepare(g, waiting, env.snap).avoided, env.snap);
    forall w | w in waiting && !w.poll
      ensures exists i | 0 <= i < k :: verdicts[i].waiter == w && verdicts[i].admission.Some?
    {
      var item := Item(w, ViewOf(env.snap.paths(w.address), Prepare(g, waiting, env.snap).avoided, env.snap));
      assert item in items;
      var i :| 0 <= i < |items| && items[i] == item;
      if i > k {
        ServingOrder(waiting, Prepare(g, waiting, env.snap).avoided, env.snap, k, i);
      }
      assert i < k;
      assert verdicts[i] in before.verdicts by { assert before.verdicts[i] == verdicts[i]; }
    }
  }

  lemma NoVerdicts(g: Gate, waiting: seq<Waiter>, env: Env)
    requires env.failure.InRead?
    ensures Pass(g, waiting, env).verdicts == []
  {
  }

  lemma PrepareKeepsDeferred(g: Gate, waiting: seq<Waiter>, snap: Snapshot)
    ensures Prepare(g, waiting, snap).deferredOffs == g.deferredOffs
  {
  }

  lemma AdmittedHasTicket(g: Gate, w: Waiter, view: View, snap: Snapshot, behind: bool, capped: set<Source>)
    ensures var a := Decide(g, w, view, snap, behind, capped).admission;
            a.Some? && a.value.outcome in {Admitted, Capped} ==> a.value.ticket.Some?
  {
  }

  /** A radio gets at most one capped call in a pass, and none after a call was admitted to it. */
  lemma OneCapPerRadio(g: Gate, waiting: seq<Waiter>, env: Env, i: nat, k: nat, source: Source)
    requires MapSound(g)
    requires i < k < |Pass(g, waiting, env).verdicts|
    requires var v := Pass(g, waiting, env).verdicts[i]; Gives(v, Admitted, source) || Gives(v, Capped, source)
    ensures !Gives(Pass(g, waiting, env).verdicts[k], Capped, source)
  {
    hide Pass, JudgeAll, Decide, Prepare, Serving, WithinLimits;
    if env.failure.InRead? { NoVerdicts(g, waiting, env); return; }
    PassIs(g, waiting, env);
    var start, items, n := StartJudging(Prepare(g, waiting, env.snap)), Ready(g, waiting, env), Judged(g, waiting, env);
    VerdictsRecord(start, items, n, env.snap);
    PrepareKeepsMap(g, waiting, env.snap);
    JudgeAllKeepsRoom(start, items, k, env.snap);
    var before := JudgeAll(start, items, k, env.snap);
    assert before.verdicts[i] in before.verdicts;
    assert before.verdicts[i] == Pass(g, waiting, env).verdicts[i];
    DecideGives(before.gate, items[k].waiter, items[k].view, env.snap, items[k].waiter.poll && before.commandWaiting, before.capped);
    AdmittedHasTicket(before.gate, items[k].waiter, items[k].view, env.snap, items[k].waiter.poll && before.commandWaiting, before.capped);
  }

  lemma PrepareKeepsMap(g: Gate, waiting: seq<Waiter>, snap: Snapshot)
    requires MapSound(g)
    ensures MapSound(Prepare(g, waiting, snap))
  {
    PrepareKeepsShares(g, waiting, snap);
    hide Prepare;
  }

  // ---- progress ----

  lemma {:induction false} CappedNeedsGiven(j: Judging, items: seq<Item>, n: nat, snap: Snapshot)
    requires n <= |items| && j.capped == {} && j.verdicts == []
    requires JudgeAll(j, items, n, snap).capped != {}
    ensures exists v :: v in JudgeAll(j, items, n, snap).verdicts && v.admission.Some?
  {
    hide Judge, Decide;
    if n > 0 {
      var before := JudgeAll(j, items, n - 1, snap);
      JudgeShape(before, items[n - 1], snap);
      DecideGives(before.gate, items[n - 1].waiter, items[n - 1].view, snap,
                  items[n - 1].waiter.poll && before.commandWaiting, before.capped);
      if before.capped != {} {
        CappedNeedsGiven(j, items, n - 1, snap);
        var v :| v in before.verdicts && v.admission.Some?;
        assert v in JudgeAll(j, items, n, snap).verdicts;
      } else {
        var after := JudgeAll(j, items, n, snap);
        assert after.verdicts[|after.verdicts| - 1] in after.verdicts;
      }
    }
  }

  /** A call that waited its maximum is sent back only if its radio was just given a connect. */
  lemma SentBackPastCap(g: Gate, w: Waiter, view: View, snap: Snapshot, behind: bool, capped: set<Source>)
    requires Decide(g, w, view, snap, behind, capped).admission.None? && snap.now - w.queuedAt >= MAX_WAIT
    ensures capped != {}
  {
  }

  /** A whole pass holding a call that has waited the maximum lets at least one call through. */
  lemma PassProgress(g: Gate, waiting: seq<Waiter>, env: Env, w: Waiter)
    requires env.failure.NoFailure? && w in waiting && env.snap.now - w.queuedAt >= MAX_WAIT
    ensures exists v :: v in Pass(g, waiting, env).verdicts && v.admission.Some?
  {
    hide Pass, JudgeAll, Decide, Prepare, Serving;
    PassIs(g, waiting, env);
    var avoided := Prepare(g, waiting, env.snap).avoided;
    var start, items := StartJudging(Prepare(g, waiting, env.snap)), Ready(g, waiting, env);
    VerdictsRecord(start, items, |items|, env.snap);
    ServingElements(waiting, avoided, env.snap);
    var item := Item(w, ViewOf(env.snap.paths(w.address), avoided, env.snap));
    assert item in items;
    var k :| 0 <= k < |items| && items[k] == item;
    var verdicts := Pass(g, waiting, env).verdicts;
    assert verdicts[k] in verdicts;
    if verdicts[k].admission.None? {
      var before := JudgeAll(start, items, k, env.snap);
      SentBackPastCap(before.gate, w, item.view, env.snap, w.poll && before.commandWaiting, before.capped);
      CappedNeedsGiven(start, items, k, env.snap);
      var v :| v in before.verdicts && v.admission.Some?;
      assert v in verdicts;
    }
  }
}
