/** Ticket conservation, and one outcome for each call, over every run of the gate. */
module GateTickets {
  import opened Options
  import opened StableSort
  import opened ConnectGate
  import opened GateLists
  import opened GateRun

  /** The ticket a call's admission carries. */
  function Carried(g: Gate, c: CallId): Option<TicketId> {
    if c in g.futures && g.futures[c].Done? then g.futures[c].admission.ticket else None
  }

  /** The calls of `open` (not given back yet) whose admission carries the ticket. */
  function Holders(g: Gate, open: set<CallId>, id: TicketId): set<CallId> {
    set c | c in open && Carried(g, c) == Some(id)
  }

  /** The map names real tickets, each of the device it is kept for. */
  ghost predicate MapSound(g: Gate) {
    forall a | a in g.tickets :: g.tickets[a] < |g.objects| && g.objects[g.tickets[a]].address == a
  }

  /** Every ticket ever issued counts exactly the calls holding it, and is in the map exactly while
      one does. */
  ghost predicate SharesCounted(g: Gate, open: set<CallId>) {
    forall id | 0 <= id < |g.objects| ::
      && g.objects[id].holders == |Holders(g, open, id)|
      && (g.objects[id].holders > 0 <==> g.Live(id))
  }

  ghost predicate CarriesReal(g: Gate, open: set<CallId>) {
    forall c | c in open && Carried(g, c).Some? :: Carried(g, c).value < |g.objects|
  }

  /** The queue holds the calls without an outcome, each once; one whose task was cancelled stays
      until its coroutine resumes. */
  ghost predicate QueueSound(g: Gate, open: set<CallId>) {
    && DistinctIds(g.waiters)
    && (forall w | w in g.waiters :: w.id in open && w.id in g.futures && !g.futures[w.id].Done?)
    && (forall c | c in g.futures && g.futures[c].Pending? :: exists w :: w in g.waiters && w.id == c)
    && open <= g.futures.Keys
  }

  ghost predicate Coherent(g: Gate, open: set<CallId>) {
    MapSound(g) && SharesCounted(g, open) && CarriesReal(g, open) && QueueSound(g, open)
  }

  /** No call joins the queue; an outcome, once there, stays; a ticket, once issued, stays its
      device's. */
  ghost predicate Extends(g: Gate, g': Gate) {
    && (forall w | w in g'.waiters :: w in g.waiters)
    && g'.futures.Keys == g.futures.Keys
    && (forall c | c in g.futures && !g.futures[c].Pending? :: g'.futures[c] == g.futures[c])
    && |g.objects| <= |g'.objects|
    && (forall id | 0 <= id < |g.objects| :: g'.objects[id].address == g.objects[id].address)
  }

  // ---- steps that leave every share alone ----

  ghost predicate SameShares(g: Gate, g': Gate) {
    && g'.waiters == g.waiters && g'.futures == g.futures && g'.tickets == g.tickets
    && |g'.objects| == |g.objects|
    && (forall id | 0 <= id < |g.objects| ::
          g'.objects[id].address == g.objects[id].address && g'.objects[id].holders == g.objects[id].holders)
  }

  lemma SameSharesCoherent(g: Gate, g': Gate, open: set<CallId>)
    requires Coherent(g, open) && SameShares(g, g')
    ensures Coherent(g', open) && Extends(g, g')
  {
    forall id | 0 <= id < |g'.objects|
      ensures g'.objects[id].holders == |Holders(g', open, id)| && (g'.objects[id].holders > 0 <==> g'.Live(id))
    {
      assert Holders(g', open, id) == Holders(g, open, id);
      assert g'.Live(id) == g.Live(id);
    }
    forall c | c in open && Carried(g', c).Some? ensures Carried(g', c).value < |g'.objects| {
      assert Carried(g', c) == Carried(g, c);
    }
  }

  lemma PrepareKeepsShares(g: Gate, waiting: seq<Waiter>, snap: Snapshot)
    ensures SameShares(g, Prepare(g, waiting, snap))
  {
  }

  lemma {:induction false} ChecksKeepShares(g: Gate, due: seq<(int, TicketId)>, n: nat, snap: Snapshot)
    requires n <= |due|
    ensures SameShares(g, CheckAll(g, due, n, snap))
  {
    if n > 0 {
      ChecksKeepShares(g, due, n - 1, snap);
    }
  }

  // ---- a call gets its outcome ----

  /** An outcome adds its call to the holders of the ticket it carries, and to no other's. */
  lemma OutcomeAddsHolder(g: Gate, g': Gate, open: set<CallId>, c: CallId, admission: Admission)
    requires c in open && Carried(g, c) == None
    requires g'.futures == g.futures[c := Done(admission)]
    ensures forall id: TicketId :: |Holders(g', open, id)| == |Holders(g, open, id)| + if admission.ticket == Some(id) then 1 else 0
    ensures forall d | d != c :: Carried(g', d) == Carried(g, d)
    ensures Carried(g', c) == admission.ticket
  {
    forall id: TicketId ensures |Holders(g', open, id)| == |Holders(g, open, id)| + if admission.ticket == Some(id) then 1 else 0 {
      if admission.ticket == Some(id) {
        assert Holders(g', open, id) == Holders(g, open, id) + {c};
      } else {
        assert Holders(g', open, id) == Holders(g, open, id);
      }
    }
  }

  ghost predicate InQueue(g: Gate, c: CallId) {
    exists w :: w in g.waiters && w.id == c
  }

  lemma ResolveKeepsQueue(g: Gate, open: set<CallId>, c: CallId, admission: Admission)
    requires QueueSound(g, open) && InQueue(g, c)
    ensures QueueSound(Resolve(g, c, admission), open)
  {
    WithoutElements(g.waiters, c);
  }

  /** A call leaves with no ticket. */
  lemma ResolveTicketless(g: Gate, open: set<CallId>, c: CallId, admission: Admission)
    requires Coherent(g, open) && InQueue(g, c) && admission.ticket.None?
    ensures Coherent(Resolve(g, c, admission), open)
  {
    var g' := Resolve(g, c, admission);
    ResolveKeepsQueue(g, open, c, admission);
    OutcomeAddsHolder(g, g', open, c, admission);
    forall id | 0 <= id < |g'.objects| ensures g'.Live(id) == g.Live(id) {}
  }

  /** A call joins its device's ticket: one holder more. */
  lemma JoinKeeps(g: Gate, open: set<CallId>, w: Waiter, now: int)
    requires Coherent(g, open) && w in g.waiters && w.address in g.tickets
    ensures Coherent(Resolve(Join(g, w, now).0, w.id, Join(g, w, now).1), open)
  {
    var (g1, admission) := Join(g, w, now);
    var g' := Resolve(g1, w.id, admission);
    ResolveKeepsQueue(g1, open, w.id, admission);
    OutcomeAddsHolder(g, g', open, w.id, admission);
    forall id | 0 <= id < |g'.objects|
      ensures g'.objects[id].holders == |Holders(g', open, id)| && (g'.objects[id].holders > 0 <==> g'.Live(id))
    {
      assert g'.Live(id) == g.Live(id);
    }
  }

  /** A call gets a ticket of its own: its device had none, so none is overwritten. */
  lemma AdmitKeeps(g: Gate, open: set<CallId>, w: Waiter, outcome: Outcome, scanner: Scanner, now: int)
    requires Coherent(g, open) && w in g.waiters && w.address !in g.tickets
    ensures Coherent(Resolve(Admit(g, w, outcome, scanner, now).0, w.id, Admit(g, w, outcome, scanner, now).1), open)
  {
    var (g1, admission) := Admit(g, w, outcome, scanner, now);
    var g' := Resolve(g1, w.id, admission);
    var new_ := |g.objects|;
    ResolveKeepsQueue(g1, open, w.id, admission);
    OutcomeAddsHolder(g, g', open, w.id, admission);
    assert Holders(g, open, new_) == {};
    forall id | 0 <= id < |g'.objects|
      ensures g'.objects[id].holders == |Holders(g', open, id)| && (g'.objects[id].holders > 0 <==> g'.Live(id))
    {
      if id < new_ {
        assert g'.Live(id) == g.Live(id);
      }
    }
  }

  /** Either the gate is as it was, or the call joined its device's ticket, or its device had none
      and it got one. */
  lemma DecideShape(g: Gate, w: Waiter, view: View, snap: Snapshot, behind: bool, capped: set<Source>)
    ensures var d := Decide(g, w, view, snap, behind, capped);
            match d.admission
            case None => d.gate == g
            case Some(a) =>
              if a.ticket.None? then d.gate == g
              else if a.outcome == Joined then w.address in g.tickets && Join(g, w, snap.now) == (d.gate, a)
              else w.address !in g.tickets && a.radio.Some?
                   && Admit(g, w, a.outcome, a.radio.value, snap.now) == (d.gate, a)
  {
  }

  lemma JudgeKeeps(j: Judging, item: Item, snap: Snapshot, open: set<CallId>)
    requires Coherent(j.gate, open) && item.waiter in j.gate.waiters
    ensures Coherent(Judge(j, item, snap).gate, open)
  {
    hide Judge, Decide, Resolve, Join, Admit, Coherent;
    var g, w := j.gate, item.waiter;
    var behind := w.poll && j.commandWaiting;
    DecideShape(g, w, item.view, snap, behind, j.capped);
    JudgeGate(j, item, snap);
    match Decide(g, w, item.view, snap, behind, j.capped).admission
    case None =>
    case Some(a) =>
      if a.ticket.None? {
        ResolveTicketless(g, open, w.id, a);
      } else if a.outcome == Joined {
        JoinKeeps(g, open, w, snap.now);
      } else {
        AdmitKeeps(g, open, w, a.outcome, a.radio.value, snap.now);
      }
  }

  /** A judged call is the only one whose place or outcome may change. */
  lemma JudgeExtends(j: Judging, item: Item, snap: Snapshot)
    requires IsPending(j.gate.futures, item.waiter.id)
    ensures Extends(j.gate, Judge(j, item, snap).gate)
    ensures forall v | v in j.gate.waiters && v.id != item.waiter.id :: v in Judge(j, item, snap).gate.waiters
    ensures forall c | c != item.waiter.id :: FutureOf(Judge(j, item, snap).gate, c) == FutureOf(j.gate, c)
  {
    hide Judge, Decide;
    var g, w := j.gate, item.waiter;
    DecideShape(g, w, item.view, snap, w.poll && j.commandWaiting, j.capped);
    JudgeGate(j, item, snap);
    WithoutElements(g.waiters, w.id);
  }

  lemma JudgeGate(j: Judging, item: Item, snap: Snapshot)
    ensures var d := Decide(j.gate, item.waiter, item.view, snap, item.waiter.poll && j.commandWaiting, j.capped);
            Judge(j, item, snap).gate == match d.admission
              case None => d.gate
              case Some(a) => Resolve(d.gate, item.waiter.id, a)
  {
  }

  /** The calls from index `n` on still wait. */
  ghost predicate StillWaiting(g: Gate, waiters: seq<Waiter>, n: nat) {
    forall k | n <= k < |waiters| :: waiters[k] in g.waiters && IsPending(g.futures, waiters[k].id)
  }

  function WaitersOf(items: seq<Item>): seq<Waiter> {
    seq(|items|, i requires 0 <= i < |items| => items[i].waiter)
  }

  lemma ExtendsTransitive(g: Gate, g': Gate, g'': Gate)
    requires Extends(g, g') && Extends(g', g'')
    ensures Extends(g, g'')
  {
  }

  lemma {:induction false} JudgeAllExtends(j: Judging, items: seq<Item>, n: nat, snap: Snapshot)
    requires n <= |items| && DistinctItems(items) && StillWaiting(j.gate, WaitersOf(items), 0)
    ensures Extends(j.gate, JudgeAll(j, items, n, snap).gate)
    ensures StillWaiting(JudgeAll(j, items, n, snap).gate, WaitersOf(items), n)
  {
    hide Judge;
    if n > 0 {
      JudgeAllExtends(j, items, n - 1, snap);
      var before, after := JudgeAll(j, items, n - 1, snap), JudgeAll(j, items, n, snap);
      assert WaitersOf(items)[n - 1] == items[n - 1].waiter;
      JudgeExtends(before, items[n - 1], snap);
      ExtendsTransitive(j.gate, before.gate, after.gate);
      var differ := (x: Item, y: Item) => x.waiter.id != y.waiter.id;
      forall k | n <= k < |items|
        ensures WaitersOf(items)[k] in after.gate.waiters && IsPending(after.gate.futures, WaitersOf(items)[k].id)
      {
        assert differ(items[k], items[n - 1]);
        var v := WaitersOf(items)[k];
        assert v in before.gate.waiters && IsPending(before.gate.futures, v.id);
        assert FutureOf(after.gate, v.id) == FutureOf(before.gate, v.id);
      }
    }
  }

  lemma {:induction false} JudgeAllKeeps(j: Judging, items: seq<Item>, n: nat, snap: Snapshot, open: set<CallId>)
    requires n <= |items| && Coherent(j.gate, open)
    requires DistinctItems(items) && StillWaiting(j.gate, WaitersOf(items), 0)
    ensures Coherent(JudgeAll(j, items, n, snap).gate, open)
  {
    hide Judge, Coherent, DistinctItems, Extends, IsPending;
    if n > 0 {
      JudgeAllKeeps(j, items, n - 1, snap, open);
      JudgeAllExtends(j, items, n - 1, snap);
      assert WaitersOf(items)[n - 1] == items[n - 1].waiter;
      JudgeKeeps(JudgeAll(j, items, n - 1, snap), items[n - 1], snap, open);
    }
  }

  lemma {:induction false} UnjudgeExtends(g: Gate, waiting: seq<Waiter>, n: nat, now: int)
    requires n <= |waiting|
    ensures Extends(g, Unjudge(g, waiting, n, now))
  {
    if n > 0 {
      UnjudgeExtends(g, waiting, n - 1, now);
      WithoutElements(Unjudge(g, waiting, n - 1, now).waiters, waiting[n - 1].id);
    }
  }

  lemma {:induction false} UnjudgeKeeps(g: Gate, waiting: seq<Waiter>, n: nat, now: int, open: set<CallId>)
    requires n <= |waiting| && Coherent(g, open)
    ensures Coherent(Unjudge(g, waiting, n, now), open)
  {
    hide MapSound, SharesCounted, CarriesReal, Resolve;
    if n > 0 {
      UnjudgeKeeps(g, waiting, n - 1, now, open);
      var g', w := Unjudge(g, waiting, n - 1, now), waiting[n - 1];
      if IsPending(g'.futures, w.id) {
        ResolveTicketless(g', open, w.id, Admission(Unjudged, now - w.queuedAt, None, now, None));
      }
    }
  }

  // ---- pumping ----

  lemma PassKeeps(g: Gate, waiting: seq<Waiter>, env: Env, open: set<CallId>)
    requires Coherent(g, open) && DistinctIds(waiting) && StillWaiting(g, waiting, 0)
    ensures Coherent(Pass(g, waiting, env).gate, open) && Extends(g, Pass(g, waiting, env).gate)
  {
    hide Prepare, Serving, Coherent, JudgeAll, StillWaiting, DistinctItems, DistinctIds;
    if !env.failure.InRead? {
      var ready := Prepare(g, waiting, env.snap);
      PrepareKeepsShares(g, waiting, env.snap);
      SameSharesCoherent(g, ready, open);
      if !env.failure.InViews? {
        var items := Serving(waiting, ready.avoided, env.snap);
        ServedStillWait(g, ready, waiting, env.snap);
        var n := if env.failure.AfterJudging? && env.failure.judged < |items| then env.failure.judged else |items|;
        JudgeAllKeeps(StartJudging(ready), items, n, env.snap, open);
        JudgeAllExtends(StartJudging(ready), items, n, env.snap);
      }
    }
  }

  lemma ServedStillWait(g: Gate, ready: Gate, waiting: seq<Waiter>, snap: Snapshot)
    requires SameShares(g, ready) && DistinctIds(waiting) && StillWaiting(g, waiting, 0)
    ensures DistinctItems(Serving(waiting, ready.avoided, snap))
    ensures StillWaiting(ready, WaitersOf(Serving(waiting, ready.avoided, snap)), 0)
  {
    ServingElements(waiting, ready.avoided, snap);
    var items := Serving(waiting, ready.avoided, snap);
    hide Serving;
    forall k | 0 <= k < |items|
      ensures WaitersOf(items)[k] in ready.waiters && IsPending(ready.futures, WaitersOf(items)[k].id)
    {
      assert items[k] in items;
      var i :| 0 <= i < |waiting| && waiting[i] == items[k].waiter;
    }
  }

  lemma PumpKeeps(g: Gate, env: Env, open: set<CallId>)
    requires Coherent(g, open)
    ensures Coherent(Pump(g, env), open) && Extends(g, Pump(g, env))
    ensures Pump(g, env).ticking <==> Pump(g, env).waiters != []
  {
    hide MapSound, SharesCounted, CarriesReal, Pass, CheckAll, Unjudge, Waiting;
    var waiting := Waiting(g);
    WaitingElements(g);
    if waiting == [] {
      SameSharesCoherent(g, Schedule(g), open);
    } else {
      var due := Due(g.checks, env.snap.now);
      var n := if env.failure.InChecks? && env.failure.checked < |due| then env.failure.checked else |due|;
      ChecksKeepShares(g.(checks := NotDue(g.checks, env.snap.now)), due, n, env.snap);
      var checked := RunChecks(g, env);
      SameSharesCoherent(g, checked, open);
      PassKeeps(checked, waiting, env, open);
      var judged := if env.failure.InChecks? then checked else Pass(checked, waiting, env).gate;
      UnjudgeKeeps(judged, waiting, |waiting|, env.snap.now, open);
      UnjudgeExtends(judged, waiting, |waiting|, env.snap.now);
      var g' := if env.failure.NoFailure? then judged else Unjudge(judged, waiting, |waiting|, env.snap.now);
      SameSharesCoherent(g', Schedule(g'), open);
    }
  }

  // ---- the other steps ----

  lemma QueuedKeeps(g: Gate, w: Waiter, open: set<CallId>)
    requires Coherent(g, open) && w.id !in open && w.id !in g.futures
    ensures Coherent(g.(waiters := g.waiters + [w], futures := g.futures[w.id := Pending]), open + {w.id})
  {
    var g' := g.(waiters := g.waiters + [w], futures := g.futures[w.id := Pending]);
    forall id | 0 <= id < |g'.objects|
      ensures g'.objects[id].holders == |Holders(g', open + {w.id}, id)| && (g'.objects[id].holders > 0 <==> g'.Live(id))
    {
      assert Holders(g', open + {w.id}, id) == Holders(g, open, id);
      assert g'.Live(id) == g.Live(id);
    }
    forall c | c in open + {w.id} && Carried(g', c).Some? ensures Carried(g', c).value < |g'.objects| {
      assert Carried(g', c) == Carried(g, c);
    }
    forall c | c in g'.futures && g'.futures[c].Pending? ensures InQueue(g', c) {
      if c == w.id { assert w in g'.waiters; } else {
        var v :| v in g.waiters && v.id == c;
        assert v in g'.waiters;
      }
    }
  }

  lemma EnqueueKeeps(g: Gate, w: Waiter, env: Env, open: set<CallId>)
    requires Coherent(g, open) && w.id !in open && w.id !in g.futures
    ensures Coherent(Enqueue(g, w, env), open + {w.id})
    ensures Extends(g.(waiters := g.waiters + [w], futures := g.futures[w.id := Pending]), Enqueue(g, w, env))
    ensures Enqueue(g, w, env).ticking <==> Enqueue(g, w, env).waiters != []
  {
    hide Pump, Coherent;
    QueuedKeeps(g, w, open);
    PumpKeeps(g.(waiters := g.waiters + [w], futures := g.futures[w.id := Pending]), env, open + {w.id});
  }

  /** A call that has its outcome leaves `open`: its ticket has one holder less. */
  lemma DropHolder(g: Gate, open: set<CallId>, c: CallId, id: TicketId)
    requires c in open
    ensures |Holders(g, open - {c}, id)| == |Holders(g, open, id)| - if Carried(g, c) == Some(id) then 1 else 0
  {
    if Carried(g, c) == Some(id) {
      assert Holders(g, open, id) == Holders(g, open - {c}, id) + {c};
    } else {
      assert Holders(g, open, id) == Holders(g, open - {c}, id);
    }
  }

  lemma ReleaseKeeps(g: Gate, c: CallId, check: bool, env: Env, open: set<CallId>)
    requires Coherent(g, open) && c in open && FutureOf(g, c).Done?
    requires g.ticking <==> g.waiters != []
    ensures var g' := Release(g, FutureOf(g, c).admission, check, env);
            Coherent(g', open - {c}) && Extends(g, g') && (g'.ticking <==> g'.waiters != [])
  {
    hide Pump, SharesCounted, QueueSound;
    if Carried(g, c) == None {
      NothingGivenBack(g, open, c);
    } else {
      var id := Carried(g, c).value;
      var g' := GiveBack(g, id, check, env.snap.now);
      ShareGivenBack(g, g', open, c, id);
      PumpKeeps(g', env, open - {c});
    }
  }

  lemma NothingGivenBack(g: Gate, open: set<CallId>, c: CallId)
    requires Coherent(g, open) && c in open && Carried(g, c) == None && FutureOf(g, c).Done?
    ensures Coherent(g, open - {c})
  {
    forall id | 0 <= id < |g.objects| ensures Holders(g, open - {c}, id) == Holders(g, open, id) {}
  }

  /** The ticket has one holder less; it leaves the map with its last. */
  lemma ShareGivenBack(g: Gate, g': Gate, open: set<CallId>, c: CallId, id: TicketId)
    requires Coherent(g, open) && c in open && Carried(g, c) == Some(id) && id < |g.objects|
    requires g'.objects == g.objects[id := g.objects[id].(holders := g.objects[id].holders - 1)]
    requires g'.tickets == if g.objects[id].holders == 1 then g.tickets - {g.objects[id].address} else g.tickets
    requires g'.futures == g.futures && g'.waiters == g.waiters
    ensures Coherent(g', open - {c}) && Extends(g, g')
  {
    forall i | 0 <= i < |g'.objects|
      ensures g'.objects[i].holders == |Holders(g', open - {c}, i)| && (g'.objects[i].holders > 0 <==> g'.Live(i))
    {
      DropHolder(g, open, c, i);
      assert Holders(g', open - {c}, i) == Holders(g, open - {c}, i);
      assert g.Live(i) <==> g.objects[i].holders > 0;
    }
    forall d | d in open - {c} && Carried(g', d).Some? ensures Carried(g', d).value < |g'.objects| {
      assert Carried(g', d) == Carried(g, d);
    }
    assert c in Holders(g, open, id);
  }

  lemma {:induction false} ReleaseWaitersExtends(g: Gate, leaving: seq<Waiter>, n: nat, now: int)
    requires n <= |leaving| && DistinctIds(leaving) && StillWaiting(g, leaving, 0)
    ensures Extends(g, ReleaseWaiters(g, leaving, n, now))
    ensures StillWaiting(ReleaseWaiters(g, leaving, n, now), leaving, n)
  {
    if n > 0 {
      ReleaseWaitersExtends(g, leaving, n - 1, now);
      var w := leaving[n - 1];
      var before, after := ReleaseWaiters(g, leaving, n - 1, now), ReleaseWaiters(g, leaving, n, now);
      WithoutElements(before.waiters, w.id);
      ExtendsTransitive(g, before, after);
      var differ := (v: Waiter, u: Waiter) => v.id != u.id;
      forall k | n <= k < |leaving|
        ensures leaving[k] in after.waiters && IsPending(after.futures, leaving[k].id)
      {
        assert differ(leaving[n - 1], leaving[k]);
        assert leaving[k] in before.waiters;
      }
    }
  }

  lemma {:induction false} ReleaseWaitersKeeps(g: Gate, leaving: seq<Waiter>, n: nat, now: int, open: set<CallId>)
    requires n <= |leaving| && Coherent(g, open) && DistinctIds(leaving) && StillWaiting(g, leaving, 0)
    ensures Coherent(ReleaseWaiters(g, leaving, n, now), open)
  {
    hide Coherent, Resolve, Extends, DistinctIds, IsPending;
    if n > 0 {
      ReleaseWaitersKeeps(g, leaving, n - 1, now, open);
      ReleaseWaitersExtends(g, leaving, n - 1, now);
      var before, w := ReleaseWaiters(g, leaving, n - 1, now), leaving[n - 1];
      assert w in before.waiters;
      ResolveTicketless(before, open, w.id, Admission(Released, now - w.queuedAt, None, now, None));
    }
  }

  /** A cancelled call's task resumes: it leaves the queue, and `open`. */
  lemma LeaveKeeps(g: Gate, c: CallId, open: set<CallId>)
    requires Coherent(g, open) && FutureOf(g, c) == Cancelled && c in open
    requires g.ticking <==> g.waiters != []
    ensures Coherent(Leave(g, c), open - {c}) && Extends(g, Leave(g, c))
    ensures Leave(g, c).ticking <==> Leave(g, c).waiters != []
  {
    WithoutElements(g.waiters, c);
    var g' := Leave(g, c);
    forall id | 0 <= id < |g'.objects|
      ensures g'.objects[id].holders == |Holders(g', open - {c}, id)| && (g'.objects[id].holders > 0 <==> g'.Live(id))
    {
      DropHolder(g, open, c, id);
      assert Holders(g', open - {c}, id) == Holders(g, open - {c}, id);
      assert g'.Live(id) == g.Live(id);
    }
    forall d | d in open - {c} && Carried(g', d).Some? ensures Carried(g', d).value < |g'.objects| {
      assert Carried(g', d) == Carried(g, d);
    }
    forall d | d in g'.futures && g'.futures[d].Pending? ensures InQueue(g', d) {
      assert InQueue(g, d);
    }
  }

  // ---- every run ----

  function Open(phases: map<CallId, Phase>): set<CallId> {
    set c | c in phases && phases[c] != Over
  }

  ghost predicate Sound(s: System) {
    && Coherent(s.gate, Open(s.phases))
    && s.phases.Keys == s.gate.futures.Keys
    && (forall c | c in s.phases && s.phases[c] == Running :: c in s.gate.futures && s.gate.futures[c].Done?)
    && (s.gate.ticking <==> s.gate.waiters != [])
  }

  ghost predicate OutcomesKept(s: System, s': System) {
    && (forall c | c in s.gate.futures :: c in s'.gate.futures
          && (!s.gate.futures[c].Pending? ==> s'.gate.futures[c] == s.gate.futures[c]))
    && |s.gate.objects| <= |s'.gate.objects|
    && (forall id | 0 <= id < |s.gate.objects| :: s'.gate.objects[id].address == s.gate.objects[id].address)
  }

  ghost predicate NoArrival(s: System, s': System) {
    && s'.gate.futures.Keys == s.gate.futures.Keys
    && (forall w | w in s'.gate.waiters :: w in s.gate.waiters)
  }

  lemma StepKeepsSound(s: System, e: Event)
    requires Sound(s) && Enabled(s, e)
    ensures Sound(Next(s, e)) && OutcomesKept(s, Next(s, e))
    ensures e.Call? || NoArrival(s, Next(s, e))
  {
    if e.Call? || e.Tick? || e.EndReleasing? {
      PumpStep(s, e);
    } else if e.Finish? || e.CancelResumes? {
      EndStep(s, e);
    } else {
      QuietStep(s, e);
    }
  }

  lemma PumpStep(s: System, e: Event)
    requires Sound(s) && Enabled(s, e) && (e.Call? || e.Tick? || e.EndReleasing?)
    ensures Sound(Next(s, e)) && OutcomesKept(s, Next(s, e))
    ensures e.Call? || NoArrival(s, Next(s, e))
  {
    hide Pump, Enqueue, Coherent;
    var g, open := s.gate, Open(s.phases);
    match e
    case Call(id, a, poll, last, env) =>
      assert Open(Next(s, e).phases) == open + {id};
      EnqueueKeeps(g, Waiter(id, a, poll, env.snap.now, last), env, open);
    case Tick(env) =>
      SameSharesCoherent(g, g.(ticking := false), open);
      PumpKeeps(g.(ticking := false), env, open);
    case EndReleasing(a, env) =>
      SameSharesCoherent(g, g.(releasing := g.releasing - multiset{a}), open);
      PumpKeeps(g.(releasing := g.releasing - multiset{a}), env, open);
  }

  /** A call ends, or its cancelled task resumes. */
  lemma EndStep(s: System, e: Event)
    requires Sound(s) && Enabled(s, e) && (e.Finish? || e.CancelResumes?)
    ensures Sound(Next(s, e)) && OutcomesKept(s, Next(s, e))
    ensures e.Call? || NoArrival(s, Next(s, e))
  {
    hide Release, Pump, Coherent, Leave;
    var g, open := s.gate, Open(s.phases);
    assert Open(Next(s, e).phases) == open - {e.id};
    if e.CancelResumes? && !FutureOf(g, e.id).Done? {
      LeaveKeeps(g, e.id, open);
    } else {
      var check := e.Finish? && !e.ok;
      ReleaseKeeps(g, e.id, check, e.env, open);
      GivenBackNotQueued(g, Release(g, FutureOf(g, e.id).admission, check, e.env), e.id, open);
    }
  }

  lemma QuietStep(s: System, e: Event)
    requires Sound(s) && Enabled(s, e)
    requires e.Resume? || e.Cancel? || e.ReleaseCalls? || e.BeginReleasing? || e.BeginDeferred? || e.EndDeferred?
    ensures Sound(Next(s, e)) && OutcomesKept(s, Next(s, e))
    ensures NoArrival(s, Next(s, e))
  {
    var g, g', open := s.gate, Next(s, e).gate, Open(s.phases);
    assert Open(Next(s, e).phases) == open;
    if e.Cancel? {
      CancelKeeps(g, e.id, open);
    } else if e.ReleaseCalls? {
      ReleaseAddressKeeps(g, e.address, e.at, open);
    } else {
      SameSharesCoherent(g, g', open);
    }
  }

  lemma ReleaseAddressKeeps(g: Gate, a: Address, now: int, open: set<CallId>)
    requires Coherent(g, open)
    ensures Coherent(ReleaseAddress(g, a, now), open) && Extends(g, ReleaseAddress(g, a, now))
  {
    LeavingElements(g, a);
    var leaving := Leaving(g, a);
    ReleaseWaitersKeeps(g, leaving, |leaving|, now, open);
    ReleaseWaitersExtends(g, leaving, |leaving|, now);
    var g' := ReleaseWaiters(g, leaving, |leaving|, now);
    SameSharesCoherent(g', Schedule(g'), open);
  }

  lemma CancelKeeps(g: Gate, c: CallId, open: set<CallId>)
    requires Coherent(g, open) && c in open && FutureOf(g, c).Pending? && c in g.futures
    ensures Coherent(g.(futures := g.futures[c := Cancelled]), open)
  {
    var g' := g.(futures := g.futures[c := Cancelled]);
    forall id | 0 <= id < |g'.objects|
      ensures g'.objects[id].holders == |Holders(g', open, id)| && (g'.objects[id].holders > 0 <==> g'.Live(id))
    {
      assert Holders(g', open, id) == Holders(g, open, id);
      assert g'.Live(id) == g.Live(id);
    }
    forall d | d in open && Carried(g', d).Some? ensures Carried(g', d).value < |g'.objects| {
      assert Carried(g', d) == Carried(g, d);
    }
    forall d | d in g'.futures && g'.futures[d].Pending? ensures InQueue(g', d) {
      assert InQueue(g, d);
    }
  }

  /** A call with its outcome is in no queue: it has nothing to leave. */
  lemma GivenBackNotQueued(g: Gate, g': Gate, c: CallId, open: set<CallId>)
    requires FutureOf(g, c).Done? && Extends(g, g') && Coherent(g', open - {c})
    ensures Leave(g', c) == g'
  {
  }

  lemma StartSound()
    ensures Sound(START)
  {
  }

  /** On every run: each ticket's holders are the calls whose admission carries it and that haven't
      ended, it is in the map exactly while there is one, the queue holds exactly the calls with no
      outcome yet (and those cancelled whose task hasn't resumed), and the tick is armed exactly
      while the queue holds a call. */
  lemma {:induction false} RunsAreSound(trace: seq<System>, events: seq<Event>, n: nat)
    requires IsRun(trace, events) && n < |trace|
    ensures Sound(trace[n])
  {
    if n == 0 {
      StartSound();
    } else {
      RunsAreSound(trace, events, n - 1);
      assert StepAt(trace, events, n - 1);
      StepKeepsSound(trace[n - 1], events[n - 1]);
    }
  }

  /** A call gets one outcome: an admission (or a cancellation) is never replaced later. */
  lemma {:induction false} OneOutcome(trace: seq<System>, events: seq<Event>, n: nat, m: nat, c: CallId)
    requires IsRun(trace, events) && n <= m < |trace|
    requires c in trace[n].gate.futures && !trace[n].gate.futures[c].Pending?
    ensures c in trace[m].gate.futures && trace[m].gate.futures[c] == trace[n].gate.futures[c]
  {
    if n < m {
      OneOutcome(trace, events, n, m - 1, c);
      RunsAreSound(trace, events, m - 1);
      assert StepAt(trace, events, m - 1);
      StepKeepsSound(trace[m - 1], events[m - 1]);
    }
  }

  /** A device's ticket is never overwritten: it stays in the map until its last holder gives it back. */
  lemma NeverOverwritten(trace: seq<System>, events: seq<Event>, n: nat, a: Address)
    requires IsRun(trace, events) && n < |events|
    requires a in trace[n].gate.tickets
    ensures var g, id := trace[n + 1].gate, trace[n].gate.tickets[a];
            id < |g.objects| && ((a in g.tickets && g.tickets[a] == id) || g.objects[id].holders == 0)
  {
    RunsAreSound(trace, events, n);
    RunsAreSound(trace, events, n + 1);
    assert StepAt(trace, events, n);
    StepKeepsSound(trace[n], events[n]);
    var g, id := trace[n + 1].gate, trace[n].gate.tickets[a];
    assert g.objects[id].holders > 0 <==> g.Live(id);
  }
}
