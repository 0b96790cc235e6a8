/** The connect gate as the program writes it: one object whose methods update its fields in place.
    Each method is proved to make exactly the step its function in ConnectGate.dfy describes. */
module GateObject {
  import opened Options
  import opened M = ConnectGate

  /** One more ticket looked up; a ticket named twice reads the same again. */
  lemma RefreshOne(g: Gate, done: set<Address>, a: Address, snap: Snapshot)
    requires a in g.tickets && a !in done
    ensures var id, objects := g.tickets[a], RefreshObjects(g, done, snap);
            && |objects| == |g.objects|
            && RefreshObjects(g, done + {a}, snap)
               == (if id < |objects| then objects[id := Refreshed(objects[id], g.releasing, snap)] else objects)
            && ConnectedOn(g, done + {a}, snap)
               == ConnectedOn(g, done, snap)
                  + if id < |objects| && Refreshed(objects[id], g.releasing, snap).connected
                    then {Refreshed(objects[id], g.releasing, snap).scanner.source} else {}
  {
    var id := g.tickets[a];
    if id < |g.objects| {
      RefreshTwice(g.objects[id], g.releasing, snap);
    }
  }

  lemma RefreshNone(g: Gate, snap: Snapshot)
    ensures RefreshObjects(g, {}, snap) == g.objects && ConnectedOn(g, {}, snap) == {}
  {
  }

  lemma RefreshTwice(t: Ticket, releasing: multiset<Address>, snap: Snapshot)
    ensures Refreshed(Refreshed(t, releasing, snap), releasing, snap) == Refreshed(t, releasing, snap)
  {
  }

  lemma AvoidOne(avoided: map<Source, int>, released: map<Source, int>, sources: set<Source>, s: Source, snap: Snapshot)
    ensures AvoidStuck(avoided, released, sources + {s}, snap)
         == if snap.Radio(s).Stuck() && s !in released
            then AvoidStuck(avoided, released, sources, snap)[s := snap.now + AVOID]
            else AvoidStuck(avoided, released, sources, snap)
    ensures AvoidStuck(avoided, released, {}, snap) == avoided
  {
    StuckOne(released, sources, s, snap);
    assert avoided + StuckOnes(released, {}, snap) == avoided;
    hide StuckOnes, Reading.Stuck;
    var now := snap.now + AVOID;
    assert avoided + StuckOnes(released, sources, snap)[s := now] == (avoided + StuckOnes(released, sources, snap))[s := now];
  }

  lemma StuckOne(released: map<Source, int>, sources: set<Source>, s: Source, snap: Snapshot)
    ensures StuckOnes(released, sources + {s}, snap)
         == if snap.Radio(s).Stuck() && s !in released then StuckOnes(released, sources, snap)[s := snap.now + AVOID]
            else StuckOnes(released, sources, snap)
  {
  }

  class ConnectGate {
    var waiters: seq<Waiter>
    var futures: map<CallId, Future>
    var tickets: map<Address, TicketId>
    var objects: seq<Ticket>
    var avoided: map<Source, int>
    var released: map<Source, int>
    var checks: seq<(int, TicketId)>
    var releasing: multiset<Address>
    var deferredOffs: int
    var ticking: bool

    function State(): Gate
      reads this
    {
      Gate(waiters, futures, tickets, objects, avoided, released, checks, releasing, deferredOffs, ticking)
    }

    constructor ()
      ensures State() == INITIAL
    {
      waiters, futures, tickets, objects := [], map[], map[], [];
      avoided, released, checks, releasing := map[], map[], [], multiset{};
      deferredOffs, ticking := 0, false;
    }

    // ---- queueing a call ----

    method Enqueue(id: CallId, a: Address, poll: bool, last: bool, env: Env)
      modifies this
      ensures State() == M.Enqueue(old(State()), Waiter(id, a, poll, env.snap.now, last), env)
    {
      hide M.Pump;
      waiters := waiters + [Waiter(id, a, poll, env.snap.now, last)];
      futures := futures[id := Pending];
      Pump(env);
    }

    method OnTick(env: Env)
      modifies this
      ensures State() == M.OnTick(old(State()), env)
    {
      hide M.Pump;
      ticking := false;
      Pump(env);
    }

    method Schedule()
      modifies this
      ensures State() == M.Schedule(old(State()))
    {
      if waiters != [] && !ticking {
        ticking := true;
      } else if waiters == [] && ticking {
        ticking := false;
      }
    }

    /** The call's task ends while it is queued. */
    method Leave(id: CallId)
      modifies this
      ensures State() == M.Leave(old(State()), id)
    {
      if exists w | w in waiters :: w.id == id {
        waiters := Without(waiters, id);
        Schedule();
      }
    }

    method Resolve(id: CallId, admission: Admission)
      modifies this
      ensures State() == M.Resolve(old(State()), id, admission)
    {
      waiters := Without(waiters, id);
      futures := futures[id := Done(admission)];
    }

    // ---- giving a ticket back ----

    method Release(admission: Admission, check: bool, env: Env)
      modifies this
      ensures State() == M.Release(old(State()), admission, check, env)
    {
      hide M.Pump;
      if admission.ticket.None? || admission.ticket.value >= |objects| {
        return;
      }
      var id := admission.ticket.value;
      objects := objects[id := objects[id].(holders := objects[id].holders - 1)];
      var t := objects[id];
      if t.holders != 0 {
        return;
      }
      tickets := tickets - {t.address};
      var due := env.snap.now + RELEASE_GRACE;
      released := released[t.scanner.source := due];
      if check {
        checks := checks + [(due, id)];
      }
      Pump(env);
    }

    method ReleaseWaiters(a: Address, now: int)
      modifies this
      ensures State() == ReleaseAddress(old(State()), a, now)
    {
      var leaving := Leaving(State(), a);
      for i := 0 to |leaving|
        invariant State() == M.ReleaseWaiters(old(State()), leaving, i, now)
      {
        var w := leaving[i];
        Resolve(w.id, Admission(Released, now - w.queuedAt, None, now, None));
      }
      Schedule();
    }

    // ---- counts others keep here ----

    method NoteReleasing(a: Address) returns (end: EndReleasing)
      modifies this
      ensures State() == old(State()).(releasing := old(releasing) + multiset{a})
      ensures fresh(end) && end.gate == this && end.address == a && !end.ended
    {
      releasing := releasing + multiset{a};
      end := new EndReleasing(this, a);
    }

    method NoteDeferredOff() returns (end: EndDeferredOff)
      modifies this
      ensures State() == old(State()).(deferredOffs := old(deferredOffs) + 1)
      ensures fresh(end) && end.gate == this && !end.ended
    {
      deferredOffs := deferredOffs + 1;
      end := new EndDeferredOff(this);
    }

    // ---- pumping ----

    method Pump(env: Env)
      modifies this
      ensures State() == M.Pump(old(State()), env)
    {
      hide M.Pass, M.RunChecks, M.Unjudge;
      var waiting := Waiting(State());
      var failed := false;
      if waiting != [] {
        RunChecks(env);
        failed := env.failure.InChecks?;
        if !failed {
          failed := Pass(waiting, env);
        }
      }
      if failed {
        Unjudge(waiting, env.snap.now);
      }
      Schedule();
    }

    /** The radios of failed calls whose check is due. */
    method RunChecks(env: Env)
      modifies this
      ensures State() == M.RunChecks(old(State()), env)
    {
      var due := Due(checks, env.snap.now);
      checks := NotDue(checks, env.snap.now);
      ghost var g := State();
      var n := if env.failure.InChecks? && env.failure.checked < |due| then env.failure.checked else |due|;
      for i := 0 to n
        invariant State() == CheckAll(g, due, i, env.snap)
      {
        CheckReleased(due[i].1, env.snap);
      }
    }

    /** The gate failed: every waiting call goes ahead unjudged. */
    method Unjudge(waiting: seq<Waiter>, now: int)
      modifies this
      ensures State() == M.Unjudge(old(State()), waiting, |waiting|, now)
    {
      for i := 0 to |waiting|
        invariant State() == M.Unjudge(old(State()), waiting, i, now)
      {
        var w := waiting[i];
        if IsPending(futures, w.id) {
          Resolve(w.id, Admission(Unjudged, now - w.queuedAt, None, now, None));
        }
      }
    }

    method Avoid(source: Source, now: int)
      modifies this
      ensures State() == M.Avoid(old(State()), source, now)
    {
      avoided := avoided[source := now + AVOID];
    }

    method CheckReleased(id: TicketId, snap: Snapshot)
      modifies this
      ensures State() == M.CheckReleased(old(State()), id, snap)
    {
      var t := State().Object(id);
      var radio := snap.read(t.scanner);
      if t.connected || (t.address in radio.listed && radio.inProgress == 0) {
        return;
      }
      if (exists p | p in snap.paths(t.address) :: p.scanner == t.scanner) && radio.Stuck() {
        Avoid(t.scanner.source, snap.now);
      }
    }

    /** Finds each ticket's device in a radio's list. */
    method RefreshTickets(snap: Snapshot)
      modifies this
      ensures State() == M.RefreshTickets(old(State()), snap)
    {
      hide RefreshObjects, ConnectedOn, Refreshed;
      ghost var g := State();
      RefreshNone(g, snap);
      var todo := tickets.Keys;
      assert tickets.Keys - todo == {};
      while todo != {}
        invariant todo <= tickets.Keys
        invariant State() == g.(objects := RefreshObjects(g, tickets.Keys - todo, snap),
                                avoided := g.avoided - ConnectedOn(g, tickets.Keys - todo, snap))
        decreases todo
      {
        var a :| a in todo;
        ghost var done := tickets.Keys - todo;
        RefreshOne(g, done, a, snap);
        todo := todo - {a};
        assert tickets.Keys - todo == done + {a};
        var id := tickets[a];
        if id < |objects| {
          var t := Refreshed(objects[id], releasing, snap);
          objects := objects[id := t];
          if t.connected {
            avoided := avoided - {t.scanner.source};
          }
        }
      }
      assert g.tickets.Keys - todo == g.tickets.Keys;
    }

    /** Reads the radios once, then judges the waiting calls in serving order. */
    method Pass(waiting: seq<Waiter>, env: Env) returns (failed: bool)
      requires !env.failure.InChecks?
      modifies this
      ensures State() == M.Pass(old(State()), waiting, env).gate
      ensures failed == !env.failure.NoFailure?
    {
      hide M.Judge, M.RefreshTickets, M.Serving;
      failed := !env.failure.NoFailure?;
      if env.failure.InRead? {
        return;
      }
      var snap := env.snap;
      var sources := SourcesRead(State(), waiting, snap);
      released := Prune(released, snap.now);
      AvoidStuckRadios(sources, snap);
      RefreshTickets(snap);
      assert State() == Prepare(old(State()), waiting, snap);
      if env.failure.InViews? {
        return;
      }
      ghost var ready := State();
      var items := Serving(waiting, avoided, snap);
      var commandWaiting := deferredOffs > 0;
      var capped: set<Source> := {};
      ghost var verdicts: seq<Verdict> := [];
      var n := if env.failure.AfterJudging? && env.failure.judged < |items| then env.failure.judged else |items|;
      for i := 0 to n
        invariant Judging(State(), commandWaiting, capped, verdicts) == JudgeAll(StartJudging(ready), items, i, snap)
      {
        commandWaiting, capped, verdicts := JudgeCall(items[i], snap, commandWaiting, capped, verdicts);
      }
    }

    method AvoidStuckRadios(sources: set<Source>, snap: Snapshot)
      modifies this
      ensures State() == old(State()).(avoided := AvoidStuck(old(avoided), released, sources, snap))
    {
      hide AvoidStuck, Reading.Stuck;
      var todo := sources;
      AvoidOne(avoided, released, {}, "", snap);
      assert sources - todo == {};
      while todo != {}
        invariant todo <= sources
        invariant State() == old(State()).(avoided := AvoidStuck(old(avoided), released, sources - todo, snap))
        decreases todo
      {
        var s :| s in todo;
        ghost var done := sources - todo;
        AvoidOne(old(avoided), released, done, s, snap);
        todo := todo - {s};
        assert sources - todo == done + {s};
        if snap.Radio(s).Stuck() && s !in released {
          Avoid(s, snap.now);
        }
      }
      assert sources - todo == sources;
    }

    /** Judges one call, and delivers its admission if it gets one. */
    method JudgeCall(item: Item, snap: Snapshot, commandWaiting: bool, capped: set<Source>, ghost verdicts: seq<Verdict>)
      returns (commandWaits: bool, closed: set<Source>, ghost log: seq<Verdict>)
      modifies this
      ensures Judging(State(), commandWaits, closed, log)
           == M.Judge(Judging(old(State()), commandWaiting, capped, verdicts), item, snap)
    {
      hide M.Decide;
      var w := item.waiter;
      commandWaits := commandWaiting;
      var admission;
      admission, closed := Decide(w, item.view, snap, w.poll && commandWaiting, capped);
      log := verdicts + [Verdict(w, admission)];
      if admission.None? {
        commandWaits := commandWaits || !w.poll;
        return;
      }
      if admission.value.ticket.Some? && admission.value.outcome in {Admitted, Capped} {
        closed := closed + {State().Object(admission.value.ticket.value).scanner.source};
      }
      Resolve(w.id, admission.value);
    }

    /** What `GateVerdicts.Fits` tells from outside: whether the call goes now, and on what ticket. */
    method Decide(w: Waiter, view: View, snap: Snapshot, behindCommand: bool, capped: set<Source>)
      returns (admission: Option<Admission>, closed: set<Source>)
      modifies this
      ensures Decision(State(), admission, closed) == M.Decide(old(State()), w, view, snap, behindCommand, capped)
    {
      hide HasRoom, Busy;
      var now := snap.now;
      var waited := now - w.queuedAt;
      closed := capped;
      if w.address in tickets {
        var id := tickets[w.address];
        var t := State().Object(id);
        if id < |objects| {
          objects := objects[id := t.(holders := t.holders + 1)];
        }
        return Some(Admission(Joined, waited, Some(t.scanner), now, Some(id))), closed;
      }
      if view.paths == [] {
        return Some(Admission(Unseen, waited, None, now, None)), closed;
      }
      if releasing[w.address] == 0 {
        var listing := FirstListing(view.paths, w.address, snap);
        if listing.Some? {
          return Some(Admission(Linked, waited, listing, now, None)), closed;
        }
      }
      if !behindCommand {
        var predicted := GoesNow(State(), view, snap);
        if predicted.Some? {
          var a := Admit(w, Admitted, predicted.value.scanner, now);
          return Some(a), closed;
        }
      }
      if waited < MAX_WAIT {
        return None, closed;
      }
      var target := CapTarget(view).scanner;
      if target.source in closed {
        return None, closed;
      }
      closed := closed + {target.source};
      var a := Admit(w, Capped, target, now);
      return Some(a), closed;
    }

    method Admit(w: Waiter, outcome: Outcome, scanner: Scanner, now: int) returns (admission: Admission)
      modifies this
      ensures (State(), admission) == M.Admit(old(State()), w, outcome, scanner, now)
    {
      var id := |objects|;
      objects := objects + [Ticket(w.address, scanner, now, 1, false)];
      tickets := tickets[w.address := id];
      admission := Admission(outcome, now - w.queuedAt, Some(scanner), now, Some(id));
    }
  }

  /** The callback that ends a release once: `ended` is the closed-over flag. */
  class EndReleasing {
    const gate: ConnectGate
    const address: Address
    var ended: bool

    constructor (gate: ConnectGate, address: Address)
      ensures this.gate == gate && this.address == address && !ended
    {
      this.gate, this.address, ended := gate, address, false;
    }

    method Call(env: Env)
      modifies this, gate
      ensures ended
      ensures gate.State() == if old(ended) then old(gate.State())
                              else M.Pump(old(gate.State()).(releasing := old(gate.releasing) - multiset{address}), env)
    {
      hide M.Pump;
      if ended {
        return;
      }
      ended := true;
      gate.releasing := gate.releasing - multiset{address};
      gate.Pump(env);
    }
  }

  /** The callback that ends a deferral's count once. */
  class EndDeferredOff {
    const gate: ConnectGate
    var ended: bool

    constructor (gate: ConnectGate)
      ensures this.gate == gate && !ended
    {
      this.gate, ended := gate, false;
    }

    method Call()
      modifies this, gate
      ensures ended
      ensures gate.State() == old(gate.State()).(deferredOffs := old(gate.deferredOffs) - if old(ended) then 0 else 1)
    {
      if ended {
        return;
      }
      ended := true;
      gate.deferredOffs := gate.deferredOffs - 1;
    }
  }
}
