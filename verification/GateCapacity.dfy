/** What one pass promises: it keeps within the radios' room, puts commands first, and lets a call
    that waited too long through, one per radio. A pass may fail part-way: these hold of the calls
    it judged. */
module GateCapacity {
  import opened Options
  import opened ConnectGate
  import opened GateLists
  import opened GateRun
  import opened GateTickets
  import opened GateOrder

  /** The verdict gives its call a new connect on the source. */
  predicate Gives(v: Verdict, outcome: Outcome, source: Source) {
    && v.admission.Some? && v.admission.value.outcome == outcome
    && v.admission.value.radio.Some? && v.admission.value.radio.value.source == source
  }

  ghost predicate SomeGiven(verdicts: seq<Verdict>, outcome: Outcome, source: Source) {
    exists v :: v in verdicts && Gives(v, outcome, source)
  }

  // ---- capacity ----

  /** The devices whose ticket is on the source and younger than the maximum wait. */
  ghost function Young(g: Gate, source: Source, now: int): set<Address> {
    set a | a in g.tickets && g.tickets[a] < |g.objects| && g.objects[g.tickets[a]].scanner.source == source
            && now - g.objects[g.tickets[a]].admittedAt < MAX_WAIT
  }

  /** Of those, the devices its radio doesn't list. */
  ghost function YoungUnlisted(g: Gate, source: Source, snap: Snapshot): set<Address> {
    set a | a in Young(g, source, snap.now) && a !in snap.read(Scanner(source, snap.instance(source))).listed
  }

  /** Of those, the devices whose ticket isn't seen connected. */
  ghost function YoungUnconnected(g: Gate, source: Source, now: int): set<Address> {
    set a | a in Young(g, source, now) && !g.objects[g.tickets[a]].connected
  }

  /** No more young tickets unlisted there than the free slots it reports, and for a proxy no more
      not connected than may connect at once. */
  ghost predicate WithinLimits(g: Gate, source: Source, snap: Snapshot) {
    var radio := snap.read(Scanner(source, snap.instance(source)));
    && (radio.freeSlots.Some? ==> |YoungUnlisted(g, source, snap)| <= radio.freeSlots.value)
    && (radio.proxy ==> |YoungUnconnected(g, source, snap.now)| <= IN_FLIGHT_PER_PROXY)
  }

  /** One more stays within them, and a proxy has not as many connects in progress. */
  ghost predicate LeavesRoom(g: Gate, source: Source, snap: Snapshot) {
    var radio := snap.read(Scanner(source, snap.instance(source)));
    && (radio.freeSlots.Some? ==> |YoungUnlisted(g, source, snap)| + 1 <= radio.freeSlots.value)
    && (radio.proxy ==> |YoungUnconnected(g, source, snap.now)| + 1 <= IN_FLIGHT_PER_PROXY
                        && radio.inProgress + 1 <= IN_FLIGHT_PER_PROXY)
  }

  /** A radio has room exactly when the tickets out, and a proxy's connects in progress, leave some. */
  lemma RoomExactly(g: Gate, source: Source, snap: Snapshot)
    requires MapSound(g)
    ensures HasRoom(g, source, snap) <==> LeavesRoom(g, source, snap)
  {
    assert Unlisted(g, source, snap) == YoungUnlisted(g, source, snap);
    assert Connecting(g, source, snap.now) == YoungUnconnected(g, source, snap.now);
  }

  lemma SubsetSize<T>(small: set<T>, big: set<T>)
    requires small <= big
    ensures |small| <= |big|
  {
    var rest := big - small;
    assert big == small + rest;
  }

  /** A new ticket on a radio with room leaves it within its room. */
  lemma AdmitWithinLimits(g: Gate, w: Waiter, outcome: Outcome, scanner: Scanner, snap: Snapshot)
    requires MapSound(g) && w.address !in g.tickets && LeavesRoom(g, scanner.source, snap)
    ensures WithinLimits(Admit(g, w, outcome, scanner, snap.now).0, scanner.source, snap)
  {
    hide Admit, YoungUnlisted, YoungUnconnected, MapSound;
    var g' := Admit(g, w, outcome, scanner, snap.now).0;
    var source := scanner.source;
    AdmitCounts(g, w, outcome, scanner, snap);
    SubsetSize(YoungUnlisted(g', source, snap), YoungUnlisted(g, source, snap) + {w.address});
    SubsetSize(YoungUnconnected(g', source, snap.now), YoungUnconnected(g, source, snap.now) + {w.address});
  }

  lemma AdmitCounts(g: Gate, w: Waiter, outcome: Outcome, scanner: Scanner, snap: Snapshot)
    requires MapSound(g) && w.address !in g.tickets
    ensures var g', source := Admit(g, w, outcome, scanner, snap.now).0, scanner.source;
            && YoungUnlisted(g', source, snap) <= YoungUnlisted(g, source, snap) + {w.address}
            && YoungUnconnected(g', source, snap.now) <= YoungUnconnected(g, source, snap.now) + {w.address}
  {
    hide YoungUnlisted, YoungUnconnected;
    var g' := Admit(g, w, outcome, scanner, snap.now).0;
    SameElsewhere(g, g', w.address, scanner.source, snap);
    AllButOne(YoungUnlisted(g', scanner.source, snap), YoungUnlisted(g, scanner.source, snap), w.address);
    AllButOne(YoungUnconnected(g', scanner.source, snap.now), YoungUnconnected(g, scanner.source, snap.now), w.address);
  }

  lemma AllButOne<T>(xs: set<T>, ys: set<T>, a: T)
    requires xs - {a} == ys - {a}
    ensures xs <= ys + {a}
  {
    forall x | x in xs ensures x in ys + {a} {
      assert x != a ==> x in xs - {a};
    }
  }

  /** Every other device's ticket counts as before. */
  lemma SameElsewhere(g: Gate, g': Gate, a: Address, source: Source, snap: Snapshot)
    requires MapSound(g) && g.objects <= g'.objects
    requires forall b | b != a :: b in g.tickets <==> b in g'.tickets
    requires forall b | b in g.tickets && b != a :: g'.tickets[b] == g.tickets[b]
    ensures YoungUnlisted(g', source, snap) - {a} == YoungUnlisted(g, source, snap) - {a}
    ensures YoungUnconnected(g', source, snap.now) - {a} == YoungUnconnected(g, source, snap.now) - {a}
  {
  }

  lemma JoinRoom(g: Gate, w: Waiter, source: Source, snap: Snapshot)
    requires MapSound(g) && w.address in g.tickets
    ensures WithinLimits(Join(g, w, snap.now).0, source, snap) == WithinLimits(g, source, snap)
    ensures MapSound(Join(g, w, snap.now).0)
  {
    var g' := Join(g, w, snap.now).0;
    assert YoungUnlisted(g', source, snap) == YoungUnlisted(g, source, snap);
    assert YoungUnconnected(g', source, snap.now) == YoungUnconnected(g, source, snap.now);
  }

  lemma AdmitElsewhere(g: Gate, w: Waiter, outcome: Outcome, scanner: Scanner, source: Source, snap: Snapshot)
    requires MapSound(g) && w.address !in g.tickets && scanner.source != source
    ensures WithinLimits(Admit(g, w, outcome, scanner, snap.now).0, source, snap) == WithinLimits(g, source, snap)
  {
    var g' := Admit(g, w, outcome, scanner, snap.now).0;
    assert YoungUnlisted(g', source, snap) == YoungUnlisted(g, source, snap);
    assert YoungUnconnected(g', source, snap.now) == YoungUnconnected(g, source, snap.now);
  }

  lemma ResolveRoom(g: Gate, c: CallId, admission: Admission, source: Source, snap: Snapshot)
    ensures WithinLimits(Resolve(g, c, admission), source, snap) == WithinLimits(g, source, snap)
    ensures MapSound(g) ==> MapSound(Resolve(g, c, admission))
  {
    var g' := Resolve(g, c, admission);
    assert YoungUnlisted(g', source, snap) == YoungUnlisted(g, source, snap);
    assert YoungUnconnected(g', source, snap.now) == YoungUnconnected(g, source, snap.now);
  }

  /** What the judging loop keeps: a radio given a connect is closed to capped calls, and one given
      an admitted connect is within its room. */
  ghost predicate RoomKept(j: Judging, snap: Snapshot) {
    && MapSound(j.gate)
    && (forall s | SomeGiven(j.verdicts, Admitted, s) || SomeGiven(j.verdicts, Capped, s) :: s in j.capped)
    && (forall s | SomeGiven(j.verdicts, Admitted, s) :: WithinLimits(j.gate, s, snap))
  }

  /** How a call gets a new connect: on a radio with room, or after its wait on a radio not given
      one in this pass. */
  lemma DecideGives(g: Gate, w: Waiter, view: View, snap: Snapshot, behind: bool, capped: set<Source>)
    ensures var d := Decide(g, w, view, snap, behind, capped);
            match d.admission
            case None => d.capped == capped
            case Some(a) =>
              if a.ticket.None? || a.outcome == Joined then d.capped == capped && a.outcome != Admitted && a.outcome != Capped
              else if a.outcome == Admitted then
                d.capped == capped && !behind && a.radio.Some? && HasRoom(g, a.radio.value.source, snap)
              else a.outcome == Capped && a.radio.Some? && a.radio.value.source !in capped
                   && d.capped == capped + {a.radio.value.source} && snap.now - w.queuedAt >= MAX_WAIT
  {
  }

  lemma JudgeShape(j: Judging, item: Item, snap: Snapshot)
    ensures var d := Decide(j.gate, item.waiter, item.view, snap, item.waiter.poll && j.commandWaiting, j.capped);
            var j' := Judge(j, item, snap);
            && j'.verdicts == j.verdicts + [Verdict(item.waiter, d.admission)]
            && j'.commandWaiting == (j.commandWaiting || (d.admission.None? && !item.waiter.poll))
            && match d.admission
               case None => j'.gate == d.gate && j'.capped == d.capped
               case Some(a) =>
                 j'.gate == Resolve(d.gate, item.waiter.id, a)
                 && j'.capped == d.capped + if a.ticket.Some? && a.outcome in {Admitted, Capped}
                      then {d.gate.Object(a.ticket.value).scanner.source} else {}
  {
  }

  lemma JudgeKeepsRoom(j: Judging, item: Item, snap: Snapshot)
    requires RoomKept(j, snap)
    ensures RoomKept(Judge(j, item, snap), snap)
  {
    hide Judge, Decide, WithinLimits, HasRoom;
    var g, w := j.gate, item.waiter;
    var behind := w.poll && j.commandWaiting;
    var d := Decide(g, w, item.view, snap, behind, j.capped);
    var j' := Judge(j, item, snap);
    DecideShape(g, w, item.view, snap, behind, j.capped);
    DecideGives(g, w, item.view, snap, behind, j.capped);
    JudgeShape(j, item, snap);
    forall s | SomeGiven(j'.verdicts, Admitted, s) || SomeGiven(j'.verdicts, Capped, s)
      ensures s in j'.capped && (SomeGiven(j'.verdicts, Admitted, s) ==> WithinLimits(j'.gate, s, snap))
    {
      assert forall o :: SomeGiven(j'.verdicts, o, s) ==> SomeGiven(j.verdicts, o, s) || Gives(Verdict(w, d.admission), o, s);
      if d.admission.Some? {
        var a := d.admission.value;
        ResolveRoom(d.gate, w.id, a, s, snap);
        if a.ticket.Some? && a.outcome == Joined {
          JoinRoom(g, w, s, snap);
        } else if a.ticket.Some? {
          if a.radio.value.source != s {
            AdmitElsewhere(g, w, a.outcome, a.radio.value, s, snap);
          } else if a.outcome == Admitted {
            RoomExactly(g, s, snap);
            AdmitWithinLimits(g, w, Admitted, a.radio.value, snap);
          }
        }
      }
    }
    assert MapSound(j'.gate) by {
      if d.admission.Some? {
        ResolveRoom(d.gate, w.id, d.admission.value, "", snap);
        if d.admission.value.ticket.Some? && d.admission.value.outcome == Joined { JoinRoom(g, w, "", snap); }
      }
    }
  }

  lemma {:induction false} JudgeAllKeepsRoom(j: Judging, items: seq<Item>, n: nat, snap: Snapshot)
    requires n <= |items| && RoomKept(j, snap)
    ensures RoomKept(JudgeAll(j, items, n, snap), snap)
  {
    hide Judge, RoomKept;
    if n > 0 {
      JudgeAllKeepsRoom(j, items, n - 1, snap);
      JudgeKeepsRoom(JudgeAll(j, items, n - 1, snap), items[n - 1], snap);
    }
  }

  lemma PassKeepsRoom(g: Gate, waiting: seq<Waiter>, env: Env)
    requires MapSound(g)
    ensures RoomKept(Pass(g, waiting, env), env.snap)
  {
    hide Judge, JudgeAll, Serving, Prepare, WithinLimits;
    var ready := Prepare(g, waiting, env.snap);
    PrepareKeepsShares(g, waiting, env.snap);
    if !env.failure.InRead? && !env.failure.InViews? {
      var items := Serving(waiting, ready.avoided, env.snap);
      var n := if env.failure.AfterJudging? && env.failure.judged < |items| then env.failure.judged else |items|;
      JudgeAllKeepsRoom(StartJudging(ready), items, n, env.snap);
    }
  }

  /** Every radio a pass admitted a call to ends the pass within its room, whatever calls the pass
      capped, joined or linked, and whatever tickets it moved there. */
  lemma Capacity(g: Gate, waiting: seq<Waiter>, env: Env, source: Source)
    requires MapSound(g) && SomeGiven(Pass(g, waiting, env).verdicts, Admitted, source)
    ensures WithinLimits(Pass(g, waiting, env).gate, source, env.snap)
  {
    hide Pass, WithinLimits, SomeGiven;
    PassKeepsRoom(g, waiting, env);
  }
}
