/** What a pass decides for each call, told from the radios it read and the verdicts before it. */
module GateVerdicts {
  import opened Options
  import opened ConnectGate
  import opened GateLists
  import opened GateRun
  import opened GateTickets
  import opened GateOrder
  import opened GateCapacity
  import opened GatePriority

  /** The verdict gives its call a ticket of its own. */
  predicate Given(v: Verdict) {
    v.admission.Some? && v.admission.value.outcome in {Admitted, Capped}
  }

  /** A ticket of the device is out: from before the pass, or given earlier in it. */
  ghost predicate TicketOut(g: Gate, before: seq<Verdict>, a: Address) {
    a in g.tickets || exists v :: v in before && Given(v) && v.waiter.address == a
  }

  ghost predicate Behind(g: Gate, before: seq<Verdict>, w: Waiter) {
    w.poll && (g.deferredOffs > 0 || exists v :: v in before && !v.waiter.poll && v.admission.None?)
  }

  ghost predicate GivenOn(before: seq<Verdict>, source: Source) {
    SomeGiven(before, Admitted, source) || SomeGiven(before, Capped, source)
  }

  /** A connect through the path may start: its radio has room, and none is in progress there. */
  ghost predicate Idle(now: Gate, path: Path, snap: Snapshot) {
    var source := path.scanner.source;
    LeavesRoom(now, source, snap) && snap.read(Scanner(source, snap.instance(source))).inProgress == 0
  }

  /** The best path with a free slot has room now; and it counts, or every path that counts and is
      heard better than it scores is idle. */
  ghost predicate Admissible(now: Gate, paths: seq<Path>, avoided: map<Source, int>, snap: Snapshot) {
    var best := Predict(paths, snap);
    best.Some? && LeavesRoom(now, best.value.scanner.source, snap)
    && (Counts(best.value, paths, avoided, snap.now)
        || forall p | p in paths && Counts(p, paths, avoided, snap.now) ::
             p.rssi as real > (if |paths| <= 1 then best.value.rssi as real else best.value.score) ==> Idle(now, p, snap))
  }

  /** Where a call that waited its maximum goes: the path predicted, else the first of the best heard
      of those that count. */
  ghost predicate CappedThrough(paths: seq<Path>, k: int, avoided: map<Source, int>, snap: Snapshot) {
    match Predict(paths, snap)
    case Some(best) => 0 <= k < |paths| && paths[k] == best
    case None => FirstBestHeard(paths, k, avoided, snap.now)
  }

  predicate Is(a: Option<Admission>, outcome: Outcome) {
    a.Some? && a.value.outcome == outcome
  }

  /** The call shares the ticket out for its device: one more holder. */
  ghost predicate SharesOwn(now: Gate, after: Gate, w: Waiter, a: Option<Admission>) {
    && Is(a, Joined) && a.value.ticket.Some?
    && w.address in now.tickets && now.tickets[w.address] == a.value.ticket.value
    && var id := a.value.ticket.value;
       && id < |now.objects| && now.objects[id].address == w.address && a.value.radio == Some(now.objects[id].scanner)
       && after.tickets == now.tickets
       && after.objects == now.objects[id := now.objects[id].(holders := now.objects[id].holders + 1)]
  }

  /** The call gets a ticket of its own device, newly issued, on the scanner. */
  ghost predicate GetsNew(now: Gate, after: Gate, w: Waiter, a: Option<Admission>, outcome: Outcome, scanner: Scanner, at: int) {
    && Is(a, outcome) && a.value.radio == Some(scanner) && a.value.ticket == Some(|now.objects|)
    && w.address !in now.tickets && after.tickets == now.tickets[w.address := |now.objects|]
    && after.objects == now.objects + [Ticket(w.address, scanner, at, 1, false)]
  }

  predicate NoTicket(now: Gate, after: Gate, a: Option<Admission>) {
    (a.Some? ==> a.value.ticket.None?) && after.tickets == now.tickets && after.objects == now.objects
  }

  /** The verdict a call gets: `before` are the verdicts before it, `now` the gate as they left it,
      `after` the gate as this one does, `avoided` the radios this pass avoids. */
  ghost predicate Fits(g: Gate, now: Gate, after: Gate, avoided: map<Source, int>, before: seq<Verdict>, v: Verdict, snap: Snapshot) {
    var w, a, paths := v.waiter, v.admission, snap.paths(v.waiter.address);
    && (a.Some? ==> a.value.waited == snap.now - w.queuedAt && a.value.admittedAt == snap.now)
    && if TicketOut(g, before, w.address) then SharesOwn(now, after, w, a)
       else if paths == [] then Is(a, Unseen) && a.value.radio.None? && NoTicket(now, after, a)
       else if g.releasing[w.address] == 0 && (exists p | p in paths :: Lists(snap, p, w.address)) then
         && Is(a, Linked) && NoTicket(now, after, a)
         && exists k :: FirstAt(paths, k, w.address, snap) && a.value.radio == Some(paths[k].scanner)
       else Connects(g, now, after, avoided, before, w, a, snap)
  }

  /** The verdict of a call that needs a connect of its own. */
  ghost predicate Connects(g: Gate, now: Gate, after: Gate, avoided: map<Source, int>, before: seq<Verdict>, w: Waiter,
                           a: Option<Admission>, snap: Snapshot) {
    var paths := snap.paths(w.address);
    if !Behind(g, before, w) && Admissible(now, paths, avoided, snap) then
      GetsNew(now, after, w, a, Admitted, Predict(paths, snap).value.scanner, snap.now)
    else
      exists k :: CappedThrough(paths, k, avoided, snap)
                  && if snap.now - w.queuedAt < MAX_WAIT || GivenOn(before, paths[k].scanner.source)
                     then a.None? && NoTicket(now, after, a)
                     else GetsNew(now, after, w, a, Capped, paths[k].scanner, snap.now)
  }

  // ---- the loop's state, from the verdicts ----

  /** The tickets out, and the radios closed to capped calls, are those the verdicts gave. */
  lemma {:induction false} StateFromVerdicts(j: Judging, items: seq<Item>, n: nat, snap: Snapshot)
    requires n <= |items| && j.capped == {} && j.verdicts == []
    ensures var after := JudgeAll(j, items, n, snap);
            && (forall a :: a in after.gate.tickets <==> TicketOut(j.gate, after.verdicts, a))
            && (forall s :: s in after.capped <==> GivenOn(after.verdicts, s))
            && after.gate.releasing == j.gate.releasing
  {
    hide Judge, Decide, Given, TicketOut, GivenOn;
    if n == 0 {
      NoneGiven(j.gate);
    } else {
      StateFromVerdicts(j, items, n - 1, snap);
      JudgeGives(JudgeAll(j, items, n - 1, snap), items[n - 1], snap);
      var before, after := JudgeAll(j, items, n - 1, snap), JudgeAll(j, items, n, snap);
      var v := after.verdicts[|before.verdicts|];
      assert after.verdicts == before.verdicts + [v];
      OneMore(j.gate, before.verdicts, v);
    }
  }

  lemma NoneGiven(g: Gate)
    ensures forall a :: TicketOut(g, [], a) <==> a in g.tickets
    ensures forall s :: !GivenOn([], s)
  {
  }

  lemma OneMore(g: Gate, before: seq<Verdict>, v: Verdict)
    ensures forall a :: TicketOut(g, before + [v], a) <==> TicketOut(g, before, a) || (Given(v) && v.waiter.address == a)
    ensures forall s :: GivenOn(before + [v], s) <==> GivenOn(before, s) || Gives(v, Admitted, s) || Gives(v, Capped, s)
  {
    forall a ensures TicketOut(g, before + [v], a) <==> TicketOut(g, before, a) || (Given(v) && v.waiter.address == a) {
      assert forall u :: u in before + [v] <==> u in before || u == v;
    }
    forall s ensures GivenOn(before + [v], s) <==> GivenOn(before, s) || Gives(v, Admitted, s) || Gives(v, Capped, s) {
      assert forall u :: u in before + [v] <==> u in before || u == v;
    }
  }

  lemma JudgeGives(j: Judging, item: Item, snap: Snapshot)
    ensures var j' := Judge(j, item, snap);
            && |j'.verdicts| == |j.verdicts| + 1 && j'.verdicts[..|j.verdicts|] == j.verdicts
            && j'.gate.releasing == j.gate.releasing
            && var v := j'.verdicts[|j.verdicts|];
               && (forall a :: a in j'.gate.tickets <==> a in j.gate.tickets || (Given(v) && v.waiter.address == a))
               && (forall s :: s in j'.capped <==> s in j.capped || Gives(v, Admitted, s) || Gives(v, Capped, s))
  {
    hide Judge, Decide;
    var w := item.waiter;
    var behind := w.poll && j.commandWaiting;
    JudgeShape(j, item, snap);
    DecideShape(j.gate, w, item.view, snap, behind, j.capped);
    DecideGives(j.gate, w, item.view, snap, behind, j.capped);
    AdmittedHasTicket(j.gate, w, item.view, snap, behind, j.capped);
    DecideReleasing(j.gate, w, item.view, snap, behind, j.capped);
  }

  lemma DecideReleasing(g: Gate, w: Waiter, view: View, snap: Snapshot, behind: bool, capped: set<Source>)
    ensures var d := Decide(g, w, view, snap, behind, capped);
            && d.gate.releasing == g.releasing
            && (d.admission.Some? && d.admission.value.outcome in {Admitted, Capped} ==>
                  d.admission.value.ticket.Some? && d.admission.value.radio.Some?
                  && d.gate.Object(d.admission.value.ticket.value).scanner == d.admission.value.radio.value)
  {
  }

  // ---- one call ----

  lemma PredictionThere(paths: seq<Path>, snap: Snapshot)
    ensures Predict(paths, snap).Some? ==> exists k :: 0 <= k < |paths| && paths[k] == Predict(paths, snap).value
  {
    hide Predict;
    PredictIsBest(paths, snap);
    if Predict(paths, snap).Some? {
      var k :| FirstOfBestFree(paths, k, snap) && paths[k] == Predict(paths, snap).value;
    }
  }

  lemma GoesNowAdmissible(now: Gate, paths: seq<Path>, avoided: map<Source, int>, snap: Snapshot)
    requires MapSound(now)
    ensures GoesNow(now, ViewOf(paths, avoided, snap), snap)
         == if Admissible(now, paths, avoided, snap) then Predict(paths, snap) else None
    ensures Admissible(now, paths, avoided, snap) ==> Predict(paths, snap).Some?
  {
    hide Predict, HasRoom, UsablePaths, LeavesRoom, Counts, MapSound;
    UsableAre(paths, avoided, snap.now);
    forall s ensures HasRoom(now, s, snap) == LeavesRoom(now, s, snap) {
      RoomExactly(now, s, snap);
    }
    PredictionThere(paths, snap);
    forall p ensures Busy(now, p, snap) <==> !Idle(now, p, snap) {}
  }

  lemma CapTargetIs(paths: seq<Path>, avoided: map<Source, int>, snap: Snapshot)
    requires paths != []
    ensures exists k :: CappedThrough(paths, k, avoided, snap) && 0 <= k < |paths| && paths[k] == CapTarget(ViewOf(paths, avoided, snap))
  {
    hide Predict, UsablePaths;
    PredictionThere(paths, snap);
    BestHeardIsFirstOfBest(paths, avoided, snap.now);
    if Predict(paths, snap).Some? {
      var k :| 0 <= k < |paths| && paths[k] == Predict(paths, snap).value;
      assert CappedThrough(paths, k, avoided, snap);
    } else {
      var k :| FirstBestHeard(paths, k, avoided, snap.now) && paths[k] == BestHeard(UsablePaths(paths, avoided, snap.now));
      assert CappedThrough(paths, k, avoided, snap);
    }
  }

  /** `behind` and `capped` are what the verdicts before say. */
  lemma DecideFits(g: Gate, now: Gate, avoided: map<Source, int>, before: seq<Verdict>, w: Waiter, snap: Snapshot,
                   behind: bool, capped: set<Source>)
    requires w.address in now.tickets <==> TicketOut(g, before, w.address)
    requires behind <==> Behind(g, before, w)
    requires forall s :: s in capped <==> GivenOn(before, s)
    requires now.releasing == g.releasing && MapSound(now)
    ensures var d := Decide(now, w, ViewOf(snap.paths(w.address), avoided, snap), snap, behind, capped);
            Fits(g, now, d.gate, avoided, before, Verdict(w, d.admission), snap)
  {
    hide TicketOut, GivenOn, ViewOf, GoesNow, FirstListing, Lists, CapTarget, Connects;
    var paths := snap.paths(w.address);
    var listing := FirstListing(paths, w.address, snap);
    FirstListingIs(paths, w.address, snap);
    ViewsPaths(paths, avoided, snap);
    if listing.Some? {
      var k :| FirstAt(paths, k, w.address, snap) && paths[k].scanner == listing.value;
      ListsThere(paths, k, w.address, snap);
    }
    if w.address !in now.tickets && paths != [] && (now.releasing[w.address] != 0 || listing.None?) {
      DecideConnects(g, now, avoided, before, w, snap, behind, capped);
    }
  }

  lemma ViewsPaths(paths: seq<Path>, avoided: map<Source, int>, snap: Snapshot)
    ensures ViewOf(paths, avoided, snap).paths == paths
  {
    hide Predict, UsablePaths;
  }

  lemma ListsThere(paths: seq<Path>, k: int, a: Address, snap: Snapshot)
    requires FirstAt(paths, k, a, snap)
    ensures 0 <= k < |paths| && exists p | p in paths :: Lists(snap, p, a)
  {
    assert paths[k] in paths;
  }

  lemma DecideConnects(g: Gate, now: Gate, avoided: map<Source, int>, before: seq<Verdict>, w: Waiter, snap: Snapshot,
                       behind: bool, capped: set<Source>)
    requires w.address !in now.tickets && snap.paths(w.address) != []
    requires now.releasing[w.address] != 0 || FirstListing(snap.paths(w.address), w.address, snap).None?
    requires behind <==> Behind(g, before, w)
    requires forall s :: s in capped <==> GivenOn(before, s)
    requires MapSound(now)
    ensures var d := Decide(now, w, ViewOf(snap.paths(w.address), avoided, snap), snap, behind, capped);
            && Connects(g, now, d.gate, avoided, before, w, d.admission, snap)
            && (d.admission.Some? ==> d.admission.value.waited == snap.now - w.queuedAt && d.admission.value.admittedAt == snap.now)
  {
    hide Behind, GivenOn, ViewOf, GoesNow, FirstListing, Predict, CapTarget, CappedThrough, Admissible;
    var paths := snap.paths(w.address);
    ViewsPaths(paths, avoided, snap);
    GoesNowAdmissible(now, paths, avoided, snap);
    CapTargetIs(paths, avoided, snap);
    var k :| CappedThrough(paths, k, avoided, snap) && 0 <= k < |paths| && paths[k] == CapTarget(ViewOf(paths, avoided, snap));
  }

  /** Each verdict of a pass is the one that fits: joined while its device has a ticket out, unseen or
      linked if it needs no connect; else admitted exactly if its best path may take it and no command
      goes first; else, after its maximum wait, capped on a radio the pass gave no connect; else none.
      A joined call shares its own device's ticket, an admitted or capped one gets a new one of it. */
  lemma VerdictsFit(g: Gate, waiting: seq<Waiter>, env: Env, k: nat)
    requires MapSound(g)
    requires !env.failure.InRead? && k < Judged(g, waiting, env)
    ensures k < |Pass(g, waiting, env).verdicts| && k < |Ready(g, waiting, env)|
    ensures var ready, verdicts := Prepare(g, waiting, env.snap), Pass(g, waiting, env).verdicts;
            && verdicts[k].waiter == Ready(g, waiting, env)[k].waiter
            && Fits(g, JudgeAll(StartJudging(ready), Ready(g, waiting, env), k, env.snap).gate,
                    JudgeAll(StartJudging(ready), Ready(g, waiting, env), k + 1, env.snap).gate, ready.avoided,
                    verdicts[..k], verdicts[k], env.snap)
  {
    hide Pass, JudgeAll, Judge, Decide, Prepare, Serving, Fits, TicketOut, GivenOn, WithinLimits;
    PassIs(g, waiting, env);
    var ready := Prepare(g, waiting, env.snap);
    var start, items, n := StartJudging(ready), Ready(g, waiting, env), Judged(g, waiting, env);
    PrepareKeepsShares(g, waiting, env.snap);
    PrepareKeepsDeferred(g, waiting, env.snap);
    PrepareKeepsReleasing(g, waiting, env.snap);
    PrepareKeepsMap(g, waiting, env.snap);
    JudgeAllKeepsRoom(start, items, k, env.snap);
    VerdictsRecord(start, items, n, env.snap);
    CommandWaits(start, items, k, env.snap);
    StateFromVerdicts(start, items, k, env.snap);
    ServingElements(waiting, ready.avoided, env.snap);
    assert items[k] in items;
    var before, w := JudgeAll(start, items, k, env.snap), items[k].waiter;
    SameTickets(g, ready, before.verdicts);
    DecideFits(g, before.gate, ready.avoided, before.verdicts, w, env.snap, w.poll && before.commandWaiting, before.capped);
    AfterDecision(before, items[k], env.snap);
    NextJudged(start, items, k, env.snap);
    SameAfter(g, before.gate, DecisionAt(start, items, k, env.snap).gate, JudgeAll(start, items, k + 1, env.snap).gate,
              ready.avoided, before.verdicts, Verdict(w, DecisionAt(start, items, k, env.snap).admission), env.snap);
  }

  /** The call goes through a fit path; or it is admitted, and every fit path heard better than the
      path it takes scores is idle; or it is capped, and its path's radio has a free slot. */
  ghost predicate GoesFit(now: Gate, paths: seq<Path>, avoided: map<Source, int>, a: Admission, snap: Snapshot) {
    exists p | p in paths :: a.radio == Some(p.scanner) && (
      || Fit(p, avoided, snap.now)
      || (a.outcome == Capped && SlotFree(p, snap))
      || (a.outcome == Admitted
          && forall q | q in paths && Fit(q, avoided, snap.now) ::
               q.rssi as real > (if |paths| <= 1 then p.rssi as real else p.score) ==> Idle(now, q, snap)))
  }

  lemma ConnectsFit(g: Gate, now: Gate, after: Gate, avoided: map<Source, int>, before: seq<Verdict>, w: Waiter,
                    a: Admission, snap: Snapshot, fit: Path)
    requires Connects(g, now, after, avoided, before, w, Some(a), snap)
    requires fit in snap.paths(w.address) && Fit(fit, avoided, snap.now)
    ensures GoesFit(now, snap.paths(w.address), avoided, a, snap)
  {
    hide Behind, GivenOn, Predict, Idle, LeavesRoom, SlotFree, Fit;
    var paths := snap.paths(w.address);
    PredictionThere(paths, snap);
    PredictIsBest(paths, snap);
    if a.outcome == Capped {
      var k :| CappedThrough(paths, k, avoided, snap) && a.radio == Some(paths[k].scanner);
      assert paths[k] in paths;
    } else {
      assert Predict(paths, snap).value in paths;
    }
  }

  /** While one of its device's paths is fit, a call given a connect goes so. */
  lemma FitFirst(g: Gate, waiting: seq<Waiter>, env: Env, k: nat, fit: Path)
    requires MapSound(g) && !env.failure.InRead? && k < Judged(g, waiting, env)
    requires k < |Pass(g, waiting, env).verdicts| && Given(Pass(g, waiting, env).verdicts[k])
    requires fit in env.snap.paths(Pass(g, waiting, env).verdicts[k].waiter.address)
    requires Fit(fit, Prepare(g, waiting, env.snap).avoided, env.snap.now)
    ensures var v, ready := Pass(g, waiting, env).verdicts[k], Prepare(g, waiting, env.snap);
            && k < |Ready(g, waiting, env)|
            && GoesFit(JudgeAll(StartJudging(ready), Ready(g, waiting, env), k, env.snap).gate,
                       env.snap.paths(v.waiter.address), ready.avoided, v.admission.value, env.snap)
  {
    hide Pass, JudgeAll, Prepare, Serving, TicketOut, Behind, Connects, Fit, GoesFit, Lists, FirstAt;
    VerdictsFit(g, waiting, env, k);
    var v, ready, items := Pass(g, waiting, env).verdicts[k], Prepare(g, waiting, env.snap), Ready(g, waiting, env);
    ConnectsFit(g, JudgeAll(StartJudging(ready), items, k, env.snap).gate, JudgeAll(StartJudging(ready), items, k + 1, env.snap).gate,
                ready.avoided, Pass(g, waiting, env).verdicts[..k], v.waiter, v.admission.value, env.snap, fit);
  }

  /** Delivering an admission touches no ticket. */
  lemma AfterDecision(j: Judging, item: Item, snap: Snapshot)
    ensures var d := Decide(j.gate, item.waiter, item.view, snap, item.waiter.poll && j.commandWaiting, j.capped);
            Judge(j, item, snap).gate.tickets == d.gate.tickets && Judge(j, item, snap).gate.objects == d.gate.objects
  {
    hide Decide;
  }

  lemma NextJudged(j: Judging, items: seq<Item>, k: nat, snap: Snapshot)
    requires k < |items|
    ensures JudgeAll(j, items, k + 1, snap) == Judge(JudgeAll(j, items, k, snap), items[k], snap)
  {
    hide Judge;
  }

  lemma SameAfter(g: Gate, now: Gate, d: Gate, after: Gate, avoided: map<Source, int>, before: seq<Verdict>, v: Verdict, snap: Snapshot)
    requires Fits(g, now, d, avoided, before, v, snap) && after.tickets == d.tickets && after.objects == d.objects
    ensures Fits(g, now, after, avoided, before, v, snap)
  {
    hide TicketOut, Behind, GivenOn, Predict, Lists, FirstAt, Admissible, CappedThrough;
  }

  lemma PrepareKeepsReleasing(g: Gate, waiting: seq<Waiter>, snap: Snapshot)
    ensures Prepare(g, waiting, snap).releasing == g.releasing
  {
  }

  lemma SameTickets(g: Gate, ready: Gate, before: seq<Verdict>)
    requires ready.tickets == g.tickets
    ensures forall a :: TicketOut(ready, before, a) == TicketOut(g, before, a)
  {
  }
}
