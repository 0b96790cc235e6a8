/** Avoided radios over a run: a radio judged stuck stays avoided, and one a call just ended on is
    left alone for the grace. */
module GateAvoid {
  import opened Options
  import opened ConnectGate
  import opened GateLists
  import opened GateRun
  import opened GateTickets
  import opened GateOrder

  /** The gate as an event's pump finds it, if the event pumps. */
  function PumpedBy(s: System, e: Event): Option<Gate> {
    var g := s.gate;
    match e
    case Call(id, a, poll, last, env) =>
      Some(g.(waiters := g.waiters + [Waiter(id, a, poll, env.snap.now, last)], futures := g.futures[id := Pending]))
    case Tick(env) => Some(g.(ticking := false))
    case EndReleasing(a, env) => Some(g.(releasing := g.releasing - multiset{a}))
    case Finish(id, ok, env) => GivenBack(g, id, !ok, env.snap.now)
    case CancelResumes(id, env) => GivenBack(g, id, false, env.snap.now)
    case _ => None
  }

  /** A call's end pumps when it gives its ticket's last share back. */
  function GivenBack(g: Gate, c: CallId, check: bool, now: int): Option<Gate> {
    if Carried(g, c).None? || Carried(g, c).value >= |g.objects| then None
    else
      var g' := GiveBack(g, Carried(g, c).value, check, now);
      if g'.objects[Carried(g, c).value].holders != 0 then None else Some(g')
  }

  function EnvOf(e: Event): Env
    requires e.Call? || e.Tick? || e.EndReleasing? || e.Finish? || e.CancelResumes?
  {
    match e
    case Call(_, _, _, _, env) => env
    case Tick(env) => env
    case EndReleasing(_, env) => env
    case Finish(_, _, env) => env
    case CancelResumes(_, env) => env
  }

  /** The pump reads the scanners and refreshes the tickets. */
  predicate Passes(g: Gate, env: Env) {
    Waiting(g) != [] && !env.failure.InChecks? && !env.failure.InRead?
  }

  /** A ticket out is on the source, seen connected. */
  ghost predicate SeenUp(g: Gate, source: Source) {
    exists a | a in g.tickets ::
      g.tickets[a] < |g.objects| && g.objects[g.tickets[a]].connected && g.objects[g.tickets[a]].scanner.source == source
  }

  /** The event's pass saw one of our tickets connected on the source. */
  ghost predicate SawConnected(s: System, e: Event, source: Source) {
    PumpedBy(s, e).Some? && Passes(PumpedBy(s, e).value, EnvOf(e))
    && var g, env := PumpedBy(s, e).value, EnvOf(e);
       SeenUp(Prepare(RunChecks(g, env), Waiting(g), env.snap), source)
  }

  predicate AvoidedUntil(avoided: map<Source, int>, source: Source, until: int) {
    source in avoided && avoided[source] >= until
  }

  predicate ShieldedUntil(released: map<Source, int>, source: Source, until: int) {
    source in released && released[source] >= until
  }

  // ---- one pump ----

  /** What release checks may change: radios avoided from now on. */
  ghost predicate ChecksOnlyAvoid(g: Gate, g': Gate, now: int) {
    && g' == g.(avoided := g'.avoided)
    && (forall s | s in g.avoided :: s in g'.avoided && (g'.avoided[s] == g.avoided[s] || g'.avoided[s] == now + AVOID))
  }

  lemma {:induction false} ChecksAvoid(g: Gate, due: seq<(int, TicketId)>, n: nat, snap: Snapshot)
    requires n <= |due|
    ensures ChecksOnlyAvoid(g, CheckAll(g, due, n, snap), snap.now)
  {
    if n > 0 {
      ChecksAvoid(g, due, n - 1, snap);
    }
  }

  lemma RunChecksAvoid(g: Gate, env: Env)
    ensures ChecksOnlyAvoid(g.(checks := NotDue(g.checks, env.snap.now)), RunChecks(g, env), env.snap.now)
  {
    var due := Due(g.checks, env.snap.now);
    var n := if env.failure.InChecks? && env.failure.checked < |due| then env.failure.checked else |due|;
    ChecksAvoid(g.(checks := NotDue(g.checks, env.snap.now)), due, n, env.snap);
  }

  /** The source is on a path of a waiting call's device, or of one with a ticket out. */
  ghost predicate Reads(g: Gate, waiting: seq<Waiter>, source: Source, snap: Snapshot) {
    || (exists a, p | a in g.tickets && p in snap.paths(a) :: p.scanner.source == source)
    || (exists w, p | w in waiting && p in snap.paths(w.address) :: p.scanner.source == source)
  }

  /** It heard nothing for long, and lists no device it could be connecting. */
  predicate LooksStuck(radio: Reading) {
    radio.deaf && (radio.inProgress == 0 || radio.listed == {})
  }

  lemma PrepareSees(g: Gate, waiting: seq<Waiter>, snap: Snapshot)
    ensures forall s :: SeenUp(Prepare(g, waiting, snap), s) <==> s in ConnectedOn(g, g.tickets.Keys, snap)
  {
    hide Refreshed;
    var g' := Prepare(g, waiting, snap);
    forall a | a in g.tickets && g.tickets[a] < |g.objects|
      ensures g'.objects[g.tickets[a]] == Refreshed(g.objects[g.tickets[a]], g.releasing, snap) {}
  }

  lemma ReadsAre(g: Gate, waiting: seq<Waiter>, snap: Snapshot)
    ensures forall s :: Reads(g, waiting, s, snap) <==> s in SourcesRead(g, waiting, snap)
  {
  }

  /** The radios a pass avoids: not those it sees one of our tickets connected on; from now those it
      reads as stuck, out of their grace; the others as before. It ends no grace early. */
  lemma PrepareAvoids(g: Gate, waiting: seq<Waiter>, snap: Snapshot)
    ensures var g' := Prepare(g, waiting, snap);
            forall s ::
              if SeenUp(g', s) then s !in g'.avoided
              else if Reads(g, waiting, s, snap) && LooksStuck(snap.read(Scanner(s, snap.instance(s))))
                   && !ShieldedUntil(g.released, s, snap.now + 1)
              then s in g'.avoided && g'.avoided[s] == snap.now + AVOID
              else (s in g'.avoided <==> s in g.avoided) && (s in g.avoided ==> g'.avoided[s] == g.avoided[s])
    ensures forall s, until | until > snap.now && ShieldedUntil(g.released, s, until) ::
              ShieldedUntil(Prepare(g, waiting, snap).released, s, until)
  {
    hide Reads, SeenUp;
    var released := Prune(g.released, snap.now);
    var sources := SourcesRead(g, waiting, snap);
    var g1 := g.(released := released, avoided := AvoidStuck(g.avoided, released, sources, snap));
    assert ConnectedOn(g1, g.tickets.Keys, snap) == ConnectedOn(g, g.tickets.Keys, snap);
    PrepareSees(g, waiting, snap);
    ReadsAre(g, waiting, snap);
  }

  predicate SameRadios(g: Gate, g': Gate) {
    g'.avoided == g.avoided && g'.released == g.released
  }

  predicate SameBesidesCalls(g: Gate, g': Gate) {
    SameRadios(g, g') && g'.deferredOffs == g.deferredOffs && g'.checks == g.checks && g'.releasing == g.releasing
  }

  lemma {:induction false} JudgeAllRadios(j: Judging, items: seq<Item>, n: nat, snap: Snapshot)
    requires n <= |items|
    ensures SameBesidesCalls(j.gate, JudgeAll(j, items, n, snap).gate)
  {
    hide Judge;
    if n > 0 {
      JudgeAllRadios(j, items, n - 1, snap);
      JudgeRadios(JudgeAll(j, items, n - 1, snap), items[n - 1], snap);
    }
  }

  lemma JudgeRadios(j: Judging, item: Item, snap: Snapshot)
    ensures SameBesidesCalls(j.gate, Judge(j, item, snap).gate)
  {
    DecideShape(j.gate, item.waiter, item.view, snap, item.waiter.poll && j.commandWaiting, j.capped);
    JudgeGate(j, item, snap);
  }

  lemma {:induction false} UnjudgeRadios(g: Gate, waiting: seq<Waiter>, n: nat, now: int)
    requires n <= |waiting|
    ensures SameBesidesCalls(g, Unjudge(g, waiting, n, now))
  {
    if n > 0 {
      UnjudgeRadios(g, waiting, n - 1, now);
    }
  }

  /** The radios a pump leaves avoided, and in their grace, are those its checks and its pass's
      preparation leave: judging and failing change neither. */
  lemma PumpRadios(g: Gate, env: Env)
    requires Waiting(g) != []
    ensures var checked := RunChecks(g, env);
            SameBesidesCalls(if Passes(g, env) then Prepare(checked, Waiting(g), env.snap) else checked, Pump(g, env))
  {
    hide JudgeAll, Prepare, RunChecks, Unjudge, Serving, Waiting;
    var waiting, checked := Waiting(g), RunChecks(g, env);
    var judged := if env.failure.InChecks? then checked else Pass(checked, waiting, env).gate;
    if Passes(g, env) && !env.failure.InViews? {
      var ready := Prepare(checked, waiting, env.snap);
      var items := Serving(waiting, ready.avoided, env.snap);
      var n := if env.failure.AfterJudging? && env.failure.judged < |items| then env.failure.judged else |items|;
      JudgeAllRadios(StartJudging(ready), items, n, env.snap);
    }
    UnjudgeRadios(judged, waiting, |waiting|, env.snap.now);
  }

  lemma PumpKeepsAvoided(g: Gate, env: Env, source: Source, until: int)
    requires AvoidedUntil(g.avoided, source, until) && until <= env.snap.now + AVOID
    requires Passes(g, env) ==> !SeenUp(Prepare(RunChecks(g, env), Waiting(g), env.snap), source)
    ensures AvoidedUntil(Pump(g, env).avoided, source, until)
  {
    hide Pump, Prepare, RunChecks, Waiting, SeenUp;
    if Waiting(g) == [] {
      PumpIdle(g, env);
    } else {
      PumpRadios(g, env);
      RunChecksAvoid(g, env);
      PrepareAvoids(RunChecks(g, env), Waiting(g), env.snap);
    }
  }

  lemma PumpIdle(g: Gate, env: Env)
    requires Waiting(g) == []
    ensures SameBesidesCalls(g, Pump(g, env))
  {
  }

  lemma PumpKeepsShield(g: Gate, env: Env, source: Source, until: int)
    requires ShieldedUntil(g.released, source, until) && env.snap.now < until
    ensures ShieldedUntil(Pump(g, env).released, source, until)
  {
    hide Pump, Prepare, RunChecks, Waiting;
    if Waiting(g) == [] {
      PumpIdle(g, env);
    } else {
      PumpRadios(g, env);
      RunChecksAvoid(g, env);
      PrepareAvoids(RunChecks(g, env), Waiting(g), env.snap);
    }
  }

  // ---- one step of a run ----

  lemma {:induction false} ReleaseWaitersRadios(g: Gate, leaving: seq<Waiter>, n: nat, now: int)
    requires n <= |leaving|
    ensures SameBesidesCalls(g, ReleaseWaiters(g, leaving, n, now))
  {
    if n > 0 {
      ReleaseWaitersRadios(g, leaving, n - 1, now);
    }
  }

  /** Only a pump changes the avoided radios; only a pump or a ticket given back, the graces. */
  lemma StepRadios(s: System, e: Event)
    requires Sound(s) && Enabled(s, e)
    ensures match PumpedBy(s, e)
            case None => SameRadios(s.gate, NextGate(s, e))
            case Some(g) => SameRadios(Pump(g, EnvOf(e)), NextGate(s, e)) && g.avoided == s.gate.avoided
  {
    hide Pump, Coherent, Release, GivenBack;
    if e.ReleaseCalls? {
      ReleaseWaitersRadios(s.gate, Leaving(s.gate, e.address), |Leaving(s.gate, e.address)|, e.at);
    } else if e.Finish? || e.CancelResumes? {
      ReleaseRadios(s.gate, e.id, e.Finish? && !e.ok, e.env);
    }
  }

  lemma ReleaseRadios(g: Gate, c: CallId, check: bool, env: Env)
    ensures match GivenBack(g, c, check, env.snap.now)
            case None => FutureOf(g, c).Done? ==> SameRadios(g, Release(g, FutureOf(g, c).admission, check, env))
            case Some(g') => FutureOf(g, c).Done? && g'.avoided == g.avoided
                             && Release(g, FutureOf(g, c).admission, check, env) == Pump(g', env)
  {
    hide Pump, GiveBack;
    if Carried(g, c).Some? && Carried(g, c).value < |g.objects| {
      GiveBackRadios(g, Carried(g, c).value, check, env.snap.now);
    }
  }

  lemma GiveBackRadios(g: Gate, id: TicketId, check: bool, now: int)
    requires id < |g.objects|
    ensures var g' := GiveBack(g, id, check, now);
            g'.avoided == g.avoided && (g'.objects[id].holders != 0 ==> g'.released == g.released)
  {
  }

  lemma StepKeepsAvoided(s: System, e: Event, source: Source, until: int)
    requires Sound(s) && Enabled(s, e) && AvoidedUntil(s.gate.avoided, source, until)
    requires until <= s.now + AVOID && !SawConnected(s, e, source)
    ensures AvoidedUntil(Next(s, e).gate.avoided, source, until)
  {
    hide NextGate, Pump, Sound, Passes, ConnectedOn;
    StepRadios(s, e);
    if PumpedBy(s, e).Some? {
      PumpKeepsAvoided(PumpedBy(s, e).value, EnvOf(e), source, until);
    }
  }

  /** A radio avoided until then stays avoided at least until then, unless a pass sees one of our
      tickets connected on it: later judgements only extend it. */
  lemma {:induction false} AvoidanceLasts(trace: seq<System>, events: seq<Event>, n: nat, m: nat, source: Source, until: int)
    requires IsRun(trace, events) && n <= m < |trace|
    requires AvoidedUntil(trace[n].gate.avoided, source, until) && until <= trace[n].now + AVOID
    requires forall k | n <= k < m :: !SawConnected(trace[k], events[k], source)
    ensures AvoidedUntil(trace[m].gate.avoided, source, until) && trace[n].now <= trace[m].now
  {
    hide NextGate, Sound, SawConnected;
    if n < m {
      AvoidanceLasts(trace, events, n, m - 1, source, until);
      RunsAreSound(trace, events, m - 1);
      assert StepAt(trace, events, m - 1);
      StepKeepsAvoided(trace[m - 1], events[m - 1], source, until);
    }
  }

  /** So every pass before then finds every path through it unfit. */
  lemma AvoidedPathsUnfit(trace: seq<System>, events: seq<Event>, n: nat, m: nat, source: Source, until: int, path: Path)
    requires IsRun(trace, events) && n <= m < |events|
    requires AvoidedUntil(trace[n].gate.avoided, source, until) && until <= trace[n].now + AVOID
    requires forall k | n <= k <= m :: !SawConnected(trace[k], events[k], source)
    requires PumpedBy(trace[m], events[m]).Some? && Passes(PumpedBy(trace[m], events[m]).value, EnvOf(events[m]))
    requires EnvOf(events[m]).snap.now < until && path.scanner.source == source
    ensures var g, env := PumpedBy(trace[m], events[m]).value, EnvOf(events[m]);
            && source in Prepare(RunChecks(g, env), Waiting(g), env.snap).avoided
            && Prepare(RunChecks(g, env), Waiting(g), env.snap).avoided[source] > env.snap.now
            && !Fit(path, Prepare(RunChecks(g, env), Waiting(g), env.snap).avoided, env.snap.now)
  {
    hide Pump, Prepare, RunChecks, Passes, SeenUp, Sound, NextGate, Waiting;
    AvoidanceLasts(trace, events, n, m, source, until);
    RunsAreSound(trace, events, m);
    assert StepAt(trace, events, m);
    StepRadios(trace[m], events[m]);
    var g, env := PumpedBy(trace[m], events[m]).value, EnvOf(events[m]);
    RunChecksAvoid(g, env);
    PrepareAvoids(RunChecks(g, env), Waiting(g), env.snap);
    assert AvoidedUntil(RunChecks(g, env).avoided, source, until);
    assert AvoidedUntil(Prepare(RunChecks(g, env), Waiting(g), env.snap).avoided, source, until);
  }

  // ---- the grace ----

  lemma GiveBackShields(g: Gate, id: TicketId, check: bool, now: int, source: Source, until: int)
    requires id < |g.objects|
    requires ShieldedUntil(g.released, source, until) && until <= now + RELEASE_GRACE
    ensures ShieldedUntil(GiveBack(g, id, check, now).released, source, until)
  {
  }

  lemma StepKeepsShield(s: System, e: Event, source: Source, until: int)
    requires Sound(s) && Enabled(s, e) && ShieldedUntil(s.gate.released, source, until)
    requires until <= s.now + RELEASE_GRACE && TimeOf(e, s.now) < until
    ensures ShieldedUntil(Next(s, e).gate.released, source, until)
  {
    hide NextGate, Pump, Sound, GiveBack;
    StepRadios(s, e);
    if PumpedBy(s, e).Some? {
      if (e.Finish? || e.CancelResumes?) && Carried(s.gate, e.id).Some? && Carried(s.gate, e.id).value < |s.gate.objects| {
        GiveBackShields(s.gate, Carried(s.gate, e.id).value, e.Finish? && !e.ok, e.env.snap.now, source, until);
      }
      PumpKeepsShield(PumpedBy(s, e).value, EnvOf(e), source, until);
    }
  }

  lemma {:induction false} ShieldLasts(trace: seq<System>, events: seq<Event>, n: nat, m: nat, source: Source, until: int)
    requires IsRun(trace, events) && n <= m < |trace|
    requires ShieldedUntil(trace[n].gate.released, source, until) && until <= trace[n].now + RELEASE_GRACE
    requires trace[m].now < until
    ensures ShieldedUntil(trace[m].gate.released, source, until) && trace[n].now <= trace[m].now
  {
    hide NextGate, Sound;
    if n < m {
      assert StepAt(trace, events, m - 1);
      ShieldLasts(trace, events, n, m - 1, source, until);
      RunsAreSound(trace, events, m - 1);
      StepKeepsShield(trace[m - 1], events[m - 1], source, until);
    }
  }

  /** From the pass pumped as a call gives back the last share of its ticket, and for the grace after
      it, no pass's own stuck check avoids the radio the ticket was on. */
  lemma GraceShields(trace: seq<System>, events: seq<Event>, n: nat, m: nat, id: TicketId)
    requires IsRun(trace, events) && n <= m < |events|
    requires events[n].Finish? || events[n].CancelResumes?
    requires Carried(trace[n].gate, events[n].id) == Some(id) && id < |trace[n].gate.objects|
    requires trace[n].gate.objects[id].holders == 1
    requires PumpedBy(trace[m], events[m]).Some? && EnvOf(events[m]).snap.now < trace[n + 1].now + RELEASE_GRACE
    ensures var g, env := PumpedBy(trace[m], events[m]).value, EnvOf(events[m]);
            var checked, source := RunChecks(g, env), trace[n].gate.objects[id].scanner.source;
            var ready := Prepare(checked, Waiting(g), env.snap);
            source in ready.avoided ==> source in checked.avoided && ready.avoided[source] == checked.avoided[source]
  {
    hide NextGate, Sound, Pump, Prepare, RunChecks, Waiting, GiveBack;
    var source, until := trace[n].gate.objects[id].scanner.source, trace[n + 1].now + RELEASE_GRACE;
    assert StepAt(trace, events, n);
    RunsAreSound(trace, events, n);
    StepRadios(trace[n], events[n]);
    LastShareShields(trace[n].gate, events[n].id, events[n].Finish? && !events[n].ok, events[n].env.snap.now);
    var g, env := PumpedBy(trace[m], events[m]).value, EnvOf(events[m]);
    if n < m {
      PumpKeepsShield(PumpedBy(trace[n], events[n]).value, EnvOf(events[n]), source, until);
      assert StepAt(trace, events, m);
      ShieldLasts(trace, events, n + 1, m, source, until);
      RunsAreSound(trace, events, m);
      PumpedShield(trace[m], events[m], source, until);
    }
    RunChecksAvoid(g, env);
    PrepareAvoids(RunChecks(g, env), Waiting(g), env.snap);
  }

  lemma LastShareShields(g: Gate, c: CallId, check: bool, now: int)
    requires Carried(g, c).Some? && Carried(g, c).value < |g.objects| && g.objects[Carried(g, c).value].holders == 1
    ensures GivenBack(g, c, check, now).Some?
    ensures ShieldedUntil(GivenBack(g, c, check, now).value.released, g.objects[Carried(g, c).value].scanner.source, now + RELEASE_GRACE)
  {
  }

  lemma PumpedShield(s: System, e: Event, source: Source, until: int)
    requires PumpedBy(s, e).Some? && ShieldedUntil(s.gate.released, source, until)
    requires until <= EnvOf(e).snap.now + RELEASE_GRACE
    ensures ShieldedUntil(PumpedBy(s, e).value.released, source, until)
  {
  }

  // ---- tickets follow their devices ----

  /** A ticket as a pass leaves it: on the first radio that lists its device, connected if nothing
      connects there and its link isn't being released; else where it was, not connected. */
  ghost predicate Follows(t: Ticket, t': Ticket, releasing: multiset<Address>, snap: Snapshot) {
    var paths := snap.paths(t.address);
    && t' == t.(scanner := t'.scanner, connected := t'.connected)
    && if forall p | p in paths :: !Lists(snap, p, t.address) then t'.scanner == t.scanner && !t'.connected
       else exists k :: FirstAt(paths, k, t.address, snap)
                        && t'.scanner == Scanner(paths[k].scanner.source, snap.instance(paths[k].scanner.source))
                        && (t'.connected <==> snap.read(t'.scanner).inProgress == 0 && releasing[t.address] == 0)
  }

  /** A pass moves each live ticket so, and touches no other. */
  lemma TicketsFollow(g: Gate, waiting: seq<Waiter>, snap: Snapshot, id: TicketId)
    requires MapSound(g) && id < |g.objects|
    ensures |Prepare(g, waiting, snap).objects| == |g.objects|
    ensures var t, t' := g.objects[id], Prepare(g, waiting, snap).objects[id];
            if g.Live(id) then Follows(t, t', g.releasing, snap) else t' == t
  {
    hide FirstListing, Lists;
    var t, t' := g.objects[id], Prepare(g, waiting, snap).objects[id];
    var paths, listing := snap.paths(t.address), FirstListing(snap.paths(t.address), t.address, snap);
    FirstListingIs(paths, t.address, snap);
    if g.Live(id) {
      assert t' == Refreshed(t, g.releasing, snap);
      if listing.Some? {
        var k :| FirstAt(paths, k, t.address, snap) && paths[k].scanner == listing.value;
        assert paths[k] in paths && Lists(snap, paths[k], t.address);
      }
    }
  }

  // ---- release checks ----

  /** The radio of a failed call's ticket is stuck still: it didn't connect the device, and that
      scanner still hears it. */
  predicate StillStuck(t: Ticket, snap: Snapshot) {
    var radio := snap.read(t.scanner);
    && !t.connected && !(t.address in radio.listed && radio.inProgress == 0)
    && (exists p | p in snap.paths(t.address) :: p.scanner == t.scanner)
    && LooksStuck(radio)
  }

  ghost predicate SomeStuck(g: Gate, due: seq<(int, TicketId)>, n: nat, source: Source, snap: Snapshot)
    requires n <= |due|
  {
    exists k :: 0 <= k < n && g.Object(due[k].1).scanner.source == source && StillStuck(g.Object(due[k].1), snap)
  }

  /** The due checks avoid exactly the radios still stuck. */
  lemma {:induction false} ChecksDecide(g: Gate, due: seq<(int, TicketId)>, n: nat, snap: Snapshot, source: Source)
    requires n <= |due|
    ensures var g' := CheckAll(g, due, n, snap);
            && g' == g.(avoided := g'.avoided)
            && if SomeStuck(g, due, n, source, snap) then source in g'.avoided && g'.avoided[source] == snap.now + AVOID
               else (source in g'.avoided <==> source in g.avoided) && (source in g.avoided ==> g'.avoided[source] == g.avoided[source])
  {
    hide StillStuck, CheckReleased;
    if n > 0 {
      ChecksDecide(g, due, n - 1, snap, source);
      CheckDecides(CheckAll(g, due, n - 1, snap), due[n - 1].1, snap);
      assert SomeStuck(g, due, n, source, snap) <==>
             SomeStuck(g, due, n - 1, source, snap)
             || (g.Object(due[n - 1].1).scanner.source == source && StillStuck(g.Object(due[n - 1].1), snap));
    }
  }

  lemma CheckDecides(g: Gate, id: TicketId, snap: Snapshot)
    ensures CheckReleased(g, id, snap)
         == if StillStuck(g.Object(id), snap) then Avoid(g, g.Object(id).scanner.source, snap.now) else g
  {
  }

  /** A check is due for a call that failed on the source, and finds its radio stuck still. */
  ghost predicate DueStuck(g: Gate, source: Source, snap: Snapshot) {
    exists c | c in g.checks ::
      c.0 <= snap.now && c.1 < |g.objects| && g.objects[c.1].scanner.source == source && StillStuck(g.objects[c.1], snap)
  }

  /** Every check is of a ticket issued. */
  ghost predicate ChecksReal(g: Gate) {
    forall c | c in g.checks :: c.1 < |g.objects|
  }

  /** Unless reading fails among them, the checks of a pump avoid, from now, exactly those radios. */
  lemma RunChecksDecide(g: Gate, env: Env, source: Source)
    requires !env.failure.InChecks? && ChecksReal(g)
    ensures var g' := RunChecks(g, env);
            && g' == g.(avoided := g'.avoided, checks := g'.checks)
            && if DueStuck(g, source, env.snap) then source in g'.avoided && g'.avoided[source] == env.snap.now + AVOID
               else (source in g'.avoided <==> source in g.avoided) && (source in g.avoided ==> g'.avoided[source] == g.avoided[source])
  {
    hide StillStuck, SomeStuck, DueStuck, CheckAll;
    var due := Due(g.checks, env.snap.now);
    ChecksDecide(g.(checks := NotDue(g.checks, env.snap.now)), due, |due|, env.snap, source);
    SomeDue(g, source, env.snap);
  }

  lemma SomeDue(g: Gate, source: Source, snap: Snapshot)
    requires ChecksReal(g)
    ensures var due := Due(g.checks, snap.now);
            SomeStuck(g.(checks := NotDue(g.checks, snap.now)), due, |due|, source, snap) <==> DueStuck(g, source, snap)
  {
    hide StillStuck;
    var due, after := Due(g.checks, snap.now), g.(checks := NotDue(g.checks, snap.now));
    FilterElements(g.checks, (c: (int, TicketId)) => c.0 <= snap.now);
    assert forall k | 0 <= k < |due| :: due[k] in due;
    if DueStuck(g, source, snap) {
      var c :| c in g.checks && c.0 <= snap.now && c.1 < |g.objects| && g.objects[c.1].scanner.source == source
               && StillStuck(g.objects[c.1], snap);
      assert c in due;
      var k :| 0 <= k < |due| && due[k] == c;
      assert after.Object(due[k].1) == g.objects[c.1];
    }
  }

  /** A pump with a call to judge runs the checks due, and keeps the others. */
  lemma PumpKeepsChecks(g: Gate, env: Env, c: (int, TicketId))
    ensures c in Pump(g, env).checks <==> c in g.checks && (Waiting(g) == [] || c.0 > env.snap.now)
  {
    hide Pump, Prepare, Waiting, Passes;
    if Waiting(g) == [] {
      PumpIdle(g, env);
    } else {
      PumpRadios(g, env);
      RunChecksAvoid(g, env);
      PrepareKeepsChecks(RunChecks(g, env), Waiting(g), env.snap);
      FilterElements(g.checks, (d: (int, TicketId)) => d.0 > env.snap.now);
    }
  }

  lemma PrepareKeepsChecks(g: Gate, waiting: seq<Waiter>, snap: Snapshot)
    ensures Prepare(g, waiting, snap).checks == g.checks
  {
  }

  /** As a call ends, its radio's check is queued, for when the grace is over, exactly if the call
      failed and was the last to hold its ticket. */
  lemma LastFailureChecked(s: System, e: Event, id: TicketId)
    requires Sound(s) && Enabled(s, e) && e.Finish? && Carried(s.gate, e.id) == Some(id)
    ensures id < |s.gate.objects|
    ensures var c := (e.env.snap.now + RELEASE_GRACE, id);
            c in NextGate(s, e).checks <==> c in s.gate.checks || (!e.ok && s.gate.objects[id].holders == 1)
  {
    hide Pump, SharesCounted, QueueSound;
    var g := s.gate;
    assert e.id in Open(s.phases);
    var c := (e.env.snap.now + RELEASE_GRACE, id);
    var g' := GiveBack(g, id, !e.ok, e.env.snap.now);
    if g'.objects[id].holders == 0 {
      PumpKeepsChecks(g', e.env, c);
    }
  }

  lemma StepKeepsChecksReal(s: System, e: Event)
    requires Sound(s) && Enabled(s, e) && ChecksReal(s.gate)
    ensures ChecksReal(NextGate(s, e))
  {
    hide Pump, Sound, Release, ReleaseAddress, NextGate, Enabled;
    StepKeepsSound(s, e);
    StepChecks(s, e);
    if PumpedBy(s, e).Some? {
      var g := PumpedBy(s, e).value;
      forall c | c in NextGate(s, e).checks ensures c in g.checks {
        PumpKeepsChecks(g, EnvOf(e), c);
      }
    }
  }

  /** Only a pump drops a check; only a ticket given back adds one, of that ticket. */
  lemma StepChecks(s: System, e: Event)
    requires Sound(s) && Enabled(s, e)
    ensures match PumpedBy(s, e)
            case None => NextGate(s, e).checks == s.gate.checks
            case Some(g) => NextGate(s, e).checks == Pump(g, EnvOf(e)).checks
                            && forall c | c in g.checks :: c in s.gate.checks || c.1 < |s.gate.objects|
  {
    hide Pump, Coherent, Release, GivenBack, Leave, QueueSound;
    if e.ReleaseCalls? {
      ReleaseWaitersRadios(s.gate, Leaving(s.gate, e.address), |Leaving(s.gate, e.address)|, e.at);
    } else if e.Finish? || e.CancelResumes? {
      ReleaseChecks(s.gate, e.id, e.Finish? && !e.ok, e.env);
      var future := FutureOf(s.gate, e.id);
      LeaveChecks(if e.CancelResumes? && future.Done? then Release(s.gate, future.admission, false, e.env) else s.gate, e.id);
    }
  }

  lemma LeaveChecks(g: Gate, c: CallId)
    ensures Leave(g, c).checks == g.checks
  {
  }

  lemma ReleaseChecks(g: Gate, c: CallId, check: bool, env: Env)
    ensures match GivenBack(g, c, check, env.snap.now)
            case None => FutureOf(g, c).Done? ==> Release(g, FutureOf(g, c).admission, check, env).checks == g.checks
            case Some(g') =>
              && FutureOf(g, c).Done? && Release(g, FutureOf(g, c).admission, check, env) == Pump(g', env)
              && forall d | d in g'.checks :: d in g.checks || d.1 < |g.objects|
  {
    hide Pump;
  }

  /** On every run. */
  lemma {:induction false} ChecksAlwaysReal(trace: seq<System>, events: seq<Event>, n: nat)
    requires IsRun(trace, events) && n < |trace|
    ensures ChecksReal(trace[n].gate)
  {
    hide NextGate, Sound;
    if n > 0 {
      ChecksAlwaysReal(trace, events, n - 1);
      RunsAreSound(trace, events, n - 1);
      assert StepAt(trace, events, n - 1);
      StepKeepsChecksReal(trace[n - 1], events[n - 1]);
    }
  }

  // ---- the count of deferred turn-offs ----

  lemma PumpKeepsDeferred(g: Gate, env: Env)
    ensures Pump(g, env).deferredOffs == g.deferredOffs
  {
    hide Pump, RunChecks, Waiting, Passes;
    if Waiting(g) == [] {
      PumpIdle(g, env);
    } else {
      PumpRadios(g, env);
      RunChecksAvoid(g, env);
    }
  }

  /** Only its own begin and end change the count of deferred turn-offs. */
  lemma OthersKeepDeferred(s: System, e: Event)
    requires !e.BeginDeferred? && !e.EndDeferred?
    ensures NextGate(s, e).deferredOffs == s.gate.deferredOffs
  {
    hide Pump, Release, Enqueue, OnTick;
    match e
    case Call(id, a, poll, last, env) => EnqueueKeepsDeferred(s.gate, Waiter(id, a, poll, env.snap.now, last), env);
    case Tick(env) => EnqueueKeepsDeferred(s.gate, Waiter(0, "", false, 0, false), env);
    case EndReleasing(a, env) => PumpKeepsDeferred(s.gate.(releasing := s.gate.releasing - multiset{a}), env);
    case Finish(id, ok, env) => if FutureOf(s.gate, id).Done? { ReleaseKeepsDeferred(s.gate, FutureOf(s.gate, id), !ok, env); }
    case CancelResumes(id, env) => if FutureOf(s.gate, id).Done? { ReleaseKeepsDeferred(s.gate, FutureOf(s.gate, id), false, env); }
    case ReleaseCalls(a, at) => ReleaseWaitersRadios(s.gate, Leaving(s.gate, a), |Leaving(s.gate, a)|, at);
    case _ =>
  }

  lemma EnqueueKeepsDeferred(g: Gate, w: Waiter, env: Env)
    ensures Enqueue(g, w, env).deferredOffs == g.deferredOffs
    ensures OnTick(g, env).deferredOffs == g.deferredOffs
  {
    hide Pump;
    PumpKeepsDeferred(g.(waiters := g.waiters + [w], futures := g.futures[w.id := Pending]), env);
    PumpKeepsDeferred(g.(ticking := false), env);
  }

  lemma ReleaseKeepsDeferred(g: Gate, future: Future, check: bool, env: Env)
    requires future.Done?
    ensures Release(g, future.admission, check, env).deferredOffs == g.deferredOffs
  {
    hide Pump;
    if future.admission.ticket.Some? && future.admission.ticket.value < |g.objects| {
      PumpKeepsDeferred(GiveBack(g, future.admission.ticket.value, check, env.snap.now), env);
    }
  }
}
