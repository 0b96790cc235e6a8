/** Runs of the gate: calls queue, wait, run and end, while the loop's other callbacks step in
    between. Each event is one stretch of the program between two suspension points. */
module GateRun {
  import opened Options
  import opened ConnectGate

  /** Queued: in `_async_wait`. Running: past it, its call under way. Over: left the gate. */
  datatype Phase = Queued | Running | Over

  datatype Event =
    | Call(id: CallId, address: Address, poll: bool, last: bool, env: Env)
    | Tick(env: Env)
    | Resume(id: CallId)
    | Finish(id: CallId, ok: bool, env: Env)
    | Cancel(id: CallId)
    | CancelResumes(id: CallId, env: Env)
    | ReleaseCalls(address: Address, at: int)
    | BeginReleasing(address: Address)
    | EndReleasing(address: Address, env: Env)
    | BeginDeferred
    | EndDeferred

  datatype System = System(gate: Gate, phases: map<CallId, Phase>, now: int)

  const START := System(INITIAL, map[], 0)

  /** When the event reads the clock, if it does. */
  function TimeOf(e: Event, now: int): int {
    match e
    case Call(_, _, _, _, env) => env.snap.now
    case Tick(env) => env.snap.now
    case Finish(_, _, env) => env.snap.now
    case CancelResumes(_, env) => env.snap.now
    case EndReleasing(_, env) => env.snap.now
    case ReleaseCalls(_, at) => at
    case _ => now
  }

  predicate InPhase(s: System, id: CallId, phase: Phase) {
    id in s.phases && s.phases[id] == phase
  }

  function FutureOf(g: Gate, id: CallId): Future {
    if id in g.futures then g.futures[id] else Pending
  }

  /** What can happen next: the clock never goes back, a call's id is new, a timer fires only while
      armed, an end follows its begin once (its callback's `ended` flag sees to that). */
  predicate Enabled(s: System, e: Event) {
    && s.now <= TimeOf(e, s.now)
    && match e
       case Call(id, _, _, _, _) => id !in s.phases
       case Tick(_) => s.gate.ticking
       case Resume(id) => InPhase(s, id, Queued) && FutureOf(s.gate, id).Done?
       case Finish(id, _, _) => InPhase(s, id, Running)
       case Cancel(id) => InPhase(s, id, Queued) && FutureOf(s.gate, id).Pending?
       case CancelResumes(id, _) => InPhase(s, id, Queued) && !FutureOf(s.gate, id).Pending?
       case EndReleasing(a, _) => a in s.gate.releasing
       case EndDeferred => s.gate.deferredOffs > 0
       case _ => true
  }

  function NextGate(s: System, e: Event): Gate {
    var g := s.gate;
    match e
    case Call(id, a, poll, last, env) => Enqueue(g, Waiter(id, a, poll, env.snap.now, last), env)
    case Tick(env) => OnTick(g, env)
    case Resume(_) => g
    case Finish(id, ok, env) =>
      if FutureOf(g, id).Done? then Release(g, FutureOf(g, id).admission, !ok, env) else g
    case Cancel(id) => g.(futures := g.futures[id := Cancelled])
    case CancelResumes(id, env) =>
      Leave(if FutureOf(g, id).Done? then Release(g, FutureOf(g, id).admission, false, env) else g, id)
    case ReleaseCalls(a, at) => ReleaseAddress(g, a, at)
    case BeginReleasing(a) => g.(releasing := g.releasing + multiset{a})
    case EndReleasing(a, env) => Pump(g.(releasing := g.releasing - multiset{a}), env)
    case BeginDeferred => g.(deferredOffs := g.deferredOffs + 1)
    case EndDeferred => g.(deferredOffs := g.deferredOffs - 1)
  }

  function NextPhases(phases: map<CallId, Phase>, e: Event): map<CallId, Phase> {
    match e
    case Call(id, _, _, _, _) => phases[id := Queued]
    case Resume(id) => phases[id := Running]
    case Finish(id, _, _) => phases[id := Over]
    case CancelResumes(id, _) => phases[id := Over]
    case _ => phases
  }

  function Next(s: System, e: Event): System {
    System(NextGate(s, e), NextPhases(s.phases, e), TimeOf(e, s.now))
  }

  ghost predicate StepAt(trace: seq<System>, events: seq<Event>, k: nat)
    requires k < |events| && |trace| == |events| + 1
  {
    Enabled(trace[k], events[k]) && trace[k + 1] == Next(trace[k], events[k])
  }

  /** A run from the start: the systems it passes through, and the events between them. */
  ghost predicate IsRun(trace: seq<System>, events: seq<Event>) {
    && |trace| == |events| + 1
    && trace[0] == START
    && (forall k: nat | k < |events| :: StepAt(trace, events, k))
  }
}
