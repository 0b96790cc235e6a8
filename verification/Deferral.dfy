/** Turn-offs of devices already off, waiting for the commands already running to others: the waits,
    the burst tracker and the connect gate they are counted in, as one system. Each event is one
    stretch of the program between two suspension points. */
module Deferral {
  import opened Options
  import opened Counting
  import B = Burst
  import Gates = GateRun
  import GateAvoid

  type Address = string
  type Entity = nat
  type Id = nat

  /** Starting: lets its loop steps pass. Waiting: for the devices left of those that had a command,
      its outcome (whether to send) set by the first ending. */
  datatype Stage = Starting(removals: nat) | Waiting(waitingFor: set<Address>, outcome: Option<bool>) | Sending | Ended

  datatype TurnOff = TurnOff(entity: Entity, address: Address, stage: Stage)

  datatype System = System(
    burst: B.Burst, gates: Gates.System, turnOffs: map<Id, TurnOff>, offs: set<Address>, removals: map<Entity, nat>)

  const START := System(B.QUIET, Gates.START, map[], {}, map[])

  datatype Event =
    | CommandStarts(a: Address)
    | CommandEnds(a: Address, loaded: bool)
    | Begins(id: Id, entity: Entity, a: Address)
    | Looks(id: Id, stopping: bool, linkUp: bool)
    | CapReached(id: Id)
    | Stopping
    | Hurry(entity: Entity)
    | Drop(entity: Entity)
    | Resumes(id: Id, loaded: bool)
    | Cancelled(id: Id, loaded: bool)
    | Sent(id: Id)
    | BurstStep(burst: B.Event)
    | GateStep(gate: Gates.Event)

  /** The other devices a command runs to, a turn-off being sent to one already off not counting. */
  function Others(s: System, a: Address): set<Address> {
    s.burst.running.Keys - {a} - s.offs
  }

  function RemovalsOf(s: System, entity: Entity): nat {
    if entity in s.removals then s.removals[entity] else 0
  }

  predicate IsWaiting(s: System, id: Id) {
    id in s.turnOffs && s.turnOffs[id].stage.Waiting?
  }

  /** Ends a wait, unless another ending came first. */
  function EndStage(stage: Stage, send: bool): Stage {
    if stage.Waiting? && stage.outcome.None? then stage.(outcome := Some(send)) else stage
  }

  function EndWait(t: TurnOff, send: bool): TurnOff {
    t.(stage := EndStage(t.stage, send))
  }

  function EndWaits(s: System, ids: set<Id>, send: bool): System {
    s.(turnOffs := map id | id in s.turnOffs :: if id in ids then EndWait(s.turnOffs[id], send) else s.turnOffs[id])
  }

  function OfEntity(s: System, entity: Entity): set<Id> {
    set id | id in s.turnOffs && s.turnOffs[id].entity == entity
  }

  /** A command started or ended: each wait drops the devices with none running, and ends once none
      is left. */
  function NarrowStage(stage: Stage, others: set<Address>): Stage {
    if !stage.Waiting? then stage
    else
      var left := stage.waitingFor * others;
      if left == {} then EndStage(stage.(waitingFor := left), true) else stage.(waitingFor := left)
  }

  function Narrow(t: TurnOff, others: set<Address>): TurnOff {
    t.(stage := NarrowStage(t.stage, others))
  }

  function Notify(s: System): System {
    s.(turnOffs := map id | id in s.turnOffs :: Narrow(s.turnOffs[id], Others(s, s.turnOffs[id].address)))
  }

  function SetStage(s: System, id: Id, stage: Stage): System
    requires id in s.turnOffs
  {
    s.(turnOffs := s.turnOffs[id := s.turnOffs[id].(stage := stage)])
  }

  function StartSending(s: System, id: Id): System
    requires id in s.turnOffs
  {
    SetStage(s, id, Sending).(offs := s.offs + {s.turnOffs[id].address})
  }

  /** Counts a wait: toward the burst, and at the connect gate. */
  function NoteWaiting(s: System, a: Address): System {
    s.(burst := B.Next(s.burst, B.DeferredStarted(a)), gates := Gates.Next(s.gates, Gates.BeginDeferred))
  }

  /** Ends both counts. */
  function EndWaiting(s: System, a: Address, loaded: bool): System {
    s.(burst := B.Next(s.burst, B.DeferredFinished(a, loaded)), gates := Gates.Next(s.gates, Gates.EndDeferred))
  }

  function Look(s: System, id: Id, stopping: bool, linkUp: bool): System
    requires id in s.turnOffs && s.turnOffs[id].stage.Starting?
  {
    var t := s.turnOffs[id];
    var others := Others(s, t.address);
    if RemovalsOf(s, t.entity) != t.stage.removals then SetStage(s, id, Ended)
    else if stopping || others == {} || linkUp then StartSending(s, id)
    else NoteWaiting(SetStage(s, id, Waiting(others, None)), t.address)
  }

  predicate Enabled(s: System, e: Event) {
    match e
    case Begins(id, _, _) => id !in s.turnOffs
    case Looks(id, _, _) => id in s.turnOffs && s.turnOffs[id].stage.Starting?
    case CapReached(id) => IsWaiting(s, id)
    case Resumes(id, _) => IsWaiting(s, id) && s.turnOffs[id].stage.outcome.Some?
    case Cancelled(id, _) => id in s.turnOffs && !s.turnOffs[id].stage.Ended?
    case Sent(id) => id in s.turnOffs && s.turnOffs[id].stage.Sending?
    case BurstStep(b) =>
      (b.Unload? || b.TailEnds? || b.OpenWindow? || b.CloseWindow?) && (b.TailEnds? ==> s.burst.tailArmed)
    case GateStep(g) => !g.BeginDeferred? && !g.EndDeferred? && Gates.Enabled(s.gates, g)
    case _ => true
  }

  function Next(s: System, e: Event): System
    requires Enabled(s, e)
  {
    match e
    case CommandStarts(a) => Notify(s.(burst := B.Next(s.burst, B.CommandStarted(a))))
    case CommandEnds(a, loaded) => Notify(s.(burst := B.Next(s.burst, B.CommandFinished(a, loaded))))
    case Begins(id, entity, a) =>
      s.(turnOffs := s.turnOffs[id := TurnOff(entity, a, Starting(RemovalsOf(s, entity)))])
    case Looks(id, stopping, linkUp) => Look(s, id, stopping, linkUp)
    case CapReached(id) => EndWaits(s, {id}, true)
    case Stopping => EndWaits(s, s.turnOffs.Keys, false)
    case Hurry(entity) => EndWaits(s, OfEntity(s, entity), true)
    case Drop(entity) =>
      EndWaits(s.(removals := s.removals[entity := RemovalsOf(s, entity) + 1]), OfEntity(s, entity), false)
    case Resumes(id, loaded) =>
      var s' := EndWaiting(s, s.turnOffs[id].address, loaded);
      if s.turnOffs[id].stage.outcome.value then StartSending(s', id) else SetStage(s', id, Ended)
    case Cancelled(id, loaded) =>
      var t := s.turnOffs[id];
      if t.stage.Waiting? then SetStage(EndWaiting(s, t.address, loaded), id, Ended)
      else if t.stage.Sending? then SetStage(s, id, Ended).(offs := s.offs - {t.address})
      else SetStage(s, id, Ended)
    case Sent(id) => SetStage(s, id, Ended).(offs := s.offs - {s.turnOffs[id].address})
    case BurstStep(b) => s.(burst := B.Next(s.burst, b))
    case GateStep(g) => s.(gates := Gates.Next(s.gates, g))
  }

  ghost predicate StepAt(trace: seq<System>, events: seq<Event>, k: nat)
    requires k < |events| && |trace| == |events| + 1
  {
    Enabled(trace[k], events[k]) && trace[k + 1] == Next(trace[k], events[k])
  }

  ghost predicate IsRun(trace: seq<System>, events: seq<Event>) {
    && |trace| == |events| + 1
    && trace[0] == START
    && (forall k: nat | k < |events| :: StepAt(trace, events, k))
  }

  // ---- the counts agree ----

  function WaitingIds(s: System): set<Id> {
    set id | id in s.turnOffs && s.turnOffs[id].stage.Waiting?
  }

  function WaitingAt(s: System, a: Address): set<Id> {
    set id | id in s.turnOffs && s.turnOffs[id].stage.Waiting? && s.turnOffs[id].address == a
  }

  /** The gate counts every live wait, the burst each device's. */
  ghost predicate Counted(s: System) {
    && s.gates.gate.deferredOffs == |WaitingIds(s)|
    && (forall a :: B.CountOf(s.burst.deferred, a) == |WaitingAt(s, a)|)
    && B.Positive(s.burst.deferred)
  }

  /** Neither the stages nor the counts change. */
  ghost predicate SameWaits(s: System, s': System) {
    && s'.turnOffs.Keys == s.turnOffs.Keys
    && (forall id | id in s.turnOffs ::
          s'.turnOffs[id].address == s.turnOffs[id].address
          && (s'.turnOffs[id].stage.Waiting? <==> s.turnOffs[id].stage.Waiting?))
    && s'.burst.deferred == s.burst.deferred
    && s'.gates.gate.deferredOffs == s.gates.gate.deferredOffs
  }

  lemma SameWaitsCounted(s: System, s': System)
    requires Counted(s) && SameWaits(s, s')
    ensures Counted(s')
  {
    assert WaitingIds(s') == WaitingIds(s);
    forall a ensures WaitingAt(s', a) == WaitingAt(s, a) {}
  }

  lemma OneLessCount(counts: map<Address, nat>, a: Address, b: Address)
    requires B.Positive(counts) && a in counts
    ensures B.CountOf(B.OneLess(counts, a), b) == B.CountOf(counts, b) - if a == b then 1 else 0
    ensures B.Positive(B.OneLess(counts, a))
  {
  }

  lemma OneMoreCount(counts: map<Address, nat>, a: Address, b: Address)
    requires B.Positive(counts)
    ensures B.CountOf(B.OneMore(counts, a), b) == B.CountOf(counts, b) + if a == b then 1 else 0
    ensures B.Positive(B.OneMore(counts, a))
  {
  }

  /** Of the turn-offs only this one changes, and `after` has it waiting where `before` hadn't. */
  predicate Joins(before: map<Id, TurnOff>, after: map<Id, TurnOff>, id: Id) {
    && id in before && !before[id].stage.Waiting?
    && id in after && after[id].stage.Waiting? && after[id].address == before[id].address
    && after == before[id := after[id]]
  }

  lemma JoinsSets(s: System, s': System, id: Id)
    requires Joins(s.turnOffs, s'.turnOffs, id)
    ensures id !in WaitingIds(s) && WaitingIds(s') == WaitingIds(s) + {id}
    ensures var at := s.turnOffs[id].address;
            && id !in WaitingAt(s, at) && WaitingAt(s', at) == WaitingAt(s, at) + {id}
            && forall a | a != at :: WaitingAt(s', a) == WaitingAt(s, a)
  {
    var at := s.turnOffs[id].address;
    assert WaitingIds(s') == WaitingIds(s) + {id};
    assert WaitingAt(s', at) == WaitingAt(s, at) + {id};
    forall a | a != at ensures WaitingAt(s', a) == WaitingAt(s, a) {}
  }

  /** A wait begins: each count is one more. */
  lemma WaitBegins(s: System, s': System, id: Id)
    requires Counted(s) && Joins(s.turnOffs, s'.turnOffs, id)
    requires s'.burst.deferred == B.OneMore(s.burst.deferred, s.turnOffs[id].address)
    requires s'.gates.gate.deferredOffs == s.gates.gate.deferredOffs + 1
    ensures Counted(s')
  {
    hide B.OneMore, B.CountOf, B.Positive, WaitingIds, WaitingAt;
    var at := s.turnOffs[id].address;
    JoinsSets(s, s', id);
    forall a ensures B.CountOf(s'.burst.deferred, a) == |WaitingAt(s', a)| {
      OneMoreCount(s.burst.deferred, at, a);
    }
    OneMoreCount(s.burst.deferred, at, at);
  }

  /** A wait ends, whichever way: each count is one less. */
  lemma WaitEnds(s: System, s': System, id: Id)
    requires Counted(s) && IsWaiting(s, id)
    requires id in s'.turnOffs && !s'.turnOffs[id].stage.Waiting? && s'.turnOffs[id].address == s.turnOffs[id].address
    requires s'.turnOffs == s.turnOffs[id := s'.turnOffs[id]]
    requires s'.burst.deferred == B.OneLess(s.burst.deferred, s.turnOffs[id].address)
    requires s'.gates.gate.deferredOffs == s.gates.gate.deferredOffs - 1
    ensures Counted(s')
  {
    hide B.OneLess, B.Positive, WaitingIds, WaitingAt;
    var at := s.turnOffs[id].address;
    assert s.turnOffs == s'.turnOffs[id := s.turnOffs[id]];
    JoinsSets(s', s, id);
    assert B.CountOf(s.burst.deferred, at) == |WaitingAt(s, at)|;
    forall a ensures B.CountOf(s'.burst.deferred, a) == |WaitingAt(s', a)| {
      assert B.CountOf(s.burst.deferred, a) == |WaitingAt(s, a)|;
      OneLessCount(s.burst.deferred, at, a);
    }
    OneLessCount(s.burst.deferred, at, at);
  }

  lemma StepKeepsCounted(s: System, e: Event)
    requires Counted(s) && Enabled(s, e)
    ensures Counted(Next(s, e))
  {
    hide Counted, B.Next, Gates.NextGate, Gates.Enabled;
    var s' := Next(s, e);
    match e
    case CommandStarts(a) => B.StepCounts(s.burst, B.CommandStarted(a)); SameWaitsCounted(s, s');
    case CommandEnds(a, loaded) => B.StepCounts(s.burst, B.CommandFinished(a, loaded)); SameWaitsCounted(s, s');
    case Begins(id, entity, a) => NewcomerCounted(s, s', id);
    case Looks(id, stopping, linkUp) => LookKeepsCounted(s, id, stopping, linkUp);
    case Resumes(id, loaded) => LeaveKeepsCounted(s, e);
    case Cancelled(id, loaded) => LeaveKeepsCounted(s, e);
    case BurstStep(b) => B.StepCounts(s.burst, b); SameWaitsCounted(s, s');
    case GateStep(g) => GateAvoid.OthersKeepDeferred(s.gates, g); SameWaitsCounted(s, s');
    case _ => SameWaitsCounted(s, s');
  }

  /** A turn-off's task resumes, or is cancelled wherever it is. */
  lemma LeaveKeepsCounted(s: System, e: Event)
    requires Counted(s) && Enabled(s, e) && (e.Resumes? || e.Cancelled?)
    ensures Counted(Next(s, e))
  {
    hide Counted, B.Next, Gates.NextGate, Gates.Enabled;
    if s.turnOffs[e.id].stage.Waiting? {
      B.StepCounts(s.burst, B.DeferredFinished(s.turnOffs[e.id].address, e.loaded));
      GateCounts(s.gates);
      WaitEnds(s, Next(s, e), e.id);
    } else {
      SameWaitsCounted(s, Next(s, e));
    }
  }

  lemma GateCounts(s: Gates.System)
    ensures Gates.Next(s, Gates.BeginDeferred).gate.deferredOffs == s.gate.deferredOffs + 1
    ensures Gates.Next(s, Gates.EndDeferred).gate.deferredOffs == s.gate.deferredOffs - 1
  {
  }

  lemma NewcomerCounted(s: System, s': System, id: Id)
    requires Counted(s) && id !in s.turnOffs && s' == s.(turnOffs := s'.turnOffs) && id in s'.turnOffs
    requires s'.turnOffs == s.turnOffs[id := s'.turnOffs[id]] && !s'.turnOffs[id].stage.Waiting?
    ensures Counted(s')
  {
    assert WaitingIds(s') == WaitingIds(s);
    forall a ensures WaitingAt(s', a) == WaitingAt(s, a) {}
  }

  lemma LookKeepsCounted(s: System, id: Id, stopping: bool, linkUp: bool)
    requires Counted(s) && id in s.turnOffs && s.turnOffs[id].stage.Starting?
    ensures Counted(Look(s, id, stopping, linkUp))
  {
    hide Counted, B.Next, Gates.NextGate;
    var s' := Look(s, id, stopping, linkUp);
    B.StepCounts(s.burst, B.DeferredStarted(s.turnOffs[id].address));
    GateCounts(s.gates);
    if s'.turnOffs[id].stage.Waiting? {
      WaitBegins(s, s', id);
    } else {
      SameWaitsCounted(s, s');
    }
  }

  /** The sum of a map's counts. */
  ghost function Total(counts: map<Address, nat>): nat
    decreases |counts|
  {
    if counts == map[] then 0
    else var a :| a in counts; counts[a] + Total(counts - {a})
  }

  lemma {:induction false} TotalWithout(counts: map<Address, nat>, a: Address)
    requires a in counts
    ensures Total(counts) == counts[a] + Total(counts - {a})
    decreases |counts|
  {
    var b :| b in counts && Total(counts) == counts[b] + Total(counts - {b});
    if a != b {
      TotalWithout(counts - {b}, a);
      TotalWithout(counts - {a}, b);
      assert counts - {a} - {b} == counts - {b} - {a};
    }
  }

  function At(ids: set<Id>, turnOffs: map<Id, TurnOff>, a: Address): set<Id> {
    set id | id in ids && id in turnOffs && turnOffs[id].address == a
  }

  ghost predicate CountsOf(counts: map<Address, nat>, ids: set<Id>, turnOffs: map<Id, TurnOff>) {
    forall a :: B.CountOf(counts, a) == |At(ids, turnOffs, a)|
  }

  lemma NoneCounted(ids: set<Id>, turnOffs: map<Id, TurnOff>)
    requires ids <= turnOffs.Keys && CountsOf(map[], ids, turnOffs)
    ensures ids == {}
  {
    if ids != {} {
      var id :| id in ids;
      var a := turnOffs[id].address;
      assert id in At(ids, turnOffs, a);
      NoneAt(ids, turnOffs, a);
    }
  }

  lemma NoneAt(ids: set<Id>, turnOffs: map<Id, TurnOff>, a: Address)
    requires CountsOf(map[], ids, turnOffs)
    ensures At(ids, turnOffs, a) == {}
  {
    assert B.CountOf(map[], a) == |At(ids, turnOffs, a)|;
    if At(ids, turnOffs, a) != {} {
      assert false;
    }
  }

  lemma RestCounted(counts: map<Address, nat>, a: Address, ids: set<Id>, turnOffs: map<Id, TurnOff>)
    requires CountsOf(counts, ids, turnOffs)
    ensures CountsOf(counts - {a}, ids - At(ids, turnOffs, a), turnOffs)
  {
    var rest := ids - At(ids, turnOffs, a);
    forall b ensures B.CountOf(counts - {a}, b) == |At(rest, turnOffs, b)| {
      assert B.CountOf(counts, b) == |At(ids, turnOffs, b)|;
      assert At(rest, turnOffs, b) == if b == a then {} else At(ids, turnOffs, b);
    }
  }

  lemma {:induction false} TotalCounts(counts: map<Address, nat>, ids: set<Id>, turnOffs: map<Id, TurnOff>)
    requires ids <= turnOffs.Keys && CountsOf(counts, ids, turnOffs)
    ensures Total(counts) == |ids|
    decreases |counts|
  {
    if counts == map[] {
      NoneCounted(ids, turnOffs);
    } else {
      var a :| a in counts;
      var here := At(ids, turnOffs, a);
      assert B.CountOf(counts, a) == |here|;
      TotalWithout(counts, a);
      RestCounted(counts, a, ids, turnOffs);
      TotalCounts(counts - {a}, ids - here, turnOffs);
      assert ids == here + (ids - here);
    }
  }

  /** On every run, however each wait ends: the gate's count, the sum of the burst's counts and the
      number of live waits are the same. */
  lemma {:induction false} CountsAgree(trace: seq<System>, events: seq<Event>, n: nat)
    requires IsRun(trace, events) && n < |trace|
    ensures Counted(trace[n])
    ensures trace[n].gates.gate.deferredOffs == Total(trace[n].burst.deferred) == |WaitingIds(trace[n])|
  {
    hide Next, Enabled;
    if n > 0 {
      CountsAgree(trace, events, n - 1);
      assert StepAt(trace, events, n - 1);
      StepKeepsCounted(trace[n - 1], events[n - 1]);
    }
    var s := trace[n];
    forall a ensures WaitingAt(s, a) == At(WaitingIds(s), s.turnOffs, a) {}
    TotalCounts(s.burst.deferred, WaitingIds(s), s.turnOffs);
  }

  // ---- the wait set ----

  predicate IsCommandEvent(e: Event) {
    e.CommandStarts? || e.CommandEnds?
  }

  /** A command to the device has started and not ended yet. */
  predicate Commanding(events: seq<Event>, n: nat, device: Address)
    requires n <= |events|
  {
    Commands(events, n, device) > 0
  }

  function Commands(events: seq<Event>, n: nat, device: Address): nat
    requires n <= |events|
  {
    Outstanding(events, n, (e: Event) => e == CommandStarts(device), (e: Event) => e.CommandEnds? && e.a == device)
  }

  lemma RunningStep(s: System, e: Event)
    requires Enabled(s, e)
    ensures Next(s, e).burst.running == match e
              case CommandStarts(a) => B.OneMore(s.burst.running, a)
              case CommandEnds(a, _) => B.OneLess(s.burst.running, a)
              case _ => s.burst.running
  {
    hide B.Next, Gates.Next, Gates.Enabled, B.OneMore, B.OneLess;
    match e
    case CommandStarts(a) => B.StepCounts(s.burst, B.CommandStarted(a));
    case CommandEnds(a, loaded) => B.StepCounts(s.burst, B.CommandFinished(a, loaded));
    case Looks(id, _, _) => B.StepCounts(s.burst, B.DeferredStarted(s.turnOffs[id].address));
    case Resumes(id, loaded) => B.StepCounts(s.burst, B.DeferredFinished(s.turnOffs[id].address, loaded));
    case Cancelled(id, loaded) => B.StepCounts(s.burst, B.DeferredFinished(s.turnOffs[id].address, loaded));
    case BurstStep(b) => B.StepCounts(s.burst, b);
    case _ =>
  }

  /** On every run a device counts as many commands as started and have not ended. */
  lemma {:induction false} CommandsExact(trace: seq<System>, events: seq<Event>, n: nat, device: Address)
    requires IsRun(trace, events) && n < |trace|
    ensures B.Counts(trace[n].burst.running, device, Commands(events, n, device))
  {
    hide Next, Enabled;
    if n > 0 {
      CommandsExact(trace, events, n - 1, device);
      assert StepAt(trace, events, n - 1);
      RunningStep(trace[n - 1], events[n - 1]);
    }
  }

  /** After the `n`-th event the device, another than `a`, has a command that hasn't ended, and isn't
      set aside. */
  ghost predicate CountsThen(trace: seq<System>, events: seq<Event>, n: nat, a: Address, device: Address)
    requires n < |trace| && |trace| == |events| + 1
  {
    device != a && Commanding(events, n, device) && !SetAside(trace, events, n, device)
  }

  lemma OthersAre(trace: seq<System>, events: seq<Event>, n: nat, a: Address)
    requires IsRun(trace, events) && n < |trace|
    ensures forall d :: d in Others(trace[n], a) <==> CountsThen(trace, events, n, a, d)
  {
    hide StepAt, SetAside, Commands;
    forall d ensures d in Others(trace[n], a) <==> CountsThen(trace, events, n, a, d) {
      CommandsExact(trace, events, n, d);
      OffsExact(trace, events, n, d);
    }
  }

  /** The device counted when the turn-off looked, at step `from`, and at every command event since. */
  ghost predicate CountedSince(trace: seq<System>, events: seq<Event>, from: nat, n: nat, a: Address, device: Address)
    requires from < n < |trace| && |trace| == |events| + 1
  {
    forall k | from <= k < n && (k == from || IsCommandEvent(events[k])) :: CountsThen(trace, events, k + 1, a, device)
  }

  /** How one event changes a wait: a command event narrows it to the devices that count then. */
  lemma WaitStep(s: System, e: Event, id: Id)
    requires Enabled(s, e) && IsWaiting(s, id) && IsWaiting(Next(s, e), id)
    ensures var t, t' := s.turnOffs[id], Next(s, e).turnOffs[id];
            && t'.address == t.address && t'.entity == t.entity
            && t'.stage.waitingFor == t.stage.waitingFor * (if IsCommandEvent(e) then Others(Next(s, e), t.address) else t.stage.waitingFor)
            && (t.stage.outcome.Some? ==> t'.stage.outcome == t.stage.outcome)
            && ((t.stage.waitingFor == {} ==> t.stage.outcome.Some?) ==> (t'.stage.waitingFor == {} ==> t'.stage.outcome.Some?))
  {
    hide B.Next, Gates.Next, Gates.Enabled;
  }

  /** Once over, a turn-off stays over; once past its look, it never looks again. */
  lemma StageStep(s: System, e: Event, id: Id)
    requires Enabled(s, e) && id in s.turnOffs
    ensures id in Next(s, e).turnOffs && Next(s, e).turnOffs[id].address == s.turnOffs[id].address
    ensures IsWaiting(Next(s, e), id) ==> IsWaiting(s, id) || (e.Looks? && e.id == id && s.turnOffs[id].stage.Starting?)
    ensures Next(s, e).turnOffs[id].stage.Starting? ==> s.turnOffs[id].stage.Starting?
  {
    hide B.Next, Gates.Next, Gates.Enabled;
  }

  lemma {:induction false} PastLook(trace: seq<System>, events: seq<Event>, from: nat, n: nat, id: Id)
    requires IsRun(trace, events) && from <= n < |trace|
    requires id in trace[from].turnOffs && !trace[from].turnOffs[id].stage.Starting?
    ensures id in trace[n].turnOffs && !trace[n].turnOffs[id].stage.Starting?
  {
    hide Next, Enabled;
    if from < n {
      PastLook(trace, events, from, n - 1, id);
      assert StepAt(trace, events, n - 1);
      StageStep(trace[n - 1], events[n - 1], id);
    }
  }

  /** What a turn-off waits for at any moment is exactly the other devices whose commands went on
      from its look through every command event since. So the set only shrinks, a command started
      later never prolongs the wait, and a wait with nothing left has its outcome. */
  lemma {:induction false} WaitsForExactly(trace: seq<System>, events: seq<Event>, from: nat, n: nat, id: Id)
    requires IsRun(trace, events) && from < n < |trace|
    requires events[from].Looks? && events[from].id == id && IsWaiting(trace[from + 1], id) && IsWaiting(trace[n], id)
    ensures id in trace[from].turnOffs && trace[n].turnOffs[id].address == trace[from].turnOffs[id].address
    ensures var t := trace[n].turnOffs[id];
            && (forall d :: d in t.stage.waitingFor <==> CountedSince(trace, events, from, n, t.address, d))
            && (t.stage.waitingFor == {} ==> t.stage.outcome.Some?)
  {
    hide Next, Enabled, Others, CountsThen;
    assert StepAt(trace, events, n - 1);
    assert StepAt(trace, events, from);
    if n == from + 1 {
      OthersAre(trace, events, n, trace[n].turnOffs[id].address);
      LookTakes(trace[from], events[from]);
    } else {
      var last := n - 1;
      assert !trace[from + 1].turnOffs[id].stage.Starting?;
      PastLook(trace, events, from + 1, last, id);
      StageStep(trace[last], events[last], id);
      WaitsForExactly(trace, events, from, last, id);
      WaitStep(trace[last], events[last], id);
      var a := trace[n].turnOffs[id].address;
      OthersAre(trace, events, n, a);
      forall d ensures d in trace[n].turnOffs[id].stage.waitingFor <==> CountedSince(trace, events, from, n, a, d) {
        assert CountedSince(trace, events, from, n, a, d) <==>
               CountedSince(trace, events, from, last, a, d) && (IsCommandEvent(events[last]) ==> CountsThen(trace, events, n, a, d));
      }
    }
  }

  lemma LookTakes(s: System, e: Event)
    requires Enabled(s, e) && e.Looks? && IsWaiting(Next(s, e), e.id)
    ensures e.id in s.turnOffs
    ensures var t := Next(s, e).turnOffs[e.id];
            && t.address == s.turnOffs[e.id].address
            && t.stage == Waiting(Others(Next(s, e), t.address), None) && t.stage.waitingFor != {}
  {
    hide Gates.Next;
  }

  /** The first ending decides: a wait's outcome never changes. */
  lemma {:induction false} OutcomeKept(trace: seq<System>, events: seq<Event>, n: nat, m: nat, id: Id)
    requires IsRun(trace, events) && n <= m < |trace|
    requires IsWaiting(trace[n], id) && trace[n].turnOffs[id].stage.outcome.Some? && IsWaiting(trace[m], id)
    ensures trace[m].turnOffs[id].stage.outcome == trace[n].turnOffs[id].stage.outcome
  {
    hide Next, Enabled, Others;
    if n < m {
      assert StepAt(trace, events, m - 1);
      PastLook(trace, events, n, m - 1, id);
      StageStep(trace[m - 1], events[m - 1], id);
      OutcomeKept(trace, events, n, m - 1, id);
      WaitStep(trace[m - 1], events[m - 1], id);
    }
  }

  /** And it is what its coroutine resumes with: the turn-off is sent, or dropped. */
  lemma FirstEndingDecides(trace: seq<System>, events: seq<Event>, n: nat, m: nat, id: Id)
    requires IsRun(trace, events) && n <= m < |events|
    requires IsWaiting(trace[n], id) && trace[n].turnOffs[id].stage.outcome.Some?
    requires events[m].Resumes? && events[m].id == id
    ensures id in trace[m + 1].turnOffs
    ensures trace[m + 1].turnOffs[id].stage == if trace[n].turnOffs[id].stage.outcome.value then Sending else Ended
  {
    hide B.Next, Gates.Next, Others;
    assert StepAt(trace, events, m);
    OutcomeKept(trace, events, n, m, id);
  }

  lemma OverStep(s: System, e: Event, id: Id)
    requires Enabled(s, e) && id in s.turnOffs && s.turnOffs[id].stage.Ended?
    ensures id in Next(s, e).turnOffs && Next(s, e).turnOffs[id].stage.Ended?
  {
    hide B.Next, Gates.Next, Gates.Enabled;
  }

  /** Once sent, or cancelled wherever it was, a turn-off is over for good: it waits no more and is not
      sent again. */
  lemma {:induction false} OverForGood(trace: seq<System>, events: seq<Event>, n: nat, m: nat, id: Id)
    requires IsRun(trace, events) && n < m < |trace|
    requires events[n].Sent? || events[n].Cancelled?
    requires events[n].id == id
    ensures id in trace[m].turnOffs && trace[m].turnOffs[id].stage.Ended?
  {
    hide B.Next, Gates.Next, Gates.Enabled, Others;
    assert StepAt(trace, events, m - 1);
    if n < m - 1 {
      OverForGood(trace, events, n, m - 1, id);
      OverStep(trace[m - 1], events[m - 1], id);
    }
  }

  // ---- turn-offs being sent ----

  /** Whether an event starts (Some(true)) or ends (Some(false)) the sending of a turn-off of the
      device. */
  function SendEvent(s: System, e: Event, a: Address): Option<bool>
    requires Enabled(s, e)
  {
    var id := if e.Looks? || e.Resumes? || e.Cancelled? || e.Sent? then Some(e.id) else None;
    if id.None? || s.turnOffs[id.value].address != a then None
    else
      var before, after := s.turnOffs[id.value].stage.Sending?, Next(s, e).turnOffs[id.value].stage.Sending?;
      if before == after then None else Some(after)
  }

  predicate BeingSent(s: System, id: Id, a: Address) {
    id in s.turnOffs && s.turnOffs[id].stage.Sending? && s.turnOffs[id].address == a
  }

  lemma OffsFollow(s: System, e: Event, a: Address)
    requires Enabled(s, e)
    ensures a in Next(s, e).offs <==> if SendEvent(s, e, a).Some? then SendEvent(s, e, a).value else a in s.offs
    ensures SendEvent(s, e, a) == Some(false) ==> exists i :: BeingSent(s, i, a) && !BeingSent(Next(s, e), i, a)
    ensures forall i | BeingSent(Next(s, e), i, a) :: BeingSent(s, i, a) || SendEvent(s, e, a) == Some(true)
  {
    hide B.Next, Gates.Next, Gates.Enabled, Others;
    if SendEvent(s, e, a) == Some(false) {
      assert BeingSent(s, e.id, a) && !BeingSent(Next(s, e), e.id, a);
    }
  }

  ghost predicate EventAt(trace: seq<System>, events: seq<Event>, k: nat, a: Address, starts: bool)
    requires k < |events| && |trace| == |events| + 1
  {
    Enabled(trace[k], events[k]) && SendEvent(trace[k], events[k], a) == Some(starts)
  }

  /** A sending of a turn-off to the device started, and none ended since. */
  ghost predicate SetAside(trace: seq<System>, events: seq<Event>, n: nat, a: Address)
    requires n < |trace| && |trace| == |events| + 1
  {
    exists k | 0 <= k < n ::
      EventAt(trace, events, k, a, true) && forall l | k < l < n :: !EventAt(trace, events, l, a, false)
  }

  /** On every run a device is set aside, not counting as commanding, exactly if a sending of a
      turn-off to it started and none ended since. */
  lemma {:induction false} OffsExact(trace: seq<System>, events: seq<Event>, n: nat, a: Address)
    requires IsRun(trace, events) && n < |trace|
    ensures a in trace[n].offs <==> SetAside(trace, events, n, a)
  {
    hide Next, Enabled, SendEvent;
    if n > 0 {
      OffsExact(trace, events, n - 1, a);
      assert StepAt(trace, events, n - 1);
      OffsFollow(trace[n - 1], events[n - 1], a);
      if a in trace[n].offs {
        if EventAt(trace, events, n - 1, a, true) {
        } else {
          var k :| 0 <= k < n - 1 && EventAt(trace, events, k, a, true)
                   && forall l | k < l < n - 1 :: !EventAt(trace, events, l, a, false);
          assert forall l | k < l < n :: !EventAt(trace, events, l, a, false);
        }
      }
      if k :| 0 <= k < n && EventAt(trace, events, k, a, true) && forall l | k < l < n :: !EventAt(trace, events, l, a, false) {
        if k < n - 1 {
          assert !EventAt(trace, events, n - 1, a, false);
        }
      }
    }
  }

  /** A look waits for a device exactly if it is another one with a command not ended that isn't set
      aside: so for one a turn-off is being sent to, if another such sending has ended meanwhile. */
  lemma LookWaitsFor(trace: seq<System>, events: seq<Event>, n: nat, device: Address)
    requires IsRun(trace, events) && n < |events| && events[n].Looks? && IsWaiting(trace[n + 1], events[n].id)
    ensures events[n].id in trace[n].turnOffs
    ensures device in trace[n + 1].turnOffs[events[n].id].stage.waitingFor
            <==> CountsThen(trace, events, n, trace[n].turnOffs[events[n].id].address, device)
  {
    hide Next, Enabled, CountsThen;
    assert StepAt(trace, events, n);
    LookTakes(trace[n], events[n]);
    LookKeepsOthers(trace[n], events[n]);
    OthersAre(trace, events, n, trace[n].turnOffs[events[n].id].address);
  }

  /** A look that doesn't drop its turn-off makes it wait exactly if there is such a device, unless
      Home Assistant stops or its own link is up; else it is sent at once. */
  lemma LookDecides(trace: seq<System>, events: seq<Event>, n: nat)
    requires IsRun(trace, events) && n < |events| && events[n].Looks?
    ensures events[n].id in trace[n].turnOffs && events[n].id in trace[n + 1].turnOffs
    ensures var a, stage := trace[n].turnOffs[events[n].id].address, trace[n + 1].turnOffs[events[n].id].stage;
            stage.Ended? || if !events[n].stopping && !events[n].linkUp && (exists d :: CountsThen(trace, events, n, a, d))
                            then stage.Waiting? else stage.Sending?
  {
    hide B.Next, Gates.Next, CountsThen, Others, SetAside;
    assert StepAt(trace, events, n);
    var a := trace[n].turnOffs[events[n].id].address;
    OthersAre(trace, events, n, a);
    if d :| CountsThen(trace, events, n, a, d) {
      assert d in Others(trace[n], a);
    }
  }

  lemma LookKeepsOthers(s: System, e: Event)
    requires Enabled(s, e) && e.Looks? && IsWaiting(Next(s, e), e.id)
    ensures forall a :: Others(Next(s, e), a) == Others(s, a)
  {
    hide Gates.Next;
    B.StepCounts(s.burst, B.DeferredStarted(s.turnOffs[e.id].address));
    hide B.Next;
  }

  /** Two turn-offs of the device are never sent at once, up to step `n` (Home Assistant runs an
      entity's calls one at a time, and one entity turns a device off whole). */
  ghost predicate SentApart(trace: seq<System>, n: nat, a: Address)
    requires n <= |trace|
  {
    forall k, i, j | 0 <= k < n && BeingSent(trace[k], i, a) && BeingSent(trace[k], j, a) :: i == j
  }

  lemma {:induction false} SentSetAside(trace: seq<System>, events: seq<Event>, n: nat, a: Address, id: Id)
    requires IsRun(trace, events) && n < |trace| && SentApart(trace, n, a) && BeingSent(trace[n], id, a)
    ensures a in trace[n].offs
  {
    hide Next, Enabled, SendEvent;
    if n > 0 {
      assert StepAt(trace, events, n - 1);
      OffsFollow(trace[n - 1], events[n - 1], a);
      if BeingSent(trace[n - 1], id, a) {
        SentSetAside(trace, events, n - 1, a, id);
      }
    }
  }

  /** Then no turn-off starts waiting for a device while such a turn-off is being sent to it. */
  lemma SentNotWaitedFor(trace: seq<System>, events: seq<Event>, n: nat, a: Address, sent: Id)
    requires IsRun(trace, events) && n < |events| && SentApart(trace, n, a) && BeingSent(trace[n], sent, a)
    requires events[n].Looks? && IsWaiting(trace[n + 1], events[n].id)
    ensures a !in trace[n + 1].turnOffs[events[n].id].stage.waitingFor
  {
    hide B.Next, Gates.Next;
    SentSetAside(trace, events, n, a, sent);
    assert StepAt(trace, events, n);
  }

  lemma Extend(trace: seq<System>, events: seq<Event>, e: Event)
    requires IsRun(trace, events) && Enabled(trace[|events|], e)
    ensures IsRun(trace + [Next(trace[|events|], e)], events + [e])
  {
    hide Next, Enabled;
    var longer, more := trace + [Next(trace[|events|], e)], events + [e];
    forall k: nat | k < |more| ensures StepAt(longer, more, k) {
      if k < |events| {
        assert StepAt(trace, events, k);
      }
    }
  }

  /** Two turn-offs of device "a" are being sent at once. */
  lemma TwoSent() returns (trace: seq<System>, events: seq<Event>)
    ensures IsRun(trace, events) && |events| == 4
    ensures trace[4] == START.(turnOffs := map[0 := TurnOff(0, "a", Sending), 1 := TurnOff(1, "a", Sending)], offs := {"a"})
  {
    trace, events := [START], [];
    Extend(trace, events, Begins(0, 0, "a"));
    var s1 := Next(START, Begins(0, 0, "a"));
    Extend([START, s1], [Begins(0, 0, "a")], Begins(1, 1, "a"));
    var s2 := Next(s1, Begins(1, 1, "a"));
    assert s2 == START.(turnOffs := map[0 := TurnOff(0, "a", Starting(0)), 1 := TurnOff(1, "a", Starting(0))]);
    Extend([START, s1, s2], [Begins(0, 0, "a"), Begins(1, 1, "a")], Looks(0, false, false));
    var s3 := Next(s2, Looks(0, false, false));
    assert s3 == START.(turnOffs := map[0 := TurnOff(0, "a", Sending), 1 := TurnOff(1, "a", Starting(0))], offs := {"a"});
    Extend([START, s1, s2, s3], [Begins(0, 0, "a"), Begins(1, 1, "a"), Looks(0, false, false)], Looks(1, false, false));
    var s4 := Next(s3, Looks(1, false, false));
    trace, events := [START, s1, s2, s3, s4], [Begins(0, 0, "a"), Begins(1, 1, "a"), Looks(0, false, false), Looks(1, false, false)];
  }

  /** One of them ended: the other is still being sent, and its device commands. */
  lemma OneStillSent() returns (trace: seq<System>, events: seq<Event>)
    ensures IsRun(trace, events) && |events| == 6
    ensures var s := trace[6];
            s.offs == {} && s.removals == map[] && s.turnOffs.Keys == {0, 1} && BeingSent(s, 1, "a") && "a" in s.burst.running
  {
    hide Gates.Next, B.Next, IsRun;
    trace, events := TwoSent();
    var s4 := trace[4];
    Extend(trace, events, CommandStarts("a"));
    var s5 := Next(s4, CommandStarts("a"));
    StartedRuns(B.QUIET, "a");
    assert s5.turnOffs == s4.turnOffs && s5.offs == {"a"} && "a" in s5.burst.running;
    trace, events := trace + [s5], events + [CommandStarts("a")];
    Extend(trace, events, Sent(0));
    trace, events := trace + [Next(s5, Sent(0))], events + [Sent(0)];
  }

  lemma StartedRuns(b: B.Burst, a: Address)
    ensures a in B.Next(b, B.CommandStarted(a)).running
  {
  }

  /** It must be so: with two at once, the first to end stops setting the device aside, and a third
      turn-off waits for it while the second is still being sent. */
  lemma OverlappingSendWaitedFor()
    ensures exists trace: seq<System>, events: seq<Event>, n: nat ::
              && IsRun(trace, events) && n < |events| && events[n].Looks? && BeingSent(trace[n], 1, "a")
              && IsWaiting(trace[n + 1], events[n].id) && "a" in trace[n + 1].turnOffs[events[n].id].stage.waitingFor
  {
    hide Gates.Next, B.Next;
    var trace, events := OneStillSent();
    var s6 := trace[6];
    Extend(trace, events, Begins(2, 2, "b"));
    var s7 := Next(s6, Begins(2, 2, "b"));
    assert RemovalsOf(s7, 2) == 0 && BeingSent(s7, 1, "a");
    trace, events := trace + [s7], events + [Begins(2, 2, "b")];
    assert "a" in Others(s7, "b");
    Extend(trace, events, Looks(2, false, false));
    var s8 := Next(s7, Looks(2, false, false));
    trace, events := trace + [s8], events + [Looks(2, false, false)];
    assert BeingSent(trace[7], 1, "a") && IsWaiting(trace[8], 2) && events[7] == Looks(2, false, false);
  }
}
