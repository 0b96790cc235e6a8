/** A deferred turn-off as the program writes it: its wait, and the counts it keeps in the burst
    tracker and the connect gate, which are objects of their own. */
module DeferralObject {
  import opened Options
  import B = Burst
  import D = Deferral
  import BurstObject
  import GateObject
  import opened ConnectGate

  type Address = string

  /** The devices a turn-off is being sent to although they said they are off: one set for all. */
  class ConfirmedOffs {
    var addresses: set<Address>

    constructor ()
      ensures addresses == {}
    {
      addresses := {};
    }
  }

  /** Counts a wait toward the burst and at the gate; the object returned ends both counts. */
  method NoteWaiting(burst: BurstObject.CommandBurst, gate: GateObject.ConnectGate, a: Address) returns (end: EndWaiting)
    modifies burst, gate
    ensures burst.State() == B.Next(old(burst.State()), B.DeferredStarted(a))
    ensures gate.State() == old(gate.State()).(deferredOffs := old(gate.deferredOffs) + 1)
    ensures fresh(end) && fresh(end.endGate) && end.burst == burst && end.endGate.gate == gate && end.address == a
    ensures !end.endGate.ended
  {
    hide B.Next;
    burst.NoteDeferredStarted(a);
    var endGate := gate.NoteDeferredOff();
    end := new EndWaiting(burst, endGate, a);
  }

  class EndWaiting {
    const burst: BurstObject.CommandBurst
    const endGate: GateObject.EndDeferredOff
    const address: Address

    constructor (burst: BurstObject.CommandBurst, endGate: GateObject.EndDeferredOff, address: Address)
      ensures this.burst == burst && this.endGate == endGate && this.address == address
    {
      this.burst, this.endGate, this.address := burst, endGate, address;
    }

    method Call(loaded: bool)
      modifies burst, endGate, endGate.gate
      ensures burst.State() == B.Next(old(burst.State()), B.DeferredFinished(address, loaded))
      ensures endGate.ended
      ensures endGate.gate.State()
           == old(endGate.gate.State()).(deferredOffs := old(endGate.gate.deferredOffs) - if old(endGate.ended) then 0 else 1)
    {
      hide B.Next;
      burst.NoteDeferredFinished(address, loaded);
      endGate.Call();
    }
  }

  /** One wait: its future, and the devices its callback crosses off. */
  class Wait {
    const address: Address
    var waitingFor: set<Address>
    var outcome: Option<bool>

    function Stage(): D.Stage
      reads this
    {
      D.Waiting(waitingFor, outcome)
    }

    constructor (address: Address, waitingFor: set<Address>)
      ensures this.address == address && Stage() == D.Waiting(waitingFor, None)
    {
      this.address, this.waitingFor, outcome := address, waitingFor, None;
    }

    method CommandsChanged(others: set<Address>)
      modifies this
      ensures Stage() == D.NarrowStage(old(Stage()), others)
    {
      waitingFor := waitingFor * others;
      if waitingFor == {} {
        End(true);
      }
    }

    method End(send: bool)
      modifies this
      ensures Stage() == D.EndStage(old(Stage()), send)
    {
      if outcome.Some? {
        return;
      }
      outcome := Some(send);
    }
  }

  /** The other devices commanding, as the objects show them. */
  function OthersNow(burst: BurstObject.CommandBurst, offs: ConfirmedOffs, a: Address): set<Address>
    reads burst, offs
  {
    burst.running.Keys - {a} - offs.addresses
  }

  /** The objects are these parts of the system. */
  ghost predicate Agrees(s: D.System, burst: BurstObject.CommandBurst, gate: GateObject.ConnectGate, offs: ConfirmedOffs)
    reads burst, gate, offs
  {
    s.burst == burst.State() && s.gates.gate == gate.State() && s.offs == offs.addresses
  }

  /** What a turn-off does after its look, or once its wait ended. */
  datatype Decision = Dropped | Sent | Waits(wait: Wait, end: EndWaiting)

  ghost function StageOf(decision: Decision): D.Stage
    reads if decision.Waits? then {decision.wait} else {}
  {
    match decision
    case Dropped => D.Ended
    case Sent => D.Sending
    case Waits(wait, _) => wait.Stage()
  }

  ghost function Stages(waitOf: map<D.Id, Wait>): map<D.Id, D.Stage>
    reads waitOf.Values
  {
    map id | id in waitOf :: waitOf[id].Stage()
  }

  ghost predicate EachItsOwn(waitOf: map<D.Id, Wait>, address: Address) {
    && (forall i, j | i in waitOf && j in waitOf && waitOf[i] == waitOf[j] :: i == j)
    && (forall id | id in waitOf :: waitOf[id].address == address)
  }

  /** Of the entity's turn-offs in the system those that wait are these, as far as `stages` says. */
  ghost predicate Mirrors(s: D.System, entity: D.Entity, address: Address, removals: nat, stages: map<D.Id, D.Stage>) {
    && removals == D.RemovalsOf(s, entity)
    && (forall id :: id in stages <==> id in s.turnOffs && s.turnOffs[id].entity == entity && s.turnOffs[id].stage.Waiting?)
    && (forall id | id in stages :: s.turnOffs[id].address == address && s.turnOffs[id].stage == stages[id])
  }

  /** One of its turn-offs moves on. */
  lemma MirrorsMove(s: D.System, s': D.System, entity: D.Entity, address: Address, removals: nat, stages: map<D.Id, D.Stage>, id: D.Id)
    requires Mirrors(s, entity, address, removals, stages) && s'.removals == s.removals
    requires id in s.turnOffs && s.turnOffs[id].entity == entity && s.turnOffs[id].address == address && id in s'.turnOffs
    requires s'.turnOffs == s.turnOffs[id := s.turnOffs[id].(stage := s'.turnOffs[id].stage)]
    ensures var stage := s'.turnOffs[id].stage;
            Mirrors(s', entity, address, removals, if stage.Waiting? then stages[id := stage] else stages - {id})
  {
  }

  /** All of them do, and wait on. */
  lemma MirrorsAll(s: D.System, s': D.System, entity: D.Entity, address: Address, removals: nat, stages: map<D.Id, D.Stage>,
                   removals': nat, stages': map<D.Id, D.Stage>)
    requires Mirrors(s, entity, address, removals, stages) && D.RemovalsOf(s', entity) == removals'
    requires s'.turnOffs.Keys == s.turnOffs.Keys && stages'.Keys == stages.Keys
    requires forall id | id in s.turnOffs ::
               && s'.turnOffs[id] == s.turnOffs[id].(stage := s'.turnOffs[id].stage)
               && (s'.turnOffs[id].stage.Waiting? <==> s.turnOffs[id].stage.Waiting?)
    requires forall id | id in stages && id in s.turnOffs && s.turnOffs[id].stage == stages[id] && s.turnOffs[id].entity == entity
               && s.turnOffs[id].address == address :: s'.turnOffs[id].stage == stages'[id]
    ensures Mirrors(s', entity, address, removals', stages')
  {
  }

  lemma MirrorsOne(s: D.System, entity: D.Entity, address: Address, removals: nat, stages: map<D.Id, D.Stage>, id: D.Id)
    requires Mirrors(s, entity, address, removals, stages)
    ensures D.RemovalsOf(s, entity) == removals
    ensures id in stages ==> D.IsWaiting(s, id) && s.turnOffs[id].stage == stages[id]
                             && s.turnOffs[id].entity == entity && s.turnOffs[id].address == address
    ensures id in s.turnOffs && !s.turnOffs[id].stage.Waiting? ==> id !in stages
  {
  }

  lemma OneMoreWait(waitOf: map<D.Id, Wait>, address: Address, id: D.Id, wait: Wait)
    requires EachItsOwn(waitOf, address) && id !in waitOf && wait !in waitOf.Values && wait.address == address
    ensures EachItsOwn(waitOf[id := wait], address) && waitOf[id := wait].Values == waitOf.Values + {wait}
    ensures Stages(waitOf[id := wait]) == Stages(waitOf)[id := wait.Stage()]
  {
    var after := waitOf[id := wait];
    assert after[id] == wait;
    forall w | w in waitOf.Values ensures w in after.Values {
      var i :| i in waitOf && waitOf[i] == w;
      assert after[i] == w;
    }
  }

  lemma OneWaitLess(waitOf: map<D.Id, Wait>, address: Address, id: D.Id)
    requires EachItsOwn(waitOf, address) && id in waitOf
    ensures EachItsOwn(waitOf - {id}, address) && (waitOf - {id}).Values == waitOf.Values - {waitOf[id]}
    ensures Stages(waitOf - {id}) == Stages(waitOf) - {id}
  {
    var after := waitOf - {id};
    forall w | w in waitOf.Values - {waitOf[id]} ensures w in after.Values {
      var i :| i in waitOf && waitOf[i] == w;
      assert after[i] == w;
    }
  }

  lemma NoKey(stages: map<D.Id, D.Stage>, waitOf: map<D.Id, Wait>, id: D.Id)
    requires stages == Stages(waitOf) && id !in stages
    ensures id !in waitOf
  {
  }

  lemma HasKey(waitOf: map<D.Id, Wait>, id: D.Id)
    requires id in waitOf
    ensures id in Stages(waitOf) && Stages(waitOf)[id] == waitOf[id].Stage()
  {
  }

  lemma Untouched(waitOf: map<D.Id, Wait>, id: D.Id)
    requires id !in waitOf
    ensures Stages(waitOf) - {id} == Stages(waitOf)
  {
  }

  // ---- the system's steps, as the objects take them ----

  lemma RemovalsSame(s: D.System, s': D.System, entity: D.Entity)
    requires s'.removals == s.removals
    ensures D.RemovalsOf(s', entity) == D.RemovalsOf(s, entity)
  {
  }

  /** What a look does: dropped if the entity was removed, sent if it needn't wait, else one more wait,
      counted in the burst and at the gate. */
  ghost predicate Looked(removed: bool, others: set<Address>, atOnce: bool, a: Address, burst: B.Burst, gate: Gate, offs: set<Address>,
                         burst': B.Burst, gate': Gate, offs': set<Address>, stage: D.Stage)
  {
    if removed then stage == D.Ended && burst' == burst && gate' == gate && offs' == offs
    else if atOnce || others == {} then stage == D.Sending && burst' == burst && gate' == gate && offs' == offs + {a}
    else
      && stage == D.Waiting(others, None) && offs' == offs && burst' == B.Next(burst, B.DeferredStarted(a))
      && gate' == gate.(deferredOffs := gate.deferredOffs + 1)
  }

  lemma LookedOnce(removed: bool, others: set<Address>, atOnce: bool, a: Address, burst: B.Burst, gate: Gate, offs: set<Address>,
                   b1: B.Burst, g1: Gate, o1: set<Address>, s1: D.Stage, b2: B.Burst, g2: Gate, o2: set<Address>, s2: D.Stage)
    requires Looked(removed, others, atOnce, a, burst, gate, offs, b1, g1, o1, s1)
    requires Looked(removed, others, atOnce, a, burst, gate, offs, b2, g2, o2, s2)
    ensures b1 == b2 && g1 == g2 && o1 == o2 && s1 == s2
  {
    hide B.Next;
  }

  lemma LookIs(s: D.System, id: D.Id, stopping: bool, linkUp: bool)
    requires id in s.turnOffs && s.turnOffs[id].stage.Starting?
    ensures D.Enabled(s, D.Looks(id, stopping, linkUp))
    ensures var s', t := D.Next(s, D.Looks(id, stopping, linkUp)), s.turnOffs[id];
            && s'.removals == s.removals
            && id in s'.turnOffs && s'.turnOffs == s.turnOffs[id := t.(stage := s'.turnOffs[id].stage)]
            && Looked(t.stage.removals != D.RemovalsOf(s, t.entity), s.burst.running.Keys - {t.address} - s.offs,
                      stopping || linkUp, t.address, s.burst, s.gates.gate, s.offs, s'.burst, s'.gates.gate, s'.offs,
                      s'.turnOffs[id].stage)
  {
    hide B.Next;
  }

  function ResumeEvent(id: D.Id, cancelled: bool, loaded: bool): D.Event {
    if cancelled then D.Cancelled(id, loaded) else D.Resumes(id, loaded)
  }

  lemma ResumeIs(s: D.System, id: D.Id, cancelled: bool, loaded: bool)
    requires D.IsWaiting(s, id) && (!cancelled ==> s.turnOffs[id].stage.outcome.Some?)
    ensures D.Enabled(s, ResumeEvent(id, cancelled, loaded))
    ensures var s', t := D.Next(s, ResumeEvent(id, cancelled, loaded)), s.turnOffs[id];
            var send := !cancelled && t.stage.outcome == Some(true);
            && s'.removals == s.removals
            && s'.turnOffs == s.turnOffs[id := t.(stage := if send then D.Sending else D.Ended)]
            && s'.burst == B.Next(s.burst, B.DeferredFinished(t.address, loaded))
            && s'.gates.gate == s.gates.gate.(deferredOffs := s.gates.gate.deferredOffs - 1)
            && s'.offs == s.offs + if send then {t.address} else {}
  {
    hide B.Next;
  }

  /** Every wait of an entity ends, and no other. */
  lemma EndsOwn(s: D.System, entity: D.Entity, send: bool)
    ensures var s' := D.Next(s, if send then D.Hurry(entity) else D.Drop(entity));
            && s'.burst == s.burst && s'.gates == s.gates && s'.offs == s.offs && s'.turnOffs.Keys == s.turnOffs.Keys
            && D.RemovalsOf(s', entity) == D.RemovalsOf(s, entity) + (if send then 0 else 1)
            && forall id | id in s.turnOffs ::
                 s'.turnOffs[id] == if s.turnOffs[id].entity == entity then D.EndWait(s.turnOffs[id], send) else s.turnOffs[id]
  {
    hide B.Next;
  }

  /** A command starts or ends: every wait is narrowed to the devices that count then. */
  lemma CommandIs(s: D.System, e: D.Event)
    requires D.Enabled(s, e) && D.IsCommandEvent(e)
    ensures var s' := D.Next(s, e);
            && s'.burst == B.Next(s.burst, if e.CommandStarts? then B.CommandStarted(e.a) else B.CommandFinished(e.a, e.loaded))
            && s'.gates == s.gates && s'.offs == s.offs && s'.removals == s.removals && s'.turnOffs.Keys == s.turnOffs.Keys
            && forall id | id in s.turnOffs :: s'.turnOffs[id] == D.Narrow(s.turnOffs[id], s'.burst.running.Keys - {s.turnOffs[id].address} - s'.offs)
  {
    hide B.Next;
  }

  /** One entity's handling of turn-offs that find its device already off. The ghost parameters of its
      methods name a state of the system the objects are part of: then they are part of the next. */
  class OffDeferral {
    const address: Address
    ghost const entity: D.Entity
    var waits: set<Wait>
    var removals: nat

    constructor (address: Address, ghost entity: D.Entity)
      ensures this.address == address && this.entity == entity && waits == {} && removals == 0
    {
      this.address, this.entity, waits, removals := address, entity, {}, 0;
    }

    /** The system's turn-offs of this entity that wait are the object's waits, `waitOf` says which. */
    ghost predicate Shows(s: D.System, waitOf: map<D.Id, Wait>)
      reads this, waitOf.Values
    {
      && waits == waitOf.Values
      && EachItsOwn(waitOf, address)
      && Mirrors(s, entity, address, removals, Stages(waitOf))
    }

    /** Its loop steps passed: it is dropped if the entity was removed since (`removals` as it
        started), sent, or waits for the devices commanding now. */
    method Look(started: nat, burst: BurstObject.CommandBurst, gate: GateObject.ConnectGate, offs: ConfirmedOffs,
                stopping: bool, linkUp: bool, ghost s: D.System, ghost id: D.Id, ghost waitOf: map<D.Id, Wait>)
      returns (decision: Decision)
      modifies this`waits, burst, gate, offs
      ensures Looked(started != old(removals), old(OthersNow(burst, offs, address)), stopping || linkUp, address,
                     old(burst.State()), old(gate.State()), old(offs.addresses), burst.State(), gate.State(), offs.addresses,
                     StageOf(decision))
      ensures waits == old(waits) + if decision.Waits? then {decision.wait} else {}
      ensures decision.Waits? ==>
                && fresh(decision.wait) && decision.wait.address == address && decision.end.address == address
                && fresh(decision.end) && decision.end.burst == burst && decision.end.endGate.gate == gate
                && !decision.end.endGate.ended
      ensures old(Shows(s, waitOf) && Agrees(s, burst, gate, offs))
              && id in s.turnOffs && s.turnOffs[id] == D.TurnOff(entity, address, D.Starting(started)) ==>
                var s' := D.Next(s, D.Looks(id, stopping, linkUp));
                && Agrees(s', burst, gate, offs) && id in s'.turnOffs && s'.turnOffs[id].stage == StageOf(decision)
                && Shows(s', if decision.Waits? then waitOf[id := decision.wait] else waitOf)
    {
      hide D.Next, Mirrors, D.RemovalsOf, Looked, D.Enabled, EachItsOwn, Stages;
      ghost var shown := Shows(s, waitOf) && Agrees(s, burst, gate, offs);
      ghost var stages := Stages(waitOf);
      decision := SendOrWait(started, burst, gate, offs, stopping, linkUp);
      if shown && id in s.turnOffs && s.turnOffs[id] == D.TurnOff(entity, address, D.Starting(started)) {
        LookIs(s, id, stopping, linkUp);
        MirrorsOne(s, entity, address, removals, stages, id);
        var s' := D.Next(s, D.Looks(id, stopping, linkUp));
        LookedOnce(started != removals, s.burst.running.Keys - {address} - s.offs, stopping || linkUp, address,
                   s.burst, s.gates.gate, s.offs, burst.State(), gate.State(), offs.addresses, StageOf(decision),
                   s'.burst, s'.gates.gate, s'.offs, s'.turnOffs[id].stage);
        MirrorsMove(s, s', entity, address, removals, stages, id);
        NoKey(stages, waitOf, id);
        if decision.Waits? {
          OneMoreWait(waitOf, address, id, decision.wait);
        } else {
          Untouched(waitOf, id);
        }
      }
    }

    method SendOrWait(started: nat, burst: BurstObject.CommandBurst, gate: GateObject.ConnectGate, offs: ConfirmedOffs,
                      stopping: bool, linkUp: bool)
      returns (decision: Decision)
      modifies this`waits, burst, gate, offs
      ensures Looked(started != old(removals), old(OthersNow(burst, offs, address)), stopping || linkUp, address,
                     old(burst.State()), old(gate.State()), old(offs.addresses), burst.State(), gate.State(), offs.addresses,
                     StageOf(decision))
      ensures waits == old(waits) + if decision.Waits? then {decision.wait} else {}
      ensures decision.Waits? ==>
                && fresh(decision.wait) && decision.wait.address == address && decision.end.address == address
                && fresh(decision.end) && decision.end.burst == burst && decision.end.endGate.gate == gate
                && !decision.end.endGate.ended
    {
      hide B.Next;
      if removals != started {
        return Dropped;
      }
      var waitingFor := OthersNow(burst, offs, address);
      if stopping || waitingFor == {} || linkUp {
        offs.addresses := offs.addresses + {address};
        return Sent;
      }
      var wait := new Wait(address, waitingFor);
      var end := NoteWaiting(burst, gate, address);
      waits := waits + {wait};
      return Waits(wait, end);
    }

    /** The wait is over, by its outcome or (`cancelled`) its task's cancellation: it leaves the waits
        and both counts end; the turn-off is sent if the outcome says so. */
    method Resume(wait: Wait, end: EndWaiting, cancelled: bool, loaded: bool, offs: ConfirmedOffs,
                  ghost s: D.System, ghost id: D.Id, ghost waitOf: map<D.Id, Wait>)
      returns (send: bool)
      requires wait in waits && (!cancelled ==> wait.outcome.Some?)
      modifies this`waits, end.burst, end.endGate, end.endGate.gate, offs
      ensures waits == old(waits) - {wait}
      ensures end.burst.State() == B.Next(old(end.burst.State()), B.DeferredFinished(end.address, loaded))
      ensures end.endGate.ended
      ensures end.endGate.gate.State()
           == old(end.endGate.gate.State()).(deferredOffs := old(end.endGate.gate.deferredOffs) - if old(end.endGate.ended) then 0 else 1)
      ensures send <==> !cancelled && old(wait.outcome) == Some(true)
      ensures offs.addresses == old(offs.addresses) + if send then {address} else {}
      ensures old(Shows(s, waitOf) && Agrees(s, end.burst, end.endGate.gate, offs))
              && id in waitOf && waitOf[id] == wait && end.address == address && !old(end.endGate.ended) ==>
                && D.Enabled(s, ResumeEvent(id, cancelled, loaded))
                && var s' := D.Next(s, ResumeEvent(id, cancelled, loaded));
                   && Agrees(s', end.burst, end.endGate.gate, offs) && Shows(s', waitOf - {id})
                   && id in s'.turnOffs && s'.turnOffs[id].stage == if send then D.Sending else D.Ended
    {
      hide B.Next, D.Next, D.Enabled, Mirrors, D.RemovalsOf, EachItsOwn, Stages;
      ghost var shown := Shows(s, waitOf);
      ghost var stages := Stages(waitOf);
      if shown && id in waitOf && waitOf[id] == wait {
        HasKey(waitOf, id);
        MirrorsOne(s, entity, address, removals, stages, id);
        ResumeIs(s, id, cancelled, loaded);
      }
      send := LeaveWait(wait, end, cancelled, loaded, offs);
      if shown && id in waitOf && waitOf[id] == wait {
        MirrorsMove(s, D.Next(s, ResumeEvent(id, cancelled, loaded)), entity, address, removals, stages, id);
        OneWaitLess(waitOf, address, id);
      }
    }

    method LeaveWait(wait: Wait, end: EndWaiting, cancelled: bool, loaded: bool, offs: ConfirmedOffs) returns (send: bool)
      requires wait in waits && (!cancelled ==> wait.outcome.Some?)
      modifies this`waits, end.burst, end.endGate, end.endGate.gate, offs
      ensures waits == old(waits) - {wait}
      ensures end.burst.State() == B.Next(old(end.burst.State()), B.DeferredFinished(end.address, loaded))
      ensures end.endGate.ended
      ensures end.endGate.gate.State()
           == old(end.endGate.gate.State()).(deferredOffs := old(end.endGate.gate.deferredOffs) - if old(end.endGate.ended) then 0 else 1)
      ensures send <==> !cancelled && old(wait.outcome) == Some(true)
      ensures offs.addresses == old(offs.addresses) + if send then {address} else {}
    {
      hide B.Next;
      send := !cancelled && wait.outcome == Some(true);
      waits := waits - {wait};
      end.Call(loaded);
      if send {
        offs.addresses := offs.addresses + {address};
      }
    }

    /** The turn-off was sent, or failed. */
    method SendEnds(offs: ConfirmedOffs, ghost s: D.System, ghost id: D.Id, ghost waitOf: map<D.Id, Wait>)
      modifies offs
      ensures offs.addresses == old(offs.addresses) - {address}
      ensures old(Shows(s, waitOf)) && s.offs == old(offs.addresses)
              && id in s.turnOffs && s.turnOffs[id] == D.TurnOff(entity, address, D.Sending) ==>
                var s' := D.Next(s, D.Sent(id));
                && s'.burst == s.burst && s'.gates == s.gates && s'.offs == offs.addresses && Shows(s', waitOf)
    {
      hide B.Next, Mirrors, D.RemovalsOf;
      ghost var stages := Stages(waitOf);
      offs.addresses := offs.addresses - {address};
      if Mirrors(s, entity, address, removals, stages) && id in s.turnOffs && s.turnOffs[id] == D.TurnOff(entity, address, D.Sending) {
        MirrorsOne(s, entity, address, removals, stages, id);
        MirrorsMove(s, D.Next(s, D.Sent(id)), entity, address, removals, stages, id);
        assert stages - {id} == stages;
      }
    }

    /** Sends every turn-off of this entity still waiting. */
    method Hurry(ghost s: D.System, ghost waitOf: map<D.Id, Wait>)
      modifies waits
      ensures forall w | w in waits :: w.Stage() == D.EndStage(old(w.Stage()), true)
      ensures old(Shows(s, waitOf)) ==> Shows(D.Next(s, D.Hurry(entity)), waitOf)
    {
      hide D.Next, D.RemovalsOf, Mirrors;
      ghost var stages := Stages(waitOf);
      EndsOwn(s, entity, true);
      EndAll(true);
      if old(Shows(s, waitOf)) {
        MirrorsOne(s, entity, address, removals, stages, 0);
        MirrorsAll(s, D.Next(s, D.Hurry(entity)), entity, address, removals, stages, removals, Stages(waitOf));
      }
    }

    /** Drops every turn-off waiting or about to. */
    method Drop(ghost s: D.System, ghost waitOf: map<D.Id, Wait>)
      modifies this`removals, waits
      ensures removals == old(removals) + 1
      ensures forall w | w in waits :: w.Stage() == D.EndStage(old(w.Stage()), false)
      ensures old(Shows(s, waitOf)) ==> Shows(D.Next(s, D.Drop(entity)), waitOf)
    {
      hide D.Next, D.RemovalsOf, Mirrors;
      ghost var stages := Stages(waitOf);
      EndsOwn(s, entity, false);
      removals := removals + 1;
      EndAll(false);
      if old(Shows(s, waitOf)) {
        MirrorsOne(s, entity, address, removals - 1, stages, 0);
        MirrorsAll(s, D.Next(s, D.Drop(entity)), entity, address, removals - 1, stages, removals, Stages(waitOf));
      }
    }

    method EndAll(send: bool)
      modifies waits
      ensures forall w | w in waits :: w.Stage() == D.EndStage(old(w.Stage()), send)
    {
      var todo := waits;
      while todo != {}
        invariant todo <= waits
        invariant forall w | w in waits - todo :: w.Stage() == D.EndStage(old(w.Stage()), send)
        invariant forall w | w in todo :: w.Stage() == old(w.Stage())
        decreases todo
      {
        var w :| w in todo;
        todo := todo - {w};
        w.End(send);
      }
    }
  }

  // ---- commands ----

  /** A command to any device started or ended: every wait is told. */
  method Notify(burst: BurstObject.CommandBurst, offs: ConfirmedOffs, waits: set<Wait>)
    modifies waits
    ensures forall w | w in waits :: w.Stage() == D.NarrowStage(old(w.Stage()), OthersNow(burst, offs, w.address))
  {
    var todo := waits;
    while todo != {}
      invariant todo <= waits
      invariant forall w | w in waits - todo :: w.Stage() == D.NarrowStage(old(w.Stage()), OthersNow(burst, offs, w.address))
      invariant forall w | w in todo :: w.Stage() == old(w.Stage())
      decreases todo
    {
      var w :| w in todo;
      todo := todo - {w};
      w.CommandsChanged(OthersNow(burst, offs, w.address));
    }
  }

  /** A command starts: the burst counts it, and every wait is told. */
  method CommandStarts(burst: BurstObject.CommandBurst, gate: GateObject.ConnectGate, offs: ConfirmedOffs, waits: set<Wait>,
                       a: Address, ghost deferral: OffDeferral, ghost s: D.System, ghost waitOf: map<D.Id, Wait>)
    modifies burst, waits
    ensures burst.State() == B.Next(old(burst.State()), B.CommandStarted(a))
    ensures old(deferral.Shows(s, waitOf) && Agrees(s, burst, gate, offs)) && deferral.waits <= waits ==>
              Agrees(D.Next(s, D.CommandStarts(a)), burst, gate, offs) && deferral.Shows(D.Next(s, D.CommandStarts(a)), waitOf)
  {
    hide B.Next, D.Next, D.RemovalsOf, Mirrors;
    ghost var stages := Stages(waitOf);
    CommandIs(s, D.CommandStarts(a));
    RemovalsSame(s, D.Next(s, D.CommandStarts(a)), deferral.entity);
    burst.NoteCommandStarted(a);
    Notify(burst, offs, waits);
    if old(deferral.Shows(s, waitOf) && Agrees(s, burst, gate, offs)) && deferral.waits <= waits {
      MirrorsOne(s, deferral.entity, deferral.address, deferral.removals, stages, 0);
      MirrorsAll(s, D.Next(s, D.CommandStarts(a)), deferral.entity, deferral.address, deferral.removals, stages,
                 deferral.removals, Stages(waitOf));
    }
  }

  /** A command ends: likewise. */
  method CommandEnds(burst: BurstObject.CommandBurst, gate: GateObject.ConnectGate, offs: ConfirmedOffs, waits: set<Wait>,
                     a: Address, loaded: bool, ghost deferral: OffDeferral, ghost s: D.System, ghost waitOf: map<D.Id, Wait>)
    modifies burst, waits
    ensures burst.State() == B.Next(old(burst.State()), B.CommandFinished(a, loaded))
    ensures old(deferral.Shows(s, waitOf) && Agrees(s, burst, gate, offs)) && deferral.waits <= waits ==>
              Agrees(D.Next(s, D.CommandEnds(a, loaded)), burst, gate, offs)
              && deferral.Shows(D.Next(s, D.CommandEnds(a, loaded)), waitOf)
  {
    hide B.Next, D.Next, D.RemovalsOf, Mirrors;
    ghost var stages := Stages(waitOf);
    burst.NoteCommandFinished(a, loaded);
    Notify(burst, offs, waits);
    if old(deferral.Shows(s, waitOf) && Agrees(s, burst, gate, offs)) && deferral.waits <= waits {
      CommandIs(s, D.CommandEnds(a, loaded));
      RemovalsSame(s, D.Next(s, D.CommandEnds(a, loaded)), deferral.entity);
      MirrorsOne(s, deferral.entity, deferral.address, deferral.removals, stages, 0);
      MirrorsAll(s, D.Next(s, D.CommandEnds(a, loaded)), deferral.entity, deferral.address, deferral.removals, stages,
                 deferral.removals, Stages(waitOf));
    }
  }
}
