/** Which event ends a turn-off's wait, and how: over every run the first one decides. */
module DeferralEndings {
  import opened Options
  import opened Deferral
  import B = Burst
  import Gates = GateRun

  /** The event sends the waiting turn-off: its cap, a newer call to its entity, or a command's start
      or end after which no device it waits for counts as commanding. */
  predicate Sends(s: System, e: Event, id: Id)
    requires Enabled(s, e) && IsWaiting(s, id)
  {
    || e == CapReached(id)
    || e == Hurry(s.turnOffs[id].entity)
    || (IsCommandEvent(e) && s.turnOffs[id].stage.waitingFor * Others(Next(s, e), s.turnOffs[id].address) == {})
  }

  /** So the `k`-th event, from the events alone. */
  ghost predicate SendsAt(trace: seq<System>, events: seq<Event>, k: nat, id: Id)
    requires k < |events| && |trace| == |events| + 1 && IsWaiting(trace[k], id)
  {
    || events[k] == CapReached(id)
    || events[k] == Hurry(trace[k].turnOffs[id].entity)
    || (IsCommandEvent(events[k])
        && forall d | d in trace[k].turnOffs[id].stage.waitingFor :: !CountsThen(trace, events, k + 1, trace[k].turnOffs[id].address, d))
  }

  lemma SendsAre(trace: seq<System>, events: seq<Event>, k: nat, id: Id)
    requires IsRun(trace, events) && k < |events| && IsWaiting(trace[k], id)
    ensures Enabled(trace[k], events[k])
    ensures SendsAt(trace, events, k, id) <==> Sends(trace[k], events[k], id)
  {
    hide Next, Enabled, Others, CountsThen;
    assert StepAt(trace, events, k);
    var t := trace[k].turnOffs[id];
    OthersAre(trace, events, k + 1, t.address);
    var left := t.stage.waitingFor * Others(trace[k + 1], t.address);
    assert forall d | d in t.stage.waitingFor :: d in left <==> CountsThen(trace, events, k + 1, t.address, d);
    assert left == {} <==> forall d | d in t.stage.waitingFor :: d !in left;
  }

  /** The event drops it: Home Assistant stops, or its own entity is removed. */
  predicate Drops(s: System, e: Event, id: Id)
    requires IsWaiting(s, id)
  {
    e == Stopping || e == Drop(s.turnOffs[id].entity)
  }

  ghost predicate EndsAt(trace: seq<System>, events: seq<Event>, k: nat, id: Id)
    requires k < |events| && |trace| == |events| + 1
  {
    IsWaiting(trace[k], id) && (SendsAt(trace, events, k, id) || Drops(trace[k], events[k], id))
  }

  ghost predicate FirstEndAt(trace: seq<System>, events: seq<Event>, from: nat, k: nat, id: Id)
    requires |trace| == |events| + 1
  {
    from < k < |events| && EndsAt(trace, events, k, id) && forall l: nat | from < l < k :: !EndsAt(trace, events, l, id)
  }

  /** How one event changes a wait's outcome. */
  lemma OutcomeStep(s: System, e: Event, id: Id)
    requires Enabled(s, e) && IsWaiting(s, id) && IsWaiting(Next(s, e), id)
    ensures Next(s, e).turnOffs[id].stage.outcome
         == if s.turnOffs[id].stage.outcome.Some? then s.turnOffs[id].stage.outcome
            else if Sends(s, e, id) then Some(true)
            else if Drops(s, e, id) then Some(false)
            else None
  {
    hide B.Next, Gates.Next, Gates.Enabled;
    if IsCommandEvent(e) {
      SameOthers(s, e);
    }
  }

  /** The waits are narrowed by the commands as the event leaves them. */
  lemma SameOthers(s: System, e: Event)
    requires Enabled(s, e) && IsCommandEvent(e)
    ensures var burst := B.Next(s.burst, if e.CommandStarts? then B.CommandStarted(e.a) else B.CommandFinished(e.a, e.loaded));
            forall a :: Others(Next(s, e), a) == Others(s.(burst := burst), a)
  {
    hide B.Next, Gates.Next, Gates.Enabled;
  }

  /** A wait has no outcome until an event ends it, and then that event's. */
  lemma {:induction false} OutcomeOfFirst(trace: seq<System>, events: seq<Event>, from: nat, m: nat, id: Id)
    requires IsRun(trace, events) && from < m < |trace|
    requires events[from].Looks? && events[from].id == id && IsWaiting(trace[from + 1], id) && IsWaiting(trace[m], id)
    ensures trace[m].turnOffs[id].stage.outcome.None? <==> forall l: nat | from < l < m :: !EndsAt(trace, events, l, id)
    ensures forall k: nat | k < m && FirstEndAt(trace, events, from, k, id) ::
              IsWaiting(trace[k], id) && trace[m].turnOffs[id].stage.outcome == Some(SendsAt(trace, events, k, id))
  {
    hide Next, Enabled, Sends, SendsAt, Drops;
    assert StepAt(trace, events, from);
    assert StepAt(trace, events, m - 1);
    if m == from + 1 {
      LookTakes(trace[from], events[from]);
    } else {
      PastLook(trace, events, from + 1, m - 1, id);
      StageStep(trace[m - 1], events[m - 1], id);
      OutcomeOfFirst(trace, events, from, m - 1, id);
      OutcomeStep(trace[m - 1], events[m - 1], id);
      SendsAre(trace, events, m - 1, id);
      Apart(trace[m - 1], events[m - 1], id);
      var ends := EndsAt(trace, events, m - 1, id);
      assert ends <==> Sends(trace[m - 1], events[m - 1], id) || Drops(trace[m - 1], events[m - 1], id);
      if trace[m - 1].turnOffs[id].stage.outcome.Some? {
        assert EndsBefore(trace, events, from, m - 1, id);
        var k := FirstOf(trace, events, from, m - 1, id);
        forall j: nat | FirstEndAt(trace, events, from, j, id) ensures j == k {}
      } else {
        forall j: nat | j < m && FirstEndAt(trace, events, from, j, id) ensures j == m - 1 {}
      }
    }
  }

  ghost predicate EndsBefore(trace: seq<System>, events: seq<Event>, from: nat, m: nat, id: Id)
    requires m <= |events| && |trace| == |events| + 1
  {
    exists l: nat :: from < l < m && EndsAt(trace, events, l, id)
  }

  lemma {:induction false} FirstOf(trace: seq<System>, events: seq<Event>, from: nat, m: nat, id: Id) returns (k: nat)
    requires m <= |events| && |trace| == |events| + 1 && EndsBefore(trace, events, from, m, id)
    ensures k < m && FirstEndAt(trace, events, from, k, id)
  {
    hide EndsAt;
    if EndsBefore(trace, events, from, m - 1, id) {
      k := FirstOf(trace, events, from, m - 1, id);
    } else {
      k := m - 1;
      forall l: nat | from < l < k ensures !EndsAt(trace, events, l, id) {}
    }
  }

  lemma Apart(s: System, e: Event, id: Id)
    requires Enabled(s, e) && IsWaiting(s, id)
    ensures !(Sends(s, e, id) && Drops(s, e, id))
  {
    hide B.Next, Gates.Next, Gates.Enabled;
  }

  /** On every run a turn-off that waited resumes because some event ended its wait, and as the first
      that did says: it is dropped exactly if that was Home Assistant stopping or a removal of its own
      entity, and sent exactly if it was its cap, a newer call to its entity, or the commands it
      waited for being done. */
  lemma ResumesAsFirstEnded(trace: seq<System>, events: seq<Event>, from: nat, m: nat, id: Id) returns (k: nat)
    requires IsRun(trace, events) && from < m < |events|
    requires events[from].Looks? && events[from].id == id && IsWaiting(trace[from + 1], id)
    requires events[m].Resumes? && events[m].id == id
    ensures k < m && FirstEndAt(trace, events, from, k, id) && IsWaiting(trace[k], id)
    ensures id in trace[m + 1].turnOffs
    ensures trace[m + 1].turnOffs[id].stage == Ended <==> Drops(trace[k], events[k], id)
    ensures trace[m + 1].turnOffs[id].stage == Sending <==> SendsAt(trace, events, k, id)
  {
    hide Next, Sends, SendsAt, Drops, EndsAt;
    assert StepAt(trace, events, m);
    OutcomeOfFirst(trace, events, from, m, id);
    assert EndsBefore(trace, events, from, m, id);
    k := FirstOf(trace, events, from, m, id);
    AnEnd(trace, events, k, id);
    SendsAre(trace, events, k, id);
    Apart(trace[k], events[k], id);
    FirstEndingDecides(trace, events, m, m, id);
  }

  lemma AnEnd(trace: seq<System>, events: seq<Event>, k: nat, id: Id)
    requires k < |events| && |trace| == |events| + 1 && EndsAt(trace, events, k, id)
    ensures IsWaiting(trace[k], id) && (SendsAt(trace, events, k, id) || Drops(trace[k], events[k], id))
  {
  }

  // ---- removed before the look ----

  lemma RemovalsStep(s: System, e: Event, entity: Entity)
    requires Enabled(s, e)
    ensures RemovalsOf(Next(s, e), entity) == RemovalsOf(s, entity) + if e == Drop(entity) then 1 else 0
  {
    hide B.Next, Gates.Next, Gates.Enabled;
  }

  lemma {:induction false} RemovalsGrow(trace: seq<System>, events: seq<Event>, n: nat, m: nat, entity: Entity)
    requires IsRun(trace, events) && n <= m < |trace|
    ensures RemovalsOf(trace[n], entity) <= RemovalsOf(trace[m], entity)
    ensures RemovalsOf(trace[n], entity) == RemovalsOf(trace[m], entity) <==> forall k: nat | n <= k < m :: events[k] != Drop(entity)
  {
    hide Next, Enabled, RemovalsOf;
    if n < m {
      RemovalsGrow(trace, events, n, m - 1, entity);
      assert StepAt(trace, events, m - 1);
      RemovalsStep(trace[m - 1], events[m - 1], entity);
    }
  }

  /** Until its look a turn-off keeps the removals it began with. */
  lemma StartingStep(s: System, e: Event, id: Id)
    requires Enabled(s, e) && id in s.turnOffs
    ensures id in Next(s, e).turnOffs && Next(s, e).turnOffs[id].entity == s.turnOffs[id].entity
    ensures Next(s, e).turnOffs[id].stage.Starting? ==> Next(s, e).turnOffs[id].stage == s.turnOffs[id].stage
  {
    hide B.Next, Gates.Next, Gates.Enabled;
  }

  lemma {:induction false} StartingKept(trace: seq<System>, events: seq<Event>, n: nat, m: nat, id: Id)
    requires IsRun(trace, events) && n <= m < |trace| && id in trace[n].turnOffs
    ensures id in trace[m].turnOffs && trace[m].turnOffs[id].entity == trace[n].turnOffs[id].entity
    ensures trace[m].turnOffs[id].stage.Starting? ==> trace[m].turnOffs[id].stage == trace[n].turnOffs[id].stage
  {
    hide Next, Enabled;
    if n < m {
      StartingKept(trace, events, n, m - 1, id);
      assert StepAt(trace, events, m - 1);
      StartingStep(trace[m - 1], events[m - 1], id);
    }
  }

  lemma BeginsAs(s: System, e: Event)
    requires Enabled(s, e) && e.Begins?
    ensures e.id in Next(s, e).turnOffs
    ensures Next(s, e).turnOffs[e.id] == TurnOff(e.entity, e.a, Starting(RemovalsOf(Next(s, e), e.entity)))
  {
  }

  lemma LookDrops(s: System, e: Event)
    requires Enabled(s, e) && e.Looks?
    ensures e.id in Next(s, e).turnOffs
    ensures Next(s, e).turnOffs[e.id].stage == Ended <==> RemovalsOf(s, s.turnOffs[e.id].entity) != s.turnOffs[e.id].stage.removals
  {
    hide B.Next, Gates.Next;
  }

  /** On every run a turn-off's look drops it exactly if its entity was removed since it began. */
  lemma RemovedBeforeLook(trace: seq<System>, events: seq<Event>, begin: nat, look: nat)
    requires IsRun(trace, events) && begin < look < |events|
    requires events[begin].Begins? && events[look].Looks? && events[look].id == events[begin].id
    ensures events[look].id in trace[look + 1].turnOffs
    ensures trace[look + 1].turnOffs[events[look].id].stage == Ended
            <==> exists k: nat | begin < k < look :: events[k] == Drop(events[begin].entity)
  {
    hide Next, RemovalsOf;
    var id, entity := events[begin].id, events[begin].entity;
    assert StepAt(trace, events, begin);
    assert StepAt(trace, events, look);
    BeginsAs(trace[begin], events[begin]);
    StartingKept(trace, events, begin + 1, look, id);
    RemovalsGrow(trace, events, begin + 1, look, entity);
    LookDrops(trace[look], events[look]);
  }
}
