/** A run that shows what the gate does not do: check the radio of a failed call whose ticket another
    call still holds. */
module GateWitness {
  import opened Options
  import opened StableSort
  import opened ConnectGate
  import opened GateLists
  import opened GateRun
  import opened GateTickets

  const ADAPTER := Scanner("adapter", 0)
  const HEARD := Path(ADAPTER, -50, 0, 1.0)

  /** One adapter hears the device well, lists nothing and takes any number of connects. */
  function Quiet(now: int): Env {
    Env(Snapshot(now, a => [HEARD], s => 0, s => Reading(None, {}, 0, false, false)), NoFailure)
  }

  function View0(now: int): PathsView {
    View([HEARD], [HEARD], Some(HEARD), -50.0)
  }

  lemma ViewIs(now: int)
    ensures ViewOf([HEARD], map[], Quiet(now).snap) == View0(now)
  {
    var snap := Quiet(now).snap;
    var one: seq<Path> := [HEARD];
    var none: seq<Path> := [];
    assert one[..0] == none;
    var byRssi := (p: Path) => -(p.rssi as real);
    assert Sort(one, byRssi) == Insert(Sort(one[..0], byRssi), HEARD, byRssi) == none + [HEARD] == one;
    var fit := (p: Path) => Usable(p, map[], now);
    assert Filter(one, fit) == Filter(one[..0], fit) + [HEARD] == none + [HEARD] == one;
    assert FirstFree(one, snap) == Some(HEARD);
  }

  lemma ServedAlone(w: Waiter, now: int)
    ensures Serving([w], map[], Quiet(now).snap) == [Item(w, View0(now))]
  {
    ViewIs(now);
    var views := Views([w], map[], Quiet(now).snap);
    assert views == [Item(w, View0(now))];
    var none: seq<Item> := [];
    assert views[..0] == none;
    assert Sort(views, Rank) == Insert(Sort(views[..0], Rank), views[0], Rank) == none + [views[0]];
  }

  /** Nothing is stuck, listed or in its grace: reading the adapter changes nothing. */
  lemma PreparedSame(g: Gate, waiting: seq<Waiter>, now: int)
    requires g.released == map[] && g.avoided == map[]
    requires forall id | 0 <= id < |g.objects| :: !g.objects[id].connected
    ensures Prepare(g, waiting, Quiet(now).snap) == g
  {
    var snap := Quiet(now).snap;
    assert Prune(g.released, now) == map[];
    assert StuckOnes(map[], SourcesRead(g, waiting, snap), snap) == map[];
    forall id | 0 <= id < |g.objects| ensures Refreshed(g.objects[id], g.releasing, snap) == g.objects[id] {
      NoListing(g.objects[id].address, now);
    }
    assert RefreshObjects(g, g.tickets.Keys, snap) == g.objects;
    assert ConnectedOn(g, g.tickets.Keys, snap) == {};
  }

  lemma NoListing(a: Address, now: int)
    ensures FirstListing([HEARD], a, Quiet(now).snap) == None
  {
    assert [HEARD][1..] == [];
  }

  /** A pump with one call to judge, and nothing else to do, judges it. */
  lemma PumpsOne(g: Gate, w: Waiter, now: int)
    requires g.waiters == [w] && IsPending(g.futures, w.id) && g.checks == [] && g.released == map[] && g.avoided == map[]
    requires forall id | 0 <= id < |g.objects| :: !g.objects[id].connected
    ensures Pump(g, Quiet(now)) == Schedule(Judge(StartJudging(g), Item(w, View0(now)), Quiet(now).snap).gate)
  {
    hide Judge, Prepare, Serving;
    var env := Quiet(now);
    var keep := (v: Waiter) => IsPending(g.futures, v.id);
    var none: seq<Waiter> := [];
    assert g.waiters[..0] == none;
    assert Filter(g.waiters, keep) == Filter(g.waiters[..0], keep) + [w] == none + [w] == [w];
    assert Waiting(g) == [w];
    assert RunChecks(g, env) == g;
    PreparedSame(g, [w], now);
    ServedAlone(w, now);
    var items := [Item(w, View0(now))];
    assert JudgeAll(StartJudging(g), items, 1, env.snap) == Judge(JudgeAll(StartJudging(g), items, 0, env.snap), items[0], env.snap);
  }

  lemma NobodyLeft(w: Waiter)
    ensures Without([w], w.id) == []
  {
    var keep := (v: Waiter) => v.id != w.id;
    var none: seq<Waiter> := [];
    assert [w][..0] == none;
    assert Filter([w], keep) == Filter([w][..0], keep) == none;
  }

  const DEVICE := "AA"

  function After(n: nat): Gate {
    Gate([], if n == 1 then map[0 := Done(FIRST)] else map[0 := Done(FIRST), 1 := Done(SECOND)], map[DEVICE := 0],
         [Ticket(DEVICE, ADAPTER, 0, n as int, false)], map[], map[], [], multiset{}, 0, false)
  }

  const FIRST := Admission(Admitted, 0, Some(ADAPTER), 0, Some(0))
  const SECOND := Admission(Joined, 0, Some(ADAPTER), 0, Some(0))

  /** The first call to a device is admitted. */
  lemma FirstAdmitted()
    ensures Enqueue(INITIAL, Waiter(0, DEVICE, false, 0, false), Quiet(0)) == After(1)
  {
    hide Pump;
    var w := Waiter(0, DEVICE, false, 0, false);
    var g := INITIAL.(waiters := INITIAL.waiters + [w], futures := INITIAL.futures[0 := Pending]);
    var snap := Quiet(0).snap;
    PumpsOne(g, w, 0);
    NobodyLeft(w);
    NoListing(DEVICE, 0);
    assert HasRoom(g, ADAPTER.source, snap);
    assert GoesNow(g, View0(0), snap) == Some(HEARD);
    assert Decide(g, w, View0(0), snap, false, {}).admission == Some(FIRST);
  }

  /** The second joins it. */
  lemma SecondJoins()
    ensures Enqueue(After(1), Waiter(1, DEVICE, false, 0, false), Quiet(0)) == After(2)
  {
    hide Pump;
    var w := Waiter(1, DEVICE, false, 0, false);
    var g := After(1).(waiters := After(1).waiters + [w], futures := After(1).futures[1 := Pending]);
    PumpsOne(g, w, 0);
    NobodyLeft(w);
    assert Decide(g, w, View0(0), Quiet(0).snap, false, {}).admission == Some(SECOND);
  }

  lemma Extend(trace: seq<System>, events: seq<Event>, e: Event, s': System)
    requires IsRun(trace, events) && Enabled(trace[|events|], e) && s' == Next(trace[|events|], e)
    ensures IsRun(trace + [s'], events + [e])
  {
    hide Next, Enabled;
    var longer, more := trace + [s'], events + [e];
    forall k: nat | k < |more| ensures StepAt(longer, more, k) {
      if k < |events| {
        assert StepAt(trace, events, k);
      }
    }
  }

  /** Two calls share the device's ticket; the first runs. */
  lemma TwoShare() returns (trace: seq<System>, events: seq<Event>)
    ensures IsRun(trace, events) && |events| == 3 && |trace| == 4
    ensures trace[3] == System(After(2), map[0 := Running, 1 := Queued], 0)
  {
    hide Enqueue;
    FirstAdmitted();
    SecondJoins();
    trace, events := [START], [];
    var s1 := System(After(1), map[0 := Queued], 0);
    assert Next(START, Call(0, DEVICE, false, false, Quiet(0))) == s1;
    Extend(trace, events, Call(0, DEVICE, false, false, Quiet(0)), s1);
    trace, events := trace + [s1], events + [Call(0, DEVICE, false, false, Quiet(0))];
    var s2 := System(After(2), map[0 := Queued, 1 := Queued], 0);
    assert Next(s1, Call(1, DEVICE, false, false, Quiet(0))) == s2;
    Extend(trace, events, Call(1, DEVICE, false, false, Quiet(0)), s2);
    trace, events := trace + [s2], events + [Call(1, DEVICE, false, false, Quiet(0))];
    var s3 := System(After(2), map[0 := Running, 1 := Queued], 0);
    assert Next(s2, Resume(0)) == s3;
    Extend(trace, events, Resume(0), s3);
    trace, events := trace + [s3], events + [Resume(0)];
  }

  /** The first fails, and no check is queued for its radio: the other call still holds the ticket. */
  lemma FailureWithoutCheck()
    ensures exists trace: seq<System>, events: seq<Event> ::
              && IsRun(trace, events) && |events| == 4 && |trace| == 5
              && events[3].Finish? && !events[3].ok && Carried(trace[3].gate, events[3].id) == Some(0)
              && 0 < |trace[3].gate.objects| && trace[3].gate.objects[0].holders == 2
              && trace[4].gate.checks == []
  {
    hide NextGate, IsRun;
    var trace, events := TwoShare();
    var s3, e := trace[3], Finish(0, false, Quiet(0));
    var s4 := Next(s3, e);
    Extend(trace, events, e, s4);
    NoCheck();
    trace, events := trace + [s4], events + [e];
    assert trace[3] == s3 && events[3] == e && trace[4].gate.checks == [];
  }

  lemma NoCheck()
    ensures NextGate(System(After(2), map[0 := Running, 1 := Queued], 0), Finish(0, false, Quiet(0))).checks == []
  {
    hide Pump;
  }
}
