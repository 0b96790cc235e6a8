/** The integration-wide tracker of entity commands: when commands to several devices overlap, every
    device's background polls wait until a tail after the last of them. */
module Burst {
  import opened Options
  import opened Counting

  type Address = string

  datatype Burst = Burst(
    running: map<Address, nat>,
    deferred: map<Address, nat>,
    active: bool,
    tailArmed: bool,
    windows: map<Address, bool>)

  const QUIET := Burst(map[], map[], false, false, map[])

  function CountOf(counts: map<Address, nat>, a: Address): nat {
    if a in counts then counts[a] else 0
  }

  function OneMore(counts: map<Address, nat>, a: Address): map<Address, nat> {
    counts[a := CountOf(counts, a) + 1]
  }

  /** A count that reaches zero (or was none) leaves the map. */
  function OneLess(counts: map<Address, nat>, a: Address): map<Address, nat> {
    if CountOf(counts, a) > 1 then counts[a := counts[a] - 1] else counts - {a}
  }

  function CancelEnd(b: Burst): Burst {
    b.(tailArmed := false)
  }

  function MaybeStart(b: Burst): Burst {
    if !b.active && |b.running.Keys + b.deferred.Keys| > 1 then b.(active := true) else b
  }

  /** `loaded`: some config entry is loaded; a timer would outlive the integration otherwise. */
  function StartTail(b: Burst, loaded: bool): Burst {
    if loaded then b.(tailArmed := true) else b.(tailArmed := false, active := false)
  }

  function TailIfDone(b: Burst, loaded: bool): Burst {
    if b.active && b.running == map[] && b.deferred == map[] then StartTail(b, loaded) else b
  }

  datatype Event =
    | CommandStarted(a: Address)
    | CommandFinished(a: Address, loaded: bool)
    | DeferredStarted(a: Address)
    | DeferredFinished(a: Address, loaded: bool)
    | Unload(loaded: bool)
    | TailEnds
    | OpenWindow(a: Address)
    | CloseWindow(a: Address)

  function Open(windows: map<Address, bool>, a: Address): map<Address, bool> {
    var open := if a in windows then windows else windows[a := false];
    if |open| > 1 then map w | w in open :: true else open
  }

  function Next(b: Burst, e: Event): Burst {
    match e
    case CommandStarted(a) => MaybeStart(CancelEnd(b.(running := OneMore(b.running, a))))
    case CommandFinished(a, loaded) => TailIfDone(b.(running := OneLess(b.running, a)), loaded)
    case DeferredStarted(a) => MaybeStart(CancelEnd(b.(deferred := OneMore(b.deferred, a))))
    case DeferredFinished(a, loaded) => TailIfDone(b.(deferred := OneLess(b.deferred, a)), loaded)
    case Unload(loaded) =>
      if loaded then b
      else if b.running == map[] && b.deferred == map[] then CancelEnd(b).(active := false)
      else CancelEnd(b)
    case TailEnds => b.(tailArmed := false, active := false)
    case OpenWindow(a) => b.(windows := Open(b.windows, a))
    case CloseWindow(a) => b.(windows := b.windows - {a})
  }

  // ---- the tail ----

  /** The timer is armed exactly while a burst is active and nothing runs or waits: so a burst never
      stays active with nothing to end it, and never ends while a command runs. */
  ghost predicate TailExact(b: Burst) {
    b.tailArmed <==> b.active && b.running == map[] && b.deferred == map[]
  }

  ghost predicate Positive(counts: map<Address, nat>) {
    forall a | a in counts :: counts[a] > 0
  }

  lemma CountsStayPositive(counts: map<Address, nat>, a: Address)
    requires Positive(counts)
    ensures Positive(OneMore(counts, a)) && Positive(OneLess(counts, a))
    ensures a in OneMore(counts, a)
  {
  }

  lemma StepKeepsTail(b: Burst, e: Event)
    requires TailExact(b) && (e.TailEnds? ==> b.tailArmed)
    ensures TailExact(Next(b, e))
    ensures e.TailEnds? ==> b.running == map[] && b.deferred == map[]
  {
    if e.CommandStarted? {
      SomeKey(b.running, e.a);
    } else if e.DeferredStarted? {
      SomeKey(b.deferred, e.a);
    }
    hide OneMore, OneLess, Open;
  }

  lemma SomeKey(counts: map<Address, nat>, a: Address)
    ensures OneMore(counts, a) != map[]
  {
    assert a in OneMore(counts, a);
  }

  lemma StepKeepsPositive(b: Burst, e: Event)
    requires Positive(b.running) && Positive(b.deferred)
    ensures Positive(Next(b, e).running) && Positive(Next(b, e).deferred)
  {
    hide OneMore, OneLess, Open, Positive;
    match e
    case CommandStarted(a) => CountsStayPositive(b.running, a);
    case CommandFinished(a, _) => CountsStayPositive(b.running, a);
    case DeferredStarted(a) => CountsStayPositive(b.deferred, a);
    case DeferredFinished(a, _) => CountsStayPositive(b.deferred, a);
    case _ =>
  }

  ghost predicate StepAt(trace: seq<Burst>, events: seq<Event>, k: nat)
    requires k < |events| && |trace| == |events| + 1
  {
    (events[k].TailEnds? ==> trace[k].tailArmed) && trace[k + 1] == Next(trace[k], events[k])
  }

  /** A run: any events in any order, but a timer fires only while armed. */
  ghost predicate IsRun(trace: seq<Burst>, events: seq<Event>) {
    && |trace| == |events| + 1
    && trace[0] == QUIET
    && (forall k: nat | k < |events| :: StepAt(trace, events, k))
  }

  lemma {:induction false} TailAlwaysExact(trace: seq<Burst>, events: seq<Event>, n: nat)
    requires IsRun(trace, events) && n < |trace|
    ensures TailExact(trace[n]) && Positive(trace[n].running) && Positive(trace[n].deferred)
  {
    if n > 0 {
      TailAlwaysExact(trace, events, n - 1);
      assert StepAt(trace, events, n - 1);
      StepKeepsTail(trace[n - 1], events[n - 1]);
      StepKeepsPositive(trace[n - 1], events[n - 1]);
    }
  }

  ghost predicate SeveralActive(b: Burst) {
    |b.running.Keys + b.deferred.Keys| > 1 ==> b.active
  }

  lemma StepKeepsSeveral(b: Burst, e: Event)
    requires TailExact(b) && SeveralActive(b) && (e.TailEnds? ==> b.tailArmed)
    ensures SeveralActive(Next(b, e))
  {
    hide OneMore, OneLess, Open;
    match e
    case CommandFinished(a, loaded) =>
      LessKeys(b.running, a);
      FewerKeys(OneLess(b.running, a).Keys + b.deferred.Keys, b.running.Keys + b.deferred.Keys);
      TailKeepsSeveral(b.(running := OneLess(b.running, a)), loaded);
    case DeferredFinished(a, loaded) =>
      LessKeys(b.deferred, a);
      FewerKeys(b.running.Keys + OneLess(b.deferred, a).Keys, b.running.Keys + b.deferred.Keys);
      TailKeepsSeveral(b.(deferred := OneLess(b.deferred, a)), loaded);
    case CommandStarted(a) => MaybeStartSeveral(CancelEnd(b.(running := OneMore(b.running, a))));
    case DeferredStarted(a) => MaybeStartSeveral(CancelEnd(b.(deferred := OneMore(b.deferred, a))));
    case _ =>
  }

  lemma TailKeepsSeveral(b: Burst, loaded: bool)
    requires SeveralActive(b)
    ensures SeveralActive(TailIfDone(b, loaded))
  {
    if b.running == map[] && b.deferred == map[] {
      assert b.running.Keys + b.deferred.Keys == {};
    }
  }

  lemma MaybeStartSeveral(b: Burst)
    ensures SeveralActive(MaybeStart(b))
  {
  }

  lemma LessKeys(counts: map<Address, nat>, a: Address)
    ensures OneLess(counts, a).Keys <= counts.Keys
  {
  }

  /** Two devices with a command or a waiting turn-off at once always mean a burst. */
  lemma {:induction false} SeveralDevicesActive(trace: seq<Burst>, events: seq<Event>, n: nat)
    requires IsRun(trace, events) && n < |trace|
    ensures SeveralActive(trace[n])
  {
    hide Next, SeveralActive;
    if n == 0 {
      QuietSeveral();
    } else {
      SeveralDevicesActive(trace, events, n - 1);
      TailAlwaysExact(trace, events, n - 1);
      assert StepAt(trace, events, n - 1);
      StepKeepsSeveral(trace[n - 1], events[n - 1]);
    }
  }

  lemma QuietSeveral()
    ensures SeveralActive(QUIET)
  {
  }

  lemma FewerKeys(less: set<Address>, more: set<Address>)
    requires less <= more
    ensures |less| <= |more|
  {
    assert more == less + (more - less);
  }

  // ---- command windows ----

  /** At some moment since the device's window last opened, another's was open too. */
  ghost predicate Accompanied(trace: seq<Burst>, n: nat, a: Address)
    requires n < |trace|
  {
    exists k: nat | k <= n :: SharedSince(trace, k, n, a)
  }

  ghost predicate SharedSince(trace: seq<Burst>, k: nat, n: nat, a: Address)
    requires k <= n < |trace|
  {
    (forall i | k <= i <= n :: a in trace[i].windows) && exists b :: b != a && b in trace[k].windows
  }

  /** How one event changes a device's window. */
  lemma WindowStep(b: Burst, e: Event, a: Address)
    requires a in Next(b, e).windows
    ensures var others := exists c :: c != a && c in Next(b, e).windows;
            if a in b.windows then
              && (Next(b, e).windows[a] ==> b.windows[a] || others)
              && (b.windows[a] ==> Next(b, e).windows[a])
              && (others && e.OpenWindow? ==> Next(b, e).windows[a])
              && (others && !e.OpenWindow? ==> exists c :: c != a && c in b.windows)
            else Next(b, e).windows[a] <==> others
  {
    hide OneMore, OneLess, Open, MaybeStart, TailIfDone, StartTail;
    if e.OpenWindow? {
      OpenShares(b.windows, e.a, a);
      OpenAdds(b.windows, e.a, a);
    } else {
      WindowsKept(b, e);
    }
  }

  lemma OpenAdds(windows: map<Address, bool>, newly: Address, a: Address)
    ensures a in windows ==> a in Open(windows, newly) && (windows[a] ==> Open(windows, newly)[a])
  {
  }

  /** No other event opens a window or changes a flag. */
  lemma WindowsKept(b: Burst, e: Event)
    requires !e.OpenWindow?
    ensures Next(b, e).windows == if e.CloseWindow? then b.windows - {e.a} else b.windows
  {
    hide OneMore, OneLess, Open, MaybeStart, TailIfDone;
    match e
    case CommandStarted(a) => HelpersKeepWindows(CancelEnd(b.(running := OneMore(b.running, a))), false);
    case CommandFinished(a, loaded) => HelpersKeepWindows(b.(running := OneLess(b.running, a)), loaded);
    case DeferredStarted(a) => HelpersKeepWindows(CancelEnd(b.(deferred := OneMore(b.deferred, a))), false);
    case DeferredFinished(a, loaded) => HelpersKeepWindows(b.(deferred := OneLess(b.deferred, a)), loaded);
    case _ =>
  }

  lemma HelpersKeepWindows(b: Burst, loaded: bool)
    ensures MaybeStart(b).windows == b.windows && TailIfDone(b, loaded).windows == b.windows
  {
  }

  lemma OpenShares(windows: map<Address, bool>, newly: Address, a: Address)
    requires a in Open(windows, newly)
    ensures Open(windows, newly)[a] <==> (a in windows && windows[a]) || exists b :: b != a && b in Open(windows, newly)
  {
    var all := if newly in windows then windows else windows[newly := false];
    assert |all| == |all.Keys|;
    if exists b :: b != a && b in all {
      var b :| b != a && b in all;
      FewerKeys({a, b}, all.Keys);
      assert b in Open(windows, newly);
    } else {
      assert all.Keys == {a};
    }
  }

  /** An open window's flag says exactly that; so closing it returns exactly that. */
  lemma {:induction false} WindowHistory(trace: seq<Burst>, events: seq<Event>, n: nat, a: Address)
    requires IsRun(trace, events) && n < |trace| && a in trace[n].windows
    ensures trace[n].windows[a] <==> Accompanied(trace, n, a)
  {
    hide Next;
    assert n > 0;
    assert StepAt(trace, events, n - 1);
    var before, after := trace[n - 1].windows, trace[n].windows;
    WindowStep(trace[n - 1], events[n - 1], a);
    if a in before {
      WindowHistory(trace, events, n - 1, a);
    }
    if after[a] {
      if a in before && before[a] {
        var k: nat :| k <= n - 1 && SharedSince(trace, k, n - 1, a);
        assert SharedSince(trace, k, n, a);
      } else {
        assert SharedSince(trace, n, n, a);
      }
    }
    if Accompanied(trace, n, a) {
      var k: nat :| k <= n && SharedSince(trace, k, n, a);
      if k < n {
        assert SharedSince(trace, k, n - 1, a);
      } else if a in before && !events[n - 1].OpenWindow? {
        assert SharedSince(trace, n - 1, n - 1, a);
      }
    }
  }

  // ---- the counts, from the events ----

  /** The commands to the device started and not ended yet. */
  function Commands(events: seq<Event>, n: nat, a: Address): nat
    requires n <= |events|
  {
    Outstanding(events, n, (e: Event) => e.CommandStarted? && e.a == a, (e: Event) => e.CommandFinished? && e.a == a)
  }

  /** Its turn-offs waiting in the deferral. */
  function Deferred(events: seq<Event>, n: nat, a: Address): nat
    requires n <= |events|
  {
    Outstanding(events, n, (e: Event) => e.DeferredStarted? && e.a == a, (e: Event) => e.DeferredFinished? && e.a == a)
  }

  predicate Counts(counts: map<Address, nat>, a: Address, n: nat) {
    if n == 0 then a !in counts else a in counts && counts[a] == n
  }

  lemma HelpersKeepCounts(b: Burst, loaded: bool)
    ensures MaybeStart(b) == b.(active := MaybeStart(b).active)
    ensures TailIfDone(b, loaded) == b.(active := TailIfDone(b, loaded).active, tailArmed := TailIfDone(b, loaded).tailArmed)
  {
  }

  /** What each event does to the counts. */
  lemma StepCounts(b: Burst, e: Event)
    ensures Next(b, e).running == match e
              case CommandStarted(a) => OneMore(b.running, a)
              case CommandFinished(a, _) => OneLess(b.running, a)
              case _ => b.running
    ensures Next(b, e).deferred == match e
              case DeferredStarted(a) => OneMore(b.deferred, a)
              case DeferredFinished(a, _) => OneLess(b.deferred, a)
              case _ => b.deferred
  {
    hide OneMore, OneLess, Open, MaybeStart, TailIfDone;
    match e
    case CommandStarted(a) => HelpersKeepCounts(CancelEnd(b.(running := OneMore(b.running, a))), false);
    case CommandFinished(a, loaded) => HelpersKeepCounts(b.(running := OneLess(b.running, a)), loaded);
    case DeferredStarted(a) => HelpersKeepCounts(CancelEnd(b.(deferred := OneMore(b.deferred, a))), false);
    case DeferredFinished(a, loaded) => HelpersKeepCounts(b.(deferred := OneLess(b.deferred, a)), loaded);
    case _ =>
  }

  /** On every run each device counts exactly its commands started and not ended, and its turn-offs
      still waiting; it is in the map exactly while there is one. */
  lemma {:induction false} CountsExact(trace: seq<Burst>, events: seq<Event>, n: nat, a: Address)
    requires IsRun(trace, events) && n < |trace|
    ensures Counts(trace[n].running, a, Commands(events, n, a))
    ensures Counts(trace[n].deferred, a, Deferred(events, n, a))
  {
    hide Next;
    if n > 0 {
      CountsExact(trace, events, n - 1, a);
      assert StepAt(trace, events, n - 1);
      StepCounts(trace[n - 1], events[n - 1]);
    }
  }

  // ---- the burst, from the events ----

  /** A command to the device runs, or a turn-off of it waits. */
  predicate Involved(events: seq<Event>, n: nat, a: Address)
    requires n <= |events|
  {
    Commands(events, n, a) > 0 || Deferred(events, n, a) > 0
  }

  ghost predicate NoneInvolved(events: seq<Event>, n: nat)
    requires n <= |events|
  {
    forall a :: !Involved(events, n, a)
  }

  ghost predicate SeveralInvolved(events: seq<Event>, n: nat)
    requires n <= |events|
  {
    exists a, b :: a != b && Involved(events, n, a) && Involved(events, n, b)
  }

  /** With the `n`-th event a burst ends: the tail's timer fires, or no entry is loaded any more as
      nothing runs or waits any more. */
  ghost predicate EndsBurst(events: seq<Event>, n: nat)
    requires 0 < n <= |events|
  {
    var e := events[n - 1];
    e.TailEnds? || ((e.Unload? || e.CommandFinished? || e.DeferredFinished?) && !e.loaded && NoneInvolved(events, n))
  }

  /** Several devices were involved at once, and no burst ended since. */
  ghost predicate BurstSince(events: seq<Event>, n: nat)
    requires n <= |events|
  {
    exists k | 0 <= k <= n :: SeveralInvolved(events, k) && forall l | k < l <= n :: !EndsBurst(events, l)
  }

  lemma InvolvedInMaps(trace: seq<Burst>, events: seq<Event>, n: nat)
    requires IsRun(trace, events) && n < |trace|
    ensures forall a :: Involved(events, n, a) <==> a in trace[n].running.Keys + trace[n].deferred.Keys
  {
    hide Commands, Deferred, StepAt;
    forall a ensures Involved(events, n, a) <==> a in trace[n].running.Keys + trace[n].deferred.Keys {
      CountsExact(trace, events, n, a);
    }
  }

  lemma InvolvedAre(trace: seq<Burst>, events: seq<Event>, n: nat)
    requires IsRun(trace, events) && n < |trace|
    ensures forall a :: Involved(events, n, a) <==> a in trace[n].running.Keys + trace[n].deferred.Keys
    ensures NoneInvolved(events, n) <==> trace[n].running == map[] && trace[n].deferred == map[]
    ensures SeveralInvolved(events, n) <==> |trace[n].running.Keys + trace[n].deferred.Keys| > 1
  {
    hide Commands, Deferred, StepAt;
    var b := trace[n];
    var devices := b.running.Keys + b.deferred.Keys;
    InvolvedInMaps(trace, events, n);
    hide Involved;
    if b.running == map[] && b.deferred == map[] {
      assert devices == {};
    } else if b.running != map[] {
      var a :| a in b.running;
      assert Involved(events, n, a);
    } else {
      var a :| a in b.deferred;
      assert Involved(events, n, a);
    }
    TwoOf(devices);
  }

  lemma TwoOf(devices: set<Address>)
    ensures |devices| > 1 <==> exists a, b :: a != b && a in devices && b in devices
  {
    if |devices| > 1 {
      var a :| a in devices;
      assert |devices - {a}| > 0;
      var b :| b in devices - {a};
    }
    if a, b :| a != b && a in devices && b in devices {
      FewerKeys({a, b}, devices);
    }
  }

  lemma TailActive(b: Burst, loaded: bool)
    ensures TailIfDone(b, loaded).active <==> b.active && (loaded || b.running != map[] || b.deferred != map[])
    ensures MaybeStart(b).active <==> b.active || |b.running.Keys + b.deferred.Keys| > 1
  {
  }

  predicate EndsWith(b': Burst, e: Event) {
    e.TailEnds?
    || ((e.Unload? || e.CommandFinished? || e.DeferredFinished?) && !e.loaded && b'.running == map[] && b'.deferred == map[])
  }

  /** How one event changes whether a burst is on. */
  lemma StepActive(b: Burst, e: Event)
    requires SeveralActive(b)
    ensures Next(b, e).active <==>
              !EndsWith(Next(b, e), e) && (b.active || |Next(b, e).running.Keys + Next(b, e).deferred.Keys| > 1)
  {
    hide OneMore, OneLess, Open, MaybeStart, TailIfDone;
    StepCounts(b, e);
    match e
    case CommandStarted(a) =>
      TailActive(CancelEnd(b.(running := OneMore(b.running, a))), false);
      SomeKey(b.running, a);
    case DeferredStarted(a) =>
      TailActive(CancelEnd(b.(deferred := OneMore(b.deferred, a))), false);
      SomeKey(b.deferred, a);
    case CommandFinished(a, loaded) =>
      LessKeys(b.running, a);
      FewerKeys(OneLess(b.running, a).Keys + b.deferred.Keys, b.running.Keys + b.deferred.Keys);
      TailActive(b.(running := OneLess(b.running, a)), loaded);
    case DeferredFinished(a, loaded) =>
      LessKeys(b.deferred, a);
      FewerKeys(b.running.Keys + OneLess(b.deferred, a).Keys, b.running.Keys + b.deferred.Keys);
      TailActive(b.(deferred := OneLess(b.deferred, a)), loaded);
    case _ =>
  }

  lemma ActiveStep(trace: seq<Burst>, events: seq<Event>, n: nat)
    requires IsRun(trace, events) && 0 < n < |trace|
    ensures trace[n].active <==> SeveralInvolved(events, n) || (trace[n - 1].active && !EndsBurst(events, n))
  {
    hide Next, NoneInvolved, SeveralInvolved, Involved;
    InvolvedAre(trace, events, n);
    TailAlwaysExact(trace, events, n - 1);
    SeveralDevicesActive(trace, events, n - 1);
    SeveralDevicesActive(trace, events, n);
    assert StepAt(trace, events, n - 1);
    StepActive(trace[n - 1], events[n - 1]);
  }

  /** On every run a burst is on exactly if several devices were involved at once and none ended
      since; and its tail's timer is armed exactly while, in a burst, every command started has ended
      and no turn-off waits. */
  lemma {:induction false} BurstFromEvents(trace: seq<Burst>, events: seq<Event>, n: nat)
    requires IsRun(trace, events) && n < |trace|
    ensures trace[n].active <==> BurstSince(events, n)
    ensures trace[n].tailArmed <==> BurstSince(events, n) && NoneInvolved(events, n)
  {
    hide StepAt, NoneInvolved, SeveralInvolved, EndsBurst;
    InvolvedAre(trace, events, n);
    if n == 0 {
      assert QUIET.running.Keys + QUIET.deferred.Keys == {};
    } else {
      BurstFromEvents(trace, events, n - 1);
      ActiveStep(trace, events, n);
      SinceStep(events, n);
    }
    TailAlwaysExact(trace, events, n);
  }

  lemma SinceStep(events: seq<Event>, n: nat)
    requires 0 < n <= |events|
    ensures BurstSince(events, n) <==> SeveralInvolved(events, n) || (BurstSince(events, n - 1) && !EndsBurst(events, n))
  {
    hide SeveralInvolved, EndsBurst;
    if k :| 0 <= k <= n && SeveralInvolved(events, k) && forall l | k < l <= n :: !EndsBurst(events, l) {
      assert k < n ==> !EndsBurst(events, n);
    }
  }

  // ---- windows, from the events ----

  /** The device's window opened, and has not closed since. */
  ghost predicate OpenSince(events: seq<Event>, n: nat, a: Address)
    requires n <= |events|
  {
    exists k | 0 <= k < n :: events[k] == OpenWindow(a) && forall l | k < l < n :: events[l] != CloseWindow(a)
  }

  /** On every run a window is open exactly so. */
  lemma {:induction false} WindowsExact(trace: seq<Burst>, events: seq<Event>, n: nat, a: Address)
    requires IsRun(trace, events) && n < |trace|
    ensures a in trace[n].windows <==> OpenSince(events, n, a)
  {
    hide Next;
    if n > 0 {
      WindowsExact(trace, events, n - 1, a);
      assert StepAt(trace, events, n - 1);
      WindowKeys(trace[n - 1], events[n - 1], a);
      if k :| 0 <= k < n && events[k] == OpenWindow(a) && forall l | k < l < n :: events[l] != CloseWindow(a) {
        assert k < n - 1 ==> events[n - 1] != CloseWindow(a);
      }
    }
  }

  lemma WindowKeys(b: Burst, e: Event, a: Address)
    ensures a in Next(b, e).windows <==> e == OpenWindow(a) || (a in b.windows && e != CloseWindow(a))
  {
    hide MaybeStart, TailIfDone, OneMore, OneLess;
    if !e.OpenWindow? {
      WindowsKept(b, e);
    }
  }
}
