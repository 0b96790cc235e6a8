/** The connect gate's state and one step of it, as functions of the state before. The class in
    GateObject.dfy works in place and is proved against these; the Gate*.dfy modules prove what
    the steps promise.

    Times are whole milliseconds. Every ticket ever issued is an object in `objects`, named by its
    index: a call's admission and the gate's map share one object, as in the program. */
module ConnectGate {
  import opened Options
  import opened StableSort

  const MAX_WAIT := 12_000
  const AVOID := 300_000
  const RELEASE_GRACE := 3_000
  const RSSI_FLOOR := -85
  const PATH_FAILURES := 3
  const IN_FLIGHT_PER_PROXY := 1

  type Address = string
  type Source = string
  type CallId = nat
  type TicketId = nat

  /** A scanner object: one source may be served by several over time (a proxy that reconnected). */
  datatype Scanner = Scanner(source: Source, instance: nat)

  datatype Outcome = Linked | Joined | Unseen | Admitted | Capped | Unjudged | Released

  datatype Ticket = Ticket(address: Address, scanner: Scanner, admittedAt: int, holders: int, connected: bool)

  datatype Admission = Admission(
    outcome: Outcome, waited: int, radio: Option<Scanner>, admittedAt: int, ticket: Option<TicketId>)

  datatype Waiter = Waiter(id: CallId, address: Address, poll: bool, queuedAt: int, last: bool)

  datatype Future = Pending | Cancelled | Done(admission: Admission)

  /** What a scanner reports. `freeSlots` is None when it reports no slot count. */
  datatype Reading = Reading(freeSlots: Option<int>, listed: set<Address>, inProgress: nat, deaf: bool, proxy: bool) {
    predicate Stuck() {
      deaf && !(inProgress > 0 && listed != {})
    }

    predicate HasFreeSlot() {
      freeSlots.None? || freeSlots.value > 0
    }
  }

  /** A device's path through one scanner; `score` is habluetooth's score for it now. */
  datatype Path = Path(scanner: Scanner, rssi: int, failures: int, score: real)

  /** What the outside world answers during one step: a step reads it at one moment. `instance` is
      the scanner object a pass reads for a source (the first one it meets). */
  datatype Snapshot = Snapshot(
    now: int, paths: Address -> seq<Path>, instance: Source -> nat, read: Scanner -> Reading)
  {
    function At(source: Source): Scanner {
      Scanner(source, instance(source))
    }

    function Radio(source: Source): Reading {
      read(At(source))
    }
  }

  /** Where reading the scanners fails, if it does: while checking the radios of failed calls,
      before a pass changes anything, while it views the paths, or after it judged some calls. */
  datatype Failure = NoFailure | InChecks(checked: nat) | InRead | InViews | AfterJudging(judged: nat)

  datatype Env = Env(snap: Snapshot, failure: Failure)

  datatype Gate = Gate(
    waiters: seq<Waiter>,
    futures: map<CallId, Future>,
    tickets: map<Address, TicketId>,
    objects: seq<Ticket>,
    avoided: map<Source, int>,
    released: map<Source, int>,
    checks: seq<(int, TicketId)>,
    releasing: multiset<Address>,
    deferredOffs: int,
    ticking: bool)
  {
    /** A dangling name (never met: `GateTickets.Coherent`) reads as a ticket of no device. */
    function Object(id: TicketId): Ticket {
      if id < |objects| then objects[id] else Ticket("", Scanner("", 0), 0, 0, false)
    }

    function TicketOf(a: Address): Ticket
      requires a in tickets
    {
      Object(tickets[a])
    }

    /** The ticket object is the one the map holds for its device. */
    predicate Live(id: TicketId) {
      id < |objects| && objects[id].address in tickets && tickets[objects[id].address] == id
    }
  }

  const INITIAL := Gate([], map[], map[], [], map[], map[], [], multiset{}, 0, false)

  // ---- lists ----

  function Filter<T>(s: seq<T>, keep: T -> bool): seq<T> {
    if |s| == 0 then []
    else if keep(s[|s| - 1]) then Filter(s[..|s| - 1], keep) + [s[|s| - 1]]
    else Filter(s[..|s| - 1], keep)
  }

  function Without(waiters: seq<Waiter>, id: CallId): seq<Waiter> {
    Filter(waiters, (w: Waiter) => w.id != id)
  }

  predicate IsPending(futures: map<CallId, Future>, id: CallId) {
    id in futures && futures[id].Pending?
  }

  function Waiting(g: Gate): seq<Waiter> {
    Filter(g.waiters, (w: Waiter) => IsPending(g.futures, w.id))
  }

  // ---- reading a device's paths ----

  datatype PathsView = View(paths: seq<Path>, usable: seq<Path>, predicted: Option<Path>, score: real)

  /** A device with a path has one that counts as usable. */
  type View = v: PathsView | v.paths != [] ==> v.usable != [] witness View([], [], None, 0.0)

  predicate NotAvoided(avoided: map<Source, int>, source: Source, now: int) {
    source !in avoided || avoided[source] <= now
  }

  predicate Usable(path: Path, avoided: map<Source, int>, now: int) {
    path.rssi >= RSSI_FLOOR && path.failures < PATH_FAILURES && NotAvoided(avoided, path.scanner.source, now)
  }

  function UsablePaths(paths: seq<Path>, avoided: map<Source, int>, now: int): seq<Path> {
    var fit := Filter(paths, (p: Path) => Usable(p, avoided, now));
    if fit == [] then paths else fit
  }

  function FirstFree(ranked: seq<Path>, snap: Snapshot): Option<Path> {
    if |ranked| == 0 then None
    else if snap.Radio(ranked[0].scanner.source).HasFreeSlot() then Some(ranked[0])
    else FirstFree(ranked[1..], snap)
  }

  /** With one path habluetooth scores it by its RSSI. */
  function Score(path: Path, alone: bool): real {
    if alone then path.rssi as real else path.score
  }

  function Ranked(paths: seq<Path>): seq<Path> {
    var byRssi := Sort(paths, (p: Path) => -(p.rssi as real));
    if |paths| > 1 then Sort(byRssi, (p: Path) => -p.score) else byRssi
  }

  function Predict(paths: seq<Path>, snap: Snapshot): Option<Path> {
    FirstFree(Ranked(paths), snap)
  }

  function ViewOf(paths: seq<Path>, avoided: map<Source, int>, snap: Snapshot): View {
    var predicted := Predict(paths, snap);
    View(paths, UsablePaths(paths, avoided, snap.now), predicted,
         if predicted.Some? then Score(predicted.value, |paths| <= 1) else 0.0)
  }

  /** The first of the best-heard paths (Python's `max`). */
  function BestHeard(paths: seq<Path>): Path
    requires |paths| > 0
  {
    var last := paths[|paths| - 1];
    if |paths| == 1 then last
    else var best := BestHeard(paths[..|paths| - 1]); if last.rssi > best.rssi then last else best
  }

  // ---- room on a radio ----

  predicate CountsOn(g: Gate, a: Address, source: Source, now: int) {
    && a in g.tickets
    && g.TicketOf(a).scanner.source == source
    && now - g.TicketOf(a).admittedAt < MAX_WAIT
  }

  /** Our unexpired tickets on a source that its radio doesn't list yet. */
  function Unlisted(g: Gate, source: Source, snap: Snapshot): set<Address> {
    set a | a in g.tickets && CountsOn(g, a, source, snap.now)
            && g.TicketOf(a).address !in snap.Radio(source).listed
  }

  /** Our unexpired tickets on a source not seen connected. */
  function Connecting(g: Gate, source: Source, now: int): set<Address> {
    set a | a in g.tickets && CountsOn(g, a, source, now) && !g.TicketOf(a).connected
  }

  function Max(x: int, y: int): int {
    if x < y then y else x
  }

  predicate HasRoom(g: Gate, source: Source, snap: Snapshot) {
    var radio := snap.Radio(source);
    && !(radio.proxy && Max(radio.inProgress, |Connecting(g, source, snap.now)|) >= IN_FLIGHT_PER_PROXY)
    && (radio.freeSlots.None? || radio.freeSlots.value - |Unlisted(g, source, snap)| > 0)
  }

  predicate Busy(g: Gate, path: Path, snap: Snapshot) {
    snap.Radio(path.scanner.source).inProgress > 0 || !HasRoom(g, path.scanner.source, snap)
  }

  function GoesNow(g: Gate, view: View, snap: Snapshot): Option<Path> {
    if view.predicted.None? || !HasRoom(g, view.predicted.value.scanner.source, snap) then None
    else if view.predicted.value in view.usable
            || !(exists p | p in view.usable :: p.rssi as real > view.score && Busy(g, p, snap))
    then view.predicted
    else None
  }

  // ---- deciding one call ----

  datatype Decision = Decision(gate: Gate, admission: Option<Admission>, capped: set<Source>)

  function FirstListing(paths: seq<Path>, a: Address, snap: Snapshot): Option<Scanner> {
    if |paths| == 0 then None
    else if a in snap.Radio(paths[0].scanner.source).listed then Some(paths[0].scanner)
    else FirstListing(paths[1..], a, snap)
  }

  function Admit(g: Gate, w: Waiter, outcome: Outcome, scanner: Scanner, now: int): (Gate, Admission) {
    var id := |g.objects|;
    (g.(tickets := g.tickets[w.address := id],
        objects := g.objects + [Ticket(w.address, scanner, now, 1, false)]),
     Admission(outcome, now - w.queuedAt, Some(scanner), now, Some(id)))
  }

  /** Joins a live ticket, one more holder. */
  function Join(g: Gate, w: Waiter, now: int): (Gate, Admission)
    requires w.address in g.tickets
  {
    var id := g.tickets[w.address];
    var t := g.Object(id);
    (if id < |g.objects| then g.(objects := g.objects[id := t.(holders := t.holders + 1)]) else g,
     Admission(Joined, now - w.queuedAt, Some(t.scanner), now, Some(id)))
  }

  function Decide(g: Gate, w: Waiter, view: View, snap: Snapshot, behindCommand: bool, capped: set<Source>): Decision {
    var waited := snap.now - w.queuedAt;
    if w.address in g.tickets then
      var (g', admission) := Join(g, w, snap.now);
      Decision(g', Some(admission), capped)
    else if view.paths == [] then
      Decision(g, Some(Admission(Unseen, waited, None, snap.now, None)), capped)
    else if g.releasing[w.address] == 0 && FirstListing(view.paths, w.address, snap).Some? then
      Decision(g, Some(Admission(Linked, waited, FirstListing(view.paths, w.address, snap), snap.now, None)), capped)
    else
      var predicted := if behindCommand then None else GoesNow(g, view, snap);
      if predicted.Some? then
        var (g', admission) := Admit(g, w, Admitted, predicted.value.scanner, snap.now);
        Decision(g', Some(admission), capped)
      else if waited < MAX_WAIT then
        Decision(g, None, capped)
      else
        var target := CapTarget(view).scanner;
        if target.source in capped then Decision(g, None, capped)
        else
          var (g', admission) := Admit(g, w, Capped, target, snap.now);
          Decision(g', Some(admission), capped + {target.source})
  }

  /** Where a call that waited too long goes: the predicted path, else the best heard usable one. */
  function CapTarget(view: View): Path
    requires view.paths != []
  {
    if view.predicted.Some? then view.predicted.value
    else BestHeard(view.usable)
  }

  // ---- a pass ----

  /** A judged call: its admission, or None while it waits on. */
  datatype Verdict = Verdict(waiter: Waiter, admission: Option<Admission>)

  /** A call to judge, with its device's paths as this pass reads them. */
  datatype Item = Item(waiter: Waiter, view: View)

  datatype Judging = Judging(gate: Gate, commandWaiting: bool, capped: set<Source>, verdicts: seq<Verdict>)

  function Avoid(g: Gate, source: Source, now: int): Gate {
    g.(avoided := g.avoided[source := now + AVOID])
  }

  /** The sources a pass reads: those on the paths of the waiting calls and the ticketed devices. */
  function SourcesRead(g: Gate, waiting: seq<Waiter>, snap: Snapshot): set<Source> {
    (set a, p | a in g.tickets && p in snap.paths(a) :: p.scanner.source)
    + (set w, p | w in waiting && p in snap.paths(w.address) :: p.scanner.source)
  }

  function Prune(released: map<Source, int>, now: int): map<Source, int> {
    map s | s in released && released[s] > now :: released[s]
  }

  /** Each stuck radio of `sources`, its grace over, is avoided from now. */
  function AvoidStuck(avoided: map<Source, int>, released: map<Source, int>, sources: set<Source>, snap: Snapshot): map<Source, int> {
    avoided + StuckOnes(released, sources, snap)
  }

  function StuckOnes(released: map<Source, int>, sources: set<Source>, snap: Snapshot): map<Source, int> {
    map s | s in sources && snap.Radio(s).Stuck() && s !in released :: snap.now + AVOID
  }

  function Refreshed(t: Ticket, releasing: multiset<Address>, snap: Snapshot): Ticket {
    match FirstListing(snap.paths(t.address), t.address, snap)
    case None => t.(connected := false)
    case Some(scanner) =>
      var at := snap.At(scanner.source);
      t.(scanner := at, connected := snap.read(at).inProgress == 0 && releasing[t.address] == 0)
  }

  /** The ticket objects once those of the devices `done` were looked up. */
  function RefreshObjects(g: Gate, done: set<Address>, snap: Snapshot): seq<Ticket> {
    seq(|g.objects|, id requires 0 <= id < |g.objects| =>
      if exists a | a in done :: a in g.tickets && g.tickets[a] == id
      then Refreshed(g.objects[id], g.releasing, snap) else g.objects[id])
  }

  /** The radios one of our tickets of the devices `done` is seen connected on. */
  function ConnectedOn(g: Gate, done: set<Address>, snap: Snapshot): set<Source> {
    set a | a in done && a in g.tickets && g.tickets[a] < |g.objects|
            && Refreshed(g.TicketOf(a), g.releasing, snap).connected
      :: Refreshed(g.TicketOf(a), g.releasing, snap).scanner.source
  }

  function RefreshTickets(g: Gate, snap: Snapshot): Gate {
    g.(objects := RefreshObjects(g, g.tickets.Keys, snap),
       avoided := g.avoided - ConnectedOn(g, g.tickets.Keys, snap))
  }

  /** A pass before it judges: the avoided radios and the tickets, as the scanners read now. */
  function Prepare(g: Gate, waiting: seq<Waiter>, snap: Snapshot): Gate {
    var released := Prune(g.released, snap.now);
    RefreshTickets(
      g.(released := released,
         avoided := AvoidStuck(g.avoided, released, SourcesRead(g, waiting, snap), snap)),
      snap)
  }

  function Rank(item: Item): real {
    (if item.waiter.poll then 4.0 else 0.0) + (if item.waiter.last then 2.0 else 0.0)
    + (if |item.view.usable| > 1 then 1.0 else 0.0)
  }

  function Views(waiting: seq<Waiter>, avoided: map<Source, int>, snap: Snapshot): seq<Item> {
    seq(|waiting|, i requires 0 <= i < |waiting| =>
      Item(waiting[i], ViewOf(snap.paths(waiting[i].address), avoided, snap)))
  }

  function Serving(waiting: seq<Waiter>, avoided: map<Source, int>, snap: Snapshot): seq<Item> {
    Sort(Views(waiting, avoided, snap), Rank)
  }

  /** The call leaves the queue with its admission. */
  function Resolve(g: Gate, id: CallId, admission: Admission): Gate {
    g.(waiters := Without(g.waiters, id), futures := g.futures[id := Done(admission)])
  }

  function Judge(j: Judging, item: Item, snap: Snapshot): Judging {
    var w := item.waiter;
    var d := Decide(j.gate, w, item.view, snap, w.poll && j.commandWaiting, j.capped);
    var verdicts := j.verdicts + [Verdict(w, d.admission)];
    match d.admission
    case None => Judging(d.gate, j.commandWaiting || !w.poll, d.capped, verdicts)
    case Some(admission) =>
      var given := if admission.ticket.Some? && admission.outcome in {Admitted, Capped}
                   then {d.gate.Object(admission.ticket.value).scanner.source} else {};
      Judging(Resolve(d.gate, w.id, admission), j.commandWaiting, d.capped + given, verdicts)
  }

  /** The first `n` calls judged, in serving order. */
  function JudgeAll(j: Judging, items: seq<Item>, n: nat, snap: Snapshot): Judging
    requires n <= |items|
  {
    if n == 0 then j else Judge(JudgeAll(j, items, n - 1, snap), items[n - 1], snap)
  }

  function StartJudging(g: Gate): Judging {
    Judging(g, g.deferredOffs > 0, {}, [])
  }

  /** A pass, as far as it gets. */
  function Pass(g: Gate, waiting: seq<Waiter>, env: Env): Judging {
    if env.failure.InRead? then StartJudging(g)
    else
      var ready := Prepare(g, waiting, env.snap);
      if env.failure.InViews? then StartJudging(ready)
      else
        var items := Serving(waiting, ready.avoided, env.snap);
        var n := if env.failure.AfterJudging? && env.failure.judged < |items| then env.failure.judged else |items|;
        JudgeAll(StartJudging(ready), items, n, env.snap)
  }

  // ---- pumping ----

  function CheckReleased(g: Gate, id: TicketId, snap: Snapshot): Gate {
    var t := g.Object(id);
    var radio := snap.read(t.scanner);
    if t.connected || (t.address in radio.listed && radio.inProgress == 0) then g
    else if (exists p | p in snap.paths(t.address) :: p.scanner == t.scanner) && radio.Stuck()
    then Avoid(g, t.scanner.source, snap.now)
    else g
  }

  function CheckAll(g: Gate, due: seq<(int, TicketId)>, n: nat, snap: Snapshot): Gate
    requires n <= |due|
  {
    if n == 0 then g else CheckReleased(CheckAll(g, due, n - 1, snap), due[n - 1].1, snap)
  }

  function Due(checks: seq<(int, TicketId)>, now: int): seq<(int, TicketId)> {
    Filter(checks, (c: (int, TicketId)) => c.0 <= now)
  }

  function NotDue(checks: seq<(int, TicketId)>, now: int): seq<(int, TicketId)> {
    Filter(checks, (c: (int, TicketId)) => c.0 > now)
  }

  /** The release checks due now, and how far they get. */
  function RunChecks(g: Gate, env: Env): Gate {
    var due := Due(g.checks, env.snap.now);
    var n := if env.failure.InChecks? && env.failure.checked < |due| then env.failure.checked else |due|;
    CheckAll(g.(checks := NotDue(g.checks, env.snap.now)), due, n, env.snap)
  }

  function Unjudge(g: Gate, waiting: seq<Waiter>, n: nat, now: int): Gate
    requires n <= |waiting|
  {
    if n == 0 then g
    else
      var g' := Unjudge(g, waiting, n - 1, now);
      var w := waiting[n - 1];
      if IsPending(g'.futures, w.id)
      then Resolve(g', w.id, Admission(Unjudged, now - w.queuedAt, None, now, None))
      else g'
  }

  function Schedule(g: Gate): Gate {
    g.(ticking := g.waiters != [])
  }

  function Pump(g: Gate, env: Env): Gate {
    var waiting := Waiting(g);
    if waiting == [] then Schedule(g)
    else
      var checked := RunChecks(g, env);
      var judged := if env.failure.InChecks? then checked else Pass(checked, waiting, env).gate;
      Schedule(if env.failure.NoFailure? then judged else Unjudge(judged, waiting, |waiting|, env.snap.now))
  }

  // ---- the gate's other steps ----

  function Enqueue(g: Gate, w: Waiter, env: Env): Gate {
    Pump(g.(waiters := g.waiters + [w], futures := g.futures[w.id := Pending]), env)
  }

  function OnTick(g: Gate, env: Env): Gate {
    Pump(g.(ticking := false), env)
  }

  /** A share of a ticket given back; with the last one the ticket leaves the map, and its radio's
      grace begins. `check`: the call failed. */
  function GiveBack(g: Gate, id: TicketId, check: bool, now: int): Gate
    requires id < |g.objects|
  {
    var t := g.objects[id].(holders := g.objects[id].holders - 1);
    var g' := g.(objects := g.objects[id := t]);
    if t.holders != 0 then g'
    else
      var due := now + RELEASE_GRACE;
      g'.(tickets := g'.tickets - {t.address},
          released := g'.released[t.scanner.source := due],
          checks := if check then g'.checks + [(due, id)] else g'.checks)
  }

  function Release(g: Gate, admission: Admission, check: bool, env: Env): Gate {
    if admission.ticket.None? || admission.ticket.value >= |g.objects| then g
    else
      var g' := GiveBack(g, admission.ticket.value, check, env.snap.now);
      if g'.objects[admission.ticket.value].holders != 0 then g' else Pump(g', env)
  }

  /** The calls to an address go ahead now. */
  function ReleaseWaiters(g: Gate, leaving: seq<Waiter>, n: nat, now: int): Gate
    requires n <= |leaving|
  {
    if n == 0 then g
    else
      var w := leaving[n - 1];
      Resolve(ReleaseWaiters(g, leaving, n - 1, now), w.id,
              Admission(Released, now - w.queuedAt, None, now, None))
  }

  function Leaving(g: Gate, a: Address): seq<Waiter> {
    Filter(g.waiters, (w: Waiter) => w.address == a && IsPending(g.futures, w.id))
  }

  function ReleaseAddress(g: Gate, a: Address, now: int): Gate {
    var leaving := Leaving(g, a);
    Schedule(ReleaseWaiters(g, leaving, |leaving|, now))
  }

  /** The call's task ends while it is queued: it leaves the queue. */
  function Leave(g: Gate, id: CallId): Gate {
    if exists w | w in g.waiters :: w.id == id then Schedule(g.(waiters := Without(g.waiters, id))) else g
  }
}
