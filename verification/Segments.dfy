/** Following the segment count a strip reports: what is stored, when the entry reloads, and which
    segment lights go. */
module Segments {
  import opened Options

  /** What one read told: how many segments, and when the library says it was read. */
  datatype Read = Read(segments: nat, readAt: int)

  datatype RegEntry = RegEntry(light: bool, uniqueId: string)

  type Registry = map<string, RegEntry>

  /** An entry between two setups. `tracking`: its device has segments; `built`: how many lights setup
      built; `reloading`: a reload is scheduled. */
  datatype Entry = Entry(
    address: string, tracking: bool, last: Option<Read>, stored: Option<nat>, built: nat, registry: Registry, reloading: bool)

  // ---- segment lights in the registry ----

  function Decimal(n: nat): string {
    if n < 10 then [Digit(n)] else Decimal(n / 10) + [Digit(n % 10)]
  }

  function Digit(n: nat): char
    requires n < 10
  {
    '0' + n as char
  }

  predicate AllDigits(s: string) {
    s != "" && forall i | 0 <= i < |s| :: '0' <= s[i] <= '9'
  }

  function Number(s: string): nat
    requires forall i | 0 <= i < |s| :: '0' <= s[i] <= '9'
  {
    if s == "" then 0 else Number(s[..|s| - 1]) * 10 + (s[|s| - 1] as int - '0' as int)
  }

  function Prefix(address: string): string {
    address + "_segment_"
  }

  function SegmentId(address: string, index: nat): string {
    Prefix(address) + Decimal(index)
  }

  /** The segment a unique id names, if it names one of the device's. */
  function SegmentIndex(uniqueId: string, address: string): Option<nat> {
    var prefix := Prefix(address);
    if prefix <= uniqueId && AllDigits(uniqueId[|prefix|..]) then Some(Number(uniqueId[|prefix|..])) else None
  }

  /** A segment light for segment `keep` or up. */
  predicate Past(e: RegEntry, address: string, keep: nat) {
    e.light && SegmentIndex(e.uniqueId, address).Some? && SegmentIndex(e.uniqueId, address).value >= keep
  }

  function Remaining(registry: Registry, address: string, keep: nat): Registry {
    map id | id in registry && !Past(registry[id], address, keep) :: registry[id]
  }

  // ---- the steps ----

  function RemovePast(e: Entry, keep: nat): Entry {
    e.(registry := Remaining(e.registry, e.address, keep))
  }

  /** One push of the device's state. */
  function Check(e: Entry, read: Option<Read>): Entry {
    if read.None? then e.(last := None)
    else if e.last.Some? && read.value.readAt == e.last.value.readAt then e
    else
      var previous, e', count := e.last, e.(last := read), read.value.segments;
      if Some(count) == e.stored then e'
      else if previous.None? || previous.value.segments != count then e'
      else if count != e.built then e'.(stored := Some(count), reloading := true)
      else RemovePast(e'.(stored := Some(count)), count)
  }

  /** A setup: how many segment lights it builds, and those past them removed. `profile`: the
      library's count; `added`: what its platforms add to the registry. */
  function Setup(e: Entry, capable: bool, profile: nat, added: Registry): Entry {
    var sized :=
      if !capable then RemovePast(e, 0).(built := 0)
      else if e.stored.None? then e.(built := profile)
      else RemovePast(e, e.stored.value).(built := e.stored.value);
    sized.(tracking := capable, last := None, registry := sized.registry + added, reloading := false)
  }

  // ---- ids name their segments ----

  lemma {:induction false} DecimalRoundTrip(n: nat)
    ensures AllDigits(Decimal(n)) && Number(Decimal(n)) == n
  {
    if n >= 10 {
      DecimalRoundTrip(n / 10);
      assert Decimal(n)[..|Decimal(n)| - 1] == Decimal(n / 10);
    } else {
      assert Decimal(n)[..0] == "";
    }
  }

  /** A segment light goes exactly if its segment is past those kept. */
  lemma SegmentLightStays(registry: Registry, address: string, keep: nat, id: string, index: nat)
    requires id in registry && registry[id] == RegEntry(true, SegmentId(address, index))
    ensures id in Remaining(registry, address, keep) <==> index < keep
  {
    DecimalRoundTrip(index);
    assert SegmentId(address, index)[|Prefix(address)|..] == Decimal(index);
  }

  /** Removing leaves none past, changes no other, and a second time removes nothing. */
  lemma RemovesExactlyPast(registry: Registry, address: string, keep: nat)
    ensures NonePast(Remaining(registry, address, keep), address, keep)
    ensures forall id | id in registry && !Past(registry[id], address, keep) ::
              id in Remaining(registry, address, keep) && Remaining(registry, address, keep)[id] == registry[id]
    ensures Remaining(Remaining(registry, address, keep), address, keep) == Remaining(registry, address, keep)
  {
  }

  predicate NonePast(registry: Registry, address: string, keep: nat) {
    forall id | id in registry :: !Past(registry[id], address, keep)
  }

  /** A light goes exactly if its id is the device's segment prefix and digits that name a segment past
      those kept; whatever else the registry holds stays. */
  lemma PastExactly(e: RegEntry, address: string, keep: nat)
    ensures Past(e, address, keep) <==>
            e.light && exists digits ::
              && e.uniqueId == address + "_segment_" + digits && digits != ""
              && (forall i | 0 <= i < |digits| :: '0' <= digits[i] <= '9') && Number(digits) >= keep
  {
    var prefix := address + "_segment_";
    if Past(e, address, keep) {
      assert e.uniqueId == prefix + e.uniqueId[|prefix|..];
    }
    if digits :| e.uniqueId == prefix + digits && AllDigits(digits) && Number(digits) >= keep {
      assert e.uniqueId[|prefix|..] == digits;
    }
  }

  // ---- the stored count in closed form ----

  function Follow(e: Entry, pushes: seq<Option<Read>>): Entry {
    if pushes == [] then e else Check(Follow(e, pushes[..|pushes| - 1]), pushes[|pushes| - 1])
  }

  function LastOf(answered: seq<Option<Read>>): Option<Read> {
    if answered == [] then None else answered[|answered| - 1]
  }

  /** The push answers no read since the last one. */
  predicate Again(last: Option<Read>, push: Option<Read>) {
    last.Some? && push.Some? && push.value.readAt == last.value.readAt
  }

  predicate Agree(last: Option<Read>, push: Option<Read>) {
    last.Some? && push.Some? && push.value.segments == last.value.segments
  }

  /** The reads among the pushes: a push with the stamp of the read before it is none. A push without
      a count stays, as a break. */
  function Reads(pushes: seq<Option<Read>>): seq<Option<Read>> {
    if pushes == [] then []
    else
      var before, push := Reads(pushes[..|pushes| - 1]), pushes[|pushes| - 1];
      if Again(LastOf(before), push) then before else before + [push]
  }

  /** Two reads in a row answered the same count. */
  predicate RowAt(answered: seq<Option<Read>>, k: int) {
    1 <= k < |answered| && Agree(answered[k - 1], answered[k])
  }

  ghost predicate LatestRow(answered: seq<Option<Read>>, k: int) {
    RowAt(answered, k) && forall l | k < l :: !RowAt(answered, l)
  }

  lemma ReadsGrow(before: seq<Option<Read>>, push: Option<Read>)
    ensures forall k | k < |before| :: RowAt(before + [push], k) == RowAt(before, k)
    ensures RowAt(before + [push], |before|) <==> Agree(LastOf(before), push)
  {
  }

  /** What one push changes: the last read; and more only if it is a read agreeing with the last. */
  lemma CheckStep(e: Entry, push: Option<Read>)
    ensures var e', row := Check(e, push), !Again(e.last, push) && Agree(e.last, push);
            && e'.last == (if Again(e.last, push) then e.last else push)
            && e'.stored == (if row then Some(push.value.segments) else e.stored)
            && ((row ==> Some(push.value.segments) == e.stored) ==> e' == e.(last := e'.last))
  {
  }

  /** And what it sets going: taking a new count reloads the entry if setup built another number of
      lights; else the lights past it go. */
  lemma CheckActs(e: Entry, push: Option<Read>)
    ensures var e', takes := Check(e, push), !Again(e.last, push) && Agree(e.last, push) && Some(push.value.segments) != e.stored;
            && e' == e.(last := e'.last, stored := e'.stored, registry := e'.registry, reloading := e'.reloading)
            && (e'.reloading <==> e.reloading || (takes && push.value.segments != e.built))
            && (forall id :: id in e'.registry <==>
                  id in e.registry && !(takes && push.value.segments == e.built && Past(e.registry[id], e.address, e.built)))
            && (forall id | id in e'.registry :: e'.registry[id] == e.registry[id])
  {
    hide Past;
  }

  /** A setup builds as many lights as the device last reported, else as the library says, none for a
      device without segments; those past a reported count go, and all of such a device's. */
  lemma SetupBuilds(e: Entry, capable: bool, profile: nat, added: Registry)
    ensures var e', removes := Setup(e, capable, profile, added), !capable || e.stored.Some?;
            && e' == e.(tracking := capable, last := None, built := e'.built, registry := e'.registry, reloading := false)
            && e'.built == (if !capable then 0 else if e.stored.Some? then e.stored.value else profile)
            && (forall id :: id in e'.registry <==>
                  id in added || (id in e.registry && !(removes && Past(e.registry[id], e.address, e'.built))))
            && (forall id | id in e'.registry :: e'.registry[id] == if id in added then added[id] else e.registry[id])
  {
    hide Past;
  }

  /** After any pushes the stored count is that of the latest two reads in a row that agree, or what
      it was if no two do. */
  lemma {:induction false} StoredInClosedForm(e: Entry, pushes: seq<Option<Read>>)
    requires e.last.None?
    ensures var after, answered := Follow(e, pushes), Reads(pushes);
            && after.last == LastOf(answered)
            && (forall k | LatestRow(answered, k) :: after.stored == Some(answered[k].value.segments))
            && ((forall k :: !RowAt(answered, k)) ==> after.stored == e.stored)
  {
    hide Check, Agree, Again, RowAt, LatestRow;
    LatestInRange(Reads(pushes));
    if pushes == [] {
      NoRow();
    } else {
      var n := |pushes| - 1;
      StoredInClosedForm(e, pushes[..n]);
      CheckStep(Follow(e, pushes[..n]), pushes[n]);
      var before := Reads(pushes[..n]);
      if !Again(LastOf(before), pushes[n]) {
        RowsGrow(before, pushes[n]);
        forall k | LatestRow(Reads(pushes), k) ensures Follow(e, pushes).stored == Some(Reads(pushes)[k].value.segments) {
          if !Agree(LastOf(before), pushes[n]) {
            assert LatestRow(before, k) && Reads(pushes)[k] == before[k];
          }
        }
      }
    }
  }

  lemma LatestInRange(answered: seq<Option<Read>>)
    ensures forall k | LatestRow(answered, k) :: 0 <= k < |answered| && answered[k].Some?
  {
  }

  lemma NoRow()
    ensures forall k :: !RowAt([], k)
  {
  }

  /** The latest row is the one a read just made, or else the latest there was. */
  lemma RowsGrow(before: seq<Option<Read>>, push: Option<Read>)
    ensures forall k | LatestRow(before + [push], k) ::
              if Agree(LastOf(before), push) then k == |before| else LatestRow(before, k) && k < |before|
    ensures (forall k :: !RowAt(before + [push], k)) ==> !Agree(LastOf(before), push) && forall k :: !RowAt(before, k)
  {
    hide Agree;
    ReadsGrow(before, push);
    var after := before + [push];
    forall k ensures RowAt(before, k) ==> RowAt(after, k) {}
    forall k | LatestRow(after, k) && !Agree(LastOf(before), push) ensures LatestRow(before, k) {
      assert k != |before|;
    }
  }

  /** While any two reads in a row that agree agree on the stored count, nothing is stored, reloaded
      or removed: so not by counts that change at each read, nor by single bad reads. */
  lemma {:induction false} UnsteadyCountsChangeNothing(e: Entry, pushes: seq<Option<Read>>)
    requires e.last.None?
    requires forall k | RowAt(Reads(pushes), k) :: Some(Reads(pushes)[k].value.segments) == e.stored
    ensures Follow(e, pushes) == e.(last := Follow(e, pushes).last)
  {
    hide Check, Agree, Again;
    if pushes != [] {
      var n := |pushes| - 1;
      var before, answered := Reads(pushes[..n]), Reads(pushes);
      ReadsGrow(before, pushes[n]);
      forall k | RowAt(before, k) ensures RowAt(answered, k) && answered[k] == before[k] {}
      UnsteadyCountsChangeNothing(e, pushes[..n]);
      StoredInClosedForm(e, pushes[..n]);
      CheckStep(Follow(e, pushes[..n]), pushes[n]);
      if !Again(LastOf(before), pushes[n]) && Agree(LastOf(before), pushes[n]) {
        assert RowAt(answered, |before|);
      }
    }
  }

  // ---- the lights match the count ----

  datatype Event = Pushed(read: Option<Read>) | SetUp(capable: bool, profile: nat, added: Registry)

  predicate Enabled(e: Entry, event: Event) {
    match event
    case Pushed(_) => e.tracking
    case SetUp(capable, profile, added) =>
      NonePast(added, e.address, Setup(e, capable, profile, map[]).built)
  }

  function Next(e: Entry, event: Event): Entry {
    match event
    case Pushed(read) => Check(e, read)
    case SetUp(capable, profile, added) => Setup(e, capable, profile, added)
  }

  ghost predicate StepAt(trace: seq<Entry>, events: seq<Event>, k: nat)
    requires k < |events| && |trace| == |events| + 1
  {
    Enabled(trace[k], events[k]) && trace[k + 1] == Next(trace[k], events[k])
  }

  /** From any stored count and registry: first a setup, then pushes and more setups. */
  ghost predicate IsRun(trace: seq<Entry>, events: seq<Event>) {
    && |trace| == |events| + 1
    && events != [] && events[0].SetUp?
    && (forall k: nat | k < |events| :: StepAt(trace, events, k))
  }

  /** Once the device reported a count: as many lights as that were built and none past it is left,
      or a reload is coming. A device without segments has none. */
  ghost predicate LightsMatch(e: Entry) {
    if !e.tracking then e.built == 0 && NonePast(e.registry, e.address, 0)
    else e.stored.Some? && !e.reloading ==> e.built == e.stored.value && NonePast(e.registry, e.address, e.stored.value)
  }

  lemma SetupMatches(e: Entry, capable: bool, profile: nat, added: Registry)
    requires NonePast(added, e.address, Setup(e, capable, profile, map[]).built)
    ensures LightsMatch(Setup(e, capable, profile, added)) && !Setup(e, capable, profile, added).reloading
  {
    hide Past, Remaining;
    RemovesExactlyPast(e.registry, e.address, 0);
    if e.stored.Some? {
      RemovesExactlyPast(e.registry, e.address, e.stored.value);
    }
    assert forall id | id in added :: !Past(added[id], e.address, Setup(e, capable, profile, map[]).built);
  }

  lemma CheckMatches(e: Entry, read: Option<Read>)
    requires LightsMatch(e) && e.tracking
    ensures LightsMatch(Check(e, read))
  {
    hide Past, Remaining;
    if read.Some? {
      RemovesExactlyPast(e.registry, e.address, read.value.segments);
    }
  }

  lemma {:induction false} LightsAlwaysMatch(trace: seq<Entry>, events: seq<Event>, n: nat)
    requires IsRun(trace, events) && 0 < n < |trace|
    ensures LightsMatch(trace[n])
  {
    hide Check, Setup, LightsMatch;
    assert StepAt(trace, events, n - 1);
    match events[n - 1]
    case SetUp(capable, profile, added) => SetupMatches(trace[n - 1], capable, profile, added);
    case Pushed(read) =>
      LightsAlwaysMatch(trace, events, n - 1);
      CheckMatches(trace[n - 1], read);
  }
}
