/** Putting a device back after a self-test: what is attempted, in which order, and where that leaves
    the device's lights. */
module Restore {
  import opened Options

  type Name = string
  type Rgb = (int, int, int)

  datatype Zone = Zone(name: Name, segments: seq<int>)

  datatype Capability = Power | Scenes | ColorTemp | RgbColor | Brightness

  datatype Device = Device(capabilities: set<Capability>, zones: seq<Zone>, gradual: bool) {
    function Names(): set<Name> {
      set z | z in zones :: z.name
    }
  }

  datatype Segment = Segment(index: int, rgb: Option<Rgb>, brightness: Option<int>)

  /** What the library has read of the device. */
  datatype State = State(
    isOn: Option<bool>, brightness: Option<int>, rgb: Option<Rgb>, kelvin: Option<int>, scene: Option<int>,
    gradual: Option<bool>, segments: seq<Segment>, zonesOn: map<Name, bool>)

  datatype Snapshot = Snapshot(
    isOn: Option<bool>, brightness: Option<int>, rgb: Option<Rgb>, kelvin: Option<int>, scene: Option<int>,
    gradual: Option<bool>, zonePower: map<Name, Option<bool>>, zoneColour: map<Name, Option<Rgb>>,
    segment0Rgb: Option<Rgb>, segment0Brightness: Option<int>)

  datatype Action =
    | SetPower(on: bool)
    | SetZonePower(zone: Name, on: bool)
    | SetScene(code: int)
    | SetColorTemp(kelvin: int)
    | SetRgb(rgb: Rgb)
    | SetSegmentRgb(rgb: Rgb)
    | SetSegmentBrightness(percent: int)
    | SetZoneRgb(zone: Name, rgb: Rgb)
    | SetBrightness(percent: int)
    | SetGradual(gradual: bool)
  {
    predicate OfPower() {
      SetPower? || SetZonePower?
    }
  }

  /** How an attempt goes. */
  datatype Outcome = Landed | NotSupported | Failed(error: string)

  datatype Report = Report(what: string, error: string)

  // ---- the snapshot ----

  function SegmentAt(segments: seq<Segment>, index: int): Option<Segment> {
    if segments == [] then None
    else if segments[0].index == index then Some(segments[0])
    else SegmentAt(segments[1..], index)
  }

  /** The colour of the first segment read among the zone's. */
  function ZoneColour(segments: seq<Segment>, zone: Zone): Option<Rgb> {
    if segments == [] then None
    else if segments[0].index in zone.segments then segments[0].rgb
    else ZoneColour(segments[1..], zone)
  }

  function ZoneIsOn(s: State, name: Name): Option<bool> {
    if name in s.zonesOn then Some(s.zonesOn[name]) else None
  }

  /** A zone named twice is looked up as its last (as a dict built in their order has it). */
  function LastNamed(zones: seq<Zone>, name: Name): Option<Zone> {
    if zones == [] then None
    else if zones[|zones| - 1].name == name then Some(zones[|zones| - 1])
    else LastNamed(zones[..|zones| - 1], name)
  }

  function Coloured(zones: seq<Zone>): seq<Zone> {
    if zones == [] then []
    else
      var before, z := Coloured(zones[..|zones| - 1]), zones[|zones| - 1];
      if z.segments == [] then before else before + [z]
  }

  function TakeSnapshot(d: Device, s: State): Snapshot {
    var segment0 := SegmentAt(s.segments, 0);
    var coloured := Coloured(d.zones);
    Snapshot(
      s.isOn, s.brightness, s.rgb, s.kelvin, s.scene, s.gradual,
      map name | name in d.Names() :: ZoneIsOn(s, name),
      map name | name in (set z | z in coloured :: z.name) && LastNamed(coloured, name).Some?
        :: ZoneColour(s.segments, LastNamed(coloured, name).value),
      if segment0.None? then None else segment0.value.rgb,
      if segment0.None? then None else segment0.value.brightness)
  }

  // ---- what is attempted ----

  function ZonePower(snap: Snapshot, name: Name): Option<bool> {
    if name in snap.zonePower then snap.zonePower[name] else None
  }

  function ColourOf(snap: Snapshot, name: Name): Option<Rgb> {
    if name in snap.zoneColour then snap.zoneColour[name] else None
  }

  /** The zones whose power was `on`, in the device's order. */
  function ZoneActions(zones: seq<Zone>, snap: Snapshot, on: bool): seq<Action> {
    if zones == [] then []
    else
      var before, name := ZoneActions(zones[..|zones| - 1], snap, on), zones[|zones| - 1].name;
      if ZonePower(snap, name) == Some(on) then before + [SetZonePower(name, on)] else before
  }

  function PowerOn(d: Device, snap: Snapshot): seq<Action> {
    if snap.isOn == Some(false) && Power in d.capabilities then []
    else if snap.isOn == Some(true) && Power in d.capabilities then [SetPower(true)]
    else ZoneActions(d.zones, snap, true)
  }

  function PowerOff(d: Device, snap: Snapshot): seq<Action> {
    if snap.isOn == Some(false) && Power in d.capabilities then [SetPower(false)] else ZoneActions(d.zones, snap, false)
  }

  function ZoneColours(zones: seq<Zone>, snap: Snapshot): seq<Action> {
    if zones == [] then []
    else
      var before, name := ZoneColours(zones[..|zones| - 1], snap), zones[|zones| - 1].name;
      if ColourOf(snap, name).Some? then before + [SetZoneRgb(name, ColourOf(snap, name).value)] else before
  }

  function WholeColour(d: Device, snap: Snapshot): seq<Action> {
    if snap.kelvin.Some? && ColorTemp in d.capabilities then [SetColorTemp(snap.kelvin.value)]
    else if snap.rgb.Some? && RgbColor in d.capabilities then [SetRgb(snap.rgb.value)]
    else []
  }

  function Colours(d: Device, snap: Snapshot): seq<Action> {
    if snap.scene.Some? && Scenes in d.capabilities then [SetScene(snap.scene.value)]
    else
      WholeColour(d, snap)
      + (if snap.segment0Rgb.Some? then [SetSegmentRgb(snap.segment0Rgb.value)] else [])
      + (if snap.segment0Brightness.Some? then [SetSegmentBrightness(snap.segment0Brightness.value)] else [])
      + ZoneColours(d.zones, snap)
  }

  function Looks(d: Device, snap: Snapshot): seq<Action> {
    Colours(d, snap)
    + (if snap.brightness.Some? && Brightness in d.capabilities then [SetBrightness(snap.brightness.value)] else [])
    + (if snap.gradual.Some? && d.gradual then [SetGradual(snap.gradual.value)] else [])
  }

  /** What was on first, then the colours, brightness and gradual flag, and what was off last. */
  function Plan(d: Device, snap: Snapshot): seq<Action> {
    PowerOn(d, snap) + Looks(d, snap) + PowerOff(d, snap)
  }

  function Label(a: Action): string {
    match a
    case SetPower(_) => "power"
    case SetZonePower(zone, _) => "zone_power:" + zone
    case SetScene(_) => "scene"
    case SetColorTemp(_) => "color_temp"
    case SetRgb(_) => "rgb"
    case SetSegmentRgb(_) => "segment_0_rgb"
    case SetSegmentBrightness(_) => "segment_0_brightness"
    case SetZoneRgb(zone, _) => "zone_rgb:" + zone
    case SetBrightness(_) => "brightness"
    case SetGradual(_) => "gradual"
  }

  /** The errors after the attempts so far: a failure is recorded, a missing ability is not. */
  function Errors(attempted: seq<Action>, outcomes: nat -> Outcome): seq<Report> {
    if attempted == [] then []
    else
      var n := |attempted| - 1;
      var before := Errors(attempted[..n], outcomes);
      if outcomes(n).Failed? then before + [Report(Label(attempted[n]), outcomes(n).error)] else before
  }

  function FailuresBefore(outcomes: nat -> Outcome, n: nat): nat {
    if n == 0 then 0 else FailuresBefore(outcomes, n - 1) + if outcomes(n - 1).Failed? then 1 else 0
  }

  /** The errors are exactly the failures, in order. */
  lemma {:induction false} ErrorsAreTheFailures(attempted: seq<Action>, outcomes: nat -> Outcome)
    ensures |Errors(attempted, outcomes)| == FailuresBefore(outcomes, |attempted|)
    ensures forall i | 0 <= i < |attempted| && outcomes(i).Failed? ::
              FailuresBefore(outcomes, i) < |Errors(attempted, outcomes)|
              && Errors(attempted, outcomes)[FailuresBefore(outcomes, i)] == Report(Label(attempted[i]), outcomes(i).error)
  {
    if attempted != [] {
      var n := |attempted| - 1;
      ErrorsAreTheFailures(attempted[..n], outcomes);
      forall i | 0 <= i < n && outcomes(i).Failed?
        ensures Errors(attempted, outcomes)[FailuresBefore(outcomes, i)] == Report(Label(attempted[i]), outcomes(i).error)
      {
        assert attempted[..n][i] == attempted[i];
      }
    }
  }

  /** The two set the same thing, to whatever values. */
  predicate SameThing(a: Action, b: Action) {
    match a
    case SetPower(_) => b.SetPower?
    case SetZonePower(zone, _) => b.SetZonePower? && b.zone == zone
    case SetScene(_) => b.SetScene?
    case SetColorTemp(_) => b.SetColorTemp?
    case SetRgb(_) => b.SetRgb?
    case SetSegmentRgb(_) => b.SetSegmentRgb?
    case SetSegmentBrightness(_) => b.SetSegmentBrightness?
    case SetZoneRgb(zone, _) => b.SetZoneRgb? && b.zone == zone
    case SetBrightness(_) => b.SetBrightness?
    case SetGradual(_) => b.SetGradual?
  }

  /** A report tells what failed: no two things are reported alike. */
  lemma LabelsTell(a: Action, b: Action)
    ensures Label(a) == Label(b) <==> SameThing(a, b)
  {
    var l := Label(a);
    if a.SetZonePower? || a.SetZoneRgb? {
      assert l[|l| - |a.zone|..] == a.zone;
      if b.SetZonePower? || b.SetZoneRgb? {
        assert Label(b)[|Label(b)| - |b.zone|..] == b.zone;
        assert l[5] == if a.SetZonePower? then 'p' else 'r';
      } else {
        assert |l| > 4 && l[4] == '_';
      }
    }
  }

  // ---- the lights ----

  /** Whether the fixture is on, and the zones that are lit. */
  datatype Lights = Lights(on: bool, lit: set<Name>)

  /** A fixture with zones is on only with one lit; one without a power command exactly then. */
  predicate Sound(d: Device, s: Lights) {
    && s.lit <= d.Names()
    && (s.on && d.zones != [] ==> s.lit != {})
    && (Power !in d.capabilities && s.lit != {} ==> s.on)
  }

  /** What an action does to the lights: a power action once it landed; colours, brightness and the
      gradual flag, landed or not, may light, and never darken. */
  predicate Does(d: Device, a: Action, s: Lights, s': Lights) {
    && Sound(d, s')
    && match a
       case SetPower(on) => s'.on == on && (on ==> s'.lit == d.Names())
       case SetZonePower(zone, true) => s'.lit == s.lit + {zone} && (s.on ==> s'.on)
       case SetZonePower(zone, false) => s'.lit == s.lit - {zone} && (s.on && s'.lit != {} ==> s'.on)
       case _ => s.lit <= s'.lit && (s.on ==> s'.on)
  }

  ghost predicate Goes(d: Device, actions: seq<Action>, states: seq<Lights>) {
    && |states| == |actions| + 1
    && forall i: nat | i < |actions| :: DoesAt(d, actions, states, i)
  }

  ghost predicate DoesAt(d: Device, actions: seq<Action>, states: seq<Lights>, i: nat)
    requires i < |actions| && |states| == |actions| + 1
  {
    Does(d, actions[i], states[i], states[i + 1])
  }

  lemma Split(d: Device, first: seq<Action>, second: seq<Action>, states: seq<Lights>)
    requires Goes(d, first + second, states)
    ensures Goes(d, first, states[..|first| + 1]) && Goes(d, second, states[|first|..])
  {
    hide Does;
    var before, after := states[..|first| + 1], states[|first|..];
    forall i: nat | i < |first| ensures DoesAt(d, first, before, i) {
      assert DoesAt(d, first + second, states, i);
    }
    forall i: nat | i < |second| ensures DoesAt(d, second, after, i) {
      assert DoesAt(d, first + second, states, |first| + i);
    }
  }

  /** Actions that switch nothing off leave every lit zone lit, and the fixture on. */
  lemma {:induction false} NothingDarkens(d: Device, actions: seq<Action>, states: seq<Lights>)
    requires Goes(d, actions, states)
    requires forall a | a in actions :: !a.SetPower? && (a.SetZonePower? ==> a.on)
    ensures states[0].lit <= states[|actions|].lit && (states[0].on ==> states[|actions|].on)
    ensures forall a | a in actions && a.SetZonePower? :: a.zone in states[|actions|].lit
  {
    if actions != [] {
      var n := |actions| - 1;
      assert actions == actions[..n] + actions[n..];
      Split(d, actions[..n], actions[n..], states);
      NothingDarkens(d, actions[..n], states[..n + 1]);
      assert DoesAt(d, actions, states, n);
      assert forall a | a in actions :: a in actions[..n] || a == actions[n];
    }
  }

  function Zones(actions: seq<Action>): set<Name> {
    set a | a in actions && a.SetZonePower? :: a.zone
  }

  /** Zones switched off one by one: those go dark, and no other. */
  lemma {:induction false} OnlyTheseGoDark(d: Device, actions: seq<Action>, states: seq<Lights>)
    requires Goes(d, actions, states)
    requires forall a | a in actions :: a.SetZonePower? && !a.on
    ensures states[|actions|].lit == states[0].lit - Zones(actions)
    ensures states[0].on && states[|actions|].lit != {} ==> states[|actions|].on
    ensures states[0].on && actions == [] ==> states[|actions|].on
  {
    if actions != [] {
      var n := |actions| - 1;
      assert actions == actions[..n] + actions[n..];
      Split(d, actions[..n], actions[n..], states);
      OnlyTheseGoDark(d, actions[..n], states[..n + 1]);
      assert DoesAt(d, actions, states, n);
      assert Zones(actions) == Zones(actions[..n]) + {actions[n].zone};
    }
  }

  lemma {:induction false} ZoneActionsElements(zones: seq<Zone>, snap: Snapshot, on: bool)
    ensures forall a | a in ZoneActions(zones, snap, on) :: a.SetZonePower? && a.on == on && ZonePower(snap, a.zone) == Some(on)
    ensures forall z | z in zones && ZonePower(snap, z.name) == Some(on) :: SetZonePower(z.name, on) in ZoneActions(zones, snap, on)
  {
    if zones != [] {
      ZoneActionsElements(zones[..|zones| - 1], snap, on);
      assert forall z | z in zones :: z in zones[..|zones| - 1] || z == zones[|zones| - 1];
    }
  }

  lemma {:induction false} ColoursSwitchNothing(zones: seq<Zone>, snap: Snapshot)
    ensures forall a | a in ZoneColours(zones, snap) :: !a.OfPower()
  {
    if zones != [] {
      ColoursSwitchNothing(zones[..|zones| - 1], snap);
    }
  }

  lemma LooksSwitchNothing(d: Device, snap: Snapshot)
    ensures forall a | a in Looks(d, snap) :: !a.OfPower()
  {
    ColoursSwitchNothing(d.zones, snap);
  }

  /** The snapshot tells nothing false of the lights as found. */
  predicate Tells(d: Device, snap: Snapshot, found: Lights) {
    && (snap.isOn.Some? ==> snap.isOn.value == found.on)
    && forall name | name in d.Names() && ZonePower(snap, name).Some? :: ZonePower(snap, name).value == (name in found.lit)
  }

  predicate FoundOff(d: Device, snap: Snapshot) {
    snap.isOn == Some(false) && Power in d.capabilities
  }

  predicate AllKnown(d: Device, snap: Snapshot) {
    forall name | name in d.Names() :: ZonePower(snap, name).Some?
  }

  /** The lights halfway: after what was on is on again and the colours are back. */
  lemma LitBeforeOff(d: Device, snap: Snapshot, states: seq<Lights>)
    requires Goes(d, Plan(d, snap), states) && !FoundOff(d, snap)
    ensures var s := states[|PowerOn(d, snap) + Looks(d, snap)|];
            && (forall z | z in d.zones && ZonePower(snap, z.name) == Some(true) :: z.name in s.lit)
            && (snap.isOn == Some(true) && Power in d.capabilities ==> s.on && s.lit == d.Names())
  {
    hide Looks, PowerOn, PowerOff;
    LooksSwitchNothing(d, snap);
    LitAfter(d, snap, Looks(d, snap), PowerOff(d, snap), states);
  }

  lemma StaySound(d: Device, actions: seq<Action>, states: seq<Lights>)
    requires Goes(d, actions, states) && states[0].lit <= d.Names()
    ensures states[|actions|].lit <= d.Names()
  {
    if actions != [] {
      assert DoesAt(d, actions, states, |actions| - 1);
    }
  }

  lemma PowerOnly(d: Device, snap: Snapshot)
    ensures forall a | a in PowerOn(d, snap) || a in PowerOff(d, snap) :: a.OfPower()
  {
    ZoneActionsElements(d.zones, snap, true);
    ZoneActionsElements(d.zones, snap, false);
  }

  lemma OutsideLooks(d: Device, snap: Snapshot, i: nat)
    requires i < |PowerOn(d, snap)| || |PowerOn(d, snap) + Looks(d, snap)| <= i < |Plan(d, snap)|
    ensures Plan(d, snap)[i].OfPower()
  {
    hide Looks, PowerOn, PowerOff;
    PowerOnly(d, snap);
    if i < |PowerOn(d, snap)| {
      assert Plan(d, snap)[i] in PowerOn(d, snap);
    } else {
      assert Plan(d, snap)[i] in PowerOff(d, snap);
    }
  }

  /** Colours, brightness and the gradual flag go to a device whose zones known to have been on are lit,
      and all of them for a fixture with a power command found on. */
  lemma ColouredLit(d: Device, snap: Snapshot, states: seq<Lights>, i: nat)
    requires Goes(d, Plan(d, snap), states) && !FoundOff(d, snap)
    requires i < |Plan(d, snap)| && !Plan(d, snap)[i].SetPower? && !Plan(d, snap)[i].SetZonePower?
    ensures forall z | z in d.zones && ZonePower(snap, z.name) == Some(true) :: z.name in states[i].lit
    ensures snap.isOn == Some(true) && Power in d.capabilities ==> states[i].on && states[i].lit == d.Names()
  {
    hide Looks, ZoneActions, PowerOn, PowerOff;
    var first, second, third := PowerOn(d, snap), Looks(d, snap), PowerOff(d, snap);
    LooksSwitchNothing(d, snap);
    assert first + second + third == Plan(d, snap);
    assert |first| <= i < |first + second| by {
      if i < |first| || |first + second| <= i { OutsideLooks(d, snap, i); }
    }
    var part := second[..i - |first|];
    assert Plan(d, snap) == first + part + (second[i - |first|..] + third);
    LitAfter(d, snap, part, second[i - |first|..] + third, states);
  }

  /** The lights once what was on is on again, and some of the colours are back. */
  lemma LitAfter(d: Device, snap: Snapshot, looks: seq<Action>, rest: seq<Action>, states: seq<Lights>)
    requires Goes(d, PowerOn(d, snap) + looks + rest, states) && !FoundOff(d, snap)
    requires forall a | a in looks :: !a.OfPower()
    ensures var s := states[|PowerOn(d, snap) + looks|];
            && (forall z | z in d.zones && ZonePower(snap, z.name) == Some(true) :: z.name in s.lit)
            && (snap.isOn == Some(true) && Power in d.capabilities ==> s.on && s.lit == d.Names())
  {
    hide ZoneActions;
    var first := PowerOn(d, snap);
    Split(d, first + looks, rest, states);
    Split(d, first, looks, states[..|first + looks| + 1]);
    var middle := states[..|first + looks| + 1][|first|..];
    NothingDarkens(d, looks, middle);
    if snap.isOn == Some(true) && Power in d.capabilities {
      assert DoesAt(d, first, states[..|first + looks| + 1][..|first| + 1], 0);
      StaySound(d, looks, middle);
    } else {
      ZoneActionsElements(d.zones, snap, true);
      NothingDarkens(d, first, states[..|first + looks| + 1][..|first| + 1]);
    }
  }

  /** Every power action landed: each zone whose power was known is as it was found, unless a fixture with a
      power command was found off (its zones are as that command leaves them). */
  lemma ZonesEndAsFound(d: Device, snap: Snapshot, found: Lights, states: seq<Lights>)
    requires Goes(d, Plan(d, snap), states) && Tells(d, snap, found) && !FoundOff(d, snap)
    ensures forall name | name in d.Names() && ZonePower(snap, name).Some? ::
              name in states[|Plan(d, snap)|].lit <==> name in found.lit
  {
    hide Looks, ZoneActions;
    var first := PowerOn(d, snap) + Looks(d, snap);
    LitBeforeOff(d, snap, states);
    Split(d, first, PowerOff(d, snap), states);
    ZoneActionsElements(d.zones, snap, false);
    OnlyTheseGoDark(d, PowerOff(d, snap), states[|first|..]);
    forall name | name in d.Names() && ZonePower(snap, name).Some?
      ensures name in states[|Plan(d, snap)|].lit <==> name in found.lit
    {
      var z :| z in d.zones && z.name == name;
      if ZonePower(snap, name) == Some(false) {
        assert SetZonePower(name, false) in PowerOff(d, snap);
      }
    }
  }

  /** A fixture without a power command is on exactly while a zone is lit: its power comes back if one
      was known lit, or all were known. */
  predicate PowerComesBack(d: Device, snap: Snapshot) {
    || Power in d.capabilities
    || (exists name | name in d.Names() :: ZonePower(snap, name) == Some(true))
    || (AllKnown(d, snap) && d.zones != [])
  }

  /** And the fixture's known power is as it was found. */
  lemma FixtureEndsAsFound(d: Device, snap: Snapshot, found: Lights, states: seq<Lights>)
    requires Goes(d, Plan(d, snap), states) && Tells(d, snap, found) && Sound(d, found) && Sound(d, states[0])
    requires snap.isOn.Some? && PowerComesBack(d, snap)
    ensures states[|Plan(d, snap)|].on == found.on
  {
    hide Looks, ZoneActions;
    var first, last := PowerOn(d, snap) + Looks(d, snap), PowerOff(d, snap);
    Split(d, first, last, states);
    if FoundOff(d, snap) {
      assert DoesAt(d, last, states[|first|..], 0);
    } else if Power in d.capabilities {
      LitBeforeOff(d, snap, states);
      ZoneActionsElements(d.zones, snap, false);
      OnlyTheseGoDark(d, last, states[|first|..]);
      SomeZoneStays(d, snap, found, states);
    } else {
      ZonesEndAsFound(d, snap, found, states);
      EndsSound(d, Plan(d, snap), states);
      if AllKnown(d, snap) && d.zones != [] {
        assert states[|Plan(d, snap)|].lit == found.lit;
      } else {
        var name :| name in d.Names() && ZonePower(snap, name) == Some(true);
        assert name in states[|Plan(d, snap)|].lit;
      }
    }
  }

  lemma EndsSound(d: Device, actions: seq<Action>, states: seq<Lights>)
    requires Goes(d, actions, states) && Sound(d, states[0])
    ensures Sound(d, states[|actions|])
  {
    if actions != [] {
      assert DoesAt(d, actions, states, |actions| - 1);
    }
  }

  /** A fixture found on had a lit zone, if it has zones: that one isn't switched off. */
  lemma SomeZoneStays(d: Device, snap: Snapshot, found: Lights, states: seq<Lights>)
    requires Goes(d, Plan(d, snap), states) && Tells(d, snap, found) && Sound(d, found)
    requires snap.isOn == Some(true) && Power in d.capabilities
    ensures PowerOff(d, snap) == [] || states[|Plan(d, snap)|].lit != {}
  {
    hide Looks, ZoneActions;
    var first, last := PowerOn(d, snap) + Looks(d, snap), PowerOff(d, snap);
    Split(d, first, last, states);
    LitBeforeOff(d, snap, states);
    ZoneActionsElements(d.zones, snap, false);
    OnlyTheseGoDark(d, last, states[|first|..]);
    if found.lit != {} {
      var name :| name in found.lit;
      assert name !in Zones(last);
      assert name in states[|Plan(d, snap)|].lit;
    } else {
      NoZones(snap);
    }
  }

  lemma NoZones(snap: Snapshot)
    ensures ZoneActions([], snap, false) == []
  {
  }

  /** What the library read of the lights before the test is true of them. */
  predicate ReadOf(d: Device, s: State, found: Lights) {
    && (s.isOn.Some? ==> s.isOn.value == found.on)
    && forall name | name in d.Names() && name in s.zonesOn :: s.zonesOn[name] == (name in found.lit)
  }

  /** From any lights the test left, a restore whose power actions all land ends with the fixture's
      power, if it was read, and each zone's that was, as before the test; the zones but for a fixture
      with a power command that was off. */
  lemma RestoreEndsAsFound(d: Device, s: State, found: Lights, states: seq<Lights>)
    requires Goes(d, Plan(d, TakeSnapshot(d, s)), states) && Sound(d, states[0])
    requires ReadOf(d, s, found) && Sound(d, found)
    ensures var last := states[|Plan(d, TakeSnapshot(d, s))|];
            && (s.isOn.Some? && PowerComesBack(d, TakeSnapshot(d, s)) ==> last.on == found.on)
            && (s.isOn != Some(false) || Power !in d.capabilities ==>
                  forall name | name in d.Names() && name in s.zonesOn :: name in last.lit <==> name in found.lit)
  {
    hide Plan, Sound, Goes;
    var snap := TakeSnapshot(d, s);
    assert forall name | name in d.Names() :: ZonePower(snap, name) == ZoneIsOn(s, name);
    if !FoundOff(d, snap) {
      ZonesEndAsFound(d, snap, found, states);
    }
    if s.isOn.Some? && PowerComesBack(d, snap) {
      FixtureEndsAsFound(d, snap, found, states);
    }
  }
}
