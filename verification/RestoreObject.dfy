/** The restore as the program runs it: actions attempted one after another, failures collected. */
module RestoreObject {
  import opened Options
  import opened R = Restore

  /** `outcomes`: how the attempts go, in order. */
  class Restorer {
    const outcomes: nat -> Outcome
    var errors: seq<Report>
    ghost var attempted: seq<Action>
    var count: nat

    ghost predicate Valid()
      reads this
    {
      count == |attempted| && errors == Errors(attempted, outcomes)
    }

    constructor (outcomes: nat -> Outcome)
      ensures Valid() && attempted == [] && this.outcomes == outcomes
    {
      this.outcomes, errors, attempted, count := outcomes, [], [], 0;
    }

    /** Runs one action; a failure is recorded, never raised. */
    method Attempt(a: Action)
      requires Valid()
      modifies this
      ensures Valid() && attempted == old(attempted) + [a]
    {
      var outcome := outcomes(count);
      attempted := attempted + [a];
      assert attempted[..|attempted| - 1] == old(attempted);
      count := count + 1;
      match outcome
      case Landed =>
      case NotSupported =>
      case Failed(error) => errors := errors + [Report(Label(a), error)];
    }

    method SwitchZones(d: Device, snap: Snapshot, on: bool)
      requires Valid()
      modifies this
      ensures Valid() && attempted == old(attempted) + ZoneActions(d.zones, snap, on)
    {
      for i := 0 to |d.zones|
        invariant Valid() && attempted == old(attempted) + ZoneActions(d.zones[..i], snap, on)
      {
        var name := d.zones[i].name;
        assert d.zones[..i + 1][..i] == d.zones[..i];
        if ZonePower(snap, name) == Some(on) {
          Attempt(SetZonePower(name, on));
        }
      }
      assert d.zones[..|d.zones|] == d.zones;
    }

    method RestorePowerOn(d: Device, snap: Snapshot)
      requires Valid()
      modifies this
      ensures Valid() && attempted == old(attempted) + PowerOn(d, snap)
    {
      if snap.isOn == Some(false) && Power in d.capabilities {
        return;
      }
      if snap.isOn == Some(true) && Power in d.capabilities {
        Attempt(SetPower(true));
        return;
      }
      SwitchZones(d, snap, true);
    }

    method RestoreColour(d: Device, snap: Snapshot)
      requires Valid()
      modifies this
      ensures Valid() && attempted == old(attempted) + Colours(d, snap)
    {
      hide Errors, Valid, ZoneColours;
      if snap.scene.Some? && Scenes in d.capabilities {
        Attempt(SetScene(snap.scene.value));
        return;
      }
      if snap.kelvin.Some? && ColorTemp in d.capabilities {
        Attempt(SetColorTemp(snap.kelvin.value));
      } else if snap.rgb.Some? && RgbColor in d.capabilities {
        Attempt(SetRgb(snap.rgb.value));
      }
      if snap.segment0Rgb.Some? {
        Attempt(SetSegmentRgb(snap.segment0Rgb.value));
      }
      if snap.segment0Brightness.Some? {
        Attempt(SetSegmentBrightness(snap.segment0Brightness.value));
      }
      ColourZones(d, snap);
    }

    method ColourZones(d: Device, snap: Snapshot)
      requires Valid()
      modifies this
      ensures Valid() && attempted == old(attempted) + ZoneColours(d.zones, snap)
    {
      for i := 0 to |d.zones|
        invariant Valid() && attempted == old(attempted) + ZoneColours(d.zones[..i], snap)
      {
        var name := d.zones[i].name;
        assert d.zones[..i + 1][..i] == d.zones[..i];
        if ColourOf(snap, name).Some? {
          Attempt(SetZoneRgb(name, ColourOf(snap, name).value));
        }
      }
      assert d.zones[..|d.zones|] == d.zones;
    }

    method RestorePowerOff(d: Device, snap: Snapshot)
      requires Valid()
      modifies this
      ensures Valid() && attempted == old(attempted) + PowerOff(d, snap)
    {
      if snap.isOn == Some(false) && Power in d.capabilities {
        Attempt(SetPower(false));
        return;
      }
      SwitchZones(d, snap, false);
    }
  }

  /** Every planned action is attempted once, in order, whichever fail; the errors are the failures. */
  method Restore(d: Device, snap: Snapshot, outcomes: nat -> Outcome) returns (errors: seq<Report>, ghost attempted: seq<Action>)
    ensures attempted == Plan(d, snap)
    ensures errors == Errors(Plan(d, snap), outcomes)
  {
    hide Errors;
    var restorer := new Restorer(outcomes);
    restorer.RestorePowerOn(d, snap);
    restorer.RestoreColour(d, snap);
    if snap.brightness.Some? && Brightness in d.capabilities {
      restorer.Attempt(SetBrightness(snap.brightness.value));
    }
    if snap.gradual.Some? && d.gradual {
      restorer.Attempt(SetGradual(snap.gradual.value));
    }
    restorer.RestorePowerOff(d, snap);
    attempted := restorer.attempted;
    assert attempted == Plan(d, snap);
    errors := restorer.errors;
  }
}
