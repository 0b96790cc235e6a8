/** What a restore leaves showing: the scene, or the colours, and the brightness and gradual flag. */
module RestoreLooks {
  import opened Options
  import opened Restore

  datatype Paint = White(kelvin: int) | Colour(rgb: Rgb)

  /** A scene playing, or each segment's paint; segment 0's brightness, the device's, the gradual flag. */
  datatype Look = Look(scene: Option<int>, paint: int -> Paint, segment0: int, brightness: int, gradual: bool)

  ghost predicate OfZone(d: Device, name: Name, i: int) {
    exists z | z in d.zones :: z.name == name && i in z.segments
  }

  ghost predicate SamePaint(l: Look, l': Look) {
    forall i :: l'.paint(i) == l.paint(i)
  }

  /** What an action that landed does to the look: a colour ends a scene, a scene repaints anything. */
  ghost predicate Shows(d: Device, a: Action, l: Look, l': Look) {
    && (if a.SetSegmentBrightness? then l'.segment0 == a.percent else a.SetScene? || l'.segment0 == l.segment0)
    && l'.brightness == (if a.SetBrightness? then a.percent else l.brightness)
    && l'.gradual == (if a.SetGradual? then a.gradual else l.gradual)
    && match a
       case SetScene(code) => l'.scene == Some(code)
       case SetColorTemp(kelvin) => l'.scene.None? && forall i :: l'.paint(i) == White(kelvin)
       case SetRgb(rgb) => l'.scene.None? && forall i :: l'.paint(i) == Colour(rgb)
       case SetSegmentRgb(rgb) => l'.scene.None? && forall i :: l'.paint(i) == if i == 0 then Colour(rgb) else l.paint(i)
       case SetZoneRgb(zone, rgb) =>
         l'.scene.None? && forall i :: l'.paint(i) == if OfZone(d, zone, i) then Colour(rgb) else l.paint(i)
       case SetSegmentBrightness(_) => (l'.scene == l.scene || l'.scene.None?) && SamePaint(l, l')
       case _ => l'.scene == l.scene && SamePaint(l, l')
  }

  ghost predicate ShowsAt(d: Device, actions: seq<Action>, looks: seq<Look>, i: nat)
    requires i < |actions| && |looks| == |actions| + 1
  {
    Shows(d, actions[i], looks[i], looks[i + 1])
  }

  ghost predicate Shown(d: Device, actions: seq<Action>, looks: seq<Look>) {
    && |looks| == |actions| + 1
    && forall i: nat | i < |actions| :: ShowsAt(d, actions, looks, i)
  }

  lemma Split(d: Device, first: seq<Action>, second: seq<Action>, looks: seq<Look>)
    requires Shown(d, first + second, looks)
    ensures Shown(d, first, looks[..|first| + 1]) && Shown(d, second, looks[|first|..])
  {
    hide Shows;
    var before, after := looks[..|first| + 1], looks[|first|..];
    forall i: nat | i < |first| ensures ShowsAt(d, first, before, i) {
      assert ShowsAt(d, first + second, looks, i);
    }
    forall i: nat | i < |second| ensures ShowsAt(d, second, after, i) {
      assert ShowsAt(d, first + second, looks, |first| + i);
    }
  }

  // ---- the colours ----

  /** The zone of that name was read with a colour, and the segment is one of its. */
  ghost predicate Paints(d: Device, snap: Snapshot, name: Name, i: int) {
    name in snap.zoneColour && snap.zoneColour[name].Some? && OfZone(d, name, i)
  }

  ghost predicate LastPainting(d: Device, zones: seq<Zone>, snap: Snapshot, i: int, k: int) {
    0 <= k < |zones| && Paints(d, snap, zones[k].name, i) && forall j | k < j < |zones| :: !Paints(d, snap, zones[j].name, i)
  }

  /** The segment's paint once the zones were coloured: its last zone's colour, if one was read. */
  ghost predicate ZonePainted(d: Device, zones: seq<Zone>, snap: Snapshot, i: int, before: Paint, after: Paint) {
    || (exists k :: LastPainting(d, zones, snap, i, k) && after == Colour(snap.zoneColour[zones[k].name].value))
    || ((forall k | 0 <= k < |zones| :: !Paints(d, snap, zones[k].name, i)) && after == before)
  }

  lemma {:induction false} ZonesPaint(d: Device, zones: seq<Zone>, snap: Snapshot, looks: seq<Look>)
    requires Shown(d, ZoneColours(zones, snap), looks)
    ensures var l, l' := looks[0], looks[|looks| - 1];
            && (forall i :: ZonePainted(d, zones, snap, i, l.paint(i), l'.paint(i)))
            && l'.segment0 == l.segment0 && l'.brightness == l.brightness && l'.gradual == l.gradual
            && l'.scene == if ZoneColours(zones, snap) == [] then l.scene else None
  {
    hide OfZone;
    if zones != [] {
      var n := |zones| - 1;
      var before, name := ZoneColours(zones[..n], snap), zones[n].name;
      var last := if ColourOf(snap, name).Some? then [SetZoneRgb(name, ColourOf(snap, name).value)] else [];
      assert ZoneColours(zones, snap) == before + last;
      Split(d, before, last, looks);
      ZonesPaint(d, zones[..n], snap, looks[..|before| + 1]);
      var l, l', l'' := looks[0], looks[|before|], looks[|looks| - 1];
      if last != [] { assert ShowsAt(d, last, looks[|before|..], 0); }
      forall i ensures ZonePainted(d, zones, snap, i, l.paint(i), l''.paint(i)) {
        OneMoreZone(d, zones, snap, i, l.paint(i), l'.paint(i), l''.paint(i));
      }
    }
  }

  lemma OneMoreZone(d: Device, zones: seq<Zone>, snap: Snapshot, i: int, before: Paint, between: Paint, after: Paint)
    requires zones != [] && ZonePainted(d, zones[..|zones| - 1], snap, i, before, between)
    requires var name := zones[|zones| - 1].name;
             after == if Paints(d, snap, name, i) then Colour(snap.zoneColour[name].value) else between
    ensures ZonePainted(d, zones, snap, i, before, after)
  {
    hide OfZone;
    var n := |zones| - 1;
    if Paints(d, snap, zones[n].name, i) {
      assert LastPainting(d, zones, snap, i, n);
    } else if k :| LastPainting(d, zones[..n], snap, i, k) && between == Colour(snap.zoneColour[zones[..n][k].name].value) {
      assert forall j | k < j < n :: zones[j] == zones[..n][j];
      assert LastPainting(d, zones, snap, i, k);
    } else {
      assert forall k | 0 <= k < n :: zones[k] == zones[..n][k];
    }
  }

  /** The paint under the zones': segment 0's own, else the whole device's. */
  ghost predicate Underneath(d: Device, snap: Snapshot, i: int, before: Paint, after: Paint) {
    after ==
      if i == 0 && snap.segment0Rgb.Some? then Colour(snap.segment0Rgb.value)
      else if snap.kelvin.Some? && ColorTemp in d.capabilities then White(snap.kelvin.value)
      else if snap.rgb.Some? && RgbColor in d.capabilities then Colour(snap.rgb.value)
      else before
  }

  ghost predicate HasScene(d: Device, snap: Snapshot) {
    snap.scene.Some? && Scenes in d.capabilities
  }

  /** The look a restore leaves, as the snapshot has it. */
  ghost predicate LooksAs(d: Device, snap: Snapshot, l: Look, l': Look) {
    && l'.brightness == (if snap.brightness.Some? && Brightness in d.capabilities then snap.brightness.value else l.brightness)
    && l'.gradual == (if snap.gradual.Some? && d.gradual then snap.gradual.value else l.gradual)
    && if HasScene(d, snap) then l'.scene == snap.scene
       else ColoursAs(d, snap, l, l')
  }

  ghost predicate ColoursAs(d: Device, snap: Snapshot, l: Look, l': Look) {
    && l'.segment0 == (if snap.segment0Brightness.Some? then snap.segment0Brightness.value else l.segment0)
    && forall i :: EndsPainted(d, snap, i, l.paint(i), l'.paint(i))
  }

  ghost predicate EndsPainted(d: Device, snap: Snapshot, i: int, before: Paint, after: Paint) {
    exists under :: Underneath(d, snap, i, before, under) && ZonePainted(d, d.zones, snap, i, under, after)
  }

  lemma OptionalOne(d: Device, actions: seq<Action>, looks: seq<Look>)
    requires Shown(d, actions, looks) && |actions| <= 1
    ensures if actions == [] then looks[|actions|] == looks[0] else Shows(d, actions[0], looks[0], looks[|actions|])
  {
    if actions != [] { assert ShowsAt(d, actions, looks, 0); }
  }

  lemma ColoursShow(d: Device, snap: Snapshot, looks: seq<Look>)
    requires Shown(d, Colours(d, snap), looks) && !HasScene(d, snap)
    ensures var l, l' := looks[0], looks[|looks| - 1];
            ColoursAs(d, snap, l, l') && l'.brightness == l.brightness && l'.gradual == l.gradual
  {
    hide Shows, ZoneColours, ZonePainted;
    var whole := WholeColour(d, snap);
    var rgb0 := if snap.segment0Rgb.Some? then [SetSegmentRgb(snap.segment0Rgb.value)] else [];
    var bright0 := if snap.segment0Brightness.Some? then [SetSegmentBrightness(snap.segment0Brightness.value)] else [];
    var zones := ZoneColours(d.zones, snap);
    assert Colours(d, snap) == whole + rgb0 + bright0 + zones;
    Split(d, whole + rgb0 + bright0, zones, looks);
    var under := looks[..|whole + rgb0 + bright0| + 1];
    Split(d, whole + rgb0, bright0, under);
    Split(d, whole, rgb0, under[..|whole + rgb0| + 1]);
    ZonesPaint(d, d.zones, snap, looks[|whole + rgb0 + bright0|..]);
    OptionalOne(d, whole, under[..|whole + rgb0| + 1][..|whole| + 1]);
    OptionalOne(d, rgb0, under[..|whole + rgb0| + 1][|whole|..]);
    OptionalOne(d, bright0, under[|whole + rgb0|..]);
    UnderZones(d, snap, looks[0], looks[|whole|], looks[|whole + rgb0|], looks[|whole + rgb0 + bright0|]);
    forall i ensures EndsPainted(d, snap, i, looks[0].paint(i), looks[|looks| - 1].paint(i)) {
      assert Underneath(d, snap, i, looks[0].paint(i), looks[|whole + rgb0 + bright0|].paint(i));
    }
  }

  lemma UnderZones(d: Device, snap: Snapshot, l0: Look, l1: Look, l2: Look, l3: Look)
    requires if WholeColour(d, snap) == [] then l1 == l0 else Shows(d, WholeColour(d, snap)[0], l0, l1)
    requires if snap.segment0Rgb.None? then l2 == l1 else Shows(d, SetSegmentRgb(snap.segment0Rgb.value), l1, l2)
    requires if snap.segment0Brightness.None? then l3 == l2 else Shows(d, SetSegmentBrightness(snap.segment0Brightness.value), l2, l3)
    ensures forall i :: Underneath(d, snap, i, l0.paint(i), l3.paint(i))
    ensures l3.segment0 == if snap.segment0Brightness.Some? then snap.segment0Brightness.value else l0.segment0
    ensures l3.brightness == l0.brightness && l3.gradual == l0.gradual
  {
  }

  // ---- the whole restore ----

  lemma {:induction false} PowerShowsNothing(d: Device, actions: seq<Action>, looks: seq<Look>)
    requires Shown(d, actions, looks) && forall a | a in actions :: a.OfPower()
    ensures var l, l' := looks[0], looks[|looks| - 1];
            SamePaint(l, l') && l' == l.(paint := l'.paint)
  {
    if actions != [] {
      var n := |actions| - 1;
      assert actions == actions[..n] + actions[n..];
      Split(d, actions[..n], actions[n..], looks);
      PowerShowsNothing(d, actions[..n], looks[..n + 1]);
      assert ShowsAt(d, actions, looks, n);
      assert actions[n] in actions;
    }
  }

  predicate Flags(d: Device, snap: Snapshot, l: Look, l': Look) {
    && l'.brightness == (if snap.brightness.Some? && Brightness in d.capabilities then snap.brightness.value else l.brightness)
    && l'.gradual == (if snap.gradual.Some? && d.gradual then snap.gradual.value else l.gradual)
  }

  ghost predicate SameButFlags(l: Look, l': Look) {
    SamePaint(l, l') && l'.scene == l.scene && l'.segment0 == l.segment0
  }

  lemma FlagsShow(d: Device, snap: Snapshot, looks: seq<Look>)
    requires var bright := if snap.brightness.Some? && Brightness in d.capabilities then [SetBrightness(snap.brightness.value)] else [];
             var gradual := if snap.gradual.Some? && d.gradual then [SetGradual(snap.gradual.value)] else [];
             Shown(d, bright + gradual, looks)
    ensures SameButFlags(looks[0], looks[|looks| - 1]) && Flags(d, snap, looks[0], looks[|looks| - 1])
  {
    var bright := if snap.brightness.Some? && Brightness in d.capabilities then [SetBrightness(snap.brightness.value)] else [];
    var gradual := if snap.gradual.Some? && d.gradual then [SetGradual(snap.gradual.value)] else [];
    Split(d, bright, gradual, looks);
    OptionalOne(d, bright, looks[..|bright| + 1]);
    OptionalOne(d, gradual, looks[|bright|..]);
  }

  lemma ColoursThenFlags(d: Device, snap: Snapshot, l: Look, l': Look, l'': Look)
    requires ColoursAs(d, snap, l, l') && SamePaint(l', l'') && l''.segment0 == l'.segment0
    ensures ColoursAs(d, snap, l, l'')
  {
    hide EndsPainted;
  }

  lemma PowerThenColours(d: Device, snap: Snapshot, l: Look, l': Look, l'': Look)
    requires SamePaint(l, l') && l'.segment0 == l.segment0 && ColoursAs(d, snap, l', l'')
    ensures ColoursAs(d, snap, l, l'')
  {
    hide EndsPainted;
  }

  lemma LooksShow(d: Device, snap: Snapshot, looks: seq<Look>)
    requires Shown(d, Looks(d, snap), looks)
    ensures LooksAs(d, snap, looks[0], looks[|looks| - 1])
  {
    hide ColoursAs;
    var colours := Colours(d, snap);
    var bright := if snap.brightness.Some? && Brightness in d.capabilities then [SetBrightness(snap.brightness.value)] else [];
    var gradual := if snap.gradual.Some? && d.gradual then [SetGradual(snap.gradual.value)] else [];
    assert Looks(d, snap) == colours + (bright + gradual);
    Split(d, colours, bright + gradual, looks);
    FlagsShow(d, snap, looks[|colours|..]);
    if HasScene(d, snap) {
      assert colours == [SetScene(snap.scene.value)];
      OptionalOne(d, colours, looks[..|colours| + 1]);
    } else {
      ColoursShow(d, snap, looks[..|colours| + 1]);
      ColoursThenFlags(d, snap, looks[0], looks[|colours|], looks[|looks| - 1]);
    }
  }

  /** From any look the test left, a restore whose actions all land leaves the scene, or the colours, and
      the brightness and gradual flag as the snapshot has them, whatever power it switches. */
  lemma PlanShows(d: Device, snap: Snapshot, looks: seq<Look>)
    requires Shown(d, Plan(d, snap), looks)
    ensures LooksAs(d, snap, looks[0], looks[|looks| - 1])
  {
    hide Looks, PowerOn, PowerOff, ColoursAs, Shows;
    var first, second, third := PowerOn(d, snap), Looks(d, snap), PowerOff(d, snap);
    PowerOnly(d, snap);
    Split(d, first + second, third, looks);
    var before := looks[..|first + second| + 1];
    Split(d, first, second, before);
    PowerShowsNothing(d, first, before[..|first| + 1]);
    LooksShow(d, snap, before[|first|..]);
    PowerShowsNothing(d, third, looks[|first + second|..]);
    if !HasScene(d, snap) {
      PowerThenColours(d, snap, looks[0], looks[|first|], looks[|first + second|]);
      ColoursThenFlags(d, snap, looks[0], looks[|first + second|], looks[|looks| - 1]);
    }
  }

  // ---- from what was read ----

  /** The first segment read among these. */
  predicate FirstRead(segments: seq<Segment>, indices: seq<int>, k: int) {
    0 <= k < |segments| && segments[k].index in indices && forall i | 0 <= i < k :: segments[i].index !in indices
  }

  /** The zone is the last of its name that has segments. */
  predicate LastOf(zones: seq<Zone>, k: int) {
    && 0 <= k < |zones| && zones[k].segments != []
    && forall i | k < i < |zones| :: zones[i].name != zones[k].name || zones[i].segments == []
  }

  lemma {:induction false} ZoneColourIs(segments: seq<Segment>, zone: Zone)
    ensures forall k | FirstRead(segments, zone.segments, k) :: ZoneColour(segments, zone) == segments[k].rgb
    ensures (forall seg | seg in segments :: seg.index !in zone.segments) ==> ZoneColour(segments, zone).None?
  {
    if segments != [] {
      ZoneColourIs(segments[1..], zone);
      assert forall i | 0 < i < |segments| :: segments[i] == segments[1..][i - 1];
      forall k | FirstRead(segments, zone.segments, k) ensures ZoneColour(segments, zone) == segments[k].rgb {
        if k > 0 { assert FirstRead(segments[1..], zone.segments, k - 1); }
      }
    }
  }

  lemma {:induction false} SegmentAtIs(segments: seq<Segment>, index: int)
    ensures forall k | FirstRead(segments, [index], k) :: SegmentAt(segments, index) == Some(segments[k])
    ensures (forall seg | seg in segments :: seg.index != index) ==> SegmentAt(segments, index).None?
  {
    if segments != [] {
      SegmentAtIs(segments[1..], index);
      assert forall i | 0 < i < |segments| :: segments[i] == segments[1..][i - 1];
      forall k | FirstRead(segments, [index], k) ensures SegmentAt(segments, index) == Some(segments[k]) {
        if k > 0 { assert FirstRead(segments[1..], [index], k - 1); }
      }
    }
  }

  lemma {:induction false} LastNamedIs(zones: seq<Zone>, k: int)
    requires LastOf(zones, k)
    ensures zones[k] in Restore.Coloured(zones) && LastNamed(Restore.Coloured(zones), zones[k].name) == Some(zones[k])
  {
    var n := |zones| - 1;
    if k < n {
      assert zones[..n][k] == zones[k];
      LastNamedIs(zones[..n], k);
      var before := Restore.Coloured(zones[..n]);
      assert (before + [zones[n]])[..|before|] == before;
    } else {
      var before := Restore.Coloured(zones[..n]);
      assert (before + [zones[n]])[|before|] == zones[n];
    }
  }

  /** The snapshot holds what was read: for each zone the colour of the first segment read among its. */
  lemma SnapshotReads(d: Device, s: State, k: int)
    requires LastOf(d.zones, k)
    ensures var snap, zone := TakeSnapshot(d, s), d.zones[k];
            && snap.scene == s.scene && snap.kelvin == s.kelvin && snap.rgb == s.rgb
            && snap.brightness == s.brightness && snap.gradual == s.gradual
            && zone.name in snap.zoneColour
            && (forall i | FirstRead(s.segments, zone.segments, i) :: snap.zoneColour[zone.name] == s.segments[i].rgb)
            && ((forall seg | seg in s.segments :: seg.index !in zone.segments) ==> snap.zoneColour[zone.name].None?)
  {
    LastNamedIs(d.zones, k);
    ZoneColourIs(s.segments, d.zones[k]);
  }

  /** And segment 0's colour and brightness, if it was read. */
  lemma SnapshotReadsSegment0(d: Device, s: State)
    ensures var snap := TakeSnapshot(d, s);
            && (forall i | FirstRead(s.segments, [0], i) ::
                  snap.segment0Rgb == s.segments[i].rgb && snap.segment0Brightness == s.segments[i].brightness)
            && ((forall seg | seg in s.segments :: seg.index != 0) ==> snap.segment0Rgb.None? && snap.segment0Brightness.None?)
  {
    SegmentAtIs(s.segments, 0);
  }

  /** What was read of the look before the test is true of it. */
  ghost predicate ReadOfLook(s: State, found: Look) {
    && (s.scene.Some? ==> found.scene == s.scene)
    && (s.brightness.Some? ==> found.brightness == s.brightness.value)
    && (s.gradual.Some? ==> found.gradual == s.gradual.value)
    && forall seg | seg in s.segments && seg.rgb.Some? :: found.paint(seg.index) == Colour(seg.rgb.value)
  }

  /** The scene, the brightness and the gradual flag, if read, end as found, where the device has them. */
  lemma LookEndsAsFound(d: Device, s: State, found: Look, looks: seq<Look>)
    requires Shown(d, Plan(d, TakeSnapshot(d, s)), looks) && ReadOfLook(s, found)
    ensures var last := looks[|looks| - 1];
            && (s.scene.Some? && Scenes in d.capabilities ==> last.scene == found.scene)
            && (s.brightness.Some? && Brightness in d.capabilities ==> last.brightness == found.brightness)
            && (s.gradual.Some? && d.gradual ==> last.gradual == found.gradual)
  {
    hide Shown, Plan, ColoursAs;
    PlanShows(d, TakeSnapshot(d, s), looks);
  }

  /** A segment of one zone ends with the colour of the first segment read of that zone: as it was found
      exactly if those two were found alike. */
  lemma SegmentEndsAsFound(d: Device, s: State, found: Look, looks: seq<Look>, k: int, r: int, i: int)
    requires Shown(d, Plan(d, TakeSnapshot(d, s)), looks) && ReadOfLook(s, found)
    requires s.scene.None? || Scenes !in d.capabilities
    requires LastOf(d.zones, k) && i in d.zones[k].segments && forall z | z in d.zones && i in z.segments :: z == d.zones[k]
    requires FirstRead(s.segments, d.zones[k].segments, r) && s.segments[r].rgb.Some?
    ensures looks[|looks| - 1].paint(i) == found.paint(i) <==> found.paint(i) == found.paint(s.segments[r].index)
  {
    hide ShowsAt, Plan, TakeSnapshot, Underneath;
    var snap := TakeSnapshot(d, s);
    var l, last := looks[0], looks[|looks| - 1];
    PlanShows(d, snap, looks);
    SnapshotReads(d, s, k);
    assert s.segments[r] in s.segments;
    assert EndsPainted(d, snap, i, l.paint(i), last.paint(i));
    assert Paints(d, snap, d.zones[k].name, i);
    var under :| Underneath(d, snap, i, l.paint(i), under) && ZonePainted(d, d.zones, snap, i, under, last.paint(i));
  }
}
