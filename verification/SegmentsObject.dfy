/** The follower as the program writes it: what it stores and its last read, updated on each push. */
module SegmentsObject {
  import opened Options
  import opened S = Segments

  class SegmentFollower {
    const address: string
    var tracking: bool
    var last: Option<Read>
    var stored: Option<nat>
    var built: nat
    var registry: Registry
    var reloading: bool

    function State(): Entry
      reads this
    {
      Entry(address, tracking, last, stored, built, registry, reloading)
    }

    /** The entry as Home Assistant stored it, before a setup. */
    constructor (address: string, stored: Option<nat>, registry: Registry)
      ensures State() == Entry(address, false, None, stored, 0, registry, false)
    {
      this.address, this.stored, this.registry := address, stored, registry;
      tracking, last, built, reloading := false, None, 0, false;
    }

    method Check(read: Option<Read>)
      modifies this
      ensures State() == S.Check(old(State()), read)
    {
      hide Past;
      if read.None? {
        last := None;
        return;
      }
      if last.Some? && read.value.readAt == last.value.readAt {
        return;
      }
      var previous := last;
      last := read;
      if Some(read.value.segments) == stored {
        return;
      }
      if previous.None? || previous.value.segments != read.value.segments {
        return;
      }
      var count := read.value.segments;
      stored := Some(count);
      if count != built {
        reloading := true;
      } else {
        RemoveSegmentLights(count);
      }
    }

    /** Removes the segment lights for segments `keep` and up, one by one. */
    method RemoveSegmentLights(keep: nat)
      modifies this
      ensures State() == RemovePast(old(State()), keep)
    {
      hide Past;
      var entries := registry;
      var todo := entries.Keys;
      while todo != {}
        invariant todo <= entries.Keys
        invariant State() == old(State()).(registry := registry)
        invariant registry == map id | id in entries && (id in todo || !Past(entries[id], address, keep)) :: entries[id]
        decreases todo
      {
        var id :| id in todo;
        todo := todo - {id};
        if Past(entries[id], address, keep) {
          registry := registry - {id};
        }
      }
      assert registry == Remaining(entries, address, keep);
    }

    /** How many segment lights setup builds, those past them removed. */
    method SizeSegmentLights(capable: bool, profile: nat) returns (count: nat)
      modifies this
      ensures count == Setup(old(State()), capable, profile, map[]).built
      ensures State() == old(State()).(registry := Setup(old(State()), capable, profile, map[]).registry)
    {
      hide Remaining;
      Unadded(old(State()), capable, profile);
      if !capable {
        RemoveSegmentLights(0);
        return 0;
      }
      if stored.None? {
        return profile;
      }
      RemoveSegmentLights(stored.value);
      return stored.value;
    }

    method SetUp(capable: bool, profile: nat, added: Registry)
      modifies this
      ensures State() == Setup(old(State()), capable, profile, added)
    {
      hide Remaining;
      Unadded(old(State()), capable, profile);
      built := SizeSegmentLights(capable, profile);
      tracking, last, reloading := capable, None, false;
      registry := registry + added;
    }
  }

  lemma Unadded(e: Entry, capable: bool, profile: nat)
    ensures forall r: Registry :: r + map[] == r
  {
  }
}
