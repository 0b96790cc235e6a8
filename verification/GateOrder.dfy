/** The order a pass serves the waiting calls in, and the path it predicts for each. */
module GateOrder {
  import opened Options
  import opened StableSort
  import opened ConnectGate
  import opened GateLists

  // ---- fit paths ----

  /** Heard well, not failing again and again, its radio not avoided. */
  predicate Fit(path: Path, avoided: map<Source, int>, now: int) {
    && path.rssi >= RSSI_FLOOR && path.failures < PATH_FAILURES
    && (path.scanner.source in avoided ==> avoided[path.scanner.source] <= now)
  }

  /** A device's fit paths count; while it has none, all of them do. */
  ghost predicate Counts(path: Path, paths: seq<Path>, avoided: map<Source, int>, now: int) {
    Fit(path, avoided, now) || forall p | p in paths :: !Fit(p, avoided, now)
  }

  ghost predicate SeveralCount(paths: seq<Path>, avoided: map<Source, int>, now: int) {
    exists i, j | 0 <= i < j < |paths| :: Counts(paths[i], paths, avoided, now) && Counts(paths[j], paths, avoided, now)
  }

  lemma {:induction false} FilterSeveral<T(!new)>(s: seq<T>, keep: T -> bool)
    ensures |Filter(s, keep)| > 1 <==> exists i, j | 0 <= i < j < |s| :: keep(s[i]) && keep(s[j])
  {
    if |s| > 0 {
      var n := |s| - 1;
      FilterSeveral(s[..n], keep);
      FilterElements(s[..n], keep);
      var before := Filter(s[..n], keep);
      assert forall i | 0 <= i < n :: s[i] == s[..n][i];
      if before != [] {
        assert before[0] in before && before[0] in s[..n] && keep(before[0]);
      } else {
        assert forall i | 0 <= i < n :: keep(s[i]) ==> s[..n][i] in before;
      }
    }
  }

  /** The usable paths are those that count. */
  lemma UsableAre(paths: seq<Path>, avoided: map<Source, int>, now: int)
    ensures forall p :: p in UsablePaths(paths, avoided, now) <==> p in paths && Counts(p, paths, avoided, now)
    ensures |UsablePaths(paths, avoided, now)| > 1 <==> SeveralCount(paths, avoided, now)
  {
    var usable := (p: Path) => Usable(p, avoided, now);
    FilterElements(paths, usable);
    FilterSeveral(paths, usable);
    var fit := Filter(paths, usable);
    if fit == [] {
      assert forall p | p in paths :: p !in fit;
      assert |paths| > 1 ==> Counts(paths[0], paths, avoided, now) && Counts(paths[1], paths, avoided, now);
    } else {
      assert fit[0] in paths && Fit(fit[0], avoided, now);
    }
  }

  // ---- serving order ----

  ghost predicate Earlier(waiting: seq<Waiter>, v: Waiter, w: Waiter) {
    exists i, j :: 0 <= i < j < |waiting| && waiting[i] == v && waiting[j] == w
  }

  /** Commands before polls; among each, turn-offs of devices already off last; then devices with
      a single path that counts first; then in arrival order. */
  ghost predicate ServedBefore(v: Waiter, w: Waiter, waiting: seq<Waiter>, avoided: map<Source, int>, snap: Snapshot) {
    var several := (u: Waiter) => SeveralCount(snap.paths(u.address), avoided, snap.now);
    if v.poll != w.poll then w.poll
    else if v.last != w.last then w.last
    else if several(v) != several(w) then several(w)
    else Earlier(waiting, v, w)
  }

  lemma ServingOrder(waiting: seq<Waiter>, avoided: map<Source, int>, snap: Snapshot, i: nat, j: nat)
    requires i < j < |Serving(waiting, avoided, snap)|
    ensures var items := Serving(waiting, avoided, snap);
            ServedBefore(items[i].waiter, items[j].waiter, waiting, avoided, snap)
  {
    hide SeveralCount, UsablePaths, Predict;
    var views := Views(waiting, avoided, snap);
    var earlier := (x: Item, y: Item) => Earlier(waiting, x.waiter, y.waiter);
    forall k, l | 0 <= k < l < |views| ensures earlier(views[k], views[l]) {
      assert waiting[k] == views[k].waiter && waiting[l] == views[l].waiter;
    }
    SortOrders(views, Rank, earlier);
    ServingElements(waiting, avoided, snap);
    var items := Serving(waiting, avoided, snap);
    assert Before(items[i], items[j], Rank, earlier);
    assert items[i] in items && items[j] in items;
    UsableAre(snap.paths(items[i].waiter.address), avoided, snap.now);
    UsableAre(snap.paths(items[j].waiter.address), avoided, snap.now);
  }

  // ---- the predicted path ----

  /** The path's radio reports a free slot, or no slot count. */
  predicate SlotFree(path: Path, snap: Snapshot) {
    var source := path.scanner.source;
    var free := snap.read(Scanner(source, snap.instance(source))).freeSlots;
    free.None? || free.value > 0
  }

  /** How habluetooth ranks a device's paths: by score, then by signal; a lone path by signal. */
  predicate Outranks(x: Path, y: Path, alone: bool) {
    if alone then x.rssi > y.rssi else x.score > y.score || (x.score == y.score && x.rssi > y.rssi)
  }

  lemma RankedOrder(paths: seq<Path>)
    ensures multiset(Ranked(paths)) == multiset(paths)
    ensures forall i, j | 0 <= i < j < |Ranked(paths)| :: !Outranks(Ranked(paths)[j], Ranked(paths)[i], |paths| <= 1)
  {
    var bySignal := (p: Path) => -(p.rssi as real);
    var byScore := (p: Path) => -p.score;
    var byRssi := Sort(paths, bySignal);
    SortKeepsElements(paths, bySignal);
    SortOrders(paths, bySignal, (x: Path, y: Path) => true);
    if |paths| > 1 {
      var louder := (x: Path, y: Path) => x.rssi >= y.rssi;
      forall i, j | 0 <= i < j < |byRssi| ensures louder(byRssi[i], byRssi[j]) {
        assert Before(byRssi[i], byRssi[j], bySignal, (x: Path, y: Path) => true);
      }
      SortKeepsElements(byRssi, byScore);
      SortOrders(byRssi, byScore, louder);
      var ranked := Sort(byRssi, byScore);
      forall i, j | 0 <= i < j < |ranked| ensures !Outranks(ranked[j], ranked[i], false) {
        assert Before(ranked[i], ranked[j], byScore, louder);
      }
    }
  }

  lemma {:induction false} FirstFreeIsFirst(ranked: seq<Path>, snap: Snapshot)
    ensures var r := FirstFree(ranked, snap);
            match r
            case None => forall p | p in ranked :: !SlotFree(p, snap)
            case Some(best) => exists k :: FirstWanted(ranked, k, (p: Path) => SlotFree(p, snap)) && ranked[k] == best
  {
    var free := (p: Path) => SlotFree(p, snap);
    if |ranked| > 0 {
      if free(ranked[0]) {
        assert FirstWanted(ranked, 0, free);
      } else {
        FirstFreeIsFirst(ranked[1..], snap);
        var r := FirstFree(ranked[1..], snap);
        assert forall p | p in ranked :: p == ranked[0] || p in ranked[1..];
        if r.Some? {
          var k :| FirstWanted(ranked[1..], k, free) && ranked[1..][k] == r.value;
          assert forall i | 0 < i < |ranked| :: ranked[i] == ranked[1..][i - 1];
          assert FirstWanted(ranked, k + 1, free);
        }
      }
    }
  }

  /** The first, as the device's paths come, of the best of those whose radio has a free slot. */
  ghost predicate FirstOfBestFree(paths: seq<Path>, k: int, snap: Snapshot) {
    && 0 <= k < |paths| && SlotFree(paths[k], snap)
    && forall i | 0 <= i < |paths| && SlotFree(paths[i], snap) ::
         && !Outranks(paths[i], paths[k], |paths| <= 1)
         && (i < k ==> Outranks(paths[k], paths[i], |paths| <= 1))
  }

  /** The prediction is that path, and there is none exactly when no radio has a free slot. */
  lemma PredictIsBest(paths: seq<Path>, snap: Snapshot)
    ensures match Predict(paths, snap)
            case None => forall p | p in paths :: !SlotFree(p, snap)
            case Some(best) => exists k :: FirstOfBestFree(paths, k, snap) && paths[k] == best
  {
    hide FirstFree, SlotFree;
    var ranked, free := Ranked(paths), (p: Path) => SlotFree(p, snap);
    RankedOrder(paths);
    FirstFreeIsFirst(ranked, snap);
    forall p ensures p in paths <==> p in ranked {
      assert p in multiset(paths) <==> p in multiset(ranked);
    }
    if FirstFree(ranked, snap).Some? {
      var j :| FirstWanted(ranked, j, free) && ranked[j] == FirstFree(ranked, snap).value;
      var k := RankedFirst(paths, free, j);
      assert FirstOfBestFree(paths, k, snap);
    }
  }

  /** The first of the ranked paths with a property is the first of the best of the paths with it. */
  lemma RankedFirst(paths: seq<Path>, wanted: Path -> bool, j: int) returns (k: int)
    requires FirstWanted(Ranked(paths), j, wanted)
    ensures 0 <= k < |paths| && paths[k] == Ranked(paths)[j]
    ensures forall i | 0 <= i < |paths| && wanted(paths[i]) ::
              && !Outranks(paths[i], paths[k], |paths| <= 1)
              && (i < k ==> Outranks(paths[k], paths[i], |paths| <= 1))
  {
    hide Sort;
    var bySignal := (p: Path) => -(p.rssi as real);
    var byScore := (p: Path) => -p.score;
    if |paths| <= 1 {
      SortedFirst(paths, wanted, bySignal, j);
      k :| FirstOfLeast(paths, k, wanted, bySignal) && paths[k] == Ranked(paths)[j];
    } else {
      var byRssi := Sort(paths, bySignal);
      SortKeepsElements(paths, bySignal);
      SortedFirst(byRssi, wanted, byScore, j);
      var l :| FirstOfLeast(byRssi, l, wanted, byScore) && byRssi[l] == Ranked(paths)[j];
      var tied := (p: Path) => wanted(p) && p.score == byRssi[l].score;
      assert FirstWanted(byRssi, l, tied);
      SortedFirst(paths, tied, bySignal, l);
      k :| FirstOfLeast(paths, k, tied, bySignal) && paths[k] == byRssi[l];
      forall i | 0 <= i < |paths| && wanted(paths[i])
        ensures !Outranks(paths[i], paths[k], false) && (i < k ==> Outranks(paths[k], paths[i], false))
      {
        assert paths[i] in multiset(paths) && paths[i] in multiset(byRssi);
        var m :| 0 <= m < |byRssi| && byRssi[m] == paths[i];
        assert byScore(byRssi[l]) <= byScore(byRssi[m]);
      }
    }
  }

  // ---- the best heard path ----

  lemma {:induction false} BestHeardOf(paths: seq<Path>, keep: Path -> bool)
    ensures var fit := Filter(paths, keep);
            Least(paths, keep, (p: Path) => -(p.rssi as real)) == if fit == [] then None else Some(BestHeard(fit))
  {
    if |paths| > 0 {
      var n := |paths| - 1;
      BestHeardOf(paths[..n], keep);
      var before := Filter(paths[..n], keep);
      assert (before + [paths[n]])[..|before|] == before;
    }
  }

  /** The first of the best heard of the paths that count. */
  ghost predicate FirstBestHeard(paths: seq<Path>, k: int, avoided: map<Source, int>, now: int) {
    && 0 <= k < |paths| && Counts(paths[k], paths, avoided, now)
    && forall i | 0 <= i < |paths| && Counts(paths[i], paths, avoided, now) ::
         paths[i].rssi <= paths[k].rssi && (i < k ==> paths[i].rssi < paths[k].rssi)
  }

  lemma BestHeardIs(paths: seq<Path>, keep: Path -> bool) returns (k: int)
    requires Filter(paths, keep) != []
    ensures 0 <= k < |paths| && keep(paths[k]) && paths[k] == BestHeard(Filter(paths, keep))
    ensures forall i | 0 <= i < |paths| && keep(paths[i]) ::
              paths[i].rssi <= paths[k].rssi && (i < k ==> paths[i].rssi < paths[k].rssi)
  {
    hide BestHeard, Filter;
    var key := (p: Path) => -(p.rssi as real);
    BestHeardOf(paths, keep);
    LeastIs(paths, keep, key);
    k :| FirstOfLeast(paths, k, keep, key) && paths[k] == BestHeard(Filter(paths, keep));
    assert forall i | 0 <= i < |paths| && keep(paths[i]) :: key(paths[k]) <= key(paths[i]) && (i < k ==> key(paths[k]) < key(paths[i]));
  }

  /** Where a capped call with no predicted path goes. */
  lemma BestHeardIsFirstOfBest(paths: seq<Path>, avoided: map<Source, int>, now: int)
    requires paths != []
    ensures UsablePaths(paths, avoided, now) != []
    ensures exists k :: FirstBestHeard(paths, k, avoided, now) && paths[k] == BestHeard(UsablePaths(paths, avoided, now))
  {
    hide BestHeard, Filter;
    var keep := (p: Path) => Usable(p, avoided, now);
    FilterElements(paths, keep);
    if Filter(paths, keep) == [] {
      assert forall p | p in paths :: p !in Filter(paths, keep);
      FilterAll(paths);
      var k := BestHeardIs(paths, (p: Path) => true);
      assert FirstBestHeard(paths, k, avoided, now);
    } else {
      assert Filter(paths, keep)[0] in paths && Fit(Filter(paths, keep)[0], avoided, now);
      var k := BestHeardIs(paths, keep);
      assert FirstBestHeard(paths, k, avoided, now);
    }
  }

  lemma {:induction false} FilterAll<T(!new)>(s: seq<T>)
    ensures Filter(s, (x: T) => true) == s
  {
    if |s| > 0 {
      FilterAll(s[..|s| - 1]);
    }
  }

  // ---- the radio that lists a device ----

  predicate Lists(snap: Snapshot, path: Path, a: Address) {
    a in snap.read(Scanner(path.scanner.source, snap.instance(path.scanner.source))).listed
  }

  /** The first path whose radio lists the device. */
  ghost predicate FirstAt(paths: seq<Path>, k: int, a: Address, snap: Snapshot) {
    0 <= k < |paths| && Lists(snap, paths[k], a) && forall i | 0 <= i < k :: !Lists(snap, paths[i], a)
  }

  lemma {:induction false} FirstListingIs(paths: seq<Path>, a: Address, snap: Snapshot)
    ensures match FirstListing(paths, a, snap)
            case None => forall p | p in paths :: !Lists(snap, p, a)
            case Some(scanner) => exists k :: FirstAt(paths, k, a, snap) && paths[k].scanner == scanner
  {
    if paths != [] {
      if Lists(snap, paths[0], a) {
        assert FirstAt(paths, 0, a, snap);
      } else {
        FirstListingIs(paths[1..], a, snap);
        assert forall p | p in paths :: p == paths[0] || p in paths[1..];
        assert forall i | 0 < i < |paths| :: paths[i] == paths[1..][i - 1];
        if FirstListing(paths[1..], a, snap).Some? {
          var k :| FirstAt(paths[1..], k, a, snap) && paths[1..][k].scanner == FirstListing(paths[1..], a, snap).value;
          assert FirstAt(paths, k + 1, a, snap);
        }
      }
    }
  }

  lemma OneFirst(paths: seq<Path>, j: int, k: int, a: Address, snap: Snapshot)
    requires FirstAt(paths, j, a, snap) && FirstAt(paths, k, a, snap)
    ensures j == k
  {
    assert !(j < k) && !(k < j);
  }
}
