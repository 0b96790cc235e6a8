/** The lists the gate filters and sorts: what is in them, and in what order. */
module GateLists {
  import opened Options
  import opened StableSort
  import opened ConnectGate

  lemma {:induction false} FilterElements<T>(s: seq<T>, keep: T -> bool)
    ensures forall x :: x in Filter(s, keep) <==> x in s && keep(x)
    ensures |Filter(s, keep)| <= |s|
  {
    if |s| > 0 {
      FilterElements(s[..|s| - 1], keep);
      assert s == s[..|s| - 1] + [s[|s| - 1]];
    }
  }

  lemma {:induction false} FilterPairwise<T(!new)>(s: seq<T>, keep: T -> bool, related: (T, T) -> bool)
    requires Pairwise(s, related)
    ensures Pairwise(Filter(s, keep), related)
  {
    if |s| > 0 {
      var init, last := s[..|s| - 1], s[|s| - 1];
      FilterPairwise(init, keep, related);
      FilterElements(init, keep);
      forall y | y in Filter(init, keep) ensures related(y, last) {
        var k :| 0 <= k < |init| && init[k] == y;
        assert related(s[k], s[|s| - 1]);
      }
    }
  }

  /** A list is shorter without an element. */
  lemma {:induction false} FilterShrinks<T>(s: seq<T>, keep: T -> bool)
    requires exists x | x in s :: !keep(x)
    ensures |Filter(s, keep)| < |s|
  {
    var init, last := s[..|s| - 1], s[|s| - 1];
    assert s == init + [last];
    if keep(last) {
      FilterShrinks(init, keep);
    } else {
      FilterElements(init, keep);
    }
  }

  ghost predicate DistinctIds(waiters: seq<Waiter>) {
    Pairwise(waiters, (v: Waiter, w: Waiter) => v.id != w.id)
  }

  lemma WithoutElements(waiters: seq<Waiter>, id: CallId)
    ensures forall w :: w in Without(waiters, id) <==> w in waiters && w.id != id
    ensures |Without(waiters, id)| <= |waiters|
    ensures (exists w | w in waiters :: w.id == id) ==> |Without(waiters, id)| < |waiters|
    ensures DistinctIds(waiters) ==> DistinctIds(Without(waiters, id))
  {
    var keep := (w: Waiter) => w.id != id;
    FilterElements(waiters, keep);
    if exists w | w in waiters :: w.id == id {
      FilterShrinks(waiters, keep);
    }
    if DistinctIds(waiters) {
      FilterPairwise(waiters, keep, (v: Waiter, w: Waiter) => v.id != w.id);
    }
  }

  lemma WaitingElements(g: Gate)
    ensures forall w :: w in Waiting(g) <==> w in g.waiters && IsPending(g.futures, w.id)
    ensures DistinctIds(g.waiters) ==> DistinctIds(Waiting(g))
  {
    var keep := (w: Waiter) => IsPending(g.futures, w.id);
    FilterElements(g.waiters, keep);
    if DistinctIds(g.waiters) {
      FilterPairwise(g.waiters, keep, (v: Waiter, w: Waiter) => v.id != w.id);
    }
  }

  lemma LeavingElements(g: Gate, a: Address)
    ensures forall w :: w in Leaving(g, a) <==> w in g.waiters && w.address == a && IsPending(g.futures, w.id)
    ensures DistinctIds(g.waiters) ==> DistinctIds(Leaving(g, a))
  {
    var keep := (w: Waiter) => w.address == a && IsPending(g.futures, w.id);
    FilterElements(g.waiters, keep);
    if DistinctIds(g.waiters) {
      FilterPairwise(g.waiters, keep, (v: Waiter, w: Waiter) => v.id != w.id);
    }
  }

  ghost predicate DistinctItems(items: seq<Item>) {
    AllPairs(items, (x: Item, y: Item) => x.waiter.id != y.waiter.id)
  }

  /** A pass serves each waiting call once, with its own view. */
  lemma ServingElements(waiting: seq<Waiter>, avoided: map<Source, int>, snap: Snapshot)
    ensures var items := Serving(waiting, avoided, snap);
            && |items| == |waiting|
            && (forall item | item in items ::
                  item.waiter in waiting && item.view == ViewOf(snap.paths(item.waiter.address), avoided, snap))
            && (forall w | w in waiting :: Item(w, ViewOf(snap.paths(w.address), avoided, snap)) in items)
            && (DistinctIds(waiting) ==> DistinctItems(items))
  {
    var views := Views(waiting, avoided, snap);
    var items := Serving(waiting, avoided, snap);
    SortKeepsElements(views, Rank);
    forall item | item in items
      ensures item.waiter in waiting && item.view == ViewOf(snap.paths(item.waiter.address), avoided, snap)
    {
      assert item in multiset(items);
      assert item in multiset(views);
      var k :| 0 <= k < |views| && views[k] == item;
      assert waiting[k] == item.waiter;
    }
    forall w | w in waiting ensures Item(w, ViewOf(snap.paths(w.address), avoided, snap)) in items {
      var k :| 0 <= k < |waiting| && waiting[k] == w;
      assert views[k] in multiset(views);
      assert views[k] in multiset(items);
    }
    if DistinctIds(waiting) {
      var differ := (x: Item, y: Item) => x.waiter.id != y.waiter.id;
      forall i, j | 0 <= i < |views| && 0 <= j < |views| && i != j ensures differ(views[i], views[j]) {
        var apart := (v: Waiter, w: Waiter) => v.id != w.id;
        if i < j { assert apart(waiting[i], waiting[j]); } else { assert apart(waiting[j], waiting[i]); }
      }
      SortKeepsApart(views, Rank, differ);
    }
  }
}
