/** Python's list.sort: stable, ascending by a key. `reverse=True` is the key negated, as both
    keep equal elements in their order. */
module StableSort {
  import opened Options

  function Insert<T>(s: seq<T>, x: T, key: T -> real): seq<T> {
    if |s| == 0 || key(s[|s| - 1]) <= key(x) then s + [x]
    else Insert(s[..|s| - 1], x, key) + [s[|s| - 1]]
  }

  function Sort<T>(s: seq<T>, key: T -> real): seq<T> {
    if |s| == 0 then []
    else Insert(Sort(s[..|s| - 1], key), s[|s| - 1], key)
  }

  /** Ascending keys; elements with equal keys are related by `earlier`, in order. */
  ghost predicate Ordered<T(!new)>(s: seq<T>, key: T -> real, earlier: (T, T) -> bool) {
    forall i, j | 0 <= i < j < |s| :: Before(s[i], s[j], key, earlier)
  }

  predicate Before<T>(x: T, y: T, key: T -> real, earlier: (T, T) -> bool) {
    key(x) < key(y) || (key(x) == key(y) && earlier(x, y))
  }

  ghost predicate Pairwise<T(!new)>(s: seq<T>, earlier: (T, T) -> bool) {
    forall i, j | 0 <= i < j < |s| :: earlier(s[i], s[j])
  }

  lemma {:induction false} InsertKeepsElements<T>(s: seq<T>, x: T, key: T -> real)
    ensures multiset(Insert(s, x, key)) == multiset(s) + multiset{x}
    ensures |Insert(s, x, key)| == |s| + 1
  {
    if |s| == 0 || key(s[|s| - 1]) <= key(x) {
    } else {
      InsertKeepsElements(s[..|s| - 1], x, key);
      assert s == s[..|s| - 1] + [s[|s| - 1]];
    }
  }

  lemma {:induction false} InsertOrders<T(!new)>(s: seq<T>, x: T, key: T -> real, earlier: (T, T) -> bool)
    requires Ordered(s, key, earlier)
    requires forall y | y in s :: earlier(y, x)
    ensures Ordered(Insert(s, x, key), key, earlier)
  {
    if |s| == 0 || key(s[|s| - 1]) <= key(x) {
      forall i, j | 0 <= i < j < |s + [x]|
        ensures Before((s + [x])[i], (s + [x])[j], key, earlier)
      {
        if j == |s| && i < |s| - 1 {
          assert Before(s[i], s[|s| - 1], key, earlier);
        }
      }
    } else {
      var init, last := s[..|s| - 1], s[|s| - 1];
      InsertOrders(init, x, key, earlier);
      InsertKeepsElements(init, x, key);
      var r := Insert(init, x, key);
      forall i | 0 <= i < |r| ensures Before(r[i], last, key, earlier) {
        assert r[i] in multiset(r);
        if r[i] != x {
          assert r[i] in multiset(init);
          var k :| 0 <= k < |init| && init[k] == r[i];
          assert Before(s[k], s[|s| - 1], key, earlier);
        }
      }
    }
  }

  lemma {:induction false} SortKeepsElements<T>(s: seq<T>, key: T -> real)
    ensures multiset(Sort(s, key)) == multiset(s)
    ensures |Sort(s, key)| == |s|
  {
    if |s| > 0 {
      SortKeepsElements(s[..|s| - 1], key);
      InsertKeepsElements(Sort(s[..|s| - 1], key), s[|s| - 1], key);
      assert s == s[..|s| - 1] + [s[|s| - 1]];
    }
  }

  /** The sort is stable: any relation that held down the list still orders equal keys. */
  lemma {:induction false} SortOrders<T(!new)>(s: seq<T>, key: T -> real, earlier: (T, T) -> bool)
    requires Pairwise(s, earlier)
    ensures Ordered(Sort(s, key), key, earlier)
  {
    if |s| > 0 {
      var init, last := s[..|s| - 1], s[|s| - 1];
      SortOrders(init, key, earlier);
      SortKeepsElements(init, key);
      forall y | y in Sort(init, key) ensures earlier(y, last) {
        assert y in multiset(Sort(init, key));
        var k :| 0 <= k < |init| && init[k] == y;
        assert earlier(s[k], s[|s| - 1]);
      }
      InsertOrders(Sort(init, key), last, key, earlier);
    }
  }

  ghost predicate AllPairs<T(!new)>(s: seq<T>, apart: (T, T) -> bool) {
    forall i, j | 0 <= i < |s| && 0 <= j < |s| && i != j :: apart(s[i], s[j])
  }

  lemma AppendKeepsApart<T(!new)>(s: seq<T>, x: T, apart: (T, T) -> bool)
    requires AllPairs(s, apart) && forall y | y in s :: apart(x, y) && apart(y, x)
    ensures AllPairs(s + [x], apart)
  {
    forall i, j | 0 <= i < |s + [x]| && 0 <= j < |s + [x]| && i != j ensures apart((s + [x])[i], (s + [x])[j]) {
      if i < |s| && j < |s| {
        assert apart(s[i], s[j]);
      }
    }
  }

  lemma {:induction false} InsertKeepsApart<T(!new)>(s: seq<T>, x: T, key: T -> real, apart: (T, T) -> bool)
    requires AllPairs(s, apart)
    requires forall y | y in s :: apart(x, y) && apart(y, x)
    ensures AllPairs(Insert(s, x, key), apart)
  {
    if |s| == 0 || key(s[|s| - 1]) <= key(x) {
      AppendKeepsApart(s, x, apart);
    } else {
      var init, last := s[..|s| - 1], s[|s| - 1];
      InsertKeepsApart(init, x, key, apart);
      InsertKeepsElements(init, x, key);
      forall y | y in Insert(init, x, key) ensures apart(y, last) && apart(last, y) {
        assert y in multiset(Insert(init, x, key));
        if y != x {
          assert y in multiset(init);
          var k :| 0 <= k < |init| && init[k] == y;
          assert apart(s[k], s[|s| - 1]) && apart(s[|s| - 1], s[k]);
        }
      }
      AppendKeepsApart(Insert(init, x, key), last, apart);
    }
  }

  /** What holds between every two elements still does after the sort. */
  lemma {:induction false} SortKeepsApart<T(!new)>(s: seq<T>, key: T -> real, apart: (T, T) -> bool)
    requires AllPairs(s, apart)
    ensures AllPairs(Sort(s, key), apart)
  {
    if |s| > 0 {
      var init, last := s[..|s| - 1], s[|s| - 1];
      SortKeepsApart(init, key, apart);
      SortKeepsElements(init, key);
      forall y | y in Sort(init, key) ensures apart(last, y) && apart(y, last) {
        assert y in multiset(Sort(init, key));
        var k :| 0 <= k < |init| && init[k] == y;
        assert apart(s[k], s[|s| - 1]) && apart(s[|s| - 1], s[k]);
      }
      InsertKeepsApart(Sort(init, key), last, key, apart);
    }
  }

  // ---- the first of the best ----

  /** The first wanted element of those with the least key. */
  ghost predicate FirstOfLeast<T(!new)>(s: seq<T>, k: int, wanted: T -> bool, key: T -> real) {
    && 0 <= k < |s| && wanted(s[k])
    && (forall i | 0 <= i < |s| && wanted(s[i]) :: key(s[k]) <= key(s[i]) && (i < k ==> key(s[k]) < key(s[i])))
  }

  ghost predicate FirstWanted<T(!new)>(s: seq<T>, k: int, wanted: T -> bool) {
    0 <= k < |s| && wanted(s[k]) && forall i | 0 <= i < k :: !wanted(s[i])
  }

  function First<T>(s: seq<T>, wanted: T -> bool): Option<T> {
    if |s| == 0 then None
    else if First(s[..|s| - 1], wanted).Some? then First(s[..|s| - 1], wanted)
    else if wanted(s[|s| - 1]) then Some(s[|s| - 1]) else None
  }

  function Least<T>(s: seq<T>, wanted: T -> bool, key: T -> real): Option<T> {
    if |s| == 0 then None
    else Lesser(Least(s[..|s| - 1], wanted, key), s[|s| - 1], wanted, key)
  }

  function Lesser<T>(least: Option<T>, x: T, wanted: T -> bool, key: T -> real): Option<T> {
    if wanted(x) && (least.None? || key(x) < key(least.value)) then Some(x) else least
  }

  lemma {:induction false} FirstIs<T(!new)>(s: seq<T>, wanted: T -> bool)
    ensures match First(s, wanted)
            case None => forall x | x in s :: !wanted(x)
            case Some(x) => exists k :: FirstWanted(s, k, wanted) && s[k] == x
  {
    if |s| > 0 {
      var n := |s| - 1;
      FirstIs(s[..n], wanted);
      assert s == s[..n] + [s[n]];
      if First(s[..n], wanted).Some? {
        var k :| FirstWanted(s[..n], k, wanted) && s[..n][k] == First(s[..n], wanted).value;
        assert forall i | 0 <= i < k :: s[i] == s[..n][i];
        assert FirstWanted(s, k, wanted);
      } else if wanted(s[n]) {
        assert forall i | 0 <= i < n :: s[i] in s[..n];
        assert FirstWanted(s, n, wanted);
      }
    }
  }

  lemma {:induction false} LeastIs<T(!new)>(s: seq<T>, wanted: T -> bool, key: T -> real)
    ensures match Least(s, wanted, key)
            case None => forall x | x in s :: !wanted(x)
            case Some(x) => exists k :: FirstOfLeast(s, k, wanted, key) && s[k] == x
  {
    if |s| > 0 {
      var n := |s| - 1;
      LeastIs(s[..n], wanted, key);
      assert s == s[..n] + [s[n]];
      var r := Least(s[..n], wanted, key);
      if r.Some? {
        var k :| FirstOfLeast(s[..n], k, wanted, key) && s[..n][k] == r.value;
        assert forall i | 0 <= i < n :: s[i] == s[..n][i];
        assert FirstOfLeast(s, if Least(s, wanted, key) == r then k else n, wanted, key);
      } else if wanted(s[n]) {
        assert forall i | 0 <= i < n :: s[i] in s[..n];
        assert FirstOfLeast(s, n, wanted, key);
      }
    }
  }

  lemma {:induction false} InsertFirst<T(!new)>(s: seq<T>, x: T, wanted: T -> bool, key: T -> real)
    requires Ordered(s, key, (y: T, z: T) => true)
    ensures First(Insert(s, x, key), wanted) == Lesser(First(s, wanted), x, wanted, key)
  {
    FirstIs(s, wanted);
    if |s| == 0 || key(s[|s| - 1]) <= key(x) {
      assert (s + [x])[..|s|] == s;
      forall i | 0 <= i < |s| ensures key(s[i]) <= key(x) {
        assert i < |s| - 1 ==> Before(s[i], s[|s| - 1], key, (y: T, z: T) => true);
      }
    } else {
      InsertFirst(s[..|s| - 1], x, wanted, key);
      var r := Insert(s[..|s| - 1], x, key);
      assert (r + [s[|s| - 1]])[..|r|] == r;
    }
  }

  lemma {:induction false} SortFirst<T(!new)>(s: seq<T>, wanted: T -> bool, key: T -> real)
    ensures First(Sort(s, key), wanted) == Least(s, wanted, key)
  {
    if |s| > 0 {
      SortFirst(s[..|s| - 1], wanted, key);
      SortOrders(s[..|s| - 1], key, (y: T, z: T) => true);
      InsertFirst(Sort(s[..|s| - 1], key), s[|s| - 1], wanted, key);
    }
  }

  /** The first wanted element of the sorted list is, in the list, the first of the wanted elements
      with the least key; neither has one if nothing is wanted. */
  lemma SortedFirst<T(!new)>(s: seq<T>, wanted: T -> bool, key: T -> real, j: int)
    requires FirstWanted(Sort(s, key), j, wanted)
    ensures exists k :: FirstOfLeast(s, k, wanted, key) && s[k] == Sort(s, key)[j]
  {
    hide Sort, FirstOfLeast, First, Least;
    SortFirst(s, wanted, key);
    LeastIs(s, wanted, key);
    FirstIs(Sort(s, key), wanted);
    var sorted := Sort(s, key);
    assert sorted[j] in sorted;
    var k :| FirstWanted(sorted, k, wanted) && sorted[k] == First(sorted, wanted).value;
    assert k == j by { assert !(k < j) && !(j < k); }
  }
}
