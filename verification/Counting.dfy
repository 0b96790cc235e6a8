/** Counting events of a run: how many there were, and how many starts no end has followed for. */
module Counting {

  /** How many starts no end has followed for, an end with none outstanding counting for nothing. */
  function Outstanding<E>(events: seq<E>, n: nat, starts: E -> bool, ends: E -> bool): nat
    requires n <= |events|
  {
    if n == 0 then 0
    else
      var before := Outstanding(events, n - 1, starts, ends);
      if starts(events[n - 1]) then before + 1
      else if ends(events[n - 1]) && before > 0 then before - 1
      else before
  }

  function HowMany<E>(events: seq<E>, n: nat, what: E -> bool): nat
    requires n <= |events|
  {
    if n == 0 then 0 else HowMany(events, n - 1, what) + if what(events[n - 1]) then 1 else 0
  }

  /** Where every end follows a start of its own, it is the starts less the ends. */
  lemma {:induction false} OutstandingIs<E(!new)>(events: seq<E>, n: nat, starts: E -> bool, ends: E -> bool)
    requires n <= |events| && forall e: E :: !(starts(e) && ends(e))
    requires forall k | 0 <= k < n && ends(events[k]) :: Outstanding(events, k, starts, ends) > 0
    ensures Outstanding(events, n, starts, ends) + HowMany(events, n, ends) == HowMany(events, n, starts)
  {
    if n > 0 {
      OutstandingIs(events, n - 1, starts, ends);
    }
  }
}
