/** Runs as sequences of events: what happened last, and what has happened since. */
module History {

  /** Index of the last event before position n for which p holds, or -1. */
  function Last<E>(events: seq<E>, n: nat, p: E -> bool): (k: int)
    requires n <= |events|
    ensures -1 <= k < n
    ensures k >= 0 ==> p(events[k])
    ensures forall i :: k < i < n ==> !p(events[i])
  {
    if n == 0 then -1 else if p(events[n - 1]) then n - 1 else Last(events, n - 1, p)
  }

  /** Before position n there was an event q after the last event p. */
  ghost predicate Since<E>(events: seq<E>, n: nat, p: E -> bool, q: E -> bool)
    requires n <= |events|
  {
    exists j: nat :: Last(events, n, p) < j < n && q(events[j])
  }

  lemma LastStep<E>(events: seq<E>, n: nat, p: E -> bool)
    requires n < |events|
    ensures Last(events, n + 1, p) == if p(events[n]) then n else Last(events, n, p)
  {
  }

  lemma SinceStays<E>(events: seq<E>, n: nat, p: E -> bool, q: E -> bool)
    requires n < |events| && !p(events[n])
    ensures Since(events, n, p, q) || q(events[n]) ==> Since(events, n + 1, p, q)
  {
    LastStep(events, n, p);
    hide Last;
    if Since(events, n, p, q) {
      var j: nat :| Last(events, n, p) < j < n && q(events[j]);
      assert Last(events, n + 1, p) < j < n + 1;
    }
  }

  /** One more event: a p forgets what was before it. */
  lemma SinceStep<E>(events: seq<E>, n: nat, p: E -> bool, q: E -> bool)
    requires n < |events|
    ensures Since(events, n + 1, p, q) <==> !p(events[n]) && (Since(events, n, p, q) || q(events[n]))
  {
    LastStep(events, n, p);
    hide Last;
    if Since(events, n + 1, p, q) {
      var j: nat :| Last(events, n + 1, p) < j < n + 1 && q(events[j]);
    }
    if !p(events[n]) {
      hide Since;
      SinceStays(events, n, p, q);
    }
  }
}
