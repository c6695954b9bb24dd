/** Runs of any deterministic machine: what a sequence of events leads to, and what holds at each of them. */
module Histories {

  function Fold<S, E>(step: (S, E) -> S, s: S, events: seq<E>): S {
    if events == [] then s
    else step(Fold(step, s, events[..|events| - 1]), events[|events| - 1])
  }

  /** Every event is allowed in the state in which it happens. */
  predicate Throughout<S, E>(step: (S, E) -> S, allowed: (S, E) -> bool, s: S, events: seq<E>) {
    events != [] ==>
      var n := |events| - 1;
      Throughout(step, allowed, s, events[..n]) && allowed(Fold(step, s, events[..n]), events[n])
  }

  lemma {:induction false} FoldConcat<S, E>(step: (S, E) -> S, s: S, first: seq<E>, second: seq<E>)
    ensures Fold(step, s, first + second) == Fold(step, Fold(step, s, first), second)
    decreases |second|
  {
    if second == [] {
      assert first + second == first;
    } else {
      var n := |second| - 1;
      FoldConcat(step, s, first, second[..n]);
      assert (first + second)[..|first| + n] == first + second[..n];
    }
  }

  lemma {:induction false} ThroughoutConcat<S, E>(step: (S, E) -> S, allowed: (S, E) -> bool, s: S, first: seq<E>, second: seq<E>)
    requires Throughout(step, allowed, s, first) && Throughout(step, allowed, Fold(step, s, first), second)
    ensures Throughout(step, allowed, s, first + second)
    decreases |second|
  {
    if second == [] {
      assert first + second == first;
    } else {
      var n := |second| - 1;
      ThroughoutConcat(step, allowed, s, first, second[..n]);
      FoldConcat(step, s, first, second[..n]);
      assert (first + second)[..|first| + n] == first + second[..n];
    }
  }
}
