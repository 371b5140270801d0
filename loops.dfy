/**
 * The protocol by which every range of the library is consumed, a range-based
 * for loop: take begin() and end(); while the cursor is not equal to end(), use
 * `*it` and apply prefix `++`. The cursor's `++`, `==` and `*` are parameters.
 */
module Loops {

  /** The cursor after `k` applications of prefix `++` to `s`. */
  function Iterate<S>(next: S -> S, s: S, k: nat): S
    decreases k
  {
    if k == 0 then s else next(Iterate(next, s, k - 1))
  }

  /** The loop from `b` to `e` runs exactly `n` iterations: no earlier cursor equals `e`, the `n`-th does. */
  ghost predicate StopsAfter<S>(next: S -> S, eq: (S, S) -> bool, b: S, e: S, n: nat) {
    && (forall k :: 0 <= k < n ==> !eq(Iterate(next, b, k), e))
    && eq(Iterate(next, b, n), e)
  }

  /** The loop from `b` to `e` never stops: no cursor reached from `b` equals `e`. */
  ghost predicate NeverStops<S>(next: S -> S, eq: (S, S) -> bool, b: S, e: S) {
    forall k: nat :: !eq(Iterate(next, b, k), e)
  }

  /** What the loop body sees through `*it` in its first `n` iterations. */
  function Visit<S, V>(next: S -> S, deref: S -> V, b: S, n: nat): (s: seq<V>)
    ensures |s| == n
    ensures forall i :: 0 <= i < n ==> s[i] == deref(Iterate(next, b, i))
    decreases n
  {
    if n == 0 then [] else Visit(next, deref, b, n - 1) + [deref(Iterate(next, b, n - 1))]
  }
}
