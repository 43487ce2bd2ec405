/** Sequences without repetition, and numbers. */
module Sequences {
  ghost predicate Distinct<T>(s: seq<T>) {
    forall i, j | 0 <= i < j < |s| :: s[i] != s[j]
  }

  /** An iteration over a set, in any order. */
  ghost predicate Enumerates<T(!new)>(order: seq<T>, all: set<T>) {
    Distinct(order) && forall x :: x in order <==> x in all
  }

  function Min(a: nat, b: nat): nat { if a <= b then a else b }
}
