/** Shared result types and a few facts about sequences and sets. */
module Wrappers {
  datatype Option<+T> = None | Some(value: T)

  /** `xs` lists the elements of `s` once each, in some order: Python's `list(set)`. */
  ghost predicate Lists<T(!new)>(xs: seq<T>, s: set<T>) {
    && (forall x :: x in xs <==> x in s)
    && (forall i, j | 0 <= i < j < |xs| :: xs[i] != xs[j])
  }

  lemma ListsNext<T(!new)>(xs: seq<T>, s: set<T>, i: nat)
    requires Lists(xs, s) && i < |xs|
    ensures xs[i] in s && xs[i] !in xs[..i]
    ensures forall x :: x in xs[..i + 1] <==> x in xs[..i] || x == xs[i]
  {
    assert xs[..i + 1] == xs[..i] + [xs[i]];
    assert xs[i] in xs;
  }

  method SetToSeq<T(==,!new)>(s: set<T>) returns (xs: seq<T>)
    ensures Lists(xs, s)
  {
    xs := [];
    var rest := s;
    while rest != {}
      invariant rest <= s
      invariant Lists(xs, s - rest)
      decreases |rest|
    {
      var x :| x in rest;
      rest := rest - {x};
      xs := xs + [x];
    }
  }
}
