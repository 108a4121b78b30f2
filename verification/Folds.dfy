/** Walking over a collection with an effect at every element: when effects at different elements
    commute, the order of the walk does not matter. */
module Folds {
  predicate Distinct<X(==)>(xs: seq<X>) {
    forall i, j :: 0 <= i < j < |xs| ==> xs[i] != xs[j]
  }

  function Fold<S, X>(f: (S, X) -> S, s: S, xs: seq<X>): S {
    if xs == [] then s else f(Fold(f, s, xs[..|xs| - 1]), xs[|xs| - 1])
  }

  /** `good` is kept, and from a good state steps for different elements commute. */
  ghost predicate Commutes<S(!new), X(!new)>(f: (S, X) -> S, good: S -> bool) {
    && (forall s, x :: good(s) ==> good(f(s, x)))
    && (forall s, x, y :: good(s) && x != y ==> f(f(s, x), y) == f(f(s, y), x))
  }

  lemma {:induction false} FoldGood<S(!new), X(!new)>(f: (S, X) -> S, good: S -> bool, s: S, xs: seq<X>)
    requires Commutes(f, good) && good(s)
    ensures good(Fold(f, s, xs))
  {
    if xs != [] {
      FoldGood(f, good, s, xs[..|xs| - 1]);
    }
  }

  lemma FoldLast<S, X>(f: (S, X) -> S, s: S, xs: seq<X>, x: X)
    ensures Fold(f, s, xs + [x]) == f(Fold(f, s, xs), x)
  {
    assert (xs + [x])[..|xs|] == xs;
  }

  /** An element may be taken last instead of where it stands. */
  lemma {:induction false} TakeLast<S(!new), X(!new)>(f: (S, X) -> S, good: S -> bool, s: S, head: seq<X>, x: X, tail: seq<X>)
    requires Commutes(f, good) && good(s) && x !in tail
    ensures Fold(f, s, head + [x] + tail) == Fold(f, s, head + tail + [x])
    decreases |tail|
  {
    if tail == [] {
      assert head + [x] + tail == head + tail + [x];
    } else {
      var t, y := tail[..|tail| - 1], tail[|tail| - 1];
      TakeLast(f, good, s, head, x, t);
      assert head + [x] + tail == head + [x] + t + [y];
      assert head + tail == head + t + [y];
      FoldLast(f, s, head + [x] + t, y);
      FoldLast(f, s, head + t, x);
      FoldLast(f, s, head + t, y);
      FoldLast(f, s, head + tail, x);
      FoldGood(f, good, s, head + t);
    }
  }

  lemma SplitAt<X>(xs: seq<X>, x: X) returns (head: seq<X>, tail: seq<X>)
    requires x in xs
    ensures xs == head + [x] + tail
  {
    var i :| 0 <= i < |xs| && xs[i] == x;
    head, tail := xs[..i], xs[i + 1..];
  }

  /** Every walk over the same elements ends in the same state. */
  lemma {:induction false} OrderIrrelevant<S(!new), X(!new)>(f: (S, X) -> S, good: S -> bool, s: S, one: seq<X>, two: seq<X>)
    requires Commutes(f, good) && good(s)
    requires Distinct(one) && Distinct(two) && |one| == |two|
    requires forall x :: x in one <==> x in two
    ensures Fold(f, s, one) == Fold(f, s, two)
    decreases |one|
  {
    if one == [] {
    } else {
      var init, x := one[..|one| - 1], one[|one| - 1];
      var head, tail := SplitAt(two, x);
      Without(one, init, two, head, x, tail);
      OrderIrrelevant(f, good, s, init, head + tail);
      TakeLast(f, good, s, head, x, tail);
      FoldLast(f, s, head + tail, x);
    }
  }

  lemma Without<X>(one: seq<X>, init: seq<X>, two: seq<X>, head: seq<X>, last: X, tail: seq<X>)
    requires one == init + [last] && two == head + [last] + tail
    requires Distinct(one) && Distinct(two)
    requires forall x :: x in one <==> x in two
    ensures last !in tail && Distinct(head + tail)
    ensures forall x :: x in init <==> x in head + tail
  {
    DropOne(two, head, last, tail);
    DropOne(one, init, last, []);
    assert init + [] == init;
    forall x ensures x in init <==> x in head + tail {
      assert x in one <==> x in init || x == last;
      assert x in two <==> x in head + tail || x == last;
    }
  }

  lemma DropOne<X>(xs: seq<X>, head: seq<X>, x: X, tail: seq<X>)
    requires xs == head + [x] + tail && Distinct(xs)
    ensures Distinct(head + tail) && x !in head && x !in tail
  {
    var h, rest := |head|, head + tail;
    forall i | 0 <= i < h ensures head[i] != x {
      assert xs[i] != xs[h];
    }
    forall i | 0 <= i < |tail| ensures tail[i] != x {
      assert xs[h] != xs[h + 1 + i];
    }
    forall i, j | 0 <= i < j < |rest| ensures rest[i] != rest[j] {
      assert rest[i] == xs[if i < h then i else i + 1];
      assert rest[j] == xs[if j < h then j else j + 1];
    }
  }

  // ----- Walks seen through a projection -----

  function Keep<X>(xs: seq<X>, keep: X -> bool): seq<X> {
    if xs == [] then []
    else Keep(xs[..|xs| - 1], keep) + if keep(xs[|xs| - 1]) then [xs[|xs| - 1]] else []
  }

  /** When the projection ignores the steps for some elements and follows the others, it follows the
      whole walk with those elements left out. */
  lemma {:induction false} FoldProject<S(!new), X(!new)>(f: (S, X) -> S, good: S -> bool, project: S -> S, keep: X -> bool, s: S, xs: seq<X>)
    requires good(s)
    requires forall s, x :: good(s) ==> good(f(s, x))
    requires forall s, x :: good(s) ==> project(f(s, x)) == if keep(x) then f(project(s), x) else project(s)
    ensures good(Fold(f, s, xs))
    ensures project(Fold(f, s, xs)) == Fold(f, project(s), Keep(xs, keep))
  {
    if xs != [] {
      var init, last := xs[..|xs| - 1], xs[|xs| - 1];
      FoldProject(f, good, project, keep, s, init);
      FoldLast(f, project(s), Keep(init, keep), last);
      assert Keep(init, keep) + [] == Keep(init, keep);
    }
  }
}
