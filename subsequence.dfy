/**
 * Order-preserving selection from a sequence. The definition peels elements
 * off the end, the same direction in which a pass over jobs grows its lists.
 */
module Subsequences {

  /** `xs` is `ys` with some elements dropped and the rest kept in order. */
  predicate Subsequence<T(==)>(xs: seq<T>, ys: seq<T>)
    decreases |ys|
  {
    if xs == [] then true
    else if ys == [] then false
    else
      (xs[|xs| - 1] == ys[|ys| - 1] && Subsequence(xs[..|xs| - 1], ys[..|ys| - 1]))
      || Subsequence(xs, ys[..|ys| - 1])
  }

  /** Appending to the longer sequence, or to both, keeps the relation. */
  lemma SubsequenceExtend<T>(xs: seq<T>, ys: seq<T>, y: T)
    requires Subsequence(xs, ys)
    ensures Subsequence(xs, ys + [y])
    ensures Subsequence(xs + [y], ys + [y])
  {
    assert (ys + [y])[..|ys|] == ys;
    assert (xs + [y])[..|xs|] == xs;
  }

  lemma {:induction false} SubsequenceReflexive<T>(xs: seq<T>)
    ensures Subsequence(xs, xs)
  {
    if xs != [] {
      SubsequenceReflexive(xs[..|xs| - 1]);
    }
  }

  /** Every element of a subsequence is an element of the whole. */
  lemma {:induction false} SubsequenceMembers<T>(xs: seq<T>, ys: seq<T>)
    requires Subsequence(xs, ys)
    ensures forall x :: x in xs ==> x in ys
  {
    if xs != [] && ys != [] {
      var xi, yi := xs[..|xs| - 1], ys[..|ys| - 1];
      assert ys == yi + [ys[|ys| - 1]];
      if xs[|xs| - 1] == ys[|ys| - 1] && Subsequence(xi, yi) {
        SubsequenceMembers(xi, yi);
        assert xs == xi + [xs[|xs| - 1]];
      } else {
        SubsequenceMembers(xs, yi);
      }
    }
  }

  /** A subsequence of a subsequence is a subsequence. */
  lemma {:induction false} SubsequenceTransitive<T>(xs: seq<T>, ys: seq<T>, zs: seq<T>)
    requires Subsequence(xs, ys) && Subsequence(ys, zs)
    ensures Subsequence(xs, zs)
    decreases |zs|
  {
    if xs != [] {
      var xi, yi, zi := xs[..|xs| - 1], ys[..|ys| - 1], zs[..|zs| - 1];
      var zl := zs[|zs| - 1];
      if ys[|ys| - 1] == zl && Subsequence(yi, zi) {
        if xs[|xs| - 1] == ys[|ys| - 1] && Subsequence(xi, yi) {
          SubsequenceTransitive(xi, yi, zi);
        } else {
          SubsequenceTransitive(xs, yi, zi);
        }
      } else {
        SubsequenceTransitive(xs, ys, zi);
      }
    }
  }
}
