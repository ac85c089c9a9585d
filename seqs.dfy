/** Order-preserving filtering of sequences, shared by the two indexes and the completion code. */
module Seqs {
  /** The elements of `xs` that `keep` accepts, in their original order. */
  function Filter<T>(xs: seq<T>, keep: T -> bool): (r: seq<T>)
    ensures |r| <= |xs|
    decreases |xs|
  {
    if xs == [] then []
    else Filter(xs[..|xs| - 1], keep) + (if keep(xs[|xs| - 1]) then [xs[|xs| - 1]] else [])
  }

  /** Filtering a concatenation filters each part, so the relative order of kept elements is
      the order of the input. */
  lemma {:induction false} FilterAppend<T>(a: seq<T>, b: seq<T>, keep: T -> bool)
    ensures Filter(a + b, keep) == Filter(a, keep) + Filter(b, keep)
    decreases |b|
  {
    if b != [] {
      var b' := b[..|b| - 1];
      assert (a + b)[..|a + b| - 1] == a + b';
      assert (a + b)[|a + b| - 1] == b[|b| - 1];
      FilterAppend(a, b', keep);
    } else {
      assert a + b == a;
    }
  }

  /** Only accepted elements of the input are kept. */
  lemma {:induction false} FilterSound<T>(xs: seq<T>, keep: T -> bool)
    ensures forall x :: x in Filter(xs, keep) ==> x in xs && keep(x)
    decreases |xs|
  {
    if xs != [] {
      var init := xs[..|xs| - 1];
      FilterSound(init, keep);
      assert xs == init + [xs[|xs| - 1]];
    }
  }

  /** Every accepted element of the input is kept. */
  lemma {:induction false} FilterComplete<T>(xs: seq<T>, keep: T -> bool)
    ensures forall x :: x in xs && keep(x) ==> x in Filter(xs, keep)
    decreases |xs|
  {
    if xs != [] {
      var init := xs[..|xs| - 1];
      FilterComplete(init, keep);
      assert xs == init + [xs[|xs| - 1]];
    }
  }

  /** Filtering keeps everything exactly when every element is accepted. */
  lemma {:induction false} FilterAll<T>(xs: seq<T>, keep: T -> bool)
    ensures Filter(xs, keep) == xs <==> forall i :: 0 <= i < |xs| ==> keep(xs[i])
    decreases |xs|
  {
    if xs != [] {
      var init := xs[..|xs| - 1];
      FilterAll(init, keep);
      assert xs == init + [xs[|xs| - 1]];
      if Filter(xs, keep) == xs {
        assert |Filter(init, keep)| <= |init|;
        assert keep(xs[|xs| - 1]);
        assert Filter(init, keep) == init;
      }
    }
  }

  /** `f` applied to every element, in order. */
  function Map<T, R>(xs: seq<T>, f: T -> R): (r: seq<R>)
    ensures |r| == |xs|
    ensures forall i :: 0 <= i < |xs| ==> r[i] == f(xs[i])
  {
    seq(|xs|, i requires 0 <= i < |xs| => f(xs[i]))
  }

  /** A value is in the image of the kept elements exactly when some kept element maps to it. */
  lemma MapFilterMembers<T, R>(xs: seq<T>, keep: T -> bool, f: T -> R, r: R)
    ensures r in Map(Filter(xs, keep), f) <==> exists x :: x in xs && keep(x) && f(x) == r
  {
    var kept := Filter(xs, keep);
    FilterSound(xs, keep);
    FilterComplete(xs, keep);
    if r in Map(kept, f) {
      var i :| 0 <= i < |kept| && Map(kept, f)[i] == r;
      assert kept[i] in kept;
    }
    if exists x :: x in xs && keep(x) && f(x) == r {
      var x :| x in xs && keep(x) && f(x) == r;
      var i :| 0 <= i < |kept| && kept[i] == x;
      assert Map(kept, f)[i] == r;
    }
  }

  /** Nothing is kept exactly when nothing is accepted. */
  lemma FilterEmpty<T>(xs: seq<T>, keep: T -> bool)
    ensures Filter(xs, keep) == [] <==> forall x :: x in xs ==> !keep(x)
  {
    FilterSound(xs, keep);
    FilterComplete(xs, keep);
    var kept := Filter(xs, keep);
    if kept != [] {
      assert kept[0] in kept;
    }
  }
}
