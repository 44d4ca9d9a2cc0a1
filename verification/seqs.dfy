/** Generic sequence operations the pages and routes share. */
module Sequences {
  /** Array.prototype.filter: the elements satisfying `keep`, in their original order. */
  function Filter<T(!new)>(xs: seq<T>, keep: T -> bool): (r: seq<T>)
    ensures |r| <= |xs|
    ensures forall x :: x in r <==> x in xs && keep(x)
  {
    if xs == [] then []
    else (if keep(xs[0]) then [xs[0]] else []) + Filter(xs[1..], keep)
  }

  /** The filter keeps order: a kept element listed before another stays before it. */
  lemma {:induction false} FilterKeepsOrder<T(!new)>(xs: seq<T>, keep: T -> bool, i: nat, j: nat)
    requires i < j < |xs| && keep(xs[i]) && keep(xs[j])
    ensures exists a, b ::
      (0 <= a < b < |Filter(xs, keep)| && Filter(xs, keep)[a] == xs[i] && Filter(xs, keep)[b] == xs[j])
  {
    var r := Filter(xs, keep);
    var rest := Filter(xs[1..], keep);
    var head := if keep(xs[0]) then [xs[0]] else [];
    assert r == head + rest;
    if i == 0 {
      assert xs[j] == xs[1..][j - 1];
      assert xs[j] in rest;
      var b :| 0 <= b < |rest| && rest[b] == xs[j];
      assert r[0] == xs[0] && r[b + 1] == xs[j];
    } else {
      FilterKeepsOrder(xs[1..], keep, i - 1, j - 1);
      var a, b :| 0 <= a < b < |rest| && rest[a] == xs[i] && rest[b] == xs[j];
      assert r[a + |head|] == xs[i] && r[b + |head|] == xs[j];
    }
  }

  /** Filtering distributes over concatenation. */
  lemma {:induction false} FilterConcat<T(!new)>(xs: seq<T>, ys: seq<T>, keep: T -> bool)
    ensures Filter(xs + ys, keep) == Filter(xs, keep) + Filter(ys, keep)
  {
    if xs == [] {
      assert xs + ys == ys;
    } else {
      assert (xs + ys)[1..] == xs[1..] + ys;
      FilterConcat(xs[1..], ys, keep);
    }
  }

  /** A filter that keeps every element changes nothing. */
  lemma {:induction false} FilterKeepsAll<T(!new)>(xs: seq<T>, keep: T -> bool)
    requires forall i :: 0 <= i < |xs| ==> keep(xs[i])
    ensures Filter(xs, keep) == xs
  {
    if xs != [] {
      FilterKeepsAll(xs[1..], keep);
    }
  }

  /** Filtering twice with the same test is filtering once. */
  lemma {:induction false} FilterIdempotent<T(!new)>(xs: seq<T>, keep: T -> bool)
    ensures Filter(Filter(xs, keep), keep) == Filter(xs, keep)
  {
    var r := Filter(xs, keep);
    forall i | 0 <= i < |r| ensures keep(r[i]) {
      assert r[i] in r;
    }
    FilterKeepsAll(r, keep);
  }
}
