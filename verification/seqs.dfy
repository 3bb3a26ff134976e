/** Order-preserving selection from a sequence, the `filter` the contexts
    use, with the facts the sync counters rest on. */
module Seqs {

  /** `xs.filter(keep)`. */
  function Filter<T>(xs: seq<T>, keep: T -> bool): (r: seq<T>)
    ensures |r| <= |xs|
    ensures forall i :: 0 <= i < |r| ==> keep(r[i])
    decreases |xs|
  {
    if |xs| == 0 then []
    else
      var n := |xs| - 1;
      Filter(xs[..n], keep) + (if keep(xs[n]) then [xs[n]] else [])
  }

  /** Selection distributes over concatenation. */
  lemma {:induction false} FilterAppend<T>(a: seq<T>, b: seq<T>, keep: T -> bool)
    ensures Filter(a + b, keep) == Filter(a, keep) + Filter(b, keep)
    decreases |b|
  {
    if |b| == 0 {
      assert a + b == a;
    } else {
      var n := |b| - 1;
      assert (a + b)[..|a + b| - 1] == a + b[..n];
      assert (a + b)[|a + b| - 1] == b[n];
      FilterAppend(a, b[..n], keep);
    }
  }

  /** One more element of the prefix adds it exactly when it is kept. */
  lemma FilterPrefix<T>(xs: seq<T>, i: int, keep: T -> bool)
    requires 0 <= i < |xs|
    ensures Filter(xs[..i + 1], keep) == Filter(xs[..i], keep) + (if keep(xs[i]) then [xs[i]] else [])
  {
    assert xs[..i + 1][..i] == xs[..i];
  }

  /** What is selected is exactly what is kept. */
  lemma {:induction false} FilterMembers<T>(xs: seq<T>, keep: T -> bool, x: T)
    ensures x in Filter(xs, keep) <==> x in xs && keep(x)
    decreases |xs|
  {
    if |xs| > 0 {
      var n := |xs| - 1;
      FilterMembers(xs[..n], keep, x);
      assert xs == xs[..n] + [xs[n]];
    }
  }

  /** Every element is either kept or dropped: the two selections add up
      to the whole. */
  lemma {:induction false} FilterPartition<T>(xs: seq<T>, keep: T -> bool, drop: T -> bool)
    requires forall x :: drop(x) == !keep(x)
    ensures |Filter(xs, keep)| + |Filter(xs, drop)| == |xs|
    decreases |xs|
  {
    if |xs| > 0 {
      FilterPartition(xs[..|xs| - 1], keep, drop);
    }
  }

  /** Nothing is selected exactly when nothing is kept. */
  lemma {:induction false} FilterEmpty<T>(xs: seq<T>, keep: T -> bool)
    ensures Filter(xs, keep) == [] <==> forall i :: 0 <= i < |xs| ==> !keep(xs[i])
    decreases |xs|
  {
    if |xs| > 0 {
      var n := |xs| - 1;
      FilterEmpty(xs[..n], keep);
      assert forall i :: 0 <= i < n ==> xs[..n][i] == xs[i];
    }
  }

  /** Selection keeps the relative order: each kept element sits after the
      kept elements that precede it. */
  lemma {:induction false} FilterGrows<T>(xs: seq<T>, i: int, j: int, keep: T -> bool)
    requires 0 <= i < j <= |xs| && keep(xs[i])
    ensures |Filter(xs[..i], keep)| < |Filter(xs[..j], keep)|
    decreases j - i
  {
    FilterPrefix(xs, i, keep);
    if j > i + 1 {
      FilterPrefix(xs, j - 1, keep);
      if i + 1 < j - 1 {
        FilterMonotone(xs, i + 1, j - 1, keep);
      }
    }
  }

  lemma {:induction false} FilterMonotone<T>(xs: seq<T>, i: int, j: int, keep: T -> bool)
    requires 0 <= i <= j <= |xs|
    ensures |Filter(xs[..i], keep)| <= |Filter(xs[..j], keep)|
    decreases j - i
  {
    if i < j {
      FilterPrefix(xs, j - 1, keep);
      FilterMonotone(xs, i, j - 1, keep);
    }
  }
}
