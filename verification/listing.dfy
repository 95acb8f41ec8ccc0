/** What the list views compute from the in-memory collection: an
    order-preserving filter, counts and sums over it, and the leading rows
    shown in a short list. */
module Listing {

  /** a is a subsequence of b: a is b with some elements dropped and the
      rest kept in their original order. */
  predicate Subseq<T(==)>(a: seq<T>, b: seq<T>)
    decreases |b|
  {
    |a| == 0 || (|b| > 0 && ((a[0] == b[0] && Subseq(a[1..], b[1..])) || Subseq(a, b[1..])))
  }

  /** `xs.filter(keep)`. */
  function Filter<T(==)>(xs: seq<T>, keep: T -> bool): (r: seq<T>)
    ensures Subseq(r, xs)
    ensures |r| == CountWhere(xs, keep)
    ensures |r| <= |xs|
    ensures forall i :: 0 <= i < |r| ==> keep(r[i])
    ensures forall x :: x in r ==> x in xs && keep(x)
    ensures forall x :: x in xs && keep(x) ==> x in r
    ensures (forall i :: 0 <= i < |xs| ==> keep(xs[i])) ==> r == xs
  {
    if |xs| == 0 then []
    else if keep(xs[0]) then [xs[0]] + Filter(xs[1..], keep)
    else Filter(xs[1..], keep)
  }

  /** A filter that keeps nothing is empty. */
  lemma {:induction false} FilterNone<T>(xs: seq<T>, keep: T -> bool)
    requires forall k :: 0 <= k < |xs| ==> !keep(xs[k])
    ensures Filter(xs, keep) == []
  {
    if |xs| > 0 {
      assert forall k :: 0 <= k < |xs[1..]| ==> xs[1..][k] == xs[k + 1];
      FilterNone(xs[1..], keep);
    }
  }

  /** A filter that keeps only position i is that one element. */
  lemma {:induction false} FilterOnlyOne<T>(xs: seq<T>, keep: T -> bool, i: nat)
    requires i < |xs| && keep(xs[i])
    requires forall k :: 0 <= k < |xs| && k != i ==> !keep(xs[k])
    ensures Filter(xs, keep) == [xs[i]]
  {
    assert forall k :: 0 <= k < |xs[1..]| ==> xs[1..][k] == xs[k + 1];
    if i == 0 {
      FilterNone(xs[1..], keep);
    } else {
      FilterOnlyOne(xs[1..], keep, i - 1);
    }
  }

  /** A filter that keeps only positions i < j is those two elements, in
      that order. */
  lemma {:induction false} FilterOnlyTwo<T>(xs: seq<T>, keep: T -> bool, i: nat, j: nat)
    requires i < j < |xs| && keep(xs[i]) && keep(xs[j])
    requires forall k :: 0 <= k < |xs| && k != i && k != j ==> !keep(xs[k])
    ensures Filter(xs, keep) == [xs[i], xs[j]]
  {
    assert forall k :: 0 <= k < |xs[1..]| ==> xs[1..][k] == xs[k + 1];
    if i == 0 {
      FilterOnlyOne(xs[1..], keep, j - 1);
    } else {
      FilterOnlyTwo(xs[1..], keep, i - 1, j - 1);
    }
  }

  /** Every sequence is a subsequence of itself. */
  lemma {:induction false} SubseqReflexive<T>(xs: seq<T>)
    ensures Subseq(xs, xs)
  {
    if |xs| > 0 {
      SubseqReflexive(xs[1..]);
    }
  }

  /** The number of elements satisfying a predicate: `xs.filter(p).length`. */
  function CountWhere<T>(xs: seq<T>, p: T -> bool): (n: nat)
    ensures n <= |xs|
  {
    if |xs| == 0 then 0 else (if p(xs[0]) then 1 else 0) + CountWhere(xs[1..], p)
  }

  /** Counting the matches is the length of the filtered list. */
  lemma {:induction false} CountIsFilterLength<T>(xs: seq<T>, p: T -> bool)
    ensures CountWhere(xs, p) == |Filter(xs, p)|
  {
    if |xs| > 0 {
      CountIsFilterLength(xs[1..], p);
    }
  }

  /** Two predicates that never hold together count at most every element. */
  lemma {:induction false} DisjointCounts<T>(xs: seq<T>, p: T -> bool, q: T -> bool)
    requires forall x :: !(p(x) && q(x))
    ensures CountWhere(xs, p) + CountWhere(xs, q) <= |xs|
  {
    if |xs| > 0 {
      DisjointCounts(xs[1..], p, q);
    }
  }

  /** `xs.reduce((sum, x) => sum + f(x), 0)`. */
  function SumOf<T>(xs: seq<T>, f: T -> int): int {
    if |xs| == 0 then 0 else f(xs[0]) + SumOf(xs[1..], f)
  }

  /** A sum over a concatenation is the sum of the two sums. */
  lemma {:induction false} SumOfAppend<T>(a: seq<T>, b: seq<T>, f: T -> int)
    ensures SumOf(a + b, f) == SumOf(a, f) + SumOf(b, f)
  {
    if |a| > 0 {
      assert (a + b)[1..] == a[1..] + b;
      SumOfAppend(a[1..], b, f);
    } else {
      assert a + b == b;
    }
  }

  /** A sum of non-negative terms is non-negative and bounds every term. */
  lemma {:induction false} SumOfNonNegative<T>(xs: seq<T>, f: T -> int)
    requires forall i :: 0 <= i < |xs| ==> f(xs[i]) >= 0
    ensures SumOf(xs, f) >= 0
    ensures forall i :: 0 <= i < |xs| ==> f(xs[i]) <= SumOf(xs, f)
  {
    if |xs| > 0 {
      SumOfNonNegative(xs[1..], f);
      assert forall i :: 1 <= i < |xs| ==> xs[i] == xs[1..][i - 1];
    }
  }

  /** `xs.slice(0, n)`: the first n elements, or all of them. */
  function Take<T>(xs: seq<T>, n: nat): (r: seq<T>)
    ensures |r| == if |xs| < n then |xs| else n
    ensures forall i :: 0 <= i < |r| ==> r[i] == xs[i]
  {
    if |xs| <= n then xs else xs[..n]
  }
}
