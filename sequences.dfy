/** Order-preserving selection from a list, as the pipeline's loops and comprehensions build it. */
module Sequences {

  /** `ys` is `xs` with some elements left out, the others kept in their order. */
  predicate Subsequence<T(==)>(ys: seq<T>, xs: seq<T>)
    decreases |xs|
  {
    if ys == [] then true
    else if xs == [] then false
    else
      (ys[|ys| - 1] == xs[|xs| - 1] && Subsequence(ys[..|ys| - 1], xs[..|xs| - 1]))
      || Subsequence(ys, xs[..|xs| - 1])
  }

  /** How many flags are set. */
  function CountTrue(flags: seq<bool>): (n: nat)
    ensures n <= |flags|
    ensures n == |flags| <==> forall k :: 0 <= k < |flags| ==> flags[k]
  {
    if flags == [] then 0
    else CountTrue(flags[..|flags| - 1]) + (if flags[|flags| - 1] then 1 else 0)
  }

  /**
   * The elements of `xs` whose flag is set, in their order: the list a loop
   * builds by appending each element it keeps.
   */
  function Select<T(==)>(xs: seq<T>, keep: seq<bool>): (r: seq<T>)
    requires |keep| == |xs|
    ensures |r| == CountTrue(keep)
    ensures Subsequence(r, xs)
    ensures forall y :: y in r ==> exists k :: 0 <= k < |xs| && keep[k] && xs[k] == y
    ensures forall k :: 0 <= k < |xs| && keep[k] ==> xs[k] in r
  {
    if xs == [] then []
    else
      var n := |xs| - 1;
      var prev := Select(xs[..n], keep[..n]);
      var r := prev + (if keep[n] then [xs[n]] else []);
      assert xs == xs[..n] + [xs[n]];
      SubsequenceSnoc(prev, xs[..n], xs[n], keep[n]);
      SelectedSnoc(xs, keep, prev, r);
      r
  }

  /** Appending an element to the list, and possibly to its subsequence, keeps it a subsequence. */
  lemma SubsequenceSnoc<T>(ys: seq<T>, xs: seq<T>, x: T, kept: bool)
    requires Subsequence(ys, xs)
    ensures Subsequence(ys + (if kept then [x] else []), xs + [x])
  {
    var ys' := ys + (if kept then [x] else []);
    assert (xs + [x])[..|xs|] == xs;
    if kept {
      assert ys'[..|ys'| - 1] == ys;
    } else if ys != [] {
      assert ys' == ys;
    }
  }

  /** The membership facts of a selection carry over to one more element. */
  lemma SelectedSnoc<T>(xs: seq<T>, keep: seq<bool>, prev: seq<T>, r: seq<T>)
    requires |keep| == |xs| > 0
    requires var n := |xs| - 1;
      && (forall y :: y in prev ==> exists k :: 0 <= k < n && keep[..n][k] && xs[..n][k] == y)
      && (forall k :: 0 <= k < n && keep[..n][k] ==> xs[..n][k] in prev)
      && r == prev + (if keep[n] then [xs[n]] else [])
    ensures forall y :: y in r ==> exists k :: 0 <= k < |xs| && keep[k] && xs[k] == y
    ensures forall k :: 0 <= k < |xs| && keep[k] ==> xs[k] in r
  {
    var n := |xs| - 1;
    forall y | y in r
      ensures exists k :: 0 <= k < |xs| && keep[k] && xs[k] == y
    {
      if y in prev {
        var k :| 0 <= k < n && keep[..n][k] && xs[..n][k] == y;
        assert keep[k] && xs[k] == y;
      } else {
        assert keep[n] && xs[n] == y;
      }
    }
    forall k | 0 <= k < |xs| && keep[k]
      ensures xs[k] in r
    {
      if k < n {
        assert keep[..n][k];
        assert xs[..n][k] in prev;
      }
    }
  }

  /** The position of the first set flag, or the length when none is set. */
  function FirstTrue(flags: seq<bool>): (r: nat)
    ensures r <= |flags|
    ensures forall k :: 0 <= k < r ==> !flags[k]
    ensures r < |flags| ==> flags[r]
  {
    if flags == [] then 0
    else if flags[0] then 0
    else 1 + FirstTrue(flags[1..])
  }

  /** A clear flag at or before the first set flag moves the bound past it. */
  lemma FirstTruePast(flags: seq<bool>, i: nat)
    requires i < |flags| && !flags[i]
    requires i <= FirstTrue(flags)
    ensures i + 1 <= FirstTrue(flags)
  {
  }

  /** A set flag at or before the first set flag is the first set flag. */
  lemma FirstTrueAt(flags: seq<bool>, i: nat)
    requires i < |flags| && flags[i]
    requires i <= FirstTrue(flags)
    ensures FirstTrue(flags) == i
  {
  }

  /** A non-empty list is its first element followed by the rest. */
  lemma SplitFirst<T>(xs: seq<T>)
    requires xs != []
    ensures xs == [xs[0]] + xs[1..]
  {
  }

  /** A non-empty list is its front followed by its last element. */
  lemma SplitLast<T>(xs: seq<T>)
    requires xs != []
    ensures xs == xs[..|xs| - 1] + [xs[|xs| - 1]]
  {
  }

  /** Extending the flags by one keeps the selection of the prefix and appends at most one element. */
  lemma SelectSnoc<T>(xs: seq<T>, keep: seq<bool>, i: nat)
    requires |keep| == |xs| && i < |xs|
    ensures Select(xs[..i + 1], keep[..i + 1])
         == Select(xs[..i], keep[..i]) + (if keep[i] then [xs[i]] else [])
  {
    assert xs[..i + 1][..i] == xs[..i];
    assert keep[..i + 1][..i] == keep[..i];
  }

  /** No element is selected twice, and each element's presence is decided by its own flag. */
  lemma SelectMember<T>(xs: seq<T>, keep: seq<bool>, k: nat)
    requires |keep| == |xs| && k < |xs|
    requires forall i, j :: 0 <= i < j < |xs| ==> xs[i] != xs[j]
    ensures xs[k] in Select(xs, keep) <==> keep[k]
  {
    if xs[k] in Select(xs, keep) {
      var j :| 0 <= j < |xs| && keep[j] && xs[j] == xs[k];
      assert j == k;
    }
  }

  /** Flags set at disjoint positions count separately: the count of their union is the sum. */
  lemma {:induction false} CountTrueOfUnion(a: seq<bool>, b: seq<bool>, c: seq<bool>)
    requires |a| == |b| == |c|
    requires forall k :: 0 <= k < |c| ==> (c[k] <==> a[k] || b[k]) && !(a[k] && b[k])
    ensures CountTrue(c) == CountTrue(a) + CountTrue(b)
    decreases |c|
  {
    if c != [] {
      var n := |c| - 1;
      CountTrueOfUnion(a[..n], b[..n], c[..n]);
    }
  }

  /**
   * Three pairwise disjoint flag lists count at most one per position, and
   * exactly one per position when every position is flagged in one of them.
   */
  lemma {:induction false} CountTrueOfThree(a: seq<bool>, b: seq<bool>, c: seq<bool>)
    requires |a| == |b| == |c|
    requires forall k :: 0 <= k < |a| ==> !(a[k] && b[k]) && !(a[k] && c[k]) && !(b[k] && c[k])
    ensures CountTrue(a) + CountTrue(b) + CountTrue(c) <= |a|
    ensures CountTrue(a) + CountTrue(b) + CountTrue(c) == |a|
        <==> forall k :: 0 <= k < |a| ==> a[k] || b[k] || c[k]
    decreases |a|
  {
    if a != [] {
      var n := |a| - 1;
      var a', b', c' := a[..n], b[..n], c[..n];
      CountTrueOfThree(a', b', c');
      var last := (if a[n] then 1 else 0) + (if b[n] then 1 else 0) + (if c[n] then 1 else 0);
      assert last <= 1;
      assert CountTrue(a) + CountTrue(b) + CountTrue(c) == CountTrue(a') + CountTrue(b') + CountTrue(c') + last;
      CoveredSnoc(a, b, c);
    }
  }

  /** Every position is flagged exactly when every earlier one is and the last one is. */
  lemma CoveredSnoc(a: seq<bool>, b: seq<bool>, c: seq<bool>)
    requires |a| == |b| == |c| > 0
    ensures var n := |a| - 1;
      (forall k :: 0 <= k < |a| ==> a[k] || b[k] || c[k])
      <==> (forall k :: 0 <= k < n ==> a[..n][k] || b[..n][k] || c[..n][k]) && (a[n] || b[n] || c[n])
  {
    var n := |a| - 1;
    assert forall k :: 0 <= k < n ==> a[..n][k] == a[k] && b[..n][k] == b[k] && c[..n][k] == c[k];
  }
}
