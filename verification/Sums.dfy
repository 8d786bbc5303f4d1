/** Sums of an integer weight over the rows of a table, in row order. */
module Sums {

  ghost function Sum<T>(xs: seq<T>, w: T -> int): int
  {
    if xs == [] then 0 else Sum(xs[..|xs| - 1], w) + w(xs[|xs| - 1])
  }

  lemma SumAppend<T>(xs: seq<T>, x: T, w: T -> int)
    ensures Sum(xs + [x], w) == Sum(xs, w) + w(x)
  {
    assert (xs + [x])[..|xs|] == xs;
  }

  /** Replacing one row changes the sum by the difference of its weights. */
  lemma {:induction false} SumUpdate<T>(xs: seq<T>, i: nat, x: T, w: T -> int)
    requires i < |xs|
    ensures Sum(xs[i := x], w) == Sum(xs, w) - w(xs[i]) + w(x)
  {
    var n := |xs| - 1;
    if i == n {
      assert xs[i := x][..n] == xs[..n];
    } else {
      SumUpdate(xs[..n], i, x, w);
      assert xs[i := x][..n] == xs[..n][i := x];
    }
  }

  lemma {:induction false} SumCong<T>(xs: seq<T>, ys: seq<T>, v: T -> int, w: T -> int)
    requires |xs| == |ys| && forall i | 0 <= i < |xs| :: v(xs[i]) == w(ys[i])
    ensures Sum(xs, v) == Sum(ys, w)
  {
    if xs != [] {
      SumCong(xs[..|xs| - 1], ys[..|ys| - 1], v, w);
    }
  }

  lemma {:induction false} SumConcat<T>(xs: seq<T>, ys: seq<T>, w: T -> int)
    ensures Sum(xs + ys, w) == Sum(xs, w) + Sum(ys, w)
  {
    if ys == [] {
      assert xs + ys == xs;
    } else {
      var n := |ys| - 1;
      SumConcat(xs, ys[..n], w);
      assert (xs + ys)[..|xs| + n] == xs + ys[..n];
    }
  }

  lemma SumFront<T>(xs: seq<T>, w: T -> int)
    requires xs != []
    ensures Sum(xs, w) == w(xs[0]) + Sum(xs[1..], w)
  {
    assert xs == [xs[0]] + xs[1..];
    SumConcat([xs[0]], xs[1..], w);
    SumAppend([], xs[0], w);
    assert [] + [xs[0]] == [xs[0]];
  }

  /** Removing row `i` removes exactly its weight. */
  lemma SumRemove<T>(xs: seq<T>, i: nat, w: T -> int)
    requires i < |xs|
    ensures Sum(xs[..i] + xs[i + 1..], w) == Sum(xs, w) - w(xs[i])
  {
    hide Sum;
    SumConcat(xs[..i], xs[i + 1..], w);
    SumConcat(xs[..i], xs[i..], w);
    assert xs == xs[..i] + xs[i..];
    SumFront(xs[i..], w);
    assert xs[i..][1..] == xs[i + 1..];
  }

  /** Without its `j`-th element a duplicate-free list is still duplicate-free and has all its other elements. */
  lemma WithoutOne<T>(ys: seq<T>, j: nat)
    requires j < |ys| && forall i, k | 0 <= i < k < |ys| :: ys[i] != ys[k]
    ensures var rest := ys[..j] + ys[j + 1..];
      && (forall i, k | 0 <= i < k < |rest| :: rest[i] != rest[k])
      && (forall y :: y in rest <==> y in ys && y != ys[j])
  {
    var rest := ys[..j] + ys[j + 1..];
    assert forall i | 0 <= i < |rest| :: rest[i] == ys[if i < j then i else i + 1];
    forall y | y in ys && y != ys[j]
      ensures y in rest
    {
      var k :| 0 <= k < |ys| && ys[k] == y;
      assert y == rest[if k < j then k else k - 1];
    }
  }

  /** Two duplicate-free lists of the same elements have the same sum: order is irrelevant. */
  lemma {:induction false} SumSameElements<T>(xs: seq<T>, ys: seq<T>, w: T -> int)
    requires forall i, j | 0 <= i < j < |xs| :: xs[i] != xs[j]
    requires forall i, j | 0 <= i < j < |ys| :: ys[i] != ys[j]
    requires forall x :: x in xs <==> x in ys
    ensures Sum(xs, w) == Sum(ys, w)
    decreases |xs|
  {
    if xs == [] {
      assert forall i | 0 <= i < |ys| :: ys[i] in xs;
    } else {
      var n := |xs| - 1;
      assert xs[n] in ys;
      var j :| 0 <= j < |ys| && ys[j] == xs[n];
      WithoutOne(xs, n);
      WithoutOne(ys, j);
      SumRemove(ys, j, w);
      assert xs[..n] + xs[n + 1..] == xs[..n];
      SumSameElements(xs[..n], ys[..j] + ys[j + 1..], w);
    }
  }
}
