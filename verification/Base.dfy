/** Small shared vocabulary: optional values, call results, bytes and sums over lists. */
module Base {

  newtype byte = x: int | 0 <= x < 256

  type Bytes = seq<byte>

  datatype Option<+T> = None | Some(value: T)

  datatype Result<+T, +E> = Ok(value: T) | Err(error: E)

  function Sum<T>(xs: seq<T>, f: T -> int): int {
    if xs == [] then 0 else f(xs[0]) + Sum(xs[1..], f)
  }

  lemma {:induction false} SumConcat<T>(xs: seq<T>, ys: seq<T>, f: T -> int)
    ensures Sum(xs + ys, f) == Sum(xs, f) + Sum(ys, f)
  {
    if xs == [] {
      assert xs + ys == ys;
    } else {
      SumConcat(xs[1..], ys, f);
      assert (xs + ys)[1..] == xs[1..] + ys;
    }
  }

  lemma {:induction false} SumUpdate<T>(xs: seq<T>, i: nat, x: T, f: T -> int)
    requires i < |xs|
    ensures Sum(xs[i := x], f) == Sum(xs, f) - f(xs[i]) + f(x)
  {
    if i == 0 {
      assert xs[i := x][1..] == xs[1..];
    } else {
      SumUpdate(xs[1..], i - 1, x, f);
      assert xs[i := x][1..] == xs[1..][i - 1 := x];
    }
  }

  /** A sum of non-negative terms is at least any two distinct terms of it. */
  lemma {:induction false} SumAtLeast<T>(xs: seq<T>, i: nat, j: nat, f: T -> int)
    requires i <= j < |xs|
    requires forall k :: 0 <= k < |xs| ==> f(xs[k]) >= 0
    ensures Sum(xs, f) >= if i == j then f(xs[i]) else f(xs[i]) + f(xs[j])
  {
    if i > 0 {
      SumAtLeast(xs[1..], i - 1, j - 1, f);
    } else if j > 0 {
      SumAtLeast(xs[1..], j - 1, j - 1, f);
    } else if |xs| > 1 {
      SumAtLeast(xs[1..], 0, 0, f);
    }
  }

  /** A sum of non-positive terms is at most any term of it. */
  lemma {:induction false} SumAtMost<T>(xs: seq<T>, i: nat, f: T -> int)
    requires i < |xs|
    requires forall k :: 0 <= k < |xs| ==> f(xs[k]) <= 0
    ensures Sum(xs, f) <= f(xs[i])
  {
    if i > 0 {
      SumAtMost(xs[1..], i - 1, f);
    } else if |xs| > 1 {
      SumAtMost(xs[1..], 0, f);
    }
  }

  lemma {:induction false} SumNonNegative<T>(xs: seq<T>, f: T -> int)
    requires forall k :: 0 <= k < |xs| ==> f(xs[k]) >= 0
    ensures Sum(xs, f) >= 0
  {
    if xs != [] {
      SumAtLeast(xs, 0, 0, f);
    }
  }

  /** A sum is at least the sum of two others if its terms are. */
  lemma {:induction false} SumDominates<T>(xs: seq<T>, f: T -> int, g: T -> int, h: T -> int)
    requires forall k :: 0 <= k < |xs| ==> f(xs[k]) >= g(xs[k]) + h(xs[k])
    ensures Sum(xs, f) >= Sum(xs, g) + Sum(xs, h)
  {
    if xs != [] {
      SumDominates(xs[1..], f, g, h);
    }
  }

  /** A positive sum has a positive term. */
  lemma {:induction false} SumPositive<T>(xs: seq<T>, f: T -> int) returns (i: nat)
    requires Sum(xs, f) > 0
    ensures i < |xs| && f(xs[i]) > 0
  {
    if f(xs[0]) > 0 {
      i := 0;
    } else {
      i := SumPositive(xs[1..], f);
      i := i + 1;
    }
  }

  /** A sum of zero terms is zero. */
  lemma {:induction false} SumZero<T>(xs: seq<T>, f: T -> int)
    requires forall k :: 0 <= k < |xs| ==> f(xs[k]) == 0
    ensures Sum(xs, f) == 0
  {
    if xs != [] {
      SumZero(xs[1..], f);
    }
  }
}
