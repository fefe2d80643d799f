/** Sums over sequences, used to count live workers and to add up what each worker was given. */
module Sums {

  /** The sum of `g` over the elements of `xs`. */
  function SumOf<X>(xs: seq<X>, g: X -> int): int
  {
    if |xs| == 0 then 0 else g(xs[0]) + SumOf(xs[1..], g)
  }

  /** Appending one element adds its weight. */
  lemma {:induction false} SumOfAppend<X>(xs: seq<X>, x: X, g: X -> int)
    ensures SumOf(xs + [x], g) == SumOf(xs, g) + g(x)
  {
    if |xs| == 0 {
      assert xs + [x] == [x];
    } else {
      assert (xs + [x])[1..] == xs[1..] + [x];
      SumOfAppend(xs[1..], x, g);
    }
  }

  /** Replacing one element changes the sum by the difference of the weights. */
  lemma {:induction false} SumOfUpdate<X>(xs: seq<X>, i: nat, x: X, g: X -> int)
    requires i < |xs|
    ensures SumOf(xs[i := x], g) == SumOf(xs, g) - g(xs[i]) + g(x)
  {
    if i == 0 {
      assert xs[i := x][1..] == xs[1..];
    } else {
      assert xs[i := x][1..] == xs[1..][i - 1 := x];
      SumOfUpdate(xs[1..], i - 1, x, g);
    }
  }

  /** With non-negative weights, one element of weight at least one makes the sum at least one. */
  lemma {:induction false} SumOfPositive<X>(xs: seq<X>, i: nat, g: X -> int)
    requires i < |xs|
    requires forall k :: 0 <= k < |xs| ==> g(xs[k]) >= 0
    requires g(xs[i]) >= 1
    ensures SumOf(xs, g) >= 1
  {
    NonNegative(xs[1..], g);
    if i > 0 {
      SumOfPositive(xs[1..], i - 1, g);
    }
  }

  /** With non-negative weights the sum is non-negative. */
  lemma {:induction false} NonNegative<X>(xs: seq<X>, g: X -> int)
    requires forall k :: 0 <= k < |xs| ==> g(xs[k]) >= 0
    ensures SumOf(xs, g) >= 0
  {
    if |xs| > 0 {
      NonNegative(xs[1..], g);
    }
  }

  /** With non-negative weights the sum is zero exactly when every weight is zero. */
  lemma {:induction false} ZeroSum<X>(xs: seq<X>, g: X -> int)
    requires forall k :: 0 <= k < |xs| ==> g(xs[k]) >= 0
    ensures SumOf(xs, g) == 0 <==> forall k :: 0 <= k < |xs| ==> g(xs[k]) == 0
  {
    if |xs| > 0 {
      ZeroSum(xs[1..], g);
      NonNegative(xs[1..], g);
      if SumOf(xs, g) == 0 {
        forall k | 0 <= k < |xs| ensures g(xs[k]) == 0 {
          if k > 0 { assert xs[k] == xs[1..][k - 1]; }
        }
      } else {
        assert g(xs[0]) != 0 || exists k :: 0 <= k < |xs[1..]| && g(xs[1..][k]) != 0;
      }
    }
  }
}
