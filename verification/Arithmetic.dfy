/**
 Numbers the controllers and the benchmark share: caps, sums, counts, repeated addition and the
 signs of products.
 */
module Arithmetic {
  function Lesser(a: real, b: real): real { if a < b then a else b }

  function Greater(a: real, b: real): real { if a > b then a else b }

  /** x, not above high, and then not below low. */
  function Cap(low: real, high: real, x: real): real { Greater(Lesser(x, high), low) }

  function Sum(s: seq<int>): int { if s == [] then 0 else s[0] + Sum(s[1..]) }

  function CountAtLeast(s: seq<int>, target: int): nat {
    if s == [] then 0 else (if s[0] >= target then 1 else 0) + CountAtLeast(s[1..], target)
  }

  lemma {:induction false} SumBounds(s: seq<int>, low: int, high: int)
    requires forall x :: x in s ==> low <= x <= high
    ensures |s| * low <= Sum(s) <= |s| * high
  {
    if s != [] {
      assert s[0] in s && forall x :: x in s[1..] ==> x in s;
      SumBounds(s[1..], low, high);
      OneMore(|s| - 1, low);
      OneMore(|s| - 1, high);
    }
  }

  lemma OneMore(n: int, x: int)
    ensures (n + 1) * x == n * x + x
  {
  }

  lemma {:induction false} CountBounds(s: seq<int>, target: int)
    ensures CountAtLeast(s, target) <= |s|
    ensures CountAtLeast(s, target) == |s| <==> forall x :: x in s ==> x >= target
  {
    if s != [] {
      CountBounds(s[1..], target);
      assert (forall x :: x in s ==> x >= target) <==> s[0] >= target && forall x :: x in s[1..] ==> x >= target by {
        assert s[0] in s && forall x :: x in s <==> x == s[0] || x in s[1..];
      }
    }
  }

  /** n times x, by repeated addition. */
  function Times(n: nat, x: real): real { if n == 0 then 0.0 else Times(n - 1, x) + x }

  lemma {:induction false} TimesMultiplies(n: nat, x: real)
    ensures Times(n, x) == n as real * x
  {
    if n > 0 {
      TimesMultiplies(n - 1, x);
      assert n as real * x == (n - 1) as real * x + x;
    }
  }

  lemma Positive(x: real, y: real)
    requires x > 0.0 && y > 0.0
    ensures x * y > 0.0
  {
  }

  lemma NotNegative(x: real, y: real)
    requires x >= 0.0 && y >= 0.0
    ensures x * y >= 0.0
  {
  }

  /** A factor has the sign of its product with something positive. */
  lemma SignOfFactor(x: real, y: real)
    requires y > 0.0
    ensures x * y >= 0.0 ==> x >= 0.0
    ensures x * y > 0.0 ==> x > 0.0
  {
    if x < 0.0 { Positive(-x, y); assert (-x) * y == -(x * y); }
  }
}
