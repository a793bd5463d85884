/**
 Exact real arithmetic used by the pointer formula: a square-root oracle
 standing in for the Euclidean norm, the facts that let the distance gates be
 decided on integer squared distances, and truncation toward zero (the
 behaviour of Python's `int(...)` on a float).
 */
module Numeric {

  /** `root` is a non-negative square root on the non-negative reals. */
  ghost predicate IsSqrt(root: real -> real) {
    forall x: real :: 0.0 <= x ==> 0.0 <= root(x) && root(x) * root(x) == x
  }

  /** `r` is the non-negative square root of the integer `sq`. */
  ghost predicate RootOf(r: real, sq: int) {
    0.0 <= r && r * r == sq as real
  }

  lemma RootOfOracle(root: real -> real, sq: nat)
    requires IsSqrt(root)
    ensures RootOf(root(sq as real), sq)
  {
  }

  /** Squaring is strictly monotone on the non-negative reals. */
  lemma SquareLess(a: real, b: real)
    requires 0.0 <= a && 0.0 <= b
    ensures a < b <==> a * a < b * b
  {
    assert b * b - a * a == (b - a) * (b + a);
    if a < b {
      assert 0.0 < b - a && 0.0 < b + a;
      MulPositive(b - a, b + a);
    } else {
      assert 0.0 <= a - b && 0.0 <= a + b;
      MulNonNegative(a - b, a + b);
      assert a * a - b * b == (a - b) * (a + b);
    }
  }

  lemma MulPositive(a: real, b: real)
    requires 0.0 < a && 0.0 < b
    ensures 0.0 < a * b
  {
  }

  lemma MulNonNegative(a: real, b: real)
    requires 0.0 <= a && 0.0 <= b
    ensures 0.0 <= a * b
  {
  }

  /**
   A distance compared with a non-negative integer constant `k` can be decided
   on the integer squared distance: `r > k` exactly when `sq > k * k`.
   */
  lemma RootAbove(r: real, sq: int, k: nat)
    requires RootOf(r, sq)
    ensures r > k as real <==> sq > k * k
  {
    var kr := k as real;
    assert (k * k) as real == kr * kr;
    SquareLess(kr, r);
  }

  /** Two non-negative roots of the same square coincide. */
  lemma RootUnique(r: real, k: nat)
    requires RootOf(r, k * k)
    ensures r == k as real
  {
    RootAbove(r, k * k, k);
    var kr := k as real;
    assert (k * k) as real == kr * kr;
    SquareLess(r, kr);
  }

  /** Truncation toward zero, as Python's `int()` does to a float. */
  function Trunc(r: real): (t: int)
    ensures 0.0 <= r ==> 0 <= t && t as real <= r < t as real + 1.0
    ensures r < 0.0 ==> t <= 0 && t as real - 1.0 < r <= t as real
  {
    if 0.0 <= r then r.Floor else -((-r).Floor)
  }

  /** Truncation is the identity on integral values. */
  lemma TruncIntegral(n: int)
    ensures Trunc(n as real) == n
  {
  }

  /** Truncation never moves a value past an integer bound it respects. */
  lemma TruncBelow(r: real, n: int)
    requires r <= n as real && 0 <= n
    ensures Trunc(r) <= n
  {
  }

  lemma TruncAbove(r: real, n: int)
    requires n as real <= r && 0 <= n
    ensures n <= Trunc(r)
  {
  }
}
