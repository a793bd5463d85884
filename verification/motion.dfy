/**
 The motion decision of one frame: whether a displacement between two
 detections is large enough to act on, and the piecewise-constant
 acceleration applied to it (ir-mouse.py:127-148).
 */
module Motion {
  import opened Numeric
  import opened Geometry

  /** A reading is a real detection unless it is the origin sentinel. */
  predicate Detected(p: Pos) {
    p != Origin
  }

  /** Motion is acted on only when the distance is strictly over 3 frame pixels. */
  predicate Actionable(distance: real) {
    distance > 3.0
  }

  /**
   The acceleration curve on the real distance, with strict breakpoints at
   20, 9 and 6.
   */
  function ScaleFactor(distance: real): (f: real)
    ensures f == 1.0 || f == 1.2 || f == 1.4 || f == 1.7
  {
    if distance > 20.0 then 1.7
    else if distance > 9.0 then 1.4
    else if distance > 6.0 then 1.2
    else 1.0
  }

  /**
   The same curve stated on the integer squared distance, which needs no
   square root: `d > 20` is `d*d > 400`, and likewise for 9 and 6.
   */
  function ScaleForSquare(sq: int): (f: real)
    ensures 1.0 <= f <= 1.7
  {
    if sq > 400 then 17.0 / 10.0
    else if sq > 81 then 14.0 / 10.0
    else if sq > 36 then 12.0 / 10.0
    else 1.0
  }

  /** The jitter gate is exactly "squared distance over 9". */
  lemma ActionableBySquare(r: real, sq: int)
    requires RootOf(r, sq)
    ensures Actionable(r) <==> sq > 9
  {
    RootAbove(r, sq, 3);
  }

  /** The real-valued curve and the integer one agree on every distance. */
  lemma ScaleFactorBySquare(r: real, sq: int)
    requires RootOf(r, sq)
    ensures ScaleFactor(r) == ScaleForSquare(sq)
  {
    RootAbove(r, sq, 20);
    RootAbove(r, sq, 9);
    RootAbove(r, sq, 6);
  }

  /** Acceleration never decreases as the distance grows. */
  lemma ScaleFactorMonotone(a: real, b: real)
    requires a <= b
    ensures ScaleFactor(a) <= ScaleFactor(b)
  {
  }

  /**
   The breakpoints are strict: a distance of exactly 20, 9 or 6 takes the
   lower factor; 25, 10, 7 and 3.5 take 1.7, 1.4, 1.2 and 1.0.
   */
  lemma ScaleFactorBreakpoints()
    ensures ScaleFactor(20.0) == 1.4 && ScaleFactor(9.0) == 1.2 && ScaleFactor(6.0) == 1.0
    ensures ScaleFactor(25.0) == 1.7 && ScaleFactor(10.0) == 1.4
    ensures ScaleFactor(7.0) == 1.2 && ScaleFactor(3.5) == 1.0
  {
  }
}
