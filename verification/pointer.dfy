/**
 Mapping a gated frame-space displacement onto the screen pointer
 (ir-mouse.py:157-168): the horizontal axis is inverted, the vertical one is
 not, the result is truncated toward zero and then clamped to the screen.
 */
module PointerMap {
  import opened Numeric
  import opened Geometry
  import opened Motion

  /**
   Clamping one coordinate to `[0, hi]` as the two sequential checks do:
   first the lower bound, then the upper one.
   */
  function ClampAxis(v: int, hi: int): (c: int)
    ensures 0 <= hi ==> 0 <= c <= hi
    ensures 0 <= v <= hi ==> c == v
    ensures 0 <= hi && v < 0 ==> c == 0
    ensures hi < v ==> c == hi
  {
    var raised := if v < 0 then 0 else v;
    if raised > hi then hi else raised
  }

  /** Clamping twice is clamping once, for every bound. */
  lemma ClampIdempotent(v: int, hi: int)
    ensures ClampAxis(ClampAxis(v, hi), hi) == ClampAxis(v, hi)
  {
  }

  lemma ClampMonotone(a: int, b: int, hi: int)
    requires a <= b
    ensures ClampAxis(a, hi) <= ClampAxis(b, hi)
  {
  }

  /** The unclamped horizontal target: inverted axis. */
  function RawX(cur: Ptr, d: Offset, distance: real): real {
    cur.x as real - d.dx as real * (distance * ScaleFactor(distance))
  }

  /** The unclamped vertical target: axis not inverted. */
  function RawY(cur: Ptr, d: Offset, distance: real): real {
    cur.y as real + d.dy as real * (distance * ScaleFactor(distance))
  }

  /** The new absolute pointer position for a gated displacement. */
  function MovePointer(cur: Ptr, d: Offset, distance: real, s: Screen): (p: Ptr)
    ensures ScreenNonNegative(s) ==> OnScreen(p, s)
    ensures 0 <= Trunc(RawX(cur, d, distance)) <= s.width ==> p.x == Trunc(RawX(cur, d, distance))
    ensures 0 <= Trunc(RawY(cur, d, distance)) <= s.height ==> p.y == Trunc(RawY(cur, d, distance))
  {
    Ptr(ClampAxis(Trunc(RawX(cur, d, distance)), s.width),
        ClampAxis(Trunc(RawY(cur, d, distance)), s.height))
  }

  /** One axis of the direction property: a target below, at or above `c`. */
  lemma AxisDirection(c: int, raw: real, hi: int)
    requires 0 <= c <= hi
    ensures raw <= c as real ==> ClampAxis(Trunc(raw), hi) <= c
    ensures c as real <= raw ==> c <= ClampAxis(Trunc(raw), hi)
  {
    if raw <= c as real {
      TruncBelow(raw, c);
      ClampMonotone(Trunc(raw), c, hi);
    }
    if c as real <= raw {
      TruncAbove(raw, c);
      ClampMonotone(c, Trunc(raw), hi);
    }
  }

  /**
   For a pointer already on screen: a positive horizontal delta never moves
   it right (the camera faces the user), a positive vertical delta never moves
   it up, and an axis with zero delta keeps its coordinate.
   */
  lemma MovePointerDirection(cur: Ptr, d: Offset, distance: real, s: Screen)
    requires OnScreen(cur, s) && 0.0 <= distance
    ensures d.dx > 0 ==> MovePointer(cur, d, distance, s).x <= cur.x
    ensures d.dx < 0 ==> MovePointer(cur, d, distance, s).x >= cur.x
    ensures d.dx == 0 ==> MovePointer(cur, d, distance, s).x == cur.x
    ensures d.dy > 0 ==> MovePointer(cur, d, distance, s).y >= cur.y
    ensures d.dy < 0 ==> MovePointer(cur, d, distance, s).y <= cur.y
    ensures d.dy == 0 ==> MovePointer(cur, d, distance, s).y == cur.y
  {
    var k := distance * ScaleFactor(distance);
    MulNonNegative(distance, ScaleFactor(distance));
    if d.dx > 0 {
      MulNonNegative(d.dx as real, k);
    } else if d.dx < 0 {
      MulNonNegative(-d.dx as real, k);
    }
    if d.dy > 0 {
      MulNonNegative(d.dy as real, k);
    } else if d.dy < 0 {
      MulNonNegative(-d.dy as real, k);
    }
    AxisDirection(cur.x, RawX(cur, d, distance), s.width);
    AxisDirection(cur.y, RawY(cur, d, distance), s.height);
  }

  /**
   The pointer at (500,500) on a 1920x1080 screen, tracked delta (0,30) at
   distance 30: the factor is 1.7, the raw vertical target 2030, and the
   result is clamped to the bottom edge.
   */
  lemma ClampBottomEdgeExample()
    ensures RawY(Ptr(500, 500), Offset(0, 30), 30.0) == 2030.0
    ensures MovePointer(Ptr(500, 500), Offset(0, 30), 30.0, Screen(1920, 1080)) == Ptr(500, 1080)
  {
    assert ScaleFactor(30.0) == 1.7;
    TruncIntegral(500);
    TruncIntegral(2030);
  }
}
