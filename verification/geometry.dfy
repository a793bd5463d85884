/**
 Coordinates. Tracked positions live in frame-pixel space and pointer
 positions in screen-pixel space; they are distinct types so that the axis
 inversion and scaling can only be applied where the tracker applies them.
 */
module Geometry {

  /** A tracked position in frame-pixel space (column, row). */
  datatype Pos = Pos(x: int, y: int)

  /** A pointer position in screen-pixel space. */
  datatype Ptr = Ptr(x: int, y: int)

  /** The screen size reported once at start-up. */
  datatype Screen = Screen(width: int, height: int)

  /** A frame-space displacement. */
  datatype Offset = Offset(dx: int, dy: int)

  /** The top-left corner doubles as the "no detection" value. */
  const Origin: Pos := Pos(0, 0)

  /** The per-axis signed difference `cur - prev` (numpy `subtract`). */
  function Delta(prev: Pos, cur: Pos): (d: Offset)
    ensures Pos(prev.x + d.dx, prev.y + d.dy) == cur
  {
    Offset(cur.x - prev.x, cur.y - prev.y)
  }

  /** The squared Euclidean length of a displacement. */
  function SqLen(d: Offset): (s: nat)
    ensures s == 0 <==> d == Offset(0, 0)
  {
    d.dx * d.dx + d.dy * d.dy
  }

  predicate ScreenNonNegative(s: Screen) {
    0 <= s.width && 0 <= s.height
  }

  /** The closed rectangle `[0, width] x [0, height]`. */
  predicate OnScreen(p: Ptr, s: Screen) {
    0 <= p.x <= s.width && 0 <= p.y <= s.height
  }
}
