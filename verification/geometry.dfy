/**
 * Axis-aligned boxes and the strict containment test that decides whether a
 * PPE item is worn by a person.
 */
module Geometry {

  /** A box as the detector reports it: corner coordinates as floating-point numbers. */
  datatype RealBox = RealBox(x1: real, y1: real, x2: real, y2: real)

  /** A box after its coordinates went through Python's `int()`: (x1, y1) top-left, (x2, y2) bottom-right. */
  datatype Box = Box(x1: int, y1: int, x2: int, y2: int)

  /** `n` is `x` with its fractional part dropped, rounding toward zero. */
  predicate TowardZero(x: real, n: int)
  {
    if 0.0 <= x then 0 <= n && n as real <= x < n as real + 1.0
    else n <= 0 && n as real - 1.0 < x <= n as real
  }

  /** Python's `int()` on a float: truncation toward zero. */
  function Trunc(x: real): (r: int)
    ensures TowardZero(x, r)
  {
    if 0.0 <= x then x.Floor else -((-x).Floor)
  }

  /** `map(int, box.xyxy[0])`: every coordinate truncated toward zero. */
  function ToIntBox(b: RealBox): (r: Box)
    ensures TowardZero(b.x1, r.x1) && TowardZero(b.y1, r.y1)
    ensures TowardZero(b.x2, r.x2) && TowardZero(b.y2, r.y2)
  {
    Box(Trunc(b.x1), Trunc(b.y1), Trunc(b.x2), Trunc(b.y2))
  }

  /** Strict containment: every edge of `item` lies strictly inside `person`. */
  predicate Inside(item: Box, person: Box)
  {
    item.x1 > person.x1 && item.y1 > person.y1 && item.x2 < person.x2 && item.y2 < person.y2
  }

  /** The observation pushed into an evidence buffer: 1.0 when contained, 0.0 otherwise. */
  function Indicator(item: Box, person: Box): (r: real)
    ensures r == 0.0 || r == 1.0
    ensures r == 1.0 <==> Inside(item, person)
  {
    if Inside(item, person) then 1.0 else 0.0
  }

  /** An item sharing any edge line with the person box is not contained. */
  lemma SharedEdgeNotInside(item: Box, person: Box)
    requires item.x1 == person.x1 || item.y1 == person.y1 || item.x2 == person.x2 || item.y2 == person.y2
    ensures !Inside(item, person)
    ensures Indicator(item, person) == 0.0
  {
  }
}
