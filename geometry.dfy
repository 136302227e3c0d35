/** Plane vectors as the game's agents see them. Coordinates are mathematical reals:
    the single-precision rounding of the engine is not modelled. */
module Geometry {

  /** A value that may be missing: a null plan, a velocity left unset. */
  datatype Option<T> = None | Some(value: T)

  /** A 2-D point or direction (Unity's Vector2). */
  datatype Vector2 = Vector2(x: real, y: real)

  /** Absolute value of a real (Mathf.Abs). */
  function Abs(v: real): (r: real)
    ensures r >= 0.0
    ensures r == v || r == -v
  {
    if v < 0.0 then -v else v
  }

  /** Square of the Euclidean distance between two points. */
  function SqDistance(a: Vector2, b: Vector2): real
  {
    (a.x - b.x) * (a.x - b.x) + (a.y - b.y) * (a.y - b.y)
  }

  /** Vector2.Distance(a, b) <= d, stated without the square root: a negative bound is never met,
      and for d >= 0 both sides of the comparison are non-negative, so squaring them keeps it. */
  function DistanceAtMost(a: Vector2, b: Vector2, d: real): (within: bool)
    ensures within ==> 0.0 <= d
    ensures a == b ==> (within <==> 0.0 <= d)
    ensures within ==> (a.x - b.x) * (a.x - b.x) <= d * d && (a.y - b.y) * (a.y - b.y) <= d * d
  {
    0.0 <= d && SqDistance(a, b) <= d * d
  }
}
