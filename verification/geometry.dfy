/** Pixel coordinates and the one conversion from real to integer coordinates the
    analysis performs. */
module Geometry {

  /** A voxel coordinate as the skeletonizer reports it. */
  datatype Point = Point(x: int, y: int, z: int)

  /** A coordinate pair before conversion to pixels. */
  datatype RealPoint = RealPoint(x: real, y: real)

  function ToReal(p: Point): RealPoint
  {
    RealPoint(p.x as real, p.y as real)
  }

  /** Python's `int()` applied to a float: rounds toward zero, unlike `Floor`, which
      rounds toward minus infinity. */
  function Trunc(r: real): (n: int)
    ensures 0.0 <= r ==> 0 <= n && n as real <= r < n as real + 1.0
    ensures r < 0.0 ==> n <= 0 && n as real - 1.0 < r <= n as real
  {
    if r >= 0.0 then r.Floor else -((-r).Floor)
  }

  /** Truncation leaves whole numbers unchanged. */
  lemma TruncOfInt(n: int)
    ensures Trunc(n as real) == n
  {
    if n < 0 {
      assert (-(n as real)).Floor == -n;
    }
  }
}
