/** Perpendicular markers along the centerline (`local_angles`). For every point a clamped
    window of `scope` points to either side gives two ends p1 and p2; rotating p1 and p2 by
    90 degrees about their midpoint gives two marker points across the local direction. The
    tangent angle, a library call, is not part of this model. */
module Markers {
  import opened Geometry

  /** `max(0, i - scope)` and `min(n - 1, i + scope)`: the window ends for point `i`. */
  function WindowStart(i: nat, scope: nat): nat
  {
    if i - scope > 0 then i - scope else 0
  }

  function WindowEnd(n: nat, i: nat, scope: nat): int
  {
    if n - 1 < i + scope then n - 1 else i + scope
  }

  /** The window holds point `i`, stays inside the path and reaches `scope` points to each
      side unless it meets an end of the path. */
  lemma WindowBounds(n: nat, i: nat, scope: nat)
    requires i < n
    ensures 0 <= WindowStart(i, scope) <= i <= WindowEnd(n, i, scope) < n
    ensures WindowEnd(n, i, scope) - WindowStart(i, scope) <= 2 * scope
    ensures WindowStart(i, scope) > 0 ==> i - WindowStart(i, scope) == scope
    ensures WindowEnd(n, i, scope) < n - 1 ==> WindowEnd(n, i, scope) - i == scope
  {
  }

  /** `shiftx`, `shifty`: the midpoint of the window ends. */
  function Midpoint(p1: Point, p2: Point): RealPoint
  {
    RealPoint(0.5 * (p1.x as real + p2.x as real), 0.5 * (p1.y as real + p2.y as real))
  }

  /** `p` turned by 90 degrees about `m`, before conversion to pixels. */
  function RotateAbout(p: Point, m: RealPoint): RealPoint
  {
    RealPoint(-(p.y as real - m.y) + m.x, p.x as real - m.x + m.y)
  }

  /** `Point(int(..), int(..), 0)`: truncation toward zero, on the first slice. */
  function ToPixel(q: RealPoint): Point
  {
    Point(Trunc(q.x), Trunc(q.y), 0)
  }

  /** The two markers of point `i`, before and after truncation. */
  function UnroundedPair(points: seq<Point>, i: nat, scope: nat): (RealPoint, RealPoint)
    requires i < |points|
  {
    WindowBounds(|points|, i, scope);
    var p1 := points[WindowStart(i, scope)];
    var p2 := points[WindowEnd(|points|, i, scope)];
    var m := Midpoint(p1, p2);
    (RotateAbout(p1, m), RotateAbout(p2, m))
  }

  function OrthogonalPair(points: seq<Point>, i: nat, scope: nat): (Point, Point)
    requires i < |points|
  {
    var u := UnroundedPair(points, i, scope);
    (ToPixel(u.0), ToPixel(u.1))
  }

  /** The loop of `local_angles`, collecting one marker pair per centerline point. */
  method LocalOrthogonals(points: seq<Point>, scope: nat) returns (orthogonals: seq<(Point, Point)>)
    ensures |orthogonals| == |points|
    ensures forall i :: 0 <= i < |points| ==> orthogonals[i] == OrthogonalPair(points, i, scope)
  {
    orthogonals := [];
    var i := 0;
    while i < |points|
      invariant i <= |points|
      invariant |orthogonals| == i
      invariant forall k :: 0 <= k < i ==> orthogonals[k] == OrthogonalPair(points, k, scope)
    {
      orthogonals := orthogonals + [OrthogonalPair(points, i, scope)];
      i := i + 1;
    }
  }

  /** Before truncation the two markers lie symmetric about the midpoint of the window ends,
      each at the same distance from it as its end and at a right angle to it. */
  lemma MarkersArePerpendicular(points: seq<Point>, i: nat, scope: nat)
    requires i < |points|
    ensures var p1 := ToReal(points[WindowStart(i, scope)]);
            var p2 := ToReal(points[WindowEnd(|points|, i, scope)]);
            var m := RealPoint(0.5 * (p1.x + p2.x), 0.5 * (p1.y + p2.y));
            var u := UnroundedPair(points, i, scope);
            && u.0.x + u.1.x == 2.0 * m.x && u.0.y + u.1.y == 2.0 * m.y
            && (u.0.x - m.x) * (p1.x - m.x) + (u.0.y - m.y) * (p1.y - m.y) == 0.0
            && (u.1.x - m.x) * (p2.x - m.x) + (u.1.y - m.y) * (p2.y - m.y) == 0.0
            && (u.0.x - m.x) * (u.0.x - m.x) + (u.0.y - m.y) * (u.0.y - m.y)
               == (p1.x - m.x) * (p1.x - m.x) + (p1.y - m.y) * (p1.y - m.y)
            && (u.1.x - m.x) * (u.1.x - m.x) + (u.1.y - m.y) * (u.1.y - m.y)
               == (p2.x - m.x) * (p2.x - m.x) + (p2.y - m.y) * (p2.y - m.y)
  {
    WindowBounds(|points|, i, scope);
  }

  /** With a scope of 0 the window collapses onto the point, and both markers are the point
      itself, moved to the first slice. */
  lemma ScopeZeroMarksThePoint(points: seq<Point>, i: nat)
    requires i < |points|
    ensures OrthogonalPair(points, i, 0) == (Point(points[i].x, points[i].y, 0), Point(points[i].x, points[i].y, 0))
  {
    var p := points[i];
    assert UnroundedPair(points, i, 0) == (ToReal(p), ToReal(p));
    TruncOfInt(p.x);
    TruncOfInt(p.y);
  }
}
