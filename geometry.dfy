/**
 * Planar geometry used by the topology generator: points, the square
 * tolerance test `points_are_close`, the small square drawn around a point,
 * lines reduced to their two end coordinates, and oriented lines
 * (`NavigationLineString`) with their open and connected ends.
 */
module Geometry {

  /** A planar (already projected) coordinate. */
  datatype Point = Point(x: real, y: real)

  /** Side of the square drawn around a point (`OVERLAP_SQUARE_SIZE`). */
  const OverlapSquareSize: real := 0.05
  /** Distance from the square's centre to each of its sides. */
  const OverlapSquareCentroidDistance: real := OverlapSquareSize / 2.0
  /** Tolerance of `points_are_close` when no margin is given (`CLOSE_MARGIN`). */
  const CloseMargin: real := 0.12

  function Abs(v: real): real { if v < 0.0 then -v else v }

  /**
   * `points_are_close(a, b, margin)`: `b` lies in the closed square of
   * half-side `margin` centred on `a`; a box test, not a Euclidean one.
   */
  function PointsAreClose(a: Point, b: Point, margin: real): (r: bool)
    ensures r <==> Abs(a.x - b.x) <= margin && Abs(a.y - b.y) <= margin
  {
    a.x - margin <= b.x <= a.x + margin && a.y - margin <= b.y <= a.y + margin
  }

  /** The two-argument form with the module constant `CLOSE_MARGIN`. */
  function PointsAreCloseDefault(a: Point, b: Point): (r: bool)
    ensures r <==> Abs(a.x - b.x) <= 0.12 && Abs(a.y - b.y) <= 0.12
  {
    PointsAreClose(a, b, CloseMargin)
  }

  lemma PointsAreCloseReflexive(a: Point, margin: real)
    requires margin >= 0.0
    ensures PointsAreClose(a, a, margin)
  {
  }

  lemma PointsAreCloseSymmetric(a: Point, b: Point, margin: real)
    ensures PointsAreClose(a, b, margin) == PointsAreClose(b, a, margin)
  {
  }

  /** Points at a box distance above the margin are never close. */
  lemma FarPointsAreNotClose(a: Point, b: Point, margin: real)
    requires Abs(a.x - b.x) > margin || Abs(a.y - b.y) > margin
    ensures !PointsAreClose(a, b, margin)
  {
  }

  /**
   * `_create_point_box`: the four corners, in the source's order, of the
   * square of side `OVERLAP_SQUARE_SIZE` centred on `p`.
   */
  function CreatePointBox(p: Point): (corners: seq<Point>)
    ensures |corners| == 4
    ensures corners[2].x - corners[0].x == OverlapSquareSize
    ensures corners[2].y - corners[0].y == OverlapSquareSize
    ensures (corners[0].x + corners[2].x) / 2.0 == p.x && (corners[0].y + corners[2].y) / 2.0 == p.y
    ensures corners[1] == Point(corners[0].x, corners[2].y) && corners[3] == Point(corners[2].x, corners[0].y)
  {
    var d := OverlapSquareCentroidDistance;
    [Point(p.x - d, p.y - d), Point(p.x - d, p.y + d), Point(p.x + d, p.y + d), Point(p.x + d, p.y - d)]
  }

  /** Square of the Euclidean distance; comparisons of distances are comparisons of these. */
  function DistSq(a: Point, b: Point): (d: real)
    ensures d >= 0.0
  {
    (a.x - b.x) * (a.x - b.x) + (a.y - b.y) * (a.y - b.y)
  }

  /** shapely `dwithin` for two points: Euclidean distance at most `radius`. */
  predicate PointWithin(a: Point, b: Point, radius: real)
  {
    radius >= 0.0 && DistSq(a, b) <= radius * radius
  }

  /**
   * A cable polyline, reduced to what the core reads of it: its first and
   * last coordinate (`coords[0]`, `coords[-1]`) and its length.
   */
  datatype Line = Line(first: Point, last: Point, length: real)

  /**
   * `NavigationLineString`: a line of the line index with an orientation.
   * `firstPointEnd` says that the first coordinate is the open end, the one
   * traversal continues from; the other end is the connected end.
   * Equality is field-wise, as for the Python dataclass.
   */
  datatype NavigationLine = NavigationLine(line: Line, firstPointEnd: bool, index: int)

  /** `get_end_coords`: the open end of a navigation line. */
  function EndCoords(n: NavigationLine): Point
  {
    if n.firstPointEnd then n.line.first else n.line.last
  }

  /** `get_connected_coords`: the connected end of a navigation line. */
  function ConnectedCoords(n: NavigationLine): Point
  {
    if n.firstPointEnd then n.line.last else n.line.first
  }

  /** Building a navigation line with `first_point_end = not c` makes the first coordinate connected iff `c`. */
  lemma OrientationFromConnectedFirst(l: Line, connectedFirst: bool, index: int)
    ensures var n := NavigationLine(l, !connectedFirst, index);
      (ConnectedCoords(n) == if connectedFirst then l.first else l.last) &&
      (EndCoords(n) == if connectedFirst then l.last else l.first)
  {
  }
}
