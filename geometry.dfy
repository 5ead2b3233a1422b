/** The geometry the road-crossing test looks at: points, the two-point
    shortest line between two buildings, the kind of geometry an
    intersection produces, and the tolerance that tells a touch at an
    endpoint from a crossing. Coordinates are reals: the model only ever
    compares them. */
module Geometry {

  datatype Point = Point(x: real, y: real)

  /** The shortest line between two buildings. Only its first and its last
      vertex are ever inspected (asPolyline()[0] and asPolyline()[-1]). */
  datatype Segment = Segment(start: Point, end: Point)

  /** What `line.intersection(road)` yields, by geometry type.
      - Empty: the line does not intersect the road, or the intersection
        is null or empty;
      - LineGeometry: a one-dimensional overlap;
      - PointGeometry(at): a point geometry, `at` being what asPoint() gives;
      - PolygonGeometry, UnknownGeometry: any other geometry type
        (a mixed collection included). */
  datatype Intersection =
    | Empty
    | LineGeometry
    | PointGeometry(at: Point)
    | PolygonGeometry
    | UnknownGeometry

  /** The fixed endpoint tolerance, in map units. */
  const EPSILON: real := 0.0001

  function Abs(r: real): (a: real)
    ensures a >= 0.0 && (a == r || a == -r)
  {
    if r < 0.0 then -r else r
  }

  /** `p` lies within EPSILON of `q` on both axes, strictly. */
  predicate Near(p: Point, q: Point) {
    Abs(p.x - q.x) < EPSILON && Abs(p.y - q.y) < EPSILON
  }

  /** Some point of `pts` is near `p`: the `any(...)` over the line's
      endpoints. */
  function AnyNear(p: Point, pts: seq<Point>): (b: bool)
    ensures b <==> exists i :: 0 <= i < |pts| && Near(p, pts[i])
  {
    if pts == [] then false
    else Near(p, pts[0]) || AnyNear(p, pts[1..])
  }

  /** `p` is, within the tolerance, the first or the last vertex of `line`. */
  function IsEndpoint(line: Segment, p: Point): (b: bool)
    ensures b <==> Near(p, line.start) || Near(p, line.end)
  {
    var ends := [line.start, line.end];
    assert ends[0] == line.start && ends[1] == line.end;
    AnyNear(p, ends)
  }
}
