/** `crosses_road`: whether the shortest line between two buildings crosses
    one of the roads that the road index offers for the line's bounding box. */
module RoadCrossing {
  import opened Geometry

  type RoadId = int

  /** The road layer as the crossing test sees it. `candidatesFor(line)` is
      what the road index returns for the bounding box of `line`, in the
      index's own order; `intersection(line, id)` is the intersection of
      `line` with the geometry of road `id`, classified by geometry type. */
  datatype RoadLayer = RoadLayer(
    candidatesFor: Segment -> seq<RoadId>,
    intersection: (Segment, RoadId) -> Intersection)

  /** The classification of one intersection: a line overlap is a crossing;
      a point is a crossing unless it is within the tolerance of an
      endpoint of `line`; every other kind decides nothing. */
  predicate IsCrossing(line: Segment, hit: Intersection) {
    match hit
    case LineGeometry => true
    case PointGeometry(p) => !IsEndpoint(line, p)
    case _ => false
  }

  /** Some candidate road's intersection with `line` is a crossing. */
  predicate AnyCrossing(line: Segment, roads: RoadLayer) {
    var ids := roads.candidatesFor(line);
    exists i :: 0 <= i < |ids| && IsCrossing(line, roads.intersection(line, ids[i]))
  }

  /** The scan over the candidate roads, returning true at the first crossing. */
  method CrossesRoad(line: Segment, roads: RoadLayer) returns (crosses: bool)
    ensures crosses <==> AnyCrossing(line, roads)
  {
    var ids := roads.candidatesFor(line);
    for i := 0 to |ids|
      invariant forall j :: 0 <= j < i ==> !IsCrossing(line, roads.intersection(line, ids[j]))
    {
      var hit := roads.intersection(line, ids[i]);
      match hit {
        case LineGeometry =>
          return true;
        case PointGeometry(p) =>
          var isEndpoint := IsEndpoint(line, p);
          if !isEndpoint {
            assert IsCrossing(line, hit);
            return true;
          }
        case _ =>
      }
    }
    return false;
  }

  /** With no candidate road there is nothing to cross. */
  lemma NoCandidatesNoCrossing(line: Segment, roads: RoadLayer)
    requires roads.candidatesFor(line) == []
    ensures !AnyCrossing(line, roads)
  {
  }

  /** A point within the tolerance of either endpoint, on both axes, is a
      touch: it is never a crossing. */
  lemma EndpointTouchIsNotCrossing(line: Segment, p: Point)
    requires Near(p, line.start) || Near(p, line.end)
    ensures !IsCrossing(line, PointGeometry(p))
  {
  }

  /** An intersection exactly at either endpoint of the line is a touch:
      the tolerance is positive and the test is a strict `<`. */
  lemma ExactEndpointIsTouch(line: Segment)
    ensures !IsCrossing(line, PointGeometry(line.start))
    ensures !IsCrossing(line, PointGeometry(line.end))
  {
    assert Near(line.start, line.start) && Near(line.end, line.end);
  }

  /** A point away from both endpoints is a crossing, and so is a line overlap. */
  lemma InteriorPointIsCrossing(line: Segment, p: Point)
    requires !Near(p, line.start) && !Near(p, line.end)
    ensures IsCrossing(line, PointGeometry(p)) && IsCrossing(line, LineGeometry)
  {
  }

  /** Only a line overlap or a point can make a crossing; an empty, polygon
      or unknown-typed intersection never does. */
  lemma OnlyLinesAndPointsCross(line: Segment, hit: Intersection)
    ensures IsCrossing(line, hit) ==> hit.LineGeometry? || hit.PointGeometry?
  {
  }

  /** An intersection that is at most a touch: not a line overlap, and a
      point only within the tolerance of an endpoint of `line`. */
  predicate AtMostTouch(line: Segment, hit: Intersection) {
    match hit
    case LineGeometry => false
    case PointGeometry(p) => Near(p, line.start) || Near(p, line.end)
    case _ => true
  }

  /** A line that meets its candidate roads only in endpoint touches and in
      intersections of other kinds does not cross a road. */
  lemma TouchesOnlyDoNotCross(line: Segment, roads: RoadLayer)
    requires forall id :: id in roads.candidatesFor(line) ==>
      AtMostTouch(line, roads.intersection(line, id))
    ensures !AnyCrossing(line, roads)
  {
    var ids := roads.candidatesFor(line);
    forall i | 0 <= i < |ids|
      ensures !IsCrossing(line, roads.intersection(line, ids[i]))
    {
      var id := ids[i];
      assert id in roads.candidatesFor(line);
      assert AtMostTouch(line, roads.intersection(line, id));
      var hit := roads.intersection(line, id);
      if hit.PointGeometry? {
        EndpointTouchIsNotCrossing(line, hit.at);
      }
    }
  }

  /** One crossing road is enough, wherever it sits among the candidates. */
  lemma OneCrossingSuffices(line: Segment, roads: RoadLayer, id: RoadId)
    requires id in roads.candidatesFor(line)
    requires IsCrossing(line, roads.intersection(line, id))
    ensures AnyCrossing(line, roads)
  {
    var ids := roads.candidatesFor(line);
    var i :| 0 <= i < |ids| && ids[i] == id;
  }
}
