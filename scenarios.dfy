/** Small fixed scenes on which the outcome of the per-building search is
    pinned down: two 10 x 10 buildings 40 apart with a vertical road between
    them or beyond them, and three 2 x 2 buildings in a row. The geometry
    kernel's answers are written out by hand for each scene. */
module Scenarios {
  import opened Geometry
  import opened RoadCrossing
  import opened NearestNeighbor

  /** Building 1 centred at (0, 0), building 2 at (50, 0); the shortest line
      runs from (5, 0) to (45, 0). */
  function TwoBuildings(roads: RoadLayer): Scene {
    Scene(
      BuildingLayer(
        (s, r) => [1, 2],
        (s, t) => if s == t then 0.0 else 40.0,
        (s, t) => if s == 1 then Segment(Point(5.0, 0.0), Point(45.0, 0.0))
                  else Segment(Point(45.0, 0.0), Point(5.0, 0.0))),
      roads,
      100.0)
  }

  /** The road x = 25 meets the shortest line at (25, 0), inside it. */
  function RoadBetween(): RoadLayer {
    RoadLayer(line => [7], (line, id) => PointGeometry(Point(25.0, 0.0)))
  }

  /** The road x = 60 is not even offered by the road index. */
  function RoadBeyond(): RoadLayer {
    RoadLayer(line => [], (line, id) => Empty)
  }

  /** A road that crosses in the interior leaves building 1 with no neighbour. */
  lemma RoadBetweenBlocks(nearestId: Option<FeatureId>, minDistance: ExtReal)
    requires IsFirstNearest(TwoBuildings(RoadBetween()), 1, [1, 2], 2, nearestId, minDistance)
    ensures nearestId == None && minDistance == Infinity
    ensures ToReport(nearestId, minDistance) == Report(-1, -1.0)
  {
    var scene := TwoBuildings(RoadBetween());
    var line := scene.buildings.shortestLine(1, 2);
    assert line == Segment(Point(5.0, 0.0), Point(45.0, 0.0));
    assert IsCrossing(line, scene.roads.intersection(line, 7)) by {
      InteriorPointIsCrossing(line, Point(25.0, 0.0));
    }
    assert scene.roads.candidatesFor(line)[0] == 7;
    assert AnyCrossing(line, scene.roads);
    assert !Eligible(scene, 1, 2);
  }

  /** With the road out of the way, building 1 reports building 2 at 40. */
  lemma RoadBeyondAllows(nearestId: Option<FeatureId>, minDistance: ExtReal)
    requires IsFirstNearest(TwoBuildings(RoadBeyond()), 1, [1, 2], 2, nearestId, minDistance)
    ensures nearestId == Some(2) && minDistance == Finite(40.0)
    ensures ToReport(nearestId, minDistance) == Report(2, 40.0)
  {
    var scene := TwoBuildings(RoadBeyond());
    var candidates := [1, 2];
    assert !AnyCrossing(scene.buildings.shortestLine(1, 2), scene.roads);
    assert Eligible(scene, 1, candidates[1]);
    assert !Eligible(scene, 1, candidates[0]);
    assert FirstNearestAt(scene, 1, candidates, 2, 1);
    FirstNearestIsUnique(scene, 1, candidates, nearestId, minDistance, Some(2), Finite(40.0));
  }

  /** A road that meets the shortest line at (44.99995, 0), on the line and
      0.00005 short of its far endpoint (45, 0): within the tolerance. */
  function RoadTouching(): RoadLayer {
    RoadLayer(line => [7], (line, id) => PointGeometry(Point(44.99995, 0.0)))
  }

  /** A touch at the line's endpoint does not block: building 2 is reported. */
  lemma RoadTouchAllows(nearestId: Option<FeatureId>, minDistance: ExtReal)
    requires IsFirstNearest(TwoBuildings(RoadTouching()), 1, [1, 2], 2, nearestId, minDistance)
    ensures nearestId == Some(2) && minDistance == Finite(40.0)
  {
    var scene := TwoBuildings(RoadTouching());
    var candidates := [1, 2];
    var line := scene.buildings.shortestLine(1, 2);
    assert line.end == Point(45.0, 0.0);
    assert Near(Point(44.99995, 0.0), line.end);
    assert !AnyCrossing(line, scene.roads) by {
      EndpointTouchIsNotCrossing(line, Point(44.99995, 0.0));
    }
    assert Eligible(scene, 1, candidates[1]);
    assert FirstNearestAt(scene, 1, candidates, 2, 1);
    FirstNearestIsUnique(scene, 1, candidates, nearestId, minDistance, Some(2), Finite(40.0));
  }

  /** Buildings 0, 1, 2, each 2 x 2, centred at x = 0, 10 and 20 with no
      roads. Neighbours are 8 apart, the two outer ones 18; the shortest line
      runs between the facing sides. */
  function ThreeInARow(): Scene {
    Scene(
      BuildingLayer(
        (s, r) => [2, 0, 1],
        (s, t) => if s == t then 0.0 else if s + t == 1 || s + t == 3 then 8.0 else 18.0,
        (s: int, t: int) =>
          if s <= t then Segment(Point(10.0 * s as real + 1.0, 0.0), Point(10.0 * t as real - 1.0, 0.0))
          else Segment(Point(10.0 * s as real - 1.0, 0.0), Point(10.0 * t as real + 1.0, 0.0))),
      RoadLayer(line => [], (line, id) => Empty),
      50.0)
  }

  /** From building 0 the neighbour at 8 wins over the one at 18, whatever
      order the index offers the candidates in (and whether or not it
      offers building 2 or building 0 itself). */
  lemma NearerOfTwoWins(candidates: seq<FeatureId>, nearestId: Option<FeatureId>, minDistance: ExtReal)
    requires forall c :: c in candidates ==> 0 <= c <= 2
    requires 1 in candidates
    requires IsFirstNearest(ThreeInARow(), 0, candidates, |candidates|, nearestId, minDistance)
    ensures nearestId == Some(1) && minDistance == Finite(8.0)
  {
    var scene := ThreeInARow();
    var k1 :| 0 <= k1 < |candidates| && candidates[k1] == 1;
    assert Eligible(scene, 0, candidates[k1]);
    assert nearestId.Some?;
    var k :| FirstNearestAt(scene, 0, candidates, |candidates|, k) && candidates[k] == nearestId.value;
    assert candidates[k] in candidates;
    assert scene.Distance(0, candidates[k]) <= scene.Distance(0, candidates[k1]);
    assert candidates[k] != 0;
    if candidates[k] == 2 {
      // 18 would have to be at most 8
      assert false;
    }
  }
}
