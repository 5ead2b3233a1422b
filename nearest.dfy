/** The per-building search of the nearest building reachable by a
    shortest line that crosses no road, within the search radius, and the
    loop over all buildings that reports `(nearest_id, nearest_dist)` for
    each of them. */
module NearestNeighbor {
  import opened Geometry
  import opened RoadCrossing

  type FeatureId = int

  datatype Option<T> = None | Some(value: T)

  /** `min_distance`: starts at +infinity, then holds a real distance. */
  datatype ExtReal = Infinity | Finite(value: real) {
    /** `this <= d`, so that `d >= min_distance` reads `min_distance.AtMost(d)`. */
    predicate AtMost(d: real) {
      Finite? && value <= d
    }
  }

  /** The building layer as the search sees it.
      - candidatesNear(s, r): the ids the building index returns for the
        bounding box of building `s` buffered by `r`, in the index's order;
      - distance(s, t): the distance between the geometries of `s` and `t`;
      - shortestLine(s, t): the shortest line between them. */
  datatype BuildingLayer = BuildingLayer(
    candidatesNear: (FeatureId, real) -> seq<FeatureId>,
    distance: (FeatureId, FeatureId) -> real,
    shortestLine: (FeatureId, FeatureId) -> Segment)

  /** The fixed inputs of one run: both layers and the search radius. */
  datatype Scene = Scene(buildings: BuildingLayer, roads: RoadLayer, radius: real) {
    function Distance(source: FeatureId, target: FeatureId): real {
      buildings.distance(source, target)
    }
  }

  /** The two attributes written for a building. */
  datatype Report = Report(nearestId: int, nearestDist: real)

  /** A candidate that the search may report for `source`: another building,
      within the radius, whose shortest line crosses no road. */
  predicate Eligible(scene: Scene, source: FeatureId, c: FeatureId) {
    && c != source
    && scene.Distance(source, c) <= scene.radius
    && !AnyCrossing(scene.buildings.shortestLine(source, c), scene.roads)
  }

  /** Among the first `n` candidates, `candidates[k]` is eligible, no
      eligible one is nearer, and every eligible one before it is strictly
      farther: the first one seen at the least distance. */
  ghost predicate FirstNearestAt(scene: Scene, source: FeatureId, candidates: seq<FeatureId>, n: nat, k: int) {
    && n <= |candidates|
    && 0 <= k < n
    && Eligible(scene, source, candidates[k])
    && (forall j :: 0 <= j < n && Eligible(scene, source, candidates[j]) ==>
          scene.Distance(source, candidates[k]) <= scene.Distance(source, candidates[j]))
    && (forall j :: 0 <= j < k && Eligible(scene, source, candidates[j]) ==>
          scene.Distance(source, candidates[k]) < scene.Distance(source, candidates[j]))
  }

  /** The outcome of the search over the first `n` candidates: nothing and
      +infinity when none of them is eligible, otherwise the first nearest
      eligible candidate and its distance. */
  ghost predicate IsFirstNearest(scene: Scene, source: FeatureId, candidates: seq<FeatureId>, n: nat,
                           nearestId: Option<FeatureId>, minDistance: ExtReal)
  {
    && n <= |candidates|
    && match nearestId
       case None =>
         && minDistance == Infinity
         && forall j :: 0 <= j < n ==> !Eligible(scene, source, candidates[j])
       case Some(id) =>
         exists k :: && FirstNearestAt(scene, source, candidates, n, k)
                     && candidates[k] == id
                     && minDistance == Finite(scene.Distance(source, id))
  }

  /** The candidate loop for one building: skip the building itself, skip
      what is beyond the radius or not strictly nearer than the best so far,
      and take a candidate whose shortest line crosses no road. */
  method FindNearest(scene: Scene, source: FeatureId, candidates: seq<FeatureId>)
    returns (nearestId: Option<FeatureId>, minDistance: ExtReal)
    ensures IsFirstNearest(scene, source, candidates, |candidates|, nearestId, minDistance)
  {
    minDistance := Infinity;
    nearestId := None;
    ghost var best := 0;
    for i := 0 to |candidates|
      invariant nearestId.None? ==>
        && minDistance == Infinity
        && forall j :: 0 <= j < i ==> !Eligible(scene, source, candidates[j])
      invariant nearestId.Some? ==>
        && FirstNearestAt(scene, source, candidates, i, best)
        && nearestId.value == candidates[best]
        && minDistance == Finite(scene.Distance(source, candidates[best]))
    {
      var candidateId := candidates[i];
      if candidateId == source {
        continue;
      }
      var distance := scene.buildings.distance(source, candidateId);
      if distance > scene.radius || minDistance.AtMost(distance) {
        continue;
      }
      var closestLine := scene.buildings.shortestLine(source, candidateId);
      var crosses := CrossesRoad(closestLine, scene.roads);
      if !crosses {
        minDistance := Finite(distance);
        nearestId := Some(candidateId);
        best := i;
      }
    }
    if nearestId.Some? {
      assert FirstNearestAt(scene, source, candidates, |candidates|, best);
    }
  }

  /** The attribute values written for a building: -1 for a missing id and
      for a distance still at +infinity. */
  function ToReport(nearestId: Option<FeatureId>, minDistance: ExtReal): (r: Report)
    ensures nearestId.Some? ==> r.nearestId == nearestId.value
    ensures minDistance.Finite? ==> r.nearestDist == minDistance.value
    ensures r.nearestId == -1 <==> nearestId.None? || nearestId == Some(-1)
    ensures r.nearestDist == -1.0 <==> minDistance.Infinity? || minDistance == Finite(-1.0)
  {
    Report(if nearestId.Some? then nearestId.value else -1,
           if minDistance.Finite? then minDistance.value else -1.0)
  }

  /** The candidates the building index offers for `source`. */
  function CandidatesOf(scene: Scene, source: FeatureId): seq<FeatureId> {
    scene.buildings.candidatesNear(source, scene.radius)
  }

  /** `r` is the report the search produces for `source`. */
  ghost predicate ReportsNearest(scene: Scene, source: FeatureId, r: Report) {
    var candidates := CandidatesOf(scene, source);
    exists nearestId, minDistance ::
      && IsFirstNearest(scene, source, candidates, |candidates|, nearestId, minDistance)
      && r == ToReport(nearestId, minDistance)
  }

  /** The loop over all buildings, polling `canceled(current)` before each
      one and stopping there when it holds. */
  method NearestForAll(scene: Scene, sources: seq<FeatureId>, canceled: nat -> bool)
    returns (reports: seq<Report>)
    ensures |reports| <= |sources|
    ensures forall k :: 0 <= k < |reports| ==> !canceled(k)
    ensures |reports| < |sources| ==> canceled(|reports|)
    ensures forall k :: 0 <= k < |reports| ==> ReportsNearest(scene, sources[k], reports[k])
  {
    reports := [];
    for current := 0 to |sources|
      invariant |reports| == current
      invariant forall k :: 0 <= k < current ==> !canceled(k)
      invariant forall k :: 0 <= k < current ==> ReportsNearest(scene, sources[k], reports[k])
    {
      if canceled(current) {
        break;
      }
      var source := sources[current];
      var candidates := CandidatesOf(scene, source);
      var nearestId, minDistance := FindNearest(scene, source, candidates);
      var report := ToReport(nearestId, minDistance);
      assert ReportsNearest(scene, source, report);
      reports := reports + [report];
    }
  }

  /** A reported neighbour is another building, among the candidates,
      within the radius, reached by a line crossing no road, and the
      reported distance is exactly its distance. */
  lemma ReportedIsEligible(scene: Scene, source: FeatureId, candidates: seq<FeatureId>,
                           id: FeatureId, minDistance: ExtReal)
    requires IsFirstNearest(scene, source, candidates, |candidates|, Some(id), minDistance)
    ensures id != source && id in candidates
    ensures scene.Distance(source, id) <= scene.radius
    ensures !AnyCrossing(scene.buildings.shortestLine(source, id), scene.roads)
    ensures minDistance == Finite(scene.Distance(source, id))
  {
    var k :| FirstNearestAt(scene, source, candidates, |candidates|, k) && candidates[k] == id;
  }

  /** Nothing is reported exactly when no candidate is eligible. */
  lemma NoneIffNothingEligible(scene: Scene, source: FeatureId, candidates: seq<FeatureId>,
                               nearestId: Option<FeatureId>, minDistance: ExtReal)
    requires IsFirstNearest(scene, source, candidates, |candidates|, nearestId, minDistance)
    ensures nearestId.None? <==> forall c :: c in candidates ==> !Eligible(scene, source, c)
  {
    if nearestId.Some? {
      var k :| FirstNearestAt(scene, source, candidates, |candidates|, k) && candidates[k] == nearestId.value;
      assert candidates[k] in candidates;
    }
  }

  /** Minimality: no eligible candidate is nearer than the reported one. */
  lemma ReportedIsMinimal(scene: Scene, source: FeatureId, candidates: seq<FeatureId>,
                          nearestId: Option<FeatureId>, minDistance: ExtReal, c: FeatureId)
    requires IsFirstNearest(scene, source, candidates, |candidates|, nearestId, minDistance)
    requires c in candidates && Eligible(scene, source, c)
    ensures minDistance.AtMost(scene.Distance(source, c))
  {
    var j :| 0 <= j < |candidates| && candidates[j] == c;
    var k :| FirstNearestAt(scene, source, candidates, |candidates|, k) && candidates[k] == nearestId.value;
  }

  /** Ties go to the first: the reported candidate stands at or before every
      eligible candidate at the reported distance. */
  lemma FirstSeenWinsTies(scene: Scene, source: FeatureId, candidates: seq<FeatureId>,
                          id: FeatureId, minDistance: ExtReal, j: int)
    requires IsFirstNearest(scene, source, candidates, |candidates|, Some(id), minDistance)
    requires 0 <= j < |candidates| && Eligible(scene, source, candidates[j])
    requires scene.Distance(source, candidates[j]) == minDistance.value
    ensures exists k :: 0 <= k <= j && candidates[k] == id
  {
    var k :| FirstNearestAt(scene, source, candidates, |candidates|, k) && candidates[k] == id;
    if j < k {
      // candidates[j] would be strictly farther than the reported distance
      assert false;
    }
  }

  /** The outcome is determined by the candidates: the search has exactly
      one possible result. */
  lemma FirstNearestIsUnique(scene: Scene, source: FeatureId, candidates: seq<FeatureId>,
                             id1: Option<FeatureId>, d1: ExtReal, id2: Option<FeatureId>, d2: ExtReal)
    requires IsFirstNearest(scene, source, candidates, |candidates|, id1, d1)
    requires IsFirstNearest(scene, source, candidates, |candidates|, id2, d2)
    ensures id1 == id2 && d1 == d2
  {
    var n := |candidates|;
    if id1.Some? && id2.Some? {
      var k1 :| FirstNearestAt(scene, source, candidates, n, k1) && candidates[k1] == id1.value;
      var k2 :| FirstNearestAt(scene, source, candidates, n, k2) && candidates[k2] == id2.value;
      if k1 < k2 {
        assert false;
      } else if k2 < k1 {
        assert false;
      }
    } else if id1.Some? || id2.Some? {
      // one side found an eligible candidate, the other says there is none
      assert false;
    }
  }

  /** A larger radius, with at least the same candidates, never loses a
      neighbour and never reports a farther one. */
  lemma LargerRadiusNeverWorse(scene: Scene, radius: real, source: FeatureId,
                               candidates: seq<FeatureId>, id1: Option<FeatureId>, d1: ExtReal,
                               wider: seq<FeatureId>, id2: Option<FeatureId>, d2: ExtReal)
    requires scene.radius <= radius
    requires forall c :: c in candidates ==> c in wider
    requires IsFirstNearest(scene, source, candidates, |candidates|, id1, d1)
    requires IsFirstNearest(scene.(radius := radius), source, wider, |wider|, id2, d2)
    ensures id1.Some? ==> id2.Some? && d2.value <= d1.value
  {
    if id1.Some? {
      var k :| FirstNearestAt(scene, source, candidates, |candidates|, k) && candidates[k] == id1.value;
      var c := candidates[k];
      assert c in wider;
      var j :| 0 <= j < |wider| && wider[j] == c;
      assert Eligible(scene.(radius := radius), source, wider[j]);
      ReportedIsMinimal(scene.(radius := radius), source, wider, id2, d2, c);
    }
  }

  /** The two attributes are -1 together, and only together, when no
      distance is negative and no candidate carries the id -1. */
  lemma SentinelsAgree(scene: Scene, source: FeatureId, candidates: seq<FeatureId>,
                       nearestId: Option<FeatureId>, minDistance: ExtReal)
    requires IsFirstNearest(scene, source, candidates, |candidates|, nearestId, minDistance)
    requires forall c :: c in candidates ==> c != -1 && scene.Distance(source, c) >= 0.0
    ensures nearestId.None? ==> ToReport(nearestId, minDistance) == Report(-1, -1.0)
    ensures ToReport(nearestId, minDistance).nearestId == -1
        <==> ToReport(nearestId, minDistance).nearestDist == -1.0
  {
    if nearestId.Some? {
      ReportedIsEligible(scene, source, candidates, nearestId.value, minDistance);
    }
  }

  /** The search never reports the building itself. */
  lemma NeverSelf(scene: Scene, source: FeatureId, candidates: seq<FeatureId>,
                  nearestId: Option<FeatureId>, minDistance: ExtReal)
    requires IsFirstNearest(scene, source, candidates, |candidates|, nearestId, minDistance)
    ensures nearestId != Some(source)
  {
    if nearestId.Some? {
      ReportedIsEligible(scene, source, candidates, nearestId.value, minDistance);
    }
  }
}
