# Nearest building without crossing a road, and the land-use decision tree

This project models the decision logic of two Python scripts from a building
function classification toolkit, and proves properties of that model in Dafny.

1. **Nearest building reachable without crossing a road** (`nearestneighbor.py`,
   a QGIS processing algorithm). For every building the algorithm does four things:
   - it asks a spatial index for the buildings near it;
   - it skips the building itself;
   - it drops candidates beyond the search radius or not strictly nearer than the best so far;
   - it keeps a candidate only when the shortest line between the two buildings crosses no road.

   It writes `nearest_id` and `nearest_dist` for each building, with `-1` for both
   when no candidate qualifies. The crossing test (`crosses_road`) classifies the
   intersection of the shortest line with each road that the road index offers:
   - a line overlap is a crossing;
   - a point within 0.0001 map units of an endpoint of the line, on both axes, is a touch;
   - any other point is a crossing;
   - any other geometry type decides nothing.
2. **Land-use decision tree** (`decision_tree.py`, `classify_land_use`). It maps nine
   attributes of a building to 'Residential', 'Mixed' or 'Non Residential' through
   nested threshold tests.

The QGIS geometry kernel and the spatial indexes are not re-derived. They are inputs,
given as function-valued fields:
- `BuildingLayer` holds the building-index query, `distance` and `shortestLine`;
- `RoadLayer` holds the road-index query and the classified `intersection`;
- `Scene` bundles both layers with the search radius.

Distances and coordinates are `real`, because the code only compares them.

Files:
- `geometry.dfy` (module `Geometry`): points, the shortest line as a two-point
  segment, the kinds of intersection, and the endpoint tolerance.
- `crossing.dfy` (module `RoadCrossing`): `crosses_road` as a loop with an early
  return (`CrossesRoad`), proved against the predicate `AnyCrossing`.
- `nearest.dfy` (module `NearestNeighbor`): the per-building candidate loop
  (`FindNearest`), proved against the predicate `IsFirstNearest`. It also holds the
  loop over all buildings with cancellation (`NearestForAll`), the conversion of the
  loop state to the two attributes (`ToReport`), and the properties of the search.
- `scenarios.dfy` (module `Scenarios`): fixed scenes that pin the search's outcome:
  - a road between two buildings;
  - a road beyond them;
  - a road touching the line's endpoint;
  - three buildings in a row.
- `land_use.dfy` (module `LandUse`): the decision tree (`Decide`, `Classify`) and
  its path-by-path properties.

Behaviour of the code that the model keeps as written:
- Only a line or a point intersection can count as a crossing. A geometry
  collection has type UnknownGeometry and never counts, even when it contains a
  line overlap.
- The decision tree reads the columns `Motorway`, `Closest`, `PrimarySecondary`,
  `frontage_ratio`, `Service`, `Compactness`, `Area`, `Corners` and `ERI`. The
  docstring and the column check in `process_gpkg` name different columns.
- On cancellation the loop stops between buildings; nothing marks the output as
  incomplete.

## Model

| member | source | states |
|---|---|---|
| `Geometry.AnyNear` | nearestneighbor.py:200-204 | the `any(...)` over a list of points holds exactly when some point of the list is within the tolerance of the intersection point |
| `Geometry.IsEndpoint` | nearestneighbor.py:196-204 | a point is an endpoint exactly when it is within 0.0001 of the line's first or last vertex, on both axes |
| `RoadCrossing.CrossesRoad` | nearestneighbor.py:175-208 | the scan returns true exactly when some candidate road's intersection with the line is a crossing (line overlap, or point off both endpoints) |
| `RoadCrossing.NoCandidatesNoCrossing` | nearestneighbor.py:178-208 | with no candidate road the line does not cross |
| `RoadCrossing.EndpointTouchIsNotCrossing` | nearestneighbor.py:194-206 | a point intersection within the tolerance of either endpoint is a touch, not a crossing |
| `RoadCrossing.ExactEndpointIsTouch` | nearestneighbor.py:196-206 | an intersection point exactly at the line's first or last vertex is never a crossing |
| `RoadCrossing.InteriorPointIsCrossing` | nearestneighbor.py:191-206 | a point away from both endpoints is a crossing, and a line overlap is a crossing |
| `RoadCrossing.OnlyLinesAndPointsCross` | nearestneighbor.py:188-206 | empty, polygon and other-typed intersections never make a crossing |
| `RoadCrossing.TouchesOnlyDoNotCross` | nearestneighbor.py:181-208 | a line that only touches roads at its endpoints, or meets them in other-typed intersections, does not cross |
| `RoadCrossing.OneCrossingSuffices` | nearestneighbor.py:181-206 | one crossing candidate road, wherever it stands in the index order, makes the line cross |
| `NearestNeighbor.FindNearest` | nearestneighbor.py:127-151 | the loop ends with nothing and +infinity when no candidate is eligible; otherwise it ends with the first eligible candidate at the least distance, and that candidate's distance |
| `NearestNeighbor.ToReport` | nearestneighbor.py:162-163 | a found id and a finite distance are written unchanged; `nearest_id` is -1 exactly when nothing was found or the found id is -1, and `nearest_dist` is -1 exactly when the distance is still +infinity or is -1 |
| `NearestNeighbor.NearestForAll` | nearestneighbor.py:114-165 | one report per building, in order, up to the first cancellation; each report is the search's outcome converted to `nearest_id`/`nearest_dist` |
| `NearestNeighbor.ReportedIsEligible` | nearestneighbor.py:130-151 | a reported neighbour is a candidate other than the building itself, within the radius, its line crosses no road, and the reported distance is exactly its distance |
| `NearestNeighbor.NoneIffNothingEligible` | nearestneighbor.py:127-151 | nothing is reported if and only if no candidate is eligible |
| `NearestNeighbor.ReportedIsMinimal` | nearestneighbor.py:139-151 | the final minimum distance is at most the distance of every eligible candidate |
| `NearestNeighbor.FirstSeenWinsTies` | nearestneighbor.py:142-151 | among eligible candidates at the minimal distance, the reported one comes first in the index's order |
| `NearestNeighbor.FirstNearestIsUnique` | nearestneighbor.py:127-151 | the candidates determine the outcome: two outcomes meeting the specification are equal |
| `NearestNeighbor.LargerRadiusNeverWorse` | nearestneighbor.py:121-151 | with a larger radius and at least the same candidates, a found neighbour is never lost and the reported distance never grows |
| `NearestNeighbor.SentinelsAgree` | nearestneighbor.py:162-163 | with nothing found both attributes are -1; when distances are non-negative and no candidate id is -1, `nearest_id` is -1 exactly when `nearest_dist` is -1 |
| `NearestNeighbor.NeverSelf` | nearestneighbor.py:130-133 | a building is never reported as its own nearest neighbour |
| `Scenarios.RoadBetweenBlocks` | nearestneighbor.py:145-163 | a road crossing the connecting line at an interior point leaves the building with the -1/-1 report |
| `Scenarios.RoadBeyondAllows` | nearestneighbor.py:139-163 | with the road outside the line's reach, building 2 is reported at distance 40 |
| `Scenarios.RoadTouchAllows` | nearestneighbor.py:194-206 | a road touching the line within the tolerance of its endpoint does not block the neighbour |
| `Scenarios.NearerOfTwoWins` | nearestneighbor.py:139-151 | for any candidate list drawn from buildings 0, 1 and 2 that contains building 1, in any order, building 0's neighbour is building 1 at 8, never building 2 at 18 |
| `LandUse.Label.Name` | decision_tree.py:20-68 | the labels are written as exactly 'Residential', 'Mixed' or 'Non Residential' |
| `LandUse.Decide` | decision_tree.py:40-46 | the `frontage_ratio < 0.2` branch of node L is never taken |
| `LandUse.Classify` | decision_tree.py:4-68 | 'Mixed' is only returned without a motorway buffer, with Closest at most 20 and frontage ratio at least 0.2 |
| `LandUse.MotorwayIsNonResidential` | decision_tree.py:20-22 | a truthy Motorway gives 'Non Residential' whatever the other fields |
| `LandUse.WideAngleIsResidential` | decision_tree.py:24-26 | no motorway and Closest above 20 give 'Residential' |
| `LandUse.LowFrontageIsNonResidential` | decision_tree.py:29-38 | no motorway, Closest at most 20 and frontage ratio below 0.2 give 'Non Residential' whatever PrimarySecondary, Service and the shape fields |
| `LandUse.PrimaryWithFrontageIsMixed` | decision_tree.py:29-34 | PrimarySecondary with frontage ratio at least 0.2 (no motorway, Closest at most 20) gives 'Mixed' |
| `LandUse.ServiceWithFrontageIsMixed` | decision_tree.py:36-46 | Service without PrimarySecondary, frontage ratio at least 0.2 (no motorway, Closest at most 20) gives 'Mixed' |
| `LandUse.IrregularIsNeverResidential` | decision_tree.py:48-68 | with neither PrimarySecondary nor Service, more than 4 corners or ERI below 0.9 never yields 'Residential' |
| `LandUse.ResidentialPaths` | decision_tree.py:24-68 | 'Residential' needs no motorway, and either Closest above 20 or a regular shape with neither PrimarySecondary nor Service and frontage ratio at least 0.2 |
| `LandUse.NamesAreDistinct` | decision_tree.py:20-68 | the three labels are three different texts |

## Left out

- QGIS plugin registration and parameter forms (`initAlgorithm`, `name`, `displayName`, `group`, `groupId`, `createInstance`, `shortHelpString`): host wiring with no decision logic.
- Output plumbing: the output fields, the sink, copying attributes and progress reporting. They are host I/O. `NearestForAll` returns the reports as a sequence instead.
- Cancellation: `feedback.isCanceled()` is an input, `canceled(current)`, polled before each building.
- Building the two spatial indexes, and their queries. The candidate ids are given sequences in an unspecified order. The model does not state that the building index returns every building within the radius.
- Exact geometry (`distance`, `shortestLine`, `intersects`, `intersection`, `asPolyline`, `asPoint`, `boundingBox`, `buffered`): foreign calls over floating-point coordinates, taken as given functions. `create_shortest_line` is `shortestLine` itself. `line.intersects(road)` being false and an empty or null intersection are both the `Empty` kind.
- A shortest line with no vertices: `asPolyline()[0]` would raise an error. The model's `Segment` always has two endpoints.
- A multi-point intersection (a line crossing a winding road twice) also has type PointGeometry. There `asPoint()` raises an error and the algorithm stops. The model instead classifies the point given in `PointGeometry(at)` and carries on.
- Floating-point rounding. This includes the fact that 0.0001 and the tree's thresholds are not exact binary floats, and NaN attribute values, which fail every comparison.
- Python truthiness of the `Motorway`, `PrimarySecondary` and `Service` columns: they are modelled as booleans.
- `process_gpkg`: GeoPackage reading and writing, printing, and the missing-column check.
- The Voronoi and vertex-extraction steps named in the module docstring. No code implements them.
- `NearestNeighbor.SentinelsAgree`: the if-and-only-if between the two -1 values is proved only under non-negative distances and candidate ids other than -1. A kernel distance of -1 or a feature id of -1 would make one sentinel collide with a real value.
