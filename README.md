# Shared-topology numbering of the one-dimensional gmsh demo

This project models the core of the one-dimensional gmsh demo. The demo
builds a region of five polygons that touch along common sides. It then
numbers that region's points and lines so that shared geometry is entered
into the gmsh kernel only once.

- **Points.** Each vertex is looked up by its (x, y) in an ordered map. A
  new key is registered with `addPoint` under the next point counter value.
  A key seen before gives back its id, even when the z coordinate differs.
- **Lines.** Each side, from a vertex to its cyclic successor, is looked up
  as a directed pair of point ids, in both directions. A new pair is
  registered with `addLine`. It is stored as +id for its own direction and
  -id for the reverse.
- **Curve loops.** The signed ids of a polygon's sides form its curve loop,
  which is kept in `domElelIds`.

The model has four modules:

- `Geometry` (`geometry.dfy`) holds the value classes and the two comparators.
- `Polygons` (`polygon.dfy`) holds the `Polygon` class, updated in place,
  and the generation of the demo region.
- `Numbering` (`numbering.dfy`) holds the numbering as functions, with its
  invariants and what it guarantees.
- `OneDExample` (`one_d_example.dfy`) holds the numbering loops of `main` as
  methods over local maps, counters and vectors. Each method is proved equal
  to the function that specifies it.

The kernel calls `addPoint` and `addLine` become two logs of calls in the
numbering state. Nothing else of the kernel is modelled.

Two points about how the model reads the code:

- **Comparator direction.** Both comparators order DESCENDING: `a < b`
  holds when b's x (or first id) is smaller, and on a tie when b's y (or
  second id) is smaller. The model follows this. Only the
  equivalence of the orders matters to the maps, and that equivalence is
  equality of (x, y), or of the id pair. So the point map is modelled as a
  map keyed by (x, y) and the line map as a map keyed by the pair.
- **Self-loops.** For a side whose two end points share one key, the code
  stores +id and then -id under the same key (l1, l2) == (l2, l1). The map
  therefore holds -id while the curve loop received +id. The model does
  exactly this, as `OneDExample.SelfLoopQuirk` shows. In consequence, the
  sign guarantees are stated for sides with two distinct end points only.

## Model

| member | source | states |
|---|---|---|
| Geometry.PointLessIsStrictOrder | demo/oneDExample.cpp:29-38 | the point comparator is irreflexive, asymmetric and transitive |
| Geometry.PointLessIsTotalOnKeys | demo/oneDExample.cpp:29-38 | two points with different (x, y) are always ordered one way or the other |
| Geometry.SameKeyIffSameXY | demo/oneDExample.cpp:29-38 | two points are equivalent under the comparator exactly when their x and y agree; z is never consulted |
| Geometry.TopologyLessIsStrictOrder | demo/oneDExample.cpp:74-83 | the topology comparator is irreflexive, asymmetric and transitive |
| Geometry.SameTopologyIffEqual | demo/oneDExample.cpp:74-83 | two topologies are equivalent exactly when equal, so (a, b) and (b, a) are distinct keys unless a == b |
| Polygons.Polygon.constructor | demo/oneDExample.cpp:44 | a default polygon has no vertices and an empty name |
| Polygons.Polygon.FromVertex | demo/oneDExample.cpp:45 | a polygon built from a vertex list holds that list and the given name, "poly" by default |
| Polygons.Polygon.Value | demo/oneDExample.cpp:47-50 | the copy of a polygon holds its current vertices and name |
| Polygons.Polygon.Clear | demo/oneDExample.cpp:48 | clearing empties the vertex list and keeps the name |
| Polygons.Polygon.Append | demo/oneDExample.cpp:49 | appending adds exactly one vertex at the end and keeps the name |
| Polygons.Polygon.SetPoints | demo/oneDExample.cpp:51 | the vertex list is replaced and the name kept |
| Polygons.Polygon.SetName | demo/oneDExample.cpp:52 | the name is replaced and the vertices kept |
| Polygons.FillPoly1 | demo/oneDExample.cpp:122-139 | the reused polygon, cleared and refilled, holds exactly the eight vertices of poly_1 and its name |
| Polygons.FillPoly2 | demo/oneDExample.cpp:142-151 | the reused polygon holds exactly the four vertices of poly_2 and its name |
| Polygons.FillPoly3 | demo/oneDExample.cpp:154-163 | the reused polygon holds exactly the four vertices of poly_3 and its name |
| Polygons.FillPoly4 | demo/oneDExample.cpp:166-175 | the reused polygon holds exactly the four vertices of poly_4 and its name |
| Polygons.FillPoly5 | demo/oneDExample.cpp:178-195 | the reused polygon holds exactly the eight vertices of poly_5 and its name |
| Polygons.GeneratePolygons | demo/oneDExample.cpp:115-197 | the five demo polygons are appended, in order, after whatever the region held, which is left unchanged |
| Numbering.VisitPoint | demo/oneDExample.cpp:232-245 | after one vertex lookup the vertex's key is in the map and the yielded id is its entry; a known key changes nothing; a new key gets the counter value and one addPoint call for that point; the key set grows by that key only; lines are untouched |
| Numbering.PointLoopIds | demo/oneDExample.cpp:230-246 | `loop` has one id per vertex, and each is the id the final point map holds for that vertex's (x, y) |
| Numbering.PointLoopKeys | demo/oneDExample.cpp:230-246 | the keys known after a polygon's vertices are the old keys plus the keys of its vertices |
| Numbering.PointLoopGrows | demo/oneDExample.cpp:230-246 | walking the vertices only adds entries and calls, keeps old ids, never lowers a counter and leaves the line state alone |
| Numbering.PointLoopKeepsValid | demo/oneDExample.cpp:230-246 | the point invariant is preserved: the i-th addPoint carries tag i + 1, its key maps to i + 1, and the counter is one past the last call |
| Numbering.PointLoopCallsAreNew | demo/oneDExample.cpp:234-242 | every addPoint issued while walking a polygon is for a key unknown before the walk |
| Numbering.VisitPointKeepsValid | demo/oneDExample.cpp:232-245 | one vertex lookup preserves the point invariant |
| Numbering.InitialIsValid | demo/oneDExample.cpp:217-223 | the empty maps with both counters at 1 satisfy both invariants |
| Numbering.VisitEdge | demo/oneDExample.cpp:252-269 | a side absent in both directions gets the line counter value and one addLine call from l1 to l2; a side present either way leaves the state unchanged; afterwards one of its directions is in the map; points are untouched |
| Numbering.VisitEdgeSpec | demo/oneDExample.cpp:252-269 | under the line invariant: both directions are in the map afterwards; a side that is not a self-loop yields exactly its own direction's entry; a side seen before yields its stored id; a new side takes the counter value, advances it and logs one addLine; the id is nonzero and below the counter |
| Numbering.VisitEdgeKeepsValid | demo/oneDExample.cpp:252-269 | one side lookup preserves the line invariant: each key holds plus or minus the tag of the call that registered it or its reverse, and the counter is one past the last call |
| Numbering.EdgeLoopKeepsValid | demo/oneDExample.cpp:248-270 | walking a polygon's sides preserves the line invariant |
| Numbering.EdgeLoopGrows | demo/oneDExample.cpp:248-270 | walking the sides only adds line entries and calls and leaves the point state alone |
| Numbering.EdgeLoopMatches | demo/oneDExample.cpp:248-270 | every side walked, wrapping from the last vertex to the first, is in the map; its curve loop entry is the map's entry for it (for a non-self-loop side); the entry is nonzero and below the line counter |
| Numbering.EdgesMatchStep | demo/oneDExample.cpp:250-269 | one more side extends that match from the first j sides to the first j + 1 |
| Numbering.EdgeLoopCallsAreNew | demo/oneDExample.cpp:256-263 | every addLine issued while walking the sides is for a pair unknown in both directions before the walk |
| Numbering.PolygonKeys | demo/oneDExample.cpp:227-270 | one polygon adds exactly its vertices' keys to the point map |
| Numbering.PolygonKeepsValid | demo/oneDExample.cpp:227-270 | one polygon preserves both invariants |
| Numbering.PolygonMatches | demo/oneDExample.cpp:227-270 | a polygon's curve loop matches its sides, walked as pairs of the point ids of their end points |
| Numbering.RegionLoopStep | demo/oneDExample.cpp:225-276 | numbering one more polygon appends exactly that polygon's curve loop and continues from the state left by the earlier ones |
| Numbering.RegionLoopPrefix | demo/oneDExample.cpp:275 | polygons added later never change the curve loops already recorded in `domElelIds` |
| Numbering.RegionKeysKnown | demo/oneDExample.cpp:225-276 | the point keys known at the end are the old keys plus those of every vertex of the region |
| Numbering.RegionKeepsValid | demo/oneDExample.cpp:225-276 | numbering a region preserves both invariants |
| Numbering.RegionMatches | demo/oneDExample.cpp:225-276 | every entry of `domElelIds` matches its polygon's sides in the final state |
| Numbering.NumberingIsValid | demo/oneDExample.cpp:217-276 | from the initial state the final state satisfies both invariants and every curve loop matches its polygon |
| Numbering.PointIdsDense | demo/oneDExample.cpp:234-243 | under the point invariant no id is shared by two keys, ids lie in 1..N for N calls, and the i-th call's key holds i + 1 |
| Numbering.RegionPointIds | demo/oneDExample.cpp:217-276 | point ids are 1..N over exactly the N distinct (x, y) keys of the region; no two keys share an id; the addPoint calls carry tags 1..N in order, one per key |
| Numbering.LineCallsDistinct | demo/oneDExample.cpp:256-263 | two addLine calls never register the same undirected side |
| Numbering.LineIdsDense | demo/oneDExample.cpp:256-263 | under the line invariant, the i-th addLine carries tag i + 1; each key holds plus or minus v for v in 1..M, and call v registered that pair or its reverse; distinct calls are distinct undirected sides |
| Numbering.RegionLineIds | demo/oneDExample.cpp:217-276 | for the whole region the line counter is one past the M addLine calls and the line ids are dense and signed as above |
| Numbering.VisitEdgeKeys | demo/oneDExample.cpp:256-263 | a side unknown in both directions adds exactly its two directions to the line map's keys |
| Numbering.EdgeLoopKeys | demo/oneDExample.cpp:248-270 | walking the first j sides adds no line key other than those sides, either way round |
| Numbering.LoopKeysAreSideKeys | demo/oneDExample.cpp:248-270 | the sides walked as pairs of `loop` entries are the polygon's sides taken as pairs of point ids |
| Numbering.SideKeysGrow | demo/oneDExample.cpp:227-270 | a polygon's sides, as pairs of point ids, stay the same pairs while the maps grow |
| Numbering.PolygonLineKeys | demo/oneDExample.cpp:227-270 | one polygon adds no line key other than its own sides, either way round |
| Numbering.SideKeysIn | demo/oneDExample.cpp:248-270 | under the line invariant both directions of every side of a matching polygon are line keys |
| Numbering.RegionSideKeysGrow | demo/oneDExample.cpp:225-276 | the sides of the first n polygons stay the same pairs while the maps grow |
| Numbering.RegionLineKeysStep | demo/oneDExample.cpp:225-276 | one more polygon keeps the line keys within the sides of the polygons numbered so far |
| Numbering.RegionLineKeysAdded | demo/oneDExample.cpp:225-276 | numbering the first n polygons adds no line key other than their sides, either way round |
| Numbering.RegionSideKeysIn | demo/oneDExample.cpp:225-276 | under the line invariant both directions of every side of the first n matching polygons are line keys |
| Numbering.RegionLineKeys | demo/oneDExample.cpp:217-276 | for the whole region the line map's keys are exactly the polygons' sides in both directions, and every addLine call registers one of them; with RegionLineIds, the M calls are one per distinct undirected side |
| Numbering.CurveLoopIdsAgree | demo/oneDExample.cpp:248-270 | under the line invariant two matching curve loops agree as their sides do: same directed side, same id; reversed side, negated id; equal ids up to sign, same undirected side; a proper side's id is nonzero |
| Numbering.SharedEdgeIds | demo/oneDExample.cpp:224-276 | in the region's numbering, two non-self-loop sides with the same pair of point ids get the same id, reversed pairs get opposite ids, and equal ids up to sign come from the same or the reversed pair |
| Numbering.SideIds | demo/oneDExample.cpp:224-276 | for sides with distinct end points: two sides get the same line id exactly when they run between the same two (x, y) points in the same direction, and opposite ids exactly when they run in opposite directions |
| OneDExample.NumberVertices | demo/oneDExample.cpp:227-246 | the vertex loop over local map, counter and call log yields the state and `loop` of the numbering function, one id per vertex, each the map's id for that vertex |
| OneDExample.NumberEdges | demo/oneDExample.cpp:247-270 | the side loop with the explicit wrap to loop[0] yields the state and `curveloop` of the numbering function; under the line invariant the curve loop matches the sides |
| OneDExample.NumberPolygon | demo/oneDExample.cpp:227-270 | one pass of the outer loop's body computes exactly one polygon's numbering |
| OneDExample.NumberRegion | demo/oneDExample.cpp:217-276 | starting from empty maps and counters at 1, the outer loop fills the sized `domElelIds` with exactly the curve loops of the numbering function, one per polygon |
| OneDExample.NumberDemoRegion | demo/oneDExample.cpp:209-276 | the generated region is the five demo polygons, its `domElelIds` is their numbering, and poly_2 and poly_5 reuse the sides they share, with opposite signs |
| OneDExample.DemoSharedSides | demo/oneDExample.cpp:115-276 | in the demo every side shared by two polygons gets opposite ids in them (six shared sides), and two sides meeting at (2, 1) stay different lines |
| OneDExample.SelfLoopQuirk | demo/oneDExample.cpp:232-269 | two vertices differing only in z give one addPoint and point id 1 twice; the self-loop side (1, 1) gets line 1 and then reads back -1, which the map keeps |

## Left out

- The kernel calls other than `addPoint` and `addLine` are not modelled, because their effects are inside gmsh. These are `addCurveLoop`, `addPhysicalGroup`, `setPhysicalName`, `addPlaneSurface`, `synchronize`, mesh generation, model and option setup, `write` and `finalize`.
- The mesh-size argument `lc` of `addPoint` is not modelled. It is a constant that plays no part in the numbering.
- The post-meshing bookkeeping is not modelled, because it depends entirely on the mesher's output: reading the mesh nodes into a `vector<Point>` (demo/oneDExample.cpp:295-310), overwriting one local `Element` per mesh element without storing it (315-330), reading the boundary node ids of physical group 1 (332-346), and collecting `boundaryElementsIds` for the first polygon's lines (348-379). The `Segment` and `Element` classes (demo/oneDExample.cpp:84-112) and the default key of a `Topology` are used only there and are not part of this model.
- Timing with `clock()` and console output are not modelled, because they do not affect the numbering.
- Coordinates are integers rather than `double`. The numbering only compares them with `==` and `<`, and the demo data is integral. NaN and signed zero are therefore not modelled.
- The point and line counters are unbounded integers. A 32-bit `int` overflow would need more than 2^31 points or lines and is not modelled.
- The two-dimensional, three-dimensional and build-only demos are not part of this model.
- The unused local variables of `generatePolygons` are dropped. Its five fill-and-copy blocks are written as the helper methods `FillPoly1` to `FillPoly5`.
- Numbering.SharedEdgeIds, Numbering.SideIds, Numbering.CurveLoopIdsAgree and Numbering.EdgeLoopMatches: stated for sides that are not self-loops only. For a self-loop the code itself keeps -id in the map after pushing +id, as shown above.
- OneDExample.NumberRegion: does not itself restate the invariants and the curve-loop match. These follow from its equality with `RegionLoop` through `Numbering.NumberingIsValid`.
