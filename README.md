# dxfCpp geometry and viewing core, in Dafny

A model of the parts of the dxfCpp DXF viewer that compute things rather than call
OpenGL or Qt. It covers:

- the shared tolerance and the bulge-to-centre construction (`include/MathHelper.h`);
- the straight segment–segment solver and the all-pairs polyline intersection with
  its sort (`src/MathHelper.cpp`);
- the constructors that turn DXF entities into point buffers: `Polyline` (vertex
  capture, closed flag, bulge-arc flattening), `Arc` (angle wrap, uniform sampling)
  and `Circle` (closed loop, uniform sampling);
- the `Camera2D` state and the view part of its matrix (`include/Camera.h`,
  `src/Camera.cpp`);
- the entity-list bookkeeping of `Render2D`: append, clear, highlight, first-match
  picking, the screen-to-world y flip, the wheel's zoom factor and resize.

Coordinates are `real`. `EPSILON` is 1e-6, and every comparison the source makes
against it is kept, strict or inclusive as written. `sqrt`, `sin`, `cos`, `atan2` and
π are the fields of a `MathLib` value passed to each operation that needs them. What
a proof may assume about them is stated as a law that the proof requires:

- `SqrtLaw`: the non-negative root.
- `PythagoreanLaw`: cos² + sin² = 1.
- `ZeroAngleLaw`: cos 0 = 1 and sin 0 = 0.
- `Atan2Range`: values in (−π, π].

Code that mutates state is imperative Dafny: classes with fields and `modifies`
clauses, and loops proved against specification functions (`Hits`, `Capture`,
`Flatten`, `ArcSamples`, `Samples`, `FirstHit`). Pure code is functions and lemmas.

Facts about the code that shape the model:

- Intersection works only on straight segments of flat point buffers.
- The results are ordered with `std::sort`, which is not stable. Only "sorted by
  (segIndexA, paramA), and a permutation of the hits" is promised.
- With fewer than two points in either buffer the result is empty.
- The parallel test compares the raw cross product of the two direction vectors with
  EPSILON. Short segments that do cross can therefore be missed (`ShortCrossingMissed`).
- `CenterFromBulge` offsets the centre by chordLen / (4·bulge). The
  tangent-of-quarter-angle convention would give chordLen·(1 − bulge²) / (4·bulge). The
  model keeps the code's formula and proves only what it gives: the centre lies on the
  chord's bisector, at equal distance from both ends.

## Model

| member | source | states |
|---|---|---|
| MathHelper.IsZero | include/MathHelper.h:5-8 | a value is zero exactly when it lies in [−1e-6, 1e-6], both ends included |
| MathHelper.CenterFromBulge | include/MathHelper.h:12-16 | a zero bulge (within tolerance) puts the centre at the chord midpoint |
| MathHelper.Normalize | include/MathHelper.h:30 | glm::normalize of a non-zero vector: a unit vector pointing the same way (zero cross product with the input, positive dot product) |
| MathHelper.NormalizeFacts | include/MathHelper.h:30 | the length glm::normalize divides by is positive, and the quotient is a unit vector pointing the same way |
| MathHelper.PerpendicularUnit | include/MathHelper.h:29-30 | the normalised left normal of a non-degenerate chord has length 1, is orthogonal to the chord and lies on its left |
| MathHelper.CenterOnBisector | include/MathHelper.h:18-33 | for a non-zero bulge the centre's offset from the midpoint is orthogonal to the chord, with signed area chordLen² / (4·bulge) against it |
| MathHelper.CenterEquidistant | include/MathHelper.h:12-33 | for every bulge the centre is equally far from both chord ends, so one circle passes through both |
| MathHelper.CenterOffset | include/MathHelper.h:23-33 | the centre is chordLen / (4·\|bulge\|) from the midpoint (squared form), on the chord's left exactly when the bulge is positive |
| MathHelper.Clamp01 | src/MathHelper.cpp:33-34 | the clamp lands in [0, 1], keeps values already inside, and sends values below to 0 and above to 1 |
| MathHelper.SegmentIntersect | src/MathHelper.cpp:4-38 | no hit when \|cross\| < EPSILON (parallel or degenerate); on a hit both parameters lie in [0, 1] and the point is a1 + tA·(a2 − a1) |
| MathHelper.LinesMeet | src/MathHelper.cpp:20-25 | non-parallel lines meet at the parameters the two determinant quotients give |
| MathHelper.MeetingIsUnique | src/MathHelper.cpp:20-25 | the lines meet at no other parameters |
| MathHelper.SegmentIntersectMeeting | src/MathHelper.cpp:17-36 | when \|cross(dA, dB)\| ≥ EPSILON and the lines meet at (s, t), a hit is reported exactly when both lie in [−EPSILON, 1 + EPSILON], and it carries the clamped parameters and the point at the clamped tA |
| MathHelper.CrossingFound | src/MathHelper.cpp:14-36 | when \|cross(dA, dB)\| ≥ EPSILON, segments that cross at parameters in [0, 1] are found, at those parameters, and the point lies on both segments |
| MathHelper.ShortCrossingMissed | src/MathHelper.cpp:14-18 | two segments of length h ≤ 0.0009 crossing at right angles at their midpoints are reported as no hit, because the raw cross product h² is below EPSILON |
| MathHelper.DegenerateSegmentMisses | src/MathHelper.cpp:14-18 | a zero-length segment never intersects anything |
| PolylineIntersection.FlatPolyline.SegmentEnd | src/MathHelper.cpp:52-61 | segment i ends at point (i + 1) mod n, which is i + 1 except for the closing segment of a closed polyline, which ends at point 0 |
| PolylineIntersection.PairHit | src/MathHelper.cpp:66-72 | a result for pair (i, j) carries segIndexA = i and segIndexB = j |
| PolylineIntersection.PolylineIntersect | src/MathHelper.cpp:40-86 | the result is ordered by (segIndexA, paramA) and is a permutation of the hits of every segment pair |
| PolylineIntersection.Scan | src/MathHelper.cpp:55-75 | the two nested loops push exactly the hits of all pairs, in (i, j) order |
| PolylineIntersection.ScanRow | src/MathHelper.cpp:60-74 | the inner loop for segment i of A pushes exactly the hits of i against every segment of B, in j order |
| PolylineIntersection.TestPair | src/MathHelper.cpp:61-73 | one inner iteration yields the result of testing segment i of A against segment j of B |
| PolylineIntersection.SegmentPoints | src/MathHelper.cpp:56-58 | the segment's end points are read from the buffer at points i and (i + 1) mod n |
| PolylineIntersection.SortedCopy | src/MathHelper.cpp:77-83 | the sorted copy is ordered by (segIndexA, paramA) and holds the same results with the same multiplicities |
| PolylineIntersection.SortOnA | src/MathHelper.cpp:77-83 | the in-place sort with the source's comparator leaves the buffer ordered and a permutation of what it held |
| PolylineIntersection.RowHitsMembership | src/MathHelper.cpp:60-74 | a result is in row i after j tests exactly when its indices are (i, j') with j' < j and testing that pair yields it |
| PolylineIntersection.ScanHitsMembership | src/MathHelper.cpp:55-75 | a result is among the first i rows exactly when segIndexA < i, segIndexB is a segment of B and testing that pair yields it |
| PolylineIntersection.HitsMembership | src/MathHelper.cpp:46-75 | a result is collected exactly when both buffers hold two or more points, its indices name a segment of each polyline, and SegmentIntersect on that pair yields it |
| PolylineIntersection.JoinInScanOrder | src/MathHelper.cpp:55-75 | two runs in (i, j) order, the first wholly before the second, join into one run in that order |
| PolylineIntersection.RowHitsOrdered | src/MathHelper.cpp:60-74 | a row's results all have segIndexA = i and come in strictly increasing segIndexB |
| PolylineIntersection.ScanHitsOrdered | src/MathHelper.cpp:55-75 | the first i rows come in strictly increasing (segIndexA, segIndexB), all with segIndexA < i |
| PolylineIntersection.HitsOnePerPair | src/MathHelper.cpp:55-75 | before sorting, the results are strictly increasing in (segIndexA, segIndexB), so each pair contributes at most one result |
| PolylineIntersection.PairHitParams | src/MathHelper.cpp:66-72 | every collected result has paramA and paramB in [0, 1] |
| PolylineIntersection.PairHitOnSegmentA | src/MathHelper.cpp:66-72 | every collected point lies on its segment of A, at paramA |
| PolylineEntity.Capture | src/Entities/Polyline.cpp:7-15 | capture never stores more vertices than the list holds |
| PolylineEntity.ArcInterior | src/Entities/Polyline.cpp:55-62 | count interpolated points take 2·count floats |
| PolylineEntity.ArcEdgeCount | src/Entities/Polyline.cpp:35 | at most one arc per edge: the count of arc edges never exceeds the count of vertices |
| PolylineEntity.Flatten | src/Entities/Polyline.cpp:21-64 | after count iterations the buffer holds 2·(count + 15·k) floats, k being the number of arc edges among them |
| PolylineEntity.Polyline.constructor | src/Entities/Polyline.cpp:4-65 | stores the captured vertices, the closed flag read from bit 0, and their flattened buffer |
| PolylineEntity.CaptureVertices | src/Entities/Polyline.cpp:7-15 | the first loop keeps the non-null entries, converted, in list order |
| PolylineEntity.FlattenVertices | src/Entities/Polyline.cpp:20-64 | the second loop produces the whole flattened buffer |
| PolylineEntity.EmitEdge | src/Entities/Polyline.cpp:22-63 | one iteration pushes the vertex, then the arc's interior points exactly when the bulge is non-zero and a next vertex exists |
| PolylineEntity.InterpolateArc | src/Entities/Polyline.cpp:36-62 | the arc part computes the centre, both angles with the direction fix and the radius, and pushes the 15 interior points of that sweep |
| PolylineEntity.SampleSweep | src/Entities/Polyline.cpp:55-62 | the sampling loop pushes the points at steps s = 1 .. 15 of the sweep, in order |
| PolylineEntity.CaptureAppend | src/Entities/Polyline.cpp:7-15 | capturing a concatenation captures each part in order |
| PolylineEntity.CaptureSingle | src/Entities/Polyline.cpp:8-14 | a null entry contributes nothing and a present entry contributes exactly its converted vertex |
| PolylineEntity.CaptureMembership | src/Entities/Polyline.cpp:7-15 | a vertex is stored exactly when it occurs, non-null, in the list |
| PolylineEntity.CaptureAllPresent | src/Entities/Polyline.cpp:7-15 | a list without null entries is stored whole, each vertex at its own index |
| PolylineEntity.ClosedFlagBit | src/Entities/Polyline.cpp:17 | only bit 0 of the flag word decides closedness; flags 1 and −1 are closed and 0 is open |
| PolylineEntity.IsClosed | src/Entities/Polyline.cpp:17 | the closed flag is bit 0 of the flag word: set exactly when the word is odd |
| PolylineEntity.NextIndex | src/Entities/Polyline.cpp:27-32 | the next vertex is another vertex of the list; it is missing exactly for the last vertex of an open polyline or of a one-vertex list |
| PolylineEntity.NextIndexWraps | src/Entities/Polyline.cpp:27-32 | the next index, when it exists, is (i + 1) mod n |
| PolylineEntity.OpenLastVertexNoArc | src/Entities/Polyline.cpp:27-35 | the last vertex of an open polyline never emits arc points, whatever its bulge |
| PolylineEntity.PolylineLength | src/Entities/Polyline.cpp:21-62 | the output holds 2·(n + 15·k) floats for n vertices of which k start an arc edge |
| PolylineEntity.FlattenPrefix | src/Entities/Polyline.cpp:21-64 | the buffer only grows: its state after fewer iterations is a prefix of its state after more |
| PolylineEntity.VertexInOutput | src/Entities/Polyline.cpp:22-24 | every stored vertex appears in the output, at point index i + 15·(arc edges before it) |
| PolylineEntity.VertexSlotStep | src/Entities/Polyline.cpp:21-62 | consecutive vertices are 16 points apart after an arc edge and 1 point apart otherwise, so vertices appear in order |
| PolylineEntity.ArcInteriorAt | src/Entities/Polyline.cpp:55-62 | interior point s of a sweep is the circle point at angle1 + (s/16)·(angle2 − angle1) |
| PolylineEntity.ArcPointInEdge | src/Entities/Polyline.cpp:35-62 | after iteration i, the s-th point after vertex i is step s of that edge's arc |
| PolylineEntity.ArcPointInOutput | src/Entities/Polyline.cpp:35-62 | in the final output, the s-th point after vertex i (1 ≤ s ≤ 15) of an arc edge is step s of that edge's arc |
| PolylineEntity.FixDirection | src/Entities/Polyline.cpp:50-52 | the fix moves the end angle by at most one whole turn, so it names the same point of the circle; a zero bulge leaves it unchanged |
| PolylineEntity.BulgeArc | src/Entities/Polyline.cpp:43-54 | an edge's sweep is centred where CenterFromBulge puts it, and its radius is the non-negative distance from the centre to the first vertex |
| PolylineEntity.DirectionFixed | src/Entities/Polyline.cpp:50-52 | with both raw angles in (−π, π], the fixed end angle lies within one turn above the start for a positive bulge and within one turn below it for a negative one |
| PolylineEntity.SweepFollowsBulge | src/Entities/Polyline.cpp:43-52 | given the atan2 range, an edge's sweep is never opposite to its bulge and spans less than a full turn |
| PolylineEntity.SweepAnglesMonotone | src/Entities/Polyline.cpp:55-57 | the interpolated angles run monotonically from angle1 (s = 0) to angle2 (s = 16), in the sweep's direction |
| PolylineEntity.RadiusReachesBothEnds | src/Entities/Polyline.cpp:44-54 | the centre is as far from the next vertex as from the first, so the radius reaches both chord ends |
| PolylineEntity.InterpolatedOnCircle | src/Entities/Polyline.cpp:54-59 | every interpolated output point lies on the circle through both ends of its edge |
| ArcEntity.ArcSamples | src/Entities/Arc.cpp:17-23 | count samples take 2·count floats |
| ArcEntity.Arc.constructor | src/Entities/Arc.cpp:4-24 | stores the samples at start + i·step for i = 0 .. segments, step being the wrapped range over segments; none for −1 |
| ArcEntity.ArcLength | src/Entities/Arc.cpp:16-23 | segments + 1 points for a positive count, none for −1 |
| ArcEntity.ArcSamplesAt | src/Entities/Arc.cpp:17-22 | point i of the buffer is the circle point at angle start + i·step |
| ArcEntity.WrappedEnd | src/Entities/Arc.cpp:8-11 | the wrapped end is the end itself or one turn above it, and it is not below the start when the end was at most one turn below it |
| ArcEntity.ArcStep | src/Entities/Arc.cpp:13-14 | `segments` steps cover the wrapped range exactly |
| ArcEntity.WrapRange | src/Entities/Arc.cpp:8-11 | the end moves up one turn exactly when it lies below the start; when the end lies within one turn of the start, the swept range then lies in [0, 2π) |
| ArcEntity.EndAngles | src/Entities/Arc.cpp:13-18 | sample 0 is at the start angle and sample `segments` at the wrapped end angle |
| ArcEntity.ArcAnglesMonotone | src/Entities/Arc.cpp:13-18 | with a non-negative wrapped range the sample angles do not decrease |
| ArcEntity.ArcOnCircle | src/Entities/Arc.cpp:17-22 | every sample lies at distance \|radius\| from (cx, cy) |
| ArcEntity.ArcEndPoints | src/Entities/Arc.cpp:17-22 | the first and last points are the circle points at the start angle and at the wrapped end angle |
| CircleEntity.SampleAngle | src/Entities/Circle.cpp:10-14 | sample i sits at i / segments of a full turn |
| CircleEntity.Samples | src/Entities/Circle.cpp:12-20 | count samples take 2·count floats |
| CircleEntity.Circle.constructor | src/Entities/Circle.cpp:5-21 | marks the entity closed and stores the samples at i·2π/segments for i = 0 .. segments − 1 |
| CircleEntity.CircleLength | src/Entities/Circle.cpp:8-20 | exactly `segments` points, none for zero segments |
| CircleEntity.SamplesAt | src/Entities/Circle.cpp:12-20 | point k of the buffer is the circle point at angle k·2π/segments |
| CircleEntity.CirclePointAt | src/Entities/Circle.cpp:12-20 | the same, for the stored buffer |
| CircleEntity.AnglesBelowFullTurn | src/Entities/Circle.cpp:10-14 | every sample angle lies in [0, 2π), so the start point is not repeated at the end |
| CircleEntity.FirstPoint | src/Entities/Circle.cpp:14-16 | point 0 is (cx + radius, cy) |
| CircleEntity.PointsOnCircle | src/Entities/Circle.cpp:15-16 | every point lies at distance \|radius\| from (cx, cy) |
| Sampling.OnCircle | src/Entities/Circle.cpp:15-16 | given cos² + sin² = 1, (cx + r·cos θ, cy + r·sin θ) lies at distance \|r\| from the centre |
| Sampling.AtZeroAngle | src/Entities/Circle.cpp:14-16 | angle 0 gives the point (cx + r, cy) |
| Camera.Camera2D.constructor | include/Camera.h:7-9 | stores the viewport size; the view is the identity (zoom 1, offset 0) |
| Camera.Camera2D.SetViewport | include/Camera.h:11-14 | changes the viewport size only; zoom and offset are kept |
| Camera.Camera2D.Reset | include/Camera.h:18 | restores the identity view and keeps the viewport size |
| Camera.Camera2D.Pan | src/Camera.cpp:2-4 | adds (dx, dy) to the offset, keeping zoom and viewport |
| Camera.Camera2D.ZoomAt | src/Camera.cpp:6-10 | zoom becomes zoom·f and offset becomes m − (m − offset)·f; the viewport is kept |
| Camera.IdentityView | include/Camera.h:20-23 | a new or reset camera maps every point to itself |
| Camera.ZoomIsHomothety | src/Camera.cpp:6-10 | zooming about m is the scaling by f centred on m, applied after the old view |
| Camera.ZoomKeepsCursorFixed | src/Camera.cpp:6-10 | a point the view sends to m is still sent to m after zooming about m |
| Camera.ZoomByOne | src/Camera.cpp:8-9 | zooming by 1 changes nothing |
| Camera.ZoomsCompose | src/Camera.cpp:8-9 | zooming by f1 and then f2 about m equals zooming once by f1·f2 about m |
| Camera.PansCompose | src/Camera.cpp:2-4 | pans add up, in either order |
| Camera.PanShiftsImage | src/Camera.cpp:2-4 | a pan moves every image point by (dx, dy) and keeps the zoom |
| Camera.OrthoCorners | include/Camera.h:27 | the projection sends (0, 0), (width, height) and the viewport centre to (−1, −1), (1, 1) and (0, 0) |
| Camera.ViewTransform.Apply | include/Camera.h:21-23 | the view map p ↦ offset + zoom·p; for a non-zero zoom, removing the offset and dividing by the zoom gives p back |
| Camera.Ortho | include/Camera.h:27 | glm::ortho(0, width, 0, height) on a point: the clip coordinates c determine the point as ((c + 1)·width/2, (c + 1)·height/2) |
| Camera.Camera2D.Project | include/Camera.h:20-28 | getMatrix applied to a point: the view map, then the projection, whose clip coordinates give back the view image |
| Camera.OrthoMonotone | include/Camera.h:27 | for a positive viewport the projection preserves the order of coordinates |
| Entities.Entity.constructor | include/Entities/Entity.h:34-36 | a new entity holds no GL objects (both handles 0) |
| Entities.Entity.DeleteBuffers | src/Entities/Entity.cpp:17-29 | with a GL function table both handles end at 0; without one nothing changes |
| Entities.Entity.SetAlpha | src/Render2D.cpp:193-196 | sets the alpha and keeps the GL handles |
| Render.FirstHit | src/Render2D.cpp:207-212 | the index found is accepted and no earlier entity is; none is found only when no entity is accepted |
| Render.Render2D.constructor | src/Render2D.cpp:29-34 | stores the size and starts with no entities and a fresh camera of that viewport with the identity view |
| Render.Render2D.AddEntity | src/Render2D.cpp:41-44 | appends the entity at the end, keeping the earlier ones |
| Render.Render2D.ClearEntities | src/Render2D.cpp:182-187 | every entity first releases its GL objects, when a function table is given; then the list is empty |
| Render.Render2D.HighlightEntity | src/Render2D.cpp:189-199 | every listed entity gets alpha 1.0 when nothing is selected or it is the selection, and 0.2 otherwise; the list and the GL handles are unchanged |
| Render.Render2D.PickEntity | src/Render2D.cpp:201-213 | returns the first entity, in list order, whose hit test accepts the position with tolerance 5/scale, or null when none does |
| Render.Render2D.HandlePan | src/Render2D.cpp:111-114 | pans the camera by (dx, dy) |
| Render.Render2D.HandleZoom | src/Render2D.cpp:116-121 | zooms the camera by 1.1 or 0.9 about the cursor's position after the y flip |
| Render.Render2D.Resize | src/Render2D.cpp:101-105 | stores the new size and forwards it to the camera's viewport; the view and the entity list are kept |
| Render.ScreenToWorld | src/Render2D.cpp:169-174 | keeps x and flips y about the window height (world y + screen y = height) |
| Render.ZoomFactor | src/Render2D.cpp:118 | the factor is 1.1 exactly for a positive wheel delta and 0.9 exactly otherwise |
| Render.HighlightAlpha | src/Render2D.cpp:192-197 | alpha 1.0 exactly when nothing is selected or the entity is the selection, 0.2 otherwise |
| Render.FirstHitIsFirstMatch | src/Render2D.cpp:207-212 | if entity k is accepted and no earlier one is, the search returns k; if none is accepted, it returns nothing |
| Render.ScreenToWorldInvolution | src/Render2D.cpp:169-174 | the y flip applied twice restores the screen position |
| Render.ZoomFactorDirection | src/Render2D.cpp:118 | the wheel zooms in exactly for a positive delta; a zero delta zooms out; the factor is always positive |
| Render.WheelKeepsCursorPoint | src/Render2D.cpp:116-121 | a wheel step keeps the world point under the cursor where it was on screen |

## Left out

- All OpenGL and Qt work is not modelled: shaders, `initGL`, `setupProjection`,
  `render`, `glViewport`, every `createBuffers` and `draw`, and the widget and event
  loop. Deleting GL objects is modelled only as zeroing the two handles.
- The DXF loader (`src/Dxfloader.cpp`) is not part of this model. Its LWPOLYLINE
  record enters only as the vertex list and flag word given to the Polyline
  constructor.
- `Axis` and `Line` entities are left out: they only store constant or given
  coordinates for GL.
- Float rounding, float-to-double conversions and `M_PI` versus `glm::pi` are not
  modelled. Coordinates and angles are `real`, and π is one value.
- Cases where the source computes NaN or infinity are excluded by preconditions rather
  than modelled:
  - a zero-length chord with a non-zero bulge, where `glm::normalize` divides by zero
    (`ArcChordsDistinct`, and `p1 != p2` on the centre lemmas);
  - an Arc with zero segments;
  - a zero viewport in the projection;
  - a zero camera scale when picking.
- Arc.constructor requires `segments > 0` or `segments == -1`, and Circle.constructor
  requires `segments >= 0`. A count below −1 (Arc) or below 0 (Circle) makes the
  source's `reserve` throw `length_error`, and exceptions are not modelled. An Arc with
  zero segments divides by zero, the NaN case listed above.
- Render.Render2D.PickEntity: `getMouseWorldPos` calls camera getters that
  `include/Camera.h` does not declare, so the world position and the scale are
  parameters.
- Render.Render2D.PickEntity: `hitTest` is not declared in `Entity.h`, so it is an
  arbitrary function parameter.
- `setAlpha` is not declared in `Entity.h` either, so alpha is modelled as a plain
  field.
- Entities.Entity.constructor: the initial alpha is not promised, because no
  declaration in the source gives it.
- `setColor`, `getColor` and `getType` are not modelled.
- Entity inheritance is not modelled. `Polyline`, `Arc` and `Circle` are separate
  classes holding only their own fields, and `Entity` holds only the GL handles and
  the alpha.
- Render.Render2D: the camera is a constant reference to a `Camera2D` object rather
  than a member held by value. Only `HandlePan`, `HandleZoom` and `Resize` change it.
- PolylineIntersection.SortOnA: `std::sort`'s algorithm and its order among ties are
  not modelled. An insertion sort with the same comparator stands in, and only
  "ordered and a permutation" is promised, as for `std::sort`.
- PolylineIntersection.ScanRow: the loop bodies are split into helper methods. The
  end points of segment i of A are read once per pair rather than once per row, which
  gives the same values because the buffer is not modified.
- PolylineEntity.Polyline.constructor: its two loops, the iteration body and the arc
  sampling are split into helper methods (`CaptureVertices`, `FlattenVertices`,
  `EmitEdge`, `InterpolateArc`, `SampleSweep`).
- MathHelper.CenterFromBulge: no lemma claims that the drawn sweep matches the bulge's
  included angle. The source's offset formula does not give that, and the model keeps
  the source's formula.
