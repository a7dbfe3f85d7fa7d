# Mesh2d stroke tessellator and mesh containers

This project models the core of iShape Mesh2d, a small Unity library that builds 2D triangle meshes:

- **`PathStroke`** turns a polyline into the triangle mesh of its stroke. The path may be open or closed.
  - Each segment becomes a *ribbon*: a strip of quads of width `Width`. With `n = (int)(length / step + 0.5)`, the strip has `max(n, 1)` quads: the loop adds `n - 1` and one last quad is always added.
  - Each turn between two segments gets a *round join*: a fan of triangles on the outer side of the turn. With `n = (int)(acos(dot) / (π/8) + 0.5)`, the fan has `max(n, 1)` triangles. A turn whose normals have a cross product below `0.000001` in absolute value gets no join, whichever way it turns.
  - An open path may get a half-disc *cap* of 8 triangles at either end.
- **`PrimitiveShape`** fills a rectangle (two triangles) and a circle (a fan around the centre).
- **`PrimitiveStroke`** outlines an edge, a rectangle, a circle and a soft star by stroking their point paths.
- **`Segment`**, **`StrokeStyle`** and **`math2d`** supply the segment geometry, the stroke step and the vector helpers: cross product, rotation matrix and `Ortho`.
- **The mesh containers:**
  - `StaticPrimitiveMesh` holds fixed arrays.
  - `NativePrimitiveMesh` holds growable lists.
  - `NativeColorMesh` and `NativeTextureMesh` add a per-vertex colour or texture coordinate.
  - The three list-based meshes can append another mesh, shifting its indices past the existing vertices. `StaticPrimitiveMesh` cannot append. It can shift its indices or z in place. `NativePrimitiveMesh` and `NativeColorMesh` can also shift and clear; `NativeTextureMesh` can clear.
- **The `Bounds` extensions** of `BoundaryUtil` and `VertexUtil` compute the box of a vertex list.

## How the model is organised

Single-precision floats are exact reals. `math.sqrt`, `acos`, `cos` and `sin` are uninterpreted functions in a `Libm` record that the caller passes in, together with `π`. Where a property needs a true square root, the contract asks for it at the one point used (`IsSqrtAt`).

The generator is modelled in two layers:

- **`StrokeSpec`** is a functional specification on a `Buffers(vertices, triangles)` value:
  - `Ribbon`, `Joint` and `Cap` describe what each helper appends;
  - `ClosedChain` and `OpenChain` describe the drivers after `k` iterations;
  - `ClosedStrokeSpec` and `OpenStrokeSpec` describe the finished strokes.
- **`PathStroke`** holds the helpers and drivers as the C# code writes them:
  - loops that append to the vertex and index lists, with running `prev`/`index` counters and a rotated `ortho`;
  - each method proved equal to its specification function.

`StrokeProperties` proves what the stroke promises about the specification: segment and fan shapes, and that every index of a finished stroke names a vertex and no triangle of it repeats a vertex. `StrokeProperties` does not import `PathStroke`.

The containers are classes whose `seq` fields stand for `NativeList`s and whose `array` fields stand for `NativeArray`s. Their methods state the new contents through `MeshIndex.Append`, `Offset` and `ShiftedZ`, whose algebra is proved in `MeshIndex`.

## Model

| member | source | states |
|---|---|---|
| Math2d.CrossAntisymmetric | Runtime/iShape/Mesh2d/math2d.cs:11-13 | swapping the arguments of `cross` negates it |
| Math2d.CrossSelfIsZero | Runtime/iShape/Mesh2d/math2d.cs:11-13 | a vector crossed with itself gives 0, so parallel normals count as a straight turn |
| Math2d.RotationUndone | Runtime/iShape/Mesh2d/math2d.cs:16-21 | when cos² + sin² = 1, the matrix for the opposite angle undoes the rotation: `M(-a)·(M(a)·v) = v` |
| Math2d.RotationPreservesLength | Runtime/iShape/Mesh2d/math2d.cs:16-21 | when cos² + sin² = 1, the matrix keeps the length of every vector, so fan points stay at radius `r` |
| Math2d.RotationTurnsBySine | Runtime/iShape/Mesh2d/math2d.cs:16-21 | `cross(v, M·v) = sin · |v|²`: a positive sine turns counter-clockwise |
| Math2d.Ortho | Runtime/iShape/Mesh2d/math2d.cs:24-44 | for a near-vertical input the result is the horizontal unit vector `(±1, 0)` |
| Math2d.OrthoNearVertical | Runtime/iShape/Mesh2d/math2d.cs:25-31 | below the 1e-6 threshold the result is `(1, 0)` exactly when `clockwise` agrees with `y > 0`, and `(-1, 0)` otherwise |
| Math2d.OrthoRadicandPositive | Runtime/iShape/Mesh2d/math2d.cs:33-35 | `qy = 1 / (1 + k²)` is positive, and `(1 + k²) · qy = 1` |
| Math2d.OrthoPerpendicular | Runtime/iShape/Mesh2d/math2d.cs:33-43 | above the threshold the result is `±(x0, y0)` with `x0 = -k·y0`, perpendicular to the input |
| Math2d.OrthoUnit | Runtime/iShape/Mesh2d/math2d.cs:33-43 | with a true square root, the result has unit length |
| Math2d.OrthoCandidateNotParallel | Runtime/iShape/Mesh2d/math2d.cs:33-38 | the candidate `(x0, y0)` is never parallel to the input, so the side test `ab` is never 0 |
| Math2d.OrthoSide | Runtime/iShape/Mesh2d/math2d.cs:38-43 | `clockwise` holds exactly when the result lies clockwise of the input (negative cross product) |
| Segments.Segment.Ortho | Runtime/iShape/Mesh2d/Generator/Segment.cs:12 | the normal is perpendicular to the direction, equally long, and turned a quarter turn counter-clockwise from it |
| Segments.NewSegment | Runtime/iShape/Mesh2d/Generator/Segment.cs:14-25 | the segment keeps its endpoints `a` and `b` |
| Segments.SegmentGeometry | Runtime/iShape/Mesh2d/Generator/Segment.cs:14-25 | the length is the positive root of the squared distance, and `length · direction = b - a` |
| Segments.DirectionIsUnit | Runtime/iShape/Mesh2d/Generator/Segment.cs:19-24 | the direction has unit length |
| Segments.OrthoIsUnitLeftNormal | Runtime/iShape/Mesh2d/Generator/Segment.cs:12-24 | the normal of a constructed segment is a unit vector at a left angle to the direction (dot 0, cross 1) |
| Style.NewStrokeStyle | Runtime/iShape/Mesh2d/StrokeStyle.cs:11-17 | keeps width and point count; the step is at least twice the width and at least `MinSegmentStep`, and equals one of them |
| Style.StepIsMaximum | Runtime/iShape/Mesh2d/StrokeStyle.cs:14-15 | the step is `max(2·Width, MinSegmentStep)`, positive because the width is |
| Style.DefaultStrokeStyle | Runtime/iShape/Mesh2d/StrokeStyle.cs:11 | the default arguments give width 0.1, step 0.2 and 16 points |
| MeshIndex.Append | Runtime/iShape/Mesh2d/NativePrimitiveMesh.cs:31-39 | appending a mesh adds up both the vertex counts and the index counts |
| MeshIndex.AppendOffsetValid | Runtime/iShape/Mesh2d/NativePrimitiveMesh.cs:31-39 | indices shifted by the old vertex count name the appended vertices, so the index list stays valid |
| MeshIndex.AppendKeepsBoth | Runtime/iShape/Mesh2d/NativePrimitiveMesh.cs:31-39 | the old mesh is a prefix, the added vertices follow unchanged, and each added index is moved by the old vertex count |
| MeshIndex.AppendValid | Runtime/iShape/Mesh2d/NativePrimitiveMesh.cs:31-39 | appending two valid meshes gives a valid mesh |
| MeshIndex.AppendEmpty | Runtime/iShape/Mesh2d/NativePrimitiveMesh.cs:31-39 | the empty mesh is a left and a right unit of appending |
| MeshIndex.AppendAssociative | Runtime/iShape/Mesh2d/NativePrimitiveMesh.cs:31-39 | adding `b` then `c` equals adding `b` followed by `c` as one mesh |
| MeshIndex.OffsetBounds | Runtime/iShape/Mesh2d/NativePrimitiveMesh.cs:61-65 | shifting a valid index list moves its range by the offset |
| MeshIndex.OffsetAppend | Runtime/iShape/Mesh2d/NativePrimitiveMesh.cs:61-65 | shifting distributes over concatenation |
| MeshIndex.OffsetZero | Runtime/iShape/Mesh2d/NativePrimitiveMesh.cs:61-65 | a zero shift changes nothing |
| MeshIndex.OffsetTwice | Runtime/iShape/Mesh2d/NativePrimitiveMesh.cs:61-65 | two shifts compose into one by the sum |
| MeshIndex.ShiftedZKeepsPlane | Runtime/iShape/Mesh2d/NativePrimitiveMesh.cs:67-73 | a z shift keeps x and y and moves z by exactly the offset |
| MeshIndex.ShiftedZTwice | Runtime/iShape/Mesh2d/NativePrimitiveMesh.cs:67-73 | two z shifts compose into one by the sum |
| MeshIndex.ShiftedZUndone | Runtime/iShape/Mesh2d/NativePrimitiveMesh.cs:67-73 | the opposite shift restores the vertices |
| StrokeSpec.TruncBounds | Runtime/iShape/Mesh2d/Generator/PathStroke.cs:80 | the `(int)` cast moves a value toward zero, by less than one |
| StrokeSpec.Quads | Runtime/iShape/Mesh2d/Generator/PathStroke.cs:102-135 | a loop `for (i = 1; i < n; ++i)` followed by one more quad gives `max(n, 1)` quads, at least one |
| StrokeSpec.CapCountIsEight | Runtime/iShape/Mesh2d/Generator/PathStroke.cs:238-239 | `(int)(π / eA + 0.1)` with `eA = π/8` is 8 |
| StrokeSpec.ClosedEdges | Runtime/iShape/Mesh2d/Generator/PathStroke.cs:26-39 | a closed path of `n` points has `n` segments, segment `i` running from the point before `i` (cyclically) to point `i`, so segment `n-1`, which the driver ribbons first, runs from `path[n-2]` to `path[n-1]` |
| StrokeSpec.OpenEdges | Runtime/iShape/Mesh2d/Generator/PathStroke.cs:53-69 | an open path of `n` points has `n - 1` segments, segment `i` running from point `i` to point `i + 1` |
| StrokeProperties.RibbonIndicesRange | Runtime/iShape/Mesh2d/Generator/PathStroke.cs:102-135 | `m` quads give `6m` indices, all among the `2(m + 1)` ribbon vertices |
| StrokeProperties.NoDegenerateAppend | Runtime/iShape/Mesh2d/Generator/PathStroke.cs:110-135 | appending whole triangles without a repeated vertex to others keeps every triangle non-degenerate |
| StrokeProperties.QuadNondegenerate | Runtime/iShape/Mesh2d/Generator/PathStroke.cs:110-116 | neither triangle of a quad repeats a vertex |
| StrokeProperties.RibbonIndicesNondegenerate | Runtime/iShape/Mesh2d/Generator/PathStroke.cs:110-135 | no ribbon triangle uses the same vertex twice |
| StrokeProperties.RibbonShape | Runtime/iShape/Mesh2d/Generator/PathStroke.cs:79-142 | a ribbon appends `2(m+1)` vertices and `6m` indices, naming only its own vertices, none degenerate; its first two vertices are the start edge at `a ± r·ortho` and its last two the end edge at `b ± r·ortho` |
| StrokeProperties.RibbonZeroIsOne | Runtime/iShape/Mesh2d/Generator/PathStroke.cs:80-141 | a count of 0 or 1 gives exactly the start edge, the end edge and the single quad joining them |
| StrokeProperties.AccumulatedIsMultiple | Runtime/iShape/Mesh2d/Generator/PathStroke.cs:98-126 | adding `ds` to itself `k` times gives `k·ds` |
| StrokeProperties.RibbonSpacingCovers | Runtime/iShape/Mesh2d/Generator/PathStroke.cs:80-81 | `n` steps of `length / n` along the direction reach `b` exactly |
| StrokeProperties.FanIndicesRange | Runtime/iShape/Mesh2d/Generator/PathStroke.cs:172-185 | `k` fan triangles give `3k` indices, each either the starting rim index or a vertex of the fan, the first being the starting rim index |
| StrokeProperties.FanWithCloseRange | Runtime/iShape/Mesh2d/Generator/PathStroke.cs:172-196 | a fan of `m` triangles starts at `prev0`, names only `prev0`, the closing index or its own vertices, and ends with the closing triangle in the turn's winding |
| StrokeProperties.FanTriangleNondegenerate | Runtime/iShape/Mesh2d/Generator/PathStroke.cs:176-178 | a fan triangle with three different corners repeats no vertex, in either winding |
| StrokeProperties.FanIndicesNondegenerate | Runtime/iShape/Mesh2d/Generator/PathStroke.cs:172-185 | no triangle of the fan loop repeats a vertex when the starting rim index is neither the centre nor the first new rim point |
| StrokeProperties.FanWithCloseNondegenerate | Runtime/iShape/Mesh2d/Generator/PathStroke.cs:172-196 | the same with the closing triangle, when the closing index differs from the centre and from the last rim point |
| StrokeProperties.JointIndicesShape | Runtime/iShape/Mesh2d/Generator/PathStroke.cs:159-234 | a join's indices start at `len-1` (left) or `len-2` (right), name only that start, the closing index or the join's vertices, end on the pivot and the closing index in the turn's winding, and repeat no vertex once the pivot is at least 3 |
| StrokeProperties.JointShape | Runtime/iShape/Mesh2d/Generator/PathStroke.cs:159-234 | a join appends `max(n,1)` vertices, pivot first, and `3·max(n,1)` indices; the fan starts at the previous end edge's bottom (left turn) or top (right turn) and closes on the next ribbon's start edge, or on vertex 1 / 0 when last; after at least three vertices no join triangle repeats a vertex |
| StrokeProperties.CapShape | Runtime/iShape/Mesh2d/Generator/PathStroke.cs:237-277 | a cap appends 8 vertices, centre first, and 8 triangles, running from vertex 8 to 9 on an empty mesh and from `len-1` to `len-2` otherwise; no cap triangle repeats a vertex |
| StrokeProperties.RibbonSettles | Runtime/iShape/Mesh2d/Generator/PathStroke.cs:79-142 | a ribbon turns the forward references to its start edge into valid indices |
| StrokeProperties.JointFanDefers | Runtime/iShape/Mesh2d/Generator/PathStroke.cs:159-234 | a join refers forward only to the next ribbon's two start vertices, and not at all when last |
| StrokeProperties.JointDefers | Runtime/iShape/Mesh2d/Generator/PathStroke.cs:144-235 | the same holds for the whole join, including the skipped straight turn |
| StrokeProperties.StartCapDefers | Runtime/iShape/Mesh2d/Generator/PathStroke.cs:246-248 | a start cap refers forward only to vertices 8 and 9, the start edge of the first ribbon |
| StrokeProperties.EndCapSettles | Runtime/iShape/Mesh2d/Generator/PathStroke.cs:249-276 | an end cap after a ribbon names only existing vertices |
| StrokeProperties.RibbonThenJoint | Runtime/iShape/Mesh2d/Generator/PathStroke.cs:31-40 | one closed-driver iteration keeps the deferred-validity invariant, and the last iteration settles it |
| StrokeProperties.ClosedChainValid | Runtime/iShape/Mesh2d/Generator/PathStroke.cs:31-40 | after every closed-driver iteration the only forward references are to the next ribbon's start edge; after all `n` there are none |
| StrokeProperties.RibbonKeepsNondegenerate | Runtime/iShape/Mesh2d/Generator/PathStroke.cs:79-142 | a ribbon keeps the triangles whole and free of repeated vertices, and appends at least 4 vertices |
| StrokeProperties.JointKeepsNondegenerate | Runtime/iShape/Mesh2d/Generator/PathStroke.cs:144-235 | a join on a mesh of at least three vertices keeps the triangles whole and free of repeated vertices |
| StrokeProperties.CapKeepsNondegenerate | Runtime/iShape/Mesh2d/Generator/PathStroke.cs:237-277 | a cap keeps the triangles whole and free of repeated vertices, on any mesh |
| StrokeProperties.ClosedChainNondegenerate | Runtime/iShape/Mesh2d/Generator/PathStroke.cs:31-40 | after every closed-driver iteration no triangle repeats a vertex |
| StrokeProperties.OpenChainNondegenerate | Runtime/iShape/Mesh2d/Generator/PathStroke.cs:58-70 | after the start cap, the first ribbon and each join-plus-ribbon no triangle repeats a vertex, and there are at least 4 vertices |
| StrokeProperties.ClosedStrokeValid | Runtime/iShape/Mesh2d/Generator/PathStroke.cs:18-43 | every index of a closed stroke names a vertex, there are whole triangles, and no triangle repeats a vertex |
| StrokeProperties.JointThenRibbon | Runtime/iShape/Mesh2d/Generator/PathStroke.cs:63-70 | one open-driver iteration keeps the mesh valid |
| StrokeProperties.OpenChainValid | Runtime/iShape/Mesh2d/Generator/PathStroke.cs:58-70 | after the start cap, the first ribbon and each join-plus-ribbon, every index names a vertex |
| StrokeProperties.OpenStrokeValid | Runtime/iShape/Mesh2d/Generator/PathStroke.cs:45-77 | every index of an open stroke, end cap included, names a vertex, there are whole triangles, and no triangle repeats a vertex |
| PathStroke.RibbonAssembled | Runtime/iShape/Mesh2d/Generator/PathStroke.cs:84-141 | the start edge, the inner edges, the quads and the end edge, appended in the order `JoinSegment` appends them, make up the ribbon |
| PathStroke.JoinSegment | Runtime/iShape/Mesh2d/Generator/PathStroke.cs:79-142 | the quad-strip loop with its rolling `i0`/`i1` indices produces exactly the ribbon of the segment |
| PathStroke.AppendFan | Runtime/iShape/Mesh2d/Generator/PathStroke.cs:172-185 | `count - 1` rotations of `ortho` append the fan's rim points and triangles, and leave `prev` at the last rim point and `index` at `middle + count` |
| PathStroke.JoinJoint | Runtime/iShape/Mesh2d/Generator/PathStroke.cs:144-235 | the join method produces exactly the join of the specification: nothing on a straight turn, else the fan on the outer side |
| PathStroke.JoinLeftTurn | Runtime/iShape/Mesh2d/Generator/PathStroke.cs:159-196 | the left-turn branch gives the fan wound `(prev, middle, index)` at `b - ortho`, closing on `index + 1` or vertex 1 |
| PathStroke.JoinRightTurn | Runtime/iShape/Mesh2d/Generator/PathStroke.cs:197-234 | the right-turn branch gives the fan wound `(prev, index, middle)` at `b + ortho`, closing on `index` or vertex 0 |
| PathStroke.JoinCap | Runtime/iShape/Mesh2d/Generator/PathStroke.cs:237-277 | the cap method produces exactly the 8-triangle cap of the specification |
| PathStroke.ClosedIteration | Runtime/iShape/Mesh2d/Generator/PathStroke.cs:32-39 | one loop body, a ribbon then a join, advances the closed chain by one iteration |
| PathStroke.OpenIteration | Runtime/iShape/Mesh2d/Generator/PathStroke.cs:64-69 | one loop body, a join then a ribbon, advances the open chain by one iteration |
| PathStroke.ClosedLoop | Runtime/iShape/Mesh2d/Generator/PathStroke.cs:26-40 | the loop, seeded with the segment from `path[n-2]` to `path[n-1]`, leaves the buffers after all `n` iterations of the closed driver |
| PathStroke.ClosedStroke | Runtime/iShape/Mesh2d/Generator/PathStroke.cs:18-43 | the closed driver returns the closed stroke of the path, a valid mesh of whole triangles in which no triangle repeats a vertex |
| PathStroke.OpenStroke | Runtime/iShape/Mesh2d/Generator/PathStroke.cs:45-77 | the open driver returns the open stroke with the style's caps, a valid mesh of whole triangles in which no triangle repeats a vertex |
| PathStroke.BuildMesh | Runtime/iShape/Mesh2d/Generator/PathStroke.cs:10-16 | the closed or the open stroke, chosen by `isClosed`, a valid mesh in which no triangle repeats a vertex |
| PrimitiveShapes.RectCornersShape | Runtime/iShape/Mesh2d/Generator/PrimitiveShape.cs:13-18 | opposite corners average to the centre, and consecutive corners share one coordinate and differ by the full width or height in the other |
| PrimitiveShapes.RectCornersDistinct | Runtime/iShape/Mesh2d/Generator/PrimitiveShape.cs:13-18 | consecutive corners are all distinct exactly when neither side is zero |
| PrimitiveShapes.RectTrianglesWinding | Runtime/iShape/Mesh2d/Generator/PrimitiveShape.cs:15-26 | both triangles have signed double area `-(w·h)`: the same winding, each half the rectangle |
| PrimitiveShapes.Rect | Runtime/iShape/Mesh2d/Generator/PrimitiveShape.cs:8-29 | four corner vertices at depth `z` and the triangles (0,1,2), (0,2,3): valid and non-degenerate |
| PrimitiveShapes.CirclePoints | Runtime/iShape/Mesh2d/Generator/PrimitiveShape.cs:37-50 | one rim point per step |
| PrimitiveShapes.RimPointOnCircle | Runtime/iShape/Mesh2d/Generator/PrimitiveShape.cs:40-41 | when cos² + sin² = 1, a rim point lies at distance `radius` from the centre |
| PrimitiveShapes.CircleIndicesAt | Runtime/iShape/Mesh2d/Generator/PrimitiveShape.cs:44-49 | triangle `i` is (centre, `i`, the rim point before `i` cyclically) |
| PrimitiveShapes.CircleIndicesValid | Runtime/iShape/Mesh2d/Generator/PrimitiveShape.cs:38-52 | every fan index names one of the `count + 1` vertices |
| PrimitiveShapes.CircleCentreUse | Runtime/iShape/Mesh2d/Generator/PrimitiveShape.cs:44 | each of the first `k` triangles uses the centre once |
| PrimitiveShapes.CircleRimUse | Runtime/iShape/Mesh2d/Generator/PrimitiveShape.cs:38-49 | how often the first `k` triangles use each rim point: as triangle `v`'s new point, as triangle `v+1`'s previous point, and the last point also for triangle 0 |
| PrimitiveShapes.CircleFanUse | Runtime/iShape/Mesh2d/Generator/PrimitiveShape.cs:38-52 | in the whole fan the centre occurs `count` times and every rim point exactly twice |
| PrimitiveShapes.Circle | Runtime/iShape/Mesh2d/Generator/PrimitiveShape.cs:31-55 | the rim vertices at the circle points, then the centre as vertex `count`, and the fan's triangles: a valid mesh |
| PrimitiveStrokes.StrokeForEdge | Runtime/iShape/Mesh2d/Generator/PrimitiveStroke.cs:8-18 | the open stroke of the two-point path `start, end`, a valid mesh in which no triangle repeats a vertex |
| PrimitiveStrokes.StrokeForRect | Runtime/iShape/Mesh2d/Generator/PrimitiveStroke.cs:20-33 | the closed stroke through the same four corners as the filled rectangle, a valid mesh in which no triangle repeats a vertex |
| PrimitiveStrokes.ClosedPathDistinct | Runtime/iShape/Mesh2d/Generator/PathStroke.cs:26-33 | on a strokable closed path each point differs from its predecessor |
| PrimitiveStrokes.RectPathNeedsSides | Runtime/iShape/Mesh2d/Generator/PrimitiveStroke.cs:20-28 | a strokable rectangle path has a non-zero width and a non-zero height |
| PrimitiveStrokes.FillCirclePath | Runtime/iShape/Mesh2d/Generator/PrimitiveStroke.cs:36-43 | the loop fills the path array with the same rim points as the filled circle, in order |
| PrimitiveStrokes.StrokeForCircle | Runtime/iShape/Mesh2d/Generator/PrimitiveStroke.cs:35-50 | the closed stroke of the same rim points as the filled circle, a valid mesh in which no triangle repeats a vertex |
| PrimitiveStrokes.StarPointsUpToAt | Runtime/iShape/Mesh2d/Generator/PrimitiveStroke.cs:60-66 | point `i` of the star path is at angle `i·da0`, at the radius of wave angle `i·da1` |
| PrimitiveStrokes.StarRadiusRange | Runtime/iShape/Mesh2d/Generator/PrimitiveStroke.cs:58-61 | the radius swings between `small - delta` and `small + delta = large`: it is `large` where sin is 1 and `small` where sin is 0 |
| PrimitiveStrokes.StarWithEqualRadiiIsCircle | Runtime/iShape/Mesh2d/Generator/PrimitiveStroke.cs:52-66 | with equal radii the star path is the circle path |
| PrimitiveStrokes.FillStarPath | Runtime/iShape/Mesh2d/Generator/PrimitiveStroke.cs:53-66 | the loop fills the path array with the star points, in order |
| PrimitiveStrokes.StrokeForSoftStar | Runtime/iShape/Mesh2d/Generator/PrimitiveStroke.cs:52-73 | the closed stroke of the star path, a valid mesh in which no triangle repeats a vertex |
| StaticPrimitive.StaticPrimitiveMesh.constructor | Runtime/iShape/Mesh2d/StaticPrimitiveMesh.cs:13-16 | the mesh keeps the given arrays themselves |
| StaticPrimitive.StaticPrimitiveMesh.Copy | Runtime/iShape/Mesh2d/StaticPrimitiveMesh.cs:18-24 | the mesh holds fresh arrays with the same contents |
| StaticPrimitive.StaticPrimitiveMesh.Shift | Runtime/iShape/Mesh2d/StaticPrimitiveMesh.cs:26-30 | every index is moved by the offset in place; the vertices are unchanged |
| StaticPrimitive.StaticPrimitiveMesh.ShiftZ | Runtime/iShape/Mesh2d/StaticPrimitiveMesh.cs:32-38 | every vertex is moved along z in place; the indices are unchanged |
| NativePrimitive.NativePrimitiveMesh.constructor | Runtime/iShape/Mesh2d/NativePrimitiveMesh.cs:13-16 | two empty lists |
| NativePrimitive.NativePrimitiveMesh.FromLists | Runtime/iShape/Mesh2d/NativePrimitiveMesh.cs:18-21 | the mesh holds the given lists' contents |
| NativePrimitive.NativePrimitiveMesh.FromArrays | Runtime/iShape/Mesh2d/NativePrimitiveMesh.cs:23-29 | the mesh holds copies of the arrays' contents |
| NativePrimitive.NativePrimitiveMesh.Add | Runtime/iShape/Mesh2d/NativePrimitiveMesh.cs:31-39 | the contents become the old mesh with the other appended, and validity is kept |
| NativePrimitive.NativePrimitiveMesh.AddStatic | Runtime/iShape/Mesh2d/NativePrimitiveMesh.cs:41-49 | the same for a static mesh |
| NativePrimitive.NativePrimitiveMesh.Shift | Runtime/iShape/Mesh2d/NativePrimitiveMesh.cs:61-65 | every index is moved by the offset; the vertices are unchanged |
| NativePrimitive.NativePrimitiveMesh.ShiftZ | Runtime/iShape/Mesh2d/NativePrimitiveMesh.cs:67-73 | every vertex is moved along z; the indices are unchanged |
| NativePrimitive.NativePrimitiveMesh.Clear | Runtime/iShape/Mesh2d/NativePrimitiveMesh.cs:171-174 | both lists become empty |
| NativeColor.NativeColorMesh.constructor | Runtime/iShape/Mesh2d/NativeColorMesh.cs:15-19 | three empty lists, one colour per vertex |
| NativeColor.NativeColorMesh.Add | Runtime/iShape/Mesh2d/NativeColorMesh.cs:21-29 | the mesh is appended with its colours, keeping one colour per vertex and validity |
| NativeColor.NativeColorMesh.AddPrimitive | Runtime/iShape/Mesh2d/NativeColorMesh.cs:31-42 | the primitive mesh is appended, with the one colour repeated once per added vertex |
| NativeColor.NativeColorMesh.AddStatic | Runtime/iShape/Mesh2d/NativeColorMesh.cs:44-55 | the same for a static mesh |
| NativeColor.NativeColorMesh.Shift | Runtime/iShape/Mesh2d/NativeColorMesh.cs:72-76 | every index is moved by the offset; vertices and colours are unchanged |
| NativeColor.NativeColorMesh.ShiftZ | Runtime/iShape/Mesh2d/NativeColorMesh.cs:78-84 | every vertex is moved along z; indices and colours are unchanged |
| NativeColor.NativeColorMesh.Clear | Runtime/iShape/Mesh2d/NativeColorMesh.cs:169-173 | all three lists become empty |
| NativeTexture.UvScalesBack | Runtime/iShape/Mesh2d/NativeTextureMesh.cs:34-35 | a texture coordinate times `scale` gives back the vertex's x and y |
| NativeTexture.UvsAppend | Runtime/iShape/Mesh2d/NativeTextureMesh.cs:33-36 | the coordinates of a concatenation are the concatenated coordinates |
| NativeTexture.NativeTextureMesh.constructor | Runtime/iShape/Mesh2d/NativeTextureMesh.cs:14-18 | three empty lists, one coordinate per vertex |
| NativeTexture.NativeTextureMesh.Add | Runtime/iShape/Mesh2d/NativeTextureMesh.cs:20-28 | the mesh is appended with its coordinates, keeping one coordinate per vertex and validity |
| NativeTexture.NativeTextureMesh.AddPrimitive | Runtime/iShape/Mesh2d/NativeTextureMesh.cs:30-41 | the primitive mesh is appended, with `xy / scale` as each added vertex's coordinate |
| NativeTexture.NativeTextureMesh.AddStatic | Runtime/iShape/Mesh2d/NativeTextureMesh.cs:43-54 | the same for a static mesh |
| NativeTexture.NativeTextureMesh.Clear | Runtime/iShape/Mesh2d/NativeTextureMesh.cs:126-130 | all three lists become empty |
| Extent.ExtentContains | Runtime/iShape/Mesh2d/BoundaryUtil.cs:14-18 | every vertex lies between the folded minimum and maximum, component by component |
| Extent.MinAttained | Runtime/iShape/Mesh2d/BoundaryUtil.cs:14-18 | each component of the minimum is that component of some vertex |
| Extent.MaxAttained | Runtime/iShape/Mesh2d/BoundaryUtil.cs:14-18 | each component of the maximum is that component of some vertex |
| Extent.ExtentOfPermutation | Runtime/iShape/Mesh2d/BoundaryUtil.cs:14-18 | the minimum and maximum do not depend on the order of the vertices |
| Extent.MinMax | Runtime/iShape/Mesh2d/BoundaryUtil.cs:10-18 | the loop from the first vertex computes the folded minimum and maximum, which bound every vertex |
| Extent.BoxOfFaces | Runtime/iShape/Mesh2d/BoundaryUtil.cs:20-23 | `center ± size/2` gives back the minimum and the maximum, and the size is never negative |
| BoundaryUtil.FlatBoxMatchesInPlane | Runtime/iShape/Mesh2d/BoundaryUtil.cs:37-41 | the list overload's box agrees with the full box in x and y, and is centred at z = 0 with depth 1 whatever the vertices' z |
| BoundaryUtil.Bounds | Runtime/iShape/Mesh2d/BoundaryUtil.cs:9-24 | the array's box from minimum to maximum, containing every vertex |
| BoundaryUtil.ListBounds | Runtime/iShape/Mesh2d/BoundaryUtil.cs:26-42 | the flat box, containing every vertex's x and y |
| VertexUtil.ListBounds | Runtime/iShape/Mesh2d/VertexUtil.cs:26-41 | the full box from minimum to maximum, with no negative size |
| VertexUtil.Bounds | Runtime/iShape/Mesh2d/VertexUtil.cs:9-24 | the same box over the array's elements |

## Left out

- Single-precision rounding is not modelled: floats are exact reals. `math.sqrt`, `acos`, `cos` and `sin` are uninterpreted, so properties that depend on their values take them as hypotheses (`IsSqrtAt`, cos² + sin² = 1, sine in [-1, 1]). NaN and infinity are not modelled, including NaN inputs to `math.min`/`math.max`.
- Allocators, capacities, `Dispose`, the `AddAndDispose` variants, the Unity `Mesh` uploads (`Convert`, `Fill`, `DebugFill`, `ReleaseFill`, `FillAndDispose`), `DebugLog`, `ConvertToArray`/`ConvertToFloat`, `MeshExtension` and the `MeshGenerator` facade are engine plumbing, not geometry. `ColorVertex` and `TextureVertex` are only used by those uploads.
- C# `int` is 32-bit; the model's integers are unbounded. Index arithmetic that could wrap is not modelled: `j + count` when appending (NativePrimitiveMesh.cs:37 and the other `Add` loops), `triangles[i] + offset` in `Shift` (NativePrimitiveMesh.cs:63), and the `(int)` casts of the ribbon and join counts (PathStroke.cs:80, 157), which C# leaves unspecified out of range.
- NativePrimitive.NativePrimitiveMesh.FromLists: the C# constructor shares the caller's `NativeList` handles, so later growth through either is visible through both. The model copies the lists' contents into the mesh's `seq` fields and does not describe that aliasing.
- The `Add` methods require the added mesh to be a different object. `mesh.Add(mesh)` would iterate over a list while it grows, which the model does not describe.
- A closed path needs at least two points, because the driver reads `path[n - 2]`. Consecutive points must differ (cyclically on a closed path), because the segment divides by its length.
- PrimitiveStrokes.StrokeForCircle: requires the generated path to be strokable (at least two points, neighbours distinct), as does `PrimitiveStrokes.StrokeForSoftStar`. With `count = 0` the source divides by zero.
- `StrokeStyle.cs` declares no `StartCap`/`EndCap` fields, yet `OpenStroke` reads them. The model carries them as two booleans of the style.
- The three fan loops of `JoinJoint` and `JoinCap` share one method, `PathStroke.AppendFan`. The two branches of `JoinJoint` are `PathStroke.JoinLeftTurn` and `PathStroke.JoinRightTurn`. The closed driver's loop is `PathStroke.ClosedLoop`. The drivers' loop bodies are `PathStroke.ClosedIteration` and `PathStroke.OpenIteration`. The path-filling loops of `StrokeForCircle` and `StrokeForSoftStar` are `PrimitiveStrokes.FillCirclePath` and `PrimitiveStrokes.FillStarPath`.
- Segments.NewSegment: its own contract only states the endpoints. The length and direction are stated by `Segments.SegmentGeometry` and `Segments.DirectionIsUnit`.
- NativeTexture.NativeTextureMesh.AddPrimitive: requires `scale != 0`. With a zero scale the C# division gives infinite coordinates for non-zero x or y and NaN for zero ones. `AddStatic` likewise.
- BoundaryUtil.Bounds, `BoundaryUtil.ListBounds`, `VertexUtil.Bounds` and `VertexUtil.ListBounds` require a non-empty input, where the source fails reading element 0.
- VertexUtil.Bounds: the array overload is modelled as a call to the list overload. The source repeats the same loop in each.
- PrimitiveStrokes.RectPathNeedsSides: only this direction is proved. A non-zero-sided rectangle's path is also strokable only when `sqrt` is exact at its side lengths, and that converse is not stated.
- PrimitiveStrokes.StarPointsUpToAt: the distance of star points from the centre is not stated separately. `PrimitiveShapes.RimPointOnCircle` gives it for any rim point at the star radius.
