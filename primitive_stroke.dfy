/** `PrimitiveStroke`: outlines of primitives, each built by laying out the
    primitive's points in a temporary path buffer and stroking that path:
    an edge as an open path of two points; a rectangle, a circle and a soft
    star as closed paths. */
module PrimitiveStrokes {
  import opened Math2d
  import opened Segments
  import opened Style
  import opened MeshIndex
  import opened StrokeSpec
  import opened PathStroke
  import opened PrimitiveShapes

  /** `StrokeForEdge`: the open stroke of the path `start, end`. */
  method StrokeForEdge(start: Float2, end: Float2, style: StrokeStyle, z: real, lib: Libm)
    returns (verts: seq<Float3>, tris: seq<int>)
    requires StrokeOk(style, lib) && EdgeOk(start, end, lib.sqrt)
    ensures Buffers(verts, tris) == OpenStrokeSpec([start, end], style, z, lib)
    ensures IndicesBelow(tris, |verts|) && WholeTriangles(tris) && NoDegenerateTriangle(tris)
  {
    var path := new Float2[2];
    path[0] := start;
    path[1] := end;
    assert path[..] == [start, end];
    verts, tris := BuildMesh(path[..], false, style, z, lib);
  }

  /** `StrokeForRect`: the closed stroke through the rectangle's corners,
      in the order the filled rectangle lists them. */
  method StrokeForRect(center: Float2, size: Float2, style: StrokeStyle, z: real, lib: Libm)
    returns (verts: seq<Float3>, tris: seq<int>)
    requires StrokeOk(style, lib) && ClosedPathOk(RectCorners(center, size), lib.sqrt)
    ensures Buffers(verts, tris) == ClosedStrokeSpec(RectCorners(center, size), style, z, lib)
    ensures IndicesBelow(tris, |verts|) && WholeTriangles(tris) && NoDegenerateTriangle(tris)
  {
    var path := new Float2[4];
    var ds := size.Scale(0.5);
    path[0] := center.Sub(ds);
    path[1] := center.Add(Float2(-ds.x, ds.y));
    path[2] := center.Add(ds);
    path[3] := center.Add(Float2(ds.x, -ds.y));
    assert path[..] == RectCorners(center, size);
    verts, tris := BuildMesh(path[..], true, style, z, lib);
  }

  /** Consecutive points of a strokable closed path are distinct. */
  lemma ClosedPathDistinct(path: seq<Float2>, sqrt: real -> real, i: int)
    requires ClosedPathOk(path, sqrt) && 0 <= i < |path|
    ensures path[Prev(i, |path|)] != path[i]
  {
    assert EdgeOk(path[Prev(i, |path|)], path[i], sqrt);
  }

  /** A strokable rectangle path has no zero side: the stroke of a
      rectangle requires a non-zero width and height. */
  lemma RectPathNeedsSides(center: Float2, size: Float2, sqrt: real -> real)
    requires ClosedPathOk(RectCorners(center, size), sqrt)
    ensures size.x != 0.0 && size.y != 0.0
  {
    ClosedPathDistinct(RectCorners(center, size), sqrt, 1);
    ClosedPathDistinct(RectCorners(center, size), sqrt, 2);
    assert Prev(1, 4) == 0 && Prev(2, 4) == 1;
    RectCornersDistinct(center, size);
  }

  /** The loop of `StrokeForCircle`: rim point `i` at angle `a = i·da`,
      `da = 2π / count`, the angle advanced once per point. */
  method FillCirclePath(path: array<Float2>, center: Float2, radius: real, lib: Libm)
    modifies path
    ensures path[..] == CirclePoints(center, radius, path.Length, lib)
  {
    var count := path.Length;
    // With no points the step is never used.
    var da := if count > 0 then 2.0 * lib.pi / count as real else 0.0;
    var a := 0.0;
    var i := 0;
    while i < count
      invariant 0 <= i <= count
      invariant a == Accumulated(da, i)
      invariant forall k :: 0 <= k < i ==> path[k] == CirclePoints(center, radius, count, lib)[k]
    {
      var xy := Float2(lib.cos(a), lib.sin(a));
      path[i] := center.Add(xy.Scale(radius));
      a := a + da;
      i := i + 1;
    }
  }

  /** `StrokeForCircle`: the `count` rim points, laid out in a path,
      stroked as a closed path. */
  method StrokeForCircle(center: Float2, radius: real, count: nat, style: StrokeStyle, z: real, lib: Libm)
    returns (verts: seq<Float3>, tris: seq<int>)
    requires StrokeOk(style, lib) && ClosedPathOk(CirclePoints(center, radius, count, lib), lib.sqrt)
    ensures Buffers(verts, tris) == ClosedStrokeSpec(CirclePoints(center, radius, count, lib), style, z, lib)
    ensures IndicesBelow(tris, |verts|) && WholeTriangles(tris) && NoDegenerateTriangle(tris)
  {
    var path := new Float2[count];
    FillCirclePath(path, center, radius, lib);
    verts, tris := BuildMesh(path[..], true, style, z, lib);
  }

  // ---------------------------------------------------------------------
  // Soft star
  // ---------------------------------------------------------------------

  /** The star's radius at wave angle `a1`: `small + delta·sin a1`, where
      `delta` is the difference of the large and the small radius. */
  function StarRadius(small: real, delta: real, a1: real, lib: Libm): real {
    small + delta * lib.sin(a1)
  }

  /** `da1 = 16π / count`, the step of the wave angle; unused when there
      are no points. */
  function WaveStep(count: int, lib: Libm): real {
    if count > 0 then 16.0 * lib.pi / count as real else 0.0
  }

  /** Star point `i`: at angle `i·da0` around the centre, at the radius
      given by wave angle `i·da1`. */
  function StarPoint(center: Float2, small: real, delta: real, da0: real, da1: real, lib: Libm, i: nat): Float2 {
    RimPoint(center, StarRadius(small, delta, Accumulated(da1, i), lib), Accumulated(da0, i), lib)
  }

  /** The first `k` star points. */
  function StarPointsUpTo(center: Float2, small: real, delta: real, da0: real, da1: real, lib: Libm, k: nat): (p: seq<Float2>)
    ensures |p| == k
  {
    if k == 0 then [] else StarPointsUpTo(center, small, delta, da0, da1, lib, k - 1) + [StarPoint(center, small, delta, da0, da1, lib, k - 1)]
  }

  /** The `count` star points, with angle step `2π/count` and wave step
      `16π/count`, so the radius swings through eight periods around the
      star. */
  function StarPoints(center: Float2, small: real, large: real, count: nat, lib: Libm): (p: seq<Float2>)
    ensures |p| == count
  {
    StarPointsUpTo(center, small, large - small, CircleStep(count, lib), WaveStep(count, lib), lib, count)
  }

  /** Entry `i` of the first `k` star points is star point `i`. */
  lemma {:induction false} StarPointsUpToAt(center: Float2, small: real, delta: real, da0: real, da1: real, lib: Libm, k: nat, i: nat)
    requires i < k
    ensures StarPointsUpTo(center, small, delta, da0, da1, lib, k)[i] == StarPoint(center, small, delta, da0, da1, lib, i)
  {
    if i < k - 1 {
      StarPointsUpToAt(center, small, delta, da0, da1, lib, k - 1, i);
    }
  }

  /** Where `sin` stays in `[-1, 1]`, the star radius swings between
      `small - delta` and `small + delta`, that is between
      `2·small - large` and `large`; it is `small + delta = large` where
      `sin` is 1 and `small` where `sin` is 0. */
  lemma StarRadiusRange(small: real, delta: real, a1: real, lib: Libm)
    requires delta >= 0.0 && -1.0 <= lib.sin(a1) <= 1.0
    ensures small - delta <= StarRadius(small, delta, a1, lib) <= small + delta
    ensures lib.sin(a1) == 1.0 ==> StarRadius(small, delta, a1, lib) == small + delta
    ensures lib.sin(a1) == 0.0 ==> StarRadius(small, delta, a1, lib) == small
  {
    var s := lib.sin(a1);
    assert delta * s <= delta by { assert delta * (1.0 - s) >= 0.0; }
    assert -delta <= delta * s by { assert delta * (s + 1.0) >= 0.0; }
  }

  /** A star with equal radii is the circle of that radius. */
  lemma StarWithEqualRadiiIsCircle(center: Float2, radius: real, count: nat, lib: Libm)
    ensures StarPoints(center, radius, radius, count, lib) == CirclePoints(center, radius, count, lib)
  {
    var s := StarPoints(center, radius, radius, count, lib);
    var c := CirclePoints(center, radius, count, lib);
    forall i | 0 <= i < count
      ensures s[i] == c[i]
    {
      StarPointsUpToAt(center, radius, radius - radius, CircleStep(count, lib), WaveStep(count, lib), lib, count, i);
      assert StarRadius(radius, radius - radius, Accumulated(WaveStep(count, lib), i), lib) == radius;
    }
  }

  /** The loop of `StrokeForSoftStar`: point `i` of the path at angle
      `a0 = i·da0` and radius `small + delta·sin(a1)` with `a1 = i·da1`,
      both angles advanced once per point. */
  method FillStarPath(path: array<Float2>, center: Float2, small: real, large: real, lib: Libm)
    modifies path
    ensures path[..] == StarPoints(center, small, large, path.Length, lib)
  {
    var count := path.Length;
    // With no points the steps are never used (the C# float division
    // would give infinity).
    var da0 := if count > 0 then 2.0 * lib.pi / count as real else 0.0;
    var da1 := if count > 0 then 16.0 * lib.pi / count as real else 0.0;
    var a0 := 0.0;
    var a1 := 0.0;
    var delta := large - small;
    assert da0 == CircleStep(count, lib) && da1 == WaveStep(count, lib);
    var i := 0;
    while i < count
      invariant 0 <= i <= count
      invariant a0 == Accumulated(da0, i) && a1 == Accumulated(da1, i)
      invariant path[..i] == StarPointsUpTo(center, small, delta, da0, da1, lib, i)
    {
      var r := StarRadius(small, delta, a1, lib);
      path[i] := RimPoint(center, r, a0, lib);
      assert path[..i + 1] == path[..i] + [path[i]];
      a0 := a0 + da0;
      a1 := a1 + da1;
      i := i + 1;
    }
    assert path[..] == path[..count];
  }

  /** `StrokeForSoftStar`: the star points, laid out in a path of `count`
      points, stroked as a closed path. */
  method StrokeForSoftStar(center: Float2, small: real, large: real, count: nat, style: StrokeStyle, z: real, lib: Libm)
    returns (verts: seq<Float3>, tris: seq<int>)
    requires StrokeOk(style, lib) && ClosedPathOk(StarPoints(center, small, large, count, lib), lib.sqrt)
    ensures Buffers(verts, tris) == ClosedStrokeSpec(StarPoints(center, small, large, count, lib), style, z, lib)
    ensures IndicesBelow(tris, |verts|) && WholeTriangles(tris) && NoDegenerateTriangle(tris)
  {
    var path := new Float2[count];
    FillStarPath(path, center, small, large, lib);
    verts, tris := BuildMesh(path[..], true, style, z, lib);
  }
}
