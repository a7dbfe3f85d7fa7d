/** `PrimitiveShape`: filled primitives built directly as meshes, a
    rectangle as two triangles and a circle as a fan of `count` triangles
    around its centre. */
module PrimitiveShapes {
  import opened Math2d
  import opened MeshIndex
  import opened StrokeSpec

  /** The four corners of the rectangle with half-size `ds = size / 2`:
      `center - ds`, `center + (-ds.x, ds.y)`, `center + ds`,
      `center + (ds.x, -ds.y)`. The stroked rectangle visits the same
      corners. */
  function RectCorners(center: Float2, size: Float2): seq<Float2> {
    var ds := size.Scale(0.5);
    [center.Sub(ds), center.Add(Float2(-ds.x, ds.y)), center.Add(ds), center.Add(Float2(ds.x, -ds.y))]
  }

  /** The corners are symmetric about the centre (opposite corners average
      to it), and consecutive corners, cyclically, share one coordinate and
      differ in the other by the full width or height. */
  lemma RectCornersShape(center: Float2, size: Float2)
    ensures var p := RectCorners(center, size);
      && |p| == 4
      && p[0].Add(p[2]) == center.Scale(2.0) && p[1].Add(p[3]) == center.Scale(2.0)
      && p[0].x == p[1].x && p[1].y - p[0].y == size.y
      && p[1].y == p[2].y && p[2].x - p[1].x == size.x
      && p[2].x == p[3].x && p[2].y - p[3].y == size.y
      && p[3].y == p[0].y && p[3].x - p[0].x == size.x
  {
  }

  /** Consecutive corners, cyclically, are distinct exactly when neither
      side of the rectangle is zero. */
  lemma RectCornersDistinct(center: Float2, size: Float2)
    ensures var p := RectCorners(center, size);
      (p[0] != p[1] && p[1] != p[2] && p[2] != p[3] && p[3] != p[0]) <==> (size.x != 0.0 && size.y != 0.0)
  {
    RectCornersShape(center, size);
    var p := RectCorners(center, size);
    if size.x != 0.0 && size.y != 0.0 {
      assert p[1].y - p[0].y != 0.0 && p[2].x - p[1].x != 0.0;
      assert p[2].y - p[3].y != 0.0 && p[3].x - p[0].x != 0.0;
    } else if size.x == 0.0 {
      assert p[1] == p[2] by { assert p[1].x == p[2].x && p[1].y == p[2].y; }
    } else {
      assert p[0] == p[1] by { assert p[0].x == p[1].x && p[0].y == p[1].y; }
    }
  }

  /** The rectangle's index list: triangles (0, 1, 2) and (0, 2, 3). */
  const RectIndices: seq<int> := [0, 1, 2, 0, 2, 3]

  /** Twice the signed area of the triangle `a, b, c`: positive when it
      turns counter-clockwise. */
  function SignedArea2(a: Float2, b: Float2, c: Float2): real {
    Cross(b.Sub(a), c.Sub(a))
  }

  /** Both rectangle triangles wind the same way, clockwise for a positive
      size, and each covers half the rectangle. */
  lemma RectTrianglesWinding(center: Float2, size: Float2)
    ensures var p := RectCorners(center, size);
      && SignedArea2(p[RectIndices[0]], p[RectIndices[1]], p[RectIndices[2]]) == -(size.x * size.y)
      && SignedArea2(p[RectIndices[3]], p[RectIndices[4]], p[RectIndices[5]]) == -(size.x * size.y)
  {
    RectCornersShape(center, size);
    var p := RectCorners(center, size);
    assert p[1].Sub(p[0]) == Float2(0.0, size.y);
    assert p[2].Sub(p[0]) == Float2(size.x, size.y);
    assert p[3].Sub(p[0]) == Float2(size.x, 0.0);
  }

  /** `Rect`: the four corners at height `z`, then the two triangles. */
  method Rect(center: Float2, size: Float2, z: real) returns (verts: seq<Float3>, tris: seq<int>)
    ensures |verts| == 4 && forall i :: 0 <= i < 4 ==> verts[i] == Lift(RectCorners(center, size)[i], z)
    ensures tris == RectIndices
    ensures IndicesBelow(tris, |verts|) && WholeTriangles(tris) && NoDegenerateTriangle(tris)
  {
    verts, tris := [], [];
    var ds := size.Scale(0.5);
    verts := verts + [Lift(center.Sub(ds), z)];
    verts := verts + [Lift(center.Add(Float2(-ds.x, ds.y)), z)];
    verts := verts + [Lift(center.Add(ds), z)];
    verts := verts + [Lift(center.Add(Float2(ds.x, -ds.y)), z)];
    tris := tris + [0];
    tris := tris + [1];
    tris := tris + [2];
    tris := tris + [0];
    tris := tris + [2];
    tris := tris + [3];
  }

  // ---------------------------------------------------------------------
  // Circle
  // ---------------------------------------------------------------------

  /** `da = 2π / count`, the angle between rim points; unused when there
      are none. */
  function CircleStep(count: int, lib: Libm): real {
    if count > 0 then 2.0 * lib.pi / count as real else 0.0
  }

  /** `center + radius · (cos a, sin a)`. */
  function RimPoint(center: Float2, radius: real, angle: real, lib: Libm): Float2 {
    center.Add(Float2(lib.cos(angle), lib.sin(angle)).Scale(radius))
  }

  /** The `count` rim points at angles `0, da, da + da, …`. */
  function CirclePoints(center: Float2, radius: real, count: nat, lib: Libm): (p: seq<Float2>)
    ensures |p| == count
  {
    seq(count, i requires 0 <= i < count => RimPoint(center, radius, Accumulated(CircleStep(count, lib), i), lib))
  }

  /** Rim points lie on the circle, given that `cos² + sin² = 1` at their
      angles. */
  lemma RimPointOnCircle(center: Float2, radius: real, angle: real, lib: Libm)
    requires lib.cos(angle) * lib.cos(angle) + lib.sin(angle) * lib.sin(angle) == 1.0
    ensures NormSquared(RimPoint(center, radius, angle, lib).Sub(center)) == radius * radius
  {
    var c, s := lib.cos(angle), lib.sin(angle);
    var d := RimPoint(center, radius, angle, lib).Sub(center);
    assert d == Float2(radius * c, radius * s);
    calc {
      NormSquared(d);
      (radius * c) * (radius * c) + (radius * s) * (radius * s);
      (radius * radius) * (c * c + s * s);
    }
  }

  /** Fan triangle `i`: the centre (index `count`), rim point `i`, and the
      rim point before it, cyclically. */
  function CircleTriangle(count: int, i: int): seq<int> {
    [count, i, if i == 0 then count - 1 else i - 1]
  }

  /** The first `k` fan triangles. */
  function CircleIndices(count: int, k: nat): (t: seq<int>)
    ensures |t| == 3 * k
  {
    if k == 0 then [] else CircleIndices(count, k - 1) + CircleTriangle(count, k - 1)
  }

  /** Triangle `i` of the fan occupies entries `3i .. 3i + 2`. */
  lemma {:induction false} CircleIndicesAt(count: int, k: nat, i: int)
    requires 0 <= i < k
    ensures CircleIndices(count, k)[3 * i .. 3 * i + 3] == CircleTriangle(count, i)
  {
    if i < k - 1 {
      CircleIndicesAt(count, k - 1, i);
      assert CircleIndices(count, k)[..3 * (k - 1)] == CircleIndices(count, k - 1);
    }
  }

  /** Every fan index names one of the `count + 1` vertices. */
  lemma {:induction false} CircleIndicesValid(count: int, k: nat)
    requires k <= count
    ensures IndicesBelow(CircleIndices(count, k), count + 1)
  {
    if k > 0 {
      CircleIndicesValid(count, k - 1);
      IndicesBelowAppend(CircleIndices(count, k - 1), CircleTriangle(count, k - 1), count + 1);
    }
  }

  /** The first `k` fan triangles use the centre once each. */
  lemma {:induction false} CircleCentreUse(count: int, k: nat)
    requires k <= count
    ensures Uses(CircleIndices(count, k), count) == k
  {
    if k > 0 {
      CircleCentreUse(count, k - 1);
      var prev := if k == 1 then count - 1 else k - 2;
      UsesAfterTriangle(CircleIndices(count, k - 1), count, k - 1, prev, count);
    }
  }

  /** How often the first `k` fan triangles use rim point `v`: as the new
      point of triangle `v`, as the previous point of triangle `v + 1`, and
      the last rim point also as the previous point of triangle 0. */
  function RimUses(count: int, k: nat, v: int): int {
    (if v < k then 1 else 0) + (if v + 1 < k then 1 else 0) + (if v == count - 1 && k >= 1 then 1 else 0)
  }

  lemma {:induction false} CircleRimUse(count: int, k: nat, v: int)
    requires 0 <= v < count && k <= count
    ensures Uses(CircleIndices(count, k), v) == RimUses(count, k, v)
  {
    if k > 0 {
      CircleRimUse(count, k - 1, v);
      var prev := if k == 1 then count - 1 else k - 2;
      UsesAfterTriangle(CircleIndices(count, k - 1), count, k - 1, prev, v);
    }
  }

  /** In the whole fan the centre is in every triangle and every rim point
      is used exactly twice: it is shared by two neighbouring triangles (one
      triangle using it twice when `count` is 1). */
  lemma CircleFanUse(count: int, v: int)
    requires 0 <= v < count
    ensures multiset(CircleIndices(count, count))[count] == count
    ensures multiset(CircleIndices(count, count))[v] == 2
  {
    CircleCentreUse(count, count);
    UsesIsMultiplicity(CircleIndices(count, count), count);
    CircleRimUse(count, count, v);
    UsesIsMultiplicity(CircleIndices(count, count), v);
  }

  /** `Circle`: one rim vertex and one fan triangle per step, then the
      centre as the last vertex, index `count`. */
  method Circle(center: Float2, radius: real, count: nat, z: real, lib: Libm)
    returns (verts: seq<Float3>, tris: seq<int>)
    ensures |verts| == count + 1 && verts[count] == Lift(center, z)
    ensures forall i :: 0 <= i < count ==> verts[i] == Lift(CirclePoints(center, radius, count, lib)[i], z)
    ensures tris == CircleIndices(count, count)
    ensures IndicesBelow(tris, |verts|) && WholeTriangles(tris)
  {
    var da := if count > 0 then 2.0 * lib.pi / count as real else 0.0;
    verts, tris := [], [];
    var a := 0.0;
    var j: int := count - 1;
    ghost var points := CirclePoints(center, radius, count, lib);
    var i := 0;
    while i < count
      invariant 0 <= i <= count && |verts| == i
      invariant a == Accumulated(da, i)
      invariant j == if i == 0 then count - 1 else i - 1
      invariant forall k :: 0 <= k < i ==> verts[k] == Lift(points[k], z)
      invariant tris == CircleIndices(count, i)
    {
      var xy := Float2(lib.cos(a), lib.sin(a));
      var p := center.Add(xy.Scale(radius));
      verts := verts + [Lift(p, z)];
      tris := tris + [count];
      tris := tris + [i];
      tris := tris + [j];
      a := a + da;
      j := i;
      i := i + 1;
    }
    verts := verts + [Lift(center, z)];
    CircleIndicesValid(count, count);
  }
}
