/** Properties of the stroke steps in `StrokeSpec`: how many vertices and
    indices each step appends, which vertices its triangles refer to, and
    that the open and closed drivers end with every triangle index below the
    vertex count and no triangle repeats a vertex. */
module StrokeProperties {
  import opened Math2d
  import opened Segments
  import opened Style
  import opened MeshIndex
  import opened StrokeSpec

  // ---------------------------------------------------------------------
  // Ribbon.
  // ---------------------------------------------------------------------

  /** `k` quads give `6k` indices, all within the `2k + 2` vertices of the
      strip starting at `first`. */
  lemma {:induction false} RibbonIndicesRange(first: int, k: nat)
    ensures |RibbonIndices(first, k)| == 6 * k
    ensures forall j :: 0 <= j < |RibbonIndices(first, k)| ==>
      first <= RibbonIndices(first, k)[j] < first + 2 * k + 2
  {
    if k > 0 {
      RibbonIndicesRange(first, k - 1);
    }
  }

  /** Whole triangles without a repeated vertex stay so when more such
      triangles are appended. */
  lemma NoDegenerateAppend(t: seq<int>, u: seq<int>, m: nat)
    requires |t| == 3 * m && NoDegenerateTriangle(t) && NoDegenerateTriangle(u)
    ensures NoDegenerateTriangle(t + u)
  {
    forall k | 0 <= k < |t + u| / 3
      ensures DistinctCorners(TriangleAt(t + u, k))
    {
      if k < m {
        assert TriangleAt(t + u, k) == TriangleAt(t, k);
      } else {
        assert TriangleAt(t + u, k) == TriangleAt(u, k - m);
      }
    }
  }

  /** Neither triangle of a quad repeats a vertex. */
  lemma QuadNondegenerate(base: int)
    ensures NoDegenerateTriangle(Quad(base))
  {
    var q := Quad(base);
    assert DistinctCorners(TriangleAt(q, 0)) && DistinctCorners(TriangleAt(q, 1));
  }

  /** No ribbon triangle repeats a vertex. */
  lemma {:induction false} RibbonIndicesNondegenerate(first: int, k: nat)
    ensures NoDegenerateTriangle(RibbonIndices(first, k))
  {
    if k > 0 {
      RibbonIndicesNondegenerate(first, k - 1);
      QuadNondegenerate(first + 2 * (k - 1));
      NoDegenerateAppend(RibbonIndices(first, k - 1), Quad(first + 2 * (k - 1)), 2 * (k - 1));
    }
  }

  lemma {:induction false} RibbonInnerLength(seg: Segment, r: real, ds: real, z: real, k: nat)
    ensures |RibbonInner(seg, r, ds, z, k)| == 2 * k
  {
    if k > 0 {
      RibbonInnerLength(seg, r, ds, z, k - 1);
    }
  }

  /** A ribbon with count `n` has `m = max(n, 1)` quads: it appends
      `2(m + 1)` vertices and `6m` indices, each index naming one of the
      appended vertices; no triangle repeats a vertex; the first two vertices
      are the top and the bottom of the cross edge at `seg.a`, the last two
      those of the cross edge at `seg.b`. */
  lemma RibbonShape(buf: Buffers, seg: Segment, r: real, n: int, z: real)
    ensures var m := Quads(n);
      var after := RibbonOf(buf, seg, r, n, z);
      var first := |buf.vertices|;
      && |after.vertices| == first + 2 * (m + 1)
      && after.vertices[..first] == buf.vertices
      && |after.triangles| == |buf.triangles| + 6 * m
      && after.triangles[..|buf.triangles|] == buf.triangles
      && (forall j :: |buf.triangles| <= j < |after.triangles| ==>
            first <= after.triangles[j] < first + 2 * (m + 1))
      && NoDegenerateTriangle(after.triangles[|buf.triangles|..])
      && after.vertices[first] == Lift(seg.a.Add(RibbonOffset(seg, r)), z)
      && after.vertices[first + 1] == Lift(seg.a.Sub(RibbonOffset(seg, r)), z)
      && after.vertices[|after.vertices| - 2] == Lift(seg.b.Add(RibbonOffset(seg, r)), z)
      && after.vertices[|after.vertices| - 1] == Lift(seg.b.Sub(RibbonOffset(seg, r)), z)
  {
    var m := Quads(n);
    var first := |buf.vertices|;
    RibbonInnerLength(seg, r, RibbonSpacing(seg, n), z, m - 1);
    RibbonIndicesRange(first, m);
    RibbonIndicesNondegenerate(first, m);
    var after := RibbonOf(buf, seg, r, n, z);
    assert after.triangles[|buf.triangles|..] == RibbonIndices(first, m);
    forall j | |buf.triangles| <= j < |after.triangles|
      ensures first <= after.triangles[j] < first + 2 * (m + 1)
    {
      assert after.triangles[j] == RibbonIndices(first, m)[j - |buf.triangles|];
    }
  }

  /** A count of zero behaves like a count of one: the loop is skipped and
      the unconditional last quad joins the start edge to the end edge. */
  lemma RibbonZeroIsOne(buf: Buffers, seg: Segment, r: real, n: int, z: real)
    requires n <= 1
    ensures RibbonOf(buf, seg, r, n, z).vertices
      == buf.vertices + CrossEdge(seg.a, RibbonOffset(seg, r), z) + CrossEdge(seg.b, RibbonOffset(seg, r), z)
    ensures RibbonOf(buf, seg, r, n, z).triangles == buf.triangles + Quad(|buf.vertices|)
  {
    assert RibbonIndices(|buf.vertices|, 1) == Quad(|buf.vertices|);
  }

  /** Adding `ds` to itself `k` times gives `k·ds`. */
  lemma {:induction false} AccumulatedIsMultiple(ds: real, k: nat)
    ensures Accumulated(ds, k) == k as real * ds
  {
    if k > 0 {
      AccumulatedIsMultiple(ds, k - 1);
    }
  }

  /** For any count `n >= 1`, `n` steps of `ds = length / n` cover the
      segment exactly, so the end edge sits where the inner edges would
      continue. */
  lemma RibbonSpacingCovers(a: Float2, b: Float2, sqrt: real -> real, n: int)
    requires EdgeOk(a, b, sqrt) && n >= 1
    ensures var seg := NewSegment(a, b, sqrt);
      seg.a.Add(seg.direction.Scale(Accumulated(RibbonSpacing(seg, n), n))) == seg.b
  {
    SegmentGeometry(a, b, sqrt);
    var seg := NewSegment(a, b, sqrt);
    AccumulatedIsMultiple(RibbonSpacing(seg, n), n);
    assert n as real * RibbonSpacing(seg, n) == seg.length;
  }

  // ---------------------------------------------------------------------
  // Fans, joints and caps.
  // ---------------------------------------------------------------------

  /** `k` fan triangles: `3k` indices, each either `prev0` or a vertex in
      `[middle, middle + k]`; the first is `prev0`. */
  lemma {:induction false} FanIndicesRange(prev0: int, middle: int, k: nat, left: bool)
    ensures |FanIndices(prev0, middle, k, left)| == 3 * k
    ensures forall j :: 0 <= j < |FanIndices(prev0, middle, k, left)| ==>
      var e := FanIndices(prev0, middle, k, left)[j];
      e == prev0 || middle <= e <= middle + k
    ensures k > 0 ==> FanIndices(prev0, middle, k, left)[0] == prev0
  {
    if k > 0 {
      FanIndicesRange(prev0, middle, k - 1, left);
    }
  }

  lemma FanWithCloseRange(prev0: int, middle: int, m: nat, close: int, left: bool)
    requires m >= 1
    ensures var t := FanWithClose(prev0, middle, m, close, left);
      && |t| == 3 * m
      && t[0] == prev0
      && (forall j :: 0 <= j < |t| ==> t[j] == prev0 || t[j] == close || middle <= t[j] < middle + m)
      && t[|t| - 3] == FanPrev(prev0, middle, m - 1)
      && (if left then t[|t| - 2] == middle && t[|t| - 1] == close
          else t[|t| - 2] == close && t[|t| - 1] == middle)
  {
    FanIndicesRange(prev0, middle, m - 1, left);
    var f := FanIndices(prev0, middle, m - 1, left);
    var t := FanWithClose(prev0, middle, m, close, left);
    forall j | 0 <= j < |t|
      ensures t[j] == prev0 || t[j] == close || middle <= t[j] < middle + m
    {
      if j < |f| {
        assert t[j] == f[j];
      }
    }
  }

  /** A fan triangle whose three corners differ repeats no vertex. */
  lemma FanTriangleNondegenerate(prev: int, middle: int, next: int, left: bool)
    requires prev != middle && prev != next && middle != next
    ensures NoDegenerateTriangle(FanTriangle(prev, middle, next, left))
  {
    assert DistinctCorners(TriangleAt(FanTriangle(prev, middle, next, left), 0));
  }

  /** No fan triangle repeats a vertex when the starting rim point `prev0`
      is neither the centre nor the first new rim point. */
  lemma {:induction false} FanIndicesNondegenerate(prev0: int, middle: int, k: nat, left: bool)
    requires prev0 != middle && prev0 != middle + 1
    ensures NoDegenerateTriangle(FanIndices(prev0, middle, k, left))
  {
    if k > 0 {
      var prev := FanPrev(prev0, middle, k - 1);
      FanIndicesNondegenerate(prev0, middle, k - 1, left);
      FanIndicesRange(prev0, middle, k - 1, left);
      FanTriangleNondegenerate(prev, middle, middle + k, left);
      NoDegenerateAppend(FanIndices(prev0, middle, k - 1, left), FanTriangle(prev, middle, middle + k, left), k - 1);
    }
  }

  /** The same for a fan with its closing triangle, when `close` is neither
      the centre nor the rim point the closing triangle starts from. */
  lemma FanWithCloseNondegenerate(prev0: int, middle: int, m: nat, close: int, left: bool)
    requires m >= 1 && prev0 != middle && prev0 != middle + 1
    requires close != middle && close != FanPrev(prev0, middle, m - 1)
    ensures NoDegenerateTriangle(FanWithClose(prev0, middle, m, close, left))
  {
    var prev := FanPrev(prev0, middle, m - 1);
    FanIndicesNondegenerate(prev0, middle, m - 1, left);
    FanIndicesRange(prev0, middle, m - 1, left);
    FanTriangleNondegenerate(prev, middle, close, left);
    NoDegenerateAppend(FanIndices(prev0, middle, m - 1, left), FanTriangle(prev, middle, close, left), m - 1);
  }

  lemma {:induction false} FanPointsLength(pivot: Float2, m: Float2x2, v: Float2, k: nat, z: real, subtract: bool)
    ensures |FanPoints(pivot, m, v, k, z, subtract)| == k
  {
    if k > 0 {
      FanPointsLength(pivot, m, v, k - 1, z, subtract);
    }
  }

  /** A join fan with count `n` has `m = max(n, 1)` triangles: it appends
      `m` vertices, the pivot `seg0.b` first, and `3m` indices. Its fan
      starts at the previous end edge, bottom (`first - 1`) on a left turn
      and top (`first - 2`) on a right turn, and its last triangle closes on
      the next ribbon's start edge, or on vertex 1 / 0 when last. Once the
      buffer holds at least three vertices (after any ribbon), none of its
      triangles repeats a vertex. */
  lemma JointShape(buf: Buffers, seg0: Segment, r: real, z: real, isLast: bool, lib: Libm,
                   angle: real, n: int, left: bool)
    ensures var after := JointFan(buf, seg0, r, z, isLast, lib, angle, n, left);
      var first := |buf.vertices|;
      var m := Quads(n);
      var t := after.triangles[|buf.triangles|..];
      var close := JointClose(first, m, left, isLast);
      && |after.vertices| == first + m
      && after.vertices[..first] == buf.vertices
      && after.vertices[first] == Lift(seg0.b, z)
      && |after.triangles| == |buf.triangles| + 3 * m
      && after.triangles[..|buf.triangles|] == buf.triangles
      && t[0] == (if left then first - 1 else first - 2)
      && (forall j :: 0 <= j < |t| ==> t[j] == t[0] || t[j] == close || first <= t[j] < first + m)
      && (if left then t[|t| - 2] == first && t[|t| - 1] == close
          else t[|t| - 2] == close && t[|t| - 1] == first)
      && close == (if isLast then (if left then 1 else 0) else if left then first + m + 1 else first + m)
      && (first >= 3 ==> NoDegenerateTriangle(t))
  {
    var m := Quads(n);
    var first := |buf.vertices|;
    if n > 1 {
      FanPointsLength(seg0.b, JointRotation(angle, n, left, lib), seg0.Ortho().Scale(r), n - 1, z, left);
    }
    JointIndicesShape(first, m, left, isLast);
    var after := JointFan(buf, seg0, r, z, isLast, lib, angle, n, left);
    assert after.triangles[|buf.triangles|..] == JointIndices(first, m, left, isLast);
  }

  /** The triangles of a join with pivot `first` and `m` triangles: the fan
      starts at `first - 1` (left) or `first - 2` (right), every index is
      that start, the closing vertex or one of the join's own vertices, the
      last triangle ends on the pivot and the closing vertex in the turn's
      winding, and once `first >= 3` no triangle repeats a vertex. */
  lemma JointIndicesShape(first: int, m: nat, left: bool, isLast: bool)
    requires m >= 1
    ensures var t := JointIndices(first, m, left, isLast);
      var close := JointClose(first, m, left, isLast);
      && |t| == 3 * m
      && t[0] == (if left then first - 1 else first - 2)
      && (forall j :: 0 <= j < |t| ==> t[j] == t[0] || t[j] == close || first <= t[j] < first + m)
      && (if left then t[|t| - 2] == first && t[|t| - 1] == close
          else t[|t| - 2] == close && t[|t| - 1] == first)
      && (first >= 3 ==> NoDegenerateTriangle(t))
  {
    var prev0 := if left then first - 1 else first - 2;
    var close := JointClose(first, m, left, isLast);
    FanWithCloseRange(prev0, first, m, close, left);
    if first >= 3 {
      assert FanPrev(prev0, first, m - 1) == if m == 1 then prev0 else first + m - 1;
      FanWithCloseNondegenerate(prev0, first, m, close, left);
    }
  }

  /** A cap appends exactly 8 vertices, the centre first, and 8 triangles.
      On an empty buffer its fan runs from vertex 8 to vertex 9, otherwise
      from `first - 1` to `first - 2`. No cap triangle repeats a vertex. */
  lemma CapShape(buf: Buffers, vec: Float2, pos: Float2, r: real, z: real, lib: Libm)
    requires lib.pi > 0.0
    ensures var after := Cap(buf, vec, pos, r, z, lib);
      var first := |buf.vertices|;
      var t := after.triangles[|buf.triangles|..];
      var prev0 := if first == 0 then 8 else first - 1;
      var close := if first == 0 then 9 else first - 2;
      && |after.vertices| == first + 8
      && after.vertices[..first] == buf.vertices
      && after.vertices[first] == Lift(pos, z)
      && |t| == 24
      && after.triangles[..|buf.triangles|] == buf.triangles
      && t[0] == prev0 && t[22] == first && t[23] == close
      && (forall j :: 0 <= j < 24 ==> t[j] == prev0 || t[j] == close || first <= t[j] < first + 8)
      && NoDegenerateTriangle(t)
  {
    CapCountIsEight(lib);
    var first := |buf.vertices|;
    FanPointsLength(pos, CapRotation(lib), vec.Scale(r), 7, z, false);
    var prev0 := if first == 0 then 8 else first - 1;
    var close := if first == 0 then 9 else first - 2;
    FanWithCloseRange(prev0, first, 8, close, true);
    FanWithCloseNondegenerate(prev0, first, 8, close, true);
    var after := Cap(buf, vec, pos, r, z, lib);
    assert after.triangles[|buf.triangles|..] == CapIndices(first, 8);
  }

  // ---------------------------------------------------------------------
  // Index validity across steps.
  // ---------------------------------------------------------------------

  /** Between steps the triangles may refer to the two vertices the next
      ribbon will append first: every index is below the vertex count plus
      two. A ribbon settles such forward references. */
  lemma RibbonSettles(buf: Buffers, seg: Segment, r: real, n: int, z: real)
    requires IndicesBelow(buf.triangles, |buf.vertices| + 2) && WholeTriangles(buf.triangles)
    ensures var after := RibbonOf(buf, seg, r, n, z);
      IndicesBelow(after.triangles, |after.vertices|) && WholeTriangles(after.triangles)
      && |after.vertices| >= |buf.vertices| + 4
  {
    var m := Quads(n);
    var first := |buf.vertices|;
    RibbonInnerLength(seg, r, RibbonSpacing(seg, n), z, m - 1);
    RibbonIndicesRange(first, m);
    var after := RibbonOf(buf, seg, r, n, z);
    var t := RibbonIndices(first, m);
    assert |after.vertices| == first + 2 * (m + 1);
    forall j | 0 <= j < |after.triangles|
      ensures 0 <= after.triangles[j] < |after.vertices|
    {
      if j < |buf.triangles| {
        assert after.triangles[j] == buf.triangles[j];
      } else {
        assert after.triangles[j] == t[j - |buf.triangles|];
      }
    }
  }

  /** A join fan after a ribbon leaves forward references only to the next
      ribbon's start edge, and none at all when it is the last join. */
  lemma JointFanDefers(buf: Buffers, seg0: Segment, r: real, z: real, isLast: bool, lib: Libm,
                       angle: real, n: int, left: bool)
    requires IndicesBelow(buf.triangles, |buf.vertices|) && WholeTriangles(buf.triangles)
    requires |buf.vertices| >= 2
    ensures var after := JointFan(buf, seg0, r, z, isLast, lib, angle, n, left);
      && IndicesBelow(after.triangles, |after.vertices| + 2)
      && (isLast ==> IndicesBelow(after.triangles, |after.vertices|))
      && WholeTriangles(after.triangles)
      && |after.vertices| >= |buf.vertices|
  {
    JointShape(buf, seg0, r, z, isLast, lib, angle, n, left);
    var after := JointFan(buf, seg0, r, z, isLast, lib, angle, n, left);
    var bound := if isLast then |after.vertices| else |after.vertices| + 2;
    forall j | 0 <= j < |after.triangles|
      ensures 0 <= after.triangles[j] < bound
    {
      if j < |buf.triangles| {
        assert after.triangles[j] == buf.triangles[j];
      } else {
        assert after.triangles[j] == after.triangles[|buf.triangles|..][j - |buf.triangles|];
      }
    }
  }

  /** The same for `JoinJoint`, which appends nothing on a straight turn. */
  lemma JointDefers(buf: Buffers, seg0: Segment, seg1: Segment, r: real, z: real, isLast: bool, lib: Libm)
    requires lib.pi != 0.0
    requires IndicesBelow(buf.triangles, |buf.vertices|) && WholeTriangles(buf.triangles)
    requires |buf.vertices| >= 2
    ensures var after := Joint(buf, seg0, seg1, r, z, isLast, lib);
      && IndicesBelow(after.triangles, |after.vertices| + 2)
      && (isLast ==> IndicesBelow(after.triangles, |after.vertices|))
      && WholeTriangles(after.triangles)
      && |after.vertices| >= |buf.vertices|
  {
    if JointSkipped(seg0, seg1) {
      IndicesBelowWeaken(buf.triangles, |buf.vertices|, |buf.vertices| + 2);
    } else {
      JointFanDefers(buf, seg0, r, z, isLast, lib, JointAngle(seg0, seg1, lib), JointCount(seg0, seg1, lib),
                     JointCross(seg0, seg1) > 0.0);
    }
  }

  /** A start cap on the empty buffer refers forward to vertices 8 and 9,
      the start edge of the ribbon that follows it. */
  lemma StartCapDefers(vec: Float2, pos: Float2, r: real, z: real, lib: Libm)
    requires lib.pi > 0.0
    ensures var after := Cap(Buffers([], []), vec, pos, r, z, lib);
      && IndicesBelow(after.triangles, |after.vertices| + 2)
      && WholeTriangles(after.triangles)
  {
    CapShape(Buffers([], []), vec, pos, r, z, lib);
  }

  /** An end cap after a ribbon refers only to its own vertices and to the
      ribbon's end edge. */
  lemma EndCapSettles(buf: Buffers, vec: Float2, pos: Float2, r: real, z: real, lib: Libm)
    requires lib.pi > 0.0
    requires IndicesBelow(buf.triangles, |buf.vertices|) && WholeTriangles(buf.triangles)
    requires |buf.vertices| >= 2
    ensures var after := Cap(buf, vec, pos, r, z, lib);
      IndicesBelow(after.triangles, |after.vertices|) && WholeTriangles(after.triangles)
  {
    CapShape(buf, vec, pos, r, z, lib);
    var after := Cap(buf, vec, pos, r, z, lib);
    forall j | 0 <= j < |after.triangles|
      ensures 0 <= after.triangles[j] < |after.vertices|
    {
      if j < |buf.triangles| {
        assert after.triangles[j] == buf.triangles[j];
      } else {
        assert after.triangles[j] == after.triangles[|buf.triangles|..][j - |buf.triangles|];
      }
    }
  }

  // ---------------------------------------------------------------------
  // No repeated vertex across steps.
  // ---------------------------------------------------------------------

  /** A step that appends only triangles without a repeated vertex keeps a
      whole-triangle list free of them. */
  lemma NoDegenerateExtend(before: seq<int>, after: seq<int>)
    requires WholeTriangles(before) && |before| <= |after| && after[..|before|] == before
    requires NoDegenerateTriangle(before) && NoDegenerateTriangle(after[|before|..])
    ensures NoDegenerateTriangle(after)
  {
    assert after == before + after[|before|..];
    NoDegenerateAppend(before, after[|before|..], |before| / 3);
  }

  /** A ribbon keeps the triangles whole and free of repeated vertices. */
  lemma RibbonKeepsNondegenerate(buf: Buffers, seg: Segment, r: real, n: int, z: real)
    requires WholeTriangles(buf.triangles) && NoDegenerateTriangle(buf.triangles)
    ensures var after := RibbonOf(buf, seg, r, n, z);
      && WholeTriangles(after.triangles) && NoDegenerateTriangle(after.triangles)
      && |after.vertices| >= |buf.vertices| + 4
  {
    var m := Quads(n);
    var first := |buf.vertices|;
    RibbonInnerLength(seg, r, RibbonSpacing(seg, n), z, m - 1);
    RibbonIndicesNondegenerate(first, m);
    NoDegenerateAppend(buf.triangles, RibbonIndices(first, m), |buf.triangles| / 3);
  }

  /** So does `JoinJoint` on a buffer of at least three vertices, which is
      where the drivers call it: after a ribbon. */
  lemma JointKeepsNondegenerate(buf: Buffers, seg0: Segment, seg1: Segment, r: real, z: real, isLast: bool, lib: Libm)
    requires lib.pi != 0.0
    requires WholeTriangles(buf.triangles) && NoDegenerateTriangle(buf.triangles) && |buf.vertices| >= 3
    ensures var after := Joint(buf, seg0, seg1, r, z, isLast, lib);
      && WholeTriangles(after.triangles) && NoDegenerateTriangle(after.triangles)
      && |after.vertices| >= |buf.vertices|
  {
    if !JointSkipped(seg0, seg1) {
      var angle := JointAngle(seg0, seg1, lib);
      var n := JointCount(seg0, seg1, lib);
      var left := JointCross(seg0, seg1) > 0.0;
      JointShape(buf, seg0, r, z, isLast, lib, angle, n, left);
      NoDegenerateExtend(buf.triangles, JointFan(buf, seg0, r, z, isLast, lib, angle, n, left).triangles);
    }
  }

  /** So does a cap, on any buffer. */
  lemma CapKeepsNondegenerate(buf: Buffers, vec: Float2, pos: Float2, r: real, z: real, lib: Libm)
    requires lib.pi > 0.0
    requires WholeTriangles(buf.triangles) && NoDegenerateTriangle(buf.triangles)
    ensures var after := Cap(buf, vec, pos, r, z, lib);
      WholeTriangles(after.triangles) && NoDegenerateTriangle(after.triangles)
  {
    CapShape(buf, vec, pos, r, z, lib);
    NoDegenerateExtend(buf.triangles, Cap(buf, vec, pos, r, z, lib).triangles);
  }

  /** After every iteration of the closed driver no triangle repeats a
      vertex. */
  lemma {:induction false} ClosedChainNondegenerate(segs: seq<Segment>, r: real, step: real, z: real, lib: Libm, k: nat)
    requires step > 0.0 && lib.pi != 0.0 && k <= |segs|
    ensures var b := ClosedChain(segs, r, step, z, lib, k);
      WholeTriangles(b.triangles) && NoDegenerateTriangle(b.triangles)
  {
    if k > 0 {
      ClosedChainNondegenerate(segs, r, step, z, lib, k - 1);
      var before := ClosedChain(segs, r, step, z, lib, k - 1);
      var seg0 := segs[Prev(k - 1, |segs|)];
      RibbonKeepsNondegenerate(before, seg0, r, RibbonCount(seg0, step), z);
      JointKeepsNondegenerate(Ribbon(before, seg0, r, step, z), seg0, segs[k - 1], r, z, k == |segs|, lib);
    }
  }

  /** After the start cap, the first ribbon and each join-plus-ribbon of the
      open driver no triangle repeats a vertex. */
  lemma {:induction false} OpenChainNondegenerate(segs: seq<Segment>, startCap: bool, r: real, step: real, z: real,
                                                  lib: Libm, k: nat)
    requires step > 0.0 && lib.pi > 0.0 && 1 <= k <= |segs|
    ensures var b := OpenChain(segs, startCap, r, step, z, lib, k);
      && WholeTriangles(b.triangles) && NoDegenerateTriangle(b.triangles)
      && |b.vertices| >= 4
  {
    if k == 1 {
      if startCap {
        CapKeepsNondegenerate(Buffers([], []), segs[0].Ortho(), segs[0].a, r, z, lib);
      }
      RibbonKeepsNondegenerate(OpenStart(segs, startCap, r, z, lib), segs[0], r, RibbonCount(segs[0], step), z);
    } else {
      OpenChainNondegenerate(segs, startCap, r, step, z, lib, k - 1);
      var before := OpenChain(segs, startCap, r, step, z, lib, k - 1);
      JointKeepsNondegenerate(before, segs[k - 2], segs[k - 1], r, z, false, lib);
      var joined := Joint(before, segs[k - 2], segs[k - 1], r, z, false, lib);
      RibbonKeepsNondegenerate(joined, segs[k - 1], r, RibbonCount(segs[k - 1], step), z);
    }
  }

  // ---------------------------------------------------------------------
  // Whole strokes.
  // ---------------------------------------------------------------------

  /** One iteration of the closed driver, a ribbon and then a join, keeps
      the deferred-validity invariant, and settles it on the last join. */
  lemma RibbonThenJoint(buf: Buffers, seg0: Segment, seg1: Segment, r: real, step: real, z: real,
                        isLast: bool, lib: Libm)
    requires step > 0.0 && lib.pi != 0.0
    requires IndicesBelow(buf.triangles, |buf.vertices| + 2) && WholeTriangles(buf.triangles)
    ensures var after := Joint(Ribbon(buf, seg0, r, step, z), seg0, seg1, r, z, isLast, lib);
      && IndicesBelow(after.triangles, |after.vertices| + 2)
      && WholeTriangles(after.triangles)
      && (isLast ==> IndicesBelow(after.triangles, |after.vertices|))
  {
    RibbonSettles(buf, seg0, r, RibbonCount(seg0, step), z);
    JointDefers(Ribbon(buf, seg0, r, step, z), seg0, seg1, r, z, isLast, lib);
  }

  /** After every iteration of the closed driver the only forward
      references are to the next ribbon's start edge; after the last one
      there are none. */
  lemma {:induction false} ClosedChainValid(segs: seq<Segment>, r: real, step: real, z: real, lib: Libm, k: nat)
    requires step > 0.0 && lib.pi != 0.0 && k <= |segs|
    ensures var b := ClosedChain(segs, r, step, z, lib, k);
      && IndicesBelow(b.triangles, |b.vertices| + 2)
      && WholeTriangles(b.triangles)
      && (k == |segs| ==> IndicesBelow(b.triangles, |b.vertices|))
  {
    if k > 0 {
      ClosedChainValid(segs, r, step, z, lib, k - 1);
      RibbonThenJoint(ClosedChain(segs, r, step, z, lib, k - 1), segs[Prev(k - 1, |segs|)], segs[k - 1],
                      r, step, z, k == |segs|, lib);
    }
  }

  /** After the closed driver every triangle index names a vertex and no
      triangle repeats one. */
  lemma ClosedStrokeValid(path: seq<Float2>, style: StrokeStyle, z: real, lib: Libm)
    requires StrokeOk(style, lib) && ClosedPathOk(path, lib.sqrt)
    ensures var b := ClosedStrokeSpec(path, style, z, lib);
      IndicesBelow(b.triangles, |b.vertices|) && WholeTriangles(b.triangles)
      && NoDegenerateTriangle(b.triangles)
  {
    ClosedChainValid(ClosedEdges(path, lib.sqrt), HalfWidth(style), style.step, z, lib, |path|);
    ClosedChainNondegenerate(ClosedEdges(path, lib.sqrt), HalfWidth(style), style.step, z, lib, |path|);
  }

  /** One iteration of the open driver, a join and then a ribbon, keeps the
      mesh valid. */
  lemma JointThenRibbon(buf: Buffers, seg0: Segment, seg1: Segment, r: real, step: real, z: real, lib: Libm)
    requires step > 0.0 && lib.pi != 0.0
    requires IndicesBelow(buf.triangles, |buf.vertices|) && WholeTriangles(buf.triangles)
    requires |buf.vertices| >= 2
    ensures var after := Ribbon(Joint(buf, seg0, seg1, r, z, false, lib), seg1, r, step, z);
      && IndicesBelow(after.triangles, |after.vertices|)
      && WholeTriangles(after.triangles)
      && |after.vertices| >= 2
  {
    JointDefers(buf, seg0, seg1, r, z, false, lib);
    RibbonSettles(Joint(buf, seg0, seg1, r, z, false, lib), seg1, r, RibbonCount(seg1, step), z);
  }

  /** After each iteration of the open driver (a join and a ribbon) every
      triangle index names a vertex. */
  lemma {:induction false} OpenChainValid(segs: seq<Segment>, startCap: bool, r: real, step: real, z: real,
                                          lib: Libm, k: nat)
    requires step > 0.0 && lib.pi > 0.0 && 1 <= k <= |segs|
    ensures var b := OpenChain(segs, startCap, r, step, z, lib, k);
      && IndicesBelow(b.triangles, |b.vertices|)
      && WholeTriangles(b.triangles)
      && |b.vertices| >= 2
  {
    if k == 1 {
      if startCap {
        StartCapDefers(segs[0].Ortho(), segs[0].a, r, z, lib);
      }
      RibbonSettles(OpenStart(segs, startCap, r, z, lib), segs[0], r, RibbonCount(segs[0], step), z);
    } else {
      OpenChainValid(segs, startCap, r, step, z, lib, k - 1);
      JointThenRibbon(OpenChain(segs, startCap, r, step, z, lib, k - 1), segs[k - 2], segs[k - 1], r, step, z, lib);
    }
  }

  /** After the open driver every triangle index names a vertex and no
      triangle repeats one. */
  lemma OpenStrokeValid(path: seq<Float2>, style: StrokeStyle, z: real, lib: Libm)
    requires StrokeOk(style, lib) && OpenPathOk(path, lib.sqrt)
    ensures var b := OpenStrokeSpec(path, style, z, lib);
      IndicesBelow(b.triangles, |b.vertices|) && WholeTriangles(b.triangles)
      && NoDegenerateTriangle(b.triangles)
  {
    var segs := OpenEdges(path, lib.sqrt);
    var r := HalfWidth(style);
    var chain := OpenChain(segs, style.startCap, r, style.step, z, lib, |segs|);
    OpenChainValid(segs, style.startCap, r, style.step, z, lib, |segs|);
    OpenChainNondegenerate(segs, style.startCap, r, style.step, z, lib, |segs|);
    if style.endCap {
      var last := segs[|segs| - 1];
      EndCapSettles(chain, last.Ortho().Neg(), last.b, r, z, lib);
      CapKeepsNondegenerate(chain, last.Ortho().Neg(), last.b, r, z, lib);
    }
  }
}
