/** The polyline stroker `PathStroke` step by step: the `ref` vertex and
    triangle lists become a pair of sequences passed in and returned, and
    each step's loop is proved to append exactly what `StrokeSpec` says. */
module PathStroke {
  import opened Math2d
  import opened Segments
  import opened Style
  import opened MeshIndex
  import opened StrokeSpec
  import opened StrokeProperties

  /** One more iteration of the ribbon loop appends the edge at `s = i·ds`,
      as `JoinSegment` computes it: `sTop + s·direction`,
      `sBot + s·direction`. */
  lemma RibbonInnerStep(start: seq<Float3>, segment: Segment, r: real, ds: real, z: real, i: nat, s: real)
    requires i >= 1 && s == Accumulated(ds, i)
    ensures var o := segment.Ortho().Scale(r);
      var d := segment.direction.Scale(s);
      start + RibbonInner(segment, r, ds, z, i)
        == start + RibbonInner(segment, r, ds, z, i - 1) + [Lift(segment.a.Add(o).Add(d), z), Lift(segment.a.Sub(o).Add(d), z)]
    ensures s + ds == Accumulated(ds, i + 1)
  {
  }

  lemma RibbonIndicesStep(start: seq<int>, first: int, i: nat)
    requires i >= 1
    ensures var top := first + 2 * (i - 1);
      start + RibbonIndices(first, i)
        == start + RibbonIndices(first, i - 1) + [top + 1, top, top + 2] + [top + 1, top + 2, top + 3]
  {
  }

  lemma FanPointsStep(start: seq<Float3>, pivot: Float2, m: Float2x2, v: Float2, k: nat, z: real, subtract: bool)
    requires k >= 1
    ensures start + FanPoints(pivot, m, v, k, z, subtract)
      == start + FanPoints(pivot, m, v, k - 1, z, subtract)
         + [Lift(if subtract then pivot.Sub(Rotated(m, v, k)) else pivot.Add(Rotated(m, v, k)), z)]
    ensures Rotated(m, v, k) == Mul(m, Rotated(m, v, k - 1))
  {
  }

  lemma FanIndicesStep(start: seq<int>, prev0: int, middle: int, k: nat, left: bool)
    requires k >= 1
    ensures var prev := FanPrev(prev0, middle, k - 1);
      start + FanIndices(prev0, middle, k, left)
        == start + FanIndices(prev0, middle, k - 1, left)
           + (if left then [prev, middle, middle + k] else [prev, middle + k, middle])
  {
  }

  /** A ribbon as `JoinSegment` appends it: the start edge, the inner edges,
      the end edge; the loop's quads, then the last quad. */
  lemma RibbonAssembled(vertices: seq<Float3>, triangles: seq<int>, segment: Segment, r: real, n: int, z: real)
    ensures var o := RibbonOffset(segment, r);
      var top := |vertices| + 2 * (Quads(n) - 1);
      RibbonOf(Buffers(vertices, triangles), segment, r, n, z)
        == Buffers(vertices + CrossEdge(segment.a, o, z) + RibbonInner(segment, r, RibbonSpacing(segment, n), z, Quads(n) - 1)
                     + [Lift(segment.b.Add(o), z), Lift(segment.b.Sub(o), z)],
                   triangles + RibbonIndices(|vertices|, Quads(n) - 1) + [top + 1, top, top + 2] + [top + 1, top + 2, top + 3])
  {
    RibbonVerticesAssembled(vertices, segment, r, n, z);
    LastQuad(triangles, |vertices|, Quads(n));
  }

  lemma RibbonVerticesAssembled(vertices: seq<Float3>, segment: Segment, r: real, n: int, z: real)
    ensures var o := RibbonOffset(segment, r);
      vertices + RibbonVertices(segment, r, n, z)
        == vertices + CrossEdge(segment.a, o, z) + RibbonInner(segment, r, RibbonSpacing(segment, n), z, Quads(n) - 1)
             + [Lift(segment.b.Add(o), z), Lift(segment.b.Sub(o), z)]
  {
    var o := RibbonOffset(segment, r);
    var start := CrossEdge(segment.a, o, z);
    var inner := RibbonInner(segment, r, RibbonSpacing(segment, n), z, Quads(n) - 1);
    var end := CrossEdge(segment.b, o, z);
    AppendAssociates(vertices, start + inner, end);
    AppendAssociates(vertices, start, inner);
  }

  lemma LastQuad(triangles: seq<int>, first: int, m: nat)
    requires m >= 1
    ensures var top := first + 2 * (m - 1);
      triangles + RibbonIndices(first, m)
        == triangles + RibbonIndices(first, m - 1) + [top + 1, top, top + 2] + [top + 1, top + 2, top + 3]
  {
    var top := first + 2 * (m - 1);
    AppendAssociates(triangles, RibbonIndices(first, m - 1), Quad(top));
    assert Quad(top) == [top + 1, top, top + 2] + [top + 1, top + 2, top + 3];
    AppendAssociates(triangles + RibbonIndices(first, m - 1), [top + 1, top, top + 2], [top + 1, top + 2, top + 3]);
  }

  lemma AppendAssociates<T>(a: seq<T>, b: seq<T>, c: seq<T>)
    ensures a + (b + c) == a + b + c
  {
  }

  /** `JoinSegment`: the quad strip along `segment`. */
  method JoinSegment(vertices: seq<Float3>, triangles: seq<int>, segment: Segment,
                     r: real, step: real, z: real)
    returns (verts: seq<Float3>, tris: seq<int>)
    requires step > 0.0
    ensures Buffers(verts, tris) == Ribbon(Buffers(vertices, triangles), segment, r, step, z)
  {
    var n := Trunc(segment.length / step + 0.5);
    RibbonAssembled(vertices, triangles, segment, r, n, z);
    var ds := RibbonSpacing(segment, n);
    var ortho := segment.Ortho().Scale(r);
    var sTop := segment.a.Add(ortho);
    var sBot := segment.a.Sub(ortho);
    var first := |vertices|;
    var index := first;
    verts := vertices + [Lift(sTop, z), Lift(sBot, z)];
    tris := triangles;
    var i0Top, i0Bot := index, index + 1;
    var i1Top, i1Bot := index + 2, index + 3;
    var s := ds;
    index := index + 4;
    ghost var start := vertices + CrossEdge(segment.a, ortho, z);
    var i := 1;
    while i < n
      invariant 1 <= i <= Quads(n)
      invariant verts == start + RibbonInner(segment, r, ds, z, i - 1)
      invariant tris == triangles + RibbonIndices(first, i - 1)
      invariant i0Top == first + 2 * (i - 1) && i0Bot == i0Top + 1
      invariant i1Top == i0Top + 2 && i1Bot == i0Top + 3
      invariant index == i0Top + 4
      invariant s == Accumulated(ds, i)
    {
      var dir := segment.direction.Scale(s);
      var pTop := sTop.Add(dir);
      var pBot := sBot.Add(dir);
      RibbonInnerStep(start, segment, r, ds, z, i, s);
      RibbonIndicesStep(triangles, first, i);
      verts := verts + [Lift(pTop, z), Lift(pBot, z)];
      tris := tris + [i0Bot, i0Top, i1Top] + [i0Bot, i1Top, i1Bot];
      i0Top, i0Bot := i1Top, i1Bot;
      i1Top, i1Bot := index, index + 1;
      index := index + 2;
      s := s + ds;
      i := i + 1;
    }
    tris := tris + [i0Bot, i0Top, i1Top] + [i0Bot, i1Top, i1Bot];
    sTop := segment.b.Add(ortho);
    sBot := segment.b.Sub(ortho);
    verts := verts + [Lift(sTop, z), Lift(sBot, z)];
  }

  /** The loop the three fans share: `count - 1` times, turn `ortho` by `m`,
      emit the triangle from `prev` through `middle` to the new rim point
      (wound `(prev, middle, index)` or `(prev, index, middle)`), and append
      that point at `pivot ∓ ortho`. */
  method AppendFan(vertices: seq<Float3>, triangles: seq<int>, prev0: int, middle: int,
                   pivot: Float2, m: Float2x2, v: Float2, count: int, z: real,
                   left: bool, subtract: bool)
    returns (verts: seq<Float3>, tris: seq<int>, prev: int, index: int)
    requires count >= 1
    ensures verts == vertices + FanPoints(pivot, m, v, count - 1, z, subtract)
    ensures tris == triangles + FanIndices(prev0, middle, count - 1, left)
    ensures prev == FanPrev(prev0, middle, count - 1) && index == middle + count
  {
    verts, tris := vertices, triangles;
    prev := prev0;
    index := middle + 1;
    var ortho := v;
    var i := 1;
    while i < count
      invariant 1 <= i <= count
      invariant ortho == Rotated(m, v, i - 1)
      invariant prev == FanPrev(prev0, middle, i - 1)
      invariant index == middle + i
      invariant verts == vertices + FanPoints(pivot, m, v, i - 1, z, subtract)
      invariant tris == triangles + FanIndices(prev0, middle, i - 1, left)
    {
      FanPointsStep(vertices, pivot, m, v, i, z, subtract);
      FanIndicesStep(triangles, prev0, middle, i, left);
      ortho := Mul(m, ortho);
      var p := if subtract then pivot.Sub(ortho) else pivot.Add(ortho);
      tris := tris + (if left then [prev, middle, index] else [prev, index, middle]);
      verts := verts + [Lift(p, z)];
      prev := index;
      index := index + 1;
      i := i + 1;
    }
  }

  /** The join's vertices as `JoinJoint` appends them: the pivot, then the
      fan's rim points when there are at least two triangles. */
  lemma JointVerticesAssembled(vertices: seq<Float3>, seg0: Segment, r: real, z: real, lib: Libm,
                               angle: real, n: int, left: bool)
    ensures vertices + JointVertices(seg0, r, z, lib, angle, n, left)
      == if n > 1 then
           vertices + [Lift(seg0.b, z)]
             + FanPoints(seg0.b, JointRotation(angle, n, left, lib), seg0.Ortho().Scale(r), n - 1, z, left)
         else vertices + [Lift(seg0.b, z)]
  {
  }

  /** The join's triangles as `JoinJoint` appends them: the fan's triangles,
      then the one closing on `JointClose`. */
  lemma JointIndicesAssembled(triangles: seq<int>, first: int, n: int, left: bool, isLast: bool)
    ensures var m := Quads(n);
      var prev0 := if left then first - 1 else first - 2;
      var prev := FanPrev(prev0, first, m - 1);
      var close := JointClose(first, m, left, isLast);
      triangles + JointIndices(first, m, left, isLast)
        == triangles + FanIndices(prev0, first, m - 1, left) + (if left then [prev, first, close] else [prev, close, first])
  {
  }

  /** `JoinJoint`: the round join on the outer side of the turn from `seg0`
      to `seg1`; nothing when the turn is straight. */
  method JoinJoint(vertices: seq<Float3>, triangles: seq<int>, seg0: Segment, seg1: Segment,
                   r: real, z: real, isLast: bool, lib: Libm)
    returns (verts: seq<Float3>, tris: seq<int>)
    requires lib.pi != 0.0
    ensures Buffers(verts, tris) == Joint(Buffers(vertices, triangles), seg0, seg1, r, z, isLast, lib)
  {
    var v0 := seg0.Ortho();
    var v1 := seg1.Ortho();
    var cross := Cross(v0, v1);
    if Abs(cross) < ECross {
      return vertices, triangles;
    }
    var dot := Dot(v0, v1);
    var angle := lib.acos(dot);
    var n := Trunc(angle / AngularStep(lib) + 0.5);
    if cross > 0.0 {
      verts, tris := JoinLeftTurn(vertices, triangles, seg0, r, z, isLast, angle, n, lib);
    } else {
      verts, tris := JoinRightTurn(vertices, triangles, seg0, r, z, isLast, angle, n, lib);
    }
  }

  /** The left-turn branch of `JoinJoint`: the pivot, then the fan from the
      previous ribbon's bottom end vertex, turning `r·v0` by `+angle/n` and
      placing rim points at `seg0.b - ortho`. */
  method JoinLeftTurn(vertices: seq<Float3>, triangles: seq<int>, seg0: Segment,
                      r: real, z: real, isLast: bool, angle: real, n: int, lib: Libm)
    returns (verts: seq<Float3>, tris: seq<int>)
    ensures Buffers(verts, tris) == JointFan(Buffers(vertices, triangles), seg0, r, z, isLast, lib, angle, n, true)
  {
    JointVerticesAssembled(vertices, seg0, r, z, lib, angle, n, true);
    JointIndicesAssembled(triangles, |vertices|, n, true, isLast);
    var prev := |vertices| - 1;
    var middle := |vertices|;
    verts := vertices + [Lift(seg0.b, z)];
    tris := triangles;
    var index := middle + 1;
    if n > 1 {
      var dA := angle / n as real;
      var m := RotationMatrix(lib.cos(dA), lib.sin(dA));
      assert m == JointRotation(angle, n, true, lib);
      verts, tris, prev, index := AppendFan(verts, tris, prev, middle, seg0.b, m, seg0.Ortho().Scale(r), n, z, true, true);
    }
    assert verts == vertices + JointVertices(seg0, r, z, lib, angle, n, true);
    assert tris == triangles + FanIndices(middle - 1, middle, Quads(n) - 1, true);
    assert prev == FanPrev(middle - 1, middle, Quads(n) - 1) && index == middle + Quads(n);
    if isLast {
      index := 1;
    } else {
      index := index + 1;
    }
    assert index == JointClose(middle, Quads(n), true, isLast);
    tris := tris + [prev, middle, index];
  }

  /** The right-turn branch of `JoinJoint`: the pivot, then the fan from the
      previous ribbon's top end vertex, turning `r·v0` by `-angle/n` and
      placing rim points at `seg0.b + ortho`, wound the other way. */
  method JoinRightTurn(vertices: seq<Float3>, triangles: seq<int>, seg0: Segment,
                       r: real, z: real, isLast: bool, angle: real, n: int, lib: Libm)
    returns (verts: seq<Float3>, tris: seq<int>)
    ensures Buffers(verts, tris) == JointFan(Buffers(vertices, triangles), seg0, r, z, isLast, lib, angle, n, false)
  {
    JointVerticesAssembled(vertices, seg0, r, z, lib, angle, n, false);
    JointIndicesAssembled(triangles, |vertices|, n, false, isLast);
    var prev := |vertices| - 2;
    var middle := |vertices|;
    verts := vertices + [Lift(seg0.b, z)];
    tris := triangles;
    var index := middle + 1;
    if n > 1 {
      var dA := angle / n as real;
      var m := RotationMatrix(lib.cos(-dA), lib.sin(-dA));
      assert m == JointRotation(angle, n, false, lib);
      verts, tris, prev, index := AppendFan(verts, tris, prev, middle, seg0.b, m, seg0.Ortho().Scale(r), n, z, false, false);
    }
    assert verts == vertices + JointVertices(seg0, r, z, lib, angle, n, false);
    assert tris == triangles + FanIndices(middle - 2, middle, Quads(n) - 1, false);
    assert prev == FanPrev(middle - 2, middle, Quads(n) - 1) && index == middle + Quads(n);
    if isLast {
      index := 0;
    }
    assert index == JointClose(middle, Quads(n), false, isLast);
    tris := tris + [prev, index, middle];
  }

  /** `JoinCap`: the half-disc fan of 8 triangles centred at `pos`, starting
      from `pos + r·vec`. */
  method JoinCap(vertices: seq<Float3>, triangles: seq<int>, vec: Float2, pos: Float2,
                 r: real, z: real, lib: Libm)
    returns (verts: seq<Float3>, tris: seq<int>)
    requires lib.pi > 0.0
    ensures Buffers(verts, tris) == Cap(Buffers(vertices, triangles), vec, pos, r, z, lib)
  {
    CapCountIsEight(lib);
    var n := Trunc(lib.pi / AngularStep(lib) + 0.1);
    var dA := lib.pi / n as real;
    var m := RotationMatrix(lib.cos(dA), lib.sin(dA));
    assert m == CapRotation(lib);
    var prev, close;
    if |vertices| == 0 {
      prev := n;
      close := n + 1;
    } else {
      prev := |vertices| - 1;
      close := prev - 1;
    }
    var middle := |vertices|;
    verts := vertices + [Lift(pos, z)];
    var index;
    verts, tris, prev, index := AppendFan(verts, triangles, prev, middle, pos, m, vec.Scale(r), n, z, true, false);
    assert verts == vertices + CapVertices(vec, pos, r, z, lib);
    tris := tris + [prev, middle, close];
    assert tris == triangles + CapIndices(middle, n);
  }

  /** Point `i` of a closed path and its predecessor form segment `i`. */
  lemma ClosedEdgeAt(path: seq<Float2>, sqrt: real -> real, i: int)
    requires ClosedPathOk(path, sqrt) && 0 <= i < |path|
    ensures EdgeOk(path[Prev(i, |path|)], path[i], sqrt)
    ensures ClosedEdges(path, sqrt)[i] == NewSegment(path[Prev(i, |path|)], path[i], sqrt)
  {
    ClosedEdgesUpToAt(path, sqrt, |path|, i);
  }

  /** Entry `i` of the first `k` segments is segment `i`. */
  lemma {:induction false} ClosedEdgesUpToAt(path: seq<Float2>, sqrt: real -> real, k: nat, i: int)
    requires ClosedPathOk(path, sqrt) && 0 <= i < k <= |path|
    ensures ClosedEdgesUpTo(path, sqrt, k)[i] == ClosedEdge(path, i, sqrt)
  {
    if i < k - 1 {
      ClosedEdgesUpToAt(path, sqrt, k - 1, i);
    }
  }

  /** The body of the closed driver's loop: the ribbon of `seg0`, then the
      join from `seg0` to `seg1`. */
  method ClosedIteration(vertices: seq<Float3>, triangles: seq<int>, seg0: Segment, seg1: Segment,
                         r: real, z: real, isClose: bool, lib: Libm, step: real,
                         ghost segs: seq<Segment>, ghost i: nat)
    returns (verts: seq<Float3>, tris: seq<int>)
    requires step > 0.0 && lib.pi != 0.0 && i < |segs|
    requires seg0 == segs[Prev(i, |segs|)] && seg1 == segs[i] && isClose == (i + 1 == |segs|)
    requires Buffers(vertices, triangles) == ClosedChain(segs, r, step, z, lib, i)
    ensures Buffers(verts, tris) == ClosedAfterIteration(segs, r, step, z, lib, i)
  {
    verts, tris := JoinSegment(vertices, triangles, seg0, r, step, z);
    verts, tris := JoinJoint(verts, tris, seg0, seg1, r, z, isClose, lib);
  }

  /** After all `n` iterations the closed stroke is complete and valid. */
  lemma ClosedStrokeEnd(path: seq<Float2>, style: StrokeStyle, z: real, lib: Libm,
                        segs: seq<Segment>, r: real, after: Buffers)
    requires StrokeOk(style, lib) && ClosedPathOk(path, lib.sqrt)
    requires segs == ClosedEdges(path, lib.sqrt) && r == HalfWidth(style)
    requires after == ClosedChain(segs, r, style.step, z, lib, |path|)
    ensures after == ClosedStrokeSpec(path, style, z, lib)
    ensures IndicesBelow(after.triangles, |after.vertices|) && WholeTriangles(after.triangles)
    ensures NoDegenerateTriangle(after.triangles)
  {
    ClosedStrokeValid(path, style, z, lib);
  }

  /** Point `i` of an open path and the one before it form segment `i - 1`. */
  lemma OpenEdgeAt(path: seq<Float2>, sqrt: real -> real, i: int)
    requires OpenPathOk(path, sqrt) && 1 <= i < |path|
    ensures EdgeOk(path[i - 1], path[i], sqrt)
    ensures OpenEdges(path, sqrt)[i - 1] == NewSegment(path[i - 1], path[i], sqrt)
  {
    OpenEdgesUpToAt(path, sqrt, |path| - 1, i - 1);
  }

  /** Entry `i` of the first `k` segments is the segment ending at point `i + 1`. */
  lemma {:induction false} OpenEdgesUpToAt(path: seq<Float2>, sqrt: real -> real, k: nat, i: int)
    requires OpenPathOk(path, sqrt) && 0 <= i < k < |path|
    ensures OpenEdgesUpTo(path, sqrt, k)[i] == OpenEdge(path, i + 1, sqrt)
  {
    if i < k - 1 {
      OpenEdgesUpToAt(path, sqrt, k - 1, i);
    }
  }

  /** The optional start cap and the first ribbon give the buffers after the
      first iteration of the open driver. */
  lemma OpenChainFirst(segs: seq<Segment>, startCap: bool, r: real, step: real, z: real, lib: Libm,
                       capped: Buffers, after: Buffers)
    requires step > 0.0 && lib.pi > 0.0 && |segs| >= 1
    requires capped == if startCap then Cap(Buffers([], []), segs[0].Ortho(), segs[0].a, r, z, lib) else Buffers([], [])
    requires after == Ribbon(capped, segs[0], r, step, z)
    ensures after == OpenChain(segs, startCap, r, step, z, lib, 1)
  {
  }

  /** The body of the open driver's loop: the join from `seg0` to `seg1`,
      then the ribbon of `seg1`. */
  method OpenIteration(vertices: seq<Float3>, triangles: seq<int>, seg0: Segment, seg1: Segment,
                       r: real, z: real, lib: Libm, step: real,
                       ghost segs: seq<Segment>, ghost startCap: bool, ghost k: nat)
    returns (verts: seq<Float3>, tris: seq<int>)
    requires step > 0.0 && lib.pi > 0.0 && 1 <= k < |segs|
    requires seg0 == segs[k - 1] && seg1 == segs[k]
    requires Buffers(vertices, triangles) == OpenChain(segs, startCap, r, step, z, lib, k)
    ensures Buffers(verts, tris) == OpenAfterIteration(segs, startCap, r, step, z, lib, k)
  {
    verts, tris := JoinJoint(vertices, triangles, seg0, seg1, r, z, false, lib);
    verts, tris := JoinSegment(verts, tris, seg1, r, step, z);
  }

  /** The optional end cap completes the open stroke, a valid mesh without
      a repeated vertex in any triangle. */
  lemma OpenStrokeEnd(path: seq<Float2>, style: StrokeStyle, z: real, lib: Libm,
                      segs: seq<Segment>, r: real, before: Buffers, after: Buffers)
    requires StrokeOk(style, lib) && OpenPathOk(path, lib.sqrt)
    requires segs == OpenEdges(path, lib.sqrt) && r == HalfWidth(style)
    requires before == OpenChain(segs, style.startCap, r, style.step, z, lib, |segs|)
    requires after == OpenFinish(before, segs, style.endCap, r, z, lib)
    ensures after == OpenStrokeSpec(path, style, z, lib)
    ensures IndicesBelow(after.triangles, |after.vertices|) && WholeTriangles(after.triangles)
    ensures NoDegenerateTriangle(after.triangles)
  {
    OpenStrokeValid(path, style, z, lib);
  }

  /** The loop of `ClosedStroke`: `seg0` starts as the segment from
      `path[n-2]` to `path[n-1]`; for each point `i`, the ribbon of `seg0` and
      the join to the segment ending at `path[i]`, the last join closing onto
      the first ribbon. */
  method ClosedLoop(path: seq<Float2>, r: real, step: real, z: real, lib: Libm)
    returns (verts: seq<Float3>, tris: seq<int>)
    requires step > 0.0 && lib.pi > 0.0 && ClosedPathOk(path, lib.sqrt)
    ensures Buffers(verts, tris) == ClosedChain(ClosedEdges(path, lib.sqrt), r, step, z, lib, |path|)
  {
    var n := |path|;
    ghost var segs := ClosedEdges(path, lib.sqrt);
    verts, tris := [], [];
    var a := path[n - 2];
    var b := path[n - 1];
    ClosedEdgeAt(path, lib.sqrt, n - 1);
    var seg0 := NewSegment(a, b, lib.sqrt);
    var i := 0;
    while i < n
      invariant 0 <= i <= n
      invariant seg0 == segs[if i == 0 then n - 1 else i - 1]
      invariant seg0.b == path[if i == 0 then n - 1 else i - 1]
      invariant Buffers(verts, tris) == ClosedChain(segs, r, step, z, lib, i)
    {
      var c := path[i];
      ClosedEdgeAt(path, lib.sqrt, i);
      var seg1 := NewSegment(seg0.b, c, lib.sqrt);
      var isClose := i + 1 == n;
      verts, tris := ClosedIteration(verts, tris, seg0, seg1, r, z, isClose, lib, step, segs, i);
      seg0 := seg1;
      i := i + 1;
    }
  }

  /** `ClosedStroke`: the closed loop with half the style's width; the result
      is a valid mesh in which no triangle repeats a vertex. */
  method ClosedStroke(path: seq<Float2>, style: StrokeStyle, z: real, lib: Libm)
    returns (verts: seq<Float3>, tris: seq<int>)
    requires StrokeOk(style, lib) && ClosedPathOk(path, lib.sqrt)
    ensures Buffers(verts, tris) == ClosedStrokeSpec(path, style, z, lib)
    ensures IndicesBelow(tris, |verts|) && |tris| % 3 == 0 && NoDegenerateTriangle(tris)
  {
    var r := 0.5 * style.width;
    verts, tris := ClosedLoop(path, r, style.step, z, lib);
    ClosedStrokeEnd(path, style, z, lib, ClosedEdges(path, lib.sqrt), r, Buffers(verts, tris));
  }

  /** `OpenStroke`: an optional start cap, the ribbon of the first segment,
      then a join and a ribbon per further point, and an optional end cap.
      The result is a valid mesh. */
  method OpenStroke(path: seq<Float2>, style: StrokeStyle, z: real, lib: Libm)
    returns (verts: seq<Float3>, tris: seq<int>)
    requires StrokeOk(style, lib) && OpenPathOk(path, lib.sqrt)
    ensures Buffers(verts, tris) == OpenStrokeSpec(path, style, z, lib)
    ensures IndicesBelow(tris, |verts|) && |tris| % 3 == 0 && NoDegenerateTriangle(tris)
  {
    var n := |path|;
    ghost var segs := OpenEdges(path, lib.sqrt);
    verts, tris := [], [];
    var r := 0.5 * style.width;
    var a := path[0];
    var b := path[1];
    OpenEdgeAt(path, lib.sqrt, 1);
    var seg0 := NewSegment(a, b, lib.sqrt);
    if style.startCap {
      verts, tris := JoinCap(verts, tris, seg0.Ortho(), a, r, z, lib);
    }
    ghost var capped := Buffers(verts, tris);
    verts, tris := JoinSegment(verts, tris, seg0, r, style.step, z);
    OpenChainFirst(segs, style.startCap, r, style.step, z, lib, capped, Buffers(verts, tris));
    var i := 2;
    while i < n
      invariant 2 <= i <= n
      invariant seg0 == segs[i - 2] && seg0.b == path[i - 1]
      invariant Buffers(verts, tris) == OpenChain(segs, style.startCap, r, style.step, z, lib, i - 1)
    {
      var c := path[i];
      OpenEdgeAt(path, lib.sqrt, i);
      var seg1 := NewSegment(seg0.b, c, lib.sqrt);
      verts, tris := OpenIteration(verts, tris, seg0, seg1, r, z, lib, style.step, segs, style.startCap, i - 1);
      seg0 := seg1;
      i := i + 1;
    }
    ghost var before := Buffers(verts, tris);
    if style.endCap {
      verts, tris := JoinCap(verts, tris, seg0.Ortho().Neg(), seg0.b, r, z, lib);
    }
    OpenStrokeEnd(path, style, z, lib, segs, r, before, Buffers(verts, tris));
  }

  /** `BuildMesh`: the closed or the open stroke of `path`. */
  method BuildMesh(path: seq<Float2>, isClosed: bool, style: StrokeStyle, z: real, lib: Libm)
    returns (verts: seq<Float3>, tris: seq<int>)
    requires StrokeOk(style, lib)
    requires if isClosed then ClosedPathOk(path, lib.sqrt) else OpenPathOk(path, lib.sqrt)
    ensures isClosed ==> Buffers(verts, tris) == ClosedStrokeSpec(path, style, z, lib)
    ensures !isClosed ==> Buffers(verts, tris) == OpenStrokeSpec(path, style, z, lib)
    ensures IndicesBelow(tris, |verts|) && |tris| % 3 == 0 && NoDegenerateTriangle(tris)
  {
    if isClosed {
      verts, tris := ClosedStroke(path, style, z, lib);
    } else {
      verts, tris := OpenStroke(path, style, z, lib);
    }
  }
}
