/** What the polyline stroker appends, step by step, as functions of the
    buffers it receives: the quad strip along a segment (ribbon), the round
    join at a turn (joint), the round cap at an open end, and the open and
    closed drivers that chain them. The imperative versions in `PathStroke`
    are proved equal to these; the lemmas here prove that the chain leaves
    every triangle index below the vertex count. */
module StrokeSpec {
  import opened Math2d
  import opened Segments
  import opened Style
  import opened MeshIndex

  /** The floating-point library the stroker calls: the constant `math.PI`
      and the functions `math.sqrt`, `math.acos`, `math.cos`, `math.sin`,
      left uninterpreted. */
  datatype Libm = Libm(pi: real, sqrt: real -> real, acos: real -> real,
                       cos: real -> real, sin: real -> real)

  /** Triangle corners come in threes. */
  predicate WholeTriangles(t: seq<int>) { |t| % 3 == 0 }

  /** Triangle `k` of an index list: its corners `3k`, `3k + 1`, `3k + 2`. */
  function TriangleAt(t: seq<int>, k: int): (c: seq<int>)
    requires 0 <= k && 3 * k + 3 <= |t|
    ensures |c| == 3 && c[0] == t[3 * k] && c[1] == t[3 * k + 1] && c[2] == t[3 * k + 2]
  {
    t[3 * k .. 3 * k + 3]
  }

  /** Three pairwise different corners. */
  predicate DistinctCorners(c: seq<int>) {
    |c| == 3 && c[0] != c[1] && c[0] != c[2] && c[1] != c[2]
  }

  /** No triangle repeats a vertex. */
  predicate NoDegenerateTriangle(t: seq<int>) {
    forall k :: 0 <= k < |t| / 3 ==> DistinctCorners(TriangleAt(t, k))
  }

  /** The C# `(int)` cast of a float: truncation toward zero. */
  function Trunc(x: real): int {
    if x >= 0.0 then x.Floor else -((-x).Floor)
  }

  /** The cast drops the fraction: it never moves a value away from zero,
      and by less than one. */
  lemma TruncBounds(x: real)
    ensures x >= 0.0 ==> 0 <= Trunc(x) && Trunc(x) as real <= x < Trunc(x) as real + 1.0
    ensures x < 0.0 ==> Trunc(x) <= 0 && Trunc(x) as real - 1.0 < x <= Trunc(x) as real
  {
  }

  /** `eA = 0.125·π`: the angular step of round joins and caps. */
  function AngularStep(lib: Libm): real { 0.125 * lib.pi }

  /** `eCross`: turns whose normals have a cross product smaller than this in
      absolute value get no join, whichever way they turn. */
  const ECross: real := 0.000001

  /** The number of quads of a ribbon, or of triangles of a fan, whose loop
      `for (i = 1; i < n; ++i)` runs `n - 1` times and is followed by one more:
      `max(n, 1)`. */
  function Quads(n: int): (m: nat)
    ensures m >= 1 && m >= n
    ensures n >= 1 ==> m == n
  {
    if n < 1 then 1 else n
  }

  // ---------------------------------------------------------------------
  // Ribbon: the quad strip along one segment.
  // ---------------------------------------------------------------------

  /** `n = (int)(length / step + 0.5)`. */
  function RibbonCount(seg: Segment, step: real): int
    requires step > 0.0
  {
    Trunc(seg.length / step + 0.5)
  }

  /** `ds = length / n`; when `n < 1` the loop that reads it never runs. */
  function RibbonSpacing(seg: Segment, n: int): real {
    if n >= 1 then seg.length / n as real else 0.0
  }

  /** `r · ortho`: half the stroke width along the segment's left normal. */
  function RibbonOffset(seg: Segment, r: real): Float2 { seg.Ortho().Scale(r) }

  /** The top and bottom vertex of a cross edge through `p`. */
  function CrossEdge(p: Float2, o: Float2, z: real): seq<Float3> {
    [Lift(p.Add(o), z), Lift(p.Sub(o), z)]
  }

  /** The start edge moved `s` along the segment's direction:
      `sTop + s·direction`, `sBot + s·direction`. */
  function InnerEdge(seg: Segment, r: real, s: real, z: real): seq<Float3> {
    var o := RibbonOffset(seg, r);
    var d := seg.direction.Scale(s);
    [Lift(seg.a.Add(o).Add(d), z), Lift(seg.a.Sub(o).Add(d), z)]
  }

  /** `ds` added to itself `k` times, as the loop accumulates `s += ds`. */
  function Accumulated(ds: real, k: nat): real {
    if k == 0 then 0.0 else Accumulated(ds, k - 1) + ds
  }

  /** Cross edges appended by the first `k` iterations of the ribbon loop,
      at distances `ds, ds + ds, …` from `seg.a`. */
  function RibbonInner(seg: Segment, r: real, ds: real, z: real, k: nat): seq<Float3> {
    if k == 0 then []
    else RibbonInner(seg, r, ds, z, k - 1) + InnerEdge(seg, r, Accumulated(ds, k), z)
  }

  /** All vertices a ribbon with count `n` appends: the start edge at `a`,
      the inner edges, the end edge at `b`. */
  function RibbonVertices(seg: Segment, r: real, n: int, z: real): seq<Float3> {
    CrossEdge(seg.a, RibbonOffset(seg, r), z)
      + RibbonInner(seg, r, RibbonSpacing(seg, n), z, Quads(n) - 1)
      + CrossEdge(seg.b, RibbonOffset(seg, r), z)
  }

  /** The two triangles of the quad whose first cross edge is at `base`
      (top) and `base + 1` (bottom): `(bot0, top0, top1), (bot0, top1, bot1)`. */
  function Quad(base: int): seq<int> {
    [base + 1, base, base + 2, base + 1, base + 2, base + 3]
  }

  /** The indices of the first `k` quads of a ribbon starting at vertex `first`. */
  function RibbonIndices(first: int, k: nat): (t: seq<int>)
    ensures |t| == 6 * k
  {
    if k == 0 then [] else RibbonIndices(first, k - 1) + Quad(first + 2 * (k - 1))
  }

  /** The ribbon of `seg` with count `n`, appended to `buf`. */
  function RibbonOf(buf: Buffers, seg: Segment, r: real, n: int, z: real): Buffers {
    Buffers(buf.vertices + RibbonVertices(seg, r, n, z),
            buf.triangles + RibbonIndices(|buf.vertices|, Quads(n)))
  }

  /** `JoinSegment` on the buffers. */
  function Ribbon(buf: Buffers, seg: Segment, r: real, step: real, z: real): Buffers
    requires step > 0.0
  {
    RibbonOf(buf, seg, r, RibbonCount(seg, step), z)
  }

  // ---------------------------------------------------------------------
  // Fans, shared by joints and caps.
  // ---------------------------------------------------------------------

  /** `v` rotated `k` times by `m`. */
  function Rotated(m: Float2x2, v: Float2, k: nat): Float2 {
    if k == 0 then v else Mul(m, Rotated(m, v, k - 1))
  }

  /** The rim points `pivot ∓ Rotated(m, v, i)` for `i = 1..k`. */
  function FanPoints(pivot: Float2, m: Float2x2, v: Float2, k: nat, z: real, subtract: bool): seq<Float3> {
    if k == 0 then []
    else
      var w := Rotated(m, v, k);
      FanPoints(pivot, m, v, k - 1, z, subtract) + [Lift(if subtract then pivot.Sub(w) else pivot.Add(w), z)]
  }

  /** One fan triangle around `middle`: wound `(prev, middle, next)` when
      `left`, `(prev, next, middle)` otherwise. */
  function FanTriangle(prev: int, middle: int, next: int, left: bool): seq<int> {
    if left then [prev, middle, next] else [prev, next, middle]
  }

  /** The rim index a fan triangle starts from: `prev0` for the first, the
      previous triangle's new rim point afterwards. */
  function FanPrev(prev0: int, middle: int, k: nat): int {
    if k == 0 then prev0 else middle + k
  }

  /** The first `k` triangles of a fan around `middle` whose rim points are
      `middle + 1, middle + 2, …`. */
  function FanIndices(prev0: int, middle: int, k: nat, left: bool): seq<int> {
    if k == 0 then []
    else FanIndices(prev0, middle, k - 1, left) + FanTriangle(FanPrev(prev0, middle, k - 1), middle, middle + k, left)
  }

  /** A fan of `m` triangles: `m - 1` to new rim points, then one to `close`. */
  function FanWithClose(prev0: int, middle: int, m: nat, close: int, left: bool): seq<int>
    requires m >= 1
  {
    FanIndices(prev0, middle, m - 1, left) + FanTriangle(FanPrev(prev0, middle, m - 1), middle, close, left)
  }

  // ---------------------------------------------------------------------
  // Joint: the round join at the turn from `seg0` to `seg1`.
  // ---------------------------------------------------------------------

  /** `cross(seg0.ortho, seg1.ortho)`: positive for a left turn. */
  function JointCross(seg0: Segment, seg1: Segment): real {
    Cross(seg0.Ortho(), seg1.Ortho())
  }

  /** The join is skipped when the turn is (nearly) straight. */
  predicate JointSkipped(seg0: Segment, seg1: Segment) {
    Abs(JointCross(seg0, seg1)) < ECross
  }

  /** `angle = acos(dot(seg0.ortho, seg1.ortho))`. */
  function JointAngle(seg0: Segment, seg1: Segment, lib: Libm): real {
    lib.acos(Dot(seg0.Ortho(), seg1.Ortho()))
  }

  /** `n = (int)(angle / eA + 0.5)`. */
  function JointCount(seg0: Segment, seg1: Segment, lib: Libm): int
    requires lib.pi != 0.0
  {
    Trunc(JointAngle(seg0, seg1, lib) / AngularStep(lib) + 0.5)
  }

  /** `rotationMatrix(dA)` for a left turn and `rotationMatrix(-dA)` for a
      right turn, with `dA = angle / n`. */
  function JointRotation(angle: real, n: int, left: bool, lib: Libm): Float2x2
    requires n > 1
  {
    var dA := angle / n as real;
    var turn := if left then dA else -dA;
    RotationMatrix(lib.cos(turn), lib.sin(turn))
  }

  /** The pivot `seg0.b`, then the rim points (only when `n > 1`): on a left
      turn `b - R^i(r·v0)`, on a right turn `b + R^i(r·v0)`. */
  function JointVertices(seg0: Segment, r: real, z: real, lib: Libm, angle: real, n: int, left: bool): seq<Float3> {
    [Lift(seg0.b, z)]
      + if n > 1 then FanPoints(seg0.b, JointRotation(angle, n, left, lib), seg0.Ortho().Scale(r), n - 1, z, left)
        else []
  }

  /** The rim index the join's last triangle closes on: the next ribbon's
      start edge (bottom on a left turn, top on a right turn), or vertex 1 / 0
      of the buffer on the last join of a closed path. */
  function JointClose(first: int, m: int, left: bool, isLast: bool): int {
    if left then (if isLast then 1 else first + m + 1)
    else (if isLast then 0 else first + m)
  }

  /** The join's triangles when its pivot is vertex `first`: the fan starts
      at the previous ribbon's end edge, bottom (`first - 1`) on a left turn,
      top (`first - 2`) on a right turn. */
  function JointIndices(first: int, m: nat, left: bool, isLast: bool): seq<int>
    requires m >= 1
  {
    FanWithClose(if left then first - 1 else first - 2, first, m, JointClose(first, m, left, isLast), left)
  }

  /** The join fan at `seg0.b` for a turn by `angle` split into `n` steps,
      to the left or to the right, appended to `buf`. */
  function JointFan(buf: Buffers, seg0: Segment, r: real, z: real, isLast: bool, lib: Libm,
                    angle: real, n: int, left: bool): Buffers {
    Buffers(buf.vertices + JointVertices(seg0, r, z, lib, angle, n, left),
            buf.triangles + JointIndices(|buf.vertices|, Quads(n), left, isLast))
  }

  /** `JoinJoint` on the buffers. */
  function Joint(buf: Buffers, seg0: Segment, seg1: Segment, r: real, z: real, isLast: bool, lib: Libm): Buffers
    requires lib.pi != 0.0
  {
    if JointSkipped(seg0, seg1) then buf
    else JointFan(buf, seg0, r, z, isLast, lib, JointAngle(seg0, seg1, lib), JointCount(seg0, seg1, lib),
                  JointCross(seg0, seg1) > 0.0)
  }

  // ---------------------------------------------------------------------
  // Cap: the half-disc fan at an open end.
  // ---------------------------------------------------------------------

  /** `n = (int)(π / eA + 0.1)`. */
  function CapCount(lib: Libm): int
    requires lib.pi != 0.0
  {
    Trunc(lib.pi / AngularStep(lib) + 0.1)
  }

  /** `rotationMatrix(π / n)`. */
  function CapRotation(lib: Libm): Float2x2
    requires lib.pi > 0.0
  {
    CapCountIsEight(lib);
    var dA := lib.pi / CapCount(lib) as real;
    RotationMatrix(lib.cos(dA), lib.sin(dA))
  }

  /** The centre `pos`, then the rim points `pos + R^i(r·vec)`. */
  function CapVertices(vec: Float2, pos: Float2, r: real, z: real, lib: Libm): seq<Float3>
    requires lib.pi > 0.0
  {
    var n := CapCount(lib);
    [Lift(pos, z)] + FanPoints(pos, CapRotation(lib), vec.Scale(r), if n > 1 then n - 1 else 0, z, false)
  }

  /** The cap's triangles when its centre is vertex `first`: on an empty
      buffer the fan runs from `n` to `n + 1`, the start edge of the ribbon
      that follows; otherwise from `first - 1` to `first - 2`, the end edge
      of the ribbon before. */
  function CapIndices(first: int, n: int): seq<int>
    requires n >= 1
  {
    var prev0 := if first == 0 then n else first - 1;
    var close := if first == 0 then n + 1 else first - 2;
    FanWithClose(prev0, first, n, close, true)
  }

  /** `JoinCap` on the buffers. */
  function Cap(buf: Buffers, vec: Float2, pos: Float2, r: real, z: real, lib: Libm): Buffers
    requires lib.pi > 0.0
  {
    CapCountIsEight(lib);
    Buffers(buf.vertices + CapVertices(vec, pos, r, z, lib),
            buf.triangles + CapIndices(|buf.vertices|, CapCount(lib)))
  }

  /** The cap fan always has 8 triangles: `π / (π/8) + 0.1` truncates to 8. */
  lemma CapCountIsEight(lib: Libm)
    requires lib.pi > 0.0
    ensures CapCount(lib) == 8
  {
    assert AngularStep(lib) * 8.0 == lib.pi;
    assert lib.pi / AngularStep(lib) == 8.0;
  }

  // ---------------------------------------------------------------------
  // Drivers.
  // ---------------------------------------------------------------------

  /** Half the stroke width. */
  function HalfWidth(style: StrokeStyle): real { 0.5 * style.width }

  /** What the drivers need of their inputs: a positive step and `π`. */
  predicate StrokeOk(style: StrokeStyle, lib: Libm) {
    style.step > 0.0 && lib.pi > 0.0
  }

  /** The point before `i` on a closed path of `n` points. */
  function Prev(i: int, n: int): int
    requires 0 <= i < n
  {
    if i == 0 then n - 1 else i - 1
  }

  /** A closed path: at least two points (the driver starts from
      `path[n-2]`), and each point differs from its predecessor, cyclically. */
  predicate ClosedPathOk(path: seq<Float2>, sqrt: real -> real) {
    |path| >= 2 &&
    forall i :: 0 <= i < |path| ==> EdgeOk(path[Prev(i, |path|)], path[i], sqrt)
  }

  /** The segment ending at point `i` of a closed path. */
  function ClosedEdge(path: seq<Float2>, i: int, sqrt: real -> real): Segment
    requires ClosedPathOk(path, sqrt) && 0 <= i < |path|
  {
    NewSegment(path[Prev(i, |path|)], path[i], sqrt)
  }

  /** The segments of a closed path, segment `i` ending at point `i`. */
  function ClosedEdges(path: seq<Float2>, sqrt: real -> real): (segs: seq<Segment>)
    requires ClosedPathOk(path, sqrt)
    ensures |segs| == |path|
    ensures forall i :: 0 <= i < |path| ==> segs[i] == ClosedEdge(path, i, sqrt)
  {
    ClosedEdgesUpTo(path, sqrt, |path|)
  }

  /** The first `k` segments of a closed path. */
  function ClosedEdgesUpTo(path: seq<Float2>, sqrt: real -> real, k: nat): (segs: seq<Segment>)
    requires ClosedPathOk(path, sqrt) && k <= |path|
    ensures |segs| == k
    ensures forall i :: 0 <= i < k ==> segs[i] == ClosedEdge(path, i, sqrt)
  {
    if k == 0 then [] else ClosedEdgesUpTo(path, sqrt, k - 1) + [ClosedEdge(path, k - 1, sqrt)]
  }

  /** The buffers after the first `k` iterations of the closed driver over
      `segs`. */
  function ClosedChain(segs: seq<Segment>, r: real, step: real, z: real, lib: Libm, k: nat): Buffers
    requires step > 0.0 && lib.pi != 0.0 && k <= |segs|
    decreases k, 0
  {
    if k == 0 then Buffers([], []) else ClosedAfterIteration(segs, r, step, z, lib, k - 1)
  }

  /** Iteration `i` of the closed driver: the ribbon of the segment before
      `segs[i]` (cyclically), then the join from it to `segs[i]`, the last
      join marked last. */
  function ClosedAfterIteration(segs: seq<Segment>, r: real, step: real, z: real, lib: Libm, i: nat): Buffers
    requires step > 0.0 && lib.pi != 0.0 && i < |segs|
    decreases i, 1
  {
    var seg0 := segs[Prev(i, |segs|)];
    Joint(Ribbon(ClosedChain(segs, r, step, z, lib, i), seg0, r, step, z), seg0, segs[i], r, z, i + 1 == |segs|, lib)
  }

  /** An open path: at least two points, each differing from the one before. */
  predicate OpenPathOk(path: seq<Float2>, sqrt: real -> real) {
    |path| >= 2 &&
    forall i :: 1 <= i < |path| ==> EdgeOk(path[i - 1], path[i], sqrt)
  }

  /** The segment from point `i - 1` to point `i` of an open path. */
  function OpenEdge(path: seq<Float2>, i: int, sqrt: real -> real): Segment
    requires OpenPathOk(path, sqrt) && 1 <= i < |path|
  {
    NewSegment(path[i - 1], path[i], sqrt)
  }

  /** The segments of an open path, segment `i` from point `i` to point `i + 1`. */
  function OpenEdges(path: seq<Float2>, sqrt: real -> real): (segs: seq<Segment>)
    requires OpenPathOk(path, sqrt)
    ensures |segs| == |path| - 1
    ensures forall i :: 0 <= i < |path| - 1 ==> segs[i] == OpenEdge(path, i + 1, sqrt)
  {
    OpenEdgesUpTo(path, sqrt, |path| - 1)
  }

  /** The first `k` segments of an open path. */
  function OpenEdgesUpTo(path: seq<Float2>, sqrt: real -> real, k: nat): (segs: seq<Segment>)
    requires OpenPathOk(path, sqrt) && k < |path|
    ensures |segs| == k
    ensures forall i :: 0 <= i < k ==> segs[i] == OpenEdge(path, i + 1, sqrt)
  {
    if k == 0 then [] else OpenEdgesUpTo(path, sqrt, k - 1) + [OpenEdge(path, k, sqrt)]
  }

  /** The optional start cap at the first segment's start, facing along its
      normal. */
  function OpenStart(segs: seq<Segment>, startCap: bool, r: real, z: real, lib: Libm): Buffers
    requires |segs| >= 1 && lib.pi > 0.0
  {
    if startCap then Cap(Buffers([], []), segs[0].Ortho(), segs[0].a, r, z, lib)
    else Buffers([], [])
  }

  /** The buffers once the open driver has appended the ribbons of the first
      `k` segments and the joins between them. */
  function OpenChain(segs: seq<Segment>, startCap: bool, r: real, step: real, z: real, lib: Libm, k: nat): Buffers
    requires step > 0.0 && lib.pi > 0.0 && 1 <= k <= |segs|
    decreases k, 0
  {
    if k == 1 then Ribbon(OpenStart(segs, startCap, r, z, lib), segs[0], r, step, z)
    else OpenAfterIteration(segs, startCap, r, step, z, lib, k - 1)
  }

  /** Iteration `k` of the open driver: the join from `segs[k - 1]` to
      `segs[k]`, then the ribbon of `segs[k]`. */
  function OpenAfterIteration(segs: seq<Segment>, startCap: bool, r: real, step: real, z: real, lib: Libm, k: nat): Buffers
    requires step > 0.0 && lib.pi > 0.0 && 1 <= k < |segs|
    decreases k, 1
  {
    Ribbon(Joint(OpenChain(segs, startCap, r, step, z, lib, k), segs[k - 1], segs[k], r, z, false, lib),
           segs[k], r, step, z)
  }

  /** The optional end cap at the last segment's end, facing along the
      reversed normal. */
  function OpenFinish(buf: Buffers, segs: seq<Segment>, endCap: bool, r: real, z: real, lib: Libm): Buffers
    requires |segs| >= 1 && lib.pi > 0.0
  {
    var last := segs[|segs| - 1];
    if endCap then Cap(buf, last.Ortho().Neg(), last.b, r, z, lib) else buf
  }

  /** `OpenStroke`. */
  function OpenStrokeSpec(path: seq<Float2>, style: StrokeStyle, z: real, lib: Libm): Buffers
    requires StrokeOk(style, lib) && OpenPathOk(path, lib.sqrt)
  {
    var segs := OpenEdges(path, lib.sqrt);
    var r := HalfWidth(style);
    OpenFinish(OpenChain(segs, style.startCap, r, style.step, z, lib, |segs|), segs, style.endCap, r, z, lib)
  }

  /** `ClosedStroke`: all `n` iterations. */
  function ClosedStrokeSpec(path: seq<Float2>, style: StrokeStyle, z: real, lib: Libm): Buffers
    requires StrokeOk(style, lib) && ClosedPathOk(path, lib.sqrt)
  {
    ClosedChain(ClosedEdges(path, lib.sqrt), HalfWidth(style), style.step, z, lib, |path|)
  }
}
