/** Index lists of triangle meshes: the validity condition every mesh
    builder keeps (each index names an existing vertex) and the offset
    applied when one mesh's triangles are appended to another's. */
module MeshIndex {
  import opened Math2d

  /** A mesh as two growable lists: vertex positions, and triangle corners
      as indices into them, three per triangle. */
  datatype Buffers = Buffers(vertices: seq<Float3>, triangles: seq<int>)

  /** Every entry of `t` is a vertex index in `[0, bound)`. */
  predicate IndicesBelow(t: seq<int>, bound: int) {
    forall i :: 0 <= i < |t| ==> 0 <= t[i] < bound
  }

  /** Every entry of `t` increased by `d`. */
  function Offset(t: seq<int>, d: int): (r: seq<int>)
    ensures |r| == |t|
  {
    seq(|t|, i requires 0 <= i < |t| => t[i] + d)
  }

  lemma IndicesBelowWeaken(t: seq<int>, bound: int, larger: int)
    requires IndicesBelow(t, bound) && bound <= larger
    ensures IndicesBelow(t, larger)
  {
  }

  lemma IndicesBelowAppend(t: seq<int>, u: seq<int>, bound: int)
    requires IndicesBelow(t, bound) && IndicesBelow(u, bound)
    ensures IndicesBelow(t + u, bound)
  {
  }

  /** Appending a valid index list offset by the current vertex count, next
      to that many appended vertices, gives a valid index list. */
  lemma AppendOffsetValid(t: seq<int>, n: int, u: seq<int>, m: int)
    requires n >= 0 && m >= 0
    requires IndicesBelow(t, n) && IndicesBelow(u, m)
    ensures IndicesBelow(t + Offset(u, n), n + m)
  {
    var r := t + Offset(u, n);
    forall i | 0 <= i < |r|
      ensures 0 <= r[i] < n + m
    {
      if i < |t| {
        assert r[i] == t[i];
      } else {
        var j := i - |t|;
        assert r[i] == Offset(u, n)[j] == u[j] + n;
        assert 0 <= u[j] < m;
      }
    }
  }

  /** Offsetting a valid list moves its range by the same amount. */
  lemma OffsetBounds(t: seq<int>, bound: int, d: int)
    requires IndicesBelow(t, bound) && d >= 0
    ensures IndicesBelow(Offset(t, d), bound + d)
  {
  }

  /** The offset distributes over concatenation and composes additively;
      offset zero is the identity. */
  lemma OffsetAppend(t: seq<int>, u: seq<int>, d: int)
    ensures Offset(t + u, d) == Offset(t, d) + Offset(u, d)
  {
  }

  lemma OffsetZero(t: seq<int>)
    ensures Offset(t, 0) == t
  {
  }

  lemma OffsetTwice(t: seq<int>, d: int, e: int)
    ensures Offset(Offset(t, d), e) == Offset(t, d + e)
  {
  }

  /** Offsetting one more index appends that index moved by the offset. */
  lemma OffsetSnoc(t: seq<int>, x: int, d: int)
    ensures Offset(t + [x], d) == Offset(t, d) + [x + d]
  {
  }

  /** `Add`: the other mesh's vertices after these, its triangle indices
      shifted past these vertices. */
  function Append(a: Buffers, b: Buffers): (r: Buffers)
    ensures |r.vertices| == |a.vertices| + |b.vertices|
    ensures |r.triangles| == |a.triangles| + |b.triangles|
  {
    Buffers(a.vertices + b.vertices, a.triangles + Offset(b.triangles, |a.vertices|))
  }

  /** A mesh whose indices all name one of its vertices. */
  predicate ValidMesh(m: Buffers) {
    IndicesBelow(m.triangles, |m.vertices|)
  }

  /** Appending keeps both meshes: the old one as a prefix, the new one
      after it with every index moved by the old vertex count. */
  lemma AppendKeepsBoth(a: Buffers, b: Buffers)
    ensures var r := Append(a, b);
      && r.vertices[..|a.vertices|] == a.vertices && r.vertices[|a.vertices|..] == b.vertices
      && r.triangles[..|a.triangles|] == a.triangles
      && forall k :: 0 <= k < |b.triangles| ==> r.triangles[|a.triangles| + k] == b.triangles[k] + |a.vertices|
  {
    var r := Append(a, b);
    assert r.vertices[..|a.vertices|] == a.vertices;
    assert r.triangles[..|a.triangles|] == a.triangles;
  }

  /** Appending two valid meshes gives a valid mesh. */
  lemma AppendValid(a: Buffers, b: Buffers)
    requires ValidMesh(a) && ValidMesh(b)
    ensures ValidMesh(Append(a, b))
  {
    AppendOffsetValid(a.triangles, |a.vertices|, b.triangles, |b.vertices|);
  }

  /** The empty mesh is a left and right unit of appending. */
  lemma AppendEmpty(m: Buffers)
    ensures Append(Buffers([], []), m) == m && Append(m, Buffers([], [])) == m
  {
    OffsetZero(m.triangles);
    assert m.vertices + [] == m.vertices && m.triangles + [] == m.triangles;
  }

  /** Appending is associative: adding `b` then `c` equals adding their
      concatenation. */
  lemma AppendAssociative(a: Buffers, b: Buffers, c: Buffers)
    ensures Append(Append(a, b), c) == Append(a, Append(b, c))
  {
    var nab := |a.vertices| + |b.vertices|;
    calc {
      Append(a, Append(b, c)).triangles;
      a.triangles + Offset(b.triangles + Offset(c.triangles, |b.vertices|), |a.vertices|);
      { OffsetAppend(b.triangles, Offset(c.triangles, |b.vertices|), |a.vertices|); }
      a.triangles + (Offset(b.triangles, |a.vertices|) + Offset(Offset(c.triangles, |b.vertices|), |a.vertices|));
      { OffsetTwice(c.triangles, |b.vertices|, |a.vertices|); assert |b.vertices| + |a.vertices| == nab; }
      a.triangles + (Offset(b.triangles, |a.vertices|) + Offset(c.triangles, nab));
      a.triangles + Offset(b.triangles, |a.vertices|) + Offset(c.triangles, nab);
      Append(Append(a, b), c).triangles;
    }
    assert a.vertices + (b.vertices + c.vertices) == a.vertices + b.vertices + c.vertices;
  }

  /** 1 when corner `x` names vertex `v`, 0 otherwise. */
  function Hits(x: int, v: int): nat {
    if x == v then 1 else 0
  }

  /** How many triangle corners in `t` name vertex `v`. */
  function Uses(t: seq<int>, v: int): nat {
    if t == [] then 0 else Hits(t[0], v) + Uses(t[1..], v)
  }

  /** Corner counts add up over concatenation. */
  lemma {:induction false} UsesAppend(t: seq<int>, u: seq<int>, v: int)
    ensures Uses(t + u, v) == Uses(t, v) + Uses(u, v)
  {
    if t != [] {
      assert (t + u)[0] == t[0] && (t + u)[1..] == t[1..] + u;
      UsesAppend(t[1..], u, v);
    } else {
      assert t + u == u;
    }
  }

  /** The corner count is the multiplicity of `v` in the index list. */
  lemma {:induction false} UsesIsMultiplicity(t: seq<int>, v: int)
    ensures Uses(t, v) == multiset(t)[v]
  {
    if t != [] {
      UsesIsMultiplicity(t[1..], v);
      assert t == [t[0]] + t[1..];
      assert multiset(t) == multiset{t[0]} + multiset(t[1..]);
    }
  }

  /** Appending a triangle raises the count of `v` by one per corner naming
      it. */
  lemma UsesAfterTriangle(t: seq<int>, a: int, b: int, c: int, v: int)
    ensures Uses(t + [a, b, c], v) == Uses(t, v) + Hits(a, v) + Hits(b, v) + Hits(c, v)
  {
    UsesAppend(t, [a, b, c], v);
    assert [a, b, c][1..] == [b, c] && [b, c][1..] == [c] && [c][1..] == [];
    assert Uses([c], v) == Hits(c, v);
    assert Uses([b, c], v) == Hits(b, v) + Hits(c, v);
  }

  /** `ShiftZ`: every vertex moved by `offset` along z. */
  function ShiftedZ(v: seq<Float3>, offset: real): (r: seq<Float3>)
    ensures |r| == |v|
  {
    seq(|v|, i requires 0 <= i < |v| => Float3(v[i].x, v[i].y, v[i].z + offset))
  }

  /** A z shift keeps x and y, moves z by exactly the offset, composes
      additively and is undone by the opposite shift. */
  lemma ShiftedZKeepsPlane(v: seq<Float3>, offset: real, i: int)
    requires 0 <= i < |v|
    ensures ShiftedZ(v, offset)[i].x == v[i].x && ShiftedZ(v, offset)[i].y == v[i].y
    ensures ShiftedZ(v, offset)[i].z - v[i].z == offset
  {
  }

  lemma ShiftedZTwice(v: seq<Float3>, d: real, e: real)
    ensures ShiftedZ(ShiftedZ(v, d), e) == ShiftedZ(v, d + e)
  {
  }

  lemma ShiftedZUndone(v: seq<Float3>, d: real)
    ensures ShiftedZ(ShiftedZ(v, d), -d) == v
  {
    ShiftedZTwice(v, d, -d);
    assert d + -d == 0.0;
    assert forall i :: 0 <= i < |v| ==> ShiftedZ(v, 0.0)[i] == v[i];
  }
}
