/** `NativeColorMesh`: a mesh with one colour per vertex, held in three
    growable lists. Every `Add` appends vertices and their colours together,
    so the colour list stays as long as the vertex list, which the upload
    relies on when it reads `colors[i]` for each vertex `i`. */
module NativeColor {
  import opened Math2d
  import opened MeshIndex
  import opened StaticPrimitive
  import opened NativePrimitive

  /** A Unity `Color`: red, green, blue and alpha channels. */
  datatype Color = Color(r: real, g: real, b: real, a: real)

  /** `new float4(color.r, color.g, color.b, color.a)`. */
  function ColorValue(c: Color): Float4 {
    Float4(c.r, c.g, c.b, c.a)
  }

  /** `n` copies of `x`. */
  function Repeated<T>(x: T, n: nat): seq<T> {
    seq(n, _ => x)
  }

  /** Every entry of `Repeated(x, n)` is `x`; one more copy extends it by
      one. */
  lemma RepeatedAt<T>(x: T, n: nat, i: int)
    requires 0 <= i < n
    ensures |Repeated(x, n)| == n && Repeated(x, n)[i] == x
  {
  }

  lemma RepeatedSnoc<T>(x: T, n: nat)
    ensures Repeated(x, n + 1) == Repeated(x, n) + [x]
  {
  }

  class NativeColorMesh {
    var vertices: seq<Float3>
    var triangles: seq<int>
    var colors: seq<Float4>

    /** The current vertex and index lists. */
    function Contents(): Buffers
      reads this
    {
      Buffers(vertices, triangles)
    }

    /** One colour per vertex. */
    predicate Valid()
      reads this
    {
      |colors| == |vertices|
    }

    /** Three empty lists; `capacity` only reserves storage. */
    constructor (capacity: int)
      ensures vertices == [] && triangles == [] && colors == []
      ensures Valid()
    {
      vertices := [];
      colors := [];
      triangles := [];
    }

    /** `Add(NativeColorMesh)`: the other mesh's vertices and colours
        appended, its indices offset by the vertex count before the call. */
    method Add(other: NativeColorMesh)
      requires other != this
      modifies this
      ensures Contents() == Append(old(Contents()), other.Contents())
      ensures colors == old(colors) + other.colors
      ensures old(Valid()) && other.Valid() ==> Valid()
      ensures ValidMesh(old(Contents())) && ValidMesh(other.Contents()) ==> ValidMesh(Contents())
    {
      var count := |vertices|;
      vertices := vertices + other.vertices;
      colors := colors + other.colors;
      var i := 0;
      while i < |other.triangles|
        invariant 0 <= i <= |other.triangles|
        invariant vertices == old(vertices) + other.vertices && colors == old(colors) + other.colors
        invariant triangles == old(triangles) + Offset(other.triangles[..i], count)
      {
        var j := other.triangles[i];
        OffsetSnoc(other.triangles[..i], j, count);
        assert other.triangles[..i + 1] == other.triangles[..i] + [j];
        triangles := triangles + [j + count];
        i := i + 1;
      }
      assert other.triangles[..i] == other.triangles;
      if ValidMesh(old(Contents())) && ValidMesh(other.Contents()) {
        AppendValid(old(Contents()), other.Contents());
      }
    }

    /** `Add(NativePrimitiveMesh, Color)`: the mesh appended as by `Add`,
        with one copy of `color` per appended vertex. */
    method AddPrimitive(mesh: NativePrimitiveMesh, color: Color)
      modifies this
      ensures Contents() == Append(old(Contents()), mesh.Contents())
      ensures colors == old(colors) + Repeated(ColorValue(color), |mesh.vertices|)
      ensures old(Valid()) ==> Valid()
      ensures ValidMesh(old(Contents())) && ValidMesh(mesh.Contents()) ==> ValidMesh(Contents())
    {
      var count := |vertices|;
      var clr := Float4(color.r, color.g, color.b, color.a);
      vertices := vertices + mesh.vertices;
      var i := 0;
      while i < |mesh.vertices|
        invariant 0 <= i <= |mesh.vertices|
        invariant vertices == old(vertices) + mesh.vertices && triangles == old(triangles)
        invariant colors == old(colors) + Repeated(clr, i)
      {
        RepeatedSnoc(clr, i);
        colors := colors + [clr];
        i := i + 1;
      }
      i := 0;
      while i < |mesh.triangles|
        invariant 0 <= i <= |mesh.triangles|
        invariant vertices == old(vertices) + mesh.vertices
        invariant colors == old(colors) + Repeated(clr, |mesh.vertices|)
        invariant triangles == old(triangles) + Offset(mesh.triangles[..i], count)
      {
        var j := mesh.triangles[i];
        OffsetSnoc(mesh.triangles[..i], j, count);
        assert mesh.triangles[..i + 1] == mesh.triangles[..i] + [j];
        triangles := triangles + [j + count];
        i := i + 1;
      }
      assert mesh.triangles[..i] == mesh.triangles;
      if ValidMesh(old(Contents())) && ValidMesh(mesh.Contents()) {
        AppendValid(old(Contents()), mesh.Contents());
      }
    }

    /** `Add(StaticPrimitiveMesh, Color)`: the same, reading the other
        mesh's arrays. */
    method AddStatic(mesh: StaticPrimitiveMesh, color: Color)
      modifies this
      ensures Contents() == Append(old(Contents()), mesh.Contents())
      ensures colors == old(colors) + Repeated(ColorValue(color), mesh.vertices.Length)
      ensures old(Valid()) ==> Valid()
      ensures ValidMesh(old(Contents())) && ValidMesh(mesh.Contents()) ==> ValidMesh(Contents())
    {
      var count := |vertices|;
      var clr := Float4(color.r, color.g, color.b, color.a);
      vertices := vertices + mesh.vertices[..];
      var i := 0;
      while i < mesh.vertices.Length
        invariant 0 <= i <= mesh.vertices.Length
        invariant vertices == old(vertices) + mesh.vertices[..] && triangles == old(triangles)
        invariant colors == old(colors) + Repeated(clr, i)
      {
        RepeatedSnoc(clr, i);
        colors := colors + [clr];
        i := i + 1;
      }
      i := 0;
      while i < mesh.triangles.Length
        invariant 0 <= i <= mesh.triangles.Length
        invariant vertices == old(vertices) + mesh.vertices[..]
        invariant colors == old(colors) + Repeated(clr, mesh.vertices.Length)
        invariant triangles == old(triangles) + Offset(mesh.triangles[..i], count)
      {
        var j := mesh.triangles[i];
        OffsetSnoc(mesh.triangles[..i], j, count);
        assert mesh.triangles[..i + 1] == mesh.triangles[..i] + [j];
        triangles := triangles + [j + count];
        i := i + 1;
      }
      assert mesh.triangles[..i] == mesh.triangles[..];
      if ValidMesh(old(Contents())) && ValidMesh(mesh.Contents()) {
        AppendValid(old(Contents()), mesh.Contents());
      }
    }

    /** `Shift`: every index increased by `offset`; vertices and colours
        stay. */
    method Shift(offset: int)
      modifies this
      ensures triangles == Offset(old(triangles), offset)
      ensures vertices == old(vertices) && colors == old(colors)
    {
      var i := 0;
      while i < |triangles|
        invariant 0 <= i <= |triangles| == |old(triangles)|
        invariant vertices == old(vertices) && colors == old(colors)
        invariant forall k :: 0 <= k < i ==> triangles[k] == old(triangles[k]) + offset
        invariant forall k :: i <= k < |triangles| ==> triangles[k] == old(triangles[k])
      {
        triangles := triangles[i := triangles[i] + offset];
        i := i + 1;
      }
    }

    /** `ShiftZ`: every vertex moved by `offset` along z; indices and
        colours stay. */
    method ShiftZ(offset: real)
      modifies this
      ensures vertices == ShiftedZ(old(vertices), offset)
      ensures triangles == old(triangles) && colors == old(colors)
    {
      var i := 0;
      while i < |vertices|
        invariant 0 <= i <= |vertices| == |old(vertices)|
        invariant triangles == old(triangles) && colors == old(colors)
        invariant forall k :: 0 <= k < i ==> vertices[k] == ShiftedZ(old(vertices), offset)[k]
        invariant forall k :: i <= k < |vertices| ==> vertices[k] == old(vertices[k])
      {
        var v := vertices[i];
        v := v.(z := v.z + offset);
        vertices := vertices[i := v];
        i := i + 1;
      }
    }

    /** `Clear`: all three lists emptied. */
    method Clear()
      modifies this
      ensures vertices == [] && triangles == [] && colors == []
      ensures Valid()
    {
      vertices := [];
      triangles := [];
      colors := [];
    }
  }
}
