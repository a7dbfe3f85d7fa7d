/** `NativePrimitiveMesh`: a mesh held in two growable lists. `Add` appends
    another mesh, offsetting its indices past the vertices already present;
    `Shift`, `ShiftZ` and `Clear` edit the lists in place. */
module NativePrimitive {
  import opened Math2d
  import opened MeshIndex
  import opened StaticPrimitive

  class NativePrimitiveMesh {
    var vertices: seq<Float3>
    var triangles: seq<int>

    /** The current vertex and index lists. */
    function Contents(): Buffers
      reads this
    {
      Buffers(vertices, triangles)
    }

    /** Two empty lists; `capacity` only reserves storage. */
    constructor (capacity: int)
      ensures vertices == [] && triangles == []
    {
      vertices := [];
      triangles := [];
    }

    /** Takes over two existing lists. */
    constructor FromLists(vertices: seq<Float3>, triangles: seq<int>)
      ensures this.vertices == vertices && this.triangles == triangles
    {
      this.vertices := vertices;
      this.triangles := triangles;
    }

    /** The copying constructor: lists with the arrays' contents. */
    constructor FromArrays(vertices: array<Float3>, triangles: array<int>)
      ensures this.vertices == vertices[..] && this.triangles == triangles[..]
    {
      this.vertices := vertices[..];
      this.triangles := triangles[..];
    }

    /** `Add(NativePrimitiveMesh)`: the other mesh appended, its indices
        offset by the vertex count before the call. The other mesh must be a
        different one: adding a mesh to itself grows the list being read and
        never ends. */
    method Add(other: NativePrimitiveMesh)
      requires other != this
      modifies this
      ensures Contents() == Append(old(Contents()), other.Contents())
      ensures ValidMesh(old(Contents())) && ValidMesh(other.Contents()) ==> ValidMesh(Contents())
    {
      var count := |vertices|;
      vertices := vertices + other.vertices;
      var i := 0;
      while i < |other.triangles|
        invariant 0 <= i <= |other.triangles|
        invariant vertices == old(vertices) + other.vertices
        invariant triangles == old(triangles) + Offset(other.triangles[..i], count)
      {
        var j := other.triangles[i];
        OffsetSnoc(other.triangles[..i], j, count);
        assert other.triangles[..i + 1] == other.triangles[..i] + [j];
        triangles := triangles + [j + count];
        i := i + 1;
      }
      assert other.triangles[..i] == other.triangles;
      if ValidMesh(old(Contents())) && ValidMesh(other.Contents()) {
        AppendValid(old(Contents()), other.Contents());
      }
    }

    /** `Add(StaticPrimitiveMesh)`: the same append, reading the other
        mesh's arrays. */
    method AddStatic(other: StaticPrimitiveMesh)
      modifies this
      ensures Contents() == Append(old(Contents()), other.Contents())
      ensures ValidMesh(old(Contents())) && ValidMesh(other.Contents()) ==> ValidMesh(Contents())
    {
      var count := |vertices|;
      vertices := vertices + other.vertices[..];
      var i := 0;
      while i < other.triangles.Length
        invariant 0 <= i <= other.triangles.Length
        invariant vertices == old(vertices) + other.vertices[..]
        invariant triangles == old(triangles) + Offset(other.triangles[..i], count)
      {
        var j := other.triangles[i];
        OffsetSnoc(other.triangles[..i], j, count);
        assert other.triangles[..i + 1] == other.triangles[..i] + [j];
        triangles := triangles + [j + count];
        i := i + 1;
      }
      assert other.triangles[..i] == other.triangles[..];
      if ValidMesh(old(Contents())) && ValidMesh(other.Contents()) {
        AppendValid(old(Contents()), other.Contents());
      }
    }

    /** `Shift`: every index increased by `offset`; the vertices stay. */
    method Shift(offset: int)
      modifies this
      ensures triangles == Offset(old(triangles), offset) && vertices == old(vertices)
    {
      var i := 0;
      while i < |triangles|
        invariant 0 <= i <= |triangles| == |old(triangles)|
        invariant vertices == old(vertices)
        invariant forall k :: 0 <= k < i ==> triangles[k] == old(triangles[k]) + offset
        invariant forall k :: i <= k < |triangles| ==> triangles[k] == old(triangles[k])
      {
        triangles := triangles[i := triangles[i] + offset];
        i := i + 1;
      }
    }

    /** `ShiftZ`: every vertex moved by `offset` along z; the indices stay. */
    method ShiftZ(offset: real)
      modifies this
      ensures vertices == ShiftedZ(old(vertices), offset) && triangles == old(triangles)
    {
      var i := 0;
      while i < |vertices|
        invariant 0 <= i <= |vertices| == |old(vertices)|
        invariant triangles == old(triangles)
        invariant forall k :: 0 <= k < i ==> vertices[k] == ShiftedZ(old(vertices), offset)[k]
        invariant forall k :: i <= k < |vertices| ==> vertices[k] == old(vertices[k])
      {
        var v := vertices[i];
        v := v.(z := v.z + offset);
        vertices := vertices[i := v];
        i := i + 1;
      }
    }

    /** `Clear`: both lists emptied. */
    method Clear()
      modifies this
      ensures vertices == [] && triangles == []
    {
      vertices := [];
      triangles := [];
    }
  }
}
