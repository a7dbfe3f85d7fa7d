/** `NativeTextureMesh`: a mesh with one texture coordinate per vertex, held
    in three growable lists. Every `Add` appends vertices and their
    coordinates together, so the two lists stay equally long, which the
    upload relies on when it reads `uvs[i]` for each vertex `i`. */
module NativeTexture {
  import opened Math2d
  import opened MeshIndex
  import opened StaticPrimitive
  import opened NativePrimitive

  /** The texture coordinate of a vertex: its x and y divided by `scale`. */
  function Uv(v: Float3, scale: real): Float2
    requires scale != 0.0
  {
    Float2(v.x / scale, v.y / scale)
  }

  /** The coordinates of a list of vertices. */
  function Uvs(vs: seq<Float3>, scale: real): (r: seq<Float2>)
    requires scale != 0.0
    ensures |r| == |vs|
  {
    seq(|vs|, i requires 0 <= i < |vs| => Uv(vs[i], scale))
  }

  /** Scaling a coordinate back by `scale` gives the vertex's position in
      the plane: the coordinates are the positions in units of `scale`. */
  lemma UvScalesBack(v: Float3, scale: real)
    requires scale != 0.0
    ensures Uv(v, scale).Scale(scale) == Float2(v.x, v.y)
  {
  }

  /** Coordinates of a concatenation are the concatenated coordinates. */
  lemma UvsAppend(vs: seq<Float3>, ws: seq<Float3>, scale: real)
    requires scale != 0.0
    ensures Uvs(vs + ws, scale) == Uvs(vs, scale) + Uvs(ws, scale)
  {
  }

  class NativeTextureMesh {
    var vertices: seq<Float3>
    var triangles: seq<int>
    var uvs: seq<Float2>

    /** The current vertex and index lists. */
    function Contents(): Buffers
      reads this
    {
      Buffers(vertices, triangles)
    }

    /** One texture coordinate per vertex. */
    predicate Valid()
      reads this
    {
      |uvs| == |vertices|
    }

    /** Three empty lists; `capacity` only reserves storage. */
    constructor (capacity: int)
      ensures vertices == [] && triangles == [] && uvs == []
      ensures Valid()
    {
      vertices := [];
      uvs := [];
      triangles := [];
    }

    /** `Add(NativeTextureMesh)`: the other mesh's vertices and coordinates
        appended, its indices offset by the vertex count before the call. */
    method Add(other: NativeTextureMesh)
      requires other != this
      modifies this
      ensures Contents() == Append(old(Contents()), other.Contents())
      ensures uvs == old(uvs) + other.uvs
      ensures old(Valid()) && other.Valid() ==> Valid()
      ensures ValidMesh(old(Contents())) && ValidMesh(other.Contents()) ==> ValidMesh(Contents())
    {
      var count := |vertices|;
      vertices := vertices + other.vertices;
      uvs := uvs + other.uvs;
      var i := 0;
      while i < |other.triangles|
        invariant 0 <= i <= |other.triangles|
        invariant vertices == old(vertices) + other.vertices && uvs == old(uvs) + other.uvs
        invariant triangles == old(triangles) + Offset(other.triangles[..i], count)
      {
        var j := other.triangles[i];
        OffsetSnoc(other.triangles[..i], j, count);
        assert other.triangles[..i + 1] == other.triangles[..i] + [j];
        triangles := triangles + [j + count];
        i := i + 1;
      }
      assert other.triangles[..i] == other.triangles;
      if ValidMesh(old(Contents())) && ValidMesh(other.Contents()) {
        AppendValid(old(Contents()), other.Contents());
      }
    }

    /** `Add(NativePrimitiveMesh, float)`: the mesh appended as by `Add`,
        with the coordinate `(v.x / scale, v.y / scale)` of each appended
        vertex `v`. */
    method AddPrimitive(mesh: NativePrimitiveMesh, scale: real)
      requires scale != 0.0
      modifies this
      ensures Contents() == Append(old(Contents()), mesh.Contents())
      ensures uvs == old(uvs) + Uvs(mesh.vertices, scale)
      ensures old(Valid()) ==> Valid()
      ensures ValidMesh(old(Contents())) && ValidMesh(mesh.Contents()) ==> ValidMesh(Contents())
    {
      var count := |vertices|;
      vertices := vertices + mesh.vertices;
      var i := 0;
      while i < |mesh.vertices|
        invariant 0 <= i <= |mesh.vertices|
        invariant vertices == old(vertices) + mesh.vertices && triangles == old(triangles)
        invariant uvs == old(uvs) + Uvs(mesh.vertices[..i], scale)
      {
        var v := mesh.vertices[i];
        UvsAppend(mesh.vertices[..i], [v], scale);
        assert mesh.vertices[..i + 1] == mesh.vertices[..i] + [v];
        uvs := uvs + [Float2(v.x / scale, v.y / scale)];
        i := i + 1;
      }
      assert mesh.vertices[..i] == mesh.vertices;
      i := 0;
      while i < |mesh.triangles|
        invariant 0 <= i <= |mesh.triangles|
        invariant vertices == old(vertices) + mesh.vertices
        invariant uvs == old(uvs) + Uvs(mesh.vertices, scale)
        invariant triangles == old(triangles) + Offset(mesh.triangles[..i], count)
      {
        var j := mesh.triangles[i];
        OffsetSnoc(mesh.triangles[..i], j, count);
        assert mesh.triangles[..i + 1] == mesh.triangles[..i] + [j];
        triangles := triangles + [j + count];
        i := i + 1;
      }
      assert mesh.triangles[..i] == mesh.triangles;
      if ValidMesh(old(Contents())) && ValidMesh(mesh.Contents()) {
        AppendValid(old(Contents()), mesh.Contents());
      }
    }

    /** `Add(StaticPrimitiveMesh, float)`: the same, reading the other
        mesh's arrays. */
    method AddStatic(mesh: StaticPrimitiveMesh, scale: real)
      requires scale != 0.0
      modifies this
      ensures Contents() == Append(old(Contents()), mesh.Contents())
      ensures uvs == old(uvs) + Uvs(mesh.vertices[..], scale)
      ensures old(Valid()) ==> Valid()
      ensures ValidMesh(old(Contents())) && ValidMesh(mesh.Contents()) ==> ValidMesh(Contents())
    {
      var count := |vertices|;
      vertices := vertices + mesh.vertices[..];
      var i := 0;
      while i < mesh.vertices.Length
        invariant 0 <= i <= mesh.vertices.Length
        invariant vertices == old(vertices) + mesh.vertices[..] && triangles == old(triangles)
        invariant uvs == old(uvs) + Uvs(mesh.vertices[..i], scale)
      {
        var v := mesh.vertices[i];
        UvsAppend(mesh.vertices[..i], [v], scale);
        assert mesh.vertices[..i + 1] == mesh.vertices[..i] + [v];
        uvs := uvs + [Float2(v.x / scale, v.y / scale)];
        i := i + 1;
      }
      assert mesh.vertices[..i] == mesh.vertices[..];
      i := 0;
      while i < mesh.triangles.Length
        invariant 0 <= i <= mesh.triangles.Length
        invariant vertices == old(vertices) + mesh.vertices[..]
        invariant uvs == old(uvs) + Uvs(mesh.vertices[..], scale)
        invariant triangles == old(triangles) + Offset(mesh.triangles[..i], count)
      {
        var j := mesh.triangles[i];
        OffsetSnoc(mesh.triangles[..i], j, count);
        assert mesh.triangles[..i + 1] == mesh.triangles[..i] + [j];
        triangles := triangles + [j + count];
        i := i + 1;
      }
      assert mesh.triangles[..i] == mesh.triangles[..];
      if ValidMesh(old(Contents())) && ValidMesh(mesh.Contents()) {
        AppendValid(old(Contents()), mesh.Contents());
      }
    }

    /** `Clear`: all three lists emptied. */
    method Clear()
      modifies this
      ensures vertices == [] && triangles == [] && uvs == []
      ensures Valid()
    {
      vertices := [];
      triangles := [];
      uvs := [];
    }
  }
}
