/** `StaticPrimitiveMesh`: a mesh held in two fixed-length arrays, whose
    `Shift` and `ShiftZ` overwrite the elements in place. */
module StaticPrimitive {
  import opened Math2d
  import opened MeshIndex

  class StaticPrimitiveMesh {
    var vertices: array<Float3>
    var triangles: array<int>

    /** The current vertex and index lists. */
    function Contents(): Buffers
      reads this, vertices, triangles
    {
      Buffers(vertices[..], triangles[..])
    }

    /** Wraps the two arrays; no copy is made. */
    constructor (vertices: array<Float3>, triangles: array<int>)
      ensures this.vertices == vertices && this.triangles == triangles
    {
      this.vertices := vertices;
      this.triangles := triangles;
    }

    /** The allocating constructor: fresh arrays of the same lengths,
        filled by `CopyFrom` with the same contents. */
    constructor Copy(vertices: array<Float3>, triangles: array<int>)
      ensures fresh(this.vertices) && fresh(this.triangles)
      ensures this.vertices[..] == vertices[..] && this.triangles[..] == triangles[..]
    {
      var vs := new Float3[vertices.Length];
      forall i | 0 <= i < vertices.Length {
        vs[i] := vertices[i];
      }
      var ts := new int[triangles.Length];
      forall i | 0 <= i < triangles.Length {
        ts[i] := triangles[i];
      }
      this.vertices := vs;
      this.triangles := ts;
    }

    /** `Shift`: every index increased by `offset`, in place. */
    method Shift(offset: int)
      modifies triangles
      ensures triangles[..] == Offset(old(triangles[..]), offset)
      ensures unchanged(vertices)
    {
      var i := 0;
      while i < triangles.Length
        invariant 0 <= i <= triangles.Length
        invariant forall k :: 0 <= k < i ==> triangles[k] == old(triangles[k]) + offset
        invariant forall k :: i <= k < triangles.Length ==> triangles[k] == old(triangles[k])
      {
        triangles[i] := triangles[i] + offset;
        i := i + 1;
      }
    }

    /** `ShiftZ`: every vertex moved by `offset` along z, in place. */
    method ShiftZ(offset: real)
      modifies vertices
      ensures vertices[..] == ShiftedZ(old(vertices[..]), offset)
      ensures unchanged(triangles)
    {
      var i := 0;
      while i < vertices.Length
        invariant 0 <= i <= vertices.Length
        invariant forall k :: 0 <= k < i ==> vertices[k] == ShiftedZ(old(vertices[..]), offset)[k]
        invariant forall k :: i <= k < vertices.Length ==> vertices[k] == old(vertices[k])
      {
        var v := vertices[i];
        v := v.(z := v.z + offset);
        vertices[i] := v;
        i := i + 1;
      }
    }
  }
}
