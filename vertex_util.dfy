/** `VertexUtil`: two more `Bounds` extensions, one for a vertex array and
    one for a vertex list. Unlike the list overload of `BoundaryUtil`, both
    report the full box, z included. */
module VertexUtil {
  import opened Math2d
  import opened Extent

  /** `Bounds(NativeList<float3>)`: the box from the componentwise minimum
      to the maximum. */
  method ListBounds(vertices: seq<Float3>) returns (b: Box)
    requires |vertices| > 0
    ensures b == BoxOf(MinOf(vertices), MaxOf(vertices))
    ensures Below(Float3(0.0, 0.0, 0.0), b.size)
  {
    var min, max := MinMax(vertices);
    b := BoxOf(min, max);
    ExtentContains(vertices, 0);
  }

  /** `Bounds(NativeArray<float3>)`: the same box, over the array's
      elements. */
  method Bounds(vertices: array<Float3>) returns (b: Box)
    requires vertices.Length > 0
    ensures b == BoxOf(MinOf(vertices[..]), MaxOf(vertices[..]))
    ensures Below(Float3(0.0, 0.0, 0.0), b.size)
  {
    b := ListBounds(vertices[..]);
  }
}
