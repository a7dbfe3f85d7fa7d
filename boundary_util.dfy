/** `BoundaryUtil`: the `Bounds` extensions that measure a vertex array and
    a vertex list. The list version reports a flat box: depth 1, centred at
    z = 0, whatever the vertices' z. */
module BoundaryUtil {
  import opened Math2d
  import opened Extent

  /** The flat box of the list overload: the x/y extent and midpoint, size
      z = 1 and centre z = 0. */
  function FlatBoxOf(min: Float3, max: Float3): Box {
    Box(Float3(0.5 * (max.x + min.x), 0.5 * (max.y + min.y), 0.0),
        Float3(max.x - min.x, max.y - min.y, 1.0))
  }

  /** The flat box agrees with the full box in x and y, and in z it is the
      unit slab `[-0.5, 0.5]` whatever the vertices' depth. */
  lemma FlatBoxMatchesInPlane(min: Float3, max: Float3)
    ensures FlatBoxOf(min, max).center.z == 0.0 && FlatBoxOf(min, max).size.z == 1.0
    ensures FlatBoxOf(min, max).center.x == BoxOf(min, max).center.x
    ensures FlatBoxOf(min, max).center.y == BoxOf(min, max).center.y
    ensures FlatBoxOf(min, max).size.x == BoxOf(min, max).size.x
    ensures FlatBoxOf(min, max).size.y == BoxOf(min, max).size.y
  {
  }

  /** `Bounds(NativeArray<float3>)`: the box from the componentwise minimum
      to the maximum; every vertex lies inside it. The array must not be
      empty: the first element is read unconditionally. */
  method Bounds(vertices: array<Float3>) returns (b: Box)
    requires vertices.Length > 0
    ensures b == BoxOf(MinOf(vertices[..]), MaxOf(vertices[..]))
    ensures forall i :: 0 <= i < vertices.Length ==>
      Below(Float3(b.center.x - 0.5 * b.size.x, b.center.y - 0.5 * b.size.y, b.center.z - 0.5 * b.size.z), vertices[i]) &&
      Below(vertices[i], Float3(b.center.x + 0.5 * b.size.x, b.center.y + 0.5 * b.size.y, b.center.z + 0.5 * b.size.z))
  {
    var min, max := MinMax(vertices[..]);
    b := BoxOf(min, max);
  }

  /** `Bounds(NativeList<float3>)`: the flat box over the list's x/y
      extent. */
  method ListBounds(vertices: seq<Float3>) returns (b: Box)
    requires |vertices| > 0
    ensures b == FlatBoxOf(MinOf(vertices), MaxOf(vertices))
    ensures forall i :: 0 <= i < |vertices| ==>
      b.center.x - 0.5 * b.size.x <= vertices[i].x <= b.center.x + 0.5 * b.size.x &&
      b.center.y - 0.5 * b.size.y <= vertices[i].y <= b.center.y + 0.5 * b.size.y
  {
    var min, max := MinMax(vertices);
    b := FlatBoxOf(min, max);
  }
}
