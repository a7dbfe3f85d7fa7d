/** The componentwise minimum and maximum of a non-empty vertex list, the
    fold shared by the `Bounds` extensions, and the Unity `Bounds` box built
    from them. */
module Extent {
  import opened Math2d

  /** `math.min` and `math.max` on `float3`, component by component. */
  function Min3(a: Float3, b: Float3): Float3 { Float3(Min(a.x, b.x), Min(a.y, b.y), Min(a.z, b.z)) }
  function Max3(a: Float3, b: Float3): Float3 { Float3(Max(a.x, b.x), Max(a.y, b.y), Max(a.z, b.z)) }

  /** The fold: the first vertex, combined in order with each later one. */
  function MinOf(vs: seq<Float3>): Float3
    requires |vs| > 0
  {
    if |vs| == 1 then vs[0] else Min3(MinOf(vs[..|vs| - 1]), vs[|vs| - 1])
  }

  function MaxOf(vs: seq<Float3>): Float3
    requires |vs| > 0
  {
    if |vs| == 1 then vs[0] else Max3(MaxOf(vs[..|vs| - 1]), vs[|vs| - 1])
  }

  /** `a <= b` in every component. */
  predicate Below(a: Float3, b: Float3) {
    a.x <= b.x && a.y <= b.y && a.z <= b.z
  }

  /** Every vertex lies between the minimum and the maximum. */
  lemma {:induction false} ExtentContains(vs: seq<Float3>, i: int)
    requires 0 <= i < |vs|
    ensures Below(MinOf(vs), vs[i]) && Below(vs[i], MaxOf(vs))
  {
    if |vs| > 1 && i < |vs| - 1 {
      ExtentContains(vs[..|vs| - 1], i);
    }
  }

  /** Component `c` of a vector: x, y, z for 0, 1, 2. */
  function Component(v: Float3, c: int): real {
    if c == 0 then v.x else if c == 1 then v.y else v.z
  }

  /** Each component of the minimum, and of the maximum, is that component
      of some vertex. */
  lemma {:induction false} MinAttained(vs: seq<Float3>, c: int)
    requires |vs| > 0
    ensures exists i :: 0 <= i < |vs| && Component(MinOf(vs), c) == Component(vs[i], c)
  {
    if |vs| == 1 {
      assert Component(MinOf(vs), c) == Component(vs[0], c);
    } else {
      var front := vs[..|vs| - 1];
      MinAttained(front, c);
      var j :| 0 <= j < |front| && Component(MinOf(front), c) == Component(front[j], c);
      assert front[j] == vs[j];
      if Component(MinOf(vs), c) != Component(vs[|vs| - 1], c) {
        assert Component(MinOf(vs), c) == Component(vs[j], c);
      }
    }
  }

  lemma {:induction false} MaxAttained(vs: seq<Float3>, c: int)
    requires |vs| > 0
    ensures exists i :: 0 <= i < |vs| && Component(MaxOf(vs), c) == Component(vs[i], c)
  {
    if |vs| == 1 {
      assert Component(MaxOf(vs), c) == Component(vs[0], c);
    } else {
      var front := vs[..|vs| - 1];
      MaxAttained(front, c);
      var j :| 0 <= j < |front| && Component(MaxOf(front), c) == Component(front[j], c);
      assert front[j] == vs[j];
      if Component(MaxOf(vs), c) != Component(vs[|vs| - 1], c) {
        assert Component(MaxOf(vs), c) == Component(vs[j], c);
      }
    }
  }

  /** The minimum and the maximum of a list depend only on its contents:
      equal lists (an array and a list holding the same vertices) have
      equal extents, whatever the order of the fold. */
  lemma {:induction false} ExtentOfPermutation(vs: seq<Float3>, ws: seq<Float3>)
    requires |vs| > 0 && multiset(vs) == multiset(ws)
    ensures |ws| == |vs|
    ensures MinOf(vs) == MinOf(ws) && MaxOf(vs) == MaxOf(ws)
  {
    assert |ws| == |multiset(ws)| == |multiset(vs)| == |vs|;
    forall i | 0 <= i < |ws| ensures Below(MinOf(vs), ws[i]) && Below(ws[i], MaxOf(vs)) {
      assert ws[i] in multiset(vs);
      var j :| 0 <= j < |vs| && vs[j] == ws[i];
      ExtentContains(vs, j);
    }
    forall i | 0 <= i < |vs| ensures Below(MinOf(ws), vs[i]) && Below(vs[i], MaxOf(ws)) {
      assert vs[i] in multiset(ws);
      var j :| 0 <= j < |ws| && ws[j] == vs[i];
      ExtentContains(ws, j);
    }
    forall c | 0 <= c < 3
      ensures Component(MinOf(vs), c) == Component(MinOf(ws), c)
      ensures Component(MaxOf(vs), c) == Component(MaxOf(ws), c)
    {
      MinAttained(vs, c);
      MinAttained(ws, c);
      MaxAttained(vs, c);
      MaxAttained(ws, c);
    }
    assert Component(MinOf(vs), 0) == Component(MinOf(ws), 0);
    assert Component(MinOf(vs), 1) == Component(MinOf(ws), 1);
    assert Component(MinOf(vs), 2) == Component(MinOf(ws), 2);
    assert Component(MaxOf(vs), 0) == Component(MaxOf(ws), 0);
    assert Component(MaxOf(vs), 1) == Component(MaxOf(ws), 1);
    assert Component(MaxOf(vs), 2) == Component(MaxOf(ws), 2);
  }

  /** The min/max loop of the `Bounds` extensions. */
  method MinMax(vs: seq<Float3>) returns (min: Float3, max: Float3)
    requires |vs| > 0
    ensures min == MinOf(vs) && max == MaxOf(vs)
    ensures forall i :: 0 <= i < |vs| ==> Below(min, vs[i]) && Below(vs[i], max)
  {
    var v := vs[0];
    min := v;
    max := v;
    var i := 1;
    while i < |vs|
      invariant 1 <= i <= |vs|
      invariant min == MinOf(vs[..i]) && max == MaxOf(vs[..i])
    {
      v := vs[i];
      assert vs[..i + 1][..i] == vs[..i];
      min := Min3(min, v);
      max := Max3(max, v);
      i := i + 1;
    }
    assert vs[..i] == vs;
    forall i | 0 <= i < |vs| ensures Below(min, vs[i]) && Below(vs[i], max) {
      ExtentContains(vs, i);
    }
  }

  /** A Unity `Bounds`: the centre of the box and its full size. */
  datatype Box = Box(center: Float3, size: Float3)

  /** `new Bounds(0.5 * (min + max), max - min)`. */
  function BoxOf(min: Float3, max: Float3): Box {
    Box(Float3(0.5 * (min.x + max.x), 0.5 * (min.y + max.y), 0.5 * (min.z + max.z)),
        Float3(max.x - min.x, max.y - min.y, max.z - min.z))
  }

  /** The box's faces are the minimum and the maximum: `center ± size / 2`
      gives them back, and the size is never negative. */
  lemma BoxOfFaces(min: Float3, max: Float3)
    requires Below(min, max)
    ensures var b := BoxOf(min, max);
      && Below(Float3(0.0, 0.0, 0.0), b.size)
      && b.center.x - 0.5 * b.size.x == min.x && b.center.x + 0.5 * b.size.x == max.x
      && b.center.y - 0.5 * b.size.y == min.y && b.center.y + 0.5 * b.size.y == max.y
      && b.center.z - 0.5 * b.size.z == min.z && b.center.z + 0.5 * b.size.z == max.z
  {
  }
}
