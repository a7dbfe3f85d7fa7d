/** One edge of a path: its endpoints, unit direction, length, and the
    left-hand normal `ortho` used to offset ribbon edges. */
module Segments {
  import opened Math2d

  datatype Segment = Segment(a: Float2, b: Float2, direction: Float2, length: real) {

    /** `ortho`: the direction turned a quarter turn counter-clockwise,
        `(-direction.y, direction.x)`. */
    function Ortho(): (o: Float2)
      ensures Dot(direction, o) == 0.0
      ensures NormSquared(o) == NormSquared(direction)
      ensures Cross(direction, o) == NormSquared(direction)
    {
      Float2(-direction.y, direction.x)
    }
  }

  /** Two points can form a segment: they are distinct (`Segment` divides by
      the length) and `sqrt` is a true square root at the squared length. */
  predicate EdgeOk(a: Float2, b: Float2, sqrt: real -> real) {
    a != b && IsSqrtAt(sqrt, NormSquared(b.Sub(a)))
  }

  lemma SqrtOfPositive(sqrt: real -> real, q: real)
    requires IsSqrtAt(sqrt, q) && q > 0.0
    ensures sqrt(q) > 0.0
  {
  }

  lemma ScaleUndoesDivision(v: Float2, len: real)
    requires len != 0.0
    ensures Float2(v.x / len, v.y / len).Scale(len) == v
  {
  }

  /** The `Segment(a, b)` constructor: `length = math.length(b - a)`,
      `direction = (b - a) / length`. */
  function NewSegment(a: Float2, b: Float2, sqrt: real -> real): (s: Segment)
    requires EdgeOk(a, b, sqrt)
    ensures s.a == a && s.b == b
  {
    var v := b.Sub(a);
    assert v.x != 0.0 || v.y != 0.0 by { assert b == Float2(b.x, b.y) && a == Float2(a.x, a.y); }
    NormSquaredPositive(v);
    SqrtOfPositive(sqrt, NormSquared(v));
    var length := sqrt(NormSquared(v));
    ScaleUndoesDivision(v, length);
    Segment(a, b, Float2(v.x / length, v.y / length), length)
  }

  /** A constructed segment's length is the positive square root of the
      squared distance, and `length·direction` spans the segment. */
  lemma SegmentGeometry(a: Float2, b: Float2, sqrt: real -> real)
    requires EdgeOk(a, b, sqrt)
    ensures var s := NewSegment(a, b, sqrt);
      && s.length > 0.0 && s.length * s.length == NormSquared(b.Sub(a))
      && s.direction.Scale(s.length) == b.Sub(a)
  {
    var v := b.Sub(a);
    assert v.x != 0.0 || v.y != 0.0 by { assert b == Float2(b.x, b.y) && a == Float2(a.x, a.y); }
    NormSquaredPositive(v);
    SqrtOfPositive(sqrt, NormSquared(v));
    ScaleUndoesDivision(v, sqrt(NormSquared(v)));
  }

  /** The direction of a constructed segment has unit length. */
  lemma DirectionIsUnit(a: Float2, b: Float2, sqrt: real -> real)
    requires EdgeOk(a, b, sqrt)
    ensures NormSquared(NewSegment(a, b, sqrt).direction) == 1.0
  {
    SegmentGeometry(a, b, sqrt);
    var s := NewSegment(a, b, sqrt);
    var v := b.Sub(a);
    var d := s.direction;
    var len := s.length;
    assert d.x * len == v.x && d.y * len == v.y;
    calc {
      (d.x * d.x + d.y * d.y) * (len * len);
      (d.x * len) * (d.x * len) + (d.y * len) * (d.y * len);
      v.x * v.x + v.y * v.y;
      len * len;
    }
    assert len * len > 0.0;
  }

  /** The normal of a constructed segment is a unit vector perpendicular to
      the direction, turned counter-clockwise from it. */
  lemma OrthoIsUnitLeftNormal(a: Float2, b: Float2, sqrt: real -> real)
    requires EdgeOk(a, b, sqrt)
    ensures var s := NewSegment(a, b, sqrt);
      Dot(s.direction, s.Ortho()) == 0.0 && NormSquared(s.Ortho()) == 1.0 &&
      Cross(s.direction, s.Ortho()) == 1.0
  {
    DirectionIsUnit(a, b, sqrt);
  }
}
