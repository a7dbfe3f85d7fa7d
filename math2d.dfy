/** Vector arithmetic of the mesh generator: 2D and 3D points, the 2D cross
    product, rotation matrices and the orthogonal-vector helper.
    Single-precision floats are modelled as exact reals; `sqrt` is supplied
    by the caller as an uninterpreted function, and `cos`/`sin` values are
    supplied as numbers. */
module Math2d {

  datatype Float2 = Float2(x: real, y: real) {
    function Add(o: Float2): Float2 { Float2(x + o.x, y + o.y) }
    function Sub(o: Float2): Float2 { Float2(x - o.x, y - o.y) }
    function Neg(): Float2 { Float2(-x, -y) }
    function Scale(k: real): Float2 { Float2(k * x, k * y) }
  }

  datatype Float3 = Float3(x: real, y: real, z: real)

  datatype Float4 = Float4(x: real, y: real, z: real, w: real)

  /** A 2x2 matrix given row by row, as `float2x2(m00, m01, m10, m11)`. */
  datatype Float2x2 = Float2x2(m00: real, m01: real, m10: real, m11: real)

  function Abs(x: real): real { if x < 0.0 then -x else x }

  /** `math.min` and `math.max` on one float. */
  function Min(a: real, b: real): real { if a < b then a else b }
  function Max(a: real, b: real): real { if a > b then a else b }

  /** `a · b` as a function, so that sign facts about squares are stated
      about one term. */
  function Product(a: real, b: real): real { a * b }

  lemma ProductPositive(a: real, b: real)
    requires a > 0.0 && b > 0.0
    ensures Product(a, b) > 0.0
  {
  }

  /** A square is never negative, and positive unless its root is zero. */
  lemma SquareSign(t: real)
    ensures Product(t, t) >= 0.0
    ensures t != 0.0 ==> Product(t, t) > 0.0
  {
    if t > 0.0 {
      ProductPositive(t, t);
    } else if t < 0.0 {
      ProductPositive(-t, -t);
      assert Product(t, t) == Product(-t, -t);
    }
  }

  function Dot(a: Float2, b: Float2): real { a.x * b.x + a.y * b.y }

  function NormSquared(v: Float2): real { Dot(v, v) }

  /** Only the zero vector has squared length zero. */
  lemma NormSquaredPositive(v: Float2)
    requires v.x != 0.0 || v.y != 0.0
    ensures NormSquared(v) > 0.0
  {
    SquareSign(v.x);
    SquareSign(v.y);
    assert NormSquared(v) == Product(v.x, v.x) + Product(v.y, v.y);
  }

  /** `math.mul(m, v)`: matrix times column vector. */
  function Mul(m: Float2x2, v: Float2): Float2 {
    Float2(m.m00 * v.x + m.m01 * v.y, m.m10 * v.x + m.m11 * v.y)
  }

  /** `(x, y)` of a 3D point placed at depth `z`: `new float3(p, z)`. */
  function Lift(p: Float2, z: real): (v: Float3)
    ensures v.z == z && v.x == p.x && v.y == p.y
  {
    Float3(p.x, p.y, z)
  }

  /** `sqrt` behaves as the non-negative square root at `q`. */
  predicate IsSqrtAt(sqrt: real -> real, q: real) {
    sqrt(q) >= 0.0 && Product(sqrt(q), sqrt(q)) == q
  }

  /** The 2D cross product; positive when `b` lies counter-clockwise of `a`. */
  function Cross(a: Float2, b: Float2): real {
    a.x * b.y - a.y * b.x
  }

  lemma CrossAntisymmetric(a: Float2, b: Float2)
    ensures Cross(a, b) == -Cross(b, a)
  {
  }

  lemma CrossSelfIsZero(a: Float2)
    ensures Cross(a, a) == 0.0
  {
  }

  /** `rotationMatrix(angle)`: the rotation matrix for an angle whose cosine
      is `cs` and sine is `sn`, which its callers compute with
      `math.cos`/`math.sin`. */
  function RotationMatrix(cs: real, sn: real): Float2x2 {
    Float2x2(cs, -sn, sn, cs)
  }

  /** When cos² + sin² = 1, the rotation by the opposite angle (same cosine,
      opposite sine) undoes the rotation. */
  lemma RotationUndone(cs: real, sn: real, v: Float2)
    requires cs * cs + sn * sn == 1.0
    ensures Mul(RotationMatrix(cs, -sn), Mul(RotationMatrix(cs, sn), v)) == v
  {
    var w := Mul(RotationMatrix(cs, sn), v);
    var u := Mul(RotationMatrix(cs, -sn), w);
    calc {
      u.x;
      cs * (cs * v.x - sn * v.y) + sn * (sn * v.x + cs * v.y);
      (cs * cs + sn * sn) * v.x;
      v.x;
    }
    calc {
      u.y;
      -sn * (cs * v.x - sn * v.y) + cs * (sn * v.x + cs * v.y);
      (cs * cs + sn * sn) * v.y;
      v.y;
    }
  }

  /** A rotation matrix (cos² + sin² = 1) keeps the length of the vector. */
  lemma RotationPreservesLength(cs: real, sn: real, v: Float2)
    requires cs * cs + sn * sn == 1.0
    ensures NormSquared(Mul(RotationMatrix(cs, sn), v)) == NormSquared(v)
  {
    var w := Mul(RotationMatrix(cs, sn), v);
    calc {
      NormSquared(w);
      (cs * v.x - sn * v.y) * (cs * v.x - sn * v.y) + (sn * v.x + cs * v.y) * (sn * v.x + cs * v.y);
      (cs * cs + sn * sn) * (v.x * v.x) + (cs * cs + sn * sn) * (v.y * v.y);
      NormSquared(v);
    }
  }

  /** The rotated vector lies counter-clockwise of the original exactly when
      the sine is positive: the cross product is `sin · |v|²`. */
  lemma RotationTurnsBySine(cs: real, sn: real, v: Float2)
    ensures Cross(v, Mul(RotationMatrix(cs, sn), v)) == sn * NormSquared(v)
  {
  }

  /** Tolerance below which `Ortho` treats the vector as vertical. */
  const OrthoEps: real := 0.000001

  /** A unit vector perpendicular to `vec`, on the side chosen by `clockwise`. */
  function Ortho(vec: Float2, clockwise: bool, sqrt: real -> real): (r: Float2)
    ensures Abs(vec.x) < OrthoEps ==> r.y == 0.0 && (r.x == 1.0 || r.x == -1.0)
  {
    if Abs(vec.x) < OrthoEps then
      if clockwise == (vec.y > 0.0) then Float2(1.0, 0.0) else Float2(-1.0, 0.0)
    else
      var c := OrthoCandidate(vec, sqrt);
      var ab := vec.x * c.y - vec.y * c.x;
      if (ab < 0.0) == clockwise then c else c.Neg()
  }

  /** `(x0, y0)` with `y0 = sqrt(qy)` and `x0 = -k·y0`. */
  function OrthoCandidate(vec: Float2, sqrt: real -> real): Float2
    requires vec.x != 0.0
  {
    var y0 := sqrt(OrthoRadicand(vec));
    Float2(-OrthoSlope(vec) * y0, y0)
  }

  /** `k = vec.y / vec.x`, the slope of `vec`. */
  function OrthoSlope(vec: Float2): real
    requires vec.x != 0.0
  {
    vec.y / vec.x
  }

  /** `qy = 1 / (1 + k²)`, the quantity whose square root `Ortho` takes. */
  function OrthoRadicand(vec: Float2): real
    requires vec.x != 0.0
  {
    var k := OrthoSlope(vec);
    1.0 / (1.0 + Product(k, k))
  }

  lemma ProductOfProducts(a: real, b: real)
    ensures Product(a * b, a * b) == Product(a, a) * Product(b, b)
  {
  }

  lemma NegatedSquare(a: real)
    ensures Product(-a, -a) == Product(a, a)
  {
  }

  lemma ReciprocalCancels(d: real)
    requires d != 0.0
    ensures d * (1.0 / d) == 1.0
  {
  }

  /** The radicand is positive, so `y0` is a positive root. */
  lemma OrthoRadicandPositive(vec: Float2)
    requires vec.x != 0.0
    ensures OrthoRadicand(vec) > 0.0
    ensures (1.0 + Product(OrthoSlope(vec), OrthoSlope(vec))) * OrthoRadicand(vec) == 1.0
  {
    var k := OrthoSlope(vec);
    SquareSign(k);
    ReciprocalCancels(1.0 + Product(k, k));
  }

  /** Near-vertical input: `(1, 0)` when `clockwise` agrees with `vec.y > 0`,
      otherwise `(-1, 0)`. */
  lemma OrthoNearVertical(vec: Float2, clockwise: bool, sqrt: real -> real)
    requires Abs(vec.x) < OrthoEps
    ensures clockwise == (vec.y > 0.0) ==> Ortho(vec, clockwise, sqrt) == Float2(1.0, 0.0)
    ensures clockwise != (vec.y > 0.0) ==> Ortho(vec, clockwise, sqrt) == Float2(-1.0, 0.0)
  {
  }

  /** Otherwise the result is `±(x0, y0)` with `x0 = -k·y0`, perpendicular to `vec`. */
  lemma OrthoPerpendicular(vec: Float2, clockwise: bool, sqrt: real -> real)
    requires Abs(vec.x) >= OrthoEps
    ensures var c := OrthoCandidate(vec, sqrt);
      Ortho(vec, clockwise, sqrt) == c || Ortho(vec, clockwise, sqrt) == c.Neg()
    ensures Dot(vec, Ortho(vec, clockwise, sqrt)) == 0.0
  {
    var k := OrthoSlope(vec);
    var y0 := sqrt(OrthoRadicand(vec));
    assert vec.x * k == vec.y;
    assert vec.x * (-k * y0) + vec.y * y0 == 0.0 by {
      assert vec.x * (-k * y0) == -(vec.x * k) * y0;
    }
  }

  /** With a true square root, the result of the non-vertical branch has unit length. */
  lemma OrthoUnit(vec: Float2, clockwise: bool, sqrt: real -> real)
    requires Abs(vec.x) >= OrthoEps
    requires IsSqrtAt(sqrt, OrthoRadicand(vec))
    ensures NormSquared(Ortho(vec, clockwise, sqrt)) == 1.0
  {
    var k := OrthoSlope(vec);
    var q := OrthoRadicand(vec);
    var y0 := sqrt(q);
    var x0 := -k * y0;
    OrthoRadicandPositive(vec);
    ProductOfProducts(-k, y0);
    NegatedSquare(k);
    NegatedSquare(x0);
    NegatedSquare(y0);
    assert Product(x0, x0) == Product(k, k) * q;
    assert NormSquared(Float2(x0, y0)) == Product(x0, x0) + Product(y0, y0);
    assert NormSquared(Float2(-x0, -y0)) == Product(-x0, -x0) + Product(-y0, -y0);
  }

  /** `vec.x · (vec.x + vec.y·k) = |vec|²`, which is positive. */
  lemma SlopeSumSign(vec: Float2)
    requires vec.x != 0.0
    ensures vec.x * (vec.x + vec.y * OrthoSlope(vec)) > 0.0
  {
    var k := OrthoSlope(vec);
    assert vec.x * k == vec.y;
    assert vec.x * (vec.x + vec.y * k) == Product(vec.x, vec.x) + Product(vec.y, vec.y) by {
      assert vec.x * (vec.y * k) == vec.y * (vec.x * k);
    }
    SquareSign(vec.x);
    SquareSign(vec.y);
  }

  /** The candidate `(x0, y0)` is never parallel to `vec`. */
  lemma OrthoCandidateNotParallel(vec: Float2, sqrt: real -> real)
    requires vec.x != 0.0
    requires IsSqrtAt(sqrt, OrthoRadicand(vec))
    ensures Cross(vec, OrthoCandidate(vec, sqrt)) != 0.0
  {
    var k := OrthoSlope(vec);
    var y0 := sqrt(OrthoRadicand(vec));
    var w := vec.x + vec.y * k;
    OrthoRadicandPositive(vec);
    assert y0 > 0.0;
    SlopeSumSign(vec);
    assert w != 0.0;
    assert Cross(vec, OrthoCandidate(vec, sqrt)) == y0 * w;
    if w > 0.0 { ProductPositive(y0, w); } else { ProductPositive(y0, -w); }
  }

  /** With a true square root, `clockwise` selects the side: the result lies
      clockwise of `vec` (negative cross product) exactly when `clockwise`. */
  lemma OrthoSide(vec: Float2, clockwise: bool, sqrt: real -> real)
    requires Abs(vec.x) >= OrthoEps
    requires IsSqrtAt(sqrt, OrthoRadicand(vec))
    ensures clockwise <==> Cross(vec, Ortho(vec, clockwise, sqrt)) < 0.0
  {
    var c := OrthoCandidate(vec, sqrt);
    OrthoCandidateNotParallel(vec, sqrt);
    assert Cross(vec, c.Neg()) == -Cross(vec, c);
  }
}
