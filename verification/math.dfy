/**
 The scalar and vector operations the ground-contact kernel is written in.

 One SIMD lane is modelled: every scalar is an exact `real`. Vectors are
 plain records; `Scale2`/`Scale3` are the source's `vector * scalar`.
 */
module Math {

  datatype Vec2 = Vec2(x: real, y: real)

  datatype Vec3 = Vec3(x: real, y: real, z: real)

  function Dot2(a: Vec2, b: Vec2): real {
    a.x * b.x + a.y * b.y
  }

  function Add2(a: Vec2, b: Vec2): Vec2 {
    Vec2(a.x + b.x, a.y + b.y)
  }

  function Scale2(a: Vec2, k: real): Vec2 {
    Vec2(a.x * k, a.y * k)
  }

  function Sub2(a: Vec2, b: Vec2): Vec2 {
    Vec2(a.x - b.x, a.y - b.y)
  }

  function NormSq2(a: Vec2): (n: real)
    ensures n >= 0.0
  {
    Dot2(a, a)
  }

  /** Scaling a vector by `k` scales its squared norm by `k * k`. */
  lemma NormSqScale2(a: Vec2, k: real)
    ensures NormSq2(Scale2(a, k)) == k * k * NormSq2(a)
  {
    assert (a.x * k) * (a.x * k) == k * k * (a.x * a.x);
    assert (a.y * k) * (a.y * k) == k * k * (a.y * a.y);
  }

  /** Squaring is strictly increasing on the non-negative reals. */
  lemma SquareMonotone(a: real, b: real)
    requires 0.0 <= a < b
    ensures a * a < b * b
  {
    var d := b - a;
    assert b * b == a * a + d * (a + b);
    assert d * (a + b) > 0.0;
  }

  /** Equal factors give equal products. The verifier does not always carry an
      equality of factors over to their products. */
  lemma SameProduct(a: real, b: real, c: real)
    requires b == c
    ensures a * b == a * c
  {
  }

  /** A product of non-negative factors is non-negative. */
  lemma NonNegativeProduct(a: real, b: real)
    requires 0.0 <= a && 0.0 <= b
    ensures 0.0 <= a * b
  {
  }

  /** Two successive corrections along one direction add up. */
  lemma AddScaled2(v: Vec2, d: Vec2, a: real, b: real)
    ensures Add2(Add2(v, Scale2(d, a)), Scale2(d, b)) == Add2(v, Scale2(d, a + b))
  {
    assert d.x * a + d.x * b == d.x * (a + b);
    assert d.y * a + d.y * b == d.y * (a + b);
  }

  function Dot3(a: Vec3, b: Vec3): real {
    a.x * b.x + a.y * b.y + a.z * b.z
  }

  function Add3(a: Vec3, b: Vec3): Vec3 {
    Vec3(a.x + b.x, a.y + b.y, a.z + b.z)
  }

  function Scale3(a: Vec3, k: real): Vec3 {
    Vec3(a.x * k, a.y * k, a.z * k)
  }

  function NormSq3(a: Vec3): (n: real)
    ensures n >= 0.0
  {
    Dot3(a, a)
  }

  /** A product with a zero factor is zero. The verifier does not always see
      this when the factor is zero only through a datatype field. */
  lemma ZeroFactor(a: real, k: real)
    requires k == 0.0
    ensures a * k == 0.0 && k * a == 0.0
  {
  }

  /** Scaling by a zero factor gives the zero vector. */
  lemma ScaleByZero3(v: Vec3, k: real)
    requires k == 0.0
    ensures Scale3(v, k) == Vec3(0.0, 0.0, 0.0)
  {
  }

  /** Scaling by a product with a zero factor gives the zero vector. */
  lemma ScaleByZeroProduct3(v: Vec3, c: real, k: real)
    requires k == 0.0
    ensures Scale3(v, c * k) == Vec3(0.0, 0.0, 0.0)
  {
  }

  /** Scaling a vector of the plane `z = 0` stays in that plane. */
  lemma ScalePlanar3(x: real, y: real, k: real)
    ensures Scale3(Vec3(x, y, 0.0), k) == Vec3(x * k, y * k, 0.0)
  {
  }

  /** Scaling a vector along the `z` axis stays on that axis. */
  lemma ScaleAxial3(z: real, k: real)
    ensures Scale3(Vec3(0.0, 0.0, z), k) == Vec3(0.0, 0.0, z * k)
  {
  }

  /** The cross product `a.cross(b)`. */
  function Cross(a: Vec3, b: Vec3): Vec3 {
    Vec3(a.y * b.z - a.z * b.y, a.z * b.x - a.x * b.z, a.x * b.y - a.y * b.x)
  }

  /** The cross product is orthogonal to both its factors. */
  lemma CrossOrthogonal(a: Vec3, b: Vec3)
    ensures Dot3(Cross(a, b), a) == 0.0 && Dot3(Cross(a, b), b) == 0.0
  {
  }

  /** Lagrange's identity: the squared length of `a x b` is the product of
      the squared lengths less the squared dot product. */
  lemma CrossNormSq(a: Vec3, b: Vec3)
    ensures NormSq3(Cross(a, b)) == NormSq3(a) * NormSq3(b) - Dot3(a, b) * Dot3(a, b)
  {
  }

  /** The 2D `orthonormal_vector` of a direction: its quarter-turn rotation,
      orthogonal to it and of the same length. */
  function Perp(v: Vec2): (p: Vec2)
    ensures Dot2(p, v) == 0.0
    ensures NormSq2(p) == NormSq2(v)
  {
    Vec2(-v.y, v.x)
  }

  function Abs(a: real): (m: real)
    ensures m >= 0.0 && (m == a || m == -a)
  {
    if a >= 0.0 then a else -a
  }

  /** `a.simd_max(b)` on one lane. */
  function Max(a: real, b: real): (m: real)
    ensures m >= a && m >= b
    ensures m == a || m == b
  {
    if a >= b then a else b
  }

  /** `x.simd_clamp(lo, hi)` on one lane: the lower bound is checked first. */
  function Clamp(x: real, lo: real, hi: real): (c: real)
    ensures lo <= hi ==> lo <= c <= hi
    ensures lo <= x <= hi ==> c == x
    ensures x < lo ==> c == lo
    ensures lo <= hi && hi < x ==> c == hi
  {
    if x < lo then lo else if x > hi then hi else x
  }

  /** `sqrt` is a square root on the non-negative reals. The norm used by
      the 3D friction cap needs one; the model receives it as a parameter. */
  ghost predicate IsSqrt(sqrt: real -> real) {
    forall x :: 0.0 <= x ==> RootOf(sqrt, x)
  }

  /** `sqrt(x)` is the non-negative square root of `x`. Proofs name this
      fact where they need it, so the square of a root only enters a proof
      that asks for it. */
  ghost predicate RootOf(sqrt: real -> real, x: real) {
    0.0 <= sqrt(x) && sqrt(x) * sqrt(x) == x
  }
}
