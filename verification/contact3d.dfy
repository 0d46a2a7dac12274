/**
 The contact kernel between one dynamic body and the ground, in the 3D
 configuration: linear and angular quantities are 3-vectors, and friction
 acts along two tangent axes whose combined impulse is capped to a disk.
 */
module Contact3D {
  import opened Math
  import opened Sweep

  /** The body's velocity correction: linear and angular 3-vectors. */
  datatype DeltaVel3 = DeltaVel3(linear: Vec3, angular: Vec3)

  /** A per-tangent-axis pair, the source's `[T; DIM - 1]` with `DIM = 3`. */
  datatype Axes<T> = Axes(first: T, second: T)

  /** The non-penetration row of one contact point; `gcross2` is an angular
      vector. `rhsWoBias` is carried but never read by this kernel. */
  datatype NormalPart3 = NormalPart3(gcross2: Vec3, rhs: real, rhsWoBias: real, impulse: real, r: real)

  /** The friction rows of one contact point: two tangent axes sharing one
      2-vector impulse. */
  datatype TangentPart3 = TangentPart3(gcross2: Axes<Vec3>, rhs: Axes<real>, impulse: Vec2, r: Axes<real>)

  datatype Element3 = Element3(normalPart: NormalPart3, tangentPart: TangentPart3)

  /** The biased relative velocity along a row: `-dir · linear + gcross2 · angular + rhs`. */
  function RowVelocity3(dir: Vec3, gcross2: Vec3, rhs: real, vel: DeltaVel3): real {
    -Dot3(dir, vel.linear) + Dot3(gcross2, vel.angular) + rhs
  }

  function NormalCandidate3(p: NormalPart3, dir1: Vec3, vel: DeltaVel3): real {
    p.impulse - p.r * RowVelocity3(dir1, p.gcross2, p.rhs, vel)
  }

  /** The per-axis unprojected friction impulses, as one 2-vector. */
  function TangentCandidate3(p: TangentPart3, tangents: Axes<Vec3>, vel: DeltaVel3): Vec2 {
    Vec2(p.impulse.x - p.r.first * RowVelocity3(tangents.first, p.gcross2.first, p.rhs.first, vel),
         p.impulse.y - p.r.second * RowVelocity3(tangents.second, p.gcross2.second, p.rhs.second, vel))
  }

  function ZeroNormalPart3(): (p: NormalPart3)
    ensures p.gcross2 == Vec3(0.0, 0.0, 0.0)
    ensures p.rhs == 0.0 && p.rhsWoBias == 0.0 && p.impulse == 0.0 && p.r == 0.0
  {
    NormalPart3(Vec3(0.0, 0.0, 0.0), 0.0, 0.0, 0.0, 0.0)
  }

  function ZeroTangentPart3(): (p: TangentPart3)
    ensures p.gcross2 == Axes(Vec3(0.0, 0.0, 0.0), Vec3(0.0, 0.0, 0.0))
    ensures p.rhs == Axes(0.0, 0.0) && p.r == Axes(0.0, 0.0)
    ensures p.impulse == Vec2(0.0, 0.0)
  {
    var z := Vec3(0.0, 0.0, 0.0);
    TangentPart3(Axes(z, z), Axes(0.0, 0.0), Vec2(0.0, 0.0), Axes(0.0, 0.0))
  }

  function ZeroElement3(): (e: Element3)
    ensures e.normalPart == ZeroNormalPart3() && e.tangentPart == ZeroTangentPart3()
  {
    Element3(ZeroNormalPart3(), ZeroTangentPart3())
  }

  /** `simd_cap_magnitude`: the Euclidean norm is taken with the square root
      `sqrt`; a vector longer than `limit` is rescaled by `limit / norm`, any
      other is returned as it is. A zero vector is never rescaled (see the
      README for the negative-limit case the source turns into NaN). What the
      result satisfies is stated by `CapBounds`. */
  function CapMagnitude(v: Vec2, limit: real, sqrt: real -> real): Vec2 {
    var n := sqrt(NormSq2(v));
    if n > limit && n != 0.0 then Scale2(v, limit / n) else v
  }

  /** The cap lands in the disk of radius `limit`, keeps a vector already
      inside it, and puts any other on its rim. */
  lemma CapBounds(v: Vec2, limit: real, sqrt: real -> real)
    requires IsSqrt(sqrt)
    ensures limit >= 0.0 ==> NormSq2(CapMagnitude(v, limit, sqrt)) <= limit * limit
    ensures 0.0 <= limit && NormSq2(v) <= limit * limit ==> CapMagnitude(v, limit, sqrt) == v
    ensures 0.0 <= limit && limit * limit < NormSq2(v) ==> NormSq2(CapMagnitude(v, limit, sqrt)) == limit * limit
  {
    assert RootOf(sqrt, NormSq2(v));
    CapFacts(v, sqrt(NormSq2(v)), limit);
  }

  /** What the norm `n` of `v` tells about the capped vector. */
  lemma CapFacts(v: Vec2, n: real, limit: real)
    requires 0.0 <= n && n * n == NormSq2(v)
    ensures n > limit && n != 0.0 ==> NormSq2(Scale2(v, limit / n)) == limit * limit
    ensures 0.0 <= limit && !(n > limit && n != 0.0) ==> NormSq2(v) <= limit * limit
    ensures 0.0 <= limit && NormSq2(v) <= limit * limit ==> !(n > limit)
    ensures 0.0 <= limit && limit * limit < NormSq2(v) ==> n > limit && n != 0.0
  {
    if n > limit && n != 0.0 {
      var k := limit / n;
      NormSqScale2(v, k);
      assert k * n == limit;
      assert k * k * (n * n) == (k * n) * (k * n);
    }
    if 0.0 <= limit && n <= limit {
      if n < limit {
        SquareMonotone(n, limit);
      }
    }
    if 0.0 <= limit && limit < n {
      SquareMonotone(limit, n);
    }
  }

  /** The 3D `NormalPart::solve`: the same projected step as in 2D, with an
      angular-vector Jacobian. */
  function SolveNormal3(p: NormalPart3, dir1: Vec3, im2: real, vel: DeltaVel3): (s: Step<NormalPart3, DeltaVel3>)
    ensures s.value.impulse >= 0.0
    ensures NormalCandidate3(p, dir1, vel) >= 0.0 ==> s.value.impulse == NormalCandidate3(p, dir1, vel)
    ensures NormalCandidate3(p, dir1, vel) < 0.0 ==> s.value.impulse == 0.0
    ensures s.value == p.(impulse := s.value.impulse)
    ensures s.vel.linear == Add3(vel.linear, Scale3(dir1, -im2 * (s.value.impulse - p.impulse)))
    ensures s.vel.angular == Add3(vel.angular, Scale3(p.gcross2, s.value.impulse - p.impulse))
  {
    var newImpulse := Max(NormalCandidate3(p, dir1, vel), 0.0);
    var dlambda := newImpulse - p.impulse;
    Step(p.(impulse := newImpulse),
         DeltaVel3(Add3(vel.linear, Scale3(dir1, -im2 * dlambda)), Add3(vel.angular, Scale3(p.gcross2, dlambda))))
  }

  /** The velocity after an impulse change `d` on the two tangent axes: the
      corrections of both axes, summed. */
  function ApplyTangentImpulse3(vel: DeltaVel3, tangents: Axes<Vec3>, gcross2: Axes<Vec3>, im2: real, d: Vec2): DeltaVel3 {
    DeltaVel3(Add3(vel.linear, Add3(Scale3(tangents.first, -im2 * d.x), Scale3(tangents.second, -im2 * d.y))),
              Add3(vel.angular, Add3(Scale3(gcross2.first, d.x), Scale3(gcross2.second, d.y))))
  }

  /** The 3D `TangentPart::solve`: both axes' unprojected steps form one
      2-vector, capped to the disk of radius `limit`; the corrections of the
      two axes are summed into the velocity. */
  function SolveTangent3(p: TangentPart3, tangents: Axes<Vec3>, im2: real, limit: real, vel: DeltaVel3,
                         sqrt: real -> real): (s: Step<TangentPart3, DeltaVel3>)
    ensures s.value == p.(impulse := s.value.impulse)
    ensures s.vel == ApplyTangentImpulse3(vel, tangents, p.gcross2, im2, Sub2(s.value.impulse, p.impulse))
  {
    var newImpulse := CapMagnitude(TangentCandidate3(p, tangents, vel), limit, sqrt);
    Step(p.(impulse := newImpulse), ApplyTangentImpulse3(vel, tangents, p.gcross2, im2, Sub2(newImpulse, p.impulse)))
  }

  function NormalUpdate3(e: Element3, dir1: Vec3, im2: real, vel: DeltaVel3): (u: Step<Element3, DeltaVel3>)
    ensures NormalImpulseOnly3(e, u.value)
    ensures u.value.normalPart.impulse == Max(NormalCandidate3(e.normalPart, dir1, vel), 0.0)
    ensures u.vel.linear == Add3(vel.linear, Scale3(dir1, -im2 * (u.value.normalPart.impulse - e.normalPart.impulse)))
    ensures u.vel.angular == Add3(vel.angular, Scale3(e.normalPart.gcross2, u.value.normalPart.impulse - e.normalPart.impulse))
  {
    var s := SolveNormal3(e.normalPart, dir1, im2, vel);
    Step(e.(normalPart := s.value), s.vel)
  }

  predicate NormalImpulseOnly3(a: Element3, b: Element3) {
    b == a.(normalPart := a.normalPart.(impulse := b.normalPart.impulse))
  }

  predicate TangentImpulseOnly3(a: Element3, b: Element3) {
    b == a.(tangentPart := a.tangentPart.(impulse := b.tangentPart.impulse))
  }

  predicate ImpulsesOnly3(a: Element3, b: Element3) {
    b == Element3(a.normalPart.(impulse := b.normalPart.impulse), a.tangentPart.(impulse := b.tangentPart.impulse))
  }

  /** The friction update of one element: the disk radius is the coefficient
      times the element's current normal impulse. */
  function FrictionUpdate3(e: Element3, tangents: Axes<Vec3>, im2: real, limit: real, vel: DeltaVel3,
                           sqrt: real -> real): (u: Step<Element3, DeltaVel3>)
    ensures TangentImpulseOnly3(e, u.value)
    ensures u.value.tangentPart.impulse
            == CapMagnitude(TangentCandidate3(e.tangentPart, tangents, vel), limit * e.normalPart.impulse, sqrt)
    ensures u.vel == ApplyTangentImpulse3(vel, tangents, e.tangentPart.gcross2, im2,
                                          Sub2(u.value.tangentPart.impulse, e.tangentPart.impulse))
  {
    var s := SolveTangent3(e.tangentPart, tangents, im2, limit * e.normalPart.impulse, vel, sqrt);
    Step(e.(tangentPart := s.value), s.vel)
  }

  function NormalStep3(dir1: Vec3, im2: real): (Element3, DeltaVel3) -> Step<Element3, DeltaVel3> {
    (e: Element3, v: DeltaVel3) => NormalUpdate3(e, dir1, im2, v)
  }

  function FrictionStep3(tangents: Axes<Vec3>, im2: real, limit: real, sqrt: real -> real)
    : (Element3, DeltaVel3) -> Step<Element3, DeltaVel3>
  {
    (e: Element3, v: DeltaVel3) => FrictionUpdate3(e, tangents, im2, limit, v, sqrt)
  }

  /** The friction disk of radius `coefficient * normalImpulse`, for a
      non-negative radius, in squared norms. */
  predicate InDisk(coefficient: real, normalImpulse: real, tangentImpulse: Vec2) {
    coefficient * normalImpulse >= 0.0 ==>
      NormSq2(tangentImpulse) <= (coefficient * normalImpulse) * (coefficient * normalImpulse)
  }

  /** The penetration loop of the 3D `solve_group`. */
  function NormalPass3(es: seq<Element3>, dir1: Vec3, im2: real, vel: DeltaVel3): (g: Swept<Element3, DeltaVel3>)
    ensures |g.elements| == |es|
    ensures forall i :: 0 <= i < |es| ==> g.elements[i].normalPart.impulse >= 0.0
    ensures forall i :: 0 <= i < |es| ==> NormalImpulseOnly3(es[i], g.elements[i])
  {
    var g := Run(es, vel, NormalStep3(dir1, im2));
    assert forall i :: 0 <= i < |es| ==>
      g.elements[i] == NormalUpdate3(es[i], dir1, im2, Run(es[..i], vel, NormalStep3(dir1, im2)).vel).value by {
      forall i | 0 <= i < |es| {
        RunInOrder(es, vel, NormalStep3(dir1, im2), i);
      }
    }
    g
  }

  /** The friction loop of the 3D `solve_group`. */
  function FrictionPass3(es: seq<Element3>, tangents: Axes<Vec3>, im2: real, limit: real, vel: DeltaVel3,
                         sqrt: real -> real): (g: Swept<Element3, DeltaVel3>)
    ensures |g.elements| == |es|
    ensures forall i :: 0 <= i < |es| ==> TangentImpulseOnly3(es[i], g.elements[i])
  {
    var g := Run(es, vel, FrictionStep3(tangents, im2, limit, sqrt));
    assert forall i :: 0 <= i < |es| ==>
      g.elements[i] == FrictionUpdate3(es[i], tangents, im2, limit,
                                       Run(es[..i], vel, FrictionStep3(tangents, im2, limit, sqrt)).vel, sqrt).value by {
      forall i | 0 <= i < |es| {
        RunInOrder(es, vel, FrictionStep3(tangents, im2, limit, sqrt), i);
      }
    }
    g
  }

  /** The 3D `solve_group`: the tangent basis is `tangent1` and
      `dir1 × tangent1`. */
  function SolveGroup3(es: seq<Element3>, dir1: Vec3, tangent1: Vec3, im2: real, limit: real, vel: DeltaVel3,
                       solveNormal: bool, solveFriction: bool, sqrt: real -> real): (g: Swept<Element3, DeltaVel3>)
    ensures |g.elements| == |es|
    ensures !solveNormal && !solveFriction ==> g == Swept(es, vel)
    ensures forall i :: 0 <= i < |es| ==> ImpulsesOnly3(es[i], g.elements[i])
    ensures !solveNormal ==> forall i :: 0 <= i < |es| ==> g.elements[i].normalPart == es[i].normalPart
    ensures solveNormal ==> forall i :: 0 <= i < |es| ==> g.elements[i].normalPart.impulse >= 0.0
    ensures !solveFriction ==> forall i :: 0 <= i < |es| ==> g.elements[i].tangentPart == es[i].tangentPart
  {
    var tangents := Axes(tangent1, Cross(dir1, tangent1));
    if solveNormal && solveFriction then
      var n := NormalPass3(es, dir1, im2, vel);
      FrictionPass3(n.elements, tangents, im2, limit, n.vel, sqrt)
    else if solveNormal then
      NormalPass3(es, dir1, im2, vel)
    else if solveFriction then
      FrictionPass3(es, tangents, im2, limit, vel, sqrt)
    else
      Swept(es, vel)
  }
}
