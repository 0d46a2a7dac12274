/**
 The 2D kernel as the planar restriction of the 3D one: a 2D body is a 3D
 body whose linear motion stays in the plane `z = 0` and whose rotation is
 about the `z` axis.
 */
module Planar {
  import opened Math
  import opened Sweep
  import opened Contact2D
  import opened Contact2DLemmas
  import opened Contact3D
  import opened Contact3DLemmas

  /** A 2D velocity correction as a 3D one. */
  function Embed(vel: DeltaVel): DeltaVel3 {
    DeltaVel3(Vec3(vel.linear.x, vel.linear.y, 0.0), Vec3(0.0, 0.0, vel.angular))
  }

  /** A 2D direction as a 3D one in the plane. */
  function EmbedDir(dir: Vec2): Vec3 {
    Vec3(dir.x, dir.y, 0.0)
  }

  /** A 2D normal row as a 3D one whose angular Jacobian is along `z`. */
  function EmbedNormalPart(p: NormalPart): NormalPart3 {
    NormalPart3(Vec3(0.0, 0.0, p.gcross2), p.rhs, p.rhsWoBias, p.impulse, p.r)
  }

  /** Row velocities agree on embedded data. */
  lemma EmbeddedRowVelocity(dir: Vec2, gcross2: real, rhs: real, vel: DeltaVel)
    ensures RowVelocity3(EmbedDir(dir), Vec3(0.0, 0.0, gcross2), rhs, Embed(vel)) == RowVelocity(dir, gcross2, rhs, vel)
  {
    ZeroFactor(vel.linear.x, 0.0);
    ZeroFactor(vel.angular, 0.0);
  }

  /** Dimension equivalence of the normal step: the 3D step on embedded data
      is the embedding of the 2D step, impulse and velocity alike. */
  lemma NormalStep3ReducesTo2D(p: NormalPart, dir1: Vec2, im2: real, vel: DeltaVel)
    ensures var s2 := SolveNormal(p, dir1, im2, vel);
            SolveNormal3(EmbedNormalPart(p), EmbedDir(dir1), im2, Embed(vel))
            == Step(EmbedNormalPart(s2.value), Embed(s2.vel))
  {
    var dir3 := EmbedDir(dir1);
    var p3 := EmbedNormalPart(p);
    var s2 := SolveNormal(p, dir1, im2, vel);
    var s3 := SolveNormal3(p3, dir3, im2, Embed(vel));
    EmbeddedRowVelocity(dir1, p.gcross2, p.rhs, vel);
    assert NormalCandidate3(p3, dir3, Embed(vel)) == NormalCandidate(p, dir1, vel);
    assert s3.value.impulse == s2.value.impulse;
    var d := s2.value.impulse - p.impulse;
    ScalePlanar3(dir1.x, dir1.y, -im2 * d);
    ScaleAxial3(p.gcross2, d);
    assert s3.vel == Embed(s2.vel);
  }

  /** A 2D friction row as the first axis of a 3D friction part whose second
      axis (Jacobian `gcross2Second`, bias `rhsSecond`) is inert: zero
      compliance and no accumulated impulse. */
  function EmbedTangentPart(p: TangentPart, gcross2Second: Vec3, rhsSecond: real): TangentPart3 {
    TangentPart3(Axes(Vec3(0.0, 0.0, p.gcross2), gcross2Second), Axes(p.rhs, rhsSecond),
                 Vec2(p.impulse, 0.0), Axes(p.r, 0.0))
  }

  /** The per-axis friction candidates on embedded data: the 2D candidate on
      the first axis, zero on the inert second. */
  lemma EmbeddedTangentCandidate(p: TangentPart, tangent: Vec2, second: Vec3, gcross2Second: Vec3, rhsSecond: real,
                                 vel: DeltaVel)
    ensures TangentCandidate3(EmbedTangentPart(p, gcross2Second, rhsSecond), Axes(EmbedDir(tangent), second), Embed(vel))
         == Vec2(TangentCandidate(p, tangent, vel), 0.0)
  {
    EmbeddedRowVelocity(tangent, p.gcross2, p.rhs, vel);
    ZeroFactor(RowVelocity3(second, gcross2Second, rhsSecond, Embed(vel)), 0.0);
  }

  /** An impulse change on the first tangent axis only moves an embedded
      velocity as the 2D change does. */
  lemma EmbeddedTangentImpulse(vel: DeltaVel, tangent: Vec2, second: Vec3, gcross2: real, gcross2Second: Vec3,
                               im2: real, d: real)
    ensures ApplyTangentImpulse3(Embed(vel), Axes(EmbedDir(tangent), second), Axes(Vec3(0.0, 0.0, gcross2), gcross2Second),
                                 im2, Vec2(d, 0.0))
         == Embed(ApplyImpulse(vel, tangent, gcross2, im2, d))
  {
    ScalePlanar3(tangent.x, tangent.y, -im2 * d);
    ScaleAxial3(gcross2, d);
    ScaleByZeroProduct3(second, -im2, 0.0);
    ScaleByZero3(gcross2Second, 0.0);
  }

  /** Dimension equivalence of the friction step: with a non-negative limit
      the 3D disk step on embedded data, whatever the second tangent axis, is
      the embedding of the 2D box step, impulse and velocity alike. */
  lemma TangentStep3ReducesTo2D(p: TangentPart, tangent: Vec2, second: Vec3, gcross2Second: Vec3, rhsSecond: real,
                                im2: real, limit: real, vel: DeltaVel, sqrt: real -> real)
    requires IsSqrt(sqrt) && 0.0 <= limit
    ensures var s2 := SolveTangent(p, tangent, im2, limit, vel);
            SolveTangent3(EmbedTangentPart(p, gcross2Second, rhsSecond), Axes(EmbedDir(tangent), second), im2, limit,
                          Embed(vel), sqrt)
            == Step(EmbedTangentPart(s2.value, gcross2Second, rhsSecond), Embed(s2.vel))
  {
    var tangents := Axes(EmbedDir(tangent), second);
    var p3 := EmbedTangentPart(p, gcross2Second, rhsSecond);
    var s2 := SolveTangent(p, tangent, im2, limit, vel);
    var c := TangentCandidate(p, tangent, vel);
    EmbeddedTangentCandidate(p, tangent, second, gcross2Second, rhsSecond, vel);
    CapReducesToClamp(c, limit, sqrt);
    var n := s2.value.impulse;
    assert CapMagnitude(TangentCandidate3(p3, tangents, Embed(vel)), limit, sqrt) == Vec2(n, 0.0);
    assert Sub2(Vec2(n, 0.0), p3.impulse) == Vec2(n - p.impulse, 0.0);
    EmbeddedTangentImpulse(vel, tangent, second, p.gcross2, gcross2Second, im2, n - p.impulse);
    assert s2.vel == ApplyImpulse(vel, tangent, p.gcross2, im2, n - p.impulse);
    assert p3.(impulse := Vec2(n, 0.0)) == EmbedTangentPart(s2.value, gcross2Second, rhsSecond);
  }

  /** A 2D contact point as a 3D one, with the given inert second friction
      axis. */
  function EmbedElement(e: Element, gcross2Second: Vec3, rhsSecond: real): Element3 {
    Element3(EmbedNormalPart(e.normalPart), EmbedTangentPart(e.tangentPart, gcross2Second, rhsSecond))
  }

  function EmbedElements(es: seq<Element>, gcross2Second: Vec3, rhsSecond: real): seq<Element3> {
    Map(es, (e: Element) => EmbedElement(e, gcross2Second, rhsSecond))
  }

  /** The 3D penetration pass on embedded data is the embedding of the 2D
      one. */
  lemma NormalPass3ReducesTo2D(es: seq<Element>, dir1: Vec2, im2: real, vel: DeltaVel,
                               gcross2Second: Vec3, rhsSecond: real)
    ensures var n := NormalPass(es, dir1, im2, vel);
            NormalPass3(EmbedElements(es, gcross2Second, rhsSecond), EmbedDir(dir1), im2, Embed(vel))
            == Swept(EmbedElements(n.elements, gcross2Second, rhsSecond), Embed(n.vel))
  {
    var f := (e: Element) => EmbedElement(e, gcross2Second, rhsSecond);
    forall e: Element, v: DeltaVel
      ensures NormalStep3(EmbedDir(dir1), im2)(f(e), Embed(v))
              == Step(f(NormalStep(dir1, im2)(e, v).value), Embed(NormalStep(dir1, im2)(e, v).vel))
    {
      NormalStep3ReducesTo2D(e.normalPart, dir1, im2, v);
    }
    RunCommutes(es, vel, NormalStep(dir1, im2), NormalStep3(EmbedDir(dir1), im2), f, Embed, (e: Element) => true);
  }

  /** The 3D friction pass on embedded data is the embedding of the 2D one,
      for a non-negative coefficient and non-negative normal impulses. */
  lemma {:induction false} FrictionPass3ReducesTo2D(es: seq<Element>, tangent: Vec2, second: Vec3, im2: real, limit: real, vel: DeltaVel,
                                 gcross2Second: Vec3, rhsSecond: real, sqrt: real -> real)
    requires IsSqrt(sqrt) && 0.0 <= limit
    requires forall i :: 0 <= i < |es| ==> es[i].normalPart.impulse >= 0.0
    ensures var g := FrictionPass(es, tangent, im2, limit, vel);
            FrictionPass3(EmbedElements(es, gcross2Second, rhsSecond), Axes(EmbedDir(tangent), second), im2, limit,
                          Embed(vel), sqrt)
            == Swept(EmbedElements(g.elements, gcross2Second, rhsSecond), Embed(g.vel))
  {
    var f := (e: Element) => EmbedElement(e, gcross2Second, rhsSecond);
    var ok := (e: Element) => e.normalPart.impulse >= 0.0;
    var tangents := Axes(EmbedDir(tangent), second);
    forall e: Element, v: DeltaVel | ok(e)
      ensures FrictionStep3(tangents, im2, limit, sqrt)(f(e), Embed(v))
              == Step(f(FrictionStep(tangent, im2, limit)(e, v).value), Embed(FrictionStep(tangent, im2, limit)(e, v).vel))
    {
      NonNegativeProduct(limit, e.normalPart.impulse);
      FrictionUpdate3ReducesTo2D(e, tangent, second, im2, limit, v, gcross2Second, rhsSecond, sqrt);
    }
    RunCommutes(es, vel, FrictionStep(tangent, im2, limit), FrictionStep3(tangents, im2, limit, sqrt), f, Embed, ok);
  }

  /** One friction update on an embedded element, with a non-negative disk
      radius, is the embedding of the 2D update. */
  lemma FrictionUpdate3ReducesTo2D(e: Element, tangent: Vec2, second: Vec3, im2: real, limit: real, v: DeltaVel,
                                   gcross2Second: Vec3, rhsSecond: real, sqrt: real -> real)
    requires IsSqrt(sqrt) && 0.0 <= limit * e.normalPart.impulse
    ensures var u := FrictionUpdate(e, tangent, im2, limit, v);
            FrictionUpdate3(EmbedElement(e, gcross2Second, rhsSecond), Axes(EmbedDir(tangent), second), im2, limit,
                            Embed(v), sqrt)
            == Step(EmbedElement(u.value, gcross2Second, rhsSecond), Embed(u.vel))
  {
    var radius := limit * e.normalPart.impulse;
    var e3 := EmbedElement(e, gcross2Second, rhsSecond);
    var tangents := Axes(EmbedDir(tangent), second);
    SameProduct(limit, e3.normalPart.impulse, e.normalPart.impulse);
    var u2 := FrictionUpdate(e, tangent, im2, limit, v);
    var c := TangentCandidate(e.tangentPart, tangent, v);
    EmbeddedTangentCandidate(e.tangentPart, tangent, second, gcross2Second, rhsSecond, v);
    CapReducesToClamp(c, radius, sqrt);
    var n := u2.value.tangentPart.impulse;
    assert n == Clamp(c, -radius, radius);
    FrictionUpdate3Given(e3, tangents, im2, limit, Embed(v), sqrt, Vec2(c, 0.0), radius);
    assert u2.value == e.(tangentPart := e.tangentPart.(impulse := n));
    EmbeddedTangentImpulse(v, tangent, second, e.tangentPart.gcross2, gcross2Second, im2, n - e.tangentPart.impulse);
    assert Sub2(Vec2(n, 0.0), e3.tangentPart.impulse) == Vec2(n - e.tangentPart.impulse, 0.0);
    var vel3 := ApplyTangentImpulse3(Embed(v), tangents, e3.tangentPart.gcross2, im2, Vec2(n - e.tangentPart.impulse, 0.0));
    assert vel3 == Embed(u2.vel);
    assert e3.(tangentPart := e3.tangentPart.(impulse := Vec2(n, 0.0))) == EmbedElement(u2.value, gcross2Second, rhsSecond);
  }

  /** Dimension equivalence of `solve_group`: on a group whose motion stays
      in the plane, with the seed tangent the embedded orthonormal vector of
      the normal, the 3D kernel computes exactly what the 2D kernel does, for
      every combination of the pass flags, whatever the third axis the cross
      product yields. A friction pass without a normal pass is compared on
      non-negative normal impulses, where both cones have the same radius. */
  lemma SolveGroup3ReducesTo2D(es: seq<Element>, dir1: Vec2, im2: real, limit: real, vel: DeltaVel,
                               solveNormal: bool, solveFriction: bool,
                               gcross2Second: Vec3, rhsSecond: real, sqrt: real -> real)
    requires IsSqrt(sqrt) && 0.0 <= limit
    requires solveFriction && !solveNormal ==> forall i :: 0 <= i < |es| ==> es[i].normalPart.impulse >= 0.0
    ensures var g := SolveGroup(es, dir1, im2, limit, vel, solveNormal, solveFriction);
            SolveGroup3(EmbedElements(es, gcross2Second, rhsSecond), EmbedDir(dir1), EmbedDir(Perp(dir1)), im2, limit,
                        Embed(vel), solveNormal, solveFriction, sqrt)
            == Swept(EmbedElements(g.elements, gcross2Second, rhsSecond), Embed(g.vel))
  {
    var second := Cross(EmbedDir(dir1), EmbedDir(Perp(dir1)));
    var n := NormalPass(es, dir1, im2, vel);
    NormalPass3ReducesTo2D(es, dir1, im2, vel, gcross2Second, rhsSecond);
    if solveNormal && solveFriction {
      FrictionPass3ReducesTo2D(n.elements, Perp(dir1), second, im2, limit, n.vel, gcross2Second, rhsSecond, sqrt);
    } else if solveFriction {
      FrictionPass3ReducesTo2D(es, Perp(dir1), second, im2, limit, vel, gcross2Second, rhsSecond, sqrt);
    }
  }
}
