/**
 Properties of the 3D ground-contact kernel: the disk cap against the 2D box
 clamp, the cap as a shrinking of the candidate, and the group sweep.
 */
module Contact3DLemmas {
  import opened Math
  import opened Sweep
  import opened Contact3D

  /** A non-negative number whose square is `x * x` is `|x|`. */
  lemma RootOfSquare(n: real, x: real)
    requires 0.0 <= n && n * n == x * x
    ensures n == Abs(x)
  {
    var a := Abs(x);
    assert a * a == x * x;
    if n < a {
      SquareMonotone(n, a);
    } else if a < n {
      SquareMonotone(a, n);
    }
  }

  /** The norm of a vector along the first axis is the absolute value of
      its first component. */
  lemma NormOnAxis(x: real, sqrt: real -> real)
    requires IsSqrt(sqrt)
    ensures sqrt(NormSq2(Vec2(x, 0.0))) == Abs(x)
  {
    assert NormSq2(Vec2(x, 0.0)) == x * x;
    assert RootOf(sqrt, NormSq2(Vec2(x, 0.0)));
    RootOfSquare(sqrt(NormSq2(Vec2(x, 0.0))), x);
  }

  /** Rescaling `x` by `limit / |x|` lands on the bound `x` lies beyond. */
  lemma RescaledOnAxis(x: real, limit: real)
    requires 0.0 <= limit < Abs(x)
    ensures x * (limit / Abs(x)) == Clamp(x, -limit, limit)
  {
    var a := Abs(x);
    var k := limit / a;
    assert a * k == limit;
    if x < 0.0 {
      assert x * k == -(a * k);
    }
  }

  /** Dimension equivalence: on a vector with no second component the disk
      cap is the 2D box clamp of the first component. */
  lemma CapReducesToClamp(x: real, limit: real, sqrt: real -> real)
    requires IsSqrt(sqrt) && 0.0 <= limit
    ensures CapMagnitude(Vec2(x, 0.0), limit, sqrt) == Vec2(Clamp(x, -limit, limit), 0.0)
  {
    NormOnAxis(x, sqrt);
    if Abs(x) > limit {
      RescaledOnAxis(x, limit);
      assert 0.0 * (limit / Abs(x)) == 0.0;
    }
  }

  /** A rewriting step for the verifier, adding nothing to the contract of
      `FrictionUpdate3`: the same update written out once its candidate `a`
      and its disk radius are known. Callers that must compare a whole update
      with another term use it so that they need not unfold the cap's
      division in their own context. */
  lemma FrictionUpdate3Given(e: Element3, tangents: Axes<Vec3>, im2: real, limit: real, vel: DeltaVel3,
                             sqrt: real -> real, a: Vec2, radius: real)
    requires TangentCandidate3(e.tangentPart, tangents, vel) == a && limit * e.normalPart.impulse == radius
    ensures var u := FrictionUpdate3(e, tangents, im2, limit, vel, sqrt);
            var m := CapMagnitude(a, radius, sqrt);
            u == Step(e.(tangentPart := e.tangentPart.(impulse := m)),
                      ApplyTangentImpulse3(vel, tangents, e.tangentPart.gcross2, im2, Sub2(m, e.tangentPart.impulse)))
  {
  }

  /** The 3D friction step leaves the impulse inside the disk of radius
      `limit`, keeps a candidate already inside it, and puts any other on
      its rim. */
  lemma TangentStep3Disk(p: TangentPart3, tangents: Axes<Vec3>, im2: real, limit: real, vel: DeltaVel3,
                         sqrt: real -> real)
    requires IsSqrt(sqrt) && 0.0 <= limit
    ensures var c := TangentCandidate3(p, tangents, vel);
            var s := SolveTangent3(p, tangents, im2, limit, vel, sqrt);
            && NormSq2(s.value.impulse) <= limit * limit
            && (NormSq2(c) <= limit * limit ==> s.value.impulse == c)
            && (limit * limit < NormSq2(c) ==> NormSq2(s.value.impulse) == limit * limit)
  {
    CapBounds(TangentCandidate3(p, tangents, vel), limit, sqrt);
  }

  /** Element `i` of the 3D friction pass is the capped step of its own
      tangent part, against the velocity the sweep of `es[..i]` left. */
  lemma FrictionPass3At(es: seq<Element3>, tangents: Axes<Vec3>, im2: real, limit: real, vel: DeltaVel3,
                        sqrt: real -> real, i: int)
    requires 0 <= i < |es|
    ensures FrictionPass3(es, tangents, im2, limit, vel, sqrt).elements[i].tangentPart
         == SolveTangent3(es[i].tangentPart, tangents, im2, limit * es[i].normalPart.impulse,
                          FrictionPass3(es[..i], tangents, im2, limit, vel, sqrt).vel, sqrt).value
  {
    var step := FrictionStep3(tangents, im2, limit, sqrt);
    RunInOrder(es, vel, step, i);
    var m := Run(es[..i], vel, step).vel;
    assert FrictionPass3(es[..i], tangents, im2, limit, vel, sqrt).vel == m;
    assert FrictionPass3(es, tangents, im2, limit, vel, sqrt).elements[i] == step(es[i], m).value;
    assert step(es[i], m) == FrictionUpdate3(es[i], tangents, im2, limit, m, sqrt);
  }

  /** Every tangent impulse the 3D friction pass leaves lies in the disk its
      element's normal impulse defines. */
  lemma FrictionPass3InDisk(es: seq<Element3>, tangents: Axes<Vec3>, im2: real, limit: real, vel: DeltaVel3,
                            sqrt: real -> real)
    requires IsSqrt(sqrt)
    ensures var g := FrictionPass3(es, tangents, im2, limit, vel, sqrt);
            forall i :: 0 <= i < |es| ==> InDisk(limit, es[i].normalPart.impulse, g.elements[i].tangentPart.impulse)
  {
    var g := FrictionPass3(es, tangents, im2, limit, vel, sqrt);
    forall i | 0 <= i < |es|
      ensures InDisk(limit, es[i].normalPart.impulse, g.elements[i].tangentPart.impulse)
    {
      var m := FrictionPass3(es[..i], tangents, im2, limit, vel, sqrt).vel;
      var radius := limit * es[i].normalPart.impulse;
      FrictionPass3At(es, tangents, im2, limit, vel, sqrt, i);
      if radius >= 0.0 {
        TangentStep3Disk(es[i].tangentPart, tangents, im2, radius, m, sqrt);
      }
    }
  }

  /** With friction solved, every element of the 3D group ends with its
      tangent impulse inside the disk of radius coefficient times its final
      normal impulse. */
  lemma SolveGroup3InDisk(es: seq<Element3>, dir1: Vec3, tangent1: Vec3, im2: real, limit: real, vel: DeltaVel3,
                          solveNormal: bool, sqrt: real -> real)
    requires IsSqrt(sqrt)
    ensures var g := SolveGroup3(es, dir1, tangent1, im2, limit, vel, solveNormal, true, sqrt);
            forall i :: 0 <= i < |es| ==> InDisk(limit, g.elements[i].normalPart.impulse, g.elements[i].tangentPart.impulse)
  {
    var tangents := Axes(tangent1, Cross(dir1, tangent1));
    var n := if solveNormal then NormalPass3(es, dir1, im2, vel) else Swept(es, vel);
    var g := SolveGroup3(es, dir1, tangent1, im2, limit, vel, solveNormal, true, sqrt);
    assert g == FrictionPass3(n.elements, tangents, im2, limit, n.vel, sqrt);
    FrictionPass3InDisk(n.elements, tangents, im2, limit, n.vel, sqrt);
    forall i | 0 <= i < |es|
      ensures g.elements[i].normalPart.impulse == n.elements[i].normalPart.impulse
    {
      assert TangentImpulseOnly3(n.elements[i], g.elements[i]);
    }
  }

  /** With both rows solved and a non-negative coefficient the disk radius is
      never negative, so every final tangent impulse is bounded by the
      coefficient times its element's final normal impulse, with no condition
      left on the radius. */
  lemma SolveGroup3InDiskBothSolved(es: seq<Element3>, dir1: Vec3, tangent1: Vec3, im2: real, limit: real,
                                    vel: DeltaVel3, sqrt: real -> real)
    requires IsSqrt(sqrt) && limit >= 0.0
    ensures var g := SolveGroup3(es, dir1, tangent1, im2, limit, vel, true, true, sqrt);
            forall i :: 0 <= i < |es| ==>
              NormSq2(g.elements[i].tangentPart.impulse)
              <= (limit * g.elements[i].normalPart.impulse) * (limit * g.elements[i].normalPart.impulse)
  {
    var g := SolveGroup3(es, dir1, tangent1, im2, limit, vel, true, true, sqrt);
    SolveGroup3InDisk(es, dir1, tangent1, im2, limit, vel, true, sqrt);
    forall i | 0 <= i < |es|
      ensures NormSq2(g.elements[i].tangentPart.impulse)
              <= (limit * g.elements[i].normalPart.impulse) * (limit * g.elements[i].normalPart.impulse)
    {
      DiskOfNonNegativeRadius(limit, g.elements[i].normalPart.impulse, g.elements[i].tangentPart.impulse);
    }
  }

  /** A disk whose radius factors are non-negative bounds unconditionally. */
  lemma DiskOfNonNegativeRadius(coefficient: real, normalImpulse: real, tangentImpulse: Vec2)
    requires 0.0 <= coefficient && 0.0 <= normalImpulse
    requires InDisk(coefficient, normalImpulse, tangentImpulse)
    ensures NormSq2(tangentImpulse) <= (coefficient * normalImpulse) * (coefficient * normalImpulse)
  {
    NonNegativeProduct(coefficient, normalImpulse);
  }

  /** A non-negative number over a larger one is a fraction in `[0, 1]`. */
  lemma DivideBelow(a: real, b: real)
    requires 0.0 <= a < b
    ensures 0.0 <= a / b <= 1.0
  {
    var k := a / b;
    assert k * b == a;
    if k > 1.0 {
      assert k * b > b;
    }
  }

  /** With a non-negative limit the cap only ever shrinks its input along
      its own direction: the result is `v` scaled by a factor in `[0, 1]`. */
  lemma CapIsShrinking(v: Vec2, limit: real, sqrt: real -> real)
    requires IsSqrt(sqrt) && 0.0 <= limit
    ensures exists k :: 0.0 <= k <= 1.0 && CapMagnitude(v, limit, sqrt) == Scale2(v, k)
  {
    var n := sqrt(NormSq2(v));
    if n > limit && n != 0.0 {
      var k := limit / n;
      DivideBelow(limit, n);
      assert CapMagnitude(v, limit, sqrt) == Scale2(v, k);
    } else {
      assert CapMagnitude(v, limit, sqrt) == Scale2(v, 1.0);
    }
  }

  /** The zero vector is its own cap, whatever the limit. */
  lemma CapOfZero(limit: real, sqrt: real -> real)
    ensures CapMagnitude(Vec2(0.0, 0.0), limit, sqrt) == Vec2(0.0, 0.0)
  {
    var n := sqrt(NormSq2(Vec2(0.0, 0.0)));
    if n > limit && n != 0.0 {
      assert Scale2(Vec2(0.0, 0.0), limit / n) == Vec2(0.0, 0.0);
    }
  }

  /** Capping twice is capping once. */
  lemma CapIdempotent(v: Vec2, limit: real, sqrt: real -> real)
    requires IsSqrt(sqrt) && 0.0 <= limit
    ensures CapMagnitude(CapMagnitude(v, limit, sqrt), limit, sqrt) == CapMagnitude(v, limit, sqrt)
  {
    var c := CapMagnitude(v, limit, sqrt);
    CapBounds(v, limit, sqrt);
    CapBounds(c, limit, sqrt);
  }

  /** The two friction directions of the 3D `solve_group` are both
      orthogonal to the normal when the seed tangent is. */
  lemma TangentsOrthogonalToNormal(dir1: Vec3, tangent1: Vec3)
    requires Dot3(tangent1, dir1) == 0.0
    ensures var t := Axes(tangent1, Cross(dir1, tangent1));
            Dot3(t.first, dir1) == 0.0 && Dot3(t.second, dir1) == 0.0 && Dot3(t.second, t.first) == 0.0
  {
    CrossOrthogonal(dir1, tangent1);
  }

  /** With a unit normal and a unit seed tangent orthogonal to it, the second
      friction direction `dir1 x tangent1` is a unit vector too, so the two
      directions and the normal form an orthonormal frame. */
  lemma TangentsOrthonormal(dir1: Vec3, tangent1: Vec3)
    requires NormSq3(dir1) == 1.0 && NormSq3(tangent1) == 1.0 && Dot3(dir1, tangent1) == 0.0
    ensures NormSq3(Cross(dir1, tangent1)) == 1.0
  {
    CrossNormSq(dir1, tangent1);
  }

  /** Element `i` of the 3D penetration pass is the projected step of its
      own normal part, against the velocity the sweep of `es[..i]` left. */
  lemma NormalPass3At(es: seq<Element3>, dir1: Vec3, im2: real, vel: DeltaVel3, i: int)
    requires 0 <= i < |es|
    ensures NormalPass3(es, dir1, im2, vel).elements[i].normalPart
         == SolveNormal3(es[i].normalPart, dir1, im2, NormalPass3(es[..i], dir1, im2, vel).vel).value
  {
    var step := NormalStep3(dir1, im2);
    RunInOrder(es, vel, step, i);
    var m := Run(es[..i], vel, step).vel;
    assert NormalPass3(es[..i], dir1, im2, vel).vel == m;
    assert NormalPass3(es, dir1, im2, vel).elements[i] == step(es[i], m).value;
    assert step(es[i], m) == NormalUpdate3(es[i], dir1, im2, m);
  }

  /** Strict array order in the 3D `solve_group`, normal half: with both
      passes on, the normal part of element `i` is solved against the
      velocity the normal parts before it left. */
  lemma SolveGroup3NormalInOrder(es: seq<Element3>, dir1: Vec3, tangent1: Vec3, im2: real, limit: real,
                                 vel: DeltaVel3, sqrt: real -> real, i: int)
    requires 0 <= i < |es|
    ensures SolveGroup3(es, dir1, tangent1, im2, limit, vel, true, true, sqrt).elements[i].normalPart
         == SolveNormal3(es[i].normalPart, dir1, im2, NormalPass3(es[..i], dir1, im2, vel).vel).value
  {
    var n := NormalPass3(es, dir1, im2, vel);
    var g := SolveGroup3(es, dir1, tangent1, im2, limit, vel, true, true, sqrt);
    assert g == FrictionPass3(n.elements, Axes(tangent1, Cross(dir1, tangent1)), im2, limit, n.vel, sqrt);
    assert TangentImpulseOnly3(n.elements[i], g.elements[i]);
    NormalPass3At(es, dir1, im2, vel, i);
  }

  /** With both passes on, the 3D `solve_group` is the friction pass run on
      what the normal pass left, from the velocity it left. */
  lemma SolveGroup3BothPasses(es: seq<Element3>, dir1: Vec3, tangent1: Vec3, im2: real, limit: real,
                              vel: DeltaVel3, sqrt: real -> real)
    ensures var n := NormalPass3(es, dir1, im2, vel);
            SolveGroup3(es, dir1, tangent1, im2, limit, vel, true, true, sqrt)
            == FrictionPass3(n.elements, Axes(tangent1, Cross(dir1, tangent1)), im2, limit, n.vel, sqrt)
  {
  }

  /** Strict array order in the 3D `solve_group`, friction half: element `i`
      gets its friction update after every normal update, against the
      velocity the friction updates before it left, on the element the
      normal pass produced, so the disk radius is the coefficient times its
      just-updated normal impulse. */
  lemma SolveGroup3TangentInOrder(es: seq<Element3>, dir1: Vec3, tangent1: Vec3, im2: real, limit: real,
                                  vel: DeltaVel3, sqrt: real -> real, i: int)
    requires 0 <= i < |es|
    ensures var n := NormalPass3(es, dir1, im2, vel);
            var tangents := Axes(tangent1, Cross(dir1, tangent1));
            SolveGroup3(es, dir1, tangent1, im2, limit, vel, true, true, sqrt).elements[i]
            == FrictionUpdate3(n.elements[i], tangents, im2, limit,
                               FrictionPass3(n.elements[..i], tangents, im2, limit, n.vel, sqrt).vel, sqrt).value
  {
    var n := NormalPass3(es, dir1, im2, vel);
    var tangents := Axes(tangent1, Cross(dir1, tangent1));
    SolveGroup3BothPasses(es, dir1, tangent1, im2, limit, vel, sqrt);
    var step := FrictionStep3(tangents, im2, limit, sqrt);
    RunInOrder(n.elements, n.vel, step, i);
    var m := Run(n.elements[..i], n.vel, step).vel;
    assert FrictionPass3(n.elements[..i], tangents, im2, limit, n.vel, sqrt).vel == m;
    assert step(n.elements[i], m) == FrictionUpdate3(n.elements[i], tangents, im2, limit, m, sqrt);
  }

  /** A group of freshly built 3D elements is a fixed point of `solve_group`. */
  lemma {:induction false} ZeroGroup3IsInert(es: seq<Element3>, dir1: Vec3, tangent1: Vec3, im2: real, limit: real,
                                             vel: DeltaVel3, solveNormal: bool, solveFriction: bool, sqrt: real -> real)
    requires forall i :: 0 <= i < |es| ==> es[i] == ZeroElement3()
    ensures SolveGroup3(es, dir1, tangent1, im2, limit, vel, solveNormal, solveFriction, sqrt) == Swept(es, vel)
  {
    ZeroNormalPass3IsInert(es, dir1, im2, vel);
    ZeroFrictionPass3IsInert(es, Axes(tangent1, Cross(dir1, tangent1)), im2, limit, vel, sqrt);
  }

  lemma {:induction false} ZeroNormalPass3IsInert(es: seq<Element3>, dir1: Vec3, im2: real, vel: DeltaVel3)
    requires forall i :: 0 <= i < |es| ==> es[i] == ZeroElement3()
    ensures NormalPass3(es, dir1, im2, vel) == Swept(es, vel)
    decreases |es|
  {
    if |es| > 0 {
      var s := SolveNormal3(es[0].normalPart, dir1, im2, vel);
      assert s == Step(es[0].normalPart, vel);
      ZeroNormalPass3IsInert(es[1..], dir1, im2, vel);
      assert es == [es[0]] + es[1..];
    }
  }

  /** A fresh element's friction update applies no impulse. */
  lemma ZeroFrictionUpdate3(e: Element3, tangents: Axes<Vec3>, im2: real, limit: real, vel: DeltaVel3,
                            sqrt: real -> real)
    requires e == ZeroElement3()
    ensures FrictionUpdate3(e, tangents, im2, limit, vel, sqrt) == Step(e, vel)
  {
    var u := FrictionUpdate3(e, tangents, im2, limit, vel, sqrt);
    ZeroTangentStep3(e.tangentPart, tangents, im2, limit * e.normalPart.impulse, vel, sqrt);
    assert u.value == e;
    assert u.vel == vel;
  }

  /** A fresh tangent part's step applies no impulse, whatever the radius. */
  lemma ZeroTangentStep3(p: TangentPart3, tangents: Axes<Vec3>, im2: real, radius: real, vel: DeltaVel3,
                         sqrt: real -> real)
    requires p == ZeroTangentPart3()
    ensures SolveTangent3(p, tangents, im2, radius, vel, sqrt) == Step(p, vel)
  {
    assert CapMagnitude(TangentCandidate3(p, tangents, vel), radius, sqrt) == p.impulse by {
      ZeroFactor(RowVelocity3(tangents.first, p.gcross2.first, p.rhs.first, vel), p.r.first);
      ZeroFactor(RowVelocity3(tangents.second, p.gcross2.second, p.rhs.second, vel), p.r.second);
      assert TangentCandidate3(p, tangents, vel) == Vec2(0.0, 0.0);
      CapOfZero(radius, sqrt);
    }
    TangentStep3Unmoved(p, tangents, im2, radius, vel, sqrt);
  }

  /** No impulse change leaves the velocity as it is. */
  lemma NoTangentImpulse3(vel: DeltaVel3, tangents: Axes<Vec3>, gcross2: Axes<Vec3>, im2: real)
    ensures ApplyTangentImpulse3(vel, tangents, gcross2, im2, Vec2(0.0, 0.0)) == vel
  {
    var d := Vec2(0.0, 0.0);
    ScaleByZeroProduct3(tangents.first, -im2, d.x);
    ScaleByZeroProduct3(tangents.second, -im2, d.y);
    ScaleByZero3(gcross2.first, d.x);
    ScaleByZero3(gcross2.second, d.y);
  }

  /** A friction step whose cap gives back the accumulated impulse changes
      neither the part nor the velocity. */
  lemma TangentStep3Unmoved(p: TangentPart3, tangents: Axes<Vec3>, im2: real, limit: real, vel: DeltaVel3,
                            sqrt: real -> real)
    requires CapMagnitude(TangentCandidate3(p, tangents, vel), limit, sqrt) == p.impulse
    ensures SolveTangent3(p, tangents, im2, limit, vel, sqrt) == Step(p, vel)
  {
    assert Sub2(p.impulse, p.impulse) == Vec2(0.0, 0.0);
    NoTangentImpulse3(vel, tangents, p.gcross2, im2);
  }

  lemma {:induction false} ZeroFrictionPass3IsInert(es: seq<Element3>, tangents: Axes<Vec3>, im2: real, limit: real,
                                                    vel: DeltaVel3, sqrt: real -> real)
    requires forall i :: 0 <= i < |es| ==> es[i] == ZeroElement3()
    ensures FrictionPass3(es, tangents, im2, limit, vel, sqrt) == Swept(es, vel)
    decreases |es|
  {
    if |es| > 0 {
      ZeroFrictionUpdate3(es[0], tangents, im2, limit, vel, sqrt);
      ZeroFrictionPass3IsInert(es[1..], tangents, im2, limit, vel, sqrt);
      assert es == [es[0]] + es[1..];
    }
  }
}
