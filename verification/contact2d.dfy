/**
 The contact kernel between one dynamic body and the ground, in the 2D
 configuration: linear quantities are 2-vectors, angular ones scalars, and
 there is one tangent axis per contact point.
 */
module Contact2D {
  import opened Math
  import opened Sweep

  /** `DeltaVel`: the velocity correction of the dynamic body, shared by every
      contact point of a group. */
  datatype DeltaVel = DeltaVel(linear: Vec2, angular: real)

  /** The non-penetration row of one contact point. `rhsWoBias` is carried but
      never read by this kernel. */
  datatype NormalPart = NormalPart(gcross2: real, rhs: real, rhsWoBias: real, impulse: real, r: real)

  /** The friction row of one contact point: one tangent axis in 2D. */
  datatype TangentPart = TangentPart(gcross2: real, rhs: real, impulse: real, r: real)

  /** The full constraint state of one contact point. */
  datatype Element = Element(normalPart: NormalPart, tangentPart: TangentPart)

  /** The biased relative velocity along a row: `-dir · linear + gcross2 · angular + rhs`. */
  function RowVelocity(dir: Vec2, gcross2: real, rhs: real, vel: DeltaVel): real {
    -Dot2(dir, vel.linear) + gcross2 * vel.angular + rhs
  }

  /** The velocity after an impulse change `dlambda` along a row. */
  function ApplyImpulse(vel: DeltaVel, dir: Vec2, gcross2: real, im2: real, dlambda: real): DeltaVel {
    DeltaVel(Add2(vel.linear, Scale2(dir, -im2 * dlambda)), vel.angular + gcross2 * dlambda)
  }

  /** The impulse one unprojected Gauss-Seidel step would reach. */
  function NormalCandidate(p: NormalPart, dir1: Vec2, vel: DeltaVel): real {
    p.impulse - p.r * RowVelocity(dir1, p.gcross2, p.rhs, vel)
  }

  function TangentCandidate(p: TangentPart, tangent: Vec2, vel: DeltaVel): real {
    p.impulse - p.r * RowVelocity(tangent, p.gcross2, p.rhs, vel)
  }

  function ZeroNormalPart(): (p: NormalPart)
    ensures p.gcross2 == 0.0 && p.rhs == 0.0 && p.rhsWoBias == 0.0
    ensures p.impulse == 0.0 && p.r == 0.0
  {
    NormalPart(0.0, 0.0, 0.0, 0.0, 0.0)
  }

  function ZeroTangentPart(): (p: TangentPart)
    ensures p.gcross2 == 0.0 && p.rhs == 0.0 && p.impulse == 0.0 && p.r == 0.0
  {
    TangentPart(0.0, 0.0, 0.0, 0.0)
  }

  function ZeroElement(): (e: Element)
    ensures e.normalPart == ZeroNormalPart() && e.tangentPart == ZeroTangentPart()
  {
    Element(ZeroNormalPart(), ZeroTangentPart())
  }

  /** `NormalPart::solve`: one projected Gauss-Seidel step on the
      non-penetration row, then the resulting velocity correction. */
  function SolveNormal(p: NormalPart, dir1: Vec2, im2: real, vel: DeltaVel): (s: Step<NormalPart, DeltaVel>)
    ensures s.value.impulse >= 0.0
    ensures NormalCandidate(p, dir1, vel) >= 0.0 ==> s.value.impulse == NormalCandidate(p, dir1, vel)
    ensures NormalCandidate(p, dir1, vel) < 0.0 ==> s.value.impulse == 0.0
    ensures s.value == p.(impulse := s.value.impulse)
    ensures s.vel.linear == Add2(vel.linear, Scale2(dir1, -im2 * (s.value.impulse - p.impulse)))
    ensures s.vel.angular == vel.angular + p.gcross2 * (s.value.impulse - p.impulse)
  {
    var newImpulse := Max(NormalCandidate(p, dir1, vel), 0.0);
    var dlambda := newImpulse - p.impulse;
    Step(p.(impulse := newImpulse), ApplyImpulse(vel, dir1, p.gcross2, im2, dlambda))
  }

  /** `TangentPart::solve` in 2D: one Gauss-Seidel step on the friction row,
      box-clamped to `[-limit, limit]`, then the velocity correction. */
  function SolveTangent(p: TangentPart, tangent: Vec2, im2: real, limit: real, vel: DeltaVel): (s: Step<TangentPart, DeltaVel>)
    ensures limit >= 0.0 ==> -limit <= s.value.impulse <= limit
    ensures -limit <= TangentCandidate(p, tangent, vel) <= limit ==> s.value.impulse == TangentCandidate(p, tangent, vel)
    ensures TangentCandidate(p, tangent, vel) < -limit ==> s.value.impulse == -limit
    ensures -limit <= limit < TangentCandidate(p, tangent, vel) ==> s.value.impulse == limit
    ensures s.value == p.(impulse := s.value.impulse)
    ensures s.vel.linear == Add2(vel.linear, Scale2(tangent, -im2 * (s.value.impulse - p.impulse)))
    ensures s.vel.angular == vel.angular + p.gcross2 * (s.value.impulse - p.impulse)
  {
    var newImpulse := Clamp(TangentCandidate(p, tangent, vel), -limit, limit);
    var dlambda := newImpulse - p.impulse;
    Step(p.(impulse := newImpulse), ApplyImpulse(vel, tangent, p.gcross2, im2, dlambda))
  }

  /** `b` is `a` with at most its normal impulse changed. */
  predicate NormalImpulseOnly(a: Element, b: Element) {
    b == a.(normalPart := a.normalPart.(impulse := b.normalPart.impulse))
  }

  /** `b` is `a` with at most its tangent impulse changed. */
  predicate TangentImpulseOnly(a: Element, b: Element) {
    b == a.(tangentPart := a.tangentPart.(impulse := b.tangentPart.impulse))
  }

  /** `b` is `a` with at most its two impulses changed. */
  predicate ImpulsesOnly(a: Element, b: Element) {
    b == Element(a.normalPart.(impulse := b.normalPart.impulse), a.tangentPart.(impulse := b.tangentPart.impulse))
  }

  /** The friction cone of radius `coefficient * normalImpulse`, for a
      non-negative radius. */
  predicate InCone(coefficient: real, normalImpulse: real, tangentImpulse: real) {
    coefficient * normalImpulse >= 0.0 ==>
      -(coefficient * normalImpulse) <= tangentImpulse <= coefficient * normalImpulse
  }

  /** The normal update of one element, as the normal pass applies it. */
  function NormalUpdate(e: Element, dir1: Vec2, im2: real, vel: DeltaVel): (u: Step<Element, DeltaVel>)
    ensures NormalImpulseOnly(e, u.value)
    ensures u.value.normalPart.impulse == Max(NormalCandidate(e.normalPart, dir1, vel), 0.0)
    ensures u.vel == ApplyImpulse(vel, dir1, e.normalPart.gcross2, im2, u.value.normalPart.impulse - e.normalPart.impulse)
  {
    var s := SolveNormal(e.normalPart, dir1, im2, vel);
    Step(e.(normalPart := s.value), s.vel)
  }

  /** The friction update of one element: the cone radius is the coefficient
      times the element's current normal impulse. */
  function FrictionUpdate(e: Element, tangent: Vec2, im2: real, limit: real, vel: DeltaVel): (u: Step<Element, DeltaVel>)
    ensures TangentImpulseOnly(e, u.value)
    ensures InCone(limit, e.normalPart.impulse, u.value.tangentPart.impulse)
    ensures u.value.tangentPart.impulse
            == Clamp(TangentCandidate(e.tangentPart, tangent, vel), -(limit * e.normalPart.impulse), limit * e.normalPart.impulse)
    ensures u.vel == ApplyImpulse(vel, tangent, e.tangentPart.gcross2, im2, u.value.tangentPart.impulse - e.tangentPart.impulse)
  {
    var s := SolveTangent(e.tangentPart, tangent, im2, limit * e.normalPart.impulse, vel);
    Step(e.(tangentPart := s.value), s.vel)
  }

  function NormalStep(dir1: Vec2, im2: real): (Element, DeltaVel) -> Step<Element, DeltaVel> {
    (e: Element, v: DeltaVel) => NormalUpdate(e, dir1, im2, v)
  }

  function FrictionStep(tangent: Vec2, im2: real, limit: real): (Element, DeltaVel) -> Step<Element, DeltaVel> {
    (e: Element, v: DeltaVel) => FrictionUpdate(e, tangent, im2, limit, v)
  }

  /** The penetration loop of `solve_group`: every normal part, in array order. */
  function NormalPass(es: seq<Element>, dir1: Vec2, im2: real, vel: DeltaVel): (g: Swept<Element, DeltaVel>)
    ensures |g.elements| == |es|
    ensures forall i :: 0 <= i < |es| ==> g.elements[i].normalPart.impulse >= 0.0
    ensures forall i :: 0 <= i < |es| ==> NormalImpulseOnly(es[i], g.elements[i])
  {
    var g := Run(es, vel, NormalStep(dir1, im2));
    assert forall i :: 0 <= i < |es| ==>
      g.elements[i] == NormalUpdate(es[i], dir1, im2, Run(es[..i], vel, NormalStep(dir1, im2)).vel).value by {
      forall i | 0 <= i < |es| {
        RunInOrder(es, vel, NormalStep(dir1, im2), i);
      }
    }
    g
  }

  /** The friction loop of `solve_group`: every tangent part, in array order,
      each against the cone its own normal impulse defines. */
  function FrictionPass(es: seq<Element>, tangent: Vec2, im2: real, limit: real, vel: DeltaVel): (g: Swept<Element, DeltaVel>)
    ensures |g.elements| == |es|
    ensures forall i :: 0 <= i < |es| ==> TangentImpulseOnly(es[i], g.elements[i])
    ensures forall i :: 0 <= i < |es| ==>
      InCone(limit, es[i].normalPart.impulse, g.elements[i].tangentPart.impulse)
  {
    var g := Run(es, vel, FrictionStep(tangent, im2, limit));
    assert forall i :: 0 <= i < |es| ==>
      g.elements[i] == FrictionUpdate(es[i], tangent, im2, limit, Run(es[..i], vel, FrictionStep(tangent, im2, limit)).vel).value by {
      forall i | 0 <= i < |es| {
        RunInOrder(es, vel, FrictionStep(tangent, im2, limit), i);
      }
    }
    g
  }

  /** What the two passes of `solve_group` give together, element by element:
      only the impulses change, the normal impulse the penetration pass left is
      non-negative and unchanged by friction, so the cone the friction pass
      respected is the cone of the final normal impulse. */
  lemma NormalThenFriction(es: seq<Element>, normal: seq<Element>, friction: seq<Element>, limit: real)
    requires |normal| == |es| && |friction| == |es|
    requires forall i :: 0 <= i < |es| ==> normal[i].normalPart.impulse >= 0.0
    requires forall i :: 0 <= i < |es| ==> NormalImpulseOnly(es[i], normal[i])
    requires forall i :: 0 <= i < |es| ==> TangentImpulseOnly(normal[i], friction[i])
    requires forall i :: 0 <= i < |es| ==> InCone(limit, normal[i].normalPart.impulse, friction[i].tangentPart.impulse)
    ensures forall i :: 0 <= i < |es| ==> ImpulsesOnly(es[i], friction[i])
    ensures forall i :: 0 <= i < |es| ==> friction[i].normalPart.impulse >= 0.0
    ensures forall i :: 0 <= i < |es| ==> InCone(limit, friction[i].normalPart.impulse, friction[i].tangentPart.impulse)
    ensures limit >= 0.0 ==> forall i :: 0 <= i < |es| ==>
      -(limit * friction[i].normalPart.impulse) <= friction[i].tangentPart.impulse <= limit * friction[i].normalPart.impulse
  {
    forall i | 0 <= i < |es|
      ensures ImpulsesOnly(es[i], friction[i])
      ensures friction[i].normalPart.impulse == normal[i].normalPart.impulse
    {
      assert NormalImpulseOnly(es[i], normal[i]) && TangentImpulseOnly(normal[i], friction[i]);
    }
    if limit >= 0.0 {
      forall i | 0 <= i < |es|
        ensures -(limit * friction[i].normalPart.impulse) <= friction[i].tangentPart.impulse <= limit * friction[i].normalPart.impulse
      {
        NonNegativeProduct(limit, friction[i].normalPart.impulse);
      }
    }
  }

  /** A pass that changes only normal impulses leaves every tangent part as it was. */
  lemma NormalOnlyKeepsFriction(es: seq<Element>, normal: seq<Element>)
    requires |normal| == |es|
    requires forall i :: 0 <= i < |es| ==> NormalImpulseOnly(es[i], normal[i])
    ensures forall i :: 0 <= i < |es| ==> ImpulsesOnly(es[i], normal[i]) && normal[i].tangentPart == es[i].tangentPart
  {
    forall i | 0 <= i < |es|
      ensures ImpulsesOnly(es[i], normal[i]) && normal[i].tangentPart == es[i].tangentPart
    {
      assert NormalImpulseOnly(es[i], normal[i]);
    }
  }

  /** A pass that changes only tangent impulses leaves every normal part as it was. */
  lemma FrictionOnlyKeepsNormal(es: seq<Element>, friction: seq<Element>)
    requires |friction| == |es|
    requires forall i :: 0 <= i < |es| ==> TangentImpulseOnly(es[i], friction[i])
    ensures forall i :: 0 <= i < |es| ==> ImpulsesOnly(es[i], friction[i]) && friction[i].normalPart == es[i].normalPart
  {
    forall i | 0 <= i < |es|
      ensures ImpulsesOnly(es[i], friction[i]) && friction[i].normalPart == es[i].normalPart
    {
      assert TangentImpulseOnly(es[i], friction[i]);
    }
  }

  /** `solve_group`: the penetration pass if `solveNormal`, then the friction
      pass along the normal's orthonormal vector if `solveFriction`. `limit`
      is the friction coefficient. */
  function SolveGroup(es: seq<Element>, dir1: Vec2, im2: real, limit: real, vel: DeltaVel,
                      solveNormal: bool, solveFriction: bool): (g: Swept<Element, DeltaVel>)
    ensures |g.elements| == |es|
    ensures !solveNormal && !solveFriction ==> g == Swept(es, vel)
    ensures forall i :: 0 <= i < |es| ==> ImpulsesOnly(es[i], g.elements[i])
    ensures !solveNormal ==> forall i :: 0 <= i < |es| ==> g.elements[i].normalPart == es[i].normalPart
    ensures solveNormal ==> forall i :: 0 <= i < |es| ==> g.elements[i].normalPart.impulse >= 0.0
    ensures !solveFriction ==> forall i :: 0 <= i < |es| ==> g.elements[i].tangentPart == es[i].tangentPart
    ensures solveFriction ==> forall i :: 0 <= i < |es| ==>
      InCone(limit, g.elements[i].normalPart.impulse, g.elements[i].tangentPart.impulse)
    ensures solveNormal && solveFriction && limit >= 0.0 ==> forall i :: 0 <= i < |es| ==>
      -(limit * g.elements[i].normalPart.impulse) <= g.elements[i].tangentPart.impulse
      <= limit * g.elements[i].normalPart.impulse
  {
    if solveNormal && solveFriction then
      var n := NormalPass(es, dir1, im2, vel);
      var f := FrictionPass(n.elements, Perp(dir1), im2, limit, n.vel);
      NormalThenFriction(es, n.elements, f.elements, limit);
      f
    else if solveNormal then
      var n := NormalPass(es, dir1, im2, vel);
      NormalOnlyKeepsFriction(es, n.elements);
      n
    else if solveFriction then
      var f := FrictionPass(es, Perp(dir1), im2, limit, vel);
      FrictionOnlyKeepsNormal(es, f.elements);
      f
    else
      Swept(es, vel)
  }
}
