/**
 Properties of the 2D ground-contact kernel that relate several calls or
 give the single-row updates their physical meaning.
 */
module Contact2DLemmas {
  import opened Math
  import opened Sweep
  import opened Contact2D

  /** How an impulse change along a row moves that row's own velocity: by
      `dlambda` times the row's inverse effective mass. */
  lemma RowVelocityAfterImpulse(dir: Vec2, gcross2: real, rhs: real, vel: DeltaVel, im2: real, dlambda: real)
    ensures RowVelocity(dir, gcross2, rhs, ApplyImpulse(vel, dir, gcross2, im2, dlambda))
         == RowVelocity(dir, gcross2, rhs, vel) + dlambda * (im2 * NormSq2(dir) + gcross2 * gcross2)
  {
    var w := ApplyImpulse(vel, dir, gcross2, im2, dlambda);
    assert Dot2(dir, w.linear) == Dot2(dir, vel.linear) - im2 * dlambda * NormSq2(dir);
    assert gcross2 * w.angular == gcross2 * vel.angular + dlambda * (gcross2 * gcross2);
  }

  /** With `r` the inverse of the row's effective-mass denominator, the row
      velocity after a step is the gap between the committed impulse and the
      unprojected candidate, divided by `r`. */
  lemma PostVelocityGap(dir: Vec2, gcross2: real, rhs: real, r: real, vel: DeltaVel, im2: real,
                        impulse: real, newImpulse: real)
    requires r * (im2 * NormSq2(dir) + gcross2 * gcross2) == 1.0
    ensures var post := RowVelocity(dir, gcross2, rhs, ApplyImpulse(vel, dir, gcross2, im2, newImpulse - impulse));
            var candidate := impulse - r * RowVelocity(dir, gcross2, rhs, vel);
            r * post == newImpulse - candidate
  {
    var k := im2 * NormSq2(dir) + gcross2 * gcross2;
    var pre := RowVelocity(dir, gcross2, rhs, vel);
    RowVelocityAfterImpulse(dir, gcross2, rhs, vel, im2, newImpulse - impulse);
    assert r * (pre + (newImpulse - impulse) * k) == r * pre + (newImpulse - impulse) * (r * k);
  }

  /** A non-negative inverse mass makes the effective-mass denominator, and so
      a matching `r`, positive. */
  lemma PositiveCompliance(dir: Vec2, gcross2: real, r: real, im2: real)
    requires im2 >= 0.0
    requires r * (im2 * NormSq2(dir) + gcross2 * gcross2) == 1.0
    ensures r > 0.0
  {
    var k := im2 * NormSq2(dir) + gcross2 * gcross2;
    assert im2 * NormSq2(dir) >= 0.0;
    assert gcross2 * gcross2 >= 0.0 by {
      if gcross2 < 0.0 {
        assert gcross2 * gcross2 == (-gcross2) * (-gcross2);
      }
    }
    assert k >= 0.0;
  }

  /** Dividing out a positive factor keeps the sign. */
  lemma SignOfScaled(r: real, x: real)
    requires r > 0.0
    ensures r * x > 0.0 ==> x > 0.0
    ensures r * x < 0.0 ==> x < 0.0
    ensures r * x == 0.0 ==> x == 0.0
  {
  }

  /** The sign pattern a box clamp leaves between the committed impulse and
      the scaled gap to its candidate. */
  lemma ClampedGap(candidate: real, impulse: real, limit: real, r: real, post: real)
    requires limit >= 0.0 && r > 0.0
    requires impulse == Clamp(candidate, -limit, limit)
    requires r * post == impulse - candidate
    ensures -limit < impulse < limit ==> post == 0.0
    ensures post > 0.0 ==> impulse == -limit
    ensures post < 0.0 ==> impulse == limit
  {
    SignOfScaled(r, post);
  }

  /** The gap a step leaves on a row with a matching `r`: `r` is positive,
      and `r` times the row velocity after the step is the committed impulse
      minus the unprojected candidate. */
  lemma StepGap(dir: Vec2, gcross2: real, rhs: real, r: real, im2: real, vel: DeltaVel,
                impulse: real, newImpulse: real, after: DeltaVel)
    requires im2 >= 0.0
    requires r * (im2 * NormSq2(dir) + gcross2 * gcross2) == 1.0
    requires after == ApplyImpulse(vel, dir, gcross2, im2, newImpulse - impulse)
    ensures r > 0.0
    ensures r * RowVelocity(dir, gcross2, rhs, after) == newImpulse - (impulse - r * RowVelocity(dir, gcross2, rhs, vel))
  {
    PositiveCompliance(dir, gcross2, r, im2);
    PostVelocityGap(dir, gcross2, rhs, r, vel, im2, impulse, newImpulse);
  }

  /** Signorini conditions: when `r` is the exact inverse effective mass of
      the row, one normal step leaves a complementary pair — a non-negative
      impulse and a non-negative (separating) row velocity, at least one of
      them zero. */
  lemma {:induction false} NormalComplementarity(p: NormalPart, dir1: Vec2, im2: real, vel: DeltaVel)
    requires im2 >= 0.0
    requires p.r * (im2 * NormSq2(dir1) + p.gcross2 * p.gcross2) == 1.0
    ensures var s := SolveNormal(p, dir1, im2, vel);
            var post := RowVelocity(dir1, p.gcross2, p.rhs, s.vel);
            s.value.impulse >= 0.0 && post >= 0.0 && s.value.impulse * post == 0.0
  {
    var s := SolveNormal(p, dir1, im2, vel);
    var post := RowVelocity(dir1, p.gcross2, p.rhs, s.vel);
    var candidate := NormalCandidate(p, dir1, vel);
    StepGap(dir1, p.gcross2, p.rhs, p.r, im2, vel, p.impulse, s.value.impulse, s.vel);
    SignOfScaled(p.r, post);
    if candidate >= 0.0 {
      assert post == 0.0;
    } else {
      assert s.value.impulse == 0.0;
    }
  }

  /** Coulomb friction at a contact: when `r` is the exact inverse effective
      mass of the row and the cone radius is non-negative, one tangent step
      leaves the impulse inside the cone, the tangential velocity zero while
      the impulse is strictly inside, and any remaining sliding opposed by an
      impulse saturated on the opposite bound. */
  lemma {:induction false} TangentCoulomb(p: TangentPart, tangent: Vec2, im2: real, limit: real, vel: DeltaVel)
    requires im2 >= 0.0 && limit >= 0.0
    requires p.r * (im2 * NormSq2(tangent) + p.gcross2 * p.gcross2) == 1.0
    ensures var s := SolveTangent(p, tangent, im2, limit, vel);
            var post := RowVelocity(tangent, p.gcross2, p.rhs, s.vel);
            && -limit <= s.value.impulse <= limit
            && (-limit < s.value.impulse < limit ==> post == 0.0)
            && (post > 0.0 ==> s.value.impulse == -limit)
            && (post < 0.0 ==> s.value.impulse == limit)
  {
    var s := SolveTangent(p, tangent, im2, limit, vel);
    var candidate := TangentCandidate(p, tangent, vel);
    StepGap(tangent, p.gcross2, p.rhs, p.r, im2, vel, p.impulse, s.value.impulse, s.vel);
    ClampedGap(candidate, s.value.impulse, limit, p.r, RowVelocity(tangent, p.gcross2, p.rhs, s.vel));
  }

  /** The committed normal impulse is the point of `[0, +inf)` nearest to the
      candidate: `max(0, .)` is the Euclidean projection onto the feasible set. */
  lemma NormalImpulseIsProjection(p: NormalPart, dir1: Vec2, im2: real, vel: DeltaVel, y: real)
    requires y >= 0.0
    ensures var c := NormalCandidate(p, dir1, vel);
            Abs(SolveNormal(p, dir1, im2, vel).value.impulse - c) <= Abs(y - c)
  {
  }

  /** The committed tangent impulse is the point of `[-limit, limit]` nearest
      to the candidate. */
  lemma TangentImpulseIsProjection(p: TangentPart, tangent: Vec2, im2: real, limit: real, vel: DeltaVel, y: real)
    requires -limit <= y <= limit
    ensures var c := TangentCandidate(p, tangent, vel);
            Abs(SolveTangent(p, tangent, im2, limit, vel).value.impulse - c) <= Abs(y - c)
  {
  }

  /** Gauss-Seidel order through a whole `solve_group` with both passes:
      element `i`'s normal part is solved against the velocity left by the
      normal updates of `es[..i]`, and its tangent part against the velocity
      left by the friction updates of the elements before it, with the cone
      radius taken from its just-updated normal impulse. */
  lemma SolveGroupInOrder(es: seq<Element>, dir1: Vec2, im2: real, limit: real, vel: DeltaVel, i: int)
    requires 0 <= i < |es|
    ensures var n := NormalPass(es, dir1, im2, vel);
            var g := SolveGroup(es, dir1, im2, limit, vel, true, true);
            && g.elements[i].normalPart
               == SolveNormal(es[i].normalPart, dir1, im2, NormalPass(es[..i], dir1, im2, vel).vel).value
            && g.elements[i].tangentPart
               == SolveTangent(es[i].tangentPart, Perp(dir1), im2, limit * n.elements[i].normalPart.impulse,
                               FrictionPass(n.elements[..i], Perp(dir1), im2, limit, n.vel).vel).value
  {
    var n := NormalPass(es, dir1, im2, vel);
    RunInOrder(es, vel, NormalStep(dir1, im2), i);
    RunInOrder(n.elements, n.vel, FrictionStep(Perp(dir1), im2, limit), i);
  }

  /** The sum of `f` over a group. */
  function Total(es: seq<Element>, f: Element -> real): real
    decreases |es|
  {
    if |es| == 0 then 0.0 else f(es[0]) + Total(es[1..], f)
  }

  /** How much the sum of `f` grew from `before` to `after`. */
  function Change(before: seq<Element>, after: seq<Element>, f: Element -> real): real {
    Total(after, f) - Total(before, f)
  }

  function NormalImpulseOf(e: Element): real {
    e.normalPart.impulse
  }

  /** The angular momentum a normal impulse carries. */
  function NormalMomentOf(e: Element): real {
    e.normalPart.gcross2 * e.normalPart.impulse
  }

  function TangentImpulseOf(e: Element): real {
    e.tangentPart.impulse
  }

  function TangentMomentOf(e: Element): real {
    e.tangentPart.gcross2 * e.tangentPart.impulse
  }

  /** Groups that agree on `f` pointwise have the same total of `f`. */
  lemma {:induction false} TotalsAgree(a: seq<Element>, b: seq<Element>, f: Element -> real)
    requires |a| == |b|
    requires forall i :: 0 <= i < |a| ==> f(a[i]) == f(b[i])
    ensures Total(a, f) == Total(b, f)
    decreases |a|
  {
    if |a| > 0 {
      TotalsAgree(a[1..], b[1..], f);
    }
  }

  /** Groups with the same normal parts have the same normal totals. */
  lemma NormalTotalsAgree(a: seq<Element>, b: seq<Element>)
    requires |a| == |b|
    requires forall i :: 0 <= i < |a| ==> a[i].normalPart == b[i].normalPart
    ensures Total(a, NormalImpulseOf) == Total(b, NormalImpulseOf)
    ensures Total(a, NormalMomentOf) == Total(b, NormalMomentOf)
  {
    TotalsAgree(a, b, NormalImpulseOf);
    TotalsAgree(a, b, NormalMomentOf);
  }

  /** Groups with the same tangent parts have the same tangent totals. */
  lemma TangentTotalsAgree(a: seq<Element>, b: seq<Element>)
    requires |a| == |b|
    requires forall i :: 0 <= i < |a| ==> a[i].tangentPart == b[i].tangentPart
    ensures Total(a, TangentImpulseOf) == Total(b, TangentImpulseOf)
    ensures Total(a, TangentMomentOf) == Total(b, TangentMomentOf)
  {
    TotalsAgree(a, b, TangentImpulseOf);
    TotalsAgree(a, b, TangentMomentOf);
  }

  /** The accumulator after a total impulse change `dlambda` along `dir`
      carrying the angular `moment`. */
  function Kick(vel: DeltaVel, dir: Vec2, im2: real, dlambda: real, moment: real): DeltaVel {
    DeltaVel(Add2(vel.linear, Scale2(dir, -im2 * dlambda)), vel.angular + moment)
  }

  /** Two successive kicks along one direction are one kick by the summed
      impulse change and moment. */
  lemma KicksCompose(v0: DeltaVel, dir: Vec2, im2: real, d0: real, d1: real, m0: real, m1: real)
    ensures Kick(Kick(v0, dir, im2, d0, m0), dir, im2, d1, m1) == Kick(v0, dir, im2, d0 + d1, m0 + m1)
  {
    AddScaled2(v0.linear, dir, -im2 * d0, -im2 * d1);
    assert -im2 * d0 + -im2 * d1 == -im2 * (d0 + d1);
  }

  /** No impulse change leaves the accumulator as it is. */
  lemma KickZero(v0: DeltaVel, dir: Vec2, im2: real)
    ensures Kick(v0, dir, im2, 0.0, 0.0) == v0
  {
    assert Scale2(dir, -im2 * 0.0) == Vec2(0.0, 0.0);
  }

  /** Every update of `step` kicks the accumulator along `dir` by the change
      of `imp` and of `mom` it makes to its element. */
  ghost predicate Kicks(step: (Element, DeltaVel) -> Step<Element, DeltaVel>, dir: Vec2, im2: real,
                        imp: Element -> real, mom: Element -> real) {
    forall e, v :: step(e, v).vel == Kick(v, dir, im2, imp(step(e, v).value) - imp(e), mom(step(e, v).value) - mom(e))
  }

  /** A sweep of such a step kicks the accumulator by the change of the
      group's totals. */
  lemma {:induction false} RunAccounting(es: seq<Element>, vel: DeltaVel, step: (Element, DeltaVel) -> Step<Element, DeltaVel>,
                                         dir: Vec2, im2: real, imp: Element -> real, mom: Element -> real)
    requires Kicks(step, dir, im2, imp, mom)
    ensures var g := Run(es, vel, step);
            g.vel == Kick(vel, dir, im2, Change(es, g.elements, imp), Change(es, g.elements, mom))
    decreases |es|
  {
    if |es| == 0 {
      KickZero(vel, dir, im2);
    } else {
      var g := Run(es, vel, step);
      var s := step(es[0], vel);
      var rest := Run(es[1..], s.vel, step);
      RunAccounting(es[1..], s.vel, step, dir, im2, imp, mom);
      assert g.elements[0] == s.value && g.elements[1..] == rest.elements;
      KicksCompose(vel, dir, im2, imp(s.value) - imp(es[0]), Change(es[1..], rest.elements, imp),
                   mom(s.value) - mom(es[0]), Change(es[1..], rest.elements, mom));
    }
  }

  /** An impulse change along a row is a kick by that change, whose moment
      is the change of `gcross2` times the impulse. */
  lemma ImpulseIsKick(v: DeltaVel, dir: Vec2, g: real, im2: real, before: real, after: real)
    ensures ApplyImpulse(v, dir, g, im2, after - before) == Kick(v, dir, im2, after - before, g * after - g * before)
  {
    assert g * (after - before) == g * after - g * before;
  }

  /** One normal update, as a kick along the normal. */
  lemma NormalUpdateKicks(e: Element, dir1: Vec2, im2: real, v: DeltaVel)
    ensures var u := NormalUpdate(e, dir1, im2, v).value;
            NormalUpdate(e, dir1, im2, v).vel
            == Kick(v, dir1, im2, NormalImpulseOf(u) - NormalImpulseOf(e), NormalMomentOf(u) - NormalMomentOf(e))
  {
    var p := e.normalPart;
    var s := SolveNormal(p, dir1, im2, v);
    assert s.vel == ApplyImpulse(v, dir1, p.gcross2, im2, s.value.impulse - p.impulse);
    ImpulseIsKick(v, dir1, p.gcross2, im2, p.impulse, s.value.impulse);
  }

  /** One friction update, as a kick along the tangent. */
  lemma FrictionUpdateKicks(e: Element, tangent: Vec2, im2: real, limit: real, v: DeltaVel)
    ensures var u := FrictionUpdate(e, tangent, im2, limit, v).value;
            FrictionUpdate(e, tangent, im2, limit, v).vel
            == Kick(v, tangent, im2, TangentImpulseOf(u) - TangentImpulseOf(e), TangentMomentOf(u) - TangentMomentOf(e))
  {
    var p := e.tangentPart;
    var u := FrictionUpdate(e, tangent, im2, limit, v);
    var after := u.value.tangentPart.impulse;
    assert u.value.tangentPart.gcross2 == p.gcross2;
    assert TangentImpulseOf(u.value) == after && TangentMomentOf(u.value) == p.gcross2 * after;
    assert u.vel == ApplyImpulse(v, tangent, p.gcross2, im2, after - p.impulse);
    ImpulseIsKick(v, tangent, p.gcross2, im2, p.impulse, after);
  }

  lemma NormalStepKicks(dir1: Vec2, im2: real)
    ensures Kicks(NormalStep(dir1, im2), dir1, im2, NormalImpulseOf, NormalMomentOf)
  {
    forall e: Element, v: DeltaVel
      ensures NormalStep(dir1, im2)(e, v).vel
              == Kick(v, dir1, im2, NormalImpulseOf(NormalStep(dir1, im2)(e, v).value) - NormalImpulseOf(e),
                      NormalMomentOf(NormalStep(dir1, im2)(e, v).value) - NormalMomentOf(e))
    {
      NormalUpdateKicks(e, dir1, im2, v);
    }
  }

  lemma FrictionStepKicks(tangent: Vec2, im2: real, limit: real)
    ensures Kicks(FrictionStep(tangent, im2, limit), tangent, im2, TangentImpulseOf, TangentMomentOf)
  {
    forall e: Element, v: DeltaVel
      ensures FrictionStep(tangent, im2, limit)(e, v).vel
              == Kick(v, tangent, im2, TangentImpulseOf(FrictionStep(tangent, im2, limit)(e, v).value) - TangentImpulseOf(e),
                      TangentMomentOf(FrictionStep(tangent, im2, limit)(e, v).value) - TangentMomentOf(e))
    {
      FrictionUpdateKicks(e, tangent, im2, limit, v);
    }
  }

  /** Impulse bookkeeping of the penetration pass: the accumulator moves by
      exactly the change of the total normal impulse along the normal, and of
      the total normal moment angularly. */
  lemma NormalPassAccounting(es: seq<Element>, dir1: Vec2, im2: real, vel: DeltaVel)
    ensures var g := NormalPass(es, dir1, im2, vel);
            g.vel == Kick(vel, dir1, im2, Change(es, g.elements, NormalImpulseOf), Change(es, g.elements, NormalMomentOf))
  {
    NormalStepKicks(dir1, im2);
    RunAccounting(es, vel, NormalStep(dir1, im2), dir1, im2, NormalImpulseOf, NormalMomentOf);
  }

  /** Impulse bookkeeping of the friction pass, along the tangent. */
  lemma FrictionPassAccounting(es: seq<Element>, tangent: Vec2, im2: real, limit: real, vel: DeltaVel)
    ensures var g := FrictionPass(es, tangent, im2, limit, vel);
            g.vel == Kick(vel, tangent, im2, Change(es, g.elements, TangentImpulseOf), Change(es, g.elements, TangentMomentOf))
  {
    FrictionStepKicks(tangent, im2, limit);
    RunAccounting(es, vel, FrictionStep(tangent, im2, limit), tangent, im2, TangentImpulseOf, TangentMomentOf);
  }

  /** Impulse bookkeeping of `solve_group`, whatever the pass flags: the final
      accumulator is the incoming one kicked along the normal by the change of
      the total normal impulse and moment, then along the normal's orthonormal
      vector by the change of the total tangent impulse and moment. */
  lemma SolveGroupAccounting(es: seq<Element>, dir1: Vec2, im2: real, limit: real, vel: DeltaVel,
                             solveNormal: bool, solveFriction: bool)
    ensures var g := SolveGroup(es, dir1, im2, limit, vel, solveNormal, solveFriction);
            g.vel == Kick(Kick(vel, dir1, im2, Change(es, g.elements, NormalImpulseOf), Change(es, g.elements, NormalMomentOf)),
                          Perp(dir1), im2, Change(es, g.elements, TangentImpulseOf), Change(es, g.elements, TangentMomentOf))
  {
    var g := SolveGroup(es, dir1, im2, limit, vel, solveNormal, solveFriction);
    var n := if solveNormal then NormalPass(es, dir1, im2, vel) else Swept(es, vel);
    assert n.vel == Kick(vel, dir1, im2, Change(es, n.elements, NormalImpulseOf), Change(es, n.elements, NormalMomentOf)) by {
      if solveNormal {
        NormalPassAccounting(es, dir1, im2, vel);
      } else {
        KickZero(vel, dir1, im2);
      }
    }
    assert Change(es, n.elements, TangentImpulseOf) == 0.0 && Change(es, n.elements, TangentMomentOf) == 0.0 by {
      TangentTotalsAgree(es, n.elements);
    }
    if solveFriction {
      assert g == FrictionPass(n.elements, Perp(dir1), im2, limit, n.vel);
      FrictionPassAccounting(n.elements, Perp(dir1), im2, limit, n.vel);
      assert forall i :: 0 <= i < |g.elements| ==> g.elements[i].normalPart == n.elements[i].normalPart by {
        forall i | 0 <= i < |g.elements| ensures g.elements[i].normalPart == n.elements[i].normalPart {
          assert TangentImpulseOnly(n.elements[i], g.elements[i]);
        }
      }
      NormalTotalsAgree(g.elements, n.elements);
    } else {
      assert g == n;
      KickZero(n.vel, Perp(dir1), im2);
    }
  }

  /** A group of freshly built elements is a fixed point of `solve_group`:
      with zero compliance and zero impulses no pass applies any impulse. */
  lemma {:induction false} ZeroGroupIsInert(es: seq<Element>, dir1: Vec2, im2: real, limit: real, vel: DeltaVel,
                                            solveNormal: bool, solveFriction: bool)
    requires forall i :: 0 <= i < |es| ==> es[i] == ZeroElement()
    ensures SolveGroup(es, dir1, im2, limit, vel, solveNormal, solveFriction) == Swept(es, vel)
  {
    ZeroNormalPassIsInert(es, dir1, im2, vel);
    ZeroFrictionPassIsInert(es, Perp(dir1), im2, limit, vel);
  }

  lemma {:induction false} ZeroNormalPassIsInert(es: seq<Element>, dir1: Vec2, im2: real, vel: DeltaVel)
    requires forall i :: 0 <= i < |es| ==> es[i] == ZeroElement()
    ensures NormalPass(es, dir1, im2, vel) == Swept(es, vel)
    decreases |es|
  {
    if |es| > 0 {
      var s := SolveNormal(es[0].normalPart, dir1, im2, vel);
      assert s == Step(es[0].normalPart, vel);
      ZeroNormalPassIsInert(es[1..], dir1, im2, vel);
      assert es == [es[0]] + es[1..];
    }
  }

  lemma {:induction false} ZeroFrictionPassIsInert(es: seq<Element>, tangent: Vec2, im2: real, limit: real, vel: DeltaVel)
    requires forall i :: 0 <= i < |es| ==> es[i] == ZeroElement()
    ensures FrictionPass(es, tangent, im2, limit, vel) == Swept(es, vel)
    decreases |es|
  {
    if |es| > 0 {
      var s := SolveTangent(es[0].tangentPart, tangent, im2, limit * es[0].normalPart.impulse, vel);
      assert s == Step(es[0].tangentPart, vel);
      ZeroFrictionPassIsInert(es[1..], tangent, im2, limit, vel);
      assert es == [es[0]] + es[1..];
    }
  }

  /** A single contact with normal `(0, 1)`, unit inverse mass, no angular
      coupling, `rhs = -1` (approaching at unit speed), `r = 1` and a body at
      rest: one normal step commits the impulse 1 and pushes the body back by
      `(0, -1)`. */
  lemma SingleContactNormalStep(p: NormalPart, dir1: Vec2, im2: real, vel: DeltaVel)
    requires p.gcross2 == 0.0 && p.rhs == -1.0 && p.impulse == 0.0 && p.r == 1.0
    requires dir1.x == 0.0 && dir1.y == 1.0 && im2 == 1.0
    requires vel.linear.x == 0.0 && vel.linear.y == 0.0 && vel.angular == 0.0
    ensures SolveNormal(p, dir1, im2, vel).value.impulse == 1.0
    ensures SolveNormal(p, dir1, im2, vel).vel.linear == Vec2(0.0, -1.0)
  {
  }

  /** The same contact's friction step with coefficient 0.5, after that
      normal step: the tangent is `(-1, 0)` (the normal turned a quarter), the
      radius is `0.5 * 1`, and a tangential bias of 2 saturates the impulse at
      `-0.5` rather than reaching `-2`. */
  lemma SingleContactFrictionStep(p: TangentPart, tangent: Vec2, im2: real, limit: real, vel: DeltaVel)
    requires p.gcross2 == 0.0 && p.rhs == 2.0 && p.impulse == 0.0 && p.r == 1.0
    requires tangent.x == -1.0 && tangent.y == 0.0 && im2 == 1.0 && limit == 0.5 * 1.0
    requires vel.linear.x == 0.0 && vel.linear.y == -1.0 && vel.angular == 0.0
    ensures TangentCandidate(p, tangent, vel) == -2.0
    ensures SolveTangent(p, tangent, im2, limit, vel).value.impulse == -0.5
  {
    assert Dot2(tangent, vel.linear) == 0.0;
    assert RowVelocity(tangent, p.gcross2, p.rhs, vel) == 2.0;
  }

}
