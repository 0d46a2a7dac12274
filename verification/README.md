# Ground-contact impulse kernel of rapier, in Dafny

This project models the contact-impulse kernel in rapier's
`velocity_ground_constraint_element.rs`. The kernel solves the contacts
between one dynamic body and the immovable ground with projected
Gauss-Seidel steps. It has three value types:

- a **normal part** per contact point: one non-penetration row, projected
  onto `[0, +inf)` with `max(0, .)`;
- a **tangent part** per contact point: the friction rows. In 2D this is one
  axis, box-clamped to `[-limit, limit]`. In 3D it is two axes whose 2-vector
  impulse is capped to the disk of radius `limit`;
- an **element** (one contact point). Its `solve_group` sweeps an ordered
  array of elements. It threads one velocity accumulator (`DeltaVel`:
  linear plus angular) through a normal pass, then a friction pass. Each
  friction radius is the coefficient times that element's just-updated
  normal impulse.

One SIMD lane is modelled, and every scalar is an exact `real`. Each
`solve` is a pure function from the part and the incoming velocity to a
`Step(value, vel)`: the updated part and the velocity after it. A pass is
the left fold `Sweep.Run` over a `seq` of elements, with the update applied
in array order. `Sweep.RunLoop` is the same pass written as an imperative
loop that appends each updated element, with its invariant.

Modules:

- `Math`: vectors, dot and cross products, `Max`/`Clamp` (the lane-wise
  `simd_max`/`simd_clamp`), `Perp` (the 2D orthonormal vector) and a square
  root passed in as a parameter.
- `Sweep`: the generic Gauss-Seidel sweep.
- `Contact2D` and `Contact3D`: the kernel in the two configurations.
- `Contact2DLemmas` and `Contact3DLemmas`: properties that relate several
  calls. They include:
  - the Signorini and Coulomb conditions a step leaves when `r` is the
    row's exact inverse effective mass;
  - the impulse accounting of a sweep;
  - the disk cap's geometry;
  - strict array order;
  - zeroed elements being inert.
- `Planar`: the dimension equivalence. A 2D group, embedded in 3D with its
  rotation about `z` and an inert second friction axis, is solved by the 3D
  kernel exactly as the 2D kernel solves it.

Some constants come from code outside the kernel: `r`, `gcross2` and the
biases are computed when the constraint is built. That code is not part of
this model. Its values are inputs here. Where a lemma needs
`r * (im2 * |dir|^2 + gcross2^2) == 1`, this is written as a precondition.

Friction is not kept in the cone by every call. The cone holds after every
call that solves friction (`SolveGroup`, `Contact3DLemmas.SolveGroup3InDisk`).
A call that solves only the normal rows can shrink a normal impulse, and it
does not re-cap the tangent impulse left by the previous call.

## Model

| member | source | states |
|---|---|---|
| Contact2D.ZeroNormalPart | src/dynamics/solver/velocity_ground_constraint_element.rs:92-101 | a fresh normal row has zero Jacobian, biases, impulse and compliance |
| Contact2D.ZeroTangentPart | src/dynamics/solver/velocity_ground_constraint_element.rs:18-26 | a fresh 2D friction row has zero Jacobian, bias, impulse and compliance |
| Contact2D.ZeroElement | src/dynamics/solver/velocity_ground_constraint_element.rs:126-132 | a fresh element is a zero normal part and a zero tangent part |
| Contact3D.ZeroNormalPart3 | src/dynamics/solver/velocity_ground_constraint_element.rs:92-101 | the 3D fresh normal row: zero angular Jacobian vector and zero scalars |
| Contact3D.ZeroTangentPart3 | src/dynamics/solver/velocity_ground_constraint_element.rs:18-26 | the 3D fresh friction part: both axes' Jacobians, biases and compliances zero, and a zero 2-vector impulse |
| Contact3D.ZeroElement3 | src/dynamics/solver/velocity_ground_constraint_element.rs:126-132 | a fresh 3D element is built from the two zero parts |
| Math.Max | src/dynamics/solver/velocity_ground_constraint_element.rs:110 | `simd_max` is an upper bound of both arguments and equals one of them |
| Math.Clamp | src/dynamics/solver/velocity_ground_constraint_element.rs:44 | `simd_clamp` lands in `[lo, hi]`, keeps a value already inside, and sends a value beyond either end to that end |
| Math.Perp | src/dynamics/solver/velocity_ground_constraint_element.rs:161 | the 2D friction direction is orthogonal to the normal and has its length |
| Contact2D.SolveNormal | src/dynamics/solver/velocity_ground_constraint_element.rs:104-116 | the new normal impulse is never negative; it is the unprojected candidate when that is non-negative and 0 otherwise; only the impulse field changes; the velocity moves by `dir1 * (-im2 * dlambda)` linearly and `gcross2 * dlambda` angularly |
| Contact2DLemmas.NormalComplementarity | src/dynamics/solver/velocity_ground_constraint_element.rs:108-115 | with `r` the exact inverse effective mass, a normal step leaves a complementary pair: impulse >= 0, separating row velocity >= 0, and their product 0 |
| Contact2DLemmas.NormalImpulseIsProjection | src/dynamics/solver/velocity_ground_constraint_element.rs:110 | the committed normal impulse is the point of `[0, +inf)` nearest to the candidate |
| Contact2D.SolveTangent | src/dynamics/solver/velocity_ground_constraint_element.rs:39-50 | with `limit >= 0` the new impulse lies in `[-limit, limit]`; it is the candidate when that lies inside and the bound it overshoots otherwise; only the impulse changes; the velocity moves by `tangent * (-im2 * dlambda)` and `gcross2 * dlambda` |
| Contact2DLemmas.TangentCoulomb | src/dynamics/solver/velocity_ground_constraint_element.rs:41-49 | with `r` the exact inverse effective mass, a friction step sticks (zero tangential row velocity) while the impulse is strictly inside the cone, and any sliding left is opposed by an impulse saturated on the opposite bound |
| Contact2DLemmas.TangentImpulseIsProjection | src/dynamics/solver/velocity_ground_constraint_element.rs:44 | the committed 2D friction impulse is the point of `[-limit, limit]` nearest to the candidate |
| Contact3D.SolveNormal3 | src/dynamics/solver/velocity_ground_constraint_element.rs:104-116 | the 3D normal step: a non-negative impulse, equal to the candidate when that is non-negative and 0 otherwise; only the impulse changes; the velocity moves along `dir1` and the angular Jacobian vector |
| Contact3D.CapMagnitude | src/dynamics/solver/velocity_ground_constraint_element.rs:69 | `simd_cap_magnitude` with the square root as a parameter; its contract is stated by `Contact3D.CapBounds` |
| Contact3D.CapBounds | src/dynamics/solver/velocity_ground_constraint_element.rs:69 | `simd_cap_magnitude` lands in the disk of radius `limit` (squared norms), returns a vector already inside unchanged, and puts any other exactly on the rim |
| Contact3DLemmas.CapIsShrinking | src/dynamics/solver/velocity_ground_constraint_element.rs:69 | for a non-negative limit the cap is the input scaled by a factor in `[0, 1]`: same direction, never longer |
| Contact3DLemmas.CapIdempotent | src/dynamics/solver/velocity_ground_constraint_element.rs:69 | capping twice is capping once |
| Contact3DLemmas.CapOfZero | src/dynamics/solver/velocity_ground_constraint_element.rs:69 | the zero impulse is its own cap, whatever the limit |
| Contact3DLemmas.CapReducesToClamp | src/dynamics/solver/velocity_ground_constraint_element.rs:69 | on a vector with no second component the disk cap is the 2D box clamp of the first component |
| Contact3D.SolveTangent3 | src/dynamics/solver/velocity_ground_constraint_element.rs:52-78 | only the 2-vector impulse changes, and the velocity takes the corrections of both tangent axes, summed, for the impulse change |
| Contact3DLemmas.TangentStep3Disk | src/dynamics/solver/velocity_ground_constraint_element.rs:61-73 | the 3D friction impulse has squared norm at most `limit^2`; it is the per-axis candidate when that is inside the disk, and on the rim otherwise |
| Contact2D.NormalUpdate | src/dynamics/solver/velocity_ground_constraint_element.rs:151-153 | an element's normal update commits `max(candidate, 0)`, changes nothing but the normal impulse and the velocity, and moves the velocity by the impulse change along the normal |
| Contact3D.NormalUpdate3 | src/dynamics/solver/velocity_ground_constraint_element.rs:151-153 | the 3D normal update commits `max(candidate, 0)`, changes nothing but the normal impulse, and moves the linear and angular velocity by the impulse change along the normal and its angular Jacobian |
| Contact2D.FrictionUpdate | src/dynamics/solver/velocity_ground_constraint_element.rs:163-166 | an element's friction update clamps the candidate to the cone of radius coefficient times its own current normal impulse, lands in that cone, and changes nothing but the tangent impulse and the velocity, which moves by the impulse change along the tangent |
| Contact3D.FrictionUpdate3 | src/dynamics/solver/velocity_ground_constraint_element.rs:163-166 | an element's friction update caps the candidate to the radius coefficient times its own current normal impulse, and changes nothing but the tangent impulse and the velocity |
| Contact3DLemmas.TangentsOrthogonalToNormal | src/dynamics/solver/velocity_ground_constraint_element.rs:159 | the tangent basis `tangent1`, `dir1 x tangent1` is pairwise orthogonal and orthogonal to the normal when `tangent1` is orthogonal to the normal |
| Contact3DLemmas.TangentsOrthonormal | src/dynamics/solver/velocity_ground_constraint_element.rs:159 | with a unit normal and a unit seed tangent orthogonal to it, the second friction direction `dir1 x tangent1` has unit length (through Lagrange's identity, `Math.CrossNormSq`), so the friction frame is orthonormal |
| Sweep.RunInOrder | src/dynamics/solver/velocity_ground_constraint_element.rs:151-153 | element `i` of a sweep is updated against exactly the velocity the sweep of the elements before it left |
| Sweep.RunAppend | src/dynamics/solver/velocity_ground_constraint_element.rs:151-153 | sweeping `a + b` is sweeping `a`, then `b` from the velocity `a` left |
| Sweep.Run | src/dynamics/solver/velocity_ground_constraint_element.rs:151-167 | each `iter_mut` sweep keeps the element count; what a sweep computes element by element is stated by `Sweep.RunInOrder` and `Sweep.RunAppend` |
| Sweep.RunLoop | src/dynamics/solver/velocity_ground_constraint_element.rs:163-167 | an imperative loop that appends each updated element computes the same elements and final velocity as the sweep |
| Sweep.RunCommutes | src/dynamics/solver/velocity_ground_constraint_element.rs:151-153 | a sweep commutes with a translation of elements and velocities whenever every single update does |
| Contact2D.NormalPass | src/dynamics/solver/velocity_ground_constraint_element.rs:150-154 | the penetration pass keeps the element count, leaves every normal impulse non-negative and changes nothing but normal impulses |
| Contact2D.FrictionPass | src/dynamics/solver/velocity_ground_constraint_element.rs:157-168 | the friction pass keeps the count, changes only tangent impulses, and puts each in the cone its own normal impulse defines |
| Contact2D.NormalThenFriction | src/dynamics/solver/velocity_ground_constraint_element.rs:149-168 | after a penetration pass then a friction pass only impulses have changed, the final normal impulses are non-negative, and every tangent impulse lies in the cone of its element's final normal impulse, inside `[-limit * n, limit * n]` when the coefficient is non-negative |
| Contact2D.SolveGroup | src/dynamics/solver/velocity_ground_constraint_element.rs:135-169 | the count never changes; only impulses change; a false flag leaves its parts untouched; with both flags false nothing changes, velocity included; with friction solved every tangent impulse ends in the cone of its final normal impulse |
| Contact2DLemmas.SolveGroupInOrder | src/dynamics/solver/velocity_ground_constraint_element.rs:149-168 | with both passes, element `i`'s normal part is solved after its predecessors' normal parts, and its tangent part after all normal parts and its predecessors' tangent parts, with radius coefficient times its just-updated normal impulse |
| Contact2DLemmas.NormalUpdateKicks | src/dynamics/solver/velocity_ground_constraint_element.rs:111-115 | one normal update moves the velocity along the normal by the change of its impulse and of its angular moment |
| Contact2DLemmas.FrictionUpdateKicks | src/dynamics/solver/velocity_ground_constraint_element.rs:45-49 | one friction update moves the velocity along the tangent by the change of its impulse and of its angular moment |
| Contact2DLemmas.NormalPassAccounting | src/dynamics/solver/velocity_ground_constraint_element.rs:150-154 | the penetration pass moves the velocity by exactly the change of the group's total normal impulse (linear) and total normal moment (angular) |
| Contact2DLemmas.FrictionPassAccounting | src/dynamics/solver/velocity_ground_constraint_element.rs:163-167 | the friction pass moves the velocity by exactly the change of the group's total tangent impulse and moment |
| Contact2DLemmas.SolveGroupAccounting | src/dynamics/solver/velocity_ground_constraint_element.rs:149-168 | for every flag combination, the final velocity is the incoming one kicked along the normal by the total normal-impulse change, then along the tangent by the total tangent-impulse change |
| Contact2DLemmas.SingleContactNormalStep | src/dynamics/solver/velocity_ground_constraint_element.rs:108-115 | a single approaching contact (normal `(0, 1)`, unit inverse mass, no angular coupling, `rhs = -1`, `r = 1`, body at rest) gets the normal impulse 1 and leaves the linear velocity `(0, -1)` |
| Contact2DLemmas.SingleContactFrictionStep | src/dynamics/solver/velocity_ground_constraint_element.rs:41-46 | that contact's friction step along the tangent `(-1, 0)`, with radius `0.5 * 1` and tangential bias 2, has the unprojected candidate `-2` and saturates at `-0.5` |
| Contact2DLemmas.ZeroGroupIsInert | src/dynamics/solver/velocity_ground_constraint_element.rs:135-169 | a group of `zero()` elements is a fixed point of `solve_group`, velocity included, for every flag combination |
| Contact2DLemmas.ZeroNormalPassIsInert | src/dynamics/solver/velocity_ground_constraint_element.rs:150-154 | the penetration pass over `zero()` elements changes nothing |
| Contact2DLemmas.ZeroFrictionPassIsInert | src/dynamics/solver/velocity_ground_constraint_element.rs:157-168 | the friction pass over `zero()` elements changes nothing |
| Contact3D.NormalPass3 | src/dynamics/solver/velocity_ground_constraint_element.rs:150-154 | the 3D penetration pass keeps the count, leaves every normal impulse non-negative and changes nothing but normal impulses |
| Contact3D.FrictionPass3 | src/dynamics/solver/velocity_ground_constraint_element.rs:157-168 | the 3D friction pass keeps the count and changes nothing but tangent impulses |
| Contact3D.SolveGroup3 | src/dynamics/solver/velocity_ground_constraint_element.rs:135-169 | the 3D `solve_group` keeps the count and changes only impulses; a false flag leaves its parts untouched; both flags false change nothing |
| Contact3DLemmas.FrictionPass3InDisk | src/dynamics/solver/velocity_ground_constraint_element.rs:163-166 | every tangent impulse the 3D friction pass leaves lies in the disk its element's normal impulse defines |
| Contact3DLemmas.SolveGroup3InDisk | src/dynamics/solver/velocity_ground_constraint_element.rs:157-168 | with friction solved, every 3D tangent impulse ends in the disk of coefficient times its final normal impulse |
| Contact3DLemmas.SolveGroup3InDiskBothSolved | src/dynamics/solver/velocity_ground_constraint_element.rs:149-168 | with both rows solved and a non-negative coefficient, every final tangent impulse has squared norm at most `(limit * n)^2` for its final normal impulse `n`, with no condition on the radius |
| Contact3DLemmas.NormalPass3At | src/dynamics/solver/velocity_ground_constraint_element.rs:151-153 | element `i` of the 3D penetration pass is its own projected step, against the velocity its predecessors left |
| Contact3DLemmas.FrictionPass3At | src/dynamics/solver/velocity_ground_constraint_element.rs:163-166 | element `i` of the 3D friction pass is its own capped step, with radius coefficient times its own normal impulse, against the velocity its predecessors left |
| Contact3DLemmas.SolveGroup3NormalInOrder | src/dynamics/solver/velocity_ground_constraint_element.rs:150-154 | with both 3D passes, element `i`'s normal part is solved against the velocity its predecessors' normal updates left |
| Contact3DLemmas.SolveGroup3TangentInOrder | src/dynamics/solver/velocity_ground_constraint_element.rs:157-168 | with both 3D passes, element `i` gets its friction update after every normal update, on the element the normal pass produced, against the velocity its predecessors' friction updates left |
| Contact3DLemmas.ZeroGroup3IsInert | src/dynamics/solver/velocity_ground_constraint_element.rs:135-169 | a group of 3D `zero()` elements is a fixed point of `solve_group` for every flag combination |
| Contact3DLemmas.ZeroNormalPass3IsInert | src/dynamics/solver/velocity_ground_constraint_element.rs:150-154 | the 3D penetration pass over `zero()` elements changes nothing |
| Contact3DLemmas.ZeroFrictionPass3IsInert | src/dynamics/solver/velocity_ground_constraint_element.rs:157-168 | the 3D friction pass over `zero()` elements changes nothing |
| Contact3DLemmas.ZeroTangentStep3 | src/dynamics/solver/velocity_ground_constraint_element.rs:61-77 | a fresh 3D friction part's step applies no impulse, whatever the radius |
| Planar.NormalStep3ReducesTo2D | src/dynamics/solver/velocity_ground_constraint_element.rs:104-116 | on planar data the 3D normal step is the embedding of the 2D step, impulse and velocity alike |
| Planar.TangentStep3ReducesTo2D | src/dynamics/solver/velocity_ground_constraint_element.rs:39-78 | with an inert second axis and a non-negative radius, the 3D disk step is the embedding of the 2D box step, whatever the second axis is |
| Planar.FrictionUpdate3ReducesTo2D | src/dynamics/solver/velocity_ground_constraint_element.rs:163-166 | one embedded friction update, with a non-negative radius, is the embedding of the 2D update |
| Planar.NormalPass3ReducesTo2D | src/dynamics/solver/velocity_ground_constraint_element.rs:150-154 | the 3D penetration pass on an embedded group is the embedding of the 2D pass |
| Planar.FrictionPass3ReducesTo2D | src/dynamics/solver/velocity_ground_constraint_element.rs:157-168 | the 3D friction pass on an embedded group with non-negative radii is the embedding of the 2D pass |
| Planar.SolveGroup3ReducesTo2D | src/dynamics/solver/velocity_ground_constraint_element.rs:135-169 | with the seed tangent the embedded orthonormal vector of the normal, the 3D `solve_group` on a planar group computes exactly what the 2D one does, for every flag combination |

## Left out

- The floating-point exception guard around the cap (lines 66-68) changes
  the hardware floating-point environment. It has no meaning over `real`.
- SIMD lanes and the `SimdRealField`/`WDot`/`WBasis` trait machinery are not
  modelled. One lane is modelled; the algorithm is the same in every lane.
- Float rounding, overflow and NaN are not modelled; every scalar is an
  exact `real`.
- Contact3D.CapMagnitude: a zero vector is returned unchanged whatever the
  limit. With a negative limit the source's `limit / norm` divides by zero
  and yields NaN; over `real` there is no NaN to return.
- Math.Clamp: when `lo > hi` (a negative friction radius), the model checks
  the lower bound first: it returns `lo` for inputs below `lo` and `hi` for
  all others. The lane-wise clamp of the SIMD library is not part of this
  model, so this case follows one reading of it. The in-range and
  upper-bound clauses of its contract are stated for `lo <= hi`.
- The square root is not defined in the model. `Contact3D.CapMagnitude`
  receives it as a function parameter `sqrt`. The lemmas about the cap
  (`CapBounds`, `TangentStep3Disk`, `CapIsShrinking` and the others) take
  the precondition `IsSqrt(sqrt)`, which says `sqrt` is the non-negative
  square root.
- `orthonormal_vector` and `cross` live in the utility module and the linear
  algebra library, which are not part of this model. `Perp` is the quarter
  turn `(-y, x)`. `Cross` is the textbook cross product.
  `Contact3DLemmas.TangentsOrthogonalToNormal` takes the orthogonality of the
  seed tangent as a precondition.
- The `wasm32` build gating of `zero()` is a build concern and is not
  modelled.
- Convergence or monotonicity across solver iterations is not claimed; the
  code promises neither.
- `rhs_wo_bias` is carried as an inert field, because this kernel never
  reads it.
- Contact2DLemmas.NormalComplementarity and Contact2DLemmas.TangentCoulomb
  require `r` to be the exact inverse effective mass of the row. That
  relation is set up when the constraint is built, which is not part of
  this model.
- Contact3D.SolveGroup3: the disk containment after a friction pass is
  stated by the lemma `Contact3DLemmas.SolveGroup3InDisk`, not in the
  function's own contract.
- The velocity accounting (the `...Accounting` lemmas) is stated for the 2D
  kernel only. In 3D the corrections of two tangent axes mix in the
  accumulator. The planar lemmas relate the 3D kernel to the 2D one on
  planar data instead.
- Planar.FrictionPass3ReducesTo2D and Planar.SolveGroup3ReducesTo2D require
  non-negative friction radii. When a radius is negative, the 2D box clamp
  and the 3D disk cap disagree, and so do the two kernels.
- Planar.TangentStep3ReducesTo2D and Planar.FrictionUpdate3ReducesTo2D
  require a non-negative radius, for the same reason.
