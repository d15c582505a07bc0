# bevy_mod_wanderlust, the per-tick controller logic in Dafny

This project models the decision logic of wanderlust's floating character
controller. Each physics tick the controller does the following:

- finds the ground under the body and classifies it by slope;
- remembers the last viable ground;
- decides whether the body is grounded;
- computes a movement force towards a goal velocity;
- computes a one-sided spring force that keeps the body floating above the ground;
- computes gravity;
- runs a jump state machine: coyote time, jump buffering, extra airborne jumps, and suspending the ground check after a jump;
- sums everything into the body's force and a reaction force on the ground.

Scalars are reals and vectors are triples of reals. Each system is a pure
function from the state it reads to the state it writes. Engine queries enter
as inputs: shape and ray casts, the angle between two vectors, a body's
velocity and centre of mass, and whether the body touches anything. So does
the square root: every operation that needs one takes a function `sqrt` and
the laws it obeys (`Vectors.SqrtLaws`). From those laws the model derives
`sqrt(x * x) == |x|` (`Vectors.SqrtOfSquareAbs`).

The modules follow the source files:

| module | file | models |
|---|---|---|
| `Vectors`, `Wrappers`, `Physics` | — | reals and vectors, `clamp_length_max`, `Option`, mass, velocity and force records |
| `Cap` | `cap.dfy` | `src/cap.rs` |
| `Springs` | `spring.dfy` | `src/spring.rs` |
| `Movements` | `movement.dfy` | `movement_force` in `src/controller/movement.rs` |
| `Jumping` | `jump.dfy` | `jump_force` in `src/controller/movement.rs` |
| `GroundCache` | `ground_cache.dfy` | `Ground`, `ViableGround` and `GroundCast` in `src/controller/ground.rs` |
| `GroundDetection` | `ground_detection.dfy` | `find_ground` and `determine_groundedness` |
| `RingSampling` | `ring_sampling.dfy` | the ring-sample normal refinement in `ground_cast` |
| `Floating` | `float.dfy` | `float_force` in `src/controller/orientation.rs` |
| `Gravitation` | `gravity.dfy` | `src/controller/gravity.rs` |
| `Accumulation` | `forces.dfy` | `accumulate_forces` in `src/controller/mod.rs` |
| `Pipeline` | `pipeline.dfy` | how the systems meet in the order set in `src/plugins.rs` |

The source mixes versions of its own types:

- `movement_force` and `accumulate_forces` read a `ground.cast` tuple.
- `float_force` reads `point_velocity.linvel` on a vector.
- `damp_coefficient` is called with a scalar mass.

The model uses the `Ground` and `GroundCast` types of `ground.rs` and takes the
following as plain inputs:

- the ground's velocity, for movement;
- the contact point in the ground's frame, for accumulation;
- the float spring's damping coefficient.

Four places where the code and its documentation disagree. The model follows
the code in each:

- **`signed_min`.** Its doc comment promises the range `[min, inf]` for a
  positive cap. The code returns `min(cap, x)`, the same as `signed_max`.
- **Spending an extra jump.** An airborne jump is described as spending a
  charge. The code spends one only when the coyote timer is empty.
- **Forces dropped by a jump.** A firing jump is described as dropping this
  tick's float and gravity contributions. The code drops only the float force.
- **Sustained and stopping jump forces.** These are computed into a local
  `jump` that is never written out. Only their effect on the jump timer
  remains.

One place where the code is evidently wrong is logged under Findings. It is
modelled both as written and corrected. The corrected `Jumping.JumpForce` is
the one the rest of the model uses.

## Model

| member | source | states |
|---|---|---|
| Cap.SignedMax | src/cap.rs:18-28 | a zero cap returns the cap; a positive cap is an upper bound (values at or below it are kept, larger ones become the cap); a negative cap is a lower bound; the result is always in the cap's range |
| Cap.SignedMin | src/cap.rs:29-39 | a zero cap returns the value untouched; otherwise the same bounds as `signed_max`, as the code (not the doc comment) computes |
| Cap.SignedMaxFixedPoint | src/cap.rs:18-28 | capping leaves a value unchanged exactly when it is already in the cap's range |
| Cap.SignedMaxIdempotent | src/cap.rs:18-28 | capping twice is capping once |
| Cap.SignedMinAgreesWithMax | src/cap.rs:29-39 | for a non-zero cap `signed_min` and `signed_max` coincide |
| Cap.SignedMinIdempotent | src/cap.rs:29-39 | `signed_min` twice is `signed_min` once |
| Cap.SignedMaxVec | src/cap.rs:85-92 | every component ends in its cap's range, and the vector is unchanged exactly when all components already were |
| Cap.SignedMinVec | src/cap.rs:93-99 | a component with a zero cap is untouched, every other one ends in its cap's range |
| Cap.SignedMaxVecComponentwise | src/cap.rs:85-92 | each output component depends only on the same input component |
| Cap.SignedMinVecComponentwise | src/cap.rs:93-99 | each output component depends only on the same input component |
| Cap.SignedMinVecAgreesWithMax | src/cap.rs:85-99 | with no zero cap component the two vector caps coincide |
| Cap.SignedMaxVecIdempotent | src/cap.rs:85-92 | the vector cap is idempotent |
| Springs.Strength.Get | src/spring.rs:23-29 | `Raw` is the raw value, `Scaled` the raw value times mass, and `Instant` times the step gives raw times mass (a non-zero step is required) |
| Springs.InstantIsScaledPerTick | src/spring.rs:23-29 | an `Instant` strength is the `Scaled` strength spread over one step |
| Springs.RawIgnoresMassAndTime | src/spring.rs:23-29 | a `Raw` strength is the same for every mass and step |
| Springs.SpringStrength.Get | src/spring.rs:44-49 | a stiffness coefficient gives the same stiffness on every axis, whatever the mass |
| Springs.AngularFrequencyStiffness | src/spring.rs:44-49 | angular frequency `w` gives the stiffness `mass * w²` per axis |
| Springs.AngularFrequencySignFree | src/spring.rs:44-49 | the stiffness does not depend on the sign of the angular frequency |
| Springs.RootSquare | src/spring.rs:80-82 | one axis of the critical point is non-negative and squares to four times inertia times stiffness when that product is non-negative |
| Springs.CriticalPointSquares | src/spring.rs:79-83 | the critical damping point is non-negative on every axis and its square is `4 * inertia * stiffness` wherever that product is non-negative |
| Springs.CriticalDampingOfAngularFrequency | src/spring.rs:79-83 | for angular frequency `w` and non-negative inertia the critical damping point is `2 * inertia * abs(w)` |
| Springs.Spring.DampCoefficient | src/spring.rs:87-89 | zero damping gives a zero coefficient, and a non-negative damping ratio a non-negative coefficient on every axis |
| Springs.DefaultDampCoefficient | src/spring.rs:68-89 | the default spring is angular frequency 1 with damping 0.25, and its damping coefficient is half the inertia |
| Vectors.ClampLengthMax | src/controller/movement.rs:89-93 | the result is no longer than the bound, a short enough vector is kept, a longer one is rescaled to exactly the bound along its own line without reversing it |
| Movements.LerpFactor | src/controller/movement.rs:79-86 | the easing factor is `acceleration * dt` below one and exactly one from there on, so it is at most one, and it is non-negative for non-negative acceleration and step |
| Movements.InputGoal | src/controller/movement.rs:73-81 | the input's goal velocity is never faster than the maximum speed, is the input at full speed for an input inside the unit ball, and is zero for no input; a longer input (a keyboard diagonal) gives exactly the maximum speed along the input's own direction |
| Movements.ScaledUnitAlong | src/controller/movement.rs:73-81 | a unit vector along the input, scaled by a non-negative speed, has that speed and still points along the input |
| Movements.Target | src/controller/movement.rs:81-85 | the target is the input's goal velocity on top of the ground's velocity (none without ground) |
| Movements.GoalVelocity | src/controller/movement.rs:83-87 | the goal moves from the last goal along the line to the target; with a non-negative rate it heads towards the target and is never further from it than the last goal was; it reaches the target when `acceleration * dt >= 1`, stays put for a zero factor, and stays at a target already reached |
| Movements.LerpTowards | src/controller/movement.rs:83-87 | a lerp by a factor in [0, 1] heads towards its end point and never overshoots it |
| Movements.MovementForce | src/controller/movement.rs:72-98 | only the remembered goal changes, and it becomes this tick's goal; over one step the force delivers the clamped velocity change, scaled per axis |
| Movements.MovementForceUnclamped | src/controller/movement.rs:89-97 | a velocity change within the maximum acceleration force is delivered in full |
| Movements.MovementForceAxisOff | src/controller/movement.rs:97 | a zero force-scale component gives a zero force on that axis |
| Movements.MovementForceAtGoal | src/controller/movement.rs:89-97 | a body already moving at the goal velocity gets no force |
| Movements.MovementForceBounded | src/controller/movement.rs:91-97 | with a unit force scale the impulse of one step is no longer than the maximum acceleration force |
| Movements.GoalSettles | src/controller/movement.rs:83-95 | when `acceleration * dt >= 1` the remembered goal becomes the target and stays there on the next tick while input and ground are unchanged |
| Movements.GoalAtTargetStays | src/controller/movement.rs:83-87 | a remembered goal already at the target is kept at any rate |
| Movements.TargetIgnoresGoal | src/controller/movement.rs:73-82 | the target depends on the settings and inputs, never on the remembered goal |
| Movements.NoInputNoForce | src/controller/movement.rs:72-98 | at rest, with no input, no ground and no remembered goal, the force is zero and the settings are unchanged |
| Movements.NoInputKeepsGoal | src/controller/movement.rs:81-87 | with no input, no ground and a zero last goal the goal stays zero |
| Jumping.LaunchForce | src/controller/movement.rs:275-278 | the launch cancels the velocity along up and adds the initial force along up; with up = +y or -y only the y component is set; at rest it is the initial force along up |
| Jumping.JumpForce | src/controller/movement.rs:200-284 | settings are kept and the input is remembered for edge detection; a firing jump launches, drops the float force, arms the ground-check skip, restarts the jump timer and empties buffer and coyote timers; otherwise no force and float force and skip timer pass through; charges are refilled on the ground and spent only by an airborne jump after the coyote time; buffer, coyote and jump timers without a jump |
| Jumping.JumpForceAsWritten | src/controller/movement.rs:226-282 | the step as written agrees with `JumpForce` everywhere except the coyote timer, which is the duration on the ground and runs down in the air, jump or no jump |
| Jumping.DefaultJumpValid | src/controller/movement.rs:130-190 | the default jump state is valid: non-negative timers and durations, coyote duration 0.16, no extra jumps |
| Jumping.JumpForcePreservesValid | src/controller/movement.rs:228-282 | with a non-negative step the corrected step keeps the timers non-negative and the remaining charges at most the extra jumps |
| Jumping.JumpForceAsWrittenPreservesValid | src/controller/movement.rs:228-282 | the step exactly as the source writes it keeps the same invariant: timers non-negative, remaining charges at most the extra jumps, skip timer non-negative |
| Jumping.StepPreservesValid | src/controller/movement.rs:228-282 | either step, corrected or as written, keeps the state valid and the settings unchanged |
| Jumping.ChargeSpentOnlyByAirJump | src/controller/movement.rs:263-270 | in the air the remaining charges drop exactly when a jump fires after the coyote time, and then at least one was left, so the unsigned decrement never wraps |
| Jumping.HeldButtonDoesNotRepeat | src/controller/movement.rs:229-282 | holding the button on the tick after a jump does not fire another |
| Jumping.RunJumpPreservesValid | src/controller/movement.rs:200-284 | any run of ticks with non-negative steps, of the step as written or of the corrected one, keeps the state valid and the settings unchanged |
| Jumping.DriftTick | src/controller/movement.rs:233-270 | an airborne tick with the button up and nothing pending fires nothing, runs the coyote and buffer timers down by its step and keeps the charges |
| Jumping.DriftState | src/controller/movement.rs:233-270 | after any run of such ticks the coyote and buffer timers are down by the total time (floored at zero) and the charges are unchanged |
| Jumping.DriftRun | src/controller/movement.rs:233-270 | no tick of such a run fires a jump, with either step |
| Jumping.DriftCompose | src/controller/movement.rs:233-241 | two drifts in a row are one drift for the summed time: the timers, floored at zero, run down by the total |
| Jumping.PressBuffered | src/controller/movement.rs:233-270 | an airborne press with no coyote time and no charge does not fire, is buffered for the full buffer duration and leaves nothing else to fire in the air |
| Jumping.LandingFires | src/controller/movement.rs:263-267 | landing with a press still buffered fires it |
| Jumping.BufferedJumpFiresOnLanding | src/controller/movement.rs:233-267 | an airborne press with nothing to jump with does not fire but is buffered; after any run of airborne ticks shorter in total than the buffer duration, none of which fires, landing fires the jump |
| Jumping.StandTick | src/controller/movement.rs:230-282 | standing with the button up refills the coyote time and the charges and fires nothing pending |
| Jumping.CoyotePress | src/controller/movement.rs:263-279 | a fresh airborne press with more coyote time left than its step fires and spends no extra jump |
| Jumping.CoyoteJump | src/controller/movement.rs:230-270 | after standing, any run of airborne ticks with the button up followed by a press, the whole time in the air (press tick included) below the coyote duration, fires and spends no extra jump, with either step |
| Jumping.ExtraJump | src/controller/movement.rs:263-270 | after the coyote time an airborne press fires exactly when a charge is left, and then spends one |
| Jumping.GroundPressTick | src/controller/movement.rs:228-282 | a fresh press on the ground fires, refills the charges, starts the jump timer and empties buffer and coyote timers |
| Jumping.GroundPressLaunches | src/controller/movement.rs:272-279 | that jump launches with the initial force in both versions of the step |
| Jumping.AirReleaseTick | src/controller/movement.rs:233-250 | releasing in the air with nothing buffered ends the active jump, fires nothing and runs the coyote timer down |
| Jumping.AirPressTick | src/controller/movement.rs:263-279 | a fresh airborne press after the coyote time fires exactly when a charge is left, spends it, and gives no force otherwise |
| Jumping.OneChargeTick1 | src/controller/movement.rs:228-282 | with one extra jump, the ground jump spends nothing |
| Jumping.OneChargeTick2 | src/controller/movement.rs:233-250 | releasing in the air then returns to the settings' initial state |
| Jumping.OneChargeTick3 | src/controller/movement.rs:263-279 | the airborne press spends the charge |
| Jumping.OneChargeTick4 | src/controller/movement.rs:263-270 | a third press before landing fails |
| Jumping.OneChargeScenario | src/controller/movement.rs:228-282 | with one extra jump: ground jump free, the next airborne jump spends the charge, a third before landing fails |
| Jumping.GroundPressTickAsWritten | src/controller/movement.rs:230-274 | as written, a ground jump leaves the coyote timer full |
| Jumping.CoyotePressTickAsWritten | src/controller/movement.rs:263-279 | as written, an airborne press within the remaining coyote time launches and spends no charge |
| Jumping.AsWrittenTick1 | src/controller/movement.rs:228-282 | as written, a default ground jump launches with (0, 1000, 0) and keeps the full 0.16 s of coyote time, whatever the step |
| Jumping.AsWrittenTick2 | src/controller/movement.rs:233-250 | as written, releasing in the air next for a step `dt` of at most 0.16 s leaves `0.16 - dt` of coyote time |
| Jumping.AsWrittenTick3 | src/controller/movement.rs:263-279 | as written, pressing again with more than one step of coyote time left launches a full (0, 1000, 0) jump and leaves the extra jumps at none |
| Jumping.CoyoteRefire | src/controller/movement.rs:230-274 | as written, for any step shorter than 80 ms, a default controller (no extra jumps) pressing again two ticks after a ground jump launches a second full jump and spends nothing |
| Jumping.CorrectedTick1 | src/controller/movement.rs:228-282 | corrected, the ground jump empties the coyote timer |
| Jumping.CorrectedTick2 | src/controller/movement.rs:233-250 | corrected, releasing in the air returns to the default state |
| Jumping.CoyoteRefireRefused | src/controller/movement.rs:263-279 | corrected, the same presses give no second jump, for any positive step |
| GroundCache.ViableGround.IntoLast | src/controller/ground.rs:110-118 | archiving never leaves a standing ground, keeps the last ground, and leaves an archived or empty state as it is |
| GroundCache.ViableGround.LastGround | src/controller/ground.rs:120-126 | there is a last ground exactly when the state is not empty, and it is the held ground |
| GroundCache.ViableGround.Update | src/controller/ground.rs:96-108 | the state stands on the new ground exactly when it is viable (or it was standing and some ground was hit); the last ground is the new viable one or the old one; a missed cast archives; a non-viable hit changes nothing |
| GroundCache.GroundCast.Update | src/controller/ground.rs:130-134 | the current ground becomes the new cast, the memory is updated, a viable cast makes the controller grounded and a missed one makes it not grounded |
| GroundCache.IntoLastIdempotent | src/controller/ground.rs:110-118 | archiving twice is archiving once |
| GroundCache.UpdateNoneIsIntoLast | src/controller/ground.rs:96-108 | a missed cast is exactly an archive |
| GroundCache.UpdateKeepsOnlyViable | src/controller/ground.rs:96-108 | the memory never takes in a non-viable ground |
| GroundCache.UpdateNeverForgets | src/controller/ground.rs:96-126 | once there is a last ground there always is one |
| GroundCache.GroundedAfterUpdate | src/controller/ground.rs:129-142 | after an update the controller is grounded exactly when a ground was hit and it is viable or the controller already stood on ground |
| GroundDetection.DefaultGroundCaster | src/controller/ground.rs:38-51 | default caster: no skipping, no override, zero origin, unit length, 45 and 60 degree angles |
| GroundDetection.DefaultAnglesOrdered | src/controller/ground.rs:47-48 | by default slipping starts at a gentler slope than losing the ground |
| GroundDetection.Classify | src/controller/ground.rs:238-245 | a zero normal is neither viable nor stable; otherwise viable exactly when the angle is at most the maximum ground angle, and stable exactly when also at most the unstable angle |
| GroundDetection.StableIsViable | src/controller/ground.rs:238-245 | stability implies viability |
| GroundDetection.ClassifyMonotone | src/controller/ground.rs:238-245 | raising the maximum angle never loses viability; below the unstable angle viability and stability coincide |
| GroundDetection.PointVelocity | src/controller/ground.rs:235-236 | the contact point moves with the body's linear velocity when it does not spin or the point is the centre of mass; the extra velocity is orthogonal to the spin axis and to the lever arm |
| GroundDetection.MakeGround | src/controller/ground.rs:214-258 | the ground record carries the hit's entity, cast and velocities, its classification, and a point velocity equal to the linear velocity when the body does not spin |
| GroundDetection.Countdown | src/controller/ground.rs:210 | the skip timer never goes below zero, never grows with a non-negative step, and reaches zero exactly when the step covers it |
| GroundDetection.FindGround | src/controller/ground.rs:179-266 | a zero frame or a missing collider changes nothing; only a real cast sets the current ground; a cast stores the classified hit; a skip stores no ground and counts down or resets on contact; only the caster's timer changes, never below zero and never up |
| GroundDetection.CountdownSteps | src/controller/ground.rs:209-212 | `n` skipping ticks take `n * dt` off the timer, stopping at zero |
| GroundDetection.SkipEnds | src/controller/ground.rs:185-212 | once `n * dt` covers the timer, casting resumes unless overridden |
| GroundDetection.GroundedBand | src/controller/ground.rs:294-303 | a bound stays at its offset until the up-velocity passes it, and past it becomes the offset plus the up-velocity (`max_offset + v` above, `min_offset + v` below); each bound moves by at most the up-velocity, and with offsets on either side of zero the band only widens and contains the up-velocity |
| GroundDetection.Groundedness | src/controller/ground.rs:280-304 | grounded only on a current viable ground, and then exactly when the displacement lies in the velocity-widened band |
| GroundDetection.BandOnlyWidens | src/controller/ground.rs:284-304 | with offsets around zero, a body grounded at rest along up is grounded at any up-velocity |
| GroundDetection.GroundedAtFloatDistance | src/controller/ground.rs:284-304 | at the float distance, at rest along up, the body is grounded |
| GroundDetection.GroundednessIgnoresMemory | src/controller/ground.rs:280-283 | groundedness depends only on the current ground, not on the remembered one |
| RingSampling.Pick | src/controller/ground.rs:412-422 | a usable sample replaces the selection when there is none or it is strictly closer; otherwise the selection stays |
| RingSampling.Sampled | src/controller/ground.rs:402-425 | nothing is selected exactly when no sample is usable; a selection is a usable sample no farther than any usable sample |
| RingSampling.FirstClosestUnique | src/controller/ground.rs:414-421 | at most one sample is the earliest closest |
| RingSampling.SampledIsFirstClosest | src/controller/ground.rs:402-425 | ties go to the earliest sample: the selection is the first of the closest usable samples |
| RingSampling.SelectSample | src/controller/ground.rs:402-425 | the sampling loop computes the fold, is empty exactly when no sample is usable, and otherwise returns the first closest usable sample |
| RingSampling.RefineNormal | src/controller/ground.rs:427-429 | a selected sample replaces only the normal; without one the cast is unchanged |
| RingSampling.RefinedNormalNonZero | src/controller/ground.rs:412-429 | a normal taken from the samples is never zero |
| RingSampling.Above | src/controller/ground.rs:383 | the point above the contact is the contact moved back along the cast by its time of impact |
| RingSampling.RingOrigins | src/controller/ground.rs:390-406 | four sample origins, symmetric about the point above the contact and `2 * 0.05` apart along each ring axis |
| Floating.DefaultFloatBand | src/controller/orientation.rs:23-35 | default float distance 0.55 with offsets -0.3 and 0.05, a band containing the target |
| Floating.Displacement | src/controller/orientation.rs:73-74 | the displacement is the float distance minus the height of the body above the contact point along up |
| Floating.RelativeUpVelocity | src/controller/orientation.rs:66-71 | the relative velocity is the body's up-velocity at its origin minus the contact point's; without spin or centre-of-mass offset it is the difference of linear up-velocities |
| Floating.FloatForce | src/controller/orientation.rs:57-80 | no force without a current viable ground; a non-zero force needs a positive displacement; the force is always along up; with a positive displacement it is up times stiffness term minus damping term |
| Floating.FloatPushesAwayFromGround | src/controller/orientation.rs:73-80 | with no relative motion and positive stiffness, a body too close to the ground is pushed away along up |
| Floating.FloatRestsAtTarget | src/controller/orientation.rs:58-80 | at or beyond the target distance there is no force at all, whatever the velocities (closer than the target, the damping term can still point down) |
| Floating.FloatWithMatchedVelocities | src/controller/orientation.rs:66-80 | when body and ground move alike along up only the stiffness term remains |
| Gravitation.GravityForce | src/controller/gravity.rs:37-41 | the force lies along the up vector, is zero for zero mass or acceleration, and its component along up is mass times acceleration times the up vector's squared length |
| Gravitation.DefaultGravityPullsDown | src/controller/gravity.rs:19-41 | default gravity is -9.817 along +y, and for a positive mass it pulls straight down |
| Accumulation.Opposing | src/controller/mod.rs:104-105 | each opposing scale alone switches its share of the reaction off |
| Accumulation.GroundTorque | src/controller/mod.rs:107-129 | no torque without a contact, at the centre of mass, or for a zero force; the torque is orthogonal to the force and to the lever arm |
| Accumulation.Accumulate | src/controller/mod.rs:101-129 | the controller's force is the sum of movement, jump, float and gravity with the upright torque; the ground gets the opposing force and the lever-arm torque |
| Accumulation.GroundIgnoresGravity | src/controller/mod.rs:101-105 | gravity and the upright torque never reach the ground, and the scales never change the controller's own force |
| Accumulation.DefaultSettingsLeaveGroundAlone | src/controller/mod.rs:63-71 | with the default (zero) scales the ground receives no force and no torque |
| Accumulation.AccumulateLinear | src/controller/mod.rs:101-115 | accumulation is linear: scaling every contribution scales both resulting forces |
| Pipeline.JumpDropsFloat | src/plugins.rs:109-123 | with float, jump and accumulation in that order, a firing jump removes the float force from the controller's total and from the reaction on the ground |
| Pipeline.JumpSuspendsGroundCheck | src/controller/ground.rs:185-212 | after a jump with a positive skip duration the next ground detection makes no cast, finds no ground, is not grounded and counts the timer down |
| Pipeline.NoJumpKeepsSkipTimer | src/controller/movement.rs:265-280 | without a jump the skip timer and the float force pass through unchanged |

## Left out

- `upright_force` (src/controller/orientation.rs:116-171): quaternion and axis-angle arithmetic. The upright torque enters accumulation as an input.
- The engine queries in `ground_cast`, which are foreign geometry calls. Their outcomes are inputs:
  - the shape cast and its penetration-recovery loop;
  - the four ring rays;
  - the secondary direct-ray correction;
  - the local-ray fallback.

  Only the selection among the ring samples, the normal replacement and the sample-origin geometry are modelled.
- Engine lookups, also inputs (the `Hit` record and the caster's parameters):
  - collider parents, mass properties, velocities and global transforms;
  - `angle_between`;
  - the exclusion set and the custom cast collider;
  - the cast origin transformation.
- `any_orthonormal_pair` and `normalize_or_zero`: the ring axes are given. `RingSampling.RingOrigins` states the geometry for the given axes only.
- The ground transform inverse in `accumulate_forces`: the contact point is given already in the ground's frame.
- `Movements.MovementForce`: requires a non-zero step. The source divides by the physics step without a guard (src/controller/movement.rs:97); the step is the engine's positive fixed timestep, and a zero step would produce infinities, which the real-number model has no value for.
- Floating point. NaN caps (src/cap.rs:19, 30), signed zero, rounding and the `f32` square root of a negative number are not modelled. The model's square root of a negative number is some non-negative value, so `Springs.CriticalPointSquares` states the square law only where inertia times stiffness is non-negative.
- The sustained and stopping jump forces and the `decay_function` (src/controller/movement.rs:244-260). The value is computed into a local that is never written, so it has no effect outside the jump timer.
- `Springs.Spring.CriticalDampingPoint`: carries no contract of its own. Its properties are stated by `Springs.CriticalPointSquares`, `Springs.RootSquare` and `Springs.CriticalDampingOfAngularFrequency`.
- `GroundDetection.DefaultGroundCaster`: takes π as a parameter, since there is no real constant for it. Its contract states the angles as quarter and third of π.
- `Floating.FloatForce`: the stiffness is the scalar `spring.strength`, as the default `Float` writes it. The damping coefficient is a scalar input, because the source passes a scalar mass to a vector `damp_coefficient`.
- Scheduling, ECS queries, the per-entity loops and the physics time resource. The frame time and the step are parameters. The order of systems appears only in the `Pipeline` lemmas.
- `src/systems.rs` and `src/components.rs`: an older version of the same controller that reads the keyboard directly.
- The physics-engine backends, bundles, presets and examples.

## Findings

| source | as written | input that shows it | evidently intended | confidence | as-written member | corrected member |
|---|---|---|---|---|---|---|
| src/controller/movement.rs:230-232, 263-274 | a firing jump restarts the jump timer and empties the buffer but leaves the coyote timer, which the grounded tick has just refilled, so the coyote window stays open after the jump | default settings (no extra jumps), any step shorter than 80 ms (for example 10 ms): press on the ground, release in the air, press again in the air; the third tick launches a second jump with force (0, 1000, 0) and spends no extra jump | a jump closes the coyote window: the next airborne jump needs an extra jump and fails without one | medium; not executed | Jumping.JumpForceAsWritten, Jumping.CoyoteRefire | Jumping.JumpForce, Jumping.CoyoteRefireRefused |
