/**
 * Directional movement (src/controller/movement.rs, `movement_force`): the
 * input direction is clamped to unit length, scaled to the maximum speed and
 * offset by the ground's velocity; the goal velocity eases towards that target
 * at a rate set by the acceleration; and the force is the velocity change
 * still needed, clamped in length, scaled per axis and spread over the step.
 *
 * The velocity of the ground under the controller is an input (none when there
 * is no ground).
 */
module Movements {
  import opened Vectors
  import opened Wrappers

  /** Movement settings, and the goal velocity reached on the previous tick. */
  datatype Movement = Movement(
    acceleration: real,
    maxAccelerationForce: real,
    maxSpeed: real,
    forceScale: Vec3,
    lastGoalVelocity: Vec3)

  const DefaultMovement: Movement := Movement(50.0, 10.0, 10.0, One, Zero)

  lemma DivMul(a: real, k: real)
    requires k != 0.0
    ensures (a / k) * k == a
  {
  }

  lemma NonNegativeProduct(a: real, b: real)
    ensures 0.0 <= a && 0.0 <= b ==> 0.0 <= a * b
  {
    if 0.0 <= a && 0.0 <= b {
      MulNonNegative(a, b);
    }
  }

  lemma ScaleAtMost(k: real, l: real)
    requires 0.0 <= k && l <= 1.0
    ensures k * l <= k
  {
  }

  /** Dividing by a non-zero step and scaling back gives the vector again. */
  lemma SpreadOverStep(v: Vec3, dt: real)
    requires dt != 0.0
    ensures Scale(Div(v, dt), dt) == v
  {
    DivMul(v.x, dt);
    DivMul(v.y, dt);
    DivMul(v.z, dt);
  }

  /** How far this tick moves the goal towards its target: `acceleration * dt`, at most one. */
  function LerpFactor(m: Movement, dt: real): (t: real)
    ensures t <= 1.0
    ensures t == 1.0 <==> 1.0 <= m.acceleration * dt
    ensures m.acceleration * dt < 1.0 ==> t == m.acceleration * dt
    ensures 0.0 <= m.acceleration && 0.0 <= dt ==> 0.0 <= t
  {
    NonNegativeProduct(m.acceleration, dt);
    Min(m.acceleration * dt, 1.0)
  }

  /** The velocity the input asks for: its direction, clamped to unit length, at full speed. */
  function InputGoal(m: Movement, input: Vec3, sqrt: real -> real): (r: Vec3)
    requires SqrtLaws(sqrt)
    ensures LengthSq(r) <= m.maxSpeed * m.maxSpeed
    ensures LengthSq(input) <= 1.0 ==> r == Scale(input, m.maxSpeed)
    ensures input == Zero ==> r == Zero
    // A longer input (a keyboard diagonal) keeps its direction at exactly full speed.
    ensures 1.0 < LengthSq(input) && 0.0 <= m.maxSpeed ==> AtSpeedAlong(input, r, m.maxSpeed)
  {
    var dir := ClampLengthMax(input, 1.0, sqrt);
    LengthSqScale(dir, m.maxSpeed);
    SelfProductNonNegative(m.maxSpeed, m.maxSpeed);
    ScaleAtMost(m.maxSpeed * m.maxSpeed, LengthSq(dir));
    if 1.0 < LengthSq(input) && 0.0 <= m.maxSpeed then
      ScaledUnitAlong(input, dir, m.maxSpeed);
      Scale(dir, m.maxSpeed)
    else Scale(dir, m.maxSpeed)
  }

  /** `r` has length `speed` and points along `input`, not against it. */
  predicate AtSpeedAlong(input: Vec3, r: Vec3, speed: real)
  {
    LengthSq(r) == speed * speed && Parallel(input, r) && 0.0 <= Dot(input, r)
  }

  lemma ScaledUnitAlong(input: Vec3, dir: Vec3, speed: real)
    requires LengthSq(dir) == 1.0 && Parallel(input, dir) && 0.0 <= Dot(input, dir) && 0.0 <= speed
    ensures AtSpeedAlong(input, Scale(dir, speed), speed)
  {
    LengthSqScale(dir, speed);
    ParallelScale(input, dir, speed);
    DotScale(input, dir, speed);
    NonNegativeProduct(speed, Dot(input, dir));
  }

  /** The target of the goal velocity: the input's velocity on top of the ground's. */
  function Target(m: Movement, input: Vec3, groundVelocity: Option<Vec3>, sqrt: real -> real): (r: Vec3)
    requires SqrtLaws(sqrt)
    ensures Sub(r, groundVelocity.GetOr(Zero)) == InputGoal(m, input, sqrt)
    ensures groundVelocity.None? ==> r == InputGoal(m, input, sqrt)
  {
    Add(InputGoal(m, input, sqrt), groundVelocity.GetOr(Zero))
  }

  /** This tick's goal velocity, eased from the last one towards the target. */
  function GoalVelocity(m: Movement, input: Vec3, groundVelocity: Option<Vec3>, dt: real, sqrt: real -> real): (r: Vec3)
    requires SqrtLaws(sqrt)
    ensures 1.0 <= m.acceleration * dt ==> r == Target(m, input, groundVelocity, sqrt)
    ensures m.acceleration * dt == 0.0 ==> r == m.lastGoalVelocity
    ensures m.lastGoalVelocity == Target(m, input, groundVelocity, sqrt) ==> r == m.lastGoalVelocity
    ensures Parallel(Sub(Target(m, input, groundVelocity, sqrt), m.lastGoalVelocity), Sub(r, m.lastGoalVelocity))
    // With a non-negative rate the goal moves towards the target and never overshoots it.
    ensures 0.0 <= m.acceleration * dt ==> Towards(m.lastGoalVelocity, Target(m, input, groundVelocity, sqrt), r)
  {
    var last := m.lastGoalVelocity;
    var target := Target(m, input, groundVelocity, sqrt);
    var t := LerpFactor(m, dt);
    var r := Lerp(last, target, t);
    assert Sub(r, last) == Scale(Sub(target, last), t);
    ScaleParallel(Sub(target, last), t);
    if 0.0 <= m.acceleration * dt then
      LerpTowards(last, target, t);
      r
    else r
  }

  /** Going from `a` to `r` heads towards `b` and leaves no more of the way to `b` than there was. */
  predicate Towards(a: Vec3, b: Vec3, r: Vec3)
  {
    0.0 <= Dot(Sub(r, a), Sub(b, a)) && LengthSq(Sub(b, r)) <= LengthSq(Sub(b, a))
  }

  /** A lerp by `t` in [0, 1] moves towards the target and never overshoots it. */
  lemma LerpTowards(a: Vec3, b: Vec3, t: real)
    requires 0.0 <= t <= 1.0
    ensures Towards(a, b, Lerp(a, b, t))
  {
    var d := Sub(b, a);
    var r := Lerp(a, b, t);
    assert Sub(r, a) == Scale(d, t);
    assert Sub(b, r) == Scale(d, 1.0 - t);
    DotSymmetric(Scale(d, t), d);
    DotScale(d, d, t);
    LengthSqNonNegative(d);
    NonNegativeProduct(t, LengthSq(d));
    LengthSqScale(d, 1.0 - t);
    FractionSquare(1.0 - t, LengthSq(d));
  }

  lemma FractionSquare(s: real, l: real)
    requires 0.0 <= s <= 1.0 && 0.0 <= l
    ensures s * s * l <= l
  {
    MulNonNegative(s, s);
    assert s * s <= s;
    MulNonNegative(1.0 - s * s, l);
  }

  /** The updated movement state and the movement force of one tick. */
  datatype MovementStep = MovementStep(movement: Movement, force: Vec3)

  /**
   * One tick of `movement_force`: `input` is the movement input, `velocity`
   * the controller's linear velocity and `dt` the physics step.
   */
  function MovementForce(m: Movement, input: Vec3, groundVelocity: Option<Vec3>, velocity: Vec3,
                         dt: real, sqrt: real -> real): (r: MovementStep)
    requires SqrtLaws(sqrt)
    requires dt != 0.0
    // Only the remembered goal changes, and it becomes this tick's goal.
    ensures r.movement == m.(lastGoalVelocity := GoalVelocity(m, input, groundVelocity, dt, sqrt))
    // Over one step the force delivers the clamped velocity change, scaled per axis.
    ensures Scale(r.force, dt)
            == Mul(ClampLengthMax(Sub(GoalVelocity(m, input, groundVelocity, dt, sqrt), velocity),
                                  m.maxAccelerationForce, sqrt),
                   m.forceScale)
  {
    var goal := GoalVelocity(m, input, groundVelocity, dt, sqrt);
    var needed := ClampLengthMax(Sub(goal, velocity), m.maxAccelerationForce, sqrt);
    var scaled := Mul(needed, m.forceScale);
    var force := Div(scaled, dt);
    SpreadOverStep(scaled, dt);
    MovementStep(m.(lastGoalVelocity := goal), force)
  }

  /** A velocity change no longer than the maximum acceleration force is delivered in full. */
  lemma MovementForceUnclamped(m: Movement, input: Vec3, groundVelocity: Option<Vec3>, velocity: Vec3,
                               dt: real, sqrt: real -> real)
    requires SqrtLaws(sqrt) && dt != 0.0
    ensures var change := Sub(GoalVelocity(m, input, groundVelocity, dt, sqrt), velocity);
            LengthSq(change) <= m.maxAccelerationForce * m.maxAccelerationForce
            ==> Scale(MovementForce(m, input, groundVelocity, velocity, dt, sqrt).force, dt)
                == Mul(change, m.forceScale)
  {
  }

  /** A zero force-scale component switches that axis of the force off. */
  lemma MovementForceAxisOff(m: Movement, input: Vec3, groundVelocity: Option<Vec3>, velocity: Vec3,
                             dt: real, sqrt: real -> real)
    requires SqrtLaws(sqrt) && dt != 0.0
    ensures var f := MovementForce(m, input, groundVelocity, velocity, dt, sqrt).force;
            && (m.forceScale.x == 0.0 ==> f.x == 0.0)
            && (m.forceScale.y == 0.0 ==> f.y == 0.0)
            && (m.forceScale.z == 0.0 ==> f.z == 0.0)
  {
    var f := MovementForce(m, input, groundVelocity, velocity, dt, sqrt).force;
    ZeroProduct(f.x, dt);
    ZeroProduct(f.y, dt);
    ZeroProduct(f.z, dt);
  }

  lemma ZeroProduct(a: real, k: real)
    requires k != 0.0
    ensures a * k == 0.0 ==> a == 0.0
  {
    if a * k == 0.0 {
      DivMul(a, k);
      assert a * k / k == a;
    }
  }

  /** Moving at the goal velocity already needs no force. */
  lemma MovementForceAtGoal(m: Movement, input: Vec3, groundVelocity: Option<Vec3>, dt: real, sqrt: real -> real)
    requires SqrtLaws(sqrt) && dt != 0.0
    ensures var goal := GoalVelocity(m, input, groundVelocity, dt, sqrt);
            MovementForce(m, input, groundVelocity, goal, dt, sqrt).force == Zero
  {
    var goal := GoalVelocity(m, input, groundVelocity, dt, sqrt);
    var f := MovementForce(m, input, groundVelocity, goal, dt, sqrt).force;
    assert Sub(goal, goal) == Zero;
    ClampZero(m.maxAccelerationForce, sqrt);
    assert Scale(f, dt) == Mul(Zero, m.forceScale) == Zero;
    ScaleToZero(f, dt);
  }

  lemma ClampZero(max: real, sqrt: real -> real)
    requires SqrtLaws(sqrt)
    ensures ClampLengthMax(Zero, max, sqrt) == Zero
  {
    SelfProductNonNegative(max, max);
  }

  lemma ScaleToZero(f: Vec3, dt: real)
    requires dt != 0.0 && Scale(f, dt) == Zero
    ensures f == Zero
  {
    ZeroProduct(f.x, dt);
    ZeroProduct(f.y, dt);
    ZeroProduct(f.z, dt);
  }

  /** With a unit force scale, the impulse of one step never exceeds the maximum acceleration force. */
  lemma MovementForceBounded(m: Movement, input: Vec3, groundVelocity: Option<Vec3>, velocity: Vec3,
                             dt: real, sqrt: real -> real)
    requires SqrtLaws(sqrt) && dt != 0.0
    requires m.forceScale == One
    ensures var r := MovementForce(m, input, groundVelocity, velocity, dt, sqrt);
            LengthSq(Scale(r.force, dt)) <= m.maxAccelerationForce * m.maxAccelerationForce
  {
    var goal := GoalVelocity(m, input, groundVelocity, dt, sqrt);
    var needed := ClampLengthMax(Sub(goal, velocity), m.maxAccelerationForce, sqrt);
    assert Mul(needed, One) == needed;
  }

  /** Once the goal has reached its target it stays there while the input and ground do not change. */
  lemma GoalSettles(m: Movement, input: Vec3, groundVelocity: Option<Vec3>, velocity: Vec3,
                    dt: real, sqrt: real -> real)
    requires SqrtLaws(sqrt) && dt != 0.0
    requires 1.0 <= m.acceleration * dt
    ensures var next := MovementForce(m, input, groundVelocity, velocity, dt, sqrt).movement;
            next.lastGoalVelocity == Target(m, input, groundVelocity, sqrt)
            && GoalVelocity(next, input, groundVelocity, dt, sqrt) == next.lastGoalVelocity
  {
    var next := MovementForce(m, input, groundVelocity, velocity, dt, sqrt).movement;
    FullRateReachesTarget(m, input, groundVelocity, dt, sqrt);
    assert next == m.(lastGoalVelocity := next.lastGoalVelocity);
    GoalAtTargetStays(m, next.lastGoalVelocity, input, groundVelocity, dt, sqrt);
  }

  /** A goal already at the target stays there, whatever the rate. */
  lemma GoalAtTargetStays(m: Movement, goal: Vec3, input: Vec3, groundVelocity: Option<Vec3>, dt: real,
                          sqrt: real -> real)
    requires SqrtLaws(sqrt)
    requires goal == Target(m, input, groundVelocity, sqrt)
    ensures GoalVelocity(m.(lastGoalVelocity := goal), input, groundVelocity, dt, sqrt) == goal
  {
    TargetIgnoresGoal(m, goal, input, groundVelocity, sqrt);
  }

  /** The target depends on the settings and inputs, not on the remembered goal. */
  lemma TargetIgnoresGoal(m: Movement, goal: Vec3, input: Vec3, groundVelocity: Option<Vec3>, sqrt: real -> real)
    requires SqrtLaws(sqrt)
    ensures Target(m.(lastGoalVelocity := goal), input, groundVelocity, sqrt) == Target(m, input, groundVelocity, sqrt)
  {
    assert InputGoal(m.(lastGoalVelocity := goal), input, sqrt) == InputGoal(m, input, sqrt);
  }

  lemma FullRateReachesTarget(m: Movement, input: Vec3, groundVelocity: Option<Vec3>, dt: real, sqrt: real -> real)
    requires SqrtLaws(sqrt)
    requires 1.0 <= m.acceleration * dt
    ensures GoalVelocity(m, input, groundVelocity, dt, sqrt) == Target(m, input, groundVelocity, sqrt)
  {
  }

  /** A controller at rest, with no input, no ground and no remembered goal, is left alone. */
  lemma NoInputNoForce(m: Movement, input: Vec3, dt: real, sqrt: real -> real)
    requires SqrtLaws(sqrt) && dt != 0.0
    requires input == Zero && m.lastGoalVelocity == Zero
    ensures var r := MovementForce(m, input, None, Zero, dt, sqrt);
            r.force == Zero && r.movement == m
  {
    NoInputKeepsGoal(m, input, dt, sqrt);
    MovementForceAtGoal(m, input, None, dt, sqrt);
  }

  lemma NoInputKeepsGoal(m: Movement, input: Vec3, dt: real, sqrt: real -> real)
    requires SqrtLaws(sqrt)
    requires input == Zero && m.lastGoalVelocity == Zero
    ensures GoalVelocity(m, input, None, dt, sqrt) == Zero
  {
    assert InputGoal(m, input, sqrt) == Zero;
    assert Target(m, input, None, sqrt) == Zero;
  }
}
