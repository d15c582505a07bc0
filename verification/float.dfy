/**
 * The floating suspension (src/controller/orientation.rs, `float_force`): a
 * damped spring along the up vector that holds the body at a target distance
 * above viable ground. It acts only while the body is closer than the target:
 * at or beyond it there is no force, and while closer the damping term can
 * still point down when the body moves up fast enough.
 *
 * The spring's stiffness is the scalar `spring.strength`, and the damping
 * coefficient (the spring's `damp_coefficient` for the body's mass) is given
 * as a plain scalar input.
 */
module Floating {
  import opened Vectors
  import opened Wrappers
  import opened Physics
  import opened GroundCache

  /** Scalar spring used by the suspension: stiffness and damping ratio. */
  datatype FloatSpring = FloatSpring(strength: real, damping: real)

  /** Target float distance, the grounded tolerance band around it, and the spring. */
  datatype Float = Float(distance: real, minOffset: real, maxOffset: real, spring: FloatSpring)

  const DefaultFloat: Float := Float(0.55, -0.3, 0.05, FloatSpring(100.0, 0.8))

  /** By default the tolerance band contains the target distance itself. */
  lemma DefaultFloatBand()
    ensures DefaultFloat.minOffset <= 0.0 <= DefaultFloat.maxOffset
    ensures DefaultFloat.distance == 0.55 && DefaultFloat.minOffset == -0.3
    ensures DefaultFloat.maxOffset == 0.05
  {
  }

  /** How far the body sits below the target distance (positive: too close to the ground). */
  function Displacement(float: Float, ground: Ground, up: Vec3, translation: Vec3): (d: real)
    ensures d == float.distance - Dot(Sub(translation, ground.cast.point), up)
  {
    DotSub(up, translation, ground.cast.point);
    var worldspaceDiff := Dot(translation, up) - Dot(ground.cast.point, up);
    float.distance - worldspaceDiff
  }

  /**
   * Up-velocity of the body at its origin (seen from the centre of mass)
   * minus the up-velocity of the ground's contact point.
   */
  function RelativeUpVelocity(ground: Ground, up: Vec3, velocity: ControllerVelocity, com: Vec3): (v: real)
    ensures velocity.angular == Zero || com == Zero
            ==> v == Dot(up, velocity.linear) - Dot(up, ground.pointVelocity)
    ensures v == Dot(up, Sub(Add(velocity.linear, Cross(velocity.angular, Neg(com))), ground.pointVelocity))
  {
    var controllerPointVelocity := Add(velocity.linear, Cross(velocity.angular, Sub(Zero, com)));
    assert Sub(Zero, com) == Neg(com);
    DotSub(up, controllerPointVelocity, ground.pointVelocity);
    CrossWithZero(velocity.angular);
    CrossWithZero(Neg(com));
    assert Neg(Zero) == Zero;
    var velAlign := Dot(up, controllerPointVelocity);
    var groundVelAlign := Dot(up, ground.pointVelocity);
    velAlign - groundVelAlign
  }

  /** The suspension force for this tick. */
  function FloatForce(float: Float, current: Option<Ground>, up: Vec3, translation: Vec3,
                      velocity: ControllerVelocity, com: Vec3, dampCoefficient: real): (r: Vec3)
    ensures current.None? || !current.value.viable ==> r == Zero
    ensures r != Zero ==> current.Some? && current.value.viable
                          && Displacement(float, current.value, up, translation) > 0.0
    ensures Parallel(up, r)
    ensures current.Some? && current.value.viable
            && Displacement(float, current.value, up, translation) > 0.0
            ==> r == Scale(up, Displacement(float, current.value, up, translation) * float.spring.strength
                                - RelativeUpVelocity(current.value, up, velocity, com) * dampCoefficient)
  {
    match current
    case None => Zero
    case Some(ground) =>
      if !ground.viable then Zero
      else
        var relativeVelocity := RelativeUpVelocity(ground, up, velocity, com);
        var displacement := Displacement(float, ground, up, translation);
        if displacement > 0.0 then
          var strength := displacement * float.spring.strength;
          var damping := relativeVelocity * dampCoefficient;
          ScaleParallel(up, strength - damping);
          Add(Zero, Scale(up, strength - damping))
        else
          ScaleParallel(up, 0.0);
          Zero
  }

  /**
   * With no relative motion, a positive stiffness and a non-zero up vector,
   * a body closer to the ground than the target distance is pushed away from it.
   */
  lemma FloatPushesAwayFromGround(float: Float, ground: Ground, up: Vec3, translation: Vec3,
                                  velocity: ControllerVelocity, com: Vec3, dampCoefficient: real)
    requires ground.viable && 0.0 < float.spring.strength && up != Zero
    requires RelativeUpVelocity(ground, up, velocity, com) == 0.0
    requires Displacement(float, ground, up, translation) > 0.0
    ensures Dot(FloatForce(float, Some(ground), up, translation, velocity, com, dampCoefficient), up) > 0.0
  {
    var k := Displacement(float, ground, up, translation) * float.spring.strength;
    MulPositive(Displacement(float, ground, up, translation), float.spring.strength);
    DotScale(up, up, k);
    LengthSqPositive(up);
    MulPositive(k, LengthSq(up));
  }

  /** At the target distance, or above it, the suspension applies no force. */
  lemma FloatRestsAtTarget(float: Float, current: Option<Ground>, up: Vec3, translation: Vec3,
                           velocity: ControllerVelocity, com: Vec3, dampCoefficient: real)
    requires current.Some? ==> Displacement(float, current.value, up, translation) <= 0.0
    ensures FloatForce(float, current, up, translation, velocity, com, dampCoefficient) == Zero
  {
  }

  /** When body and ground move alike along up, only the stiffness term remains. */
  lemma FloatWithMatchedVelocities(float: Float, ground: Ground, up: Vec3, translation: Vec3,
                                   velocity: ControllerVelocity, com: Vec3, dampCoefficient: real)
    requires ground.viable && Displacement(float, ground, up, translation) > 0.0
    requires velocity.angular == Zero
    requires Dot(up, velocity.linear) == Dot(up, ground.pointVelocity)
    ensures FloatForce(float, Some(ground), up, translation, velocity, com, dampCoefficient)
            == Scale(up, Displacement(float, ground, up, translation) * float.spring.strength)
  {
  }
}
