/** The gravity force on the controller (src/controller/gravity.rs). */
module Gravitation {
  import opened Vectors

  /** Acceleration along `upVector` (negative pulls down) and the up direction. */
  datatype Gravity = Gravity(acceleration: real, upVector: Vec3)

  const DefaultGravity: Gravity := Gravity(-9.817, UnitY)

  /**
   * The gravity force for a body of the given mass. It is computed afresh each
   * tick from the settings alone, so no earlier tick's value can leak into it.
   */
  function GravityForce(gravity: Gravity, mass: real): (r: Vec3)
    ensures Parallel(gravity.upVector, r)
    ensures mass == 0.0 || gravity.acceleration == 0.0 ==> r == Zero
    ensures Dot(r, gravity.upVector) == mass * gravity.acceleration * LengthSq(gravity.upVector)
  {
    var r := Scale(Scale(gravity.upVector, mass), gravity.acceleration);
    assert r == Scale(gravity.upVector, mass * gravity.acceleration);
    ScaleParallel(gravity.upVector, mass * gravity.acceleration);
    DotScale(gravity.upVector, gravity.upVector, mass * gravity.acceleration);
    r
  }

  /** With the default settings and a positive mass, gravity pulls straight down. */
  lemma DefaultGravityPullsDown(mass: real)
    requires 0.0 < mass
    ensures GravityForce(DefaultGravity, mass).y < 0.0
    ensures GravityForce(DefaultGravity, mass).x == 0.0 && GravityForce(DefaultGravity, mass).z == 0.0
    ensures DefaultGravity.upVector == UnitY && DefaultGravity.acceleration == -9.817
  {
    assert GravityForce(DefaultGravity, mass) == Vec3(0.0, mass * -9.817, 0.0);
  }
}
