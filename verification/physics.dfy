/**
 * The physics shapes the controller reads and writes each tick: the body's
 * mass properties and velocity (read-only inputs) and a linear/angular force
 * pair (the controller's own force and the reaction on its ground).
 */
module Physics {
  import opened Vectors

  /** Mass, rotational inertia and centre of mass of the controlled body. */
  datatype ControllerMass = ControllerMass(mass: real, inertia: Vec3, com: Vec3)

  /** Linear and angular velocity of the controlled body. */
  datatype ControllerVelocity = ControllerVelocity(linear: Vec3, angular: Vec3)

  /** A linear force with a torque, used for `ControllerForce` and `GroundForce` alike. */
  datatype Force = Force(linear: Vec3, angular: Vec3)
}
