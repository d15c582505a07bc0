/**
 * Force accumulation (src/controller/mod.rs, `accumulate_forces`): the
 * controller's force is the sum of the movement, jump, float and gravity
 * forces with the upright torque; the reaction pushed into the ground is the
 * opposite of the scaled movement, jump and float forces, with the torque it
 * exerts about the centre of mass `com` taken from the controller's own mass
 * properties, when there is a contact point.
 *
 * The contact point, already in the ground's local frame, is an input (none
 * when there is no ground).
 */
module Accumulation {
  import opened Vectors
  import opened Wrappers
  import opened Physics

  /** How much of the controller's forces is passed on to the ground. */
  datatype ForceSettings = ForceSettings(opposingForceScale: real, opposingMovementForceScale: real)

  const DefaultForceSettings: ForceSettings := ForceSettings(0.0, 0.0)

  /** The forces each stage of the tick produced. */
  datatype Contributions = Contributions(movement: Vec3, jump: Vec3, float: Vec3, gravity: Vec3, upright: Vec3)

  /** The controller's total force and the reaction on its ground. */
  datatype Accumulated = Accumulated(controller: Force, ground: Force)

  /** The force pushed into the ground: the opposite of the scaled movement, jump and float forces. */
  function Opposing(settings: ForceSettings, c: Contributions): (r: Vec3)
    // Each scale switches its share off on its own.
    ensures settings.opposingMovementForceScale == 0.0
            ==> r == Neg(Scale(Add(c.jump, c.float), settings.opposingForceScale))
    ensures settings.opposingForceScale == 0.0
            ==> r == Neg(Scale(c.movement, settings.opposingMovementForceScale))
  {
    Neg(Add(Scale(c.movement, settings.opposingMovementForceScale),
            Scale(Add(c.jump, c.float), settings.opposingForceScale)))
  }

  /** The torque a force at the contact point exerts about `com`; none without a contact. */
  function GroundTorque(contact: Option<Vec3>, com: Vec3, force: Vec3): (r: Vec3)
    ensures contact.None? || contact == Some(com) || force == Zero ==> r == Zero
    // The torque is perpendicular to both the force and the lever arm.
    ensures Dot(r, force) == 0.0
    ensures contact.Some? ==> Dot(r, Sub(contact.value, com)) == 0.0
  {
    match contact
    case None => Zero
    case Some(point) =>
      var arm := Sub(point, com);
      CrossOrthogonal(arm, force);
      DotSymmetric(Cross(arm, force), force);
      DotSymmetric(Cross(arm, force), arm);
      CrossWithZero(force);
      Cross(arm, force)
  }

  /** One tick of `accumulate_forces`. `contact` is the ground contact point, `com` the centre of mass. */
  function Accumulate(settings: ForceSettings, c: Contributions, contact: Option<Vec3>, com: Vec3): (r: Accumulated)
    // The controller's linear force is the sum of the contributions, and its torque is the upright torque.
    ensures r.controller.linear == Add(Add(Add(c.movement, c.jump), c.float), c.gravity)
    ensures r.controller.angular == c.upright
    // The ground receives the opposing force; its torque is the lever arm crossed with it, or nothing.
    ensures r.ground.linear == Opposing(settings, c)
    ensures r.ground.angular == GroundTorque(contact, com, r.ground.linear)
  {
    var linear := Add(Add(Add(c.movement, c.jump), c.float), c.gravity);
    var opposing := Opposing(settings, c);
    var torque := GroundTorque(contact, com, opposing);
    Accumulated(Force(linear, c.upright), Force(opposing, torque))
  }

  /** Gravity and the upright torque never reach the ground, and the scales never change the controller's force. */
  lemma GroundIgnoresGravity(settings: ForceSettings, c: Contributions, gravity: Vec3, upright: Vec3,
                             contact: Option<Vec3>, com: Vec3)
    ensures var r := Accumulate(settings, c, contact, com);
            var s := Accumulate(settings, c.(gravity := gravity, upright := upright), contact, com);
            s.ground == r.ground
    ensures Accumulate(settings, c, contact, com).controller == Accumulate(DefaultForceSettings, c, contact, com).controller
  {
  }

  /** With the default settings the ground feels nothing, whatever the controller does. */
  lemma DefaultSettingsLeaveGroundAlone(c: Contributions, contact: Option<Vec3>, com: Vec3)
    ensures Accumulate(DefaultForceSettings, c, contact, com).ground == Force(Zero, Zero)
  {
    ScaleByZero(c.movement);
    ScaleByZero(Add(c.jump, c.float));
    assert Opposing(DefaultForceSettings, c) == Zero;
  }

  /** Doubling every contribution doubles both resulting forces: the accumulation is linear. */
  lemma AccumulateLinear(settings: ForceSettings, c: Contributions, k: real, contact: Option<Vec3>, com: Vec3)
    ensures var scaled := Contributions(Scale(c.movement, k), Scale(c.jump, k), Scale(c.float, k),
                                        Scale(c.gravity, k), Scale(c.upright, k));
            var r := Accumulate(settings, c, contact, com);
            var s := Accumulate(settings, scaled, contact, com);
            && s.controller == Force(Scale(r.controller.linear, k), Scale(r.controller.angular, k))
            && s.ground == Force(Scale(r.ground.linear, k), Scale(r.ground.angular, k))
  {
    var scaled := Contributions(Scale(c.movement, k), Scale(c.jump, k), Scale(c.float, k),
                                Scale(c.gravity, k), Scale(c.upright, k));
    var r := Accumulate(settings, c, contact, com);
    var s := Accumulate(settings, scaled, contact, com);
    var m := settings.opposingMovementForceScale;
    var f := settings.opposingForceScale;
    ScaleAdd(c.movement, c.jump, k);
    ScaleAdd(Add(c.movement, c.jump), c.float, k);
    ScaleAdd(Add(Add(c.movement, c.jump), c.float), c.gravity, k);
    OpposingScales(c.movement, c.jump, c.float, m, f, k);
    assert s.ground.linear == Scale(r.ground.linear, k);
    if contact.Some? {
      CrossScale(Sub(contact.value, com), r.ground.linear, k);
    }
  }

  lemma ScaleByZero(v: Vec3)
    ensures Scale(v, 0.0) == Zero
  {
  }

  lemma OpposingScales(mv: Vec3, jp: Vec3, fl: Vec3, m: real, f: real, k: real)
    ensures Neg(Add(Scale(Scale(mv, k), m), Scale(Add(Scale(jp, k), Scale(fl, k)), f)))
            == Scale(Neg(Add(Scale(mv, m), Scale(Add(jp, fl), f))), k)
  {
    ScaleScale(mv, k, m);
    ScaleAdd(jp, fl, k);
    ScaleScale(Add(jp, fl), k, f);
    ScaleAdd(Scale(mv, m), Scale(Add(jp, fl), f), k);
    ScaleNeg(Add(Scale(mv, m), Scale(Add(jp, fl), f)), k);
  }
}
