/**
 * How the stages meet within and across ticks (src/plugins.rs): ground
 * detection runs first, the jump step runs after the float force and may
 * drop it and arm the caster's skip timer, and accumulation runs last.
 */
module Pipeline {
  import opened Vectors
  import opened Wrappers
  import opened GroundCache
  import opened GroundDetection
  import opened Jumping
  import opened Accumulation

  /**
   * On a tick where a jump fires, the float force does not reach the
   * controller: its linear force is the movement, jump and gravity forces.
   */
  lemma JumpDropsFloat(settings: ForceSettings, j: Jump, input: JumpInput, floatForce: Vec3, skipTimer: real,
                       movement: Vec3, gravity: Vec3, upright: Vec3, contact: Option<Vec3>, com: Vec3)
    requires Fires(j, input)
    ensures var out := JumpForce(j, input, floatForce, skipTimer);
            var r := Accumulate(settings, Contributions(movement, out.force, out.floatForce, gravity, upright),
                                contact, com);
            r.controller.linear == Add(Add(movement, out.force), gravity)
            && r.ground.linear == Neg(Add(Scale(movement, settings.opposingMovementForceScale),
                                          Scale(out.force, settings.opposingForceScale)))
  {
    var out := JumpForce(j, input, floatForce, skipTimer);
    assert out.floatForce == Zero;
    assert Add(out.force, Zero) == out.force;
  }

  /**
   * A jump with a positive skip duration suspends ground detection on the
   * next (non-zero, contact-free) frame: no cast is made, the controller has
   * no current ground and is not grounded, and the timer runs down.
   */
  lemma JumpSuspendsGroundCheck(j: Jump, input: JumpInput, floatForce: Vec3, skipTimer: real,
                                caster: GroundCaster, cast: GroundCast, frameDelta: real, dt: real,
                                hasCollider: bool, hit: Option<Hit>)
    requires Fires(j, input) && 0.0 < j.skipGroundCheckDuration && frameDelta != 0.0
    ensures var out := JumpForce(j, input, floatForce, skipTimer);
            var armed := caster.(skipGroundCheckTimer := out.skipGroundCheckTimer);
            var next := FindGround(armed, cast, frameDelta, dt, hasCollider, hit, false);
            && !Casts(armed)
            && next.cast.current.None? && !next.cast.Grounded()
            && next.caster.skipGroundCheckTimer == Countdown(j.skipGroundCheckDuration, dt)
  {
  }

  /** Without a jump the caster's skip timer is left as ground detection set it. */
  lemma NoJumpKeepsSkipTimer(j: Jump, input: JumpInput, floatForce: Vec3, skipTimer: real)
    requires !Fires(j, input)
    ensures JumpForce(j, input, floatForce, skipTimer).skipGroundCheckTimer == skipTimer
    ensures JumpForce(j, input, floatForce, skipTimer).floatForce == floatForce
  {
  }
}
