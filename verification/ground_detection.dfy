/**
 * Ground detection (src/controller/ground.rs, `find_ground` and
 * `determine_groundedness`): when to cast for ground, how a hit is turned into
 * a `Ground` (stability and viability by slope angle, velocity of the contact
 * point), the skip-ground-check countdown, and the velocity-widened band that
 * decides whether the controller counts as grounded.
 *
 * The shape cast itself is an engine query: its outcome enters as a `Hit`,
 * which also carries what the engine looks up about the hit body (its parent
 * entity, velocity and world-space centre of mass) and the angle between the
 * hit normal and the up vector.
 */
module GroundDetection {
  import opened Vectors
  import opened Wrappers
  import opened Physics
  import opened GroundCache
  import opened Floating

  /** How the controller looks for ground, and the countdown that suspends the search. */
  datatype GroundCaster = GroundCaster(
    skipGroundCheckTimer: real,
    skipGroundCheckOverride: bool,
    castOrigin: Vec3,
    castLength: real,
    unstableGroundAngle: real,
    maxGroundAngle: real)

  /** The default caster: no skipping, unit cast length, slopes of 45 and 60 degrees. */
  function DefaultGroundCaster(pi: real): (c: GroundCaster)
    ensures c.skipGroundCheckTimer == 0.0 && !c.skipGroundCheckOverride
    ensures c.castOrigin == Zero && c.castLength == 1.0
    ensures 4.0 * c.unstableGroundAngle == pi && 3.0 * c.maxGroundAngle == pi
  {
    GroundCaster(0.0, false, Zero, 1.0, 45.0 * (pi / 180.0), 60.0 * (pi / 180.0))
  }

  /** By default a slope starts to be slippery before it stops being standable. */
  lemma DefaultAnglesOrdered(pi: real)
    requires 0.0 <= pi
    ensures DefaultGroundCaster(pi).unstableGroundAngle <= DefaultGroundCaster(pi).maxGroundAngle
  {
  }

  // ------------------------------------------------------------ classification

  datatype Classification = Classification(stable: bool, viable: bool)

  /**
   * Classify a hit by the angle between its normal and the up vector: a
   * degenerate (zero) normal is neither viable nor stable.
   */
  function Classify(normal: Vec3, angle: real, caster: GroundCaster): (r: Classification)
    ensures normal == Zero ==> !r.stable && !r.viable
    ensures r.viable <==> normal != Zero && angle <= caster.maxGroundAngle
    ensures r.stable <==> r.viable && angle <= caster.unstableGroundAngle
  {
    NonZeroIffPositiveLength(normal);
    if LengthSq(normal) > 0.0 then
      var viable := angle <= caster.maxGroundAngle;
      var stable := angle <= caster.unstableGroundAngle && viable;
      Classification(stable, viable)
    else
      Classification(false, false)
  }

  /** Stability implies viability. */
  lemma StableIsViable(normal: Vec3, angle: real, caster: GroundCaster)
    ensures Classify(normal, angle, caster).stable ==> Classify(normal, angle, caster).viable
  {
  }

  /**
   * Raising the maximum ground angle never makes a viable ground non-viable,
   * and a flat enough ground is viable exactly when it is stable.
   */
  lemma ClassifyMonotone(normal: Vec3, angle: real, c1: GroundCaster, c2: GroundCaster)
    requires c1.maxGroundAngle <= c2.maxGroundAngle
    ensures Classify(normal, angle, c1).viable ==> Classify(normal, angle, c2).viable
    ensures angle <= c1.unstableGroundAngle
            ==> (Classify(normal, angle, c1).stable <==> Classify(normal, angle, c1).viable)
  {
  }

  // ------------------------------------------------------------ point velocity

  /** Velocity of the ground body at the contact point, for a rigid body rotating about its centre of mass. */
  function PointVelocity(linvel: Vec3, angvel: Vec3, point: Vec3, com: Vec3): (r: Vec3)
    ensures angvel == Zero || point == com ==> r == linvel
    ensures Dot(angvel, Sub(r, linvel)) == 0.0
    ensures Dot(Sub(point, com), Sub(r, linvel)) == 0.0
  {
    var arm := Sub(point, com);
    var r := Add(linvel, Cross(angvel, arm));
    assert Sub(r, linvel) == Cross(angvel, arm);
    CrossOrthogonal(angvel, arm);
    CrossWithZero(angvel);
    CrossWithZero(arm);
    assert point == com ==> arm == Zero;
    r
  }

  // ------------------------------------------------------------ the cast

  /**
   * What the ground cast reports, together with what the engine knows about
   * the body that was hit: its entity (the collider's parent), velocity and
   * world-space centre of mass, and the angle between the hit normal and up.
   */
  datatype Hit = Hit(entity: nat, result: CastResult, velocity: ControllerVelocity, com: Vec3, angle: real)

  /** Turn a hit into the ground record. */
  function MakeGround(caster: GroundCaster, hit: Hit): (g: Ground)
    ensures g.entity == hit.entity && g.cast == hit.result
    ensures g.linearVelocity == hit.velocity.linear && g.angularVelocity == hit.velocity.angular
    ensures g.viable <==> hit.result.normal != Zero && hit.angle <= caster.maxGroundAngle
    ensures g.stable <==> g.viable && hit.angle <= caster.unstableGroundAngle
    ensures hit.velocity.angular == Zero ==> g.pointVelocity == hit.velocity.linear
  {
    var c := Classify(hit.result.normal, hit.angle, caster);
    var pv := PointVelocity(hit.velocity.linear, hit.velocity.angular, hit.result.point, hit.com);
    Ground(hit.entity, hit.result, c.stable, c.viable, hit.velocity.angular, hit.velocity.linear, pv)
  }

  /** Will this tick cast for ground at all? */
  predicate Casts(caster: GroundCaster)
  {
    caster.skipGroundCheckTimer == 0.0 && !caster.skipGroundCheckOverride
  }

  /** One step of the skip-ground-check countdown, which never goes below zero. */
  function Countdown(timer: real, dt: real): (r: real)
    ensures 0.0 <= r
    ensures 0.0 <= dt && 0.0 <= timer ==> r <= timer
    ensures r == 0.0 <==> timer <= dt
  {
    Max(timer - dt, 0.0)
  }

  /** The caster and ground cache after `find_ground`. */
  datatype Detection = Detection(caster: GroundCaster, cast: GroundCast)

  /**
   * One tick of `find_ground` for one controller. `frameDelta` is the frame
   * time (a zero frame does nothing), `dt` the physics step, `hasCollider`
   * whether the controller has a collider to cast with, `hit` the outcome of
   * the ground cast should one be made, and `touching` whether the body is in
   * contact with anything after the cast.
   */
  function FindGround(caster: GroundCaster, cast: GroundCast, frameDelta: real, dt: real,
                      hasCollider: bool, hit: Option<Hit>, touching: bool): (r: Detection)
    // A zero frame, or a cast without a collider, leaves everything as it was.
    ensures frameDelta == 0.0 || (Casts(caster) && !hasCollider) ==> r == Detection(caster, cast)
    // Otherwise the current ground is only ever set by an actual cast.
    ensures frameDelta != 0.0 && (Casts(caster) ==> hasCollider) && r.cast.current.Some?
            ==> Casts(caster) && hit.Some?
    // When casting, the cache takes the classified hit (or its absence).
    ensures frameDelta != 0.0 && Casts(caster) && hasCollider
            ==> r.cast == cast.Update(if hit.Some? then Some(MakeGround(caster, hit.value)) else None)
                && r.caster.skipGroundCheckTimer == 0.0
    // When skipping, there is no ground this tick and the timer counts down, or resets on contact.
    ensures frameDelta != 0.0 && !Casts(caster)
            ==> r.cast == cast.Update(None)
                && r.caster.skipGroundCheckTimer
                   == (if touching then 0.0 else Countdown(caster.skipGroundCheckTimer, dt))
    // Only the timer of the caster ever changes.
    ensures r.caster == caster.(skipGroundCheckTimer := r.caster.skipGroundCheckTimer)
    // The timer never becomes negative and, with a non-negative step, never grows.
    ensures 0.0 <= caster.skipGroundCheckTimer ==> 0.0 <= r.caster.skipGroundCheckTimer
    ensures 0.0 <= dt && 0.0 <= caster.skipGroundCheckTimer
            ==> r.caster.skipGroundCheckTimer <= caster.skipGroundCheckTimer
  {
    if frameDelta == 0.0 then Detection(caster, cast)
    else if Casts(caster) && !hasCollider then Detection(caster, cast)
    else
      var casted := if Casts(caster) then hit else None;
      var timer := if Casts(caster) then caster.skipGroundCheckTimer
                   else Countdown(caster.skipGroundCheckTimer, dt);
      var next := match casted
        case Some(h) => Some(MakeGround(caster, h))
        case None => None;
      var cast' := cast.Update(next);
      var timer' := if touching then 0.0 else timer;
      Detection(caster.(skipGroundCheckTimer := timer'), cast')
  }

  /** `n` steps of the countdown with a fixed step `dt`. */
  function CountdownN(timer: real, dt: real, n: nat): real
  {
    if n == 0 then timer else Countdown(CountdownN(timer, dt, n - 1), dt)
  }

  /**
   * With a non-negative step, `n` ticks of skipping take `n * dt` off the
   * timer, stopping at zero.
   */
  lemma {:induction false} CountdownSteps(timer: real, dt: real, n: nat)
    requires 0.0 <= dt && 0.0 <= timer
    ensures n > 0 ==> CountdownN(timer, dt, n) == Max(timer - (n as real) * dt, 0.0)
  {
    if n > 1 {
      CountdownSteps(timer, dt, n - 1);
      var prev := CountdownN(timer, dt, n - 1);
      assert (n as real) * dt == ((n - 1) as real) * dt + dt;
      if timer - ((n - 1) as real) * dt <= 0.0 {
        assert prev == 0.0;
      } else {
        assert prev == timer - ((n - 1) as real) * dt;
      }
    }
  }

  /** Once `n * dt` covers the timer, the skip is over and casting resumes (absent an override). */
  lemma SkipEnds(caster: GroundCaster, dt: real, n: nat)
    requires 0.0 <= dt && 0.0 <= caster.skipGroundCheckTimer
    requires 0 < n && caster.skipGroundCheckTimer <= (n as real) * dt
    requires !caster.skipGroundCheckOverride
    ensures Casts(caster.(skipGroundCheckTimer := CountdownN(caster.skipGroundCheckTimer, dt, n)))
  {
    CountdownSteps(caster.skipGroundCheckTimer, dt, n);
  }

  // ------------------------------------------------------------ groundedness

  /** The grounded band around the float distance, widened by the up-velocity. */
  datatype Band = Band(min: real, max: real)

  /**
   * A body moving up faster than `maxOffset` may sit that much further above
   * the float distance; one moving down faster than `-minOffset` that much
   * further below it.
   */
  function GroundedBand(float: Float, upVelocity: real): (b: Band)
    ensures upVelocity <= float.maxOffset ==> b.max == float.maxOffset
    ensures float.minOffset <= upVelocity ==> b.min == float.minOffset
    // Past an offset, the bound moves out by the up-velocity itself.
    ensures upVelocity > float.maxOffset ==> b.max == float.maxOffset + upVelocity
    ensures upVelocity < float.minOffset ==> b.min == float.minOffset + upVelocity
    ensures b.max - float.maxOffset <= Abs(upVelocity) && float.maxOffset - b.max <= Abs(upVelocity)
    ensures b.min - float.minOffset <= Abs(upVelocity) && float.minOffset - b.min <= Abs(upVelocity)
    ensures 0.0 <= float.maxOffset ==> float.maxOffset <= b.max && upVelocity <= b.max
    ensures float.minOffset <= 0.0 ==> b.min <= float.minOffset && b.min <= upVelocity
  {
    var max := if upVelocity > float.maxOffset then float.maxOffset + upVelocity else float.maxOffset;
    var min := if upVelocity < float.minOffset then float.minOffset + upVelocity else float.minOffset;
    Band(min, max)
  }

  /**
   * Is the controller grounded: touching viable ground, with the distance
   * below the float target inside the velocity-widened band.
   */
  function Groundedness(float: Float, current: Option<Ground>, up: Vec3, translation: Vec3, velocity: Vec3): (r: bool)
    ensures r ==> current.Some? && current.value.viable
    ensures current.Some? && current.value.viable
            ==> (r <==> GroundedBand(float, Dot(velocity, up)).min
                        <= Displacement(float, current.value, up, translation)
                        <= GroundedBand(float, Dot(velocity, up)).max)
  {
    match current
    case None => false
    case Some(ground) =>
      if ground.viable then
        var upVelocity := Dot(velocity, up);
        var updatedToi := Dot(translation, up) - Dot(ground.cast.point, up);
        var offset := float.distance - updatedToi;
        var band := GroundedBand(float, upVelocity);
        offset >= band.min && offset <= band.max
      else false
  }

  /**
   * When the band contains the float target, a body grounded while at rest
   * along up stays grounded at any up-velocity: the velocity only widens.
   */
  lemma BandOnlyWidens(float: Float, ground: Ground, up: Vec3, translation: Vec3, velocity: Vec3, resting: Vec3)
    requires float.minOffset <= 0.0 <= float.maxOffset
    requires Dot(resting, up) == 0.0
    requires Groundedness(float, Some(ground), up, translation, resting)
    ensures Groundedness(float, Some(ground), up, translation, velocity)
  {
  }

  /** A viable ground right at the float distance counts as grounded when at rest along up. */
  lemma GroundedAtFloatDistance(float: Float, ground: Ground, up: Vec3, translation: Vec3, velocity: Vec3)
    requires float.minOffset <= 0.0 <= float.maxOffset && ground.viable
    requires Dot(velocity, up) == 0.0
    requires Displacement(float, ground, up, translation) == 0.0
    ensures Groundedness(float, Some(ground), up, translation, velocity)
  {
  }

  /** The grounded flag only looks at the current ground, never at the remembered one. */
  lemma GroundednessIgnoresMemory(float: Float, c1: GroundCast, c2: GroundCast, up: Vec3, translation: Vec3, velocity: Vec3)
    requires c1.current == c2.current
    ensures Groundedness(float, c1.current, up, translation, velocity)
            == Groundedness(float, c2.current, up, translation, velocity)
  {
  }
}
