/**
 * The jump state machine (src/controller/movement.rs, `jump_force`): rising-edge
 * detection of the jump input, a coyote timer (a jump is still allowed shortly
 * after leaving the ground), a buffer timer (a press shortly before landing
 * fires on landing), a counter of extra airborne jumps, and the jump timer.
 *
 * When a jump fires, the controller's velocity along up is cancelled and the
 * initial jump force applied, the float force of the tick is dropped, and the
 * ground check is suspended for a while.
 *
 * The sustained or stopping force the source computes while a jump is active
 * is never written to the output, so only its effect on the jump timer is
 * modelled; the decay curve it would use plays no part.
 *
 * `JumpForceAsWritten` is the step as the source writes it. `JumpForce`, used
 * by the rest of the model, also empties the coyote timer when a jump fires, so
 * that the coyote window cannot give a second, free jump (see `CoyoteRefire`).
 */
module Jumping {
  import opened Vectors

  /** Grace period after leaving the ground, and its timer. */
  datatype CoyoteTime = CoyoteTime(duration: real, timer: real)

  /** Number of airborne jumps allowed, and how many are left (unsigned 32-bit in the source). */
  datatype ExtraJumps = ExtraJumps(extra: nat, remaining: nat)

  datatype Jump = Jump(
    pressedLastFrame: bool,
    timer: real,
    bufferTimer: real,
    initialForce: real,
    force: real,
    stopForce: real,
    time: real,
    bufferDuration: real,
    skipGroundCheckDuration: real,
    coyoteTime: CoyoteTime,
    extraJumps: ExtraJumps)

  const DefaultCoyoteTime: CoyoteTime := CoyoteTime(0.16, 0.0)
  const DefaultExtraJumps: ExtraJumps := ExtraJumps(0, 0)
  const DefaultJump: Jump :=
    Jump(false, 0.0, 0.0, 1000.0, 500.0, 0.3, 0.5, 0.16, 0.5, DefaultCoyoteTime, DefaultExtraJumps)

  /** What one tick of the jump step reads: the jump input, groundedness, step, up vector and velocity. */
  datatype JumpInput = JumpInput(jumping: bool, grounded: bool, dt: real, up: Vec3, velocity: Vec3)

  /** The new jump state, the jump force, the (possibly dropped) float force and the skip-ground-check timer. */
  datatype JumpOutcome = JumpOutcome(jump: Jump, force: Vec3, floatForce: Vec3, skipGroundCheckTimer: real)

  /** Timers never negative, durations never negative, and no more charges left than allowed. */
  predicate Valid(j: Jump)
  {
    && 0.0 <= j.timer && 0.0 <= j.bufferTimer && 0.0 <= j.coyoteTime.timer
    && 0.0 <= j.time && 0.0 <= j.bufferDuration && 0.0 <= j.skipGroundCheckDuration
    && 0.0 <= j.coyoteTime.duration
    && j.extraJumps.remaining <= j.extraJumps.extra
  }

  /** The two jump states agree on every setting; only the runtime state may differ. */
  predicate SameSettings(a: Jump, b: Jump)
  {
    && a.initialForce == b.initialForce && a.force == b.force && a.stopForce == b.stopForce
    && a.time == b.time && a.bufferDuration == b.bufferDuration
    && a.skipGroundCheckDuration == b.skipGroundCheckDuration
    && a.coyoteTime.duration == b.coyoteTime.duration && a.extraJumps.extra == b.extraJumps.extra
  }

  predicate JustJumped(j: Jump, input: JumpInput)
  {
    input.jumping && !j.pressedLastFrame
  }

  /**
   * When a jump fires, stated on the state before the step: a new press or a
   * buffered one still pending after this tick's decay, and ground, coyote
   * time left after this tick's decay, or an extra jump.
   */
  predicate Fires(j: Jump, input: JumpInput)
  {
    && (JustJumped(j, input) || (if input.grounded then j.bufferTimer > 0.0 else j.bufferTimer > input.dt))
    && (input.grounded || j.coyoteTime.timer > input.dt || j.extraJumps.remaining > 0)
  }

  /** Does the jump spend an extra jump: airborne with the coyote time used up. */
  predicate SpendsCharge(j: Jump, input: JumpInput)
  {
    !input.grounded && j.coyoteTime.timer <= input.dt
  }

  /** The launch impulse: cancel the velocity along up, then push with the initial force. */
  function LaunchForce(initialForce: real, up: Vec3, velocity: Vec3): (r: Vec3)
    ensures up == UnitY ==> r == Vec3(0.0, initialForce - velocity.y, 0.0)
    ensures up == Neg(UnitY) ==> r == Vec3(0.0, velocity.y - initialForce, 0.0)
    ensures velocity == Zero ==> r == Scale(up, initialForce)
  {
    LaunchAlongY(initialForce, velocity);
    ScaleOfZero(up, initialForce);
    Add(Neg(Mul(velocity, up)), Scale(up, initialForce))
  }

  lemma LaunchAlongY(initialForce: real, velocity: Vec3)
    ensures Add(Neg(Mul(velocity, UnitY)), Scale(UnitY, initialForce)) == Vec3(0.0, initialForce - velocity.y, 0.0)
    ensures Add(Neg(Mul(velocity, Neg(UnitY))), Scale(Neg(UnitY), initialForce))
            == Vec3(0.0, velocity.y - initialForce, 0.0)
  {
  }

  lemma ScaleOfZero(up: Vec3, k: real)
    ensures Add(Neg(Mul(Zero, up)), Scale(up, k)) == Scale(up, k)
  {
  }

  // ------------------------------------------------------------ the step, stage by stage

  /** Landing refills the charges and the coyote time; in the air the timers run down and a press is buffered. */
  function Bookkeep(j: Jump, input: JumpInput): Jump
  {
    if input.grounded then
      j.(extraJumps := j.extraJumps.(remaining := j.extraJumps.extra),
         coyoteTime := j.coyoteTime.(timer := j.coyoteTime.duration))
    else
      j.(coyoteTime := j.coyoteTime.(timer := Max(j.coyoteTime.timer - input.dt, 0.0)),
         bufferTimer := if JustJumped(j, input) then j.bufferDuration else Max(j.bufferTimer - input.dt, 0.0))
  }

  /** An active airborne jump ends when the input is released and otherwise runs its timer down. */
  function Sustain(j: Jump, input: JumpInput): Jump
  {
    if j.timer > 0.0 && !input.grounded then
      j.(timer := if !input.jumping then 0.0 else Max(j.timer - input.dt, 0.0))
    else j
  }

  /**
   * The whole step. `clearCoyote` selects the corrected behaviour, which also
   * empties the coyote timer when a jump fires.
   */
  function Step(j: Jump, input: JumpInput, floatForce: Vec3, skipTimer: real, clearCoyote: bool): JumpOutcome
  {
    var just := JustJumped(j, input);
    var j2 := Sustain(Bookkeep(j, input), input);
    var coyoteTimer := j2.coyoteTime.timer;
    var remaining := j2.extraJumps.remaining;
    if (just || j2.bufferTimer > 0.0) && (input.grounded || coyoteTimer > 0.0 || remaining > 0) then
      var left := if !input.grounded && coyoteTimer == 0.0 then remaining - 1 else remaining;
      var coyote := if clearCoyote then j2.coyoteTime.(timer := 0.0) else j2.coyoteTime;
      var j3 := j2.(extraJumps := j2.extraJumps.(remaining := left), bufferTimer := 0.0, timer := j2.time,
                    coyoteTime := coyote, pressedLastFrame := input.jumping);
      JumpOutcome(j3, LaunchForce(j2.initialForce, input.up, input.velocity), Zero, j2.skipGroundCheckDuration)
    else
      JumpOutcome(j2.(pressedLastFrame := input.jumping), Zero, floatForce, skipTimer)
  }

  /**
   * One tick of `jump_force`, with the coyote timer emptied by a jump.
   * `floatForce` is the float force computed earlier in the tick and
   * `skipTimer` the caster's skip-ground-check timer.
   */
  function JumpForce(j: Jump, input: JumpInput, floatForce: Vec3, skipTimer: real): (r: JumpOutcome)
    // Settings are never changed, and the input is remembered for edge detection.
    ensures SameSettings(r.jump, j) && r.jump.pressedLastFrame == input.jumping
    // A jump: launch impulse, no float force, ground check suspended, timers restarted.
    ensures Fires(j, input)
            ==> && r.force == LaunchForce(j.initialForce, input.up, input.velocity)
                && r.floatForce == Zero
                && r.skipGroundCheckTimer == j.skipGroundCheckDuration
                && r.jump.timer == j.time && r.jump.bufferTimer == 0.0 && r.jump.coyoteTime.timer == 0.0
    // No jump: no force, and the float force and the skip timer pass through.
    ensures !Fires(j, input)
            ==> r.force == Zero && r.floatForce == floatForce && r.skipGroundCheckTimer == skipTimer
    // Charges: refilled on the ground, spent only by an airborne jump after the coyote time.
    ensures r.jump.extraJumps.remaining
            == if input.grounded then j.extraJumps.extra
               else if Fires(j, input) && SpendsCharge(j, input) then j.extraJumps.remaining - 1
               else j.extraJumps.remaining
    // The timers when no jump fires.
    ensures !Fires(j, input)
            ==> r.jump.coyoteTime.timer
                == (if input.grounded then j.coyoteTime.duration else Max(j.coyoteTime.timer - input.dt, 0.0))
    ensures !Fires(j, input)
            ==> r.jump.bufferTimer
                == (if input.grounded then j.bufferTimer
                    else if JustJumped(j, input) then j.bufferDuration
                    else Max(j.bufferTimer - input.dt, 0.0))
    ensures !Fires(j, input) && j.timer > 0.0 && !input.grounded
            ==> r.jump.timer == (if input.jumping then Max(j.timer - input.dt, 0.0) else 0.0)
    ensures !Fires(j, input) && !(j.timer > 0.0 && !input.grounded) ==> r.jump.timer == j.timer
  {
    Step(j, input, floatForce, skipTimer, true)
  }

  /** One tick of `jump_force` exactly as the source writes it: the coyote timer survives a jump. */
  function JumpForceAsWritten(j: Jump, input: JumpInput, floatForce: Vec3, skipTimer: real): (r: JumpOutcome)
    ensures var c := JumpForce(j, input, floatForce, skipTimer);
            && r.force == c.force && r.floatForce == c.floatForce
            && r.skipGroundCheckTimer == c.skipGroundCheckTimer
            && r.jump == c.jump.(coyoteTime := r.jump.coyoteTime)
    ensures r.jump.coyoteTime.duration == j.coyoteTime.duration
    ensures r.jump.coyoteTime.timer
            == (if input.grounded then j.coyoteTime.duration else Max(j.coyoteTime.timer - input.dt, 0.0))
  {
    Step(j, input, floatForce, skipTimer, false)
  }

  // ------------------------------------------------------------ invariants

  lemma DefaultJumpValid()
    ensures Valid(DefaultJump)
    ensures DefaultJump.coyoteTime.duration == 0.16 && DefaultJump.extraJumps == ExtraJumps(0, 0)
  {
  }

  /** With a non-negative step the state stays valid, and the skip timer stays non-negative. */
  lemma JumpForcePreservesValid(j: Jump, input: JumpInput, floatForce: Vec3, skipTimer: real)
    requires Valid(j) && 0.0 <= input.dt
    ensures Valid(JumpForce(j, input, floatForce, skipTimer).jump)
    ensures 0.0 <= skipTimer ==> 0.0 <= JumpForce(j, input, floatForce, skipTimer).skipGroundCheckTimer
  {
  }

  /** An extra jump is only ever spent by an airborne jump, one at a time, and never below zero. */
  lemma ChargeSpentOnlyByAirJump(j: Jump, input: JumpInput, floatForce: Vec3, skipTimer: real)
    requires !input.grounded
    ensures var r := JumpForce(j, input, floatForce, skipTimer);
            r.jump.extraJumps.remaining < j.extraJumps.remaining
            <==> Fires(j, input) && SpendsCharge(j, input)
    ensures var r := JumpForce(j, input, floatForce, skipTimer);
            Fires(j, input) && SpendsCharge(j, input) ==> 0 < j.extraJumps.remaining
  {
  }

  /** Holding the button after a jump never fires another one. */
  lemma HeldButtonDoesNotRepeat(j: Jump, input: JumpInput, next: JumpInput, floatForce: Vec3, skipTimer: real)
    requires Valid(j) && 0.0 <= input.dt && 0.0 <= next.dt
    requires Fires(j, input) && input.jumping && next.jumping
    ensures !Fires(JumpForce(j, input, floatForce, skipTimer).jump, next)
  {
  }

  /** The step as the source writes it keeps the same invariant. */
  lemma JumpForceAsWrittenPreservesValid(j: Jump, input: JumpInput, floatForce: Vec3, skipTimer: real)
    requires Valid(j) && 0.0 <= input.dt
    ensures Valid(JumpForceAsWritten(j, input, floatForce, skipTimer).jump)
    ensures 0.0 <= skipTimer ==> 0.0 <= JumpForceAsWritten(j, input, floatForce, skipTimer).skipGroundCheckTimer
  {
    JumpForcePreservesValid(j, input, floatForce, skipTimer);
  }

  /** Either step, corrected or as written, keeps the state valid. */
  lemma StepPreservesValid(j: Jump, input: JumpInput, floatForce: Vec3, skipTimer: real, corrected: bool)
    requires Valid(j) && 0.0 <= input.dt
    ensures Valid(Step(j, input, floatForce, skipTimer, corrected).jump)
    ensures SameSettings(Step(j, input, floatForce, skipTimer, corrected).jump, j)
  {
    if corrected {
      JumpForcePreservesValid(j, input, floatForce, skipTimer);
    } else {
      JumpForceAsWrittenPreservesValid(j, input, floatForce, skipTimer);
    }
  }

  /**
   * The jump state after a run of ticks with no float force and no skip
   * timer, with the corrected step or the step as written.
   */
  function RunJump(j: Jump, inputs: seq<JumpInput>, corrected: bool): Jump
  {
    if |inputs| == 0 then j
    else Step(RunJump(j, inputs[..|inputs| - 1], corrected), inputs[|inputs| - 1], Zero, 0.0, corrected).jump
  }

  /** Validity holds after any run of ticks with non-negative steps, for either step. */
  lemma {:induction false} RunJumpPreservesValid(j: Jump, inputs: seq<JumpInput>, corrected: bool)
    requires Valid(j)
    requires forall k :: 0 <= k < |inputs| ==> 0.0 <= inputs[k].dt
    ensures Valid(RunJump(j, inputs, corrected))
    ensures SameSettings(RunJump(j, inputs, corrected), j)
  {
    if |inputs| > 0 {
      var prefix := inputs[..|inputs| - 1];
      assert forall k :: 0 <= k < |prefix| ==> prefix[k] == inputs[k];
      RunJumpPreservesValid(j, prefix, corrected);
      StepPreservesValid(RunJump(j, prefix, corrected), inputs[|inputs| - 1], Zero, 0.0, corrected);
    }
  }

  /** The total time of a run of ticks. */
  function SumDt(inputs: seq<JumpInput>): real
  {
    if |inputs| == 0 then 0.0 else SumDt(inputs[..|inputs| - 1]) + inputs[|inputs| - 1].dt
  }

  /** Airborne ticks with the button up and non-negative steps. */
  predicate Drifting(inputs: seq<JumpInput>)
  {
    forall k :: 0 <= k < |inputs| ==> !inputs[k].grounded && !inputs[k].jumping && 0.0 <= inputs[k].dt
  }

  /** Nothing pending can fire in the air: no buffered press, or no coyote time and no charge. */
  predicate Quiet(j: Jump)
  {
    j.bufferTimer <= 0.0 || (j.coyoteTime.timer <= 0.0 && j.extraJumps.remaining <= 0)
  }

  /** `r` is `j` after drifting for `total`: quiet, charges kept, button up, timers run down by `total`. */
  predicate DriftedFrom(j: Jump, r: Jump, total: real)
  {
    && Quiet(r) && r.extraJumps == j.extraJumps && !r.pressedLastFrame
    && r.coyoteTime.timer == Max(j.coyoteTime.timer - total, 0.0)
    && r.bufferTimer == Max(j.bufferTimer - total, 0.0)
  }

  /**
   * Drifting from a quiet state fires nothing: each tick only runs the coyote
   * and buffer timers down by its step, and releases the button.
   */
  lemma DriftRun(j: Jump, drift: seq<JumpInput>, corrected: bool)
    requires Drifting(drift) && Quiet(j)
    ensures forall k :: 0 <= k < |drift| ==> !Fires(RunJump(j, drift[..k], corrected), drift[k])
    ensures |drift| == 0 ==> RunJump(j, drift, corrected) == j
    ensures |drift| > 0 ==> DriftedFrom(j, RunJump(j, drift, corrected), SumDt(drift))
  {
    forall k | 0 <= k < |drift|
      ensures !Fires(RunJump(j, drift[..k], corrected), drift[k])
    {
      assert Drifting(drift[..k]) by {
        assert forall i :: 0 <= i < k ==> drift[..k][i] == drift[i];
      }
      DriftState(j, drift[..k], corrected);
      DriftTick(RunJump(j, drift[..k], corrected), drift[k], corrected);
    }
    DriftState(j, drift, corrected);
  }

  /** The state after drifting: quiet, and drifted by the total time of the run. */
  lemma {:induction false} DriftState(j: Jump, drift: seq<JumpInput>, corrected: bool)
    requires Drifting(drift) && Quiet(j)
    ensures Quiet(RunJump(j, drift, corrected))
    ensures |drift| == 0 ==> RunJump(j, drift, corrected) == j
    ensures |drift| > 0 ==> DriftedFrom(j, RunJump(j, drift, corrected), SumDt(drift))
  {
    if |drift| > 0 {
      var prefix := drift[..|drift| - 1];
      var last := drift[|drift| - 1];
      assert Drifting(prefix) by {
        assert forall k :: 0 <= k < |prefix| ==> prefix[k] == drift[k];
      }
      DriftState(j, prefix, corrected);
      var p := RunJump(j, prefix, corrected);
      var r := Step(p, last, Zero, 0.0, corrected).jump;
      assert RunJump(j, drift, corrected) == r;
      SumDtPrefix(drift);
      DriftTick(p, last, corrected);
      if |prefix| > 0 {
        DriftCompose(j, p, r, SumDt(prefix), last.dt);
      } else {
        assert p == j && SumDt(drift) == last.dt;
      }
    }
  }

  /** One drifting tick from a quiet state fires nothing and drifts by its step. */
  lemma DriftTick(p: Jump, input: JumpInput, corrected: bool)
    requires Quiet(p) && !input.grounded && !input.jumping && 0.0 <= input.dt
    ensures !Fires(p, input)
    ensures DriftedFrom(p, Step(p, input, Zero, 0.0, corrected).jump, input.dt)
  {
  }

  /** Two drifts in a row are one drift for the summed time. */
  lemma DriftCompose(j: Jump, p: Jump, r: Jump, s: real, dt: real)
    requires 0.0 <= dt && DriftedFrom(j, p, s) && DriftedFrom(p, r, dt)
    ensures DriftedFrom(j, r, s + dt)
  {
    MaxShift(j.coyoteTime.timer, s, dt);
    MaxShift(j.bufferTimer, s, dt);
  }

  lemma MaxShift(c: real, s: real, dt: real)
    requires 0.0 <= dt
    ensures Max(Max(c - s, 0.0) - dt, 0.0) == Max(c - (s + dt), 0.0)
  {
  }

  lemma SumDtPrefix(drift: seq<JumpInput>)
    requires Drifting(drift) && |drift| > 0
    ensures SumDt(drift) == SumDt(drift[..|drift| - 1]) + drift[|drift| - 1].dt
    ensures 0.0 <= drift[|drift| - 1].dt
  {
  }

  /**
   * A press in the air with nothing to jump with does not fire but is
   * buffered; after drifting for less than the buffer duration, landing
   * fires the jump.
   */
  lemma BufferedJumpFiresOnLanding(j: Jump, press: JumpInput, drift: seq<JumpInput>, land: JumpInput, corrected: bool)
    requires !press.grounded && press.jumping && !j.pressedLastFrame && 0.0 <= press.dt
    requires j.coyoteTime.timer <= press.dt && j.extraJumps.remaining <= 0
    requires Drifting(drift) && land.grounded && SumDt(drift) < j.bufferDuration
    ensures !Fires(j, press)
    ensures var j1 := Step(j, press, Zero, 0.0, corrected).jump;
            && (forall k :: 0 <= k < |drift| ==> !Fires(RunJump(j1, drift[..k], corrected), drift[k]))
            && Fires(RunJump(j1, drift, corrected), land)
  {
    var j1 := Step(j, press, Zero, 0.0, corrected).jump;
    PressBuffered(j, press, corrected);
    DriftRun(j1, drift, corrected);
    var jd := RunJump(j1, drift, corrected);
    assert jd.bufferTimer > 0.0 by {
      SumDtNonNegative(drift);
    }
    LandingFires(jd, land);
  }

  /** Landing with a press still buffered fires it. */
  lemma LandingFires(j: Jump, land: JumpInput)
    requires land.grounded && j.bufferTimer > 0.0
    ensures Fires(j, land)
  {
  }

  /** A fresh airborne press with no coyote time and no charge is buffered for the buffer duration. */
  lemma PressBuffered(j: Jump, press: JumpInput, corrected: bool)
    requires !press.grounded && press.jumping && !j.pressedLastFrame && 0.0 <= press.dt
    requires j.coyoteTime.timer <= press.dt && j.extraJumps.remaining <= 0
    ensures !Fires(j, press)
    ensures var j1 := Step(j, press, Zero, 0.0, corrected).jump;
            && Quiet(j1) && j1.coyoteTime.timer == 0.0 && j1.extraJumps == j.extraJumps
            && j1.bufferTimer == j.bufferDuration
  {
  }

  lemma {:induction false} SumDtNonNegative(drift: seq<JumpInput>)
    requires Drifting(drift)
    ensures 0.0 <= SumDt(drift)
  {
    if |drift| > 0 {
      var prefix := drift[..|drift| - 1];
      assert forall k :: 0 <= k < |prefix| ==> prefix[k] == drift[k];
      SumDtNonNegative(prefix);
    }
  }

  /**
   * Standing and then drifting off the ground, a press while the time spent
   * in the air, press tick included, is still below the coyote duration
   * fires and spends no extra jump.
   */
  lemma CoyoteJump(j: Jump, stand: JumpInput, drift: seq<JumpInput>, press: JumpInput, corrected: bool)
    requires stand.grounded && !stand.jumping && j.bufferTimer <= 0.0
    requires Drifting(drift)
    requires !press.grounded && press.jumping && SumDt(drift) + press.dt < j.coyoteTime.duration
    ensures var j1 := Step(j, stand, Zero, 0.0, corrected).jump;
            var jd := RunJump(j1, drift, corrected);
            && Fires(jd, press)
            && Step(jd, press, Zero, 0.0, corrected).jump.extraJumps.remaining == j.extraJumps.extra
  {
    var j1 := Step(j, stand, Zero, 0.0, corrected).jump;
    StandTick(j, stand, corrected);
    DriftState(j1, drift, corrected);
    var jd := RunJump(j1, drift, corrected);
    assert jd.coyoteTime.timer > press.dt && !jd.pressedLastFrame && jd.extraJumps.remaining == j.extraJumps.extra by {
      SumDtNonNegative(drift);
    }
    CoyotePress(jd, press, corrected);
  }

  /** Standing with the button up refills the coyote time and the charges and fires nothing pending. */
  lemma StandTick(j: Jump, stand: JumpInput, corrected: bool)
    requires stand.grounded && !stand.jumping && j.bufferTimer <= 0.0
    ensures var j1 := Step(j, stand, Zero, 0.0, corrected).jump;
            && Quiet(j1) && !j1.pressedLastFrame
            && j1.coyoteTime.timer == j.coyoteTime.duration && j1.extraJumps.remaining == j.extraJumps.extra
  {
    assert !Fires(j, stand);
  }

  /** A fresh airborne press with more coyote time left than the step fires and spends nothing. */
  lemma CoyotePress(j: Jump, press: JumpInput, corrected: bool)
    requires !press.grounded && press.jumping && !j.pressedLastFrame && j.coyoteTime.timer > press.dt
    ensures Fires(j, press)
    ensures Step(j, press, Zero, 0.0, corrected).jump.extraJumps.remaining == j.extraJumps.remaining
  {
    assert !SpendsCharge(j, press);
  }

  /** After the coyote time, an airborne press spends one extra jump if one is left, and fails otherwise. */
  lemma ExtraJump(j: Jump, press: JumpInput)
    requires !press.grounded && press.jumping && !j.pressedLastFrame
    requires j.coyoteTime.timer <= press.dt
    ensures Fires(j, press) <==> j.extraJumps.remaining > 0
    ensures j.extraJumps.remaining > 0
            ==> JumpForce(j, press, Zero, 0.0).jump.extraJumps.remaining == j.extraJumps.remaining - 1
  {
  }

  /** The inputs of one tick with the controller at rest and up along y. */
  function Tick(jumping: bool, grounded: bool, dt: real): JumpInput
  {
    JumpInput(jumping, grounded, dt, UnitY, Zero)
  }

  /**
   * One such tick with no float force and no skip timer: `JumpForce` when
   * `corrected`, `JumpForceAsWritten` otherwise.
   */
  function TickOutcome(j: Jump, jumping: bool, grounded: bool, dt: real, corrected: bool): JumpOutcome
  {
    Step(j, Tick(jumping, grounded, dt), Zero, 0.0, corrected)
  }

  /** The jump state after one tick of `JumpForce`. */
  function Next(j: Jump, jumping: bool, grounded: bool, dt: real): Jump
  {
    TickOutcome(j, jumping, grounded, dt, true).jump
  }

  /** A fresh press on the ground jumps, refills the charges and starts the jump timer. */
  lemma GroundPressTick(j: Jump, dt: real)
    requires !j.pressedLastFrame
    ensures Fires(j, Tick(true, true, dt))
    ensures Next(j, true, true, dt)
            == j.(pressedLastFrame := true, timer := j.time, bufferTimer := 0.0,
                  coyoteTime := j.coyoteTime.(timer := 0.0),
                  extraJumps := j.extraJumps.(remaining := j.extraJumps.extra))
  {
  }

  /** That jump launches with the initial force, in both versions of the step. */
  lemma GroundPressLaunches(j: Jump, dt: real, corrected: bool)
    requires !j.pressedLastFrame
    ensures TickOutcome(j, true, true, dt, corrected).force == LaunchForce(j.initialForce, UnitY, Zero)
  {
  }

  /** Releasing in the air with nothing buffered ends the active jump and fires nothing. */
  lemma AirReleaseTick(j: Jump, dt: real, corrected: bool)
    requires 0.0 <= dt && 0.0 <= j.timer && j.bufferTimer == 0.0
    ensures !Fires(j, Tick(false, false, dt))
    ensures TickOutcome(j, false, false, dt, corrected).force == Zero
    ensures TickOutcome(j, false, false, dt, corrected).jump
            == j.(pressedLastFrame := false, timer := 0.0,
                  coyoteTime := j.coyoteTime.(timer := Max(j.coyoteTime.timer - dt, 0.0)))
  {
  }

  /** A fresh press in the air after the coyote time spends one extra jump, if one is left. */
  lemma AirPressTick(j: Jump, dt: real)
    requires 0.0 <= dt && j.coyoteTime.timer == 0.0 && !j.pressedLastFrame
    ensures Fires(j, Tick(true, false, dt)) <==> j.extraJumps.remaining > 0
    ensures j.extraJumps.remaining == 0 ==> TickOutcome(j, true, false, dt, true).force == Zero
    ensures j.extraJumps.remaining > 0
            ==> Next(j, true, false, dt)
                == j.(pressedLastFrame := true, timer := j.time, bufferTimer := 0.0,
                      extraJumps := j.extraJumps.(remaining := j.extraJumps.remaining - 1))
  {
  }

  /** The default settings with one extra jump. */
  const OneCharge: Jump := DefaultJump.(extraJumps := ExtraJumps(1, 1))

  /** The state after the ground jump, and after the air jump that spends the charge. */
  const OneChargeJumped: Jump := OneCharge.(pressedLastFrame := true, timer := 0.5)
  const OneChargeSpent: Jump := OneCharge.(pressedLastFrame := true, timer := 0.5, extraJumps := ExtraJumps(1, 0))

  /** The ground jump spends nothing. */
  lemma OneChargeTick1(dt: real)
    ensures Fires(OneCharge, Tick(true, true, dt))
    ensures Next(OneCharge, true, true, dt) == OneChargeJumped
  {
    GroundPressTick(OneCharge, dt);
  }

  /** Releasing in the air ends the jump; no coyote time is left. */
  lemma OneChargeTick2(dt: real)
    requires 0.0 < dt
    ensures !Fires(OneChargeJumped, Tick(false, false, dt))
    ensures Next(OneChargeJumped, false, false, dt) == OneCharge
  {
    AirReleaseTick(OneChargeJumped, dt, true);
  }

  /** The second press, in the air, spends the charge. */
  lemma OneChargeTick3(dt: real)
    requires 0.0 < dt
    ensures Fires(OneCharge, Tick(true, false, dt))
    ensures Next(OneCharge, true, false, dt) == OneChargeSpent
  {
    AirPressTick(OneCharge, dt);
  }

  /** Releasing again; a third press before landing finds nothing to jump with. */
  lemma OneChargeTick4(dt: real)
    requires 0.0 < dt
    ensures !Fires(OneChargeSpent, Tick(false, false, dt))
    ensures !Fires(Next(OneChargeSpent, false, false, dt), Tick(true, false, dt))
  {
    AirReleaseTick(OneChargeSpent, dt, true);
    AirPressTick(Next(OneChargeSpent, false, false, dt), dt);
  }

  /**
   * With one extra jump: the ground jump spends nothing, the second jump just
   * after leaving the ground spends the charge, and a third before landing fails.
   */
  lemma OneChargeScenario(dt: real)
    requires 0.0 < dt
    ensures var j1 := Next(OneCharge, true, true, dt);
            var j2 := Next(j1, false, false, dt);
            var j3 := Next(j2, true, false, dt);
            var j4 := Next(j3, false, false, dt);
            && Fires(OneCharge, Tick(true, true, dt)) && j1.extraJumps.remaining == 1
            && !Fires(j1, Tick(false, false, dt))
            && Fires(j2, Tick(true, false, dt)) && j3.extraJumps.remaining == 0
            && !Fires(j3, Tick(false, false, dt))
            && !Fires(j4, Tick(true, false, dt))
  {
    OneChargeTick1(dt);
    OneChargeTick2(dt);
    OneChargeTick3(dt);
    OneChargeTick4(dt);
  }

  /** As written, a ground jump leaves the coyote timer full. */
  lemma GroundPressTickAsWritten(j: Jump, dt: real)
    requires !j.pressedLastFrame
    ensures TickOutcome(j, true, true, dt, false).jump
            == j.(pressedLastFrame := true, timer := j.time, bufferTimer := 0.0,
                  coyoteTime := j.coyoteTime.(timer := j.coyoteTime.duration),
                  extraJumps := j.extraJumps.(remaining := j.extraJumps.extra))
  {
  }

  /** As written, an airborne press within the remaining coyote time jumps again and spends nothing. */
  lemma CoyotePressTickAsWritten(j: Jump, dt: real)
    requires !j.pressedLastFrame && j.coyoteTime.timer > dt
    ensures TickOutcome(j, true, false, dt, false).force == LaunchForce(j.initialForce, UnitY, Zero)
    ensures TickOutcome(j, true, false, dt, false).jump.extraJumps == j.extraJumps
  {
  }

  /** The state after a default ground jump as written: the full coyote time survives the jump. */
  const AfterGroundJumpAsWritten: Jump :=
    DefaultJump.(pressedLastFrame := true, timer := 0.5, coyoteTime := CoyoteTime(0.16, 0.16))

  /** The state after then releasing in the air for `dt`, as written. */
  function AfterReleaseAsWritten(dt: real): Jump
  {
    DefaultJump.(coyoteTime := CoyoteTime(0.16, 0.16 - dt))
  }

  /** As written, a default ground jump launches with the initial force and keeps the full coyote time. */
  lemma AsWrittenTick1(dt: real)
    ensures TickOutcome(DefaultJump, true, true, dt, false).force == Vec3(0.0, 1000.0, 0.0)
    ensures TickOutcome(DefaultJump, true, true, dt, false).jump == AfterGroundJumpAsWritten
  {
    GroundPressTickAsWritten(DefaultJump, dt);
    GroundPressLaunches(DefaultJump, dt, false);
  }

  /** As written, releasing in the air then leaves `0.16 - dt` of coyote time. */
  lemma AsWrittenTick2(dt: real)
    requires 0.0 <= dt <= 0.16
    ensures TickOutcome(AfterGroundJumpAsWritten, false, false, dt, false).jump == AfterReleaseAsWritten(dt)
  {
    AirReleaseTick(AfterGroundJumpAsWritten, dt, false);
  }

  /** As written, a press with `0.16 - dt > dt` of coyote time left launches a full jump and spends nothing. */
  lemma AsWrittenTick3(dt: real)
    requires 0.0 < dt && dt + dt < 0.16
    ensures TickOutcome(AfterReleaseAsWritten(dt), true, false, dt, false).force == Vec3(0.0, 1000.0, 0.0)
    ensures TickOutcome(AfterReleaseAsWritten(dt), true, false, dt, false).jump.extraJumps == ExtraJumps(0, 0)
  {
    CoyotePressTickAsWritten(AfterReleaseAsWritten(dt), dt);
  }

  /**
   * As written, with the default settings (no extra jumps) and any step
   * shorter than half the coyote duration, pressing again two ticks after a
   * ground jump launches a second full jump without spending anything.
   */
  lemma CoyoteRefire(dt: real)
    requires 0.0 < dt && dt + dt < 0.16
    ensures var w1 := TickOutcome(DefaultJump, true, true, dt, false);
            var w2 := TickOutcome(w1.jump, false, false, dt, false);
            var w3 := TickOutcome(w2.jump, true, false, dt, false);
            && w1.force == Vec3(0.0, 1000.0, 0.0) && w3.force == Vec3(0.0, 1000.0, 0.0)
            && w3.jump.extraJumps == ExtraJumps(0, 0)
  {
    AsWrittenTick1(dt);
    AsWrittenTick2(dt);
    AsWrittenTick3(dt);
  }

  /** The state after a default ground jump with the corrected step. */
  const AfterGroundJump: Jump := DefaultJump.(pressedLastFrame := true, timer := 0.5)

  /** With the corrected step the ground jump empties the coyote timer. */
  lemma CorrectedTick1(dt: real)
    ensures TickOutcome(DefaultJump, true, true, dt, true).force == Vec3(0.0, 1000.0, 0.0)
    ensures TickOutcome(DefaultJump, true, true, dt, true).jump == AfterGroundJump
  {
    GroundPressTick(DefaultJump, dt);
    GroundPressLaunches(DefaultJump, dt, true);
  }

  /** ... so that releasing in the air returns to the default state. */
  lemma CorrectedTick2(dt: real)
    requires 0.0 <= dt
    ensures TickOutcome(AfterGroundJump, false, false, dt, true).jump == DefaultJump
  {
    AirReleaseTick(AfterGroundJump, dt, true);
  }

  /** The same presses with the corrected step: the second press finds no coyote time and no charge. */
  lemma CoyoteRefireRefused(dt: real)
    requires 0.0 < dt
    ensures var c1 := TickOutcome(DefaultJump, true, true, dt, true);
            var c2 := TickOutcome(c1.jump, false, false, dt, true);
            var c3 := TickOutcome(c2.jump, true, false, dt, true);
            c1.force == Vec3(0.0, 1000.0, 0.0) && c3.force == Zero
  {
    CorrectedTick1(dt);
    CorrectedTick2(dt);
    AirPressTick(DefaultJump, dt);
  }
}
