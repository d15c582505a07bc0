/**
 * Strength and spring arithmetic (src/spring.rs): how a configured strength
 * turns into a force scale, and the critical-damping point of a damped
 * harmonic oscillator, `2 * sqrt(inertia * stiffness)` per axis.
 */
module Springs {
  import opened Vectors

  /** A generic strength: per tick (`Instant`), per unit mass (`Scaled`) or absolute (`Raw`). */
  datatype Strength = Instant(raw: real) | Scaled(raw: real) | Raw(raw: real)
  {
    function Get(mass: real, dt: real): (r: real)
      requires Instant? ==> dt != 0.0
      ensures Raw? ==> r == raw
      ensures Scaled? ==> r == raw * mass
      ensures Instant? ==> r * dt == raw * mass
    {
      match this
      case Instant(raw) => raw * mass / dt
      case Scaled(raw) => raw * mass
      case Raw(raw) => raw
    }
  }

  /** How a spring's stiffness is given: as an angular frequency or a raw coefficient. */
  datatype SpringStrength = AngularFrequency(angular: real) | StiffnessCoefficient(coefficient: real)
  {
    function Get(mass: Vec3): (r: Vec3)
      ensures StiffnessCoefficient? ==> r == Splat(coefficient)
    {
      match this
      case AngularFrequency(angular) => Scale(Scale(mass, angular), angular)
      case StiffnessCoefficient(raw) => Splat(raw)
    }
  }

  /** One axis of the critical damping point: `2 * sqrt(inertia * stiffness)`. */
  function AxisCriticalPoint(sqrt: real -> real, inertia: real, stiffness: real): real
  {
    Root(sqrt, inertia * stiffness) * 2.0
  }

  /** A damped harmonic oscillator: its stiffness and its damping ratio. */
  datatype Spring = Spring(strength: SpringStrength, damping: real)
  {
    /** The damping coefficient that just reaches the target without overshooting. */
    function CriticalDampingPoint(inertia: Vec3, sqrt: real -> real): Vec3
    {
      var k := strength.Get(inertia);
      Vec3(AxisCriticalPoint(sqrt, inertia.x, k.x),
           AxisCriticalPoint(sqrt, inertia.y, k.y),
           AxisCriticalPoint(sqrt, inertia.z, k.z))
    }

    /** The damping coefficient for this spring's damping ratio. */
    function DampCoefficient(inertia: Vec3, sqrt: real -> real): (r: Vec3)
      requires SqrtLaws(sqrt)
      ensures damping == 0.0 ==> r == Zero
      ensures 0.0 <= damping ==> 0.0 <= r.x && 0.0 <= r.y && 0.0 <= r.z
    {
      var c := CriticalDampingPoint(inertia, sqrt);
      CriticalPointSquares(this, inertia, sqrt);
      ScaleNonNegative(c, damping);
      Scale(c, damping)
    }
  }

  /** `c` is non-negative and, where `i * k` is, its square is `4 * i * k`. */
  predicate CriticalSquare(c: real, i: real, k: real)
  {
    0.0 <= c && (0.0 <= i * k ==> c * c == 4.0 * (i * k))
  }

  /**
   * The critical damping point `c` of each axis is non-negative and is the one
   * whose square is four times inertia times stiffness: `c * c == 4 * i * k`.
   */
  lemma CriticalPointSquares(spring: Spring, inertia: Vec3, sqrt: real -> real)
    requires SqrtLaws(sqrt)
    ensures var r := spring.CriticalDampingPoint(inertia, sqrt);
            var k := spring.strength.Get(inertia);
            && CriticalSquare(r.x, inertia.x, k.x)
            && CriticalSquare(r.y, inertia.y, k.y)
            && CriticalSquare(r.z, inertia.z, k.z)
  {
    var k := spring.strength.Get(inertia);
    RootSquare(sqrt, inertia.x, k.x);
    RootSquare(sqrt, inertia.y, k.y);
    RootSquare(sqrt, inertia.z, k.z);
  }

  lemma ScaleNonNegative(c: Vec3, k: real)
    requires 0.0 <= c.x && 0.0 <= c.y && 0.0 <= c.z
    ensures k == 0.0 ==> Scale(c, k) == Zero
    ensures 0.0 <= k ==> 0.0 <= Scale(c, k).x && 0.0 <= Scale(c, k).y && 0.0 <= Scale(c, k).z
  {
    if 0.0 <= k {
      MulNonNegative(c.x, k);
      MulNonNegative(c.y, k);
      MulNonNegative(c.z, k);
    }
  }

  lemma RootSquare(sqrt: real -> real, i: real, k: real)
    requires SqrtLaws(sqrt)
    ensures CriticalSquare(AxisCriticalPoint(sqrt, i, k), i, k)
  {
    var s := Root(sqrt, i * k);
    RootLaws(sqrt, i * k);
    if 0.0 <= i * k {
      assert s * s == i * k;
      assert (s * 2.0) * (s * 2.0) == 4.0 * (s * s);
    }
  }

  const DefaultSpring: Spring := Spring(AngularFrequency(1.0), 0.25)

  /** For a non-negative inertia and the stiffness of angular frequency `w`, an axis is `2 * i * |w|`. */
  lemma CriticalAxis(sqrt: real -> real, i: real, w: real, k: real)
    requires SqrtLaws(sqrt)
    requires 0.0 <= i && k == (i * w) * w
    ensures AxisCriticalPoint(sqrt, i, k) == i * (2.0 * Abs(w))
  {
    var y := i * Abs(w);
    MulNonNegative(i, Abs(w));
    assert Abs(w) * Abs(w) == w * w;
    assert i * k == y * y;
    AxisOfSquare(sqrt, i, k, y);
    assert y * 2.0 == i * (2.0 * Abs(w));
  }

  /** When inertia times stiffness is the square of `y >= 0`, the axis is `2 * y`. */
  lemma AxisOfSquare(sqrt: real -> real, i: real, k: real, y: real)
    requires SqrtLaws(sqrt)
    requires 0.0 <= y && i * k == y * y
    ensures AxisCriticalPoint(sqrt, i, k) == y * 2.0
  {
    SqrtOfSquare(sqrt, i * k, y);
  }

  /**
   * For a spring given by angular frequency `w` and a non-negative inertia,
   * the critical damping point is `2 * inertia * |w|` on every axis.
   */
  lemma CriticalDampingOfAngularFrequency(w: real, damping: real, inertia: Vec3, sqrt: real -> real)
    requires SqrtLaws(sqrt)
    requires 0.0 <= inertia.x && 0.0 <= inertia.y && 0.0 <= inertia.z
    ensures Spring(AngularFrequency(w), damping).CriticalDampingPoint(inertia, sqrt)
            == Scale(inertia, 2.0 * Abs(w))
  {
    var k := AngularFrequency(w).Get(inertia);
    CriticalAxis(sqrt, inertia.x, w, k.x);
    CriticalAxis(sqrt, inertia.y, w, k.y);
    CriticalAxis(sqrt, inertia.z, w, k.z);
  }

  /** The default spring's damping coefficient is half the inertia on each axis. */
  lemma DefaultDampCoefficient(inertia: Vec3, sqrt: real -> real)
    requires SqrtLaws(sqrt)
    requires 0.0 <= inertia.x && 0.0 <= inertia.y && 0.0 <= inertia.z
    ensures DefaultSpring.strength == AngularFrequency(1.0) && DefaultSpring.damping == 0.25
    ensures DefaultSpring.DampCoefficient(inertia, sqrt) == Scale(inertia, 0.5)
  {
    CriticalDampingOfAngularFrequency(1.0, 0.25, inertia, sqrt);
  }

  /** An angular frequency `w` gives the stiffness `mass * w * w` on each axis. */
  lemma AngularFrequencyStiffness(w: real, mass: Vec3)
    ensures AngularFrequency(w).Get(mass) == Scale(mass, Sq(w))
  {
    assert (mass.x * w) * w == mass.x * (w * w);
    assert (mass.y * w) * w == mass.y * (w * w);
    assert (mass.z * w) * w == mass.z * (w * w);
  }

  /** An `Instant` strength is a `Scaled` strength spread over one tick. */
  lemma InstantIsScaledPerTick(raw: real, mass: real, dt: real)
    requires dt != 0.0
    ensures Instant(raw).Get(mass, dt) * dt == Scaled(raw).Get(mass, dt)
  {
  }

  /** A raw strength ignores mass and delta time. */
  lemma RawIgnoresMassAndTime(raw: real, m1: real, dt1: real, m2: real, dt2: real)
    ensures Raw(raw).Get(m1, dt1) == Raw(raw).Get(m2, dt2)
  {
  }

  /** The angular-frequency stiffness does not depend on the sign of the frequency. */
  lemma AngularFrequencySignFree(w: real, mass: Vec3)
    ensures AngularFrequency(w).Get(mass) == AngularFrequency(-w).Get(mass)
  {
  }
}
