/**
 * Real scalars and three-dimensional vectors, standing in for the engine's
 * `f32` and `Vec3`. Floating point (NaN, signed zero, rounding) is not modelled.
 *
 * The square root is not definable here, so operations that need it take a
 * function `sqrt` as a parameter together with the laws it must satisfy
 * (`SqrtLaws`): it is never negative, and on non-negative inputs it squares back.
 */
module Vectors {

  // ---------------------------------------------------------------- scalars

  function Min(a: real, b: real): real { if a <= b then a else b }

  function Max(a: real, b: real): real { if a >= b then a else b }

  function Abs(a: real): real { if a < 0.0 then -a else a }

  function Sq(a: real): real { a * a }

  /** `sqrt` applied to `x`; every use of the square root goes through this name. */
  function Root(sqrt: real -> real, x: real): real
  {
    sqrt(x)
  }

  /** `Root` again, under the name the laws below are stated on, so that they are used only on request. */
  function LawfulRoot(sqrt: real -> real, x: real): real
  {
    Root(sqrt, x)
  }

  /** The laws an abstract square root obeys. */
  ghost predicate SqrtLaws(sqrt: real -> real)
  {
    forall x :: 0.0 <= LawfulRoot(sqrt, x) && (0.0 <= x ==> LawfulRoot(sqrt, x) * LawfulRoot(sqrt, x) == x)
  }

  /** The square root laws at one point. */
  lemma RootLaws(sqrt: real -> real, x: real)
    requires SqrtLaws(sqrt)
    ensures 0.0 <= Root(sqrt, x)
    ensures 0.0 <= x ==> Root(sqrt, x) * Root(sqrt, x) == x
  {
    assert 0.0 <= LawfulRoot(sqrt, x);
  }

  /** The square root of the square of a non-negative `y` is `y`. */
  lemma SqrtOfSquare(sqrt: real -> real, x: real, y: real)
    requires SqrtLaws(sqrt)
    requires 0.0 <= y && x == y * y
    ensures Root(sqrt, x) == y
  {
    var s := Root(sqrt, x);
    RootLaws(sqrt, x);
    assert 0.0 <= s && s * s == y * y;
    if s > y {
      SquareGap(s, y);
    } else if s < y {
      SquareGap(y, s);
    }
  }

  /** Distinct non-negative reals have distinct squares. */
  lemma SquareGap(a: real, b: real)
    requires a > b >= 0.0
    ensures a * a > b * b
  {
    ProductGap(a, a, b, b);
  }

  lemma ProductGap(a: real, a2: real, b: real, b2: real)
    requires a == a2 && b == b2 && a > b >= 0.0
    ensures a * a2 > b * b2
  {
    MulPositive(a, a2 - b2);
    MulNonNegative(b2, a - b);
    assert a * (a2 - b2) == a * a2 - a * b2;
    assert b2 * (a - b) == a * b2 - b * b2;
  }

  lemma MulPositive(a: real, b: real)
    requires 0.0 < a && 0.0 < b
    ensures 0.0 < a * b
  {}

  lemma MulNonNegative(a: real, b: real)
    requires 0.0 <= a && 0.0 <= b
    ensures 0.0 <= a * b
  {}

  /** `sqrt(x*x) == |x|` for every real `x`. */
  lemma SqrtOfSquareAbs(sqrt: real -> real, x: real)
    requires SqrtLaws(sqrt)
    ensures Root(sqrt, x * x) == Abs(x)
  {
    var a := Abs(x);
    assert x * x == a * a;
    SqrtOfSquare(sqrt, x * x, a);
  }

  // ---------------------------------------------------------------- vectors

  datatype Vec3 = Vec3(x: real, y: real, z: real)

  const Zero: Vec3 := Vec3(0.0, 0.0, 0.0)
  const One: Vec3 := Vec3(1.0, 1.0, 1.0)
  const UnitY: Vec3 := Vec3(0.0, 1.0, 0.0)

  function Splat(k: real): Vec3 { Vec3(k, k, k) }

  function Add(a: Vec3, b: Vec3): Vec3 { Vec3(a.x + b.x, a.y + b.y, a.z + b.z) }

  function Sub(a: Vec3, b: Vec3): Vec3 { Vec3(a.x - b.x, a.y - b.y, a.z - b.z) }

  function Neg(a: Vec3): Vec3 { Vec3(-a.x, -a.y, -a.z) }

  function Scale(a: Vec3, k: real): Vec3 { Vec3(a.x * k, a.y * k, a.z * k) }

  function Div(a: Vec3, k: real): Vec3
    requires k != 0.0
  {
    Vec3(a.x / k, a.y / k, a.z / k)
  }

  /** Component-wise product, the engine's `Vec3 * Vec3`. */
  function Mul(a: Vec3, b: Vec3): Vec3 { Vec3(a.x * b.x, a.y * b.y, a.z * b.z) }

  function Dot(a: Vec3, b: Vec3): real { a.x * b.x + a.y * b.y + a.z * b.z }

  function Cross(a: Vec3, b: Vec3): Vec3
  {
    Vec3(a.y * b.z - a.z * b.y, a.z * b.x - a.x * b.z, a.x * b.y - a.y * b.x)
  }

  function LengthSq(a: Vec3): real { Dot(a, a) }

  /** `a + (b - a) * t`, the engine's `Vec3::lerp`. */
  function Lerp(a: Vec3, b: Vec3, t: real): Vec3 { Add(a, Scale(Sub(b, a), t)) }

  /** Two vectors are parallel (or one is zero) when their cross product vanishes. */
  predicate Parallel(a: Vec3, b: Vec3) { Cross(a, b) == Zero }

  lemma LengthSqNonNegative(a: Vec3)
    ensures 0.0 <= LengthSq(a)
  {
    SelfProductNonNegative(a.x, a.x);
    SelfProductNonNegative(a.y, a.y);
    SelfProductNonNegative(a.z, a.z);
  }

  /** Only the zero vector has length zero. */
  lemma LengthSqPositive(a: Vec3)
    requires a != Zero
    ensures 0.0 < LengthSq(a)
  {
    DotSelfPositive(a, a);
  }

  /** A vector is non-zero exactly when its squared length is positive. */
  lemma NonZeroIffPositiveLength(a: Vec3)
    ensures a != Zero <==> 0.0 < LengthSq(a)
  {
    if a != Zero {
      LengthSqPositive(a);
    }
  }

  // The two factors of a square are passed separately: the solver reasons
  // about `x * y` with `x == y` more reliably than about `x * x`.
  lemma DotSelfPositive(a: Vec3, b: Vec3)
    requires a == b && a != Zero
    ensures 0.0 < Dot(a, b)
  {
    SelfProductNonNegative(a.x, b.x);
    SelfProductNonNegative(a.y, b.y);
    SelfProductNonNegative(a.z, b.z);
    if a.x != 0.0 {
      SelfProductPositive(a.x, b.x);
    } else if a.y != 0.0 {
      SelfProductPositive(a.y, b.y);
    } else {
      SelfProductPositive(a.z, b.z);
    }
    SumPositive(a.x * b.x, a.y * b.y, a.z * b.z);
  }

  lemma SelfProductPositive(a: real, b: real)
    requires a == b && a != 0.0
    ensures 0.0 < a * b
  {
  }

  lemma SelfProductNonNegative(a: real, b: real)
    requires a == b
    ensures 0.0 <= a * b
  {
  }

  lemma SumPositive(p: real, q: real, r: real)
    requires 0.0 <= p && 0.0 <= q && 0.0 <= r
    requires 0.0 < p || 0.0 < q || 0.0 < r
    ensures 0.0 < p + q + r
  {
  }

  /** The dot product distributes over a difference. */
  lemma DotSub(u: Vec3, a: Vec3, b: Vec3)
    ensures Dot(u, Sub(a, b)) == Dot(u, a) - Dot(u, b)
  {
    assert u.x * (a.x - b.x) == u.x * a.x - u.x * b.x;
    assert u.y * (a.y - b.y) == u.y * a.y - u.y * b.y;
    assert u.z * (a.z - b.z) == u.z * a.z - u.z * b.z;
  }

  lemma DotAdd(u: Vec3, a: Vec3, b: Vec3)
    ensures Dot(u, Add(a, b)) == Dot(u, a) + Dot(u, b)
  {
    assert u.x * (a.x + b.x) == u.x * a.x + u.x * b.x;
    assert u.y * (a.y + b.y) == u.y * a.y + u.y * b.y;
    assert u.z * (a.z + b.z) == u.z * a.z + u.z * b.z;
  }

  lemma CrossWithZero(v: Vec3)
    ensures Cross(Zero, v) == Zero && Cross(v, Zero) == Zero
  {
  }

  lemma DotSymmetric(a: Vec3, b: Vec3)
    ensures Dot(a, b) == Dot(b, a)
  {
  }

  lemma LengthSqScale(a: Vec3, k: real)
    ensures LengthSq(Scale(a, k)) == k * k * LengthSq(a)
  {
    assert (a.x * k) * (a.x * k) == k * k * (a.x * a.x);
    assert (a.y * k) * (a.y * k) == k * k * (a.y * a.y);
    assert (a.z * k) * (a.z * k) == k * k * (a.z * a.z);
  }

  lemma ScaleParallel(a: Vec3, k: real)
    ensures Parallel(a, Scale(a, k)) && Parallel(Scale(a, k), a)
  {
    assert a.y * (a.z * k) - a.z * (a.y * k) == 0.0;
    assert a.z * (a.x * k) - a.x * (a.z * k) == 0.0;
    assert a.x * (a.y * k) - a.y * (a.x * k) == 0.0;
  }

  /** A cross product is orthogonal to both of its arguments. */
  lemma CrossOrthogonal(a: Vec3, b: Vec3)
    ensures Dot(a, Cross(a, b)) == 0.0
    ensures Dot(b, Cross(a, b)) == 0.0
  {
    var c := Cross(a, b);
    assert a.x * c.x + a.y * c.y + a.z * c.z
      == a.x * (a.y * b.z) - a.x * (a.z * b.y) + a.y * (a.z * b.x) - a.y * (a.x * b.z)
         + a.z * (a.x * b.y) - a.z * (a.y * b.x);
    assert b.x * c.x + b.y * c.y + b.z * c.z
      == b.x * (a.y * b.z) - b.x * (a.z * b.y) + b.y * (a.z * b.x) - b.y * (a.x * b.z)
         + b.z * (a.x * b.y) - b.z * (a.y * b.x);
  }

  lemma DotScale(a: Vec3, b: Vec3, k: real)
    ensures Dot(a, Scale(b, k)) == k * Dot(a, b)
  {
    assert a.x * (b.x * k) + a.y * (b.y * k) + a.z * (b.z * k)
      == k * (a.x * b.x + a.y * b.y + a.z * b.z);
  }

  lemma CrossScale(a: Vec3, b: Vec3, k: real)
    ensures Cross(a, Scale(b, k)) == Scale(Cross(a, b), k)
  {
    assert a.y * (b.z * k) - a.z * (b.y * k) == (a.y * b.z - a.z * b.y) * k;
    assert a.z * (b.x * k) - a.x * (b.z * k) == (a.z * b.x - a.x * b.z) * k;
    assert a.x * (b.y * k) - a.y * (b.x * k) == (a.x * b.y - a.y * b.x) * k;
  }

  /** Scaling the second vector keeps two vectors parallel. */
  lemma ParallelScale(a: Vec3, b: Vec3, k: real)
    requires Parallel(a, b)
    ensures Parallel(a, Scale(b, k))
  {
    CrossScale(a, b, k);
  }

  /** Scaling is linear and the order of two scalings does not matter. */
  lemma ScaleScale(a: Vec3, k: real, m: real)
    ensures Scale(Scale(a, k), m) == Scale(Scale(a, m), k)
  {
    assert a.x * k * m == a.x * m * k;
    assert a.y * k * m == a.y * m * k;
    assert a.z * k * m == a.z * m * k;
  }

  lemma ScaleAdd(a: Vec3, b: Vec3, k: real)
    ensures Scale(Add(a, b), k) == Add(Scale(a, k), Scale(b, k))
  {
    assert (a.x + b.x) * k == a.x * k + b.x * k;
    assert (a.y + b.y) * k == a.y * k + b.y * k;
    assert (a.z + b.z) * k == a.z * k + b.z * k;
  }

  lemma ScaleNeg(a: Vec3, k: real)
    ensures Scale(Neg(a), k) == Neg(Scale(a, k))
  {
  }

  /**
   * The engine's `clamp_length_max`: a vector longer than `max` is rescaled
   * to length `|max|` along its own line, a shorter one is kept.
   */
  function ClampLengthMax(v: Vec3, max: real, sqrt: real -> real): (r: Vec3)
    requires SqrtLaws(sqrt)
    ensures LengthSq(r) <= max * max
    ensures LengthSq(v) <= max * max ==> r == v
    ensures LengthSq(v) > max * max ==> LengthSq(r) == max * max
    ensures Parallel(v, r)
    ensures 0.0 <= max ==> 0.0 <= Dot(v, r)
  {
    var lengthSq := LengthSq(v);
    if lengthSq > max * max then
      var len := Root(sqrt, lengthSq);
      RootLaws(sqrt, lengthSq);
      assert 0.0 <= max * max;
      assert len * len == lengthSq;
      assert len != 0.0;
      var r := Scale(Scale(v, 1.0 / len), max);
      ClampedLength(v, len, max);
      ScaleParallel(v, max / len);
      assert r == Scale(v, max / len);
      DotScale(v, v, max / len);
      assert 0.0 <= max ==> 0.0 <= max / len;
      r
    else
      ScaleParallel(v, 1.0);
      assert Scale(v, 1.0) == v;
      v
  }

  lemma ClampedLength(v: Vec3, len: real, max: real)
    requires 0.0 < len * len && len * len == LengthSq(v)
    ensures LengthSq(Scale(Scale(v, 1.0 / len), max)) == max * max
  {
    var u := Scale(v, 1.0 / len);
    LengthSqScale(v, 1.0 / len);
    LengthSqScale(u, max);
    assert (1.0 / len) * (1.0 / len) * (len * len) == 1.0;
  }
}
