/**
 * Sign-independent capping (src/cap.rs). A cap `c` bounds a value from the
 * side its sign points to: a positive cap is an upper bound, a negative cap a
 * lower bound. A zero cap is degenerate: `SignedMax` then returns the cap
 * itself and `SignedMin` returns the value untouched.
 *
 * For a non-zero cap the two operations compute the same thing; the doc
 * comment on `signed_min` describes the opposite side for a positive cap, and
 * this model follows the code.
 */
module Cap {
  import opened Vectors

  /** The range a non-zero cap allows: `(-inf, c]` for `c > 0`, `[c, inf)` for `c < 0`. */
  predicate WithinCap(x: real, c: real)
  {
    if c > 0.0 then x <= c else if c < 0.0 then c <= x else x == 0.0
  }

  function SignedMax(x: real, c: real): (r: real)
    ensures c == 0.0 ==> r == 0.0
    ensures c > 0.0 ==> r <= c && (x <= c ==> r == x) && (c < x ==> r == c)
    ensures c < 0.0 ==> c <= r && (c <= x ==> r == x) && (x < c ==> r == c)
    ensures WithinCap(r, c)
  {
    if c == 0.0 then c
    else if c < 0.0 then Max(c, x)
    else Min(c, x)
  }

  function SignedMin(x: real, c: real): (r: real)
    ensures c == 0.0 ==> r == x
    ensures c > 0.0 ==> r <= c && (x <= c ==> r == x) && (c < x ==> r == c)
    ensures c < 0.0 ==> c <= r && (c <= x ==> r == x) && (x < c ==> r == c)
  {
    if c == 0.0 then x
    else if c < 0.0 then Max(c, x)
    else Min(c, x)
  }

  /** Capping changes nothing exactly when the value is already in range. */
  lemma SignedMaxFixedPoint(x: real, c: real)
    ensures SignedMax(x, c) == x <==> WithinCap(x, c)
  {
  }

  lemma SignedMaxIdempotent(x: real, c: real)
    ensures SignedMax(SignedMax(x, c), c) == SignedMax(x, c)
  {
    SignedMaxFixedPoint(SignedMax(x, c), c);
  }

  /** For a non-zero cap `signed_min` and `signed_max` coincide. */
  lemma SignedMinAgreesWithMax(x: real, c: real)
    requires c != 0.0
    ensures SignedMin(x, c) == SignedMax(x, c)
  {
  }

  lemma SignedMinIdempotent(x: real, c: real)
    ensures SignedMin(SignedMin(x, c), c) == SignedMin(x, c)
  {
  }

  /** The component-wise lift of `SignedMax` to vectors. */
  function SignedMaxVec(v: Vec3, c: Vec3): (r: Vec3)
    ensures WithinCap(r.x, c.x) && WithinCap(r.y, c.y) && WithinCap(r.z, c.z)
    ensures r == v <==> WithinCap(v.x, c.x) && WithinCap(v.y, c.y) && WithinCap(v.z, c.z)
  {
    Vec3(SignedMax(v.x, c.x), SignedMax(v.y, c.y), SignedMax(v.z, c.z))
  }

  /** The component-wise lift of `SignedMin` to vectors. */
  function SignedMinVec(v: Vec3, c: Vec3): (r: Vec3)
    ensures (c.x == 0.0 ==> r.x == v.x) && (c.x != 0.0 ==> WithinCap(r.x, c.x))
    ensures (c.y == 0.0 ==> r.y == v.y) && (c.y != 0.0 ==> WithinCap(r.y, c.y))
    ensures (c.z == 0.0 ==> r.z == v.z) && (c.z != 0.0 ==> WithinCap(r.z, c.z))
  {
    Vec3(SignedMin(v.x, c.x), SignedMin(v.y, c.y), SignedMin(v.z, c.z))
  }

  /** Each component of a vector cap depends only on that component of its inputs. */
  lemma SignedMaxVecComponentwise(v: Vec3, w: Vec3, c: Vec3)
    ensures v.x == w.x ==> SignedMaxVec(v, c).x == SignedMaxVec(w, c).x
    ensures v.y == w.y ==> SignedMaxVec(v, c).y == SignedMaxVec(w, c).y
    ensures v.z == w.z ==> SignedMaxVec(v, c).z == SignedMaxVec(w, c).z
  {
  }

  lemma SignedMinVecComponentwise(v: Vec3, w: Vec3, c: Vec3)
    ensures v.x == w.x ==> SignedMinVec(v, c).x == SignedMinVec(w, c).x
    ensures v.y == w.y ==> SignedMinVec(v, c).y == SignedMinVec(w, c).y
    ensures v.z == w.z ==> SignedMinVec(v, c).z == SignedMinVec(w, c).z
  {
  }

  /** With no zero component in the cap, the two vector caps coincide. */
  lemma SignedMinVecAgreesWithMax(v: Vec3, c: Vec3)
    requires c.x != 0.0 && c.y != 0.0 && c.z != 0.0
    ensures SignedMinVec(v, c) == SignedMaxVec(v, c)
  {
  }

  lemma SignedMaxVecIdempotent(v: Vec3, c: Vec3)
    ensures SignedMaxVec(SignedMaxVec(v, c), c) == SignedMaxVec(v, c)
  {
    SignedMaxIdempotent(v.x, c.x);
    SignedMaxIdempotent(v.y, c.y);
    SignedMaxIdempotent(v.z, c.z);
  }
}
