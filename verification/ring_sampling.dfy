/**
 * Normal refinement in `ground_cast` (src/controller/ground.rs): after a
 * non-penetrating shape cast, four rays are cast from a small ring around the
 * point above the contact, and the usable ray hit with the smallest time of
 * impact replaces the interpolated normal of the shape cast.
 *
 * The rays themselves are engine queries, so their outcomes are given as a
 * sequence of optional hits, one per ring sample, in sampling order.
 */
module RingSampling {
  import opened Vectors
  import opened Wrappers
  import opened GroundCache

  /** A ray intersection: the entity hit, time of impact, surface normal and point. */
  datatype RayHit = RayHit(entity: nat, toi: real, normal: Vec3, point: Vec3)

  /** A sample counts when it hit the shape cast's entity, ahead of the origin, with a real normal. */
  predicate Usable(entity: nat, h: Option<RayHit>)
  {
    h.Some? && h.value.entity == entity && h.value.toi > 0.0 && LengthSq(h.value.normal) > 0.0
  }

  /** Fold one sample into the selection: a usable sample wins if it is the first or strictly closer. */
  function Pick(entity: nat, sampled: Option<RayHit>, h: Option<RayHit>): (r: Option<RayHit>)
    ensures r == sampled || (r == h && Usable(entity, h))
    ensures Usable(entity, h) && sampled.None? ==> r == h
    ensures r.Some? && sampled.Some? ==> r.value.toi <= sampled.value.toi
    ensures Usable(entity, h) && r.Some? ==> r.value.toi <= h.value.toi
  {
    if Usable(entity, h) then
      match sampled
      case None => h
      case Some(current) => if h.value.toi < current.toi then h else sampled
    else sampled
  }

  /** The selection after the samples `hits`, in order. */
  function Sampled(entity: nat, hits: seq<Option<RayHit>>): (r: Option<RayHit>)
    ensures r.None? <==> forall i :: 0 <= i < |hits| ==> !Usable(entity, hits[i])
    ensures r.Some? ==> exists i :: 0 <= i < |hits| && hits[i] == r && Usable(entity, hits[i])
    ensures r.Some? ==> forall i :: 0 <= i < |hits| && Usable(entity, hits[i]) ==> r.value.toi <= hits[i].value.toi
    decreases |hits|
  {
    if |hits| == 0 then None
    else
      var prefix := hits[..|hits| - 1];
      assert forall i :: 0 <= i < |prefix| ==> prefix[i] == hits[i];
      Pick(entity, Sampled(entity, prefix), hits[|hits| - 1])
  }

  /**
   * Sample `i` is the one the selection settles on: usable, no farther than any
   * usable sample, and strictly closer than every usable sample before it.
   */
  predicate FirstClosest(entity: nat, hits: seq<Option<RayHit>>, i: int)
  {
    && 0 <= i < |hits|
    && Usable(entity, hits[i])
    && (forall j :: 0 <= j < |hits| && Usable(entity, hits[j]) ==> hits[i].value.toi <= hits[j].value.toi)
    && (forall j :: 0 <= j < i && Usable(entity, hits[j]) ==> hits[i].value.toi < hits[j].value.toi)
  }

  /** At most one sample is the first closest. */
  lemma FirstClosestUnique(entity: nat, hits: seq<Option<RayHit>>, i: int, k: int)
    requires FirstClosest(entity, hits, i) && FirstClosest(entity, hits, k)
    ensures i == k
  {
  }

  /** Ties go to the earliest sample: the selection is the first closest usable hit. */
  lemma {:induction false} SampledIsFirstClosest(entity: nat, hits: seq<Option<RayHit>>)
    requires Sampled(entity, hits).Some?
    ensures exists i :: FirstClosest(entity, hits, i) && hits[i] == Sampled(entity, hits)
  {
    var n := |hits|;
    var prefix := hits[..n - 1];
    assert forall j :: 0 <= j < |prefix| ==> prefix[j] == hits[j];
    var last := hits[n - 1];
    var before := Sampled(entity, prefix);
    if before.Some? {
      SampledIsFirstClosest(entity, prefix);
      var i :| FirstClosest(entity, prefix, i) && prefix[i] == before;
      if Usable(entity, last) && last.value.toi < before.value.toi {
        assert FirstClosest(entity, hits, n - 1);
      } else {
        assert FirstClosest(entity, hits, i);
      }
    } else {
      assert FirstClosest(entity, hits, n - 1);
    }
  }

  /** The loop of `ground_cast` over the ring samples. */
  method SelectSample(entity: nat, hits: seq<Option<RayHit>>) returns (sampled: Option<RayHit>)
    ensures sampled == Sampled(entity, hits)
    ensures sampled.None? <==> forall i :: 0 <= i < |hits| ==> !Usable(entity, hits[i])
    ensures sampled.Some? ==> exists i :: FirstClosest(entity, hits, i) && hits[i] == sampled
  {
    sampled := None;
    var i := 0;
    while i < |hits|
      invariant 0 <= i <= |hits|
      invariant sampled == Sampled(entity, hits[..i])
    {
      assert hits[..i + 1][..i] == hits[..i];
      sampled := Pick(entity, sampled, hits[i]);
      i := i + 1;
    }
    assert hits[..|hits|] == hits;
    if sampled.Some? {
      SampledIsFirstClosest(entity, hits);
    }
  }

  /** Take the sampled normal, if any; time of impact and point stay those of the shape cast. */
  function RefineNormal(cast: CastResult, sampled: Option<RayHit>): (r: CastResult)
    ensures r.toi == cast.toi && r.point == cast.point
    ensures sampled.Some? ==> r.normal == sampled.value.normal
    ensures sampled.None? ==> r == cast
  {
    match sampled
    case Some(s) => cast.(normal := s.normal)
    case None => cast
  }

  /** A normal taken from the samples is never degenerate. */
  lemma RefinedNormalNonZero(entity: nat, cast: CastResult, hits: seq<Option<RayHit>>)
    requires Sampled(entity, hits).Some?
    ensures RefineNormal(cast, Sampled(entity, hits)).normal != Zero
  {
    var s := Sampled(entity, hits);
    var i :| 0 <= i < |hits| && hits[i] == s && Usable(entity, hits[i]);
    NonZeroIffPositiveLength(s.value.normal);
  }

  /** The point above the contact: the contact (witness) point moved back along the cast by its time of impact. */
  function Above(contact: Vec3, castVelocity: Vec3, toi: real): (a: Vec3)
    ensures Add(a, Scale(castVelocity, toi)) == contact
  {
    Add(contact, Scale(Neg(castVelocity), toi))
  }

  /** Ring offset distance of the sample origins. */
  const Fudge: real := 0.05

  /** The four sample origins around `above`, for an orthonormal pair `x`, `z` across the cast. */
  function RingOrigins(above: Vec3, x: Vec3, z: Vec3): (r: seq<Vec3>)
    ensures |r| == 4
    // The ring is symmetric about `above`, the point the samples surround.
    ensures Add(r[0], r[3]) == Scale(above, 2.0) && Add(r[1], r[2]) == Scale(above, 2.0)
    // Neighbouring origins are `2 * Fudge` apart along `x` or along `z`.
    ensures Sub(r[0], r[2]) == Scale(x, 2.0 * Fudge) && Sub(r[1], r[0]) == Scale(z, 2.0 * Fudge)
  {
    var samples := [Add(Neg(x), z), Sub(Neg(x), z), Add(x, z), Sub(x, z)];
    seq(4, k requires 0 <= k < 4 => Sub(above, Scale(samples[k], Fudge)))
  }
}
