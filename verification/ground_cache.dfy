/**
 * The ground record and its per-tick cache (src/controller/ground.rs):
 * `GroundCast` keeps the ground found this tick (`current`) and a small state
 * machine (`ViableGround`) remembering the last viable ground, so a single
 * missed cast does not make the controller forget what it stood on.
 *
 * The source's variants `Ground`, `Last` and `None` are called `Standing`,
 * `Last` and `NoGround` here.
 */
module GroundCache {
  import opened Vectors
  import opened Wrappers

  /** Time of impact, surface normal and witness point of a shape or ray cast. */
  datatype CastResult = CastResult(toi: real, normal: Vec3, point: Vec3)

  /** What is known about the ground touched by the cast. */
  datatype Ground = Ground(
    entity: nat,
    cast: CastResult,
    stable: bool,
    viable: bool,
    angularVelocity: Vec3,
    linearVelocity: Vec3,
    pointVelocity: Vec3)

  /** The current or the last viable ground, or none at all. */
  datatype ViableGround = Standing(ground: Ground) | Last(ground: Ground) | NoGround
  {
    /** Archive the ground: a standing ground becomes the last one. */
    function IntoLast(): (r: ViableGround)
      ensures !r.Standing?
      ensures r.LastGround() == LastGround()
      ensures !Standing? ==> r == this
    {
      match this
      case Standing(g) => Last(g)
      case _ => this
    }

    /** The last ground touched, including the one touched now. */
    function LastGround(): (r: Option<Ground>)
      ensures r.Some? <==> !NoGround?
      ensures r.Some? ==> r.value == ground
    {
      match this
      case Standing(g) => Some(g)
      case Last(g) => Some(g)
      case NoGround => None
    }

    /** Update from this tick's cast: a viable ground is stood on, a missing one archives. */
    function Update(g: Option<Ground>): (r: ViableGround)
      ensures r.Standing? <==> (g.Some? && g.value.viable) || (Standing? && g.Some?)
      ensures r.LastGround() == (if g.Some? && g.value.viable then g else LastGround())
      ensures g.None? ==> r == IntoLast()
      ensures g.Some? && !g.value.viable ==> r == this
    {
      match g
      case Some(ground) => if ground.viable then Standing(ground) else this
      case None => IntoLast()
    }
  }

  /** Every ground the cache holds is viable. */
  predicate HoldsOnlyViable(v: ViableGround)
  {
    !v.NoGround? ==> v.ground.viable
  }

  /** The cached ground cast: this tick's ground and the viable-ground memory. */
  datatype GroundCast = GroundCast(current: Option<Ground>, viable: ViableGround)
  {
    function Update(g: Option<Ground>): (r: GroundCast)
      ensures r.current == g
      ensures r.viable == viable.Update(g)
      ensures g.Some? && g.value.viable ==> r.Grounded()
      ensures g.None? ==> !r.Grounded()
    {
      GroundCast(g, viable.Update(g))
    }

    /** Is the controller touching viable ground right now? */
    predicate Grounded()
    {
      viable.Standing?
    }
  }

  const DefaultGroundCast: GroundCast := GroundCast(None, NoGround)

  /** Archiving twice is archiving once. */
  lemma IntoLastIdempotent(v: ViableGround)
    ensures v.IntoLast().IntoLast() == v.IntoLast()
  {
  }

  /** A missing cast is exactly an archive. */
  lemma UpdateNoneIsIntoLast(v: ViableGround)
    ensures v.Update(None) == v.IntoLast()
  {
  }

  /** The cache never holds a non-viable ground, whatever sequence of casts it sees. */
  lemma UpdateKeepsOnlyViable(v: ViableGround, g: Option<Ground>)
    requires HoldsOnlyViable(v)
    ensures HoldsOnlyViable(v.Update(g))
  {
  }

  /** Once any ground was seen, the cache never forgets that there is a last ground. */
  lemma UpdateNeverForgets(v: ViableGround, g: Option<Ground>)
    requires v.LastGround().Some?
    ensures v.Update(g).LastGround().Some?
  {
  }

  /** The grounded flag after an update, case by case. */
  lemma GroundedAfterUpdate(c: GroundCast, g: Option<Ground>)
    ensures c.Update(g).Grounded() <==> (g.Some? && (g.value.viable || c.Grounded()))
  {
  }
}
