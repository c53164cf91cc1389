/**
 * BlockRayFilter: the stop predicates a ray cast consults at each crossing.
 *
 * The anonymous subclasses the factories return are the constructors of `Filter`;
 * `and`, `or` and `not` build a tree over them. The only filter with state is the
 * one `maxDistance` returns: `start` records the start position in three fields
 * that `shouldContinue` later reads. That record is the class `DistanceStart`, and
 * the `MaxDistance` leaf holds a reference to it, so sharing one filter instance in
 * two places of a tree shares the record, as it does in the source.
 */
module Filters {
  import opened Geometry
  import opened Hits

  /** The start coordinates a max-distance filter records; 0 until `start` runs. */
  class DistanceStart {
    var startX: real
    var startY: real
    var startZ: real

    constructor ()
      ensures Start() == Origin
    {
      startX, startY, startZ := 0.0, 0.0, 0.0;
    }

    function Start(): Vec3
      reads this
    {
      Vec3(startX, startY, startZ)
    }
  }

  datatype Filter =
    | All
    | None
    | BlockTypeIs(t: BlockType)
    | MaxDistance(distanceSquared: real, state: DistanceStart)
    | And(self: Filter, that: Filter)
    | Or(self: Filter, that: Filter)
    | Not(self: Filter)

  /** The records a filter's `start` may write: those of its max-distance leaves. */
  ghost function States(f: Filter): set<DistanceStart> {
    match f
    case MaxDistance(_, s) => {s}
    case And(a, b) => States(a) + States(b)
    case Or(a, b) => States(a) + States(b)
    case Not(a) => States(a)
    case _ => {}
  }

  /** maxDistance(distance): the bound is kept squared; the record starts at 0. */
  method NewMaxDistance(distance: real) returns (f: Filter)
    ensures f.MaxDistance? && f.distanceSquared == distance * distance
    ensures fresh(f.state) && f.state.Start() == Origin
  {
    var s := new DistanceStart();
    f := MaxDistance(distance * distance, s);
  }

  /**
   * start(location, direction): the default does nothing, a max-distance leaf records
   * the location's position, `and` and `or` forward to self and then to that, `not`
   * forwards to self. The direction is passed along and never read.
   */
  method Start(f: Filter, location: Location, direction: Vec3)
    modifies States(f)
    ensures forall s <- States(f) :: s.Start() == location.position
    ensures forall s <- States(f) :: allocated(s)
  {
    if f.MaxDistance? {
      f.state.startX := location.position.x;
      f.state.startY := location.position.y;
      f.state.startZ := location.position.z;
    } else if f.And? || f.Or? {
      Start(f.self, location, direction);
      label first:
      Start(f.that, location, direction);
      forall s <- States(f.self) ensures s.Start() == location.position {
        if s !in States(f.that) {
          assert unchanged@first(s);
        }
      }
    } else if f.Not? {
      Start(f.self, location, direction);
    }
  }

  /**
   * shouldContinue(lastHit). `world` is what each extent holds, which the source asks
   * of the hit's extent.
   */
  predicate ShouldContinue(f: Filter, world: Blocks, h: BlockRayHit)
    reads States(f)
    ensures f.All? ==> ShouldContinue(f, world, h)
    ensures f.None? ==> !ShouldContinue(f, world, h)
    ensures f.MaxDistance? ==>
      (ShouldContinue(f, world, h) <==> DistanceSquared(h.Position(), f.state.Start()) < f.distanceSquared)
  {
    match f
    case All => true
    case None => false
    case BlockTypeIs(t) => world(h.extent, h.BlockPosition()) == t
    case MaxDistance(ds, s) =>
      var dx := h.x - s.startX;
      var dy := h.y - s.startY;
      var dz := h.z - s.startZ;
      dx * dx + dy * dy + dz * dz < ds
    case And(a, b) => ShouldContinue(a, world, h) && ShouldContinue(b, world, h)
    case Or(a, b) => ShouldContinue(a, world, h) || ShouldContinue(b, world, h)
    case Not(a) => !ShouldContinue(a, world, h)
  }

  /**
   * What a filter means once started at `origin`, with no state: the reference the
   * stateful evaluation is checked against.
   */
  ghost predicate Denotes(f: Filter, origin: Vec3, world: Blocks, h: BlockRayHit) {
    match f
    case All => true
    case None => false
    case BlockTypeIs(t) => world(h.extent, h.BlockPosition()) == t
    case MaxDistance(ds, _) => DistanceSquared(h.Position(), origin) < ds
    case And(a, b) => Denotes(a, origin, world, h) && Denotes(b, origin, world, h)
    case Or(a, b) => Denotes(a, origin, world, h) || Denotes(b, origin, world, h)
    case Not(a) => !Denotes(a, origin, world, h)
  }

  ghost predicate StartedAt(f: Filter, origin: Vec3)
    reads States(f)
  {
    forall s <- States(f) :: s.Start() == origin
  }

  /**
   * Once every record of a filter holds `origin`, it decides as its reference meaning.
   * Start leaves every record holding the location's position, so after `start` every
   * filter decides each hit by its meaning relative to that location.
   */
  lemma {:induction false} ShouldContinueDenotes(f: Filter, origin: Vec3, world: Blocks, h: BlockRayHit)
    requires StartedAt(f, origin)
    ensures ShouldContinue(f, world, h) <==> Denotes(f, origin, world, h)
  {
    match f
    case MaxDistance(ds, s) =>
      assert s in States(f);
    case And(a, b) =>
      ShouldContinueDenotes(a, origin, world, h);
      ShouldContinueDenotes(b, origin, world, h);
    case Or(a, b) =>
      ShouldContinueDenotes(a, origin, world, h);
      ShouldContinueDenotes(b, origin, world, h);
    case Not(a) =>
      ShouldContinueDenotes(a, origin, world, h);
    case _ =>
  }

  /** not(not(f)) decides every hit as f does. */
  lemma NotNot(f: Filter, world: Blocks, h: BlockRayHit)
    ensures ShouldContinue(Not(Not(f)), world, h) == ShouldContinue(f, world, h)
  {
  }

  /** not(a.and(b)) and not(a).or(not(b)) decide alike, and dually. */
  lemma DeMorgan(a: Filter, b: Filter, world: Blocks, h: BlockRayHit)
    ensures ShouldContinue(Not(And(a, b)), world, h) == ShouldContinue(Or(Not(a), Not(b)), world, h)
    ensures ShouldContinue(Not(Or(a, b)), world, h) == ShouldContinue(And(Not(a), Not(b)), world, h)
  {
  }

  /** ALL is the unit of `and` and absorbs `or`; NONE is the unit of `or` and absorbs `and`. */
  lemma AllNoneLaws(f: Filter, world: Blocks, h: BlockRayHit)
    ensures ShouldContinue(And(All, f), world, h) == ShouldContinue(f, world, h)
    ensures ShouldContinue(Or(None, f), world, h) == ShouldContinue(f, world, h)
    ensures ShouldContinue(Or(All, f), world, h)
    ensures !ShouldContinue(And(None, f), world, h)
    ensures ShouldContinue(Not(None), world, h) && !ShouldContinue(Not(All), world, h)
  {
  }

  /**
   * The max-distance bound is strict: once started at `origin`, a non-negative
   * distance d lets through every hit strictly closer than d and stops at every hit
   * at distance d or beyond.
   */
  lemma MaxDistanceBoundary(distance: real, s: DistanceStart, world: Blocks, h: BlockRayHit, origin: Vec3)
    requires s.Start() == origin
    ensures var f := MaxDistance(distance * distance, s);
      ShouldContinue(f, world, h) <==> DistanceSquared(h.Position(), origin) < distance * distance
  {
    var f := MaxDistance(distance * distance, s);
    ShouldContinueDenotes(f, origin, world, h);
  }

  /** A hit at exactly the maximum distance stops the ray. */
  lemma MaxDistanceStopsAtBound(distance: real, s: DistanceStart, world: Blocks, h: BlockRayHit, origin: Vec3)
    requires s.Start() == origin
    requires DistanceSquared(h.Position(), origin) == distance * distance
    ensures !ShouldContinue(MaxDistance(distance * distance, s), world, h)
  {
    MaxDistanceBoundary(distance, s, world, h, origin);
  }
}
