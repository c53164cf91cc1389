/**
 * BlockRay: the iterator that walks a ray through the block grid, its builder, and
 * the predicate filters BlockRay offers (ALL_FILTER, blockTypeFilter,
 * maxDistanceFilter, TargetBlockFilter).
 *
 * The fields and methods mirror the class. Exceptions become results: `advance`
 * answers false where it throws NoSuchElementException, `next` answers None, and the
 * constructors and builder setters answer a `RayError` where a precondition check
 * throws. Each step is proved to be the `Step` of Traversal, so the walk's lemmas
 * (ordering, no skipped plane, hits on the ray) apply to every hit the class returns.
 */
module Rays {
  import opened Wrappers
  import opened Geometry
  import opened Hits
  import opened Traversal

  const DefaultBlockLimit := 1000

  /** Why a ray or a builder refuses an argument (IllegalArgument/IllegalState). */
  datatype RayError =
    | ZeroDirection
    | DifferentExtents
    | FilterAlreadySet
    | EndAlreadySet
    | DirectionAlreadySet
    | EndAndDirection
    | NoEndOrDirection

  /** A filter: true to let the ray continue past a hit. */
  type HitFilter = BlockRayHit -> bool

  /** ALL_FILTER: continues at every hit. */
  function AllFilter(): (f: HitFilter)
    ensures forall h :: f(h)
  {
    (h: BlockRayHit) => true
  }

  /** blockTypeFilter(type): continues while the hit's block holds `t`. */
  function BlockTypeFilter(world: Blocks, t: BlockType): (f: HitFilter)
    ensures forall h :: f(h) <==> world(h.extent, h.BlockPosition()) == t
  {
    (h: BlockRayHit) => world(h.extent, h.BlockPosition()) == t
  }

  /** ONLY_AIR_FILTER. */
  function OnlyAirFilter(world: Blocks): (f: HitFilter)
    ensures forall h :: f(h) <==> world(h.extent, h.BlockPosition()) == Air
  {
    BlockTypeFilter(world, Air)
  }

  /** maxDistanceFilter(start, distance): continues while strictly inside the distance. */
  function MaxDistanceFilter(start: Vec3, distance: real): (f: HitFilter)
    ensures forall h :: f(h) <==> DistanceSquared(h.Position(), start) < distance * distance
  {
    var distanceSquared := distance * distance;
    (h: BlockRayHit) =>
      var dx := h.x - start.x;
      var dy := h.y - start.y;
      var dz := h.z - start.z;
      dx * dx + dy * dy + dz * dz < distanceSquared
  }

  /** TargetBlockFilter(target): stops at the hit whose block is the target. */
  function TargetBlockFilter(target: Int3): (f: HitFilter)
    ensures forall h :: f(h) <==> h.BlockPosition() != target
  {
    (h: BlockRayHit) => h.BlockPosition() != target
  }

  /** Predicates.and(f, g). */
  function AndFilter(f: HitFilter, g: HitFilter): (r: HitFilter)
    ensures forall h :: r(h) <==> f(h) && g(h)
  {
    (h: BlockRayHit) => f(h) && g(h)
  }

  /** Whether the block limit stops the next advance; a negative limit never does. */
  predicate LimitReached(blockLimit: int, blockCount: int) {
    blockLimit >= 0 && blockCount >= blockLimit
  }

  /**
   * On every axis a step crosses, the block its hit designates lies behind the plane
   * just crossed: with the faces BlockRay passes (X_NEGATIVE while x grows), the hit's
   * block is the cell the ray leaves, not the one it enters.
   */
  lemma HitBlockBehind(ray: Ray, w: Walk, e: Extent)
    requires Consistent(ray, w)
    ensures var w' := Step(ray, w);
      var b := BlockRayHit(e, w'.x.coord, w'.y.coord, w'.z.coord, w'.normal).BlockPosition();
      forall a :: w'.normal.Get(a) != 0 ==>
        && (ray.dir.Get(a) > 0.0 ==> b.Get(a) as real + 1.0 == w'.Get(a).coord)
        && (ray.dir.Get(a) < 0.0 ==> b.Get(a) as real == w'.Get(a).coord)
  {
    var w' := Step(ray, w);
    var h := BlockRayHit(e, w'.x.coord, w'.y.coord, w'.z.coord, w'.normal);
    ConsistentFinite(ray, w);
    StepMoves(ray, w);
    CrossingFaceAxes(ray.dir, Select(w.x.t, w.y.t, w.z.t));
    forall a | w'.normal.Get(a) != 0
      ensures ray.dir.Get(a) > 0.0 ==> h.BlockPosition().Get(a) as real + 1.0 == w'.Get(a).coord
      ensures ray.dir.Get(a) < 0.0 ==> h.BlockPosition().Get(a) as real == w'.Get(a).coord
    {
      var n := w.Get(a).plane;
      assert h.BlockPosition().Get(a) == BlockCoord(w'.Get(a).coord, w'.normal.Get(a)) by {
        match a
        case X =>
        case Y =>
        case Z =>
      }
      BlockOnPlane(w'.Get(a).coord, n, w'.normal.Get(a));
    }
  }

  class BlockRay {
    const filter: HitFilter
    const extent: Extent
    const position: Vec3
    const direction: Vec3
    // The faces passed through on each axis and the plane increments.
    const xNormal: Int3
    const yNormal: Int3
    const zNormal: Int3
    const xPlaneIncrement: int
    const yPlaneIncrement: int
    const zPlaneIncrement: int
    // The edge and corner faces, computed lazily (None stands for null).
    var xyzNormal: Option<Int3>
    var xyNormal: Option<Int3>
    var xzNormal: Option<Int3>
    var yzNormal: Option<Int3>
    // Per axis, the source's current coordinate, next plane and the parameter at
    // which the ray meets that plane (xCurrent, xPlaneNext, xPlaneT for x).
    var x: Lane
    var y: Lane
    var z: Lane
    // The face last passed.
    var normalCurrent: Int3
    var blockLimit: int
    var blockCount: int
    var hit: Option<BlockRayHit>
    var ahead: bool

    function Traced(): Ray {
      Ray(position, direction)
    }

    /** The walk state the fields hold. */
    function View(): Walk
      reads this`x, this`y, this`z, this`normalCurrent
    {
      Walk(x, y, z, normalCurrent)
    }

    /** The BlockRayHit advance builds from the current fields. */
    function CurrentHit(): BlockRayHit
      reads this`x, this`y, this`z, this`normalCurrent
    {
      BlockRayHit(extent, x.coord, y.coord, z.coord, normalCurrent)
    }

    /** What the constructor fixes: a non-zero direction and its increments and faces. */
    predicate Oriented() {
      && direction != Origin
      && xPlaneIncrement == Increment(direction.x) && xNormal == AxisFace(X, direction.x)
      && yPlaneIncrement == Increment(direction.y) && yNormal == AxisFace(Y, direction.y)
      && zPlaneIncrement == Increment(direction.z) && zNormal == AxisFace(Z, direction.z)
    }

    /** A filled cache holds the sum of its axes' faces (CrossingFace, by FaceSums). */
    predicate Cached()
      reads this`xyzNormal, this`xyNormal, this`xzNormal, this`yzNormal
    {
      && (xyzNormal.Some? ==> xyzNormal.value == xNormal.Add(yNormal).Add(zNormal))
      && (xyNormal.Some? ==> xyNormal.value == xNormal.Add(yNormal))
      && (xzNormal.Some? ==> xzNormal.value == xNormal.Add(zNormal))
      && (yzNormal.Some? ==> yzNormal.value == yNormal.Add(zNormal))
    }

    /**
     * The iterator's invariant: the constructor's orientation holds, every axis waits
     * for a plane whose parameter it has solved, the count is non-negative, the last
     * kept hit is one the filter accepted, and a look-ahead has a hit to hand out.
     */
    ghost predicate Valid()
      reads this`x, this`y, this`z, this`normalCurrent, this`blockCount, this`hit, this`ahead
    {
      && Oriented()
      && Consistent(Traced(), View())
      && blockCount >= 0
      && (hit.Some? ==> filter(hit.value))
      && (ahead ==> hit.Some?)
    }

    /**
     * BlockRay(filter, start, direction), once the direction is known to be non-zero:
     * each axis gets increment +1 and the negative face for a non-negative component,
     * -1 and the positive face otherwise; then the walk is reset.
     */
    constructor (filter: HitFilter, start: Location, direction: Vec3)
      requires LengthSquared(direction) != 0.0
      ensures Valid() && Cached()
      ensures this.filter == filter && extent == start.extent
      ensures position == start.position && this.direction == direction
      ensures blockLimit == DefaultBlockLimit
      ensures View() == Start(Traced())
      ensures blockCount == 0 && !ahead && hit.None?
    {
      NonZeroLength(direction);
      this.filter := filter;
      extent := start.extent;
      position := start.position;
      this.direction := direction;
      if direction.x >= 0.0 {
        xPlaneIncrement, xNormal := 1, Int3(-1, 0, 0);
      } else {
        xPlaneIncrement, xNormal := -1, Int3(1, 0, 0);
      }
      if direction.y >= 0.0 {
        yPlaneIncrement, yNormal := 1, Int3(0, -1, 0);
      } else {
        yPlaneIncrement, yNormal := -1, Int3(0, 1, 0);
      }
      if direction.z >= 0.0 {
        zPlaneIncrement, zNormal := 1, Int3(0, 0, -1);
      } else {
        zPlaneIncrement, zNormal := -1, Int3(0, 0, 1);
      }
      xyzNormal, xyNormal, xzNormal, yzNormal := None, None, None, None;
      blockLimit := DefaultBlockLimit;
      new;
      Reset();
    }

    /** setBlockLimit: a negative limit disables the limit. */
    method SetBlockLimit(blockLimit: int)
      requires Valid()
      modifies this`blockLimit
      ensures Valid() && this.blockLimit == blockLimit
    {
      this.blockLimit := blockLimit;
    }

    /**
     * reset: each axis waits for the plane at or ahead of the start coordinate, at the
     * start position, with no face passed, no hit, no count and no look-ahead.
     */
    method Reset()
      requires Oriented()
      modifies this`x, this`y, this`z, this`normalCurrent, this`blockCount, this`ahead,
        this`hit
      ensures Valid()
      ensures View() == Start(Traced())
      ensures blockCount == 0 && !ahead && hit.None?
    {
      // The floor of each coordinate, one further in a non-negative direction when
      // the coordinate lies strictly inside its block; then the parameter of that plane,
      // by the corrected Solve (Inf for a zero component, where the source can get NaN).
      var xPlaneNext := InitialPlane(position.x, direction.x);
      var yPlaneNext := InitialPlane(position.y, direction.y);
      var zPlaneNext := InitialPlane(position.z, direction.z);
      x := Lane(position.x, xPlaneNext, Solve(xPlaneNext, position.x, direction.x));
      y := Lane(position.y, yPlaneNext, Solve(yPlaneNext, position.y, direction.y));
      z := Lane(position.z, zPlaneNext, Solve(zPlaneNext, position.z, direction.z));
      normalCurrent := NoFace;
      blockCount := 0;
      ahead := false;
      hit := None;
    }

    /** The conditions under which an intersect step performs crossing `c`. */
    predicate Crossing(c: Crossing)
      reads this
    {
      && Oriented()
      && Consistent(Traced(), View())
      && SomeFinite(x.t, y.t, z.t)
      && Select(x.t, y.t, z.t) == c
    }

    // The seven crossings: every crossed axis lands on its plane and moves to the next
    // one; every other axis follows the ray to the crossing's parameter.
    method XYZIntersect()
      requires Crossing(CrossXYZ) && Cached()
      modifies this`x, this`y, this`z, this`normalCurrent, this`xyzNormal
      ensures Cached() && View() == Step(Traced(), old(View()))
    {
      var xPlaneNext := x.plane + xPlaneIncrement;
      var yPlaneNext := y.plane + yPlaneIncrement;
      var zPlaneNext := z.plane + zPlaneIncrement;
      x := Lane(x.plane as real, xPlaneNext, Solve(xPlaneNext, position.x, direction.x));
      y := Lane(y.plane as real, yPlaneNext, Solve(yPlaneNext, position.y, direction.y));
      z := Lane(z.plane as real, zPlaneNext, Solve(zPlaneNext, position.z, direction.z));
      normalCurrent := GetXYZNormal();
    }

    method XYIntersect()
      requires Crossing(CrossXY) && Cached()
      modifies this`x, this`y, this`z, this`normalCurrent, this`xyNormal
      ensures Cached() && View() == Step(Traced(), old(View()))
    {
      var t := x.t.t;
      var xPlaneNext := x.plane + xPlaneIncrement;
      var yPlaneNext := y.plane + yPlaneIncrement;
      x := Lane(x.plane as real, xPlaneNext, Solve(xPlaneNext, position.x, direction.x));
      y := Lane(y.plane as real, yPlaneNext, Solve(yPlaneNext, position.y, direction.y));
      z := z.(coord := direction.z * t + position.z);
      normalCurrent := GetXYNormal();
    }

    method XZIntersect()
      requires Crossing(CrossXZ) && Cached()
      modifies this`x, this`y, this`z, this`normalCurrent, this`xzNormal
      ensures Cached() && View() == Step(Traced(), old(View()))
    {
      var t := x.t.t;
      var xPlaneNext := x.plane + xPlaneIncrement;
      var zPlaneNext := z.plane + zPlaneIncrement;
      x := Lane(x.plane as real, xPlaneNext, Solve(xPlaneNext, position.x, direction.x));
      y := y.(coord := direction.y * t + position.y);
      z := Lane(z.plane as real, zPlaneNext, Solve(zPlaneNext, position.z, direction.z));
      normalCurrent := GetXZNormal();
    }

    method YZIntersect()
      requires Crossing(CrossYZ) && Cached()
      modifies this`x, this`y, this`z, this`normalCurrent, this`yzNormal
      ensures Cached() && View() == Step(Traced(), old(View()))
    {
      var t := y.t.t;
      var yPlaneNext := y.plane + yPlaneIncrement;
      var zPlaneNext := z.plane + zPlaneIncrement;
      x := x.(coord := direction.x * t + position.x);
      y := Lane(y.plane as real, yPlaneNext, Solve(yPlaneNext, position.y, direction.y));
      z := Lane(z.plane as real, zPlaneNext, Solve(zPlaneNext, position.z, direction.z));
      normalCurrent := GetYZNormal();
    }

    method XIntersect()
      requires Crossing(CrossX)
      modifies this`x, this`y, this`z, this`normalCurrent
      ensures View() == Step(Traced(), old(View()))
    {
      var t := x.t.t;
      var xPlaneNext := x.plane + xPlaneIncrement;
      x := Lane(x.plane as real, xPlaneNext, Solve(xPlaneNext, position.x, direction.x));
      y := y.(coord := direction.y * t + position.y);
      z := z.(coord := direction.z * t + position.z);
      normalCurrent := xNormal;
    }

    method YIntersect()
      requires Crossing(CrossY)
      modifies this`x, this`y, this`z, this`normalCurrent
      ensures View() == Step(Traced(), old(View()))
    {
      var t := y.t.t;
      var yPlaneNext := y.plane + yPlaneIncrement;
      x := x.(coord := direction.x * t + position.x);
      y := Lane(y.plane as real, yPlaneNext, Solve(yPlaneNext, position.y, direction.y));
      z := z.(coord := direction.z * t + position.z);
      normalCurrent := yNormal;
    }

    method ZIntersect()
      requires Crossing(CrossZ)
      modifies this`x, this`y, this`z, this`normalCurrent
      ensures View() == Step(Traced(), old(View()))
    {
      var t := z.t.t;
      var zPlaneNext := z.plane + zPlaneIncrement;
      x := x.(coord := direction.x * t + position.x);
      y := y.(coord := direction.y * t + position.y);
      z := Lane(z.plane as real, zPlaneNext, Solve(zPlaneNext, position.z, direction.z));
      normalCurrent := zNormal;
    }

    /** getXYZNormal: the corner face, computed on first use and kept. */
    method GetXYZNormal() returns (n: Int3)
      requires Oriented() && Cached()
      modifies this`xyzNormal
      ensures Cached() && xyzNormal == Some(n)
      ensures n == xNormal.Add(yNormal).Add(zNormal) == CrossingFace(direction, CrossXYZ)
    {
      FaceSums(direction);
      if xyzNormal.None? {
        xyzNormal := Some(xNormal.Add(yNormal).Add(zNormal));
      }
      n := xyzNormal.value;
    }

    method GetXYNormal() returns (n: Int3)
      requires Oriented() && Cached()
      modifies this`xyNormal
      ensures Cached() && xyNormal == Some(n)
      ensures n == xNormal.Add(yNormal) == CrossingFace(direction, CrossXY)
    {
      FaceSums(direction);
      if xyNormal.None? {
        xyNormal := Some(xNormal.Add(yNormal));
      }
      n := xyNormal.value;
    }

    method GetXZNormal() returns (n: Int3)
      requires Oriented() && Cached()
      modifies this`xzNormal
      ensures Cached() && xzNormal == Some(n)
      ensures n == xNormal.Add(zNormal) == CrossingFace(direction, CrossXZ)
    {
      FaceSums(direction);
      if xzNormal.None? {
        xzNormal := Some(xNormal.Add(zNormal));
      }
      n := xzNormal.value;
    }

    method GetYZNormal() returns (n: Int3)
      requires Oriented() && Cached()
      modifies this`yzNormal
      ensures Cached() && yzNormal == Some(n)
      ensures n == yNormal.Add(zNormal) == CrossingFace(direction, CrossYZ)
    {
      FaceSums(direction);
      if yzNormal.None? {
        yzNormal := Some(yNormal.Add(zNormal));
      }
      n := yzNormal.value;
    }

    /**
     * The choice of crossing in advance, made by the corrected Select: it performs
     * the walk's next step. On a two-way tie above the third parameter the source's
     * comparison chain picks differently (AsWritten.SelectAgreement).
     */
    method Intersect()
      requires Oriented() && Consistent(Traced(), View()) && Cached()
      modifies this`x, this`y, this`z, this`normalCurrent,
        this`xyzNormal, this`xyNormal, this`xzNormal, this`yzNormal
      ensures Cached() && View() == Step(Traced(), old(View()))
    {
      ConsistentFinite(Traced(), View());
      match Select(x.t, y.t, z.t) {
        case CrossXYZ => XYZIntersect();
        case CrossXY => XYIntersect();
        case CrossXZ => XZIntersect();
        case CrossYZ => YZIntersect();
        case CrossX => XIntersect();
        case CrossY => YIntersect();
        case CrossZ => ZIntersect();
      }
    }

    /**
     * advance: a pending look-ahead is consumed without moving; otherwise the block
     * limit is checked before anything changes, one crossing is performed, and the
     * filter decides whether its hit is kept and counted (false where the source
     * throws NoSuchElementException).
     */
    method Advance() returns (ok: bool)
      requires Valid() && Cached()
      modifies this`x, this`y, this`z, this`normalCurrent,
        this`xyzNormal, this`xyNormal, this`xzNormal, this`yzNormal,
        this`hit, this`blockCount, this`ahead
      ensures Valid() && Cached() && !ahead
      ensures old(ahead) ==>
        && ok && View() == old(View())
        && hit == old(hit) && blockCount == old(blockCount)
      ensures !old(ahead) && LimitReached(blockLimit, old(blockCount)) ==>
        && !ok && View() == old(View())
        && hit == old(hit) && blockCount == old(blockCount)
      ensures !old(ahead) && !LimitReached(blockLimit, old(blockCount)) ==>
        && View() == Step(Traced(), old(View()))
        && ok == filter(CurrentHit())
        && (ok ==> hit == Some(CurrentHit()) && blockCount == old(blockCount) + 1)
        && (!ok ==> hit == old(hit) && blockCount == old(blockCount))
      ensures (forall h :: filter(h)) && !old(ahead) ==>
        (!ok <==> LimitReached(blockLimit, old(blockCount)))
    {
      if ahead {
        ahead := false;
        return true;
      }
      if blockLimit >= 0 && blockCount >= blockLimit {
        return false;
      }
      Intersect();
      var h := BlockRayHit(extent, x.coord, y.coord, z.coord, normalCurrent);
      if filter(h) {
        hit := Some(h);
        blockCount := blockCount + 1;
        ok := true;
      } else {
        ok := false;
      }
    }

    /**
     * hasNext: advances and, when that succeeds, holds the hit for the next `next`.
     * A pending look-ahead answers true without moving.
     */
    method HasNext() returns (b: bool)
      requires Valid() && Cached()
      modifies this`x, this`y, this`z, this`normalCurrent,
        this`xyzNormal, this`xyNormal, this`xzNormal, this`yzNormal,
        this`hit, this`blockCount, this`ahead
      ensures Valid() && Cached() && ahead == b
      ensures old(ahead) ==>
        && b && View() == old(View())
        && hit == old(hit) && blockCount == old(blockCount)
      ensures !old(ahead) && LimitReached(blockLimit, old(blockCount)) ==>
        && !b && View() == old(View())
        && hit == old(hit) && blockCount == old(blockCount)
      ensures !old(ahead) && !LimitReached(blockLimit, old(blockCount)) ==>
        && View() == Step(Traced(), old(View()))
        && b == filter(CurrentHit())
        && (b ==> hit == Some(CurrentHit()) && blockCount == old(blockCount) + 1)
        && (!b ==> hit == old(hit) && blockCount == old(blockCount))
    {
      b := Advance();
      if b {
        ahead := true;
      }
    }

    /**
     * next: the hit after advancing, or None where the source throws. After a true
     * hasNext it returns the hit that hasNext computed, without moving.
     */
    method Next() returns (r: Option<BlockRayHit>)
      requires Valid() && Cached()
      modifies this`x, this`y, this`z, this`normalCurrent,
        this`xyzNormal, this`xyNormal, this`xzNormal, this`yzNormal,
        this`hit, this`blockCount, this`ahead
      ensures Valid() && Cached() && !ahead
      ensures old(ahead) ==>
        && r == old(hit) && r.Some? && View() == old(View())
        && hit == old(hit) && blockCount == old(blockCount)
      ensures !old(ahead) && LimitReached(blockLimit, old(blockCount)) ==>
        && r.None? && View() == old(View())
        && hit == old(hit) && blockCount == old(blockCount)
      ensures !old(ahead) && !LimitReached(blockLimit, old(blockCount)) ==>
        && View() == Step(Traced(), old(View()))
        && (r.Some? <==> filter(CurrentHit()))
        && (r.Some? ==> r.value == CurrentHit() && blockCount == old(blockCount) + 1)
        && (r.None? ==> hit == old(hit) && blockCount == old(blockCount))
      ensures r.Some? ==> hit == r
    {
      var ok := Advance();
      if ok {
        r := hit;
      } else {
        r := None;
      }
    }
  }

  /**
   * The filter a ray holds decides every hit it keeps: the hit `next` returns is the
   * ray's `hit`, which the filter accepted. For a ray built by Between, whose filter
   * also holds TargetBlockFilter of the end's block, no kept hit lies in that block.
   */
  lemma BetweenNeverKeepsTarget(ray: BlockRay, filter: HitFilter, to: Location)
    requires ray.Valid() && ray.filter == AndFilter(filter, TargetBlockFilter(to.BlockPosition()))
    ensures ray.hit.Some? ==> ray.hit.value.BlockPosition() != to.BlockPosition()
  {
  }

  /** Under maxDistanceFilter every kept hit lies strictly within the distance of the start. */
  lemma MaxDistanceKeepsWithin(ray: BlockRay, start: Vec3, distance: real)
    requires ray.Valid() && ray.filter == MaxDistanceFilter(start, distance)
    ensures ray.hit.Some? ==> DistanceSquared(ray.hit.value.Position(), start) < distance * distance
  {
  }

  /** Under blockTypeFilter(t) every kept hit's block holds t. */
  lemma BlockTypeKeepsType(ray: BlockRay, world: Blocks, t: BlockType)
    requires ray.Valid() && ray.filter == BlockTypeFilter(world, t)
    ensures ray.hit.Some? ==> world(ray.hit.value.extent, ray.hit.value.BlockPosition()) == t
  {
  }

  /** Under ONLY_AIR_FILTER every kept hit's block is air. */
  lemma OnlyAirKeepsAir(ray: BlockRay, world: Blocks)
    requires ray.Valid() && ray.filter == OnlyAirFilter(world)
    ensures ray.hit.Some? ==> world(ray.hit.value.extent, ray.hit.value.BlockPosition()) == Air
  {
  }

  /**
   * A for-each loop over a ray with a non-negative block limit: hasNext, then next, until
   * hasNext says false. Every hit handed out is one the filter kept, each is counted, and
   * there are never more of them than the limit leaves room for. The loop stops because
   * the limit is used up or because the filter stopped at the hit just reached.
   */
  method ForEachHit(ray: BlockRay) returns (hits: seq<BlockRayHit>)
    requires ray.Valid() && ray.Cached() && !ray.ahead
    requires 0 <= ray.blockCount <= ray.blockLimit
    modifies ray
    ensures ray.Valid() && ray.Cached() && !ray.ahead
    ensures ray.blockLimit == old(ray.blockLimit)
    ensures |hits| == ray.blockCount - old(ray.blockCount) <= ray.blockLimit - old(ray.blockCount)
    ensures forall i :: 0 <= i < |hits| ==> ray.filter(hits[i])
    ensures |hits| > 0 ==> ray.hit == Some(hits[|hits| - 1])
    ensures ray.blockCount == ray.blockLimit || !ray.filter(ray.CurrentHit())
  {
    hits := [];
    var more := ray.HasNext();
    while more
      invariant ray.Valid() && ray.Cached() && ray.ahead == more
      invariant ray.blockLimit == old(ray.blockLimit)
      invariant old(ray.blockCount) + |hits| + (if more then 1 else 0) == ray.blockCount <= ray.blockLimit
      invariant forall i :: 0 <= i < |hits| ==> ray.filter(hits[i])
      invariant |hits| > 0 && !more ==> ray.hit == Some(hits[|hits| - 1])
      invariant !more ==> ray.blockCount == ray.blockLimit || !ray.filter(ray.CurrentHit())
      decreases ray.blockLimit - |hits|
    {
      var h := ray.Next();
      hits := hits + [h.value];
      more := ray.HasNext();
    }
  }

  /**
   * BlockRay(filter, start, direction) with its argument check: a zero direction is
   * refused, anything else gives a reset ray.
   */
  method Create(filter: HitFilter, start: Location, direction: Vec3) returns (r: Result<BlockRay, RayError>)
    ensures r.Failure? <==> LengthSquared(direction) == 0.0
    ensures r.Failure? ==> r.error == ZeroDirection
    ensures r.Success? ==>
      && fresh(r.value) && r.value.Valid() && r.value.Cached()
      && r.value.filter == filter && r.value.extent == start.extent
      && r.value.position == start.position && r.value.direction == direction
      && r.value.blockLimit == DefaultBlockLimit && r.value.View() == Start(r.value.Traced()) && r.value.hit.None?
      && r.value.blockCount == 0 && !r.value.ahead
  {
    if LengthSquared(direction) == 0.0 {
      return Failure(ZeroDirection);
    }
    var ray := new BlockRay(filter, start, direction);
    r := Success(ray);
  }

  /**
   * BlockRay(filter, from, to): the ray from `from` towards `to`, whose filter also
   * stops at the end's block. The direction is checked first, then the extents.
   */
  method Between(filter: HitFilter, from: Location, to: Location) returns (r: Result<BlockRay, RayError>)
    ensures var d := to.position.Sub(from.position);
      && (r.Failure? <==> LengthSquared(d) == 0.0 || from.extent != to.extent)
      && (LengthSquared(d) == 0.0 ==> r.Failure? && r.error == ZeroDirection)
      && (LengthSquared(d) != 0.0 && from.extent != to.extent ==> r.Failure? && r.error == DifferentExtents)
      && (r.Success? ==>
            && fresh(r.value) && r.value.Valid() && r.value.Cached()
            && r.value.filter == AndFilter(filter, TargetBlockFilter(to.BlockPosition()))
            && r.value.extent == from.extent && r.value.position == from.position
            && r.value.direction == d && r.value.blockLimit == DefaultBlockLimit
            && r.value.View() == Start(r.value.Traced()) && r.value.hit.None?
            && r.value.blockCount == 0 && !r.value.ahead)
  {
    var d := to.position.Sub(from.position);
    r := Create(AndFilter(filter, TargetBlockFilter(to.BlockPosition())), from, d);
    if r.Success? && from.extent != to.extent {
      r := Failure(DifferentExtents);
    }
  }

  /** BlockRayBuilder: filter, end and direction are each set at most once. */
  class BlockRayBuilder {
    const start: Location
    var filter: Option<HitFilter>
    var end: Option<Location>
    var direction: Option<Vec3>
    var blockLimit: int

    /** An end point and a direction are never both set. */
    predicate Valid()
      reads this
    {
      end.None? || direction.None?
    }

    constructor (start: Location)
      ensures Valid() && this.start == start
      ensures filter.None? && end.None? && direction.None? && blockLimit == DefaultBlockLimit
    {
      this.start := start;
      filter, end, direction := None, None, None;
      blockLimit := DefaultBlockLimit;
    }

    /** filter(f): only once. */
    method Filter(f: HitFilter) returns (r: Outcome<RayError>)
      requires Valid()
      modifies this`filter
      ensures Valid()
      ensures old(filter).Some? ==> r == Fail(FilterAlreadySet) && filter == old(filter)
      ensures old(filter).None? ==> r == Pass && filter == Some(f)
    {
      if filter.Some? {
        return Fail(FilterAlreadySet);
      }
      filter := Some(f);
      r := Pass;
    }

    /** to(end): only once, and not after a direction. */
    method To(end: Location) returns (r: Outcome<RayError>)
      requires Valid()
      modifies this`end
      ensures Valid()
      ensures old(this.end).Some? ==> r == Fail(EndAlreadySet) && this.end == old(this.end)
      ensures old(this.end).None? && direction.Some? ==> r == Fail(EndAndDirection) && this.end.None?
      ensures old(this.end).None? && direction.None? ==> r == Pass && this.end == Some(end)
    {
      if this.end.Some? {
        return Fail(EndAlreadySet);
      }
      if direction.Some? {
        return Fail(EndAndDirection);
      }
      this.end := Some(end);
      r := Pass;
    }

    /** direction(d): only once, and not after an end point. */
    method Direction(direction: Vec3) returns (r: Outcome<RayError>)
      requires Valid()
      modifies this`direction
      ensures Valid()
      ensures old(this.direction).Some? ==> r == Fail(DirectionAlreadySet) && this.direction == old(this.direction)
      ensures old(this.direction).None? && end.Some? ==> r == Fail(EndAndDirection) && this.direction.None?
      ensures old(this.direction).None? && end.None? ==> r == Pass && this.direction == Some(direction)
    {
      if this.direction.Some? {
        return Fail(DirectionAlreadySet);
      }
      if end.Some? {
        return Fail(EndAndDirection);
      }
      this.direction := Some(direction);
      r := Pass;
    }

    method BlockLimit(blockLimit: int)
      modifies this`blockLimit
      ensures this.blockLimit == blockLimit
    {
      this.blockLimit := blockLimit;
    }

    /**
     * build: needs an end point or a direction; the filter defaults to ALL_FILTER;
     * the ray gets the builder's block limit.
     */
    method Build() returns (r: Result<BlockRay, RayError>)
      requires Valid()
      ensures end.None? && direction.None? ==> r.Failure? && r.error == NoEndOrDirection
      ensures direction.Some? && LengthSquared(direction.value) == 0.0 ==>
        r.Failure? && r.error == ZeroDirection
      ensures r.Success? ==>
        && fresh(r.value) && r.value.Valid() && r.value.Cached()
        && r.value.filter == (if end.Some? then AndFilter(FilterOrAll(), TargetBlockFilter(end.value.BlockPosition()))
                              else FilterOrAll())
        && r.value.extent == start.extent && r.value.position == start.position
        && r.value.direction == (if end.Some? then end.value.position.Sub(start.position) else direction.value)
        && r.value.blockLimit == blockLimit && r.value.View() == Start(r.value.Traced()) && r.value.hit.None?
        && r.value.blockCount == 0 && !r.value.ahead
      ensures end.Some? ==> (r.Failure? <==>
        LengthSquared(end.value.position.Sub(start.position)) == 0.0 || start.extent != end.value.extent)
      ensures direction.Some? ==> (r.Failure? <==> LengthSquared(direction.value) == 0.0)
    {
      if end.None? && direction.None? {
        return Failure(NoEndOrDirection);
      }
      var f := FilterOrAll();
      if end.None? {
        r := Create(f, start, direction.value);
      } else {
        r := Between(f, start, end.value);
      }
      if r.Success? {
        r.value.SetBlockLimit(blockLimit);
      }
    }

    function FilterOrAll(): HitFilter
      reads this
    {
      if filter.None? then AllFilter() else filter.value
    }
  }

  /** BlockRay.from(start): a fresh builder. */
  method From(start: Location) returns (b: BlockRayBuilder)
    ensures fresh(b) && b.Valid() && b.start == start
    ensures b.filter.None? && b.end.None? && b.direction.None? && b.blockLimit == DefaultBlockLimit
  {
    b := new BlockRayBuilder(start);
  }
}
