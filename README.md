# BlockRay: a verified model of SpongeAPI's block ray

SpongeAPI's `BlockRay` walks a ray through the block grid of a world and reports
the block boundaries the ray crosses as `BlockRayHit`s. It is meant to report every
boundary, in order. The model proves that for a corrected choice of crossing; the
source's own choice misses boundaries on some inputs (see Findings). Each hit holds
the exact intersection point, the face passed through and a block derived from the
point and that face. With the faces `BlockRay` passes (X_NEGATIVE while x grows),
that block is the cell the ray leaves (`Rays.HitBlockBehind`).
A filter decides after each hit whether the walk goes on. A block limit (1000 by
default, negative to disable) stops runaway rays. `BlockRayBuilder` collects a
start, an end point or a direction, a filter and a limit. `BlockRayFilter` is the
tree of stop conditions: `and`, `or`, `not`, `ALL`, `NONE`, `blockType` and
`maxDistance`.

The model has seven modules:

- `Wrappers`: `Option`, `Result` and `Outcome`, for values that may be absent and
  for the error paths where the source throws.
- `Geometry`: vectors, integer block positions, extents, block types, locations.
- `Hits`: `BlockRayHit`. Its accessors are the datatype's fields. The block is
  derived from the point and the face.
- `Filters`: `BlockRayFilter` as a datatype tree. The one stateful filter,
  `maxDistance`, keeps its start in a `DistanceStart` object. `start` is a method
  that writes those objects, and `shouldContinue` reads them.
- `Traversal`: the grid walk as pure values. It defines the plane bookkeeping of
  each axis (`Lane`), the choice of axes crossed next (`Select`) and one crossing
  (`Step`). Lemmas prove the walk's guarantees over any number of steps:
  - crossings come in strictly increasing ray parameter;
  - every hit lies on the ray;
  - no plane is skipped;
  - an axis the ray does not move along is never crossed.
- `Rays`: the class `BlockRay`, its builder and the predicate filters of
  `BlockRay.java`. The class keeps the source's fields and methods and updates
  them in place. It chooses each crossing with the corrected selection and plane
  parameter (see Left out). Each advance is proved to perform exactly one `Traversal.Step`,
  so the walk's lemmas hold for every hit the class produces.
- `AsWritten`: advance's comparison chain and plane parameters on Java doubles,
  exactly as the source has them. Next to them are the inputs on which they
  differ from the corrected walk that the rest of the model uses (see Findings).

Doubles are modelled as exact reals. In the model a zero direction component
always gives the parameter `Inf`. The source gives +Infinity only when the start
coordinate lies strictly inside a block; on a plane it gives NaN (Finding 2).

Exceptions become values:
- `advance` answers false where it throws `NoSuchElementException`;
- `next` answers `None`;
- the constructors, `build` and the builder setters answer a `RayError` where a
  precondition check throws.

## Model

| member | source | states |
|---|---|---|
| Hits.BlockCoord | src/main/java/org/spongepowered/api/util/blockray/BlockRayHit.java:40-43 | the block coordinate holds the hit coordinate in its cell [b, b+1) for a non-negative normal, and in [b+1, b+2) for a negative one |
| Hits.BlockRayHit.BlockPosition | src/main/java/org/spongepowered/api/util/blockray/BlockRayHit.java:126-131 | the block position is built from the three block coordinates, and it is a block that the hit's point and face designate |
| Hits.BlockRayHit.Position | src/main/java/org/spongepowered/api/util/blockray/BlockRayHit.java:87-92 | getPosition is the intersection point, with getX, getY and getZ as its coordinates |
| Hits.DesignatesUnique | src/main/java/org/spongepowered/api/util/blockray/BlockRayHit.java:37-43 | a point and a face designate at most one block, so the constructor's derivation is the only one possible |
| Hits.BlockOnPlane | src/main/java/org/spongepowered/api/util/blockray/BlockRayHit.java:40-43 | a coordinate exactly on plane n gives block n - 1 for a negative normal and block n otherwise |
| Filters.DistanceStart.constructor | src/main/java/org/spongepowered/api/util/blockray/BlockRayFilter.java:236-238 | a new max-distance record starts at (0, 0, 0) |
| Filters.NewMaxDistance | src/main/java/org/spongepowered/api/util/blockray/BlockRayFilter.java:230-234 | maxDistance keeps the squared bound and a fresh start record at the origin |
| Filters.Start | src/main/java/org/spongepowered/api/util/blockray/BlockRayFilter.java:241-246 | after start, every max-distance record in the tree holds the location's position; and/or forward to both sides and not to its operand (lines 102-105, 129-132, 155-157) |
| Filters.ShouldContinue | src/main/java/org/spongepowered/api/util/blockray/BlockRayFilter.java:178-257 | ALL continues at every hit and NONE at none; a max-distance leaf continues exactly while the hit's squared distance from its recorded start is below the squared bound; for every tree, once started it agrees with its meaning (Filters.ShouldContinueDenotes) |
| Filters.ShouldContinueDenotes | src/main/java/org/spongepowered/api/util/blockray/BlockRayFilter.java:95-164 | once every record holds the origin, shouldContinue of any tree equals its stateless meaning (and = conjunction, or = disjunction, not = negation, leaves as defined) |
| Filters.NotNot | src/main/java/org/spongepowered/api/util/blockray/BlockRayFilter.java:148-164 | not(not(f)) decides every hit as f does |
| Filters.DeMorgan | src/main/java/org/spongepowered/api/util/blockray/BlockRayFilter.java:95-164 | not(a and b) decides as not a or not b, and not(a or b) as not a and not b |
| Filters.AllNoneLaws | src/main/java/org/spongepowered/api/util/blockray/BlockRayFilter.java:178-198 | ALL continues at every hit and NONE at none: units and absorbing elements of and/or, and negations of each other |
| Filters.MaxDistanceBoundary | src/main/java/org/spongepowered/api/util/blockray/BlockRayFilter.java:230-257 | a started max-distance filter continues exactly at hits strictly closer than the distance |
| Filters.MaxDistanceStopsAtBound | src/main/java/org/spongepowered/api/util/blockray/BlockRayFilter.java:249-254 | a hit at exactly the maximum distance stops the ray (the comparison is strict) |
| Traversal.Solve | src/main/java/org/spongepowered/api/util/blockray/BlockRay.java:226-228 | the plane parameter is infinite exactly when the direction component is zero |
| Traversal.SolveMeets | src/main/java/org/spongepowered/api/util/blockray/BlockRay.java:226-228 | a finite plane parameter puts the ray exactly on that plane (d t + p = n) |
| Traversal.InitialPlaneBounds | src/main/java/org/spongepowered/api/util/blockray/BlockRay.java:209-223 | the first plane is the nearest one at or ahead of the start coordinate in the direction of travel |
| Traversal.MinT | src/main/java/org/spongepowered/api/util/blockray/BlockRay.java:279-307 | the next crossing parameter is one of the three parameters and no parameter is below it |
| Traversal.Select | src/main/java/org/spongepowered/api/util/blockray/BlockRay.java:279-307 | an axis is crossed exactly when its parameter equals the smallest one: ties give the combined edge or corner crossing |
| Traversal.CrossingFaceAxes | src/main/java/org/spongepowered/api/util/blockray/BlockRay.java:162-183 | the face passed points against the direction of travel on every crossed axis and is 0 elsewhere |
| Traversal.FaceSums | src/main/java/org/spongepowered/api/util/blockray/BlockRay.java:416-442 | each edge or corner face is the sum of its axes' faces, which is the face of that combined crossing |
| Traversal.ConsistentFinite | src/main/java/org/spongepowered/api/util/blockray/BlockRay.java:154 | a non-zero direction leaves at least one finite plane parameter, so a next crossing exists |
| Traversal.Step | src/main/java/org/spongepowered/api/util/blockray/BlockRay.java:336-414 | one crossing keeps every lane's parameter equal to the solution for its plane |
| Traversal.StepMoves | src/main/java/org/spongepowered/api/util/blockray/BlockRay.java:336-414 | a crossed axis snaps to the plane it waited for and moves on one plane; any other axis keeps its plane and parameter; the face passed is the crossing's face |
| Traversal.StartPending | src/main/java/org/spongepowered/api/util/blockray/BlockRay.java:202-237 | reset leaves every axis waiting for the first plane at or after parameter 0, at the start position, with no face |
| Traversal.StartLanePending | src/main/java/org/spongepowered/api/util/blockray/BlockRay.java:209-228 | the first plane's parameter is at least 0 and the plane one step back lies strictly behind the start |
| Traversal.NextPlaneLater | src/main/java/org/spongepowered/api/util/blockray/BlockRay.java:391-393 | moving to the next plane in the direction of travel gives a strictly later parameter |
| Traversal.MoveLanePending | src/main/java/org/spongepowered/api/util/blockray/BlockRay.java:386-394 | crossing or following the ray keeps an axis waiting for the first plane after the crossing, with its coordinate on the ray |
| Traversal.StepPending | src/main/java/org/spongepowered/api/util/blockray/BlockRay.java:276 | one advance crosses strictly after the previous crossing, keeps every axis waiting for its next plane, and stands at the ray's point for the crossing |
| Traversal.OnRayCurrent | src/main/java/org/spongepowered/api/util/blockray/BlockRay.java:386-389 | a walk whose coordinates follow the ray stands at the ray's point for the crossing parameter |
| Traversal.MinAfter | src/main/java/org/spongepowered/api/util/blockray/BlockRay.java:279-307 | the next crossing comes strictly after the last one (at or after 0 for the first) |
| Traversal.Walked | src/main/java/org/spongepowered/api/util/blockray/BlockRay.java:239-317 | any number of advances keeps every lane's parameter equal to the solution for its plane |
| Traversal.Crossings | src/main/java/org/spongepowered/api/util/blockray/BlockRay.java:239-317 | k advances give exactly k crossing parameters |
| Traversal.WalkAscends | src/main/java/org/spongepowered/api/util/blockray/BlockRay.java:276 | over any number of advances the crossing parameters increase strictly, and the walk stands at the ray's point for the latest one |
| Traversal.SolveOrder | src/main/java/org/spongepowered/api/util/blockray/BlockRay.java:226-228 | the planes of a moving axis are met in the order of travel |
| Traversal.PendingPlaneUnique | src/main/java/org/spongepowered/api/util/blockray/BlockRay.java:226-228 | the plane an axis waits for is the only one whose parameter lies between the last crossing and its own |
| Traversal.NoPlaneSkipped | src/main/java/org/spongepowered/api/util/blockray/BlockRay.java:46-47 | every plane of a moving axis that the ray reaches no later than the k-th crossing is crossed by one of the first k advances, which then stands on it with a face on that axis |
| Traversal.ParallelAxisFixed | src/main/java/org/spongepowered/api/util/blockray/BlockRay.java:226-228 | an axis with a zero component is never crossed and keeps the start coordinate |
| Traversal.WalkedSucc | src/main/java/org/spongepowered/api/util/blockray/BlockRay.java:239-317 | k + 1 advances are one more advance after k, and add the next crossing at the end |
| Traversal.FromStart | src/main/java/org/spongepowered/api/util/blockray/BlockRay.java:46-47 | from reset, the crossings are at non-negative, strictly increasing parameters, and the k-th hit lies on the ray |
| Traversal.OriginOnPlane | src/main/java/org/spongepowered/api/util/blockray/BlockRay.java:209-223 | a start on a plane of a moving axis is reported as the first crossing, at parameter 0, on that plane |
| Rays.BetweenNeverKeepsTarget | src/main/java/org/spongepowered/api/util/blockray/BlockRay.java:138-141 | a ray built between two locations never keeps a hit in the end's block, because its filter is the user's filter and TargetBlockFilter of that block (lines 625-637) |
| Rays.MaxDistanceKeepsWithin | src/main/java/org/spongepowered/api/util/blockray/BlockRay.java:599-602 | under maxDistanceFilter every hit the ray keeps lies strictly within the distance of the start |
| Rays.BlockTypeKeepsType | src/main/java/org/spongepowered/api/util/blockray/BlockRay.java:578-594 | under blockTypeFilter(t) every hit the ray keeps is in a block of type t |
| Rays.OnlyAirKeepsAir | src/main/java/org/spongepowered/api/util/blockray/BlockRay.java:70-76 | under ONLY_AIR_FILTER every hit the ray keeps is in an air block |
| Rays.ForEachHit | src/main/java/org/spongepowered/api/util/blockray/BlockRay.java:188-191 | a for-each loop (hasNext, then next) over a ray with a non-negative limit hands out only hits the filter kept, counts each, and never more than the limit leaves room for (lines 246-249, 313, 319-334); it stops because the limit is used up or the filter stopped at the hit just reached |
| Rays.HitBlockBehind | src/main/java/org/spongepowered/api/util/blockray/BlockRay.java:310 | on every crossed axis the hit's block lies behind the plane just crossed: its upper side is the plane when moving up, its lower side when moving down |
| Rays.BlockRay.constructor | src/main/java/org/spongepowered/api/util/blockray/BlockRay.java:153-186 | the ray keeps the filter, extent, start and direction, sets each axis's increment and face by the sign of its component, has the default limit, and is reset |
| Rays.BlockRay.SetBlockLimit | src/main/java/org/spongepowered/api/util/blockray/BlockRay.java:195-197 | sets the limit and keeps the invariant |
| Rays.BlockRay.Reset | src/main/java/org/spongepowered/api/util/blockray/BlockRay.java:202-237 | the fields hold the walk's start state; no hit, no count, no look-ahead |
| Rays.BlockRay.XYZIntersect | src/main/java/org/spongepowered/api/util/blockray/BlockRay.java:336-348 | when all three axes cross, the fields become the walk's next step |
| Rays.BlockRay.XYIntersect | src/main/java/org/spongepowered/api/util/blockray/BlockRay.java:350-360 | when x and y cross, the fields become the walk's next step |
| Rays.BlockRay.XZIntersect | src/main/java/org/spongepowered/api/util/blockray/BlockRay.java:362-372 | when x and z cross, the fields become the walk's next step |
| Rays.BlockRay.YZIntersect | src/main/java/org/spongepowered/api/util/blockray/BlockRay.java:374-384 | when y and z cross, the fields become the walk's next step |
| Rays.BlockRay.XIntersect | src/main/java/org/spongepowered/api/util/blockray/BlockRay.java:386-394 | when x alone crosses, the fields become the walk's next step |
| Rays.BlockRay.YIntersect | src/main/java/org/spongepowered/api/util/blockray/BlockRay.java:396-404 | when y alone crosses, the fields become the walk's next step |
| Rays.BlockRay.ZIntersect | src/main/java/org/spongepowered/api/util/blockray/BlockRay.java:406-414 | when z alone crosses, the fields become the walk's next step |
| Rays.BlockRay.GetXYZNormal | src/main/java/org/spongepowered/api/util/blockray/BlockRay.java:416-421 | the cached corner face is the sum of the three axis faces, which is the face of a corner crossing; it stays cached |
| Rays.BlockRay.GetXYNormal | src/main/java/org/spongepowered/api/util/blockray/BlockRay.java:423-428 | the cached xy face is the sum of the x and y faces, which is the face of that edge crossing |
| Rays.BlockRay.GetXZNormal | src/main/java/org/spongepowered/api/util/blockray/BlockRay.java:430-435 | the cached xz face is the sum of the x and z faces, which is the face of that edge crossing |
| Rays.BlockRay.GetYZNormal | src/main/java/org/spongepowered/api/util/blockray/BlockRay.java:437-442 | the cached yz face is the sum of the y and z faces, which is the face of that edge crossing |
| Rays.BlockRay.Intersect | src/main/java/org/spongepowered/api/util/blockray/BlockRay.java:279-307 | the comparison chain performs exactly the walk's next step |
| Rays.BlockRay.Advance | src/main/java/org/spongepowered/api/util/blockray/BlockRay.java:239-317 | a look-ahead is consumed without moving; a reached limit fails with nothing changed; otherwise one step is taken and the hit is kept and counted exactly when the filter accepts it, and nothing else changes when it does not; under a filter that accepts everything (ALL_FILTER, lines 79-89) advance fails exactly when the limit is reached (lines 246-249) |
| Rays.BlockRay.HasNext | src/main/java/org/spongepowered/api/util/blockray/BlockRay.java:319-328 | answers what advance answers and holds a successful hit as look-ahead |
| Rays.BlockRay.Next | src/main/java/org/spongepowered/api/util/blockray/BlockRay.java:330-334 | returns the look-ahead hit without moving or counting, or the hit of one more step when the filter accepts it (counted); on None the stored hit and the count are unchanged |
| Rays.Create | src/main/java/org/spongepowered/api/util/blockray/BlockRay.java:153-154 | fails exactly on a zero-length direction; otherwise gives a reset ray with the given settings: no hit, count 0, no look-ahead |
| Rays.Between | src/main/java/org/spongepowered/api/util/blockray/BlockRay.java:138-141 | fails on equal points, then on different extents; otherwise gives a reset ray (no hit, count 0, no look-ahead) towards the end whose filter also stops at the end's block |
| Rays.BlockRayBuilder.constructor | src/main/java/org/spongepowered/api/util/blockray/BlockRay.java:494-502 | a builder with only the start set and the default limit |
| Rays.BlockRayBuilder.Filter | src/main/java/org/spongepowered/api/util/blockray/BlockRay.java:510-515 | sets the filter once; a second call fails and changes nothing |
| Rays.BlockRayBuilder.To | src/main/java/org/spongepowered/api/util/blockray/BlockRay.java:523-529 | sets the end once, never beside a direction |
| Rays.BlockRayBuilder.Direction | src/main/java/org/spongepowered/api/util/blockray/BlockRay.java:537-543 | sets the direction once, never beside an end |
| Rays.BlockRayBuilder.BlockLimit | src/main/java/org/spongepowered/api/util/blockray/BlockRay.java:552-555 | sets the limit |
| Rays.BlockRayBuilder.Build | src/main/java/org/spongepowered/api/util/blockray/BlockRay.java:562-569 | fails without an end or a direction; otherwise builds the ray towards the end or along the direction, from the start's extent and position, with ALL_FILTER as the default filter, the builder's limit, no hit, count 0 and no look-ahead |
| Rays.From | src/main/java/org/spongepowered/api/util/blockray/BlockRay.java:469-472 | a fresh builder at the start |
| AsWritten.ToJOrder | src/main/java/org/spongepowered/api/util/blockray/BlockRay.java:279-307 | on finite or +Infinity parameters, Java's == and < are the model's equality and order |
| AsWritten.ResetSolveAsWritten | src/main/java/org/spongepowered/api/util/blockray/BlockRay.java:226-228 | reset's first parameter is NaN exactly for a zero component with the start on a plane, and otherwise the model's parameter |
| AsWritten.SelectAgreement | src/main/java/org/spongepowered/api/util/blockray/BlockRay.java:279-307 | the chain as written picks the corrected crossing exactly when no two parameters tie above the third |
| AsWritten.NaNSelect | src/main/java/org/spongepowered/api/util/blockray/BlockRay.java:279-307 | with NaN on x or on y that axis is never crossed; with NaN on z and no x-y tie, z alone is crossed |
| AsWritten.AxisAlignedAsWritten | src/main/java/org/spongepowered/api/util/blockray/BlockRay.java:279-292 | with two parameters at +Infinity the chain crosses those two axes; the corrected selection crosses the finite one |
| AsWritten.StepAsWritten | src/main/java/org/spongepowered/api/util/blockray/BlockRay.java:336-414 | one advance as written, on a ray that moves along every axis, keeps every lane solved |
| AsWritten.StepAgreement | src/main/java/org/spongepowered/api/util/blockray/BlockRay.java:279-414 | without a tie above the third parameter, the advance as written is the corrected step |
| AsWritten.WalkedAsWritten | src/main/java/org/spongepowered/api/util/blockray/BlockRay.java:239-317 | any number of advances as written keep every lane solved |
| AsWritten.TieRayWalk | src/main/java/org/spongepowered/api/util/blockray/BlockRay.java:279-292 | along the tie ray, the walk as written after k advances is given in closed form: x and y cross together at every step and z never does |
| AsWritten.TieRaySkipsPlane | src/main/java/org/spongepowered/api/util/blockray/BlockRay.java:279-292 | along the tie ray the walk as written passes plane z = 0 and never crosses it; the corrected first step crosses it |
| AsWritten.NaNRayMisses | src/main/java/org/spongepowered/api/util/blockray/BlockRay.java:226-228 | for the NaN ray reset computes NaN for y, and the chain then crosses z instead of the x plane that comes first |
| AsWritten.AxisRayMisses | src/main/java/org/spongepowered/api/util/blockray/BlockRay.java:290-292 | for a ray along x, the chain crosses y and z at +Infinity; the corrected step crosses x at (1, 0.5, 0.5) |

## Left out

- Floating point: doubles are exact reals. Rounding, `normalize` and its square
  root are not modelled. The direction is kept as given: normalising scales every
  plane parameter by the same positive factor and changes no crossing. The
  stored direction is therefore the argument, not its normalised form.
- Negative zero: a zero direction component is taken as +0.0, both in the model and
  in `AsWritten.JDiv`.
- Rounding of the normalised edge and corner faces: a face is kept as its sign
  triple. `BlockRayHit` reads only the signs of the face.
- The hit's face: `BlockRay.java` builds a hit from six arguments (with the
  direction). `BlockRayHit.java` has a five-argument constructor taking a
  `Direction`. The model's hit holds the integer face and ignores the direction.
- `from(Entity)`: needs the entity's rotation and trigonometry.
- `test(CommandSource)`: a debugging command.
- `remove`: it always throws.
- `BlockRayBuilder.iterator`: it is `build`. The for-each loop over it is
  `Rays.ForEachHit`.
- Null checks: every reference is present in the model.
- The block a filter reads comes from the host world. It is a parameter
  (`Blocks`), as is the extent's contents.
- `blockCount` is an unbounded integer. The source's int would wrap after 2^31
  accepted hits, but only when the limit is disabled.
- The plane indices `xPlaneNext`, `yPlaneNext`, `zPlaneNext` and the results of
  `GenericMath.floor` are Java ints (BlockRay.java:117, 209-222, 342-344). The model
  uses unbounded integers, so it does not capture wrap-around or the clamping of
  `floor` for coordinates beyond the int range.
- Rays.BlockRay.Intersect: chooses the crossing with the corrected `Traversal.Select`.
  It departs from the comparison chain of BlockRay.java:279-307 on inputs where two
  parameters tie above the third (`AsWritten.TieAboveThird`); `AsWritten` models the
  chain as written.
- Rays.BlockRay.Reset: computes the first plane parameters with the corrected
  `Traversal.Solve`, which gives `Inf` for every zero component. It departs from
  BlockRay.java:226-228 when a zero component meets a start coordinate on a plane,
  where the source gets NaN (`AsWritten.ResetSolveAsWritten`).
- The intersect methods compute new parameters with the same corrected `Solve`,
  which departs from the source only for a zero component; such an axis is never
  crossed in the model.
- Predicates are stateless: `HitFilter` is a pure function, while BlockRay.java:54-57
  allows a predicate to keep state along one path. The invariant that the stored hit
  satisfies the filter relies on this. The model also does not capture how often
  and in what order predicates run: once per advance that is not a look-ahead, with
  Guava's short-circuit in `Predicates.and` (line 139).
- `blockTypeFilter` (BlockRay.java:589) reads `lastHit.getLocation().getType()`.
  `BlockRayHit.java` as it stands has no `getLocation`, so the model takes it to be
  the block at the hit's `BlockPosition()` in the hit's extent. That block is the
  face-adjusted one, the cell the ray leaves (`Rays.HitBlockBehind`).
- The predicate filters of BlockRay.java (`AllFilter`, `BlockTypeFilter`,
  `OnlyAirFilter`, `MaxDistanceFilter`, `TargetBlockFilter`, `AndFilter`) are one-line
  functions. What the source promises with them is stated about the ray
  (`Rays.BetweenNeverKeepsTarget`, `Rays.MaxDistanceKeepsWithin`,
  `Rays.BlockTypeKeepsType`, `Rays.OnlyAirKeepsAir`, the ALL_FILTER clause of
  `Rays.BlockRay.Advance`).
- Rays.ForEachHit: requires a non-negative block limit. With the limit disabled
  (BlockRay.java:191) a for-each loop under ALL_FILTER need not end, which a
  terminating method cannot express; the per-call contracts of `HasNext` and `Next`
  still hold there.
- Rays.BlockRay.Advance: the class invariant does not index the stored hit by step
  count. The walk's guarantees over many steps come from `Traversal` through the
  per-step contract `View() == Step(Traced(), old(View()))` together with
  `Traversal.WalkedSucc`.
- The class groups each axis's three fields (`xCurrent`, `xPlaneNext`, `xPlaneT`
  and so on) into one `Lane` field per axis. The fields are still updated in place.
- `BlockRayFilter` and `BlockRay` are not connected: `BlockRay` takes a Guava
  predicate, so the class's filter is a function value and `start` is never called
  by it.
- Short-circuit evaluation of `and`/`or` in `BlockRayFilter` is not observable,
  since `shouldContinue` has no side effects, so the model does not distinguish it.

## Findings

| source | as written | input that shows it | evidently intended | confidence | as-written member | corrected member |
|---|---|---|---|---|---|---|
| src/main/java/org/spongepowered/api/util/blockray/BlockRay.java:279-292 | a two-way tie of plane parameters is crossed before checking that it is the smallest parameter | origin (0.5, 0.5, 0.1), direction (1, 1, -1): x and y tie at 0.5 while z reaches plane 0 at 0.1; x and y are crossed together forever and plane z = 0 is never reported | a tie counts only when the third parameter is not below it, so the smallest parameter is always crossed first | not executed | AsWritten.TieRaySkipsPlane | Traversal.NoPlaneSkipped |
| src/main/java/org/spongepowered/api/util/blockray/BlockRay.java:226-228 | a zero direction component with a start coordinate on a plane gives 0 / 0 = NaN, and NaN fails every comparison in the chain | origin (0.5, 0, 0.5), direction (2, 0, 1): the y parameter is NaN, the chain crosses z at 0.5 and passes over the x plane at 0.25 | a zero component means the axis is never crossed (+Infinity), whatever the start coordinate | not executed | AsWritten.NaNRayMisses | Traversal.ParallelAxisFixed |
| src/main/java/org/spongepowered/api/util/blockray/BlockRay.java:290-292 | two zero components leave two parameters at +Infinity, which compare equal, so their tie is taken | origin (0.5, 0.5, 0.5), direction (1, 0, 0): the chain crosses y and z at parameter +Infinity instead of x at 0.5 | the one finite parameter is crossed | not executed | AsWritten.AxisRayMisses | Traversal.Select |
