/**
 * The grid walk of BlockRay as values: the per-axis plane bookkeeping, the choice of
 * the axes crossed next, and one crossing step. The class in Rays.dfy is proved to
 * follow these definitions; the walk's ordering and on-ray guarantees are lemmas here.
 *
 * The walk is parametrised by the ray's direction as given: BlockRay normalises it
 * first, which scales every plane parameter by the same positive factor and changes
 * neither the choice of axes nor any crossing point.
 */
module Traversal {
  import opened Wrappers
  import opened Geometry

  /**
   * The ray parameter at which an axis reaches its next plane: a finite value, or
   * the +Infinity that dividing by a zero direction component yields.
   */
  datatype Param = Fin(t: real) | Inf

  /** Strict order of parameters; every finite value is below Inf. */
  predicate Lt(a: Param, b: Param) {
    a.Fin? && (b.Inf? || a.t < b.t)
  }

  /** The crossing an advance performs: one face, an edge of two faces, or a corner. */
  datatype Crossing = CrossX | CrossY | CrossZ | CrossXY | CrossXZ | CrossYZ | CrossXYZ {

    predicate Crosses(a: Axis) {
      match a
      case X => CrossX? || CrossXY? || CrossXZ? || CrossXYZ?
      case Y => CrossY? || CrossXY? || CrossYZ? || CrossXYZ?
      case Z => CrossZ? || CrossXZ? || CrossYZ? || CrossXYZ?
    }
  }

  /** A ray: the start position and the (non-normalised) direction. */
  datatype Ray = Ray(origin: Vec3, dir: Vec3)

  /** The plane increment of an axis: +1 for a non-negative component, -1 otherwise. */
  function Increment(d: real): int {
    if d >= 0.0 then 1 else -1
  }

  /**
   * The parameter at which the ray p + d t meets plane n of its axis; Inf when the
   * component is zero and the ray runs parallel to the planes.
   */
  function Solve(n: int, p: real, d: real): (r: Param)
    ensures r.Inf? <==> d == 0.0
  {
    if d == 0.0 then Inf else Fin((n as real - p) / d)
  }

  /** A finite solution puts the ray exactly on the plane. */
  lemma SolveMeets(n: int, p: real, d: real)
    ensures Solve(n, p, d).Fin? ==> d * Solve(n, p, d).t + p == n as real
  {
  }

  /**
   * The first plane of an axis, as reset corrects the floor of the start coordinate:
   * the plane at or ahead of the coordinate in the direction of travel.
   */
  function InitialPlane(p: real, d: real): int {
    var f := p.Floor;
    if p - f as real != 0.0 && d >= 0.0 then f + 1 else f
  }

  /** The first plane is the nearest one at or ahead of the coordinate. */
  lemma InitialPlaneBounds(p: real, d: real)
    ensures d >= 0.0 ==> InitialPlane(p, d) as real - 1.0 < p <= InitialPlane(p, d) as real
    ensures d < 0.0 ==> InitialPlane(p, d) as real <= p < InitialPlane(p, d) as real + 1.0
  {
  }

  /** One axis of the walk: the current coordinate, the next plane and its parameter. */
  datatype Lane = Lane(coord: real, plane: int, t: Param)

  /** The walk's mutable state: the three axes and the face last passed through. */
  datatype Walk = Walk(x: Lane, y: Lane, z: Lane, normal: Int3) {

    function Get(a: Axis): Lane {
      match a
      case X => x
      case Y => y
      case Z => z
    }

    function Current(): Vec3 {
      Vec3(x.coord, y.coord, z.coord)
    }
  }

  /** The point of the ray at parameter t. */
  function PointAt(ray: Ray, t: real): Vec3 {
    Vec3(ray.dir.x * t + ray.origin.x, ray.dir.y * t + ray.origin.y, ray.dir.z * t + ray.origin.z)
  }

  function StartLane(p: real, d: real): Lane {
    var n := InitialPlane(p, d);
    Lane(p, n, Solve(n, p, d))
  }

  /** The state reset produces: at the start position, no face passed yet. */
  function Start(ray: Ray): Walk {
    Walk(StartLane(ray.origin.x, ray.dir.x), StartLane(ray.origin.y, ray.dir.y),
         StartLane(ray.origin.z, ray.dir.z), NoFace)
  }

  /** A lane whose parameter is the solution for its own plane. */
  predicate LaneSolved(l: Lane, p: real, d: real) {
    l.t == Solve(l.plane, p, d)
  }

  /** The walk keeps, on every axis, the parameter of that axis's next plane. */
  predicate Consistent(ray: Ray, w: Walk) {
    && ray.dir != Origin
    && LaneSolved(w.x, ray.origin.x, ray.dir.x)
    && LaneSolved(w.y, ray.origin.y, ray.dir.y)
    && LaneSolved(w.z, ray.origin.z, ray.dir.z)
  }

  predicate SomeFinite(tx: Param, ty: Param, tz: Param) {
    tx.Fin? || ty.Fin? || tz.Fin?
  }

  lemma ConsistentFinite(ray: Ray, w: Walk)
    requires Consistent(ray, w)
    ensures SomeFinite(w.x.t, w.y.t, w.z.t)
  {
    assert ray.dir.x != 0.0 || ray.dir.y != 0.0 || ray.dir.z != 0.0;
  }

  function Earlier(a: Param, b: Param): Param {
    if Lt(b, a) then b else a
  }

  /** The smallest finite parameter: the parameter of the next crossing. */
  function MinT(tx: Param, ty: Param, tz: Param): (m: real)
    requires SomeFinite(tx, ty, tz)
    ensures tx == Fin(m) || ty == Fin(m) || tz == Fin(m)
    ensures !Lt(tx, Fin(m)) && !Lt(ty, Fin(m)) && !Lt(tz, Fin(m))
  {
    Earlier(Earlier(tx, ty), tz).t
  }

  /**
   * The axes crossed next. Exact ties are tested first and give one combined crossing,
   * as in BlockRay.advance, but a tie only counts when no third parameter lies below it
   * (see AsWritten.SelectAsWritten for the comparison chain as the source has it).
   */
  function Select(tx: Param, ty: Param, tz: Param): (c: Crossing)
    requires SomeFinite(tx, ty, tz)
    ensures c.Crosses(X) <==> tx == Fin(MinT(tx, ty, tz))
    ensures c.Crosses(Y) <==> ty == Fin(MinT(tx, ty, tz))
    ensures c.Crosses(Z) <==> tz == Fin(MinT(tx, ty, tz))
  {
    if tx == ty then
      if tx == tz then CrossXYZ
      else if Lt(tx, tz) then CrossXY
      else CrossZ
    else if tx == tz then
      if Lt(tx, ty) then CrossXZ else CrossY
    else if ty == tz then
      if Lt(ty, tx) then CrossYZ else CrossX
    else if Lt(tx, ty) then
      if Lt(tx, tz) then CrossX else CrossZ
    else if Lt(ty, tz) then CrossY
    else CrossZ
  }

  /** The face normal of one axis: X_NEGATIVE for a non-negative x component, and so on. */
  function AxisFace(a: Axis, d: real): Int3 {
    match a
    case X => Int3(-Increment(d), 0, 0)
    case Y => Int3(0, -Increment(d), 0)
    case Z => Int3(0, 0, -Increment(d))
  }

  /** The sum of the crossed axes' face normals (normalising it keeps its signs). */
  function CrossingFace(dir: Vec3, c: Crossing): Int3 {
    Int3(if c.Crosses(X) then -Increment(dir.x) else 0,
         if c.Crosses(Y) then -Increment(dir.y) else 0,
         if c.Crosses(Z) then -Increment(dir.z) else 0)
  }

  /**
   * The face passed points against the direction of travel on every crossed axis
   * and is 0 on every other axis.
   */
  lemma CrossingFaceAxes(dir: Vec3, c: Crossing)
    ensures forall a :: CrossingFace(dir, c).Get(a) == if c.Crosses(a) then -Increment(dir.Get(a)) else 0
  {
  }

  /** The face of an edge or corner crossing is the sum of its axes' faces. */
  lemma FaceSums(d: Vec3)
    ensures AxisFace(X, d.x).Add(AxisFace(Y, d.y)) == CrossingFace(d, CrossXY)
    ensures AxisFace(X, d.x).Add(AxisFace(Z, d.z)) == CrossingFace(d, CrossXZ)
    ensures AxisFace(Y, d.y).Add(AxisFace(Z, d.z)) == CrossingFace(d, CrossYZ)
    ensures AxisFace(X, d.x).Add(AxisFace(Y, d.y)).Add(AxisFace(Z, d.z)) == CrossingFace(d, CrossXYZ)
  {
  }

  /** A crossed axis: the coordinate snaps to the plane, the plane moves on one step. */
  function CrossLane(l: Lane, p: real, d: real): Lane {
    var n := l.plane + Increment(d);
    Lane(l.plane as real, n, Solve(n, p, d))
  }

  /** An axis not crossed: the coordinate follows the ray, plane and parameter stay. */
  function KeepLane(l: Lane, p: real, d: real, tc: real): Lane {
    Lane(d * tc + p, l.plane, l.t)
  }

  function MoveLane(l: Lane, p: real, d: real, crossed: bool, tc: real): Lane {
    if crossed then CrossLane(l, p, d) else KeepLane(l, p, d, tc)
  }

  /** One advance of the walk: cross the axes Select picks at the smallest parameter. */
  function Step(ray: Ray, w: Walk): (w': Walk)
    requires Consistent(ray, w)
    ensures Consistent(ray, w')
  {
    ConsistentFinite(ray, w);
    var c := Select(w.x.t, w.y.t, w.z.t);
    var tc := MinT(w.x.t, w.y.t, w.z.t);
    Walk(MoveLane(w.x, ray.origin.x, ray.dir.x, c.Crosses(X), tc),
         MoveLane(w.y, ray.origin.y, ray.dir.y, c.Crosses(Y), tc),
         MoveLane(w.z, ray.origin.z, ray.dir.z, c.Crosses(Z), tc),
         CrossingFace(ray.dir, c))
  }

  /**
   * One crossing: every crossed axis lands on the plane it waited for and waits for
   * the next one in its direction; every other axis keeps its plane and parameter;
   * the face passed is the sum of the crossed axes' faces.
   */
  lemma StepMoves(ray: Ray, w: Walk)
    requires Consistent(ray, w)
    ensures forall a ::
      var c := (ConsistentFinite(ray, w); Select(w.x.t, w.y.t, w.z.t));
      if c.Crosses(a) then
        && Step(ray, w).Get(a).coord == w.Get(a).plane as real
        && Step(ray, w).Get(a).plane == w.Get(a).plane + Increment(ray.dir.Get(a))
      else
        && Step(ray, w).Get(a).plane == w.Get(a).plane
        && Step(ray, w).Get(a).t == w.Get(a).t
    ensures Step(ray, w).normal == (ConsistentFinite(ray, w); CrossingFace(ray.dir, Select(w.x.t, w.y.t, w.z.t)))
  {
  }

  /** The parameter of the crossing Step performs. */
  function NextT(ray: Ray, w: Walk): real
    requires Consistent(ray, w)
  {
    ConsistentFinite(ray, w);
    MinT(w.x.t, w.y.t, w.z.t)
  }

  /** The next crossing comes after `last`, or at or after the start when nothing was crossed. */
  predicate After(last: Option<real>, t: real) {
    match last
    case None => 0.0 <= t
    case Some(l) => l < t
  }

  /**
   * The plane of a lane is the first one strictly after the last crossing (at or after
   * the start when nothing was crossed yet): its parameter is after `last`, while the
   * plane one step back was reached no later than `last`. No plane is skipped.
   */
  ghost predicate LanePending(l: Lane, p: real, d: real, last: Option<real>) {
    && LaneSolved(l, p, d)
    && (d != 0.0 ==>
          && After(last, l.t.t)
          && var back := Solve(l.plane - Increment(d), p, d).t;
             match last
             case None => back < 0.0
             case Some(tc) => back <= tc)
  }

  /** The lane's coordinate is the ray's at the last crossing (the start before any). */
  ghost predicate LaneOnRay(l: Lane, p: real, d: real, last: Option<real>) {
    match last
    case None => l.coord == p
    case Some(tc) => l.coord == d * tc + p
  }

  ghost predicate Pending(ray: Ray, w: Walk, last: Option<real>) {
    && ray.dir != Origin
    && LanePending(w.x, ray.origin.x, ray.dir.x, last)
    && LanePending(w.y, ray.origin.y, ray.dir.y, last)
    && LanePending(w.z, ray.origin.z, ray.dir.z, last)
  }

  ghost predicate OnRay(ray: Ray, w: Walk, last: Option<real>) {
    && LaneOnRay(w.x, ray.origin.x, ray.dir.x, last)
    && LaneOnRay(w.y, ray.origin.y, ray.dir.y, last)
    && LaneOnRay(w.z, ray.origin.z, ray.dir.z, last)
    && (last.None? ==> w.normal == NoFace)
  }

  /** Reset leaves every axis waiting for its first plane, at the start position. */
  lemma StartPending(ray: Ray)
    requires ray.dir != Origin
    ensures Pending(ray, Start(ray), None) && OnRay(ray, Start(ray), None)
  {
    StartLanePending(ray.origin.x, ray.dir.x);
    StartLanePending(ray.origin.y, ray.dir.y);
    StartLanePending(ray.origin.z, ray.dir.z);
  }

  lemma StartLanePending(p: real, d: real)
    ensures LanePending(StartLane(p, d), p, d, None)
  {
    var l := StartLane(p, d);
    if d != 0.0 {
      var n := l.plane;
      var t := l.t.t;
      var back := Solve(n - Increment(d), p, d).t;
      assert d * t == n as real - p;
      assert d * back == n as real - Increment(d) as real - p;
      if d > 0.0 {
        assert 0.0 <= t;
        assert back < 0.0;
      } else {
        assert 0.0 <= t;
        assert back < 0.0;
      }
    }
  }

  /** Moving to the next plane in the direction of travel gives a strictly later parameter. */
  lemma NextPlaneLater(n: int, p: real, d: real)
    requires d != 0.0
    ensures Solve(n + Increment(d), p, d).t > Solve(n, p, d).t
  {
    var a := Solve(n, p, d).t;
    var b := Solve(n + Increment(d), p, d).t;
    assert d * a == n as real - p;
    assert d * b == n as real + Increment(d) as real - p;
    assert d * (b - a) == Increment(d) as real;
  }

  lemma MoveLanePending(l: Lane, p: real, d: real, last: Option<real>, crossed: bool, tc: real)
    requires LanePending(l, p, d, last)
    requires After(last, tc)
    requires crossed <==> l.t == Fin(tc)
    requires !Lt(l.t, Fin(tc))
    ensures LanePending(MoveLane(l, p, d, crossed, tc), p, d, Some(tc))
    ensures LaneOnRay(MoveLane(l, p, d, crossed, tc), p, d, Some(tc))
  {
    var m := MoveLane(l, p, d, crossed, tc);
    if crossed {
      NextPlaneLater(l.plane, p, d);
      assert m.plane - Increment(d) == l.plane;
    } else if d != 0.0 {
      assert tc < m.t.t;
    }
  }

  /**
   * One advance keeps the walk's invariant: the crossing it performs comes strictly
   * after the previous one (at or after the start for the first), every axis again
   * waits for the first plane after it, and the new position is the ray's point at
   * the crossing parameter.
   */
  lemma StepPending(ray: Ray, w: Walk, last: Option<real>)
    requires Pending(ray, w, last)
    ensures After(last, NextT(ray, w))
    ensures Pending(ray, Step(ray, w), Some(NextT(ray, w)))
    ensures OnRay(ray, Step(ray, w), Some(NextT(ray, w)))
    ensures Step(ray, w).Current() == PointAt(ray, NextT(ray, w))
  {
    ConsistentFinite(ray, w);
    var c := Select(w.x.t, w.y.t, w.z.t);
    var tc := MinT(w.x.t, w.y.t, w.z.t);
    var w' := Step(ray, w);
    assert tc == NextT(ray, w);
    assert w'.x == MoveLane(w.x, ray.origin.x, ray.dir.x, c.Crosses(X), tc);
    assert w'.y == MoveLane(w.y, ray.origin.y, ray.dir.y, c.Crosses(Y), tc);
    assert w'.z == MoveLane(w.z, ray.origin.z, ray.dir.z, c.Crosses(Z), tc);
    MinAfter(ray, w, last);
    MoveLanePending(w.x, ray.origin.x, ray.dir.x, last, c.Crosses(X), tc);
    MoveLanePending(w.y, ray.origin.y, ray.dir.y, last, c.Crosses(Y), tc);
    MoveLanePending(w.z, ray.origin.z, ray.dir.z, last, c.Crosses(Z), tc);
    OnRayCurrent(ray, w', tc);
  }

  /** A walk on the ray at a crossing stands at the ray's point for that parameter. */
  lemma OnRayCurrent(ray: Ray, w: Walk, t: real)
    requires OnRay(ray, w, Some(t))
    ensures w.Current() == PointAt(ray, t)
  {
  }

  lemma MinAfter(ray: Ray, w: Walk, last: Option<real>)
    requires Pending(ray, w, last)
    ensures SomeFinite(w.x.t, w.y.t, w.z.t) && After(last, MinT(w.x.t, w.y.t, w.z.t))
  {
    ConsistentFinite(ray, w);
    var tc := MinT(w.x.t, w.y.t, w.z.t);
    if w.x.t == Fin(tc) {
      assert ray.dir.x != 0.0;
    } else if w.y.t == Fin(tc) {
      assert ray.dir.y != 0.0;
    } else {
      assert ray.dir.z != 0.0;
    }
  }

  /** The walk after k advances. */
  function Walked(ray: Ray, w: Walk, k: nat): (r: Walk)
    requires Consistent(ray, w)
    ensures Consistent(ray, r)
    decreases k
  {
    if k == 0 then w else Walked(ray, Step(ray, w), k - 1)
  }

  /** The parameters of the first k crossings, in the order the walk performs them. */
  function Crossings(ray: Ray, w: Walk, k: nat): (ts: seq<real>)
    requires Consistent(ray, w)
    ensures |ts| == k
    decreases k
  {
    if k == 0 then [] else [NextT(ray, w)] + Crossings(ray, Step(ray, w), k - 1)
  }

  /** The last crossing of a run, or the one before the run when it is empty. */
  function LastOf(last: Option<real>, ts: seq<real>): Option<real> {
    if |ts| == 0 then last else Some(ts[|ts| - 1])
  }

  /**
   * Over any number of advances the crossings come in strictly increasing order after
   * `last`, the invariant still holds, and the walk stands at the ray's point for the
   * latest crossing.
   */
  lemma {:induction false} WalkAscends(ray: Ray, w: Walk, last: Option<real>, k: nat)
    requires Pending(ray, w, last)
    ensures var ts := Crossings(ray, w, k);
      && (k > 0 ==> After(last, ts[0]))
      && (forall i, j :: 0 <= i < j < k ==> ts[i] < ts[j])
      && Pending(ray, Walked(ray, w, k), LastOf(last, ts))
      && (k > 0 ==> OnRay(ray, Walked(ray, w, k), LastOf(last, ts)))
      && (k > 0 ==> Walked(ray, w, k).Current() == PointAt(ray, ts[k - 1]))
    decreases k
  {
    if k > 0 {
      var t0 := NextT(ray, w);
      var s := Step(ray, w);
      StepPending(ray, w, last);
      WalkAscends(ray, s, Some(t0), k - 1);
      var rest := Crossings(ray, s, k - 1);
      var ts := Crossings(ray, w, k);
      assert ts == [t0] + rest;
      assert Walked(ray, w, k) == Walked(ray, s, k - 1);
      forall i, j | 0 <= i < j < k
        ensures ts[i] < ts[j]
      {
        if i == 0 {
          assert ts[j] == rest[j - 1];
          if j - 1 > 0 {
            assert rest[0] < rest[j - 1];
          }
        } else {
          assert ts[i] == rest[i - 1] && ts[j] == rest[j - 1];
        }
      }
      if k == 1 {
        assert LastOf(last, ts) == Some(t0);
      } else {
        assert LastOf(last, ts) == LastOf(Some(t0), rest);
      }
    }
  }

  /** Solve orders the planes of an axis along the direction of travel. */
  lemma SolveOrder(n: int, m: int, p: real, d: real)
    requires d != 0.0
    ensures Solve(n, p, d).t < Solve(m, p, d).t <==> (if d > 0.0 then n < m else m < n)
  {
    var a := Solve(n, p, d).t;
    var b := Solve(m, p, d).t;
    assert d * (b - a) == (m - n) as real;
  }

  /** The plane a lane waits for is the only one whose parameter lies in (last, t]. */
  lemma PendingPlaneUnique(l: Lane, p: real, d: real, last: Option<real>, n: int)
    requires d != 0.0
    requires LanePending(l, p, d, last)
    requires After(last, Solve(n, p, d).t)
    requires Solve(n, p, d).t <= l.t.t
    ensures n == l.plane
  {
    var back := l.plane - Increment(d);
    SolveOrder(n, l.plane, p, d);
    SolveOrder(back, n, p, d);
  }

  /** The i-th advance (counting from 0) crosses plane n of axis a. */
  ghost predicate CrossedAt(ray: Ray, w: Walk, k: nat, a: Axis, n: int, i: nat)
    requires Consistent(ray, w)
    requires ray.dir.Get(a) != 0.0
  {
    && i < k
    && Crossings(ray, w, k)[i] == Solve(n, ray.origin.Get(a), ray.dir.Get(a)).t
    && Walked(ray, w, i + 1).Get(a).coord == n as real
    && Walked(ray, w, i + 1).normal.Get(a) != 0
  }

  /**
   * No plane is skipped: every plane of a moving axis whose parameter lies after `last`
   * and no later than the k-th crossing is crossed by one of the first k advances, which
   * leaves the walk standing on that plane with a face on that axis.
   */
  lemma {:induction false} NoPlaneSkipped(ray: Ray, w: Walk, last: Option<real>, k: nat, a: Axis, n: int)
    requires Pending(ray, w, last)
    requires ray.dir.Get(a) != 0.0
    requires k > 0
    requires After(last, Solve(n, ray.origin.Get(a), ray.dir.Get(a)).t)
    requires Solve(n, ray.origin.Get(a), ray.dir.Get(a)).t <= Crossings(ray, w, k)[k - 1]
    ensures exists i :: 0 <= i < k && CrossedAt(ray, w, k, a, n, i)
    decreases k
  {
    var p, d := ray.origin.Get(a), ray.dir.Get(a);
    var tn := Solve(n, p, d).t;
    var t0 := NextT(ray, w);
    var s := Step(ray, w);
    var ts := Crossings(ray, w, k);
    assert ts == [t0] + Crossings(ray, s, k - 1);
    ConsistentFinite(ray, w);
    if tn <= t0 {
      var l := w.Get(a);
      assert LanePending(l, p, d, last) by {
        match a
        case X =>
        case Y =>
        case Z =>
      }
      PendingPlaneUnique(l, p, d, last, n);
      assert Walked(ray, w, 1) == s;
      assert ts[0] == tn;
      assert CrossedAt(ray, w, k, a, n, 0);
    } else {
      WalkAscends(ray, w, last, k);
      if k == 1 {
        assert false;
      }
      StepPending(ray, w, last);
      NoPlaneSkipped(ray, s, Some(t0), k - 1, a, n);
      var i :| 0 <= i < k - 1 && CrossedAt(ray, s, k - 1, a, n, i);
      assert Walked(ray, w, i + 2) == Walked(ray, s, i + 1);
      assert ts[i + 1] == tn;
      assert CrossedAt(ray, w, k, a, n, i + 1);
    }
  }

  /** An axis the ray does not move along is never crossed and keeps its coordinate. */
  lemma {:induction false} ParallelAxisFixed(ray: Ray, w: Walk, k: nat, a: Axis)
    requires Consistent(ray, w)
    requires ray.dir.Get(a) == 0.0
    requires w.Get(a).coord == ray.origin.Get(a)
    ensures Walked(ray, w, k).Get(a).coord == ray.origin.Get(a)
    ensures k > 0 ==> Walked(ray, w, k).normal.Get(a) == 0
    decreases k
  {
    if k > 0 {
      var s := Step(ray, w);
      ConsistentFinite(ray, w);
      assert !Select(w.x.t, w.y.t, w.z.t).Crosses(a);
      assert s.Get(a).coord == ray.origin.Get(a) by {
        match a
        case X =>
        case Y =>
        case Z =>
      }
      ParallelAxisFixed(ray, s, k - 1, a);
      if k == 1 {
        assert Walked(ray, w, 1) == s;
      }
    }
  }

  /** One more advance after k advances is the (k+1)-th walk. */
  lemma {:induction false} WalkedSucc(ray: Ray, w: Walk, k: nat)
    requires Consistent(ray, w)
    ensures Walked(ray, w, k + 1) == Step(ray, Walked(ray, w, k))
    ensures Crossings(ray, w, k + 1) == Crossings(ray, w, k) + [NextT(ray, Walked(ray, w, k))]
    decreases k
  {
    if k > 0 {
      WalkedSucc(ray, Step(ray, w), k - 1);
      assert Crossings(ray, w, k + 1) == [NextT(ray, w)] + Crossings(ray, Step(ray, w), k);
    }
  }

  /**
   * From reset, the crossings of any number of advances come at parameters that are
   * non-negative and strictly increasing, and the k-th advance stands at the ray's
   * point for the k-th crossing.
   */
  lemma FromStart(ray: Ray, k: nat)
    requires ray.dir != Origin
    ensures var ts := Crossings(ray, Start(ray), k);
      && (forall i :: 0 <= i < k ==> 0.0 <= ts[i])
      && (forall i, j :: 0 <= i < j < k ==> ts[i] < ts[j])
      && (k > 0 ==> Walked(ray, Start(ray), k).Current() == PointAt(ray, ts[k - 1]))
  {
    StartPending(ray);
    WalkAscends(ray, Start(ray), None, k);
    var ts := Crossings(ray, Start(ray), k);
    forall i | 0 <= i < k ensures 0.0 <= ts[i] {
      if i > 0 {
        assert ts[0] < ts[i];
      }
    }
  }

  /**
   * A start coordinate that lies on a plane of a moving axis gives a first crossing at
   * parameter 0 on that very plane: the first advance stays at the start position on
   * that axis and passes a face of it.
   */
  lemma OriginOnPlane(ray: Ray, a: Axis)
    requires ray.dir != Origin
    requires ray.dir.Get(a) != 0.0
    requires ray.origin.Get(a) == ray.origin.Get(a).Floor as real
    ensures NextT(ray, Start(ray)) == 0.0
    ensures Step(ray, Start(ray)).Get(a).coord == ray.origin.Get(a)
    ensures Step(ray, Start(ray)).normal.Get(a) != 0
  {
    var w := Start(ray);
    StartPending(ray);
    MinAfter(ray, w, None);
    var l := w.Get(a);
    assert l == StartLane(ray.origin.Get(a), ray.dir.Get(a)) by {
      match a
      case X =>
      case Y =>
      case Z =>
    }
    assert l.plane as real == ray.origin.Get(a);
    assert l.t == Fin(0.0);
    ConsistentFinite(ray, w);
    var c := Select(w.x.t, w.y.t, w.z.t);
    assert c.Crosses(a);
  }
}
