/**
 * BlockRay.advance's choice of crossing as the source writes it, on Java doubles, next
 * to the corrected choice (Traversal.Select, Traversal.Solve) the rest of the model uses.
 *
 * Two things separate them. The comparison chain takes a two-way tie before it checks
 * that the tied value is the smallest, so a third axis whose plane comes first is passed
 * over. And a zero direction component makes the plane parameter (n - p) / 0, which is
 * +Infinity when the start coordinate is not on a plane but NaN when it is; NaN
 * compares false with everything, so the chain falls through to a branch it was not
 * written for.
 */
module AsWritten {
  import opened Geometry
  import opened Traversal

  /** A Java double, reduced to what advance's comparisons can tell apart. */
  datatype JDouble = Num(v: real) | PosInf | NegInf | NaN

  /** Java's == on doubles: NaN equals nothing, not even itself. */
  predicate JEq(a: JDouble, b: JDouble) {
    !a.NaN? && !b.NaN? && a == b
  }

  /** Java's < on doubles: false whenever either side is NaN. */
  predicate JLt(a: JDouble, b: JDouble) {
    match (a, b)
    case (NaN, _) => false
    case (_, NaN) => false
    case (NegInf, NegInf) => false
    case (NegInf, _) => true
    case (PosInf, _) => false
    case (_, PosInf) => true
    case (Num(x), Num(y)) => x < y
    case (Num(_), NegInf) => false
  }

  /** IEEE division of an exact numerator by a direction component (a zero one being +0.0). */
  function JDiv(num: real, d: real): JDouble {
    if d != 0.0 then Num(num / d)
    else if num > 0.0 then PosInf
    else if num < 0.0 then NegInf
    else NaN
  }

  /** The plane parameter as reset and the intersect methods compute it. */
  function SolveAsWritten(n: int, p: real, d: real): JDouble {
    JDiv(n as real - p, d)
  }

  /** The comparison chain of advance, branch for branch. */
  function SelectAsWritten(tx: JDouble, ty: JDouble, tz: JDouble): Crossing {
    if JEq(tx, ty) then
      if JEq(tx, tz) then CrossXYZ else CrossXY
    else if JEq(tx, tz) then CrossXZ
    else if JEq(ty, tz) then CrossYZ
    else if JLt(tx, ty) then
      if JLt(tx, tz) then CrossX else CrossZ
    else if JLt(ty, tz) then CrossY
    else CrossZ
  }

  /** A parameter of the model as the double it stands for. */
  function ToJ(t: Param): JDouble {
    if t.Inf? then PosInf else Num(t.t)
  }

  /** On the model's parameters, Java's comparisons are the model's. */
  lemma ToJOrder(a: Param, b: Param)
    ensures JEq(ToJ(a), ToJ(b)) <==> a == b
    ensures JLt(ToJ(a), ToJ(b)) <==> Lt(a, b)
  {
  }

  /**
   * The first plane parameter reset computes is NaN exactly when the component is zero
   * and the start coordinate lies on a plane; otherwise it is the model's parameter.
   */
  lemma ResetSolveAsWritten(p: real, d: real)
    ensures var n := InitialPlane(p, d);
      && (SolveAsWritten(n, p, d).NaN? <==> d == 0.0 && p == p.Floor as real)
      && (!SolveAsWritten(n, p, d).NaN? ==> SolveAsWritten(n, p, d) == ToJ(Solve(n, p, d)))
  {
  }

  /** A two-way tie with the third parameter strictly below it. */
  predicate TieAboveThird(tx: Param, ty: Param, tz: Param) {
    || (tx == ty && Lt(tz, tx))
    || (tx == tz && Lt(ty, tx))
    || (ty == tz && Lt(tx, ty))
  }

  /**
   * On the model's parameters the chain as written picks the crossing the corrected
   * selection picks, except exactly when two parameters tie above the third.
   */
  lemma SelectAgreement(tx: Param, ty: Param, tz: Param)
    requires SomeFinite(tx, ty, tz)
    ensures SelectAsWritten(ToJ(tx), ToJ(ty), ToJ(tz)) == Select(tx, ty, tz) <==> !TieAboveThird(tx, ty, tz)
  {
    ToJOrder(tx, ty);
    ToJOrder(tx, tz);
    ToJOrder(ty, tz);
  }

  /**
   * With NaN on x or on y the chain never crosses that axis; with NaN on z it crosses z
   * alone unless x and y tie.
   */
  lemma NaNSelect(tx: JDouble, ty: JDouble, tz: JDouble)
    ensures tx.NaN? ==> !SelectAsWritten(tx, ty, tz).Crosses(X)
    ensures ty.NaN? ==> !SelectAsWritten(tx, ty, tz).Crosses(Y)
    ensures tz.NaN? && !JEq(tx, ty) ==> SelectAsWritten(tx, ty, tz) == CrossZ
  {
  }

  /**
   * A ray along an axis whose start is off the planes of the other two axes: those two
   * wait at +Infinity, which compares equal, so the chain takes their tie.
   */
  lemma AxisAlignedAsWritten(t: real)
    ensures SelectAsWritten(Num(t), PosInf, PosInf) == CrossYZ
    ensures Select(Fin(t), Inf, Inf) == CrossX
  {
  }

  predicate MovesOnEveryAxis(ray: Ray) {
    ray.dir.x != 0.0 && ray.dir.y != 0.0 && ray.dir.z != 0.0
  }

  /**
   * One advance as written, for a ray that moves along every axis (so every parameter
   * is finite): the crossed axes snap to their planes, the others follow the ray at the
   * parameter of the first crossed axis in x, y, z order, as the intersect methods do.
   */
  function StepAsWritten(ray: Ray, w: Walk): (w': Walk)
    requires Consistent(ray, w) && MovesOnEveryAxis(ray)
    ensures Consistent(ray, w')
  {
    var c := SelectAsWritten(ToJ(w.x.t), ToJ(w.y.t), ToJ(w.z.t));
    var tc := if c.Crosses(X) then w.x.t.t else if c.Crosses(Y) then w.y.t.t else w.z.t.t;
    Walk(MoveLane(w.x, ray.origin.x, ray.dir.x, c.Crosses(X), tc),
         MoveLane(w.y, ray.origin.y, ray.dir.y, c.Crosses(Y), tc),
         MoveLane(w.z, ray.origin.z, ray.dir.z, c.Crosses(Z), tc),
         CrossingFace(ray.dir, c))
  }

  /** Without a tie above the third parameter, the advance as written is the model's. */
  lemma StepAgreement(ray: Ray, w: Walk)
    requires Consistent(ray, w) && MovesOnEveryAxis(ray)
    requires !TieAboveThird(w.x.t, w.y.t, w.z.t)
    ensures StepAsWritten(ray, w) == Step(ray, w)
  {
    ConsistentFinite(ray, w);
    SelectAgreement(w.x.t, w.y.t, w.z.t);
  }

  /** k advances as written. */
  function WalkedAsWritten(ray: Ray, w: Walk, k: nat): (r: Walk)
    requires Consistent(ray, w) && MovesOnEveryAxis(ray)
    ensures Consistent(ray, r)
  {
    if k == 0 then w else StepAsWritten(ray, WalkedAsWritten(ray, w, k - 1))
  }

  /** The ray of the first finding: x and y tie at 0.5 while z reaches its plane at 0.1. */
  const TieRay := Ray(Vec3(0.5, 0.5, 0.1), Vec3(1.0, 1.0, -1.0))

  /** Where the walk as written stands after k >= 1 advances along TieRay. */
  function TieRayAsWritten(k: nat): Walk {
    Walk(Lane(k as real, k + 1, Fin(k as real + 0.5)),
         Lane(k as real, k + 1, Fin(k as real + 0.5)),
         Lane(0.6 - k as real, 0, Fin(0.1)),
         Int3(-1, -1, 0))
  }

  lemma {:induction false} TieRayWalk(k: nat)
    requires k >= 1
    ensures WalkedAsWritten(TieRay, Start(TieRay), k) == TieRayAsWritten(k)
  {
    var w := Start(TieRay);
    if k == 1 {
      assert w == Walk(Lane(0.5, 1, Fin(0.5)), Lane(0.5, 1, Fin(0.5)), Lane(0.1, 0, Fin(0.1)), NoFace);
    } else {
      TieRayWalk(k - 1);
    }
  }

  /**
   * Along TieRay the walk as written never crosses the plane z = 0, though the ray
   * reaches it at parameter 0.1: after every advance z still waits for plane 0, no face
   * on z has been passed, and the z coordinate is already below 0. The corrected walk
   * crosses that plane first.
   */
  lemma TieRaySkipsPlane(k: nat)
    requires k >= 1
    ensures var w := WalkedAsWritten(TieRay, Start(TieRay), k);
      w.z.plane == 0 && w.z.coord < 0.0 && w.normal.z == 0
    ensures Step(TieRay, Start(TieRay)).z.coord == 0.0
    ensures Step(TieRay, Start(TieRay)).normal == Int3(0, 0, 1)
  {
    TieRayWalk(k);
    assert Start(TieRay) == Walk(Lane(0.5, 1, Fin(0.5)), Lane(0.5, 1, Fin(0.5)), Lane(0.1, 0, Fin(0.1)), NoFace);
  }

  /**
   * The ray of the second finding: its y component is zero and its start lies on the
   * plane y = 0, so reset computes 0 / 0 for y. The chain then takes z at 0.5 and passes
   * over x at 0.25, which the corrected selection crosses.
   */
  const NaNRay := Ray(Vec3(0.5, 0.0, 0.5), Vec3(2.0, 0.0, 1.0))

  lemma NaNRayMisses()
    ensures var r := NaNRay;
      && SolveAsWritten(InitialPlane(r.origin.y, r.dir.y), r.origin.y, r.dir.y) == NaN
      && SolveAsWritten(InitialPlane(r.origin.x, r.dir.x), r.origin.x, r.dir.x) == Num(0.25)
      && SolveAsWritten(InitialPlane(r.origin.z, r.dir.z), r.origin.z, r.dir.z) == Num(0.5)
      && SelectAsWritten(Num(0.25), NaN, Num(0.5)) == CrossZ
    ensures var w := Start(NaNRay);
      Select(w.x.t, w.y.t, w.z.t) == CrossX && NextT(NaNRay, w) == 0.25
  {
    assert Start(NaNRay) == Walk(Lane(0.5, 1, Fin(0.25)), Lane(0.0, 0, Inf), Lane(0.5, 1, Fin(0.5)), NoFace);
  }

  /**
   * The ray of the third finding: along x from the middle of a block, so y and z wait at
   * +Infinity and the chain crosses y and z together, at parameter +Infinity.
   */
  const AxisRay := Ray(Vec3(0.5, 0.5, 0.5), Vec3(1.0, 0.0, 0.0))

  lemma AxisRayMisses()
    ensures var r := AxisRay;
      && SolveAsWritten(InitialPlane(r.origin.x, r.dir.x), r.origin.x, r.dir.x) == Num(0.5)
      && SolveAsWritten(InitialPlane(r.origin.y, r.dir.y), r.origin.y, r.dir.y) == PosInf
      && SolveAsWritten(InitialPlane(r.origin.z, r.dir.z), r.origin.z, r.dir.z) == PosInf
      && SelectAsWritten(Num(0.5), PosInf, PosInf) == CrossYZ
    ensures var w := Start(AxisRay);
      Select(w.x.t, w.y.t, w.z.t) == CrossX && Step(AxisRay, w).Current() == Vec3(1.0, 0.5, 0.5)
  {
    assert Start(AxisRay) == Walk(Lane(0.5, 1, Fin(0.5)), Lane(0.5, 1, Inf), Lane(0.5, 1, Inf), NoFace);
  }
}
