/** A covariance filter, `maploc/src/uncertainty.rs`: steps carry the covariance and
    spread it, windows narrow it by the information their beams hold, which
    `maploc/src/scan_matcher.rs` gathers. */
module Covariance {
  import opened Reals
  import opened Grid
  import opened LinearAlgebra

  /** The floor on a covariance's diagonal (1e-8) and the smallest determinant
      inverted (1e-30). */
  const DIAGONAL_FLOOR: real := 0.00000001
  const DET_FLOOR: real := 0.000000000000000000000000000001

  datatype UncertaintyConfig = UncertaintyConfig(
    xyVarPerM: real, yawVarPerRad: real, yawVarPerM: real,
    matchFloor: real, independentBeams: real, minBeams: nat, maxResidual: real)
  {
    predicate Valid()
    {
      xyVarPerM >= 0.0 && yawVarPerRad >= 0.0 && yawVarPerM >= 0.0 && matchFloor > 0.0 && independentBeams >= 0.0
    }
  }

  // ── The motion step ─────────────────────────────────────────────────────────

  /** One odometry step: the heading before it as (c, s), the body-frame motion, and
      its length. */
  datatype Motion = Motion(c: real, s: real, dx: real, dy: real, dyaw: real, dist: real)
  {
    predicate Valid()
    {
      dist >= 0.0 && dist * dist == dx * dx + dy * dy
    }

    /** The motion in the map frame. */
    function Step(): (real, real)
    {
      (c * dx - s * dy, s * dx + c * dy)
    }

    /** The motion's Jacobian: a heading error moves the pose sideways. */
    function Jacobian(): Mat3
    {
      var (wx, wy) := (c * dx - s * dy, s * dx + c * dy);
      Mat3(Vec3(1.0, 0.0, -wy), Vec3(0.0, 1.0, wx), Vec3(0.0, 0.0, 1.0))
    }

    function Noise(cfg: UncertaintyConfig): Mat3
    {
      var qXy := cfg.xyVarPerM * dist;
      Diag(qXy, qXy, cfg.yawVarPerRad * (if dyaw < 0.0 then -dyaw else dyaw) + cfg.yawVarPerM * dist)
    }
  }

  /** Turning the heading by an angle moves the end of the step, to first order, by its sine
      times the Jacobian's last column; a shift of the start is a shift of the end. */
  lemma JacobianTurnsTheStep(m: Motion, hc: real, hs: real)
    ensures var turned := m.(c := m.c * hc - m.s * hs, s := m.s * hc + m.c * hs);
            var ((x, y), (x', y'), j) := (m.Step(), turned.Step(), m.Jacobian());
            && x' == x + hs * j.r0.z + (hc - 1.0) * x && y' == y + hs * j.r1.z + (hc - 1.0) * y
            && j == Mat3(Vec3(1.0, 0.0, j.r0.z), Vec3(0.0, 1.0, j.r1.z), Vec3(0.0, 0.0, 1.0))
  {
    var turned := m.(c := m.c * hc - m.s * hs, s := m.s * hc + m.c * hs);
    var ((x, y), (x', y')) := (m.Step(), turned.Step());
    assert x' == hc * x - hs * y;
    assert y' == hs * x + hc * y;
  }

  /** Steps that turn the same way spread as much as one step as long and as wide. */
  lemma NoiseAddsUp(a: Motion, b: Motion, both: Motion, cfg: UncertaintyConfig)
    requires both.dist == a.dist + b.dist && both.dyaw == a.dyaw + b.dyaw && (a.dyaw < 0.0 <==> b.dyaw < 0.0)
    ensures both.Noise(cfg) == Add(a.Noise(cfg), b.Noise(cfg))
  {
    var (n, m) := (both.Noise(cfg), Add(a.Noise(cfg), b.Noise(cfg)));
    assert n.r0 == m.r0 && n.r1 == m.r1 && n.r2 == m.r2;
  }

  /** A metre straight on, and a radian either way on the spot. */
  lemma NoiseOfAMetreAndOfARadian(m: Motion, cfg: UncertaintyConfig)
    ensures m.dist == 1.0 && m.dyaw == 0.0 ==> m.Noise(cfg) == Diag(cfg.xyVarPerM, cfg.xyVarPerM, cfg.yawVarPerM)
    ensures m.dist == 0.0 && (m.dyaw == 1.0 || m.dyaw == -1.0) ==> m.Noise(cfg) == Diag(0.0, 0.0, cfg.yawVarPerRad)
  {
  }

  function Predict(cov: Mat3, m: Motion, cfg: UncertaintyConfig): Mat3
  {
    var f := m.Jacobian();
    Add(Mul(Mul(f, cov), Transpose(f)), m.Noise(cfg))
  }

  lemma NoiseIsPositive(m: Motion, cfg: UncertaintyConfig)
    requires m.Valid() && cfg.Valid()
    ensures PositiveSemidefinite(m.Noise(cfg))
  {
    var n := m.Noise(cfg);
    NonNegativeProduct(cfg.xyVarPerM, m.dist);
    NonNegativeProduct(cfg.yawVarPerM, m.dist);
    NonNegativeProduct(cfg.yawVarPerRad, if m.dyaw < 0.0 then -m.dyaw else m.dyaw);
    PositiveDiagonal(n.r0.x, n.r1.y, n.r2.z);
    hide Form;
  }

  lemma SumIsPositive(a: Mat3, b: Mat3)
    requires PositiveSemidefinite(a) && PositiveSemidefinite(b)
    ensures PositiveSemidefinite(Add(a, b))
  {
    forall v ensures Form(Add(a, b), v) >= 0.0 {
      FormAdds(a, b, v);
      hide Form;
    }
  }

  /** The step carries the covariance through the motion and only adds to it: along
      every direction the variance after is at least the variance before along the
      direction that direction came from. */
  lemma PredictOnlyAdds(cov: Mat3, m: Motion, cfg: UncertaintyConfig)
    requires PositiveSemidefinite(cov) && m.Valid() && cfg.Valid()
    ensures PositiveSemidefinite(Predict(cov, m, cfg))
    ensures forall v :: Form(Predict(cov, m, cfg), v) >= Form(cov, Apply(Transpose(m.Jacobian()), v))
  {
    var f := m.Jacobian();
    var carried := Mul(Mul(f, cov), Transpose(f));
    NoiseIsPositive(m, cfg);
    hide Apply, Dot, Mul, Transpose, Form, Motion.Noise, Motion.Jacobian;
    forall v ensures IsSymmetric(carried) && Form(carried, v) == Form(cov, Apply(Transpose(f), v)) {
      CongruenceKeepsTheForm(f, cov, v);
    }
    assert IsSymmetric(carried) by { CongruenceKeepsTheForm(f, cov, ZERO); }
    assert PositiveSemidefinite(carried);
    SumIsPositive(carried, m.Noise(cfg));
    forall v ensures Form(Predict(cov, m, cfg), v) >= Form(cov, Apply(Transpose(f), v)) {
      FormAdds(carried, m.Noise(cfg), v);
    }
  }

  // ── The window's information ────────────────────────────────────────────────

  /** An endpoint seen from the body, the wall field's value there, which is not finite
      off the grid, and the field's gradient. */
  datatype Beam = Beam(x: real, y: real, d: Coordinate, gx: real, gy: real)

  datatype Window = Window(beams: seq<Beam>, c: real, s: real, sigma: real, residual: Coordinate)

  predicate Used(b: Beam, sigma: real)
  {
    b.d.Real? && b.d.value <= sigma
  }

  /** The derivative of the beam's distance in (x, y, yaw). */
  function JacobianRow(b: Beam, c: real, s: real): Vec3
  {
    Vec3(b.gx, b.gy, b.gx * (-s * b.x - c * b.y) + b.gy * (c * b.x - s * b.y))
  }

  /** Moved by `v` and turned by an angle, the beam's end moves along the gradient, to first
      order in its sine, by what the row says. */
  lemma RowIsTheSlope(b: Beam, c: real, s: real, v: (real, real), hc: real, hs: real)
    ensures var (x, y) := Turned(b, c, s);
            var (x', y') := Turned(b, c * hc - s * hs, s * hc + c * hs);
            b.gx * (x' + v.0 - x) + b.gy * (y' + v.1 - y)
            == Dot(JacobianRow(b, c, s), Vec3(v.0, v.1, hs)) + (hc - 1.0) * (b.gx * x + b.gy * y)
  {
    var (x, y) := Turned(b, c, s);
    var (x', y') := Turned(b, c * hc - s * hs, s * hc + c * hs);
    assert x' == hc * x - hs * y;
    assert y' == hs * x + hc * y;
    var j := JacobianRow(b, c, s);
    assert j == Vec3(b.gx, b.gy, b.gx * -y + b.gy * x);
    hide JacobianRow, Turned;
    AlongTheGradient(b.gx, b.gy, x, y, v, hc, hs);
  }

  lemma AlongTheGradient(gx: real, gy: real, x: real, y: real, v: (real, real), hc: real, hs: real)
    ensures gx * (hc * x - hs * y + v.0 - x) + gy * (hs * x + hc * y + v.1 - y)
         == gx * v.0 + gy * v.1 + (gx * -y + gy * x) * hs + (hc - 1.0) * (gx * x + gy * y)
  {
  }

  /** A beam's end, the body turned by (c, s). */
  function Turned(b: Beam, c: real, s: real): (real, real)
  {
    (c * b.x - s * b.y, s * b.x + c * b.y)
  }

  function Outer(j: Vec3): Mat3
  {
    Mat3(Scale(j.x, j), Scale(j.y, j), Scale(j.z, j))
  }

  /** The normal matrix of the first `n` beams and how many of them it took in. */
  ghost function NormalMatrix(w: Window, n: nat): (Mat3, nat)
    requires n <= |w.beams|
  {
    if n == 0 then (Diag(0.0, 0.0, 0.0), 0)
    else
      var (h, used) := NormalMatrix(w, n - 1);
      var b := w.beams[n - 1];
      if Used(b, w.sigma) then (Add(h, Outer(JacobianRow(b, w.c, w.s))), used + 1) else (h, used)
  }

  /** The squares of what every used beam says along `v`, summed. */
  ghost function SumOfSquares(w: Window, n: nat, v: Vec3): real
    requires n <= |w.beams|
  {
    if n == 0 then 0.0
    else
      var b := w.beams[n - 1];
      var along := Dot(JacobianRow(b, w.c, w.s), v);
      SumOfSquares(w, n - 1, v) + (if Used(b, w.sigma) then along * along else 0.0)
  }

  lemma FormOfOuter(j: Vec3, v: Vec3)
    ensures Form(Outer(j), v) == Dot(j, v) * Dot(j, v)
  {
    var k := Dot(j, v);
    DotScales(j.x, j, v);
    DotScales(j.y, j, v);
    DotScales(j.z, j, v);
    Factor(j, v, k);
    hide Dot, Scale;
    assert Apply(Outer(j), v) == Vec3(j.x * k, j.y * k, j.z * k);
  }

  lemma Factor(j: Vec3, v: Vec3, k: real)
    ensures Dot(v, Vec3(j.x * k, j.y * k, j.z * k)) == Dot(j, v) * k
  {
  }

  /** The information along a direction is exactly the sum of squares of what the
      beams say along it, so the normal matrix is symmetric and nowhere negative. */
  lemma {:induction false} NormalMatrixIsASumOfSquares(w: Window, n: nat)
    requires n <= |w.beams|
    ensures PositiveSemidefinite(NormalMatrix(w, n).0)
    ensures forall v :: Form(NormalMatrix(w, n).0, v) == SumOfSquares(w, n, v)
  {
    if n == 0 {
      PositiveDiagonal(0.0, 0.0, 0.0);
      forall v ensures Form(Diag(0.0, 0.0, 0.0), v) == 0.0 {
        FormOfADiagonal(0.0, 0.0, 0.0, v);
      }
    } else {
      NormalMatrixIsASumOfSquares(w, n - 1);
      var h, j := NormalMatrix(w, n - 1).0, JacobianRow(w.beams[n - 1], w.c, w.s);
      forall v ensures Form(Add(h, Outer(j)), v) == Form(h, v) + Dot(j, v) * Dot(j, v) {
        FormAdds(h, Outer(j), v);
        FormOfOuter(j, v);
      }
      hide Form, Dot, JacobianRow;
    }
  }

  /** The matcher's final pass over the beams. */
  method AccumulateHessian(w: Window) returns (hessian: Mat3, nUsed: nat)
    ensures (hessian, nUsed) == NormalMatrix(w, |w.beams|)
    ensures PositiveSemidefinite(hessian) && forall v :: Form(hessian, v) == SumOfSquares(w, |w.beams|, v)
  {
    hessian, nUsed := Diag(0.0, 0.0, 0.0), 0;
    for k := 0 to |w.beams|
      invariant (hessian, nUsed) == NormalMatrix(w, k)
    {
      var b := w.beams[k];
      if !Used(b, w.sigma) {
        continue;
      }
      nUsed := nUsed + 1;
      hessian := Add(hessian, Outer(JacobianRow(b, w.c, w.s)));
    }
    NormalMatrixIsASumOfSquares(w, |w.beams|);
  }

  function Squared(x: real): (r: real)
    ensures r >= 0.0
  {
    x * x
  }

  /** The share of the used beams counted as independent. */
  function Independent(nUsed: nat, cfg: UncertaintyConfig): (share: real)
    requires cfg.Valid()
    ensures 0.0 <= share <= 1.0
  {
    if nUsed == 0 then 1.0 else MinReal(cfg.independentBeams / nUsed as real, 1.0)
  }

  /** What one unit of the hessian is worth: the independent share of it, over the
      floored residual squared. */
  function Weight(residual: real, nUsed: nat, cfg: UncertaintyConfig): (k: real)
    requires cfg.Valid()
    ensures k >= 0.0 && k * Squared(cfg.matchFloor) <= 1.0
  {
    var sigma := MaxReal(residual, cfg.matchFloor);
    ScaleIsSmall(Independent(nUsed, cfg), sigma, cfg.matchFloor);
    Independent(nUsed, cfg) / Squared(sigma)
  }

  /** However many beams are used, they count as no more than the independent ones: each
      of those is worth one over the floored residual squared. */
  lemma WeightCountsTheIndependent(residual: real, nUsed: nat, cfg: UncertaintyConfig)
    requires cfg.Valid() && nUsed > 0
    ensures Weight(residual, nUsed, cfg) * Squared(MaxReal(residual, cfg.matchFloor)) * nUsed as real
         == MinReal(cfg.independentBeams, nUsed as real)
  {
    var (sigma, n) := (MaxReal(residual, cfg.matchFloor), nUsed as real);
    PositiveProduct(sigma, sigma, Squared(sigma));
    hide Squared;
    var share := cfg.independentBeams / n;
    assert share * n == cfg.independentBeams;
    InOrder(share, 1.0, n, cfg.independentBeams, n);
    InOrder(1.0, share, n, n, cfg.independentBeams);
  }

  /** The hessian so weighted, unless the beams are too few or the residual is no number. */
  function WindowInformation(hessian: Mat3, residual: Coordinate, nUsed: nat, cfg: UncertaintyConfig): Option<Mat3>
    requires cfg.Valid()
  {
    if nUsed < cfg.minBeams || residual.NonFinite? || residual.value > cfg.maxResidual then None
    else Some(ScaleAll(Weight(residual.value, nUsed, cfg), hessian))
  }

  /** A window's information is positive, and never more than its beams taken as
      independent at the floor would carry. */
  lemma WindowInformationIsPositive(hessian: Mat3, residual: Coordinate, nUsed: nat, cfg: UncertaintyConfig)
    requires cfg.Valid() && PositiveSemidefinite(hessian)
    ensures var info := WindowInformation(hessian, residual, nUsed, cfg);
            info.Some? ==>
              && PositiveSemidefinite(info.value)
              && forall v :: Form(info.value, v) * Squared(cfg.matchFloor) <= Form(hessian, v)
  {
    var info := WindowInformation(hessian, residual, nUsed, cfg);
    if info.Some? {
      hide Form, Weight, ScaleAll, Squared, IsSymmetric;
      var k := Weight(residual.value, nUsed, cfg);
      ScaledIsSymmetric(k, hessian);
      forall v ensures Form(info.value, v) >= 0.0 && Form(info.value, v) * Squared(cfg.matchFloor) <= Form(hessian, v) {
        WeightedForm(hessian, residual.value, nUsed, cfg, v);
      }
    }
  }

  lemma WeightedForm(hessian: Mat3, residual: real, nUsed: nat, cfg: UncertaintyConfig, v: Vec3)
    requires cfg.Valid() && Form(hessian, v) >= 0.0
    ensures var form := Form(ScaleAll(Weight(residual, nUsed, cfg), hessian), v);
            form >= 0.0 && form * Squared(cfg.matchFloor) <= Form(hessian, v)
  {
    hide *;
    var k := Weight(residual, nUsed, cfg);
    FormScales(k, hessian, v);
    SmallScale(k, Squared(cfg.matchFloor), Form(hessian, v), Form(ScaleAll(k, hessian), v));
  }

  lemma ScaleIsSmall(ratio: real, sigma: real, floor: real)
    requires 0.0 <= ratio <= 1.0 && 0.0 < floor <= sigma
    ensures Squared(sigma) > 0.0
    ensures ratio / Squared(sigma) >= 0.0 && ratio / Squared(sigma) * Squared(floor) <= 1.0
  {
    SquareGrows(floor, sigma);
    var q, f := Squared(sigma), Squared(floor);
    hide Squared;
    var k := ratio / q;
    assert k * q == ratio;
    assert k >= 0.0;
    assert k * (q - f) >= 0.0;
  }

  lemma SquareGrows(x: real, y: real)
    requires 0.0 < x <= y
    ensures 0.0 < Squared(x) <= Squared(y)
  {
    SquareIsPositive(x);
    NonNegativeProduct(x, y - x);
    NonNegativeProduct(y, y - x);
    assert Squared(y) - Squared(x) == x * (y - x) + y * (y - x);
  }

  lemma SquareIsPositive(x: real)
    requires x > 0.0
    ensures Squared(x) > 0.0
  {
    PositiveProduct(x, x, Squared(x));
  }

  lemma SmallScale(k: real, f: real, x: real, y: real)
    requires k >= 0.0 && k * f <= 1.0 && x >= 0.0 && y == k * x
    ensures y >= 0.0 && y * f <= x
  {
  }

  // ── Inversion ───────────────────────────────────────────────────────────────

  function Invert(a: Mat3): Option<Mat3>
  {
    var det := Determinant(a);
    if -DET_FLOOR < det < DET_FLOOR then None else Some(ScaleAll(1.0 / det, Adjugate(a)))
  }

  /** An inverse undoes the matrix on both sides, and keeps symmetry. */
  lemma InvertIsTheInverse(a: Mat3)
    requires Invert(a).Some?
    ensures Undoes(Invert(a).value, a) && Undoes(a, Invert(a).value)
    ensures IsSymmetric(a) ==> IsSymmetric(Invert(a).value)
  {
    if IsSymmetric(a) {
      AdjugateIsSymmetric(a);
    }
    var b := Invert(a).value;
    forall v ensures Apply(b, Apply(a, v)) == v == Apply(a, Apply(b, v)) {
      ScaledInverse(a, v);
    }
    hide Apply, Adjugate, Determinant;
  }

  lemma InverseIsPositive(a: Mat3)
    requires PositiveSemidefinite(a) && Invert(a).Some?
    ensures PositiveSemidefinite(Invert(a).value)
  {
    InvertIsTheInverse(a);
    var b := Invert(a).value;
    hide Apply, Dot, Invert;
    forall v ensures Form(b, v) >= 0.0 {
      var u := Apply(b, v);
      assert Apply(a, u) == v;
      DotIsBilinear(u, v, v);
      assert Form(a, u) == Form(b, v);
    }
  }

  // ── Fusion ──────────────────────────────────────────────────────────────────

  function Symmetrized(a: Mat3): Mat3
  {
    ScaleAll(0.5, Add(a, Transpose(a)))
  }

  /** No diagonal entry below the floor; the others as they are. */
  function Regularized(a: Mat3): Mat3
  {
    a.(r0 := a.r0.(x := MaxReal(a.r0.x, DIAGONAL_FLOOR)),
       r1 := a.r1.(y := MaxReal(a.r1.y, DIAGONAL_FLOOR)),
       r2 := a.r2.(z := MaxReal(a.r2.z, DIAGONAL_FLOOR)))
  }

  function Fuse(cov: Mat3, info: Mat3): Mat3
  {
    match Invert(Regularized(cov))
    case None => cov
    case Some(priorInfo) =>
      match Invert(Add(priorInfo, info))
      case None => cov
      case Some(c) => Symmetrized(c)
  }

  /** The window's own inverse once the cap's information is added to it; the cap where
      there is none. */
  function FromInformation(info: Mat3, cap: Mat3): Mat3
  {
    var capInfo := match Invert(cap) case None => Diag(0.0, 0.0, 0.0) case Some(p) => p;
    match Invert(Add(info, capInfo))
    case None => cap
    case Some(c) => Symmetrized(c)
  }

  lemma SymmetrizedIsTheSame(a: Mat3)
    requires IsSymmetric(a)
    ensures Symmetrized(a) == a
  {
  }

  /** How much the floor lifts one diagonal entry. */
  function Lift(d: real): real
  {
    MaxReal(d, DIAGONAL_FLOOR) - d
  }

  lemma RegularizedLifts(cov: Mat3)
    ensures Regularized(cov) == Add(cov, Diag(Lift(cov.r0.x), Lift(cov.r1.y), Lift(cov.r2.z)))
  {
  }

  lemma DiagonalIsPositive(a: Mat3)
    requires PositiveSemidefinite(a)
    ensures a.r0.x >= 0.0 && a.r1.y >= 0.0 && a.r2.z >= 0.0
  {
    AxisForms(a);
    hide Form;
    assert Form(a, Vec3(1.0, 0.0, 0.0)) >= 0.0 && Form(a, Vec3(0.0, 1.0, 0.0)) >= 0.0
        && Form(a, Vec3(0.0, 0.0, 1.0)) >= 0.0;
  }

  lemma AxisForms(a: Mat3)
    ensures Form(a, Vec3(1.0, 0.0, 0.0)) == a.r0.x && Form(a, Vec3(0.0, 1.0, 0.0)) == a.r1.y
              && Form(a, Vec3(0.0, 0.0, 1.0)) == a.r2.z
  {
  }

  /** The floor keeps the covariance positive and raises no direction by more than
      1e-8 of its length squared. */
  lemma RegularizedIsClose(cov: Mat3)
    requires PositiveSemidefinite(cov)
    ensures PositiveSemidefinite(Regularized(cov)) && NoLarger(cov, Regularized(cov))
    ensures forall v :: Form(Regularized(cov), v) <= Form(cov, v) + DIAGONAL_FLOOR * Dot(v, v)
  {
    DiagonalIsPositive(cov);
    RegularizedLifts(cov);
    var (x, y, z) := (Lift(cov.r0.x), Lift(cov.r1.y), Lift(cov.r2.z));
    assert 0.0 <= x <= DIAGONAL_FLOOR && 0.0 <= y <= DIAGONAL_FLOOR && 0.0 <= z <= DIAGONAL_FLOOR;
    PositiveDiagonal(x, y, z);
    SumIsPositive(cov, Diag(x, y, z));
    forall v ensures 0.0 <= Form(Regularized(cov), v) - Form(cov, v) <= DIAGONAL_FLOOR * Dot(v, v) {
      FormAdds(cov, Diag(x, y, z), v);
      SmallDiagonal(x, y, z, v);
      hide Form, Dot;
    }
    hide Form, Dot;
  }

  lemma SmallDiagonal(x: real, y: real, z: real, v: Vec3)
    requires 0.0 <= x <= DIAGONAL_FLOOR && 0.0 <= y <= DIAGONAL_FLOOR && 0.0 <= z <= DIAGONAL_FLOOR
    ensures Form(Diag(x, y, z), v) <= DIAGONAL_FLOOR * Dot(v, v)
  {
    FormOfADiagonal(x, y, z, v);
    NonNegativeProduct(DIAGONAL_FLOOR - x, v.x * v.x);
    NonNegativeProduct(DIAGONAL_FLOOR - y, v.y * v.y);
    NonNegativeProduct(DIAGONAL_FLOOR - z, v.z * v.z);
    hide Form;
  }

  /** Adding information to a prior leaves no direction with more variance. With
      u = C v and w = S v, the square of w - u under the prior's information is not
      negative, and that says u . v <= w . v. */
  lemma InformationNeverRaises(s: Mat3, p: Mat3, info: Mat3, c: Mat3)
    requires Undoes(p, s) && Undoes(Add(p, info), c)
    requires PositiveSemidefinite(p) && PositiveSemidefinite(info)
    ensures NoLarger(c, s)
  {
    hide Apply, Dot, Add, Minus, Plus;
    forall v ensures Form(c, v) <= Form(s, v) {
      var (u, w) := (Apply(c, v), Apply(s, v));
      assert Apply(p, w) == v && Apply(Add(p, info), u) == v;
      ApplyAdds(p, info, u);
      var (pu, iu, e) := (Apply(p, u), Apply(info, u), Minus(w, u));
      DotIsBilinear(u, pu, iu);
      assert Dot(u, v) == Form(p, u) + Form(info, u);
      ApplyIsLinear(p, w, u);
      DotIsBilinear(e, v, pu);
      DotIsBilinear(v, w, u);
      DotIsBilinear(pu, w, u);
      assert Form(p, e) == Dot(w, v) - Dot(u, v) - Dot(w, pu) + Dot(u, pu);
      SymmetricForm(p, w, u);
      assert Form(p, e) >= 0.0 && Form(info, u) >= 0.0;
      DotIsBilinear(w, v, v);
      DotIsBilinear(u, v, v);
    }
  }

  /** Fusing keeps the covariance symmetric and positive and raises no direction above
      the regularized prior; when it is not refused, its inverse is the prior's
      information plus the window's. */
  lemma FuseNeverRaises(cov: Mat3, info: Mat3)
    requires PositiveSemidefinite(cov) && PositiveSemidefinite(info)
    ensures PositiveSemidefinite(Fuse(cov, info)) && NoLarger(Fuse(cov, info), Regularized(cov))
    ensures var p := Invert(Regularized(cov));
            p.Some? && Invert(Add(p.value, info)).Some? ==>
              && Fuse(cov, info) == Invert(Add(p.value, info)).value
              && Undoes(Fuse(cov, info), Add(p.value, info)) && Undoes(Add(p.value, info), Fuse(cov, info))
  {
    var s := Regularized(cov);
    RegularizedIsClose(cov);
    hide Form, Apply, Regularized, Undoes, NoLarger;
    if Invert(s).Some? {
      var p := Invert(s).value;
      InverseIsPositive(s);
      InvertIsTheInverse(s);
      SumIsPositive(p, info);
      var m := Add(p, info);
      if Invert(m).Some? {
        var c := Invert(m).value;
        InverseIsPositive(m);
        InvertIsTheInverse(m);
        SymmetrizedIsTheSame(c);
        InformationNeverRaises(s, p, info, c);
      }
    }
  }

  /** A direction the window says nothing about keeps its variance: where the
      information of the prior's column along `v` is zero, the fused column is the
      prior's. */
  lemma UnseenDirectionStays(cov: Mat3, info: Mat3, v: Vec3)
    requires PositiveSemidefinite(cov) && PositiveSemidefinite(info)
    requires var s := Regularized(cov); Invert(s).Some? && Invert(Add(Invert(s).value, info)).Some?
    requires Apply(info, Apply(Regularized(cov), v)) == ZERO
    ensures Apply(Fuse(cov, info), v) == Apply(Regularized(cov), v)
  {
    FuseNeverRaises(cov, info);
    var s := Regularized(cov);
    InvertIsTheInverse(s);
    var p, w := Invert(s).value, Apply(s, v);
    ApplyAdds(p, info, w);
    hide Apply, Fuse, Invert, Regularized, Add;
    assert Apply(p, w) == v;
    assert Apply(Add(p, info), w) == v;
    assert Apply(Fuse(cov, info), Apply(Add(p, info), w)) == w;
  }

  /** Two spreads across `s` in which a window can be sure without saying anything along
      it. */
  function Across(s: Vec3, a: Vec3, b: Vec3, k: real): Mat3
  {
    ScaleAll(k, Add(Outer(Cross(s, a)), Outer(Cross(s, b))))
  }

  lemma AcrossIsBlind(s: Vec3, a: Vec3, b: Vec3, k: real)
    requires k >= 0.0
    ensures PositiveSemidefinite(Across(s, a, b, k)) && Apply(Across(s, a, b, k), s) == ZERO
  {
    hide Apply, ScaleAll, Add, Outer, Cross, PositiveSemidefinite, Plus, Scale;
    NothingAdds();
    NothingScales(k);
    var (u, v) := (Cross(s, a), Cross(s, b));
    var sum := Add(Outer(u), Outer(v));
    OuterIsPositive(u);
    OuterIsPositive(v);
    SumIsPositive(Outer(u), Outer(v));
    ScaledIsPositive(k, sum);
    OuterOnItsNull(u, s, a);
    OuterOnItsNull(v, s, b);
    ApplyAdds(Outer(u), Outer(v), s);
    ApplyScaled(k, sum, s);
  }

  lemma NothingAdds()
    ensures Plus(ZERO, ZERO) == ZERO
  {
  }

  lemma NothingScales(k: real)
    ensures Scale(k, ZERO) == ZERO
  {
  }

  lemma OuterIsPositive(j: Vec3)
    ensures PositiveSemidefinite(Outer(j))
  {
    hide Form;
    forall v ensures Form(Outer(j), v) >= 0.0 {
      FormOfOuter(j, v);
      SquareOf(Dot(j, v));
    }
  }

  lemma SquareOf(x: real)
    ensures x * x >= 0.0
  {
  }

  lemma OuterOnItsNull(u: Vec3, s: Vec3, a: Vec3)
    requires u == Cross(s, a)
    ensures Apply(Outer(u), s) == ZERO
  {
    hide Dot, Cross, Scale;
    CrossIsAcross(s, a);
    DotScales(u.x, u, s);
    DotScales(u.y, u, s);
    DotScales(u.z, u, s);
    assert Dot(u, s) == 0.0;
  }

  /** A matrix that maps `s` to an axis has its determinant in that axis's minor. */
  lemma MinorIsDeterminantTimes(m: Mat3, s: Vec3, e: Vec3)
    requires Apply(m, s) == e
    ensures Apply(Adjugate(m), e) == Scale(Determinant(m), s)
  {
    hide Adjugate, Determinant, Mul, Apply, Scale;
    AdjugateTimes(m);
    MulApplies(Adjugate(m), m, s);
    DiagonalScales(Determinant(m), s);
  }

  lemma DiagonalScales(d: real, s: Vec3)
    ensures Apply(Diag(d, d, d), s) == Scale(d, s)
  {
  }

  lemma AdjugateAxis(m: Mat3)
    ensures Apply(Adjugate(m), Vec3(1.0, 0.0, 0.0)).x == Minor(m.r1.y, m.r1.z, m.r2.y, m.r2.z)
  {
    hide Minor, Apply;
    Columns(Adjugate(m));
  }

  /** A minor of a positive matrix to whose two diagonal entries enough was added. */
  lemma MinorIsLarge(p: real, q: real, off: real, more: real)
    requires p >= 0.0 && q >= 0.0 && more == 1.0 + Squared(off)
    ensures Minor(p + more, off, off, q + more) >= 1.0
  {
    var o := Squared(off);
    NonNegativeProduct(p, q);
    NonNegativeProduct(p, more);
    NonNegativeProduct(q, more);
    NonNegativeProduct(o, o);
    assert more * more == 1.0 + 2.0 * o + o * o;
    assert (p + more) * (q + more) == p * q + p * more + q * more + more * more;
  }

  /** What such a window adds to the entries across the first axis. */
  lemma AcrossX(s: Vec3, k: real)
    ensures var i := Across(s, Vec3(0.0, 1.0, 0.0), Vec3(0.0, 0.0, 1.0), k);
            i.r1.y == k * Squared(s.x) == i.r2.z && i.r1.z == 0.0 == i.r2.y
  {
    hide Cross, Outer, Squared;
    AxisCrosses(s);
    var (u, v) := (Cross(s, Vec3(0.0, 1.0, 0.0)), Cross(s, Vec3(0.0, 0.0, 1.0)));
    OuterDiagonal(u);
    OuterDiagonal(v);
    OuterOffYZ(u);
    OuterOffYZ(v);
    SquareOfNothing();
    SquareOfOpposite(s.x);
    Doubled(k, Outer(u), Outer(v));
    hide ScaleAll, Add;
  }

  lemma Doubled(k: real, a: Mat3, b: Mat3)
    ensures ScaleAll(k, Add(a, b)).r0 == Scale(k, Plus(a.r0, b.r0))
    ensures ScaleAll(k, Add(a, b)).r1 == Scale(k, Plus(a.r1, b.r1))
    ensures ScaleAll(k, Add(a, b)).r2 == Scale(k, Plus(a.r2, b.r2))
  {
    hide Scale, Plus;
  }

  lemma OuterDiagonal(u: Vec3)
    ensures Outer(u).r0.x == Squared(u.x) && Outer(u).r1.y == Squared(u.y) && Outer(u).r2.z == Squared(u.z)
  {
  }

  lemma SquareOfNothing()
    ensures Squared(0.0) == 0.0
  {
  }

  lemma SquareOfOpposite(x: real)
    ensures Squared(-x) == Squared(x)
  {
  }

  lemma OuterOffYZ(u: Vec3)
    requires u.y == 0.0 || u.z == 0.0
    ensures Outer(u).r1.z == 0.0 == Outer(u).r2.y
  {
  }

  lemma AxisCrosses(s: Vec3)
    ensures Cross(s, Vec3(0.0, 1.0, 0.0)) == Vec3(-s.z, 0.0, s.x)
    ensures Cross(s, Vec3(0.0, 0.0, 1.0)) == Vec3(s.y, -s.x, 0.0)
  {
  }

  /** A window blind along a lifted axis, and sure enough across it for the sum with the
      prior to be inverted. */
  lemma BlindWindowX(p: Mat3, s: Vec3) returns (info: Mat3)
    requires PositiveSemidefinite(p) && Apply(p, s) == Vec3(1.0, 0.0, 0.0) && 0.0 < s.x <= 1.0
    ensures PositiveSemidefinite(info) && Apply(info, s) == ZERO && Invert(Add(p, info)).Some?
  {
    hide Form, Apply, Across, Squared, Minor, Determinant, Adjugate;
    DiagonalIsPositive(p);
    var more := 1.0 + Squared(p.r1.z);
    var k := Portion(more, s.x);
    info := Across(s, Vec3(0.0, 1.0, 0.0), Vec3(0.0, 0.0, 1.0), k);
    AcrossIsBlind(s, Vec3(0.0, 1.0, 0.0), Vec3(0.0, 0.0, 1.0), k);
    AcrossX(s, k);
    var m := Add(p, info);
    MinorIsLarge(p.r1.y, p.r2.z, p.r1.z, more);
    assert m.r1.y == p.r1.y + more && m.r2.z == p.r2.z + more && m.r1.z == p.r1.z == m.r2.y;
    AdjugateAxis(m);
    StillMaps(p, info, s);
    LargeDeterminant(m, s, Vec3(1.0, 0.0, 0.0));
  }

  // The other axes are that one with x, y and z renamed in turn.

  function Cycled(v: Vec3): Vec3
  {
    Vec3(v.y, v.z, v.x)
  }

  function CycledAll(m: Mat3): Mat3
  {
    Mat3(Cycled(m.r1), Cycled(m.r2), Cycled(m.r0))
  }

  lemma CycledApplies(m: Mat3, v: Vec3)
    ensures Apply(CycledAll(m), Cycled(v)) == Cycled(Apply(m, v)) && Form(CycledAll(m), Cycled(v)) == Form(m, v)
  {
  }

  lemma CycledIsPositive(m: Mat3)
    requires PositiveSemidefinite(m)
    ensures PositiveSemidefinite(CycledAll(m))
  {
    hide Form;
    forall w ensures Form(CycledAll(m), w) >= 0.0 {
      var u := Cycled(Cycled(w));
      assert Cycled(u) == w;
      CycledApplies(m, u);
    }
  }

  lemma CycledDeterminant(m: Mat3)
    ensures Determinant(CycledAll(m)) == Determinant(m)
  {
  }

  /** A window for the renamed axes, renamed back. */
  lemma Uncycled(p: Mat3, s: Vec3, i: Mat3) returns (info: Mat3)
    requires PositiveSemidefinite(i) && Apply(i, Cycled(s)) == ZERO && Invert(Add(CycledAll(p), i)).Some?
    ensures PositiveSemidefinite(info) && Apply(info, s) == ZERO && Invert(Add(p, info)).Some?
  {
    hide Form, Apply, Determinant, Adjugate, Add, ScaleAll;
    info := CycledAll(CycledAll(i));
    CycledIsPositive(i);
    CycledIsPositive(CycledAll(i));
    CycledApplies(i, Cycled(s));
    CycledApplies(CycledAll(i), Cycled(Cycled(s)));
    CycledDeterminant(Add(p, info));
    CycledAdds(p, info);
  }

  lemma CycledAdds(a: Mat3, b: Mat3)
    ensures CycledAll(Add(a, b)) == Add(CycledAll(a), CycledAll(b))
  {
  }

  lemma BlindWindowY(p: Mat3, s: Vec3) returns (info: Mat3)
    requires PositiveSemidefinite(p) && Apply(p, s) == Vec3(0.0, 1.0, 0.0) && 0.0 < s.y <= 1.0
    ensures PositiveSemidefinite(info) && Apply(info, s) == ZERO && Invert(Add(p, info)).Some?
  {
    hide Form, Apply, Invert, PositiveSemidefinite;
    CycledIsPositive(p);
    CycledApplies(p, s);
    var i := BlindWindowX(CycledAll(p), Cycled(s));
    info := Uncycled(p, s, i);
  }

  lemma BlindWindowZ(p: Mat3, s: Vec3) returns (info: Mat3)
    requires PositiveSemidefinite(p) && Apply(p, s) == Vec3(0.0, 0.0, 1.0) && 0.0 < s.z <= 1.0
    ensures PositiveSemidefinite(info) && Apply(info, s) == ZERO && Invert(Add(p, info)).Some?
  {
    hide Form, Apply, Invert, PositiveSemidefinite;
    CycledIsPositive(p);
    CycledApplies(p, s);
    var i := BlindWindowY(CycledAll(p), Cycled(s));
    info := Uncycled(p, s, i);
  }

  lemma StillMaps(p: Mat3, info: Mat3, s: Vec3)
    requires Apply(info, s) == ZERO
    ensures Apply(Add(p, info), s) == Apply(p, s)
  {
    hide Apply, Add;
    ApplyAdds(p, info, s);
  }

  lemma Portion(more: real, x: real) returns (k: real)
    requires more >= 0.0 && x > 0.0
    ensures k >= 0.0 && k * Squared(x) == more
  {
    SquareIsPositive(x);
    k := more / Squared(x);
    assert k * Squared(x) == more;
  }

  lemma LargeDeterminant(m: Mat3, s: Vec3, e: Vec3)
    requires Apply(m, s) == e && Apply(Adjugate(m), e).x >= 1.0 && 0.0 < s.x <= 1.0
    ensures Invert(m).Some?
  {
    hide Determinant, Adjugate, Apply;
    MinorIsDeterminantTimes(m, s, e);
    var d := Determinant(m);
    AtMostItself(d, Apply(Adjugate(m), e).x, s.x);
    hide Scale;
    assert d >= 1.0;
  }

  lemma AtMostItself(d: real, product: real, x: real)
    requires product == d * x
    ensures d < 1.0 && x > 0.0 ==> product < x
  {
    if d < 1.0 && x > 0.0 {
      PositiveProduct(1.0 - d, x, (1.0 - d) * x);
    }
  }

  /** A lifted entry comes back out of some window's fusion lifted. */
  lemma LiftedEntryIsSeen(cov: Mat3, e: Vec3)
    requires PositiveSemidefinite(cov) && Invert(Regularized(cov)).Some?
    requires || (e == Vec3(1.0, 0.0, 0.0) && cov.r0.x < DIAGONAL_FLOOR)
              || (e == Vec3(0.0, 1.0, 0.0) && cov.r1.y < DIAGONAL_FLOOR)
             || (e == Vec3(0.0, 0.0, 1.0) && cov.r2.z < DIAGONAL_FLOOR)
    ensures exists info :: PositiveSemidefinite(info) && !NoLarger(Fuse(cov, info), cov)
  {
    var s := Regularized(cov);
    AxisForms(cov);
    AxisForms(s);
    Columns(s);
    assert (e.x == 1.0 ==> s.r0.x == DIAGONAL_FLOOR) && (e.y == 1.0 ==> s.r1.y == DIAGONAL_FLOOR)
        && (e.z == 1.0 ==> s.r2.z == DIAGONAL_FLOOR);
    hide Invert, Regularized, Fuse, Apply, Dot;
    RegularizedIsClose(cov);
    InvertIsTheInverse(s);
    InverseIsPositive(s);
    var p := Invert(s).value;
    assert Apply(p, Apply(s, e)) == e;
    var info;
    if e.x == 1.0 {
      info := BlindWindowX(p, Apply(s, e));
    } else if e.y == 1.0 {
      info := BlindWindowY(p, Apply(s, e));
    } else {
      info := BlindWindowZ(p, Apply(s, e));
    }
    UnseenDirectionStays(cov, info, e);
    assert Form(Fuse(cov, info), e) == Form(s, e) > Form(cov, e);
  }

  /** Whether fusing can ever raise a direction above the covariance itself: it never
      does exactly when the floored covariance cannot be inverted, so that nothing is
      fused, or no diagonal entry is below the floor. */
  lemma FuseNeverRaisesTheCovarianceIff(cov: Mat3)
    requires PositiveSemidefinite(cov)
    ensures (forall info :: PositiveSemidefinite(info) ==> NoLarger(Fuse(cov, info), cov))
            <==> || Invert(Regularized(cov)).None?
                 || (cov.r0.x >= DIAGONAL_FLOOR && cov.r1.y >= DIAGONAL_FLOOR && cov.r2.z >= DIAGONAL_FLOOR)
  {
    if Invert(Regularized(cov)).Some? {
      if cov.r0.x < DIAGONAL_FLOOR {
        LiftedEntryIsSeen(cov, Vec3(1.0, 0.0, 0.0));
      } else if cov.r1.y < DIAGONAL_FLOOR {
        LiftedEntryIsSeen(cov, Vec3(0.0, 1.0, 0.0));
      } else if cov.r2.z < DIAGONAL_FLOOR {
        LiftedEntryIsSeen(cov, Vec3(0.0, 0.0, 1.0));
      } else {
        assert Regularized(cov) == cov;
        forall info | PositiveSemidefinite(info) ensures NoLarger(Fuse(cov, info), cov) {
          FuseNeverRaises(cov, info);
        }
      }
    } else {
      assert forall info :: Fuse(cov, info) == cov;
    }
  }

  /** The window by itself gives a positive covariance, under the cap when the cap can
      be inverted or the window cannot. */
  lemma FromInformationIsCapped(info: Mat3, cap: Mat3)
    requires PositiveSemidefinite(info) && PositiveSemidefinite(cap)
    ensures PositiveSemidefinite(FromInformation(info, cap))
    ensures Invert(cap).Some? || Invert(info).None? ==> NoLarger(FromInformation(info, cap), cap)
  {
    var capInfo := match Invert(cap) case None => Diag(0.0, 0.0, 0.0) case Some(p) => p;
    var m := Add(info, capInfo);
    assert m == Add(capInfo, info);
    if Invert(cap).Some? {
      InverseIsPositive(cap);
      InvertIsTheInverse(cap);
    } else {
      PositiveDiagonal(0.0, 0.0, 0.0);
      assert m == info;
    }
    SumIsPositive(info, capInfo);
    hide Form, Apply, Invert, Undoes;
    if Invert(m).Some? {
      var c := Invert(m).value;
      InverseIsPositive(m);
      InvertIsTheInverse(m);
      SymmetrizedIsTheSame(c);
      if Invert(cap).Some? {
        InformationNeverRaises(cap, capInfo, info, c);
      }
    }
  }

  /** A window by itself is under the cap, whatever the window, exactly when the cap can
      be inverted. */
  lemma CapHoldsIff(cap: Mat3)
    requires PositiveSemidefinite(cap)
    ensures (forall info :: PositiveSemidefinite(info) ==> NoLarger(FromInformation(info, cap), cap)) <==>
              Invert(cap).Some?
  {
    hide Invert, FromInformation, NoLarger, Form;
    if Invert(cap).Some? {
      forall info | PositiveSemidefinite(info) ensures NoLarger(FromInformation(info, cap), cap) {
        FromInformationIsCapped(info, cap);
      }
    } else {
      DiagonalIsPositive(cap);
      var t := cap.r0.x + 1.0;
      UncappedWindow(cap, t, 1.0 / t);
      var info := Diag(1.0 / t, t, 1.0);
      assert PositiveSemidefinite(info) && !NoLarger(FromInformation(info, cap), cap);
    }
  }

  /** A window vague along x by more than the cap that cannot be inverted, and so much
      surer along y that the window itself can. */
  lemma UncappedWindow(cap: Mat3, t: real, u: real)
    requires PositiveSemidefinite(cap) && Invert(cap).None? && t > cap.r0.x && t > 0.0 && u > 0.0 && t * u == 1.0
    ensures PositiveSemidefinite(Diag(u, t, 1.0)) && !NoLarger(FromInformation(Diag(u, t, 1.0), cap), cap)
  {
    hide Form, Invert, Symmetrized, Add;
    var (info, c) := (Diag(u, t, 1.0), Diag(t, u, 1.0));
    PositiveDiagonal(u, t, 1.0);
    SwappedInverse(t, u);
    AddingNothing(info);
    SymmetrizedIsTheSame(c);
    assert FromInformation(info, cap) == c;
    AxisForms(c);
    AxisForms(cap);
    assert Form(c, Vec3(1.0, 0.0, 0.0)) > Form(cap, Vec3(1.0, 0.0, 0.0));
  }

  lemma SwappedInverse(t: real, u: real)
    requires t * u == 1.0
    ensures Invert(Diag(u, t, 1.0)) == Some(Diag(t, u, 1.0))
  {
    hide Determinant, Adjugate, ScaleAll;
    DeterminantOfADiagonal(u, t);
    AdjugateOfADiagonal(u, t);
    ScaledByOne(Diag(t, u, 1.0));
  }

  lemma DeterminantOfADiagonal(x: real, y: real)
    ensures Determinant(Diag(x, y, 1.0)) == y * x
  {
  }

  lemma AdjugateOfADiagonal(x: real, y: real)
    ensures Adjugate(Diag(x, y, 1.0)) == Diag(y, x, y * x)
  {
  }

  lemma ScaledByOne(a: Mat3)
    ensures ScaleAll(1.0, a) == a
  {
  }

  lemma AddingNothing(a: Mat3)
    ensures Add(a, Diag(0.0, 0.0, 0.0)) == a
  {
  }

  /** A cap that cannot be inverted: the unit information against a zero cap. */
  lemma SmallCapCapsNothing()
    ensures var (info, cap) := (Diag(1.0, 1.0, 1.0), Diag(0.0, 0.0, 0.0));
            PositiveSemidefinite(info) && PositiveSemidefinite(cap) && !NoLarger(FromInformation(info, cap), cap)
  {
    hide Form, FromInformation, Invert, PositiveSemidefinite, NoLarger;
    PositiveDiagonal(0.0, 0.0, 0.0);
    NoInverseOfNothing();
    UncappedWindow(Diag(0.0, 0.0, 0.0), 1.0, 1.0);
  }

  lemma NoInverseOfNothing()
    ensures Invert(Diag(0.0, 0.0, 0.0)) == None
  {
    hide Adjugate, ScaleAll;
  }

  // ── Whole runs ──────────────────────────────────────────────────────────────

  /** What happens to the covariance: an odometry step, a window judged, or a
      relocalization that starts it afresh from the window alone. */
  datatype Event =
    | Moved(m: Motion)
    | Judged(w: Window)
    | Relocated(w: Window, agreeM: real, agreeRad: real)

  /** The covariance of these standard deviations. */
  function Diagonal(sigmaXy: real, sigmaYaw: real): Mat3
  {
    Diag(sigmaXy * sigmaXy, sigmaXy * sigmaXy, sigmaYaw * sigmaYaw)
  }

  ghost function InformationOf(w: Window, cfg: UncertaintyConfig): Option<Mat3>
    requires cfg.Valid()
  {
    var (h, n) := NormalMatrix(w, |w.beams|);
    WindowInformation(h, w.residual, n, cfg)
  }

  ghost function Next(cov: Mat3, e: Event, cfg: UncertaintyConfig): Mat3
    requires cfg.Valid()
  {
    match e
    case Moved(m) => Predict(cov, m, cfg)
    case Judged(w) => (match InformationOf(w, cfg) case None => cov case Some(info) => Fuse(cov, info))
    case Relocated(w, agreeM, agreeRad) =>
      var cap := Diagonal(agreeM, agreeRad);
      (match InformationOf(w, cfg) case None => cap case Some(info) => FromInformation(info, cap))
  }

  ghost function After(cov: Mat3, run: seq<Event>, cfg: UncertaintyConfig): Mat3
    requires cfg.Valid()
  {
    if run == [] then cov else Next(After(cov, run[..|run| - 1], cfg), run[|run| - 1], cfg)
  }

  lemma NextIsPositive(cov: Mat3, e: Event, cfg: UncertaintyConfig)
    requires cfg.Valid() && PositiveSemidefinite(cov) && (e.Moved? ==> e.m.Valid())
    ensures PositiveSemidefinite(Next(cov, e, cfg))
    ensures e.Judged? ==> NoLarger(Next(cov, e, cfg), Regularized(cov))
  {
    match e
    case Moved(m) =>
      PredictOnlyAdds(cov, m, cfg);
    case Judged(w) =>
      InformationIsPositive(w, cfg);
      RegularizedIsClose(cov);
      hide InformationOf, Form;
      var info := InformationOf(w, cfg);
      if info.Some? {
        FuseNeverRaises(cov, info.value);
      }
    case Relocated(w, agreeM, agreeRad) =>
      InformationIsPositive(w, cfg);
      var cap := Diagonal(agreeM, agreeRad);
      DiagonalIsACovariance(agreeM, agreeRad);
      hide InformationOf, Form, Diagonal;
      var info := InformationOf(w, cfg);
      if info.Some? {
        FromInformationIsCapped(info.value, cap);
      }
  }

  lemma DiagonalIsACovariance(sigmaXy: real, sigmaYaw: real)
    ensures PositiveSemidefinite(Diagonal(sigmaXy, sigmaYaw))
  {
    PositiveDiagonal(sigmaXy * sigmaXy, sigmaXy * sigmaXy, sigmaYaw * sigmaYaw);
    hide Form;
  }

  lemma InformationIsPositive(w: Window, cfg: UncertaintyConfig)
    requires cfg.Valid()
    ensures InformationOf(w, cfg).Some? ==> PositiveSemidefinite(InformationOf(w, cfg).value)
  {
    NormalMatrixIsASumOfSquares(w, |w.beams|);
    var (h, n) := NormalMatrix(w, |w.beams|);
    WindowInformationIsPositive(h, w.residual, n, cfg);
    hide Form, WindowInformation;
  }

  /** Over any run the covariance stays symmetric and positive semidefinite. */
  lemma {:induction false} RunStaysPositive(cov: Mat3, run: seq<Event>, cfg: UncertaintyConfig)
    requires cfg.Valid() && PositiveSemidefinite(cov)
    requires forall k :: 0 <= k < |run| && run[k].Moved? ==> run[k].m.Valid()
    ensures PositiveSemidefinite(After(cov, run, cfg))
  {
    if run != [] {
      RunStaysPositive(cov, run[..|run| - 1], cfg);
      NextIsPositive(After(cov, run[..|run| - 1], cfg), run[|run| - 1], cfg);
      hide PositiveSemidefinite, Next;
    }
  }
}
