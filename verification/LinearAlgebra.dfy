/** Three-by-three matrices over the reals, as the covariance filter uses them. */
module LinearAlgebra {
  import opened Reals

  datatype Vec3 = Vec3(x: real, y: real, z: real)

  /** A matrix by its rows. */
  datatype Mat3 = Mat3(r0: Vec3, r1: Vec3, r2: Vec3)

  const ZERO: Vec3 := Vec3(0.0, 0.0, 0.0)

  function Dot(u: Vec3, v: Vec3): real
  {
    u.x * v.x + u.y * v.y + u.z * v.z
  }

  function Plus(u: Vec3, v: Vec3): Vec3
  {
    Vec3(u.x + v.x, u.y + v.y, u.z + v.z)
  }

  function Scale(k: real, v: Vec3): Vec3
  {
    Vec3(k * v.x, k * v.y, k * v.z)
  }

  function Minus(u: Vec3, v: Vec3): Vec3
  {
    Vec3(u.x - v.x, u.y - v.y, u.z - v.z)
  }

  function Apply(m: Mat3, v: Vec3): Vec3
  {
    Vec3(Dot(m.r0, v), Dot(m.r1, v), Dot(m.r2, v))
  }

  function Transpose(m: Mat3): Mat3
  {
    Mat3(Vec3(m.r0.x, m.r1.x, m.r2.x), Vec3(m.r0.y, m.r1.y, m.r2.y), Vec3(m.r0.z, m.r1.z, m.r2.z))
  }

  function Add(a: Mat3, b: Mat3): Mat3
  {
    Mat3(Plus(a.r0, b.r0), Plus(a.r1, b.r1), Plus(a.r2, b.r2))
  }

  function ScaleAll(k: real, a: Mat3): Mat3
  {
    Mat3(Scale(k, a.r0), Scale(k, a.r1), Scale(k, a.r2))
  }

  /** The matrix product: every row of `a` against every column of `b`. */
  function Mul(a: Mat3, b: Mat3): Mat3
  {
    var t := Transpose(b);
    Mat3(Apply(t, a.r0), Apply(t, a.r1), Apply(t, a.r2))
  }

  function Diag(x: real, y: real, z: real): Mat3
  {
    Mat3(Vec3(x, 0.0, 0.0), Vec3(0.0, y, 0.0), Vec3(0.0, 0.0, z))
  }

  predicate IsSymmetric(m: Mat3)
  {
    m.r0.y == m.r1.x && m.r0.z == m.r2.x && m.r1.z == m.r2.y
  }

  /** The variance (or the information) along `v`. */
  function Form(m: Mat3, v: Vec3): real
  {
    Dot(v, Apply(m, v))
  }

  /** Symmetric, and no direction negative. */
  ghost predicate PositiveSemidefinite(m: Mat3)
  {
    IsSymmetric(m) && forall v :: Form(m, v) >= 0.0
  }

  /** No direction of `a` above the same direction of `b`. */
  ghost predicate NoLarger(a: Mat3, b: Mat3)
  {
    forall v :: Form(a, v) <= Form(b, v)
  }

  /** `b` undoes `a`. */
  ghost predicate Undoes(b: Mat3, a: Mat3)
  {
    forall v :: Apply(b, Apply(a, v)) == v
  }

  // ── Bilinearity ─────────────────────────────────────────────────────────────

  lemma DotIsBilinear(u: Vec3, v: Vec3, w: Vec3)
    ensures Dot(u, v) == Dot(v, u)
    ensures Dot(u, Plus(v, w)) == Dot(u, v) + Dot(u, w)
    ensures Dot(u, Minus(v, w)) == Dot(u, v) - Dot(u, w)
    ensures Dot(Minus(v, w), u) == Dot(v, u) - Dot(w, u)
    ensures Dot(Plus(v, w), u) == Dot(v, u) + Dot(w, u)
  {
  }

  lemma DotScales(k: real, u: Vec3, v: Vec3)
    ensures Dot(Scale(k, u), v) == k * Dot(u, v) && Dot(u, Scale(k, v)) == k * Dot(u, v)
  {
  }

  lemma ApplyIsLinear(m: Mat3, u: Vec3, v: Vec3)
    ensures Apply(m, Minus(u, v)) == Minus(Apply(m, u), Apply(m, v))
    ensures Apply(m, Plus(u, v)) == Plus(Apply(m, u), Apply(m, v))
  {
  }

  lemma ApplyAdds(a: Mat3, b: Mat3, v: Vec3)
    ensures Apply(Add(a, b), v) == Plus(Apply(a, v), Apply(b, v))
  {
  }

  lemma FormAdds(a: Mat3, b: Mat3, v: Vec3)
    ensures Form(Add(a, b), v) == Form(a, v) + Form(b, v)
  {
    ApplyAdds(a, b, v);
    DotIsBilinear(v, Apply(a, v), Apply(b, v));
    hide Dot, Apply;
  }

  lemma FormScales(k: real, a: Mat3, v: Vec3)
    ensures Form(ScaleAll(k, a), v) == k * Form(a, v)
  {
    ApplyScaled(k, a, v);
    DotScales(k, v, Apply(a, v));
    hide Dot, Apply, Scale;
  }

  lemma FormOfADiagonal(x: real, y: real, z: real, v: Vec3)
    ensures Form(Diag(x, y, z), v) == x * (v.x * v.x) + y * (v.y * v.y) + z * (v.z * v.z)
  {
  }

  lemma PositiveDiagonal(x: real, y: real, z: real)
    requires x >= 0.0 && y >= 0.0 && z >= 0.0
    ensures PositiveSemidefinite(Diag(x, y, z))
  {
    forall v ensures Form(Diag(x, y, z), v) >= 0.0 {
      FormOfADiagonal(x, y, z, v);
      NonNegativeProduct(x, v.x * v.x);
      NonNegativeProduct(y, v.y * v.y);
      NonNegativeProduct(z, v.z * v.z);
      hide Form;
    }
  }

  lemma ScaledIsSymmetric(k: real, a: Mat3)
    requires IsSymmetric(a)
    ensures IsSymmetric(ScaleAll(k, a))
  {
  }

  lemma ScaledIsPositive(k: real, m: Mat3)
    requires k >= 0.0 && PositiveSemidefinite(m)
    ensures PositiveSemidefinite(ScaleAll(k, m))
  {
    hide Form, ScaleAll, IsSymmetric;
    ScaledIsSymmetric(k, m);
    forall w ensures Form(ScaleAll(k, m), w) >= 0.0 {
      FormScales(k, m, w);
      NonNegativeProduct(k, Form(m, w));
    }
  }

  /** A transpose moves across the dot product. */
  lemma TransposeMoves(m: Mat3, u: Vec3, v: Vec3)
    ensures Dot(u, Apply(m, v)) == Dot(Apply(Transpose(m), u), v)
  {
  }

  lemma SymmetricIsItsTranspose(m: Mat3)
    ensures IsSymmetric(m) <==> Transpose(m) == m
  {
  }

  lemma SymmetricForm(m: Mat3, u: Vec3, v: Vec3)
    requires IsSymmetric(m)
    ensures Dot(u, Apply(m, v)) == Dot(v, Apply(m, u))
  {
    SymmetricIsItsTranspose(m);
    TransposeMoves(m, u, v);
    DotIsBilinear(Apply(m, u), v, v);
    hide Dot, Apply;
  }

  /** A product acts as its factors one after the other. */
  lemma MulApplies(a: Mat3, b: Mat3, v: Vec3)
    ensures Apply(Mul(a, b), v) == Apply(a, Apply(b, v))
  {
    TransposeMoves(b, a.r0, v);
    TransposeMoves(b, a.r1, v);
    TransposeMoves(b, a.r2, v);
    hide Dot;
  }

  lemma TransposeOfAProduct(a: Mat3, b: Mat3)
    ensures Transpose(Mul(a, b)) == Mul(Transpose(b), Transpose(a))
  {
  }

  lemma MulIsAssociative(a: Mat3, b: Mat3, c: Mat3)
    ensures Mul(Mul(a, b), c) == Mul(a, Mul(b, c))
  {
    RowTimesProduct(a.r0, b, c);
    RowTimesProduct(a.r1, b, c);
    RowTimesProduct(a.r2, b, c);
    hide Apply, Transpose;
  }

  lemma RowTimesProduct(r: Vec3, b: Mat3, c: Mat3)
    ensures Apply(Transpose(c), Apply(Transpose(b), r)) == Apply(Transpose(Mul(b, c)), r)
  {
    TransposeOfAProduct(b, c);
    MulApplies(Transpose(c), Transpose(b), r);
    hide Apply, Transpose;
  }

  /** Carried through a map: symmetric stays symmetric, and the form along `v` is the
      old form along the direction `v` comes from. */
  lemma CongruenceKeepsTheForm(f: Mat3, m: Mat3, v: Vec3)
    requires IsSymmetric(m)
    ensures IsSymmetric(Mul(Mul(f, m), Transpose(f)))
    ensures Form(Mul(Mul(f, m), Transpose(f)), v) == Form(m, Apply(Transpose(f), v))
  {
    var t := Transpose(f);
    SymmetricIsItsTranspose(m);
    SymmetricIsItsTranspose(Mul(Mul(f, m), t));
    TransposeOfAProduct(Mul(f, m), t);
    TransposeOfAProduct(f, m);
    MulIsAssociative(f, m, t);
    assert Transpose(t) == f;
    MulApplies(Mul(f, m), t, v);
    MulApplies(f, m, Apply(t, v));
    TransposeMoves(f, v, Apply(m, Apply(t, v)));
    hide Apply, Dot, Mul, Transpose;
  }

  // ── Inverses ────────────────────────────────────────────────────────────────

  function Determinant(a: Mat3): real
  {
    a.r0.x * (a.r1.y * a.r2.z - a.r1.z * a.r2.y) - a.r0.y * (a.r1.x * a.r2.z - a.r1.z * a.r2.x)
    + a.r0.z * (a.r1.x * a.r2.y - a.r1.y * a.r2.x)
  }

  function Minor(a: real, b: real, c: real, d: real): real
  {
    a * d - b * c
  }

  function Cross(u: Vec3, v: Vec3): Vec3
  {
    Vec3(Minor(u.y, u.z, v.y, v.z), Minor(u.z, u.x, v.z, v.x), Minor(u.x, u.y, v.x, v.y))
  }

  function Adjugate(a: Mat3): Mat3
  {
    Transpose(Mat3(Cross(a.r1, a.r2), Cross(a.r2, a.r0), Cross(a.r0, a.r1)))
  }

  lemma CrossIsAcross(u: Vec3, v: Vec3)
    ensures Dot(Cross(u, v), u) == 0.0 == Dot(Cross(u, v), v)
  {
  }

  lemma BoxRotates(u: Vec3, v: Vec3, w: Vec3)
    ensures Dot(Cross(v, w), u) == Dot(Cross(w, u), v) == Determinant(Mat3(u, v, w))
  {
  }

  lemma AdjugateOnTheRight(a: Mat3)
    ensures var d := Determinant(a); Mul(a, Adjugate(a)) == Diag(d, d, d)
  {
    CrossIsAcross(a.r0, a.r1);
    CrossIsAcross(a.r1, a.r2);
    CrossIsAcross(a.r2, a.r0);
    BoxRotates(a.r0, a.r1, a.r2);
    BoxRotates(a.r2, a.r0, a.r1);
    BoxRotates(a.r1, a.r2, a.r0);
    hide Dot, Cross, Determinant;
  }

  lemma AdjugateOfATranspose(a: Mat3)
    ensures Adjugate(Transpose(a)) == Transpose(Adjugate(a)) && Determinant(Transpose(a)) == Determinant(a)
  {
  }

  lemma AdjugateTimes(a: Mat3)
    ensures var (j, d) := (Adjugate(a), Determinant(a)); Mul(a, j) == Diag(d, d, d) == Mul(j, a)
  {
    AdjugateOnTheRight(a);
    AdjugateOnTheRight(Transpose(a));
    AdjugateOfATranspose(a);
    TransposeOfAProduct(Transpose(a), Adjugate(Transpose(a)));
    hide Mul, Adjugate, Determinant;
  }

  lemma AdjugateIsSymmetric(a: Mat3)
    requires IsSymmetric(a)
    ensures IsSymmetric(Adjugate(a))
  {
  }

  lemma ScaledInverse(a: Mat3, v: Vec3)
    requires Determinant(a) != 0.0
    ensures var b := ScaleAll(1.0 / Determinant(a), Adjugate(a));
            Apply(b, Apply(a, v)) == v == Apply(a, Apply(b, v))
  {
    var (j, d) := (Adjugate(a), Determinant(a));
    var k := 1.0 / d;
    AdjugateTimes(a);
    MulApplies(j, a, v);
    MulApplies(a, j, v);
    assert Apply(Diag(d, d, d), v) == Scale(d, v);
    ApplyScaled(k, j, Apply(a, v));
    ApplyScaled(k, j, v);
    ScaleMovesIn(k, a, Apply(j, v));
    ReciprocalScales(d, v);
    hide *;
  }

  lemma ReciprocalScales(d: real, v: Vec3)
    requires d != 0.0
    ensures Scale(1.0 / d, Scale(d, v)) == v
  {
  }

  lemma ApplyScaled(k: real, m: Mat3, v: Vec3)
    ensures Apply(ScaleAll(k, m), v) == Scale(k, Apply(m, v))
  {
    DotScales(k, m.r0, v);
    DotScales(k, m.r1, v);
    DotScales(k, m.r2, v);
    hide Dot;
    var (x, y, z) := (k * Dot(m.r0, v), k * Dot(m.r1, v), k * Dot(m.r2, v));
    assert Scale(k, Apply(m, v)) == Vec3(x, y, z) == Apply(ScaleAll(k, m), v);
  }

  lemma ScaleMovesIn(k: real, m: Mat3, v: Vec3)
    ensures Apply(m, Scale(k, v)) == Scale(k, Apply(m, v))
  {
    DotScales(k, m.r0, v);
    DotScales(k, m.r1, v);
    DotScales(k, m.r2, v);
    hide Dot;
    var (x, y, z) := (k * Dot(m.r0, v), k * Dot(m.r1, v), k * Dot(m.r2, v));
    assert Scale(k, Apply(m, v)) == Vec3(x, y, z) == Apply(m, Scale(k, v));
  }

  lemma Columns(m: Mat3)
    ensures Apply(m, Vec3(1.0, 0.0, 0.0)) == Vec3(m.r0.x, m.r1.x, m.r2.x)
    ensures Apply(m, Vec3(0.0, 1.0, 0.0)) == Vec3(m.r0.y, m.r1.y, m.r2.y)
    ensures Apply(m, Vec3(0.0, 0.0, 1.0)) == Vec3(m.r0.z, m.r1.z, m.r2.z)
  {
  }
}
