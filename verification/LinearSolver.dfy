/** The pose graph's linear solver, `maploc/src/optimizer.rs`: Gaussian elimination
    with partial pivoting, then back-substitution. */
module LinearSolver {
  import opened Grid

  type Vector = seq<real>
  type Matrix = seq<seq<real>>

  /** The smallest pivot the solver accepts: 1e-12. */
  const SINGULAR: real := 0.000000000001

  function Magnitude(v: real): real
  {
    if v < 0.0 then -v else v
  }

  ghost predicate IsSquare(a: Matrix, n: nat)
  {
    |a| == n && forall r :: 0 <= r < n ==> |a[r]| == n
  }

  // ── Equations and their solutions ───────────────────────────────────────────

  /** The terms `lo..hi` of the product of a row and a vector. */
  ghost function Part(u: Vector, x: Vector, lo: nat, hi: nat): real
    requires hi <= |u| && hi <= |x|
  {
    if hi <= lo then 0.0 else Part(u, x, lo, hi - 1) + u[hi - 1] * x[hi - 1]
  }

  ghost predicate Solves(a: Matrix, b: Vector, x: Vector)
    requires IsSquare(a, |b|)
  {
    |x| == |b| && forall r :: 0 <= r < |b| ==> Part(a[r], x, 0, |b|) == b[r]
  }

  /** Two systems with the same solutions. */
  ghost predicate Equivalent(a: Matrix, b: Vector, a': Matrix, b': Vector)
  {
    && |b| == |b'| && IsSquare(a, |b|) && IsSquare(a', |b|)
    && forall x: Vector :: Solves(a, b, x) <==> Solves(a', b', x)
  }

  /** Columns before `i` are zero below the diagonal and not on it. */
  ghost predicate Triangular(a: Matrix, i: int)
    requires IsSquare(a, |a|)
  {
    && (forall r, c {:trigger a[r][c]} :: 0 <= c < i && c < r < |a| ==> a[r][c] == 0.0)
    && (forall r {:trigger a[r][r]} :: 0 <= r < i && r < |a| ==> a[r][r] != 0.0)
  }

  // ── The row operations keep the solutions ───────────────────────────────────

  ghost function Minus(u: Vector, f: real, v: Vector): (w: Vector)
    requires |u| == |v|
    ensures |w| == |u| && forall c :: 0 <= c < |u| ==> w[c] == u[c] - f * v[c]
  {
    seq(|u|, c requires 0 <= c < |u| => u[c] - f * v[c])
  }

  lemma {:induction false} PartOfADifference(u: Vector, f: real, v: Vector, x: Vector, lo: nat, hi: nat)
    requires |u| == |v| && hi <= |u| && hi <= |x|
    ensures Part(Minus(u, f, v), x, lo, hi) == Part(u, x, lo, hi) - f * Part(v, x, lo, hi)
  {
    if lo < hi {
      PartOfADifference(u, f, v, x, lo, hi - 1);
      Distribute(u[hi - 1], f, v[hi - 1], x[hi - 1], Part(v, x, lo, hi - 1));
    }
  }

  lemma Distribute(u: real, f: real, v: real, x: real, p: real)
    ensures (u - f * v) * x == u * x - f * (v * x)
    ensures f * (p + v * x) == f * p + f * (v * x)
  {
  }

  lemma SwapKeepsTheSolutions(a: Matrix, b: Vector, i: nat, j: nat)
    requires IsSquare(a, |b|) && i < |b| && j < |b|
    ensures Equivalent(a, b, a[i := a[j]][j := a[i]], b[i := b[j]][j := b[i]])
  {
    var a', b' := a[i := a[j]][j := a[i]], b[i := b[j]][j := b[i]];
    forall x: Vector ensures Solves(a, b, x) <==> Solves(a', b', x) {
      if Solves(a', b', x) {
        forall r | 0 <= r < |b| ensures Part(a[r], x, 0, |b|) == b[r] {
          var k := if r == i then j else if r == j then i else r;
          assert Part(a'[k], x, 0, |b|) == b'[k];
        }
      }
    }
  }

  lemma EliminationKeepsTheSolutions(a: Matrix, b: Vector, r: nat, f: real, i: nat, reduced: real)
    requires IsSquare(a, |b|) && r < |b| && i < |b| && r != i && reduced == b[r] - f * b[i]
    ensures Equivalent(a, b, a[r := Minus(a[r], f, a[i])], b[r := reduced])
  {
    var a', b' := a[r := Minus(a[r], f, a[i])], b[r := reduced];
    forall x: Vector ensures Solves(a, b, x) <==> Solves(a', b', x) {
      if |x| == |b| {
        PartOfADifference(a[r], f, a[i], x, 0, |b|);
        var pi := Part(a[i], x, 0, |b|);
        assert a'[i] == a[i] && b'[i] == b[i];
        if Solves(a, b, x) || Solves(a', b', x) {
          assert pi == b[i];
          hide Part;
          if Solves(a', b', x) {
            forall k | 0 <= k < |b| ensures Part(a[k], x, 0, |b|) == b[k] {
              assert Part(a'[k], x, 0, |b|) == b'[k];
            }
          }
        }
      }
    }
  }

  lemma EquivalentIsTransitive(a: Matrix, b: Vector, a': Matrix, b': Vector, a'': Matrix, b'': Vector)
    requires Equivalent(a, b, a', b') && Equivalent(a', b', a'', b'')
    ensures Equivalent(a, b, a'', b'')
  {
  }

  // ── A triangular system has one solution ────────────────────────────────────

  lemma {:induction false} PartSplits(u: Vector, x: Vector, lo: nat, mid: nat, hi: nat)
    requires lo <= mid <= hi <= |u| && hi <= |x|
    ensures Part(u, x, lo, hi) == Part(u, x, lo, mid) + Part(u, x, mid, hi)
  {
    if mid < hi {
      PartSplits(u, x, lo, mid, hi - 1);
    }
  }

  lemma {:induction false} PartOfZeros(u: Vector, x: Vector, hi: nat)
    requires hi <= |u| && hi <= |x| && forall c :: 0 <= c < hi ==> u[c] == 0.0
    ensures Part(u, x, 0, hi) == 0.0
  {
    if hi > 0 {
      PartOfZeros(u, x, hi - 1);
    }
  }

  lemma {:induction false} PartLooksAtItsRange(u: Vector, x: Vector, y: Vector, lo: nat, hi: nat)
    requires hi <= |u| && hi <= |x| && hi <= |y| && forall c :: lo <= c < hi ==> x[c] == y[c]
    ensures Part(u, x, lo, hi) == Part(u, y, lo, hi)
  {
    if lo < hi {
      PartLooksAtItsRange(u, x, y, lo, hi - 1);
    }
  }

  ghost function Times(x: real, y: real): real
  {
    x * y
  }

  /** What a triangular row says: the diagonal term and the terms right of it. */
  lemma TriangularRow(a: Matrix, x: Vector, r: nat)
    requires IsSquare(a, |a|) && r < |a| && |x| == |a| && Triangular(a, r + 1)
    ensures Part(a[r], x, 0, |a|) == Times(a[r][r], x[r]) + Part(a[r], x, r + 1, |a|)
  {
    PartSplits(a[r], x, 0, r, |a|);
    PartSplits(a[r], x, r, r + 1, |a|);
    PartOfZeros(a[r], x, r);
    assert Part(a[r], x, r, r + 1) == a[r][r] * x[r];
  }

  lemma {:induction false} TriangularIsUnique(a: Matrix, b: Vector, x: Vector, y: Vector, r: nat)
    requires IsSquare(a, |b|) && Triangular(a, |b|) && Solves(a, b, x) && Solves(a, b, y) && r <= |b|
    ensures forall c :: r <= c < |b| ==> x[c] == y[c]
    decreases |b| - r
  {
    if r < |b| {
      TriangularIsUnique(a, b, x, y, r + 1);
      PartLooksAtItsRange(a[r], x, y, r + 1, |b|);
      TriangularRow(a, x, r);
      TriangularRow(a, y, r);
      assert Part(a[r], x, 0, |b|) == b[r] == Part(a[r], y, 0, |b|) && a[r][r] != 0.0;
      hide *;
      assert Times(a[r][r], x[r]) == Times(a[r][r], y[r]);
      CancelFactor(a[r][r], x[r], y[r]);
    }
  }

  lemma CancelFactor(p: real, x: real, y: real)
    requires p != 0.0 && Times(p, x) == Times(p, y)
    ensures x == y
  {
  }

  // ── Singular systems ────────────────────────────────────────────────────────

  /** Some direction other than zero that every row maps to zero. */
  ghost predicate Singular(a: Matrix)
    requires IsSquare(a, |a|)
  {
    exists z: Vector :: Solves(a, seq(|a|, _ => 0.0), z) && exists c :: 0 <= c < |z| && z[c] != 0.0
  }

  lemma {:induction false} PartOfASum(u: Vector, x: Vector, z: Vector, y: Vector, hi: nat)
    requires hi <= |u| && |x| == |y| == |z| && hi <= |x| && forall c :: 0 <= c < hi ==> y[c] == x[c] + z[c]
    ensures Part(u, y, 0, hi) == Part(u, x, 0, hi) + Part(u, z, 0, hi)
  {
    if hi > 0 {
      PartOfASum(u, x, z, y, hi - 1);
      assert u[hi - 1] * y[hi - 1] == u[hi - 1] * x[hi - 1] + u[hi - 1] * z[hi - 1];
    }
  }

  lemma SumSolves(a: Matrix, b: Vector, x: Vector, z: Vector) returns (y: Vector)
    requires IsSquare(a, |b|) && Solves(a, b, x) && Solves(a, seq(|a|, _ => 0.0), z)
    ensures Solves(a, b, y) && forall c :: 0 <= c < |b| ==> y[c] == x[c] + z[c]
  {
    y := seq(|b|, k requires 0 <= k < |b| => x[k] + z[k]);
    var zero := seq(|a|, _ => 0.0);
    forall r | 0 <= r < |b| ensures Part(a[r], y, 0, |b|) == b[r] {
      PartOfASum(a[r], x, z, y, |b|);
      assert Part(a[r], z, 0, |b|) == zero[r];
    }
  }

  /** A system with exactly one solution is not singular. */
  lemma OneSolutionIsNotSingular(a: Matrix, b: Vector, x: Vector)
    requires IsSquare(a, |b|) && Solves(a, b, x) && forall y: Vector :: Solves(a, b, y) ==> y == x
    ensures !Singular(a)
  {
    if Singular(a) {
      var z: Vector :| Solves(a, seq(|a|, _ => 0.0), z) && exists c :: 0 <= c < |z| && z[c] != 0.0;
      var y := SumSolves(a, b, x, z);
    }
  }

  /** A row that only holds its own unknown still, as the optimizer's pinned rows do:
      every solution leaves that unknown at zero. */
  lemma PinnedUnknownStaysZero(a: Matrix, b: Vector, x: Vector, row: nat)
    requires IsSquare(a, |b|) && Solves(a, b, x) && row < |b| && b[row] == 0.0
    requires forall c :: 0 <= c < |b| ==> a[row][c] == (if c == row then 1.0 else 0.0)
    ensures x[row] == 0.0
  {
    PartOfAUnit(a[row], x, row, |b|);
  }

  lemma {:induction false} PartOfAUnit(u: Vector, x: Vector, row: nat, hi: nat)
    requires hi <= |u| && hi <= |x| && forall c :: 0 <= c < hi ==> u[c] == (if c == row then 1.0 else 0.0)
    ensures Part(u, x, 0, hi) == if row < hi then x[row] else 0.0
  {
    if hi > 0 {
      PartOfAUnit(u, x, row, hi - 1);
    }
  }

  // ── What the row operations leave of the given rows ─────────────────────────

  /** The first `i` rows map `z` to zero. */
  ghost predicate Vanishes(a: Matrix, z: Vector, i: nat)
    requires IsSquare(a, |z|) && i <= |z|
  {
    forall k :: 0 <= k < i ==> Part(a[k], z, 0, |z|) == 0.0
  }

  /** Row `q` of the given matrix is now row `at[q]`, less a combination of the first
      `i` rows: where those vanish the two agree. */
  ghost predicate Traced(m: Matrix, a: Matrix, at: seq<nat>, i: nat)
  {
    && |m| == |a| == |at| && IsSquare(m, |a|) && IsSquare(a, |a|) && i <= |a|
       && (forall q :: 0 <= q < |a| ==> at[q] < |a|)
    && forall z: Vector {:trigger Vanishes(a, z, i)} :: |z| == |a| && Vanishes(a, z, i) ==>
         forall q {:trigger m[q]} :: 0 <= q < |a| ==> Part(m[q], z, 0, |a|) == Part(a[at[q]], z, 0, |a|)
  }

  /** Every row in its own place. */
  function InPlace(n: nat): (at: seq<nat>)
    ensures |at| == n && forall q :: 0 <= q < n ==> at[q] == q
  {
    if n == 0 then [] else InPlace(n - 1) + [n - 1]
  }

  lemma TracedToItself(a: Matrix, i: nat)
    requires IsSquare(a, |a|) && i <= |a|
    ensures Traced(a, a, InPlace(|a|), i)
  {
  }

  /** Two rows have changed places. */
  function Exchanged(at: seq<nat>, i: nat, j: nat): (r: seq<nat>)
    ensures |r| == |at| && forall q ::
              0 <= q < |at| ==> r[q] == if at[q] == i then j else if at[q] == j then i else at[q]
  {
    if at == [] then []
    else
      var last := at[|at| - 1];
      Exchanged(at[..|at| - 1], i, j) + [if last == i then j else if last == j then i else last]
  }

  lemma TracedThroughASwap(m: Matrix, a: Matrix, at: seq<nat>, i: nat, j: nat)
    requires Traced(m, a, at, i) && i <= j < |a|
    ensures Traced(m, a[i := a[j]][j := a[i]], Exchanged(at, i, j), i)
  {
    var a' := a[i := a[j]][j := a[i]];
    forall z: Vector | |z| == |a| && Vanishes(a', z, i) ensures Vanishes(a, z, i) {
      assert forall k :: 0 <= k < i ==> a'[k] == a[k];
    }
  }

  /** One more row cleared by row `i`, which is done with. */
  lemma TracedThroughASubtraction(m: Matrix, a: Matrix, at: seq<nat>, i: nat, r: nat, f: real)
    requires Traced(m, a, at, i + 1) && i < r < |a|
    ensures Traced(m, a[r := Minus(a[r], f, a[i])], at, i + 1)
  {
    var a' := a[r := Minus(a[r], f, a[i])];
    forall z: Vector {:trigger Vanishes(a', z, i + 1)} | |z| == |a| && Vanishes(a', z, i + 1)
      ensures forall q {:trigger m[q]} :: 0 <= q < |a| ==> Part(m[q], z, 0, |a|) == Part(a'[at[q]], z, 0, |a|)
    {
      assert forall k :: 0 <= k <= i ==> a'[k] == a[k];
      assert Vanishes(a, z, i + 1);
      assert Part(a'[i], z, 0, |z|) == 0.0;
      PartOfADifference(a[r], f, a[i], z, 0, |a|);
    }
  }

  lemma TracedOneFurther(m: Matrix, a: Matrix, at: seq<nat>, i: nat)
    requires Traced(m, a, at, i) && i < |a|
    ensures Traced(m, a, at, i + 1)
  {
    forall z: Vector | |z| == |a| && Vanishes(a, z, i + 1) ensures Vanishes(a, z, i) {
      assert forall k :: 0 <= k < i ==> Part(a[k], z, 0, |z|) == 0.0;
    }
  }

  lemma TracedTwice(m: Matrix, mid: Matrix, a: Matrix, at: seq<nat>, i: nat)
    requires Traced(m, mid, at, i) && Traced(mid, a, InPlace(|mid|), i) && mid[..i] == a[..i]
    ensures Traced(m, a, at, i)
  {
    forall z: Vector {:trigger Vanishes(a, z, i)} | |z| == |a| && Vanishes(a, z, i)
      ensures forall q {:trigger m[q]} :: 0 <= q < |a| ==> Part(m[q], z, 0, |a|) == Part(a[at[q]], z, 0, |a|)
    {
      assert forall k :: 0 <= k < i ==> mid[k] == mid[..i][k] == a[k];
      assert Vanishes(mid, z, i);
      assert forall q :: 0 <= q < |a| ==> Part(mid[at[q]], z, 0, |a|) == Part(a[at[q]], z, 0, |a|);
    }
  }

  // ── Giving up ───────────────────────────────────────────────────────────────

  /** Every candidate pivot of column `i` is tiny. */
  ghost predicate NoPivot(a: Matrix, i: nat)
  {
    && i < |a| && IsSquare(a, |a|) && Triangular(a, i)
    && forall r :: i <= r < |a| ==> Magnitude(a[r][i]) < SINGULAR
  }

  /** A vector with one at `i`, nothing beyond it, and mapped to zero by the rows
      `lo..i` of a triangle. */
  lemma {:induction false} VanishingVector(a: Matrix, i: nat, lo: nat) returns (z: Vector)
    requires IsSquare(a, |a|) && lo <= i < |a| && Triangular(a, i)
    ensures |z| == |a| && z[i] == 1.0 && (forall c :: i < c < |a| ==> z[c] == 0.0)
    ensures forall k :: lo <= k < i ==> Part(a[k], z, 0, |a|) == 0.0
    decreases i - lo
  {
    if lo == i {
      z := seq(|a|, c => if c == i then 1.0 else 0.0);
    } else {
      var w := VanishingVector(a, i, lo + 1);
      assert a[lo][lo] != 0.0;
      var s := -Part(a[lo], w, lo + 1, |a|);
      z := w[lo := s / a[lo][lo]];
      QuotientTimes(s, a[lo][lo]);
      forall k | lo <= k < i ensures Part(a[k], z, 0, |a|) == 0.0 {
        TriangularRow(a, z, k);
        PartLooksAtItsRange(a[k], w, z, k + 1, |a|);
        if k > lo {
          TriangularRow(a, w, k);
        }
      }
    }
  }

  /** The given matrix with the rejected entries taken out of its column `i`. */
  function Lessened(m: Matrix, a: Matrix, at: seq<nat>, i: nat): (r: Matrix)
    requires |m| == |a| == |at| && i < |a| && IsSquare(m, |a|) && IsSquare(a, |a|) && forall q ::
              0 <= q < |a| ==> at[q] < |a|
    ensures IsSquare(r, |a|)
  {
    seq(|a|, q requires 0 <= q < |a| => if at[q] < i then m[q] else m[q][i := m[q][i] - a[at[q]][i]])
  }

  lemma {:induction false} PartWithout(u: Vector, i: nat, d: real, z: Vector, hi: nat)
    requires i < |u| && hi <= |u| == |z|
    ensures Part(u[i := u[i] - d], z, 0, hi) == Part(u, z, 0, hi) - (if i < hi then d * z[i] else 0.0)
  {
    if hi > 0 {
      PartWithout(u, i, d, z, hi - 1);
      assert (u[i] - d) * z[i] == u[i] * z[i] - d * z[i];
    }
  }

  lemma RowAtThePivot(a: Matrix, i: nat, r: nat, z: Vector)
    requires IsSquare(a, |a|) && i <= r < |a| == |z| && Triangular(a, i)
    requires z[i] == 1.0 && forall c :: i < c < |a| ==> z[c] == 0.0
    ensures Part(a[r], z, 0, |a|) == a[r][i]
  {
    PartSplits(a[r], z, 0, i, |a|);
    PartSplits(a[r], z, i, i + 1, |a|);
    PartOfZeros(a[r], z, i);
    PartOnZeros(a[r], z, i + 1, |a|);
    assert Part(a[r], z, i, i + 1) == a[r][i] * z[i];
  }

  lemma {:induction false} PartOnZeros(u: Vector, z: Vector, lo: nat, hi: nat)
    requires hi <= |u| == |z| && forall c :: lo <= c < hi ==> z[c] == 0.0
    ensures Part(u, z, lo, hi) == 0.0
  {
    if lo < hi {
      PartOnZeros(u, z, lo, hi - 1);
    }
  }

  /** Within 1e-12 of the matrix, entry by entry, there is a singular one. */
  ghost predicate NearlySingular(matrix: Matrix)
    requires IsSquare(matrix, |matrix|)
  {
    exists m: Matrix :: IsSquare(m, |matrix|) && Singular(m) && Close(m, matrix)
  }

  predicate Close(m: Matrix, matrix: Matrix)
    requires IsSquare(m, |matrix|) && IsSquare(matrix, |matrix|)
  {
    forall r, c {:trigger m[r][c]} ::
        0 <= r < |matrix| && 0 <= c < |matrix| ==> Magnitude(m[r][c] - matrix[r][c]) < SINGULAR
  }

  /** Without a pivot the given matrix is nearly singular. */
  lemma NoPivotIsNearlySingular(m: Matrix, a: Matrix, at: seq<nat>, i: nat)
    requires Traced(m, a, at, i) && NoPivot(a, i)
    ensures NearlySingular(m)
  {
    var n := |a|;
    var z := VanishingVector(a, i, 0);
    assert Vanishes(a, z, i);
    var less := Lessened(m, a, at, i);
    var zero := seq(n, _ => 0.0);
    forall q | 0 <= q < n ensures Part(less[q], z, 0, n) == zero[q] {
      assert Part(m[q], z, 0, n) == Part(a[at[q]], z, 0, n);
      if at[q] >= i {
        RowAtThePivot(a, i, at[q], z);
        PartWithout(m[q], i, a[at[q]][i], z, n);
      }
    }
    hide Part;
    assert Solves(less, zero, z) && z[i] != 0.0;
    assert Singular(less);
    assert Close(less, m);
  }

  // ── The solver ──────────────────────────────────────────────────────────────

  /** The row at or below `i` with the largest entry in column `i`. */
  method Pivot(a: array<Vector>, i: nat) returns (maxR: nat, maxV: real)
    requires i < a.Length && IsSquare(a[..], a.Length)
    ensures i <= maxR < a.Length && maxV == Magnitude(a[maxR][i])
    ensures forall r :: i <= r < a.Length ==> Magnitude(a[r][i]) <= maxV
  {
    assert forall r :: 0 <= r < a.Length ==> a[r] == a[..][r];
    maxR, maxV := i, Magnitude(a[i][i]);
    for r := i + 1 to a.Length
      invariant i <= maxR < a.Length && maxV == Magnitude(a[maxR][i])
      invariant forall k :: i <= k < r ==> Magnitude(a[k][i]) <= maxV
    {
      if Magnitude(a[r][i]) > maxV {
        maxR, maxV := r, Magnitude(a[r][i]);
      }
    }
  }

  /** Subtracts `f` times row `i` from row `r`, from column `i` on. */
  method SubtractRow(a: array<Vector>, r: nat, i: nat, f: real)
    requires i < a.Length && r < a.Length && r != i && IsSquare(a[..], a.Length)
    requires forall c :: 0 <= c < i ==> a[i][c] == 0.0
    modifies a
    ensures |old(a[r])| == |old(a[i])| && a[..] == old(a[..])[r := Minus(old(a[r]), f, old(a[i]))]
  {
    assert forall k :: 0 <= k < a.Length ==> a[k] == a[..][k];
    ghost var goal := Minus(a[r], f, a[i]);
    for c := i to a.Length
      invariant a[..] == old(a[..])[r := a[r]] && |a[r]| == a.Length
      invariant forall k :: 0 <= k < c ==> a[r][k] == goal[k]
      invariant forall k :: c <= k < a.Length ==> a[r][k] == old(a[r])[k]
    {
      assert a[i] == a[..][i] == old(a[i]);
      a[r] := a[r][c := a[r][c] - f * a[i][c]];
    }
    assert a[r] == goal;
  }

  /** Clears column `i` below the diagonal. */
  method EliminateColumn(a: array<Vector>, b: array<real>, i: nat)
    requires a.Length == b.Length && i < a.Length
    requires IsSquare(a[..], a.Length) && Triangular(a[..], i) && a[i][i] != 0.0
    modifies a, b
    ensures IsSquare(a[..], a.Length) && Triangular(a[..], i + 1)
    ensures Equivalent(old(a[..]), old(b[..]), a[..], b[..])
    ensures Traced(old(a[..]), a[..], InPlace(a.Length), i + 1) && old(a[..])[..i + 1] == a[..i + 1]
  {
    hide Equivalent, Minus, Traced, InPlace;
    ghost var n := a.Length;
    ghost var a0, b0 := a[..], b[..];
    EquivalentToItself(a0, b0);
    TracedToItself(a0, i + 1);
    for r := i + 1 to a.Length
      invariant IsSquare(a[..], n) && Triangular(a[..], i)
      invariant Equivalent(a0, b0, a[..], b[..])
      invariant Traced(a0, a[..], InPlace(n), i + 1) && a0[..i + 1] == a[..i + 1]
      invariant a[i] == a0[i] && a[i][i] != 0.0
      invariant forall k :: i < k < r ==> a[..][k][i] == 0.0
    {
      ghost var was, bWas := a[..], b[..];
      assert a[r] == was[r] && a[i] == was[i];
      var f := a[r][i] / a[i][i];
      if f == 0.0 {
        ZeroFactor(a[r][i], a[i][i]);
        continue;
      }
      SubtractRow(a, r, i, f);
      var reduced := b[r] - f * b[i];
      b[r] := reduced;
      assert b[..] == bWas[r := reduced];
      EliminationKeepsTheSolutions(was, bWas, r, f, i, reduced);
      EquivalentIsTransitive(a0, b0, was, bWas, a[..], b[..]);
      SubtractionKeepsTheTriangle(was, r, i, f);
      TracedThroughASubtraction(a0, was, InPlace(n), i, r, f);
    }
  }

  lemma EquivalentToItself(a: Matrix, b: Vector)
    requires IsSquare(a, |b|)
    ensures Equivalent(a, b, a, b)
  {
  }

  lemma ZeroFactor(v: real, p: real)
    requires p != 0.0 && v / p == 0.0
    ensures v == 0.0
  {
  }

  lemma SubtractionKeepsTheTriangle(a: Matrix, r: nat, i: nat, f: real)
    requires IsSquare(a, |a|) && i < r < |a| && Triangular(a, i) && a[i][i] != 0.0 && f == a[r][i] / a[i][i]
    ensures var a' := a[r := Minus(a[r], f, a[i])];
            IsSquare(a', |a|) && Triangular(a', i) && a'[r][i] == 0.0
  {
  }

  method BackSubstitute(a: array<Vector>, b: array<real>) returns (x: array<real>)
    requires a.Length == b.Length && IsSquare(a[..], a.Length) && Triangular(a[..], a.Length)
    ensures fresh(x) && Solves(a[..], b[..], x[..])
  {
    var n := b.Length;
    ghost var rows := a[..];
    x := new real[n](_ => 0.0);
    for i := n downto 0
      invariant forall r :: i <= r < n ==> Part(rows[r], x[..], 0, n) == b[r]
    {
      var s := b[i];
      for c := i + 1 to n
        invariant s == b[i] - Part(rows[i], x[..], i + 1, c)
      {
        assert a[i] == rows[i];
        s := s - a[i][c] * x[c];
      }
      assert a[i] == rows[i] && rows[i][i] != 0.0;
      ghost var was := x[..];
      x[i] := s / a[i][i];
      SubstitutionSolvesARow(rows, b[..], was, x[..], i);
    }
  }

  lemma SubstitutionSolvesARow(a: Matrix, b: Vector, was: Vector, x: Vector, i: nat)
    requires IsSquare(a, |b|) && Triangular(a, |b|) && i < |b| == |was|
    requires a[i][i] != 0.0 && x == was[i := (b[i] - Part(a[i], was, i + 1, |b|)) / a[i][i]]
    requires forall r :: i < r < |b| ==> Part(a[r], was, 0, |b|) == b[r]
    ensures forall r :: i <= r < |b| ==> Part(a[r], x, 0, |b|) == b[r]
  {
    forall r | i <= r < |b| ensures Part(a[r], x, 0, |b|) == b[r] {
      TriangularRow(a, x, r);
      PartLooksAtItsRange(a[r], was, x, r + 1, |b|);
      if r == i {
        var s := b[i] - Part(a[i], was, i + 1, |b|);
        QuotientTimes(s, a[i][i]);
        assert Times(a[r][r], x[r]) == s;
      } else {
        TriangularRow(a, was, r);
        assert x[r] == was[r] && Part(a[r], was, 0, |b|) == b[r];
      }
    }
  }

  lemma QuotientTimes(s: real, p: real)
    requires p != 0.0
    ensures Times(p, s / p) == s
  {
  }

  lemma TriangularAtFirst(a: Matrix)
    requires IsSquare(a, |a|)
    ensures Triangular(a, 0)
  {
  }

  lemma SwapKeepsTheTriangle(a: Matrix, i: nat, j: nat)
    requires IsSquare(a, |a|) && i <= j < |a| && Triangular(a, i)
    ensures var a' := a[i := a[j]][j := a[i]]; IsSquare(a', |a|) && Triangular(a', i)
  {
  }

  lemma TheOneSolution(a: Matrix, b: Vector, a': Matrix, b': Vector, x: Vector)
    requires Equivalent(a, b, a', b') && Triangular(a', |b|) && Solves(a', b', x)
    ensures Solves(a, b, x) && !Singular(a) && forall y: Vector :: Solves(a, b, y) ==> y == x
  {
    forall y: Vector | Solves(a, b, y) ensures y == x {
      TriangularIsUnique(a', b', x, y, 0);
    }
    OneSolutionIsNotSingular(a, b, x);
  }

  /** The solver. A vector it returns is the one solution of the given system; a
      singular matrix gets none; and only a matrix within 1e-12 of a singular one,
      entry by entry, can get none. */
  method Solve(matrix: Matrix, rhs: Vector) returns (answer: Option<Vector>)
    requires IsSquare(matrix, |rhs|)
    ensures answer.Some? ==> Solves(matrix, rhs, answer.value) && forall y: Vector ::
              Solves(matrix, rhs, y) ==> y == answer.value
    ensures Singular(matrix) ==> answer.None?
    ensures answer.None? ==> NearlySingular(matrix)
  {
    hide Solves, Equivalent, Triangular, Traced, NearlySingular;
    var n := |rhs|;
    var a := new Vector[n](r requires 0 <= r < n => matrix[r]);
    var b := new real[n](r requires 0 <= r < n => rhs[r]);
    assert a[..] == matrix && b[..] == rhs;
    ghost var at: seq<nat> := InPlace(n);
    EquivalentToItself(matrix, rhs);
    TriangularAtFirst(matrix);
    TracedToItself(matrix, 0);
    for i := 0 to n
      invariant IsSquare(a[..], n) && Triangular(a[..], i)
      invariant Equivalent(matrix, rhs, a[..], b[..])
      invariant |at| == n && Traced(matrix, a[..], at, i)
    {
      ghost var was, bWas := a[..], b[..];
      var maxR, maxV := Pivot(a, i);
      if maxV < SINGULAR {
        assert NoPivot(was, i);
        NoPivotIsNearlySingular(matrix, was, at, i);
        return None;
      }
      if maxR != i {
        a[i], a[maxR] := a[maxR], a[i];
        b[i], b[maxR] := b[maxR], b[i];
        SwapKeepsTheSolutions(was, bWas, i, maxR);
        EquivalentIsTransitive(matrix, rhs, was, bWas, a[..], b[..]);
        SwapKeepsTheTriangle(was, i, maxR);
        TracedThroughASwap(matrix, was, at, i, maxR);
        at := Exchanged(at, i, maxR);
      }
      ghost var mid, bMid := a[..], b[..];
      assert a[i][i] != 0.0;
      TracedOneFurther(matrix, mid, at, i);
      EliminateColumn(a, b, i);
      EquivalentIsTransitive(matrix, rhs, mid, bMid, a[..], b[..]);
      TracedTwice(matrix, mid, a[..], at, i + 1);
    }
    var x := BackSubstitute(a, b);
    TheOneSolution(matrix, rhs, a[..], b[..], x[..]);
    return Some(x[..]);
  }
}
