/** The normal equations of a pose graph, `maploc/src/optimizer.rs`: what every edge adds
    to the matrix and the vector, the damping, the pinning of held nodes, and what the
    solution means. A matrix is known by its bilinear form. */
module NormalEquations {
  import opened Reals
  import opened LinearAlgebra
  import opened LinearSolver
  import opened PoseGraphs

  /** An edge linearized: how its residual `r` changes with the poses of its two nodes. */
  datatype Term = Term(from: nat, to: nat, ja: Mat3, jb: Mat3, info: Mat3, r: Vec3)
  {
    predicate Fits(n: nat)
    {
      3 * from + 3 <= n && 3 * to + 3 <= n
    }
  }

  ghost predicate AllFit(ts: seq<Term>, n: nat)
  {
    forall k :: 0 <= k < |ts| ==> ts[k].Fits(n)
  }

  // ── Bilinear forms ──────────────────────────────────────────────────────────

  /** The first `n` rows of `a` between `x` and `y`. */
  ghost function Bil(a: Matrix, x: Vector, y: Vector, n: nat): real
    requires n <= |a| && n <= |x| && forall r :: 0 <= r < n ==> |a[r]| == |y|
  {
    if n == 0 then 0.0 else Bil(a, x, y, n - 1) + Times(x[n - 1], Part(a[n - 1], y, 0, |y|))
  }

  /** One entry raised by `v`. */
  ghost function Raised(a: Matrix, r: nat, c: nat, v: real): (b: Matrix)
    requires IsSquare(a, |a|) && r < |a| && c < |a|
    ensures |b| == |a| && IsSquare(b, |b|)
  {
    a[r := a[r][c := a[r][c] + v]]
  }

  lemma {:induction false} BilOfRaised(a: Matrix, r: nat, c: nat, v: real, x: Vector, y: Vector, n: nat)
    requires IsSquare(a, |y|) && |x| == |y| && r < |y| && c < |y| && n <= |y|
    ensures Bil(Raised(a, r, c, v), x, y, n) == Bil(a, x, y, n) + if r < n then Times(v, Times(x[r], y[c])) else 0.0
  {
    if n > 0 {
      BilOfRaised(a, r, c, v, x, y, n - 1);
      if r == n - 1 {
        PartWithout(a[r], c, -v, y, |y|);
        Spread(x[r], Part(a[r], y, 0, |y|), v, y[c]);
      }
    }
  }

  lemma Spread(x: real, p: real, v: real, y: real)
    ensures Times(x, p + v * y) == Times(x, p) + Times(v, Times(x, y))
  {
  }

  lemma {:induction false} BilOfZeros(a: Matrix, x: Vector, y: Vector, n: nat)
    requires IsSquare(a, |y|) && |x| == |y| && n <= |y| && forall r, c ::
              0 <= r < |y| && 0 <= c < |y| ==> a[r][c] == 0.0
    ensures Bil(a, x, y, n) == 0.0
  {
    if n > 0 {
      BilOfZeros(a, x, y, n - 1);
      PartOfZeros(a[n - 1], y, |y|);
    }
  }

  // ── What an edge adds ───────────────────────────────────────────────────────

  function Block(x: Vector, k: nat): Vec3
    requires 3 * k + 3 <= |x|
  {
    Vec3(x[3 * k], x[3 * k + 1], x[3 * k + 2])
  }

  function Coord(v: Vec3, i: nat): real
    requires i < 3
  {
    if i == 0 then v.x else if i == 1 then v.y else v.z
  }

  function Entry(m: Mat3, i: nat, j: nat): real
    requires i < 3 && j < 3
  {
    Coord(if i == 0 then m.r0 else if i == 1 then m.r1 else m.r2, j)
  }

  /** The first `q` of the nine products of a block, row by row. */
  ghost function Products(m: Mat3, u: Vec3, v: Vec3, q: nat): real
    requires q <= 9
  {
    if q == 0 then 0.0
    else
      var (i, j) := ((q - 1) / 3, (q - 1) % 3);
      Products(m, u, v, q - 1) + Times(Entry(m, i, j), Times(Coord(u, i), Coord(v, j)))
  }

  lemma ProductsAreTheForm(m: Mat3, u: Vec3, v: Vec3)
    ensures Products(m, u, v, 9) == Dot(u, Apply(m, v))
  {
    RowProducts(m, u, v, 0);
    RowProducts(m, u, v, 1);
    RowProducts(m, u, v, 2);
    hide Products;
    RowForm(m.r0, u.x, v);
    RowForm(m.r1, u.y, v);
    RowForm(m.r2, u.z, v);
  }

  lemma RowProducts(m: Mat3, u: Vec3, v: Vec3, i: nat)
    requires i < 3
    ensures Products(m, u, v, 3 * i + 3) == Products(m, u, v, 3 * i) + Times(Entry(m, i, 0), Times(Coord(u, i), v.x))
                                            + Times(Entry(m, i, 1), Times(Coord(u, i), v.y))
                                                + Times(Entry(m, i, 2), Times(Coord(u, i), v.z))
  {
    hide Entry;
    assert Products(m, u, v, 3 * i + 2) == Products(m, u, v, 3 * i + 1)
        + Times(Entry(m, i, 1), Times(Coord(u, i), v.y));
  }

  lemma RowForm(row: Vec3, u: real, v: Vec3)
    ensures Times(row.x, Times(u, v.x)) + Times(row.y, Times(u, v.y)) + Times(row.z, Times(u, v.z)) == u * Dot(row, v)
  {
  }

  function Haa(t: Term): Mat3 { Mul(Transpose(t.ja), Mul(t.info, t.ja)) }

  function Hbb(t: Term): Mat3 { Mul(Transpose(t.jb), Mul(t.info, t.jb)) }

  function Hab(t: Term): Mat3 { Mul(Transpose(t.ja), Mul(t.info, t.jb)) }

  /** What an edge has added to the form when `q` entries of its blocks are in. */
  ghost function Partial(t: Term, x: Vector, y: Vector, q: nat): real
    requires t.Fits(|x|) && t.Fits(|y|) && q <= 9
  {
    var (xf, xt, yf, yt) := (Block(x, t.from), Block(x, t.to), Block(y, t.from), Block(y, t.to));
    Products(Haa(t), xf, yf, q) + Products(Hbb(t), xt, yt, q) + Products(Hab(t), xf, yt, q)
        + Products(Transpose(Hab(t)), xt, yf, q)
  }

  /** The first `q` entries of the blocks of `t` are in. */
  ghost predicate Grown(before: Matrix, after: Matrix, t: Term, q: nat)
  {
    && q <= 9 && t.Fits(|before|) && IsSquare(before, |before|) && IsSquare(after, |before|)
    && forall x: Vector, y: Vector {:trigger Bil(after, x, y, |before|)} :: |x| == |y| == |before| ==>
         Bil(after, x, y, |before|) == Bil(before, x, y, |before|) + Partial(t, x, y, q)
  }

  /** The four entries the blocks of `t` have at (i, j). */
  ghost function RaisedAt(a: Matrix, t: Term, i: nat, j: nat): (b: Matrix)
    requires IsSquare(a, |a|) && t.Fits(|a|) && i < 3 && j < 3
    ensures IsSquare(b, |a|)
  {
    var (f, o) := (3 * t.from, 3 * t.to);
    var a1 := Raised(a, f + i, f + j, Entry(Haa(t), i, j));
    var a2 := Raised(a1, o + i, o + j, Entry(Hbb(t), i, j));
    var a3 := Raised(a2, f + i, o + j, Entry(Hab(t), i, j));
    Raised(a3, o + i, f + j, Entry(Hab(t), j, i))
  }

  lemma GrownByOne(before: Matrix, a: Matrix, t: Term, i: nat, j: nat)
    requires i < 3 && j < 3 && Grown(before, a, t, 3 * i + j)
    ensures Grown(before, RaisedAt(a, t, i, j), t, 3 * i + j + 1)
  {
    hide Haa, Hbb, Hab, Times, Bil, Raised;
    var n := |before|;
    forall x: Vector, y: Vector | |x| == |y| == n
      ensures Bil(RaisedAt(a, t, i, j), x, y, n) == Bil(before, x, y, n) + Partial(t, x, y, 3 * i + j + 1)
    {
      RaisedAtForm(a, t, i, j, x, y);
      PartialOneMore(t, x, y, i, j);
      hide RaisedAt, Partial;
      assert Bil(a, x, y, n) == Bil(before, x, y, n) + Partial(t, x, y, 3 * i + j);
    }
  }

  ghost function Four(t: Term, x: Vector, y: Vector, i: nat, j: nat): real
    requires t.Fits(|x|) && t.Fits(|y|) && i < 3 && j < 3
  {
    var (f, o) := (3 * t.from, 3 * t.to);
    Times(Entry(Haa(t), i, j), Times(x[f + i], y[f + j])) + Times(Entry(Hbb(t), i, j), Times(x[o + i], y[o + j]))
    + Times(Entry(Hab(t), i, j), Times(x[f + i], y[o + j])) + Times(Entry(Hab(t), j, i), Times(x[o + i], y[f + j]))
  }

  lemma RaisedAtForm(a: Matrix, t: Term, i: nat, j: nat, x: Vector, y: Vector)
    requires IsSquare(a, |a|) && t.Fits(|a|) && i < 3 && j < 3 && |x| == |y| == |a|
    ensures Bil(RaisedAt(a, t, i, j), x, y, |a|) == Bil(a, x, y, |a|) + Four(t, x, y, i, j)
  {
    hide Haa, Hbb, Hab, Times, Bil, Raised, Entry, IsSquare;
    var (f, o) := (3 * t.from, 3 * t.to);
    FourRaises(a, f + i, o + i, f + j, o + j, Entry(Haa(t), i, j), Entry(Hbb(t), i, j), Entry(Hab(t), i, j),
        Entry(Hab(t), j, i), x, y);
  }

  lemma FourRaises(a: Matrix, r: nat, s: nat, c: nat, d: nat, rc: real, sd: real, rd: real, sc: real, x: Vector,
      y: Vector)
    requires IsSquare(a, |a|) && r < |a| && s < |a| && c < |a| && d < |a| && |x| == |y| == |a|
    ensures Bil(Raised(Raised(Raised(Raised(a, r, c, rc), s, d, sd), r, d, rd), s, c, sc), x, y, |a|)
         == Bil(a, x, y, |a|) + Times(rc, Times(x[r], y[c])) + Times(sd, Times(x[s], y[d]))
             + Times(rd, Times(x[r], y[d])) + Times(sc, Times(x[s], y[c]))
  {
    hide Times, Bil, Raised, IsSquare;
    var n := |a|;
    var a1 := Raised(a, r, c, rc);
    var a2 := Raised(a1, s, d, sd);
    var a3 := Raised(a2, r, d, rd);
    BilOfRaised(a, r, c, rc, x, y, n);
    BilOfRaised(a1, s, d, sd, x, y, n);
    BilOfRaised(a2, r, d, rd, x, y, n);
    BilOfRaised(a3, s, c, sc, x, y, n);
  }

  lemma PartialOneMore(t: Term, x: Vector, y: Vector, i: nat, j: nat)
    requires t.Fits(|x|) && t.Fits(|y|) && i < 3 && j < 3
    ensures Partial(t, x, y, 3 * i + j + 1) == Partial(t, x, y, 3 * i + j) + Four(t, x, y, i, j)
  {
    hide Haa, Hbb, Hab, Times;
    var (xf, xt, yf, yt) := (Block(x, t.from), Block(x, t.to), Block(y, t.from), Block(y, t.to));
    assert (3 * i + j) / 3 == i && (3 * i + j) % 3 == j;
    BlockCoord(x, t.from, i);
    BlockCoord(x, t.to, i);
    BlockCoord(y, t.from, j);
    BlockCoord(y, t.to, j);
    EntryOfATranspose(Hab(t), i, j);
    hide Block, Coord, Entry, Transpose;
  }

  lemma BlockCoord(x: Vector, k: nat, i: nat)
    requires 3 * k + 3 <= |x| && i < 3
    ensures Coord(Block(x, k), i) == x[3 * k + i]
  {
  }

  lemma EntryOfATranspose(m: Mat3, i: nat, j: nat)
    requires i < 3 && j < 3
    ensures Entry(Transpose(m), i, j) == Entry(m, j, i)
  {
  }

  /** How the residual of `t` changes along `x`. */
  function Change(t: Term, x: Vector): Vec3
    requires t.Fits(|x|)
  {
    Plus(Apply(t.ja, Block(x, t.from)), Apply(t.jb, Block(x, t.to)))
  }

  /** What an edge adds to the form. The two blocks off the diagonal are transposes of
      each other, so one of them has the information transposed. */
  function Coupling(t: Term, x: Vector, y: Vector): real
    requires t.Fits(|x|) && t.Fits(|y|)
  {
    var (xa, xb) := (Apply(t.ja, Block(x, t.from)), Apply(t.jb, Block(x, t.to)));
    var (ya, yb) := (Apply(t.ja, Block(y, t.from)), Apply(t.jb, Block(y, t.to)));
    Dot(xa, Apply(t.info, ya)) + Dot(xb, Apply(t.info, yb)) + Dot(xa, Apply(t.info, yb))
        + Dot(xb, Apply(Transpose(t.info), ya))
  }

  lemma PartialIsTheCoupling(t: Term, x: Vector, y: Vector)
    requires t.Fits(|x|) && t.Fits(|y|)
    ensures Partial(t, x, y, 9) == Coupling(t, x, y)
  {
    hide Products, Block, Mul, Apply, Dot, Transpose;
    var (xf, xt, yf, yt) := (Block(x, t.from), Block(x, t.to), Block(y, t.from), Block(y, t.to));
    BlockForm(t.ja, t.info, t.ja, xf, yf);
    BlockForm(t.jb, t.info, t.jb, xt, yt);
    BlockForm(t.ja, t.info, t.jb, xf, yt);
    TransposedBlockForm(t.ja, t.info, t.jb, xt, yf);
  }

  lemma BlockForm(p: Mat3, w: Mat3, q: Mat3, u: Vec3, v: Vec3)
    ensures Products(Mul(Transpose(p), Mul(w, q)), u, v, 9) == Dot(Apply(p, u), Apply(w, Apply(q, v)))
  {
    hide Products, Mul, Apply, Dot, Transpose;
    var m := Mul(w, q);
    ProductsAreTheForm(Mul(Transpose(p), m), u, v);
    MulApplies(Transpose(p), m, v);
    MulApplies(w, q, v);
    TransposeMoves(Transpose(p), u, Apply(m, v));
    TwiceTransposed(p);
  }

  lemma TwiceTransposed(p: Mat3)
    ensures Transpose(Transpose(p)) == p
  {
  }

  lemma TransposedBlockForm(p: Mat3, w: Mat3, q: Mat3, u: Vec3, v: Vec3)
    ensures Products(Transpose(Mul(Transpose(p), Mul(w, q))), u, v, 9) == Dot(Apply(q, u),
              Apply(Transpose(w), Apply(p, v)))
  {
    hide Products, Mul, Apply, Dot, Transpose;
    TransposeOfAProduct(Transpose(p), Mul(w, q));
    TransposeOfAProduct(w, q);
    TwiceTransposed(p);
    MulIsAssociative(Transpose(q), Transpose(w), p);
    BlockForm(q, Transpose(w), p, u, v);
  }

  /** With symmetric information an edge adds the information between the two changes. */
  lemma CouplingIsTheInformation(t: Term, x: Vector, y: Vector)
    requires t.Fits(|x|) && t.Fits(|y|) && IsSymmetric(t.info)
    ensures Coupling(t, x, y) == Dot(Change(t, x), Apply(t.info, Change(t, y)))
  {
    hide Apply, Dot, Transpose, Block, Plus;
    var (xa, xb) := (Apply(t.ja, Block(x, t.from)), Apply(t.jb, Block(x, t.to)));
    var (ya, yb) := (Apply(t.ja, Block(y, t.from)), Apply(t.jb, Block(y, t.to)));
    SymmetricIsItsTranspose(t.info);
    ApplyIsLinear(t.info, ya, yb);
    var (wa, wb) := (Apply(t.info, ya), Apply(t.info, yb));
    DotIsBilinear(Plus(wa, wb), xa, xb);
    DotIsBilinear(Plus(xa, xb), wa, wb);
    DotIsBilinear(xa, wa, wb);
    DotIsBilinear(xb, wa, wb);
  }

  // ── Assembling ──────────────────────────────────────────────────────────────

  /** The first `k` edges between `x` and `y`. */
  ghost function EdgesBil(ts: seq<Term>, k: nat, x: Vector, y: Vector): real
    requires k <= |ts| && AllFit(ts, |x|) && |y| == |x|
  {
    if k == 0 then 0.0 else EdgesBil(ts, k - 1, x, y) + Coupling(ts[k - 1], x, y)
  }

  /** The first `k` edges' residuals, weighted, along `x`. */
  ghost function EdgesLin(ts: seq<Term>, k: nat, x: Vector): real
    requires k <= |ts| && AllFit(ts, |x|)
  {
    if k == 0 then 0.0 else EdgesLin(ts, k - 1, x) + Dot(Change(ts[k - 1], x), Apply(ts[k - 1].info, ts[k - 1].r))
  }

  /** The matrix of the first `k` edges, with the damping of the first `d` unknowns. */
  ghost predicate IsMatrixOf(a: Matrix, ts: seq<Term>, k: nat, lambda: real, d: nat)
  {
    && k <= |ts| && AllFit(ts, |a|) && IsSquare(a, |a|) && d <= |a|
    && forall x: Vector, y: Vector {:trigger Bil(a, x, y, |a|)} :: |x| == |y| == |a| ==>
         Bil(a, x, y, |a|) == EdgesBil(ts, k, x, y) + Times(lambda, Part(x, y, 0, d))
  }

  ghost predicate IsVectorOf(g: Vector, ts: seq<Term>, k: nat)
  {
    && k <= |ts| && AllFit(ts, |g|)
    && forall x: Vector {:trigger Part(g, x, 0, |g|)} :: |x| == |g| ==> Part(g, x, 0, |g|) == EdgesLin(ts, k, x)
  }

  lemma GrownIsTheNextMatrix(before: Matrix, after: Matrix, ts: seq<Term>, k: nat, lambda: real)
    requires k < |ts| && IsMatrixOf(before, ts, k, lambda, 0) && Grown(before, after, ts[k], 9)
    ensures IsMatrixOf(after, ts, k + 1, lambda, 0)
  {
    hide Partial, Coupling, Bil, Times;
    var n := |before|;
    forall x: Vector, y: Vector | |x| == |y| == n
      ensures Bil(after, x, y, n) == EdgesBil(ts, k + 1, x, y) + Times(lambda, Part(x, y, 0, 0))
    {
      PartialIsTheCoupling(ts[k], x, y);
      assert Bil(before, x, y, n) == EdgesBil(ts, k, x, y) + Times(lambda, Part(x, y, 0, 0));
    }
  }

  lemma GrownIsTheNextVector(before: Vector, after: Vector, ts: seq<Term>, k: nat)
    requires k < |ts| && IsVectorOf(before, ts, k) && VectorGrown(before, after, ts[k], Apply(ts[k].info, ts[k].r), 3)
    ensures IsVectorOf(after, ts, k + 1)
  {
    hide Part, Apply, Dot, Change;
    var t := ts[k];
    forall x: Vector | |x| == |before| ensures Part(after, x, 0, |before|) == EdgesLin(ts, k + 1, x) {
      PartialLinIsTheChange(t, Apply(t.info, t.r), x);
      assert Part(before, x, 0, |before|) == EdgesLin(ts, k, x);
    }
  }

  lemma NothingAssembled(a: Matrix, g: Vector, ts: seq<Term>, lambda: real)
    requires IsSquare(a, |g|) && AllFit(ts, |g|)
    requires forall r, c :: 0 <= r < |g| && 0 <= c < |g| ==> a[r][c] == 0.0
    requires forall r :: 0 <= r < |g| ==> g[r] == 0.0
    ensures IsMatrixOf(a, ts, 0, lambda, 0) && IsVectorOf(g, ts, 0)
  {
    forall x: Vector, y: Vector | |x| == |y| == |a| ensures Bil(a, x, y, |a|) == 0.0 {
      BilOfZeros(a, x, y, |a|);
    }
    forall x: Vector | |x| == |g| ensures Part(g, x, 0, |g|) == 0.0 {
      PartOfZeros(g, x, |g|);
    }
    hide Bil;
    assert Times(lambda, 0.0) == 0.0;
  }

  lemma SquareMatrix(a: Matrix, ts: seq<Term>, lambda: real)
    requires IsMatrixOf(a, ts, |ts|, lambda, |a|)
    ensures IsSquare(a, |a|)
  {
  }

  /** Sets every entry to zero. */
  method Reset(h: array<Vector>, bv: array<real>)
    requires h.Length == bv.Length && IsSquare(h[..], h.Length)
    modifies h, bv
    ensures IsSquare(h[..], h.Length) && (forall r, c :: 0 <= r < h.Length && 0 <= c < h.Length ==> h[..][r][c] == 0.0)
    ensures forall r :: 0 <= r < bv.Length ==> bv[r] == 0.0
  {
    var dim := h.Length;
    for r := 0 to dim
      invariant IsSquare(h[..], dim)
      invariant forall k, c :: 0 <= k < r && 0 <= c < dim ==> h[..][k][c] == 0.0
    {
      ghost var was := h[..];
      for c := 0 to dim
        invariant h[..] == was[r := h[r]] && |h[r]| == dim
        invariant forall k :: 0 <= k < c ==> h[r][k] == 0.0
      {
        h[r] := h[r][c := 0.0];
      }
    }
    ghost var cleared := h[..];
    for r := 0 to dim
      invariant h[..] == cleared
      invariant forall k :: 0 <= k < r ==> bv[k] == 0.0
    {
      bv[r] := 0.0;
    }
  }

  method Raise(h: array<Vector>, r: nat, c: nat, v: real)
    requires r < h.Length && c < h.Length && IsSquare(h[..], h.Length)
    modifies h
    ensures IsSquare(h[..], h.Length) && h[..] == Raised(old(h[..]), r, c, v)
  {
    assert h[..][r] == h[r];
    h[r] := h[r][c := h[r][c] + v];
  }

  /** What `i` rows of an edge add to the vector. */
  ghost function PartialLin(t: Term, w: Vec3, x: Vector, i: nat): real
    requires t.Fits(|x|) && i <= 3
  {
    if i == 0 then 0.0
    else
      PartialLin(t, w, x, i - 1)
      + Times(Coord(Apply(Transpose(t.ja), w), i - 1), Coord(Block(x, t.from), i - 1))
          + Times(Coord(Apply(Transpose(t.jb), w), i - 1), Coord(Block(x, t.to), i - 1))
  }

  lemma PartialLinIsTheChange(t: Term, w: Vec3, x: Vector)
    requires t.Fits(|x|)
    ensures PartialLin(t, w, x, 3) == Dot(Change(t, x), w)
  {
    var (ba, bb, xf, xt) := (Apply(Transpose(t.ja), w), Apply(Transpose(t.jb), w), Block(x, t.from), Block(x, t.to));
    ThreeParts(t, w, x);
    hide PartialLin, Apply, Transpose, Block, Plus;
    TransposeMoves(t.ja, w, xf);
    TransposeMoves(t.jb, w, xt);
    DotIsBilinear(w, Apply(t.ja, xf), Apply(t.jb, xt));
  }

  lemma ThreeParts(t: Term, w: Vec3, x: Vector)
    requires t.Fits(|x|)
    ensures PartialLin(t, w, x, 3) == Dot(Apply(Transpose(t.ja), w), Block(x, t.from))
              + Dot(Apply(Transpose(t.jb), w), Block(x, t.to))
  {
    hide Apply, Transpose, Block;
    assert PartialLin(t, w, x, 2) == PartialLin(t, w, x, 1)
      + Times(Coord(Apply(Transpose(t.ja), w), 1), Coord(Block(x, t.from), 1))
          + Times(Coord(Apply(Transpose(t.jb), w), 1), Coord(Block(x, t.to), 1));
  }

  /** The first `i` rows of `t` are in the vector. */
  ghost predicate VectorGrown(before: Vector, after: Vector, t: Term, w: Vec3, i: nat)
  {
    && i <= 3 && t.Fits(|before|) && |after| == |before|
    && forall x: Vector {:trigger Part(after, x, 0, |before|)} :: |x| == |before| ==>
         Part(after, x, 0, |before|) == Part(before, x, 0, |before|) + PartialLin(t, w, x, i)
  }

  ghost function VectorRaised(g: Vector, k: nat, v: real): (r: Vector)
    requires k < |g|
    ensures |r| == |g|
  {
    g[k := g[k] + v]
  }

  lemma VectorGrownByOne(before: Vector, g: Vector, t: Term, w: Vec3, i: nat)
    requires i < 3 && VectorGrown(before, g, t, w, i)
    ensures var (p, q) := (Coord(Apply(Transpose(t.ja), w), i), Coord(Apply(Transpose(t.jb), w), i));
            VectorGrown(before, VectorRaised(VectorRaised(g, 3 * t.from + i, p), 3 * t.to + i, q), t, w, i + 1)
  {
    hide Apply, Transpose, Part;
    var n := |before|;
    var (p, q) := (Coord(Apply(Transpose(t.ja), w), i), Coord(Apply(Transpose(t.jb), w), i));
    var mid := VectorRaised(g, 3 * t.from + i, p);
    var last := VectorRaised(mid, 3 * t.to + i, q);
    forall x: Vector | |x| == n ensures Part(last, x, 0, n) == Part(before, x, 0, n) + PartialLin(t, w, x, i + 1) {
      PartWithout(g, 3 * t.from + i, -p, x, n);
      PartWithout(mid, 3 * t.to + i, -q, x, n);
      BlockCoord(x, t.from, i);
      BlockCoord(x, t.to, i);
      hide Block, Coord;
      assert Part(g, x, 0, n) == Part(before, x, 0, n) + PartialLin(t, w, x, i);
    }
  }

  /** An edge's blocks into the matrix, and its weighted residual into the vector. */
  method AddTerm(h: array<Vector>, bv: array<real>, t: Term)
    requires h.Length == bv.Length && IsSquare(h[..], h.Length) && t.Fits(h.Length)
    modifies h, bv
    ensures IsSquare(h[..], h.Length) && Grown(old(h[..]), h[..], t, 9)
    ensures VectorGrown(old(bv[..]), bv[..], t, Apply(t.info, t.r), 3)
  {
    hide Grown, VectorGrown, Haa, Hbb, Hab, Apply, Transpose, Entry, Coord;
    ghost var (a0, g0, dim) := (h[..], bv[..], h.Length);
    var (haa, hbb, hab) := (Haa(t), Hbb(t), Hab(t));
    var w := Apply(t.info, t.r);
    var (ba, bb) := (Apply(Transpose(t.ja), w), Apply(Transpose(t.jb), w));
    var (f, o) := (3 * t.from, 3 * t.to);
    NothingGrown(a0, t);
    NothingGrownInTheVector(g0, t, w);
    for i := 0 to 3
      invariant IsSquare(h[..], dim) && Grown(a0, h[..], t, 3 * i)
      invariant VectorGrown(g0, bv[..], t, w, i)
    {
      ghost var g := bv[..];
      for j := 0 to 3
        invariant IsSquare(h[..], dim) && Grown(a0, h[..], t, 3 * i + j) && bv[..] == g
      {
        GrownByOne(a0, h[..], t, i, j);
        Raise(h, f + i, f + j, Entry(haa, i, j));
        Raise(h, o + i, o + j, Entry(hbb, i, j));
        Raise(h, f + i, o + j, Entry(hab, i, j));
        Raise(h, o + i, f + j, Entry(hab, j, i));
      }
      VectorGrownByOne(g0, bv[..], t, w, i);
      bv[f + i] := bv[f + i] + Coord(ba, i);
      bv[o + i] := bv[o + i] + Coord(bb, i);
    }
  }

  lemma NothingGrown(a: Matrix, t: Term)
    requires IsSquare(a, |a|) && t.Fits(|a|)
    ensures Grown(a, a, t, 0)
  {
    hide Bil;
    forall x: Vector, y: Vector | |x| == |y| == |a| ensures Partial(t, x, y, 0) == 0.0 {
    }
  }

  lemma NothingGrownInTheVector(g: Vector, t: Term, w: Vec3)
    requires t.Fits(|g|)
    ensures VectorGrown(g, g, t, w, 0)
  {
    forall x: Vector | |x| == |g| ensures PartialLin(t, w, x, 0) == 0.0 {
    }
  }

  lemma DampedByOne(a: Matrix, ts: seq<Term>, k: nat, lambda: real, d: nat)
    requires IsMatrixOf(a, ts, k, lambda, d) && d < |a|
    ensures IsMatrixOf(Raised(a, d, d, lambda), ts, k, lambda, d + 1)
  {
    hide Bil, EdgesBil, Raised;
    var (n, b) := (|a|, Raised(a, d, d, lambda));
    forall x: Vector, y: Vector | |x| == |y| == n
      ensures Bil(b, x, y, n) == EdgesBil(ts, k, x, y) + Times(lambda, Part(x, y, 0, d + 1))
    {
      BilOfRaised(a, d, d, lambda, x, y, n);
      Spread(lambda, Part(x, y, 0, d), x[d], y[d]);
      DampingSpreads(lambda, Part(x, y, 0, d), x[d], y[d]);
      assert Bil(a, x, y, n) == EdgesBil(ts, k, x, y) + Times(lambda, Part(x, y, 0, d));
    }
  }

  lemma DampingSpreads(lambda: real, p: real, x: real, y: real)
    ensures Times(lambda, p + x * y) == Times(lambda, p) + Times(lambda, Times(x, y))
  {
  }

  /** The damping on the diagonal. */
  method Damp(h: array<Vector>, ghost ts: seq<Term>, lambda: real)
    requires IsMatrixOf(h[..], ts, |ts|, lambda, 0)
    modifies h
    ensures IsMatrixOf(h[..], ts, |ts|, lambda, h.Length)
  {
    hide EdgesBil, Bil;
    for d := 0 to h.Length
      invariant IsMatrixOf(h[..], ts, |ts|, lambda, d)
    {
      DampedByOne(h[..], ts, |ts|, lambda, d);
      Raise(h, d, d, lambda);
    }
  }

  // ── Pinning ─────────────────────────────────────────────────────────────────

  /** The unknown `r` belongs to a held node. */
  predicate IsHeld(nodes: seq<PoseNode>, r: nat)
    requires r < 3 * |nodes|
  {
    nodes[r / 3].held
  }

  /** The held unknowns below `lim` have their rows and columns those of the identity,
      and nothing on the right. */
  ghost predicate Pinned(nodes: seq<PoseNode>, lim: nat, a: Matrix, g: Vector, h: Matrix, b: Vector)
  {
    && |g| == |b| == 3 * |nodes| && IsSquare(a, |g|) && IsSquare(h, |g|)
    && (forall r, c {:trigger h[r][c]} :: 0 <= r < |g| && 0 <= c < |g| ==>
          h[r][c] == if (r < lim && IsHeld(nodes, r)) || (c < lim && IsHeld(nodes, c)) then
              (if r == c then 1.0 else 0.0) else a[r][c])
    && (forall r {:trigger b[r]} :: 0 <= r < |g| ==> b[r] == if r < lim && IsHeld(nodes, r) then 0.0 else g[r])
  }

  /** One unknown's row and column. */
  method PinOne(h: array<Vector>, bv: array<real>, row: nat)
    requires h.Length == bv.Length && IsSquare(h[..], h.Length) && row < h.Length
    modifies h, bv
    ensures IsSquare(h[..], h.Length) && bv[..] == old(bv[..])[row := 0.0]
    ensures forall r, c {:trigger h[..][r][c]} :: 0 <= r < h.Length && 0 <= c < h.Length ==>
              h[..][r][c] == if r == row || c == row then (if r == c then 1.0 else 0.0) else old(h[..])[r][c]
  {
    ghost var (dim, a) := (h.Length, h[..]);
    for c := 0 to h.Length
      invariant h[..] == a[row := h[row]] && |h[row]| == dim && bv[..] == old(bv[..])
      invariant forall k :: 0 <= k < c ==> h[row][k] == 0.0
    {
      h[row] := h[row][c := 0.0];
    }
    ghost var mid := h[..];
    for r := 0 to h.Length
      invariant IsSquare(h[..], dim) && bv[..] == old(bv[..])
      invariant forall k, c ::
                0 <= k < dim && 0 <= c < dim ==> h[..][k][c] == if k < r && c == row then 0.0 else mid[k][c]
    {
      assert h[..][r] == h[r];
      h[r] := h[r][row := 0.0];
    }
    assert h[..][row] == h[row];
    h[row] := h[row][row := 1.0];
    bv[row] := 0.0;
  }

  lemma PinnedByOne(nodes: seq<PoseNode>, row: nat, a: Matrix, g: Vector, h: Matrix, b: Vector, h': Matrix, b': Vector)
    requires Pinned(nodes, row, a, g, h, b) && row < |g| && IsHeld(nodes, row) && b' == b[row := 0.0]
              && IsSquare(h', |g|)
    requires forall r, c {:trigger h'[r][c]} :: 0 <= r < |g| && 0 <= c < |g| ==>
               h'[r][c] == if r == row || c == row then (if r == c then 1.0 else 0.0) else h[r][c]
    ensures Pinned(nodes, row + 1, a, g, h', b')
  {
    hide IsHeld;
  }

  lemma NotPinned(nodes: seq<PoseNode>, idx: nat, a: Matrix, g: Vector, h: Matrix, b: Vector)
    requires idx < |nodes| && Pinned(nodes, 3 * idx, a, g, h, b) && !nodes[idx].held
    ensures Pinned(nodes, 3 * idx + 3, a, g, h, b)
  {
  }

  /** Takes the held nodes' unknowns out of the system. */
  method Pin(h: array<Vector>, bv: array<real>, nodes: seq<PoseNode>)
    requires h.Length == bv.Length == 3 * |nodes| && IsSquare(h[..], h.Length)
    modifies h, bv
    ensures Pinned(nodes, h.Length, old(h[..]), old(bv[..]), h[..], bv[..])
  {
    hide Pinned, IsHeld;
    ghost var (a, g) := (h[..], bv[..]);
    NothingPinned(nodes, a, g);
    for idx := 0 to |nodes|
      invariant IsSquare(h[..], h.Length) && Pinned(nodes, 3 * idx, a, g, h[..], bv[..])
    {
      if !nodes[idx].held {
        NotPinned(nodes, idx, a, g, h[..], bv[..]);
        continue;
      }
      for k := 0 to 3
        invariant IsSquare(h[..], h.Length) && Pinned(nodes, 3 * idx + k, a, g, h[..], bv[..])
      {
        ghost var (was, wasB) := (h[..], bv[..]);
        PinOne(h, bv, 3 * idx + k);
        HeldAt(nodes, idx, k);
        PinnedByOne(nodes, 3 * idx + k, a, g, was, wasB, h[..], bv[..]);
      }
    }
  }

  lemma HeldAt(nodes: seq<PoseNode>, idx: nat, k: nat)
    requires idx < |nodes| && k < 3
    ensures IsHeld(nodes, 3 * idx + k) == nodes[idx].held
  {
  }

  lemma NothingPinned(nodes: seq<PoseNode>, a: Matrix, g: Vector)
    requires |g| == 3 * |nodes| && IsSquare(a, |g|)
    ensures Pinned(nodes, 0, a, g, a, g)
  {
  }

  // ── What the pinned system says ─────────────────────────────────────────────

  /** The unknowns of held nodes are zero. */
  ghost predicate HeldStill(nodes: seq<PoseNode>, x: Vector)
  {
    |x| == 3 * |nodes| && forall r :: 0 <= r < |x| && IsHeld(nodes, r) ==> x[r] == 0.0
  }

  ghost function Masked(nodes: seq<PoseNode>, x: Vector): (y: Vector)
    requires |x| == 3 * |nodes|
    ensures HeldStill(nodes, y) && forall r :: 0 <= r < |x| && !IsHeld(nodes, r) ==> y[r] == x[r]
    ensures HeldStill(nodes, x) ==> y == x
  {
    seq(|x|, r requires 0 <= r < |x| => if IsHeld(nodes, r) then 0.0 else x[r])
  }

  /** The held unknowns' share of the first `n` terms of the product of `x` and `y`. */
  ghost function HeldPart(nodes: seq<PoseNode>, x: Vector, y: Vector, n: nat): real
    requires n <= |x| == |y| == 3 * |nodes|
  {
    if n == 0 then 0.0 else HeldPart(nodes, x, y, n - 1) + if IsHeld(nodes, n - 1) then Times(x[n - 1], y[n - 1])
        else 0.0
  }

  lemma {:induction false} PinnedRow(nodes: seq<PoseNode>, a: Matrix, g: Vector, h: Matrix, b: Vector, r: nat,
      y: Vector, hi: nat)
    requires Pinned(nodes, |g|, a, g, h, b) && r < |g| == |y| && hi <= |g| && !IsHeld(nodes, r)
    ensures Part(h[r], y, 0, hi) == Part(a[r], Masked(nodes, y), 0, hi)
  {
    hide IsHeld;
    if hi > 0 {
      PinnedRow(nodes, a, g, h, b, r, y, hi - 1);
      assert h[r][hi - 1] == if IsHeld(nodes, hi - 1) then 0.0 else a[r][hi - 1];
    }
  }

  lemma HeldRow(nodes: seq<PoseNode>, a: Matrix, g: Vector, h: Matrix, b: Vector, r: nat, y: Vector)
    requires Pinned(nodes, |g|, a, g, h, b) && r < |g| == |y| && IsHeld(nodes, r)
    ensures Part(h[r], y, 0, |y|) == y[r]
  {
    hide IsHeld;
    PartOfAUnit(h[r], y, r, |y|);
  }

  /** The pinned matrix: the assembled one where nothing is held, the identity where it is. */
  lemma {:induction false} PinnedBil(nodes: seq<PoseNode>, a: Matrix, g: Vector, h: Matrix, b: Vector, x: Vector,
      y: Vector, n: nat)
    requires Pinned(nodes, |g|, a, g, h, b) && |x| == |y| == |g| && n <= |g|
    ensures Bil(h, x, y, n) == Bil(a, Masked(nodes, x), Masked(nodes, y), n) + HeldPart(nodes, x, y, n)
  {
    hide IsHeld, Pinned, Masked;
    PinnedSizes(nodes, a, g, h, b);
    if n > 0 {
      PinnedBil(nodes, a, g, h, b, x, y, n - 1);
      if IsHeld(nodes, n - 1) {
        HeldRow(nodes, a, g, h, b, n - 1, y);
      } else {
        PinnedRow(nodes, a, g, h, b, n - 1, y, |y|);
      }
    }
  }

  lemma PinnedSizes(nodes: seq<PoseNode>, a: Matrix, g: Vector, h: Matrix, b: Vector)
    requires Pinned(nodes, |g|, a, g, h, b)
    ensures |g| == |b| == 3 * |nodes| && IsSquare(a, |g|) && IsSquare(h, |g|)
  {
  }

  lemma {:induction false} HeldPartOfStill(nodes: seq<PoseNode>, x: Vector, y: Vector, n: nat)
    requires HeldStill(nodes, x) && n <= |x| == |y|
    ensures HeldPart(nodes, x, y, n) == 0.0
  {
    hide IsHeld;
    if n > 0 {
      HeldPartOfStill(nodes, x, y, n - 1);
    }
  }

  ghost function Negated(b: Vector): (r: Vector)
    ensures |r| == |b| && forall k :: 0 <= k < |b| ==> r[k] == -b[k]
  {
    seq(|b|, k requires 0 <= k < |b| => -b[k])
  }

  /** The form of a solved system against any `u`. */
  lemma {:induction false} SolvedBil(h: Matrix, c: Vector, x: Vector, u: Vector, n: nat)
    requires IsSquare(h, |c|) && Solves(h, c, x) && |u| == |c| && n <= |c|
    ensures Bil(h, u, x, n) == Part(c, u, 0, n)
  {
    if n > 0 {
      SolvedBil(h, c, x, u, n - 1);
    }
  }

  lemma {:induction false} PartOfNegated(b: Vector, g: Vector, c: Vector, u: Vector, n: nat)
    requires |b| == |g| == |c| == |u| && n <= |b|
    requires forall r :: 0 <= r < |b| ==> c[r] == -b[r] && (b[r] == g[r] || u[r] == 0.0)
    ensures Part(c, u, 0, n) == -Part(g, u, 0, n)
  {
    if n > 0 {
      PartOfNegated(b, g, c, u, n - 1);
    }
  }

  /** No move that leaves the held nodes still changes the edges' cost to first order. */
  ghost predicate Stationary(nodes: seq<PoseNode>, a: Matrix, g: Vector, x: Vector)
    requires IsSquare(a, |g|) && |g| == |x|
  {
    forall u: Vector {:trigger Bil(a, u, x, |g|)} ::
        HeldStill(nodes, u) && |u| == |g| ==> Bil(a, u, x, |g|) + Part(g, u, 0, |g|) == 0.0
  }

  /** Solving the pinned system is being stationary with the held nodes still. */
  lemma SolvingIsBeingStationary(nodes: seq<PoseNode>, a: Matrix, g: Vector, h: Matrix, b: Vector, x: Vector)
    requires Pinned(nodes, |g|, a, g, h, b)
    ensures Solves(h, Negated(b), x) <==> |x| == |g| && HeldStill(nodes, x) && Stationary(nodes, a, g, x)
  {
    hide Pinned, Bil, Part, IsHeld;
    PinnedSizes(nodes, a, g, h, b);
    if Solves(h, Negated(b), x) {
      SolutionIsStill(nodes, a, g, h, b, x);
      SolutionIsStationary(nodes, a, g, h, b, x);
    }
    if |x| == |g| && HeldStill(nodes, x) && Stationary(nodes, a, g, x) {
      StationarySolves(nodes, a, g, h, b, x);
    }
  }

  lemma SolutionIsStill(nodes: seq<PoseNode>, a: Matrix, g: Vector, h: Matrix, b: Vector, x: Vector)
    requires Pinned(nodes, |g|, a, g, h, b) && Solves(h, Negated(b), x)
    ensures HeldStill(nodes, x)
  {
    forall r | 0 <= r < |x| && IsHeld(nodes, r) ensures x[r] == 0.0 {
      PinnedUnknownStaysZero(h, Negated(b), x, r);
    }
  }

  lemma SolutionIsStationary(nodes: seq<PoseNode>, a: Matrix, g: Vector, h: Matrix, b: Vector, x: Vector)
    requires Pinned(nodes, |g|, a, g, h, b) && Solves(h, Negated(b), x) && HeldStill(nodes, x)
    ensures Stationary(nodes, a, g, x)
  {
    var n := |g|;
    forall u: Vector | HeldStill(nodes, u) && |u| == n ensures Bil(a, u, x, n) + Part(g, u, 0, n) == 0.0 {
      PinnedBil(nodes, a, g, h, b, u, x, n);
      HeldPartOfStill(nodes, u, x, n);
      SolvedBil(h, Negated(b), x, u, n);
      PartOfNegated(b, g, Negated(b), u, n);
    }
  }

  ghost function Unit(n: nat, r: nat): (u: Vector)
    ensures |u| == n && forall k :: 0 <= k < n ==> u[k] == if k == r then 1.0 else 0.0
  {
    seq(n, k => if k == r then 1.0 else 0.0)
  }

  lemma {:induction false} BilOfAUnit(a: Matrix, y: Vector, r: nat, n: nat)
    requires IsSquare(a, |y|) && r < |y| && n <= |y|
    ensures Bil(a, Unit(|y|, r), y, n) == if r < n then Part(a[r], y, 0, |y|) else 0.0
  {
    if n > 0 {
      BilOfAUnit(a, y, r, n - 1);
    }
  }

  lemma {:induction false} PartOfUnit(g: Vector, r: nat, n: nat)
    requires r < |g| && n <= |g|
    ensures Part(g, Unit(|g|, r), 0, n) == if r < n then g[r] else 0.0
  {
    if n > 0 {
      PartOfUnit(g, r, n - 1);
    }
  }

  lemma StationarySolves(nodes: seq<PoseNode>, a: Matrix, g: Vector, h: Matrix, b: Vector, x: Vector)
    requires Pinned(nodes, |g|, a, g, h, b) && |x| == |g| && HeldStill(nodes, x) && Stationary(nodes, a, g, x)
    ensures Solves(h, Negated(b), x)
  {
    hide IsHeld, Bil, Part;
    var n := |g|;
    forall r | 0 <= r < n ensures Part(h[r], x, 0, n) == Negated(b)[r] {
      if IsHeld(nodes, r) {
        HeldRow(nodes, a, g, h, b, r, x);
      } else {
        PinnedRow(nodes, a, g, h, b, r, x, n);
        BilOfAUnit(a, x, r, n);
        PartOfUnit(g, r, n);
        UnitIsStill(nodes, r);
        assert Bil(a, Unit(n, r), x, n) + Part(g, Unit(n, r), 0, n) == 0.0;
      }
    }
  }

  lemma UnitIsStill(nodes: seq<PoseNode>, r: nat)
    requires r < 3 * |nodes| && !IsHeld(nodes, r)
    ensures HeldStill(nodes, Unit(3 * |nodes|, r))
  {
  }

  // ── The damped step is the cheapest ─────────────────────────────────────────

  /** No edge counts negatively. */
  ghost predicate Informative(ts: seq<Term>)
  {
    forall k :: 0 <= k < |ts| ==> PositiveSemidefinite(ts[k].info)
  }

  /** The cost of the first `k` edges once the nodes have moved by `x`, linearized. */
  ghost function EdgesCost(ts: seq<Term>, k: nat, x: Vector): real
    requires k <= |ts| && AllFit(ts, |x|)
  {
    if k == 0 then 0.0 else EdgesCost(ts, k - 1, x) + Form(ts[k - 1].info, Plus(ts[k - 1].r, Change(ts[k - 1], x)))
  }

  /** ... and what the damping charges for the move. */
  ghost function DampedCost(ts: seq<Term>, lambda: real, x: Vector): real
    requires AllFit(ts, |x|)
  {
    EdgesCost(ts, |ts|, x) + Times(lambda, Part(x, x, 0, |x|))
  }

  ghost predicate IsSum(y: Vector, x: Vector, u: Vector)
  {
    |y| == |x| == |u| && forall k :: 0 <= k < |y| ==> y[k] == x[k] + u[k]
  }

  lemma ChangeOfASum(t: Term, x: Vector, u: Vector, y: Vector)
    requires IsSum(y, x, u) && t.Fits(|y|)
    ensures Change(t, y) == Plus(Change(t, x), Change(t, u))
  {
    hide Apply;
    assert Block(y, t.from) == Plus(Block(x, t.from), Block(u, t.from));
    assert Block(y, t.to) == Plus(Block(x, t.to), Block(u, t.to));
    ApplyIsLinear(t.ja, Block(x, t.from), Block(u, t.from));
    ApplyIsLinear(t.jb, Block(x, t.to), Block(u, t.to));
    hide Block;
  }

  lemma FormOfASum(w: Mat3, p: Vec3, q: Vec3)
    requires IsSymmetric(w)
    ensures Form(w, Plus(p, q)) == Form(w, p) + 2.0 * Dot(q, Apply(w, p)) + Form(w, q)
  {
    hide Apply, Dot, Plus, IsSymmetric;
    ApplyIsLinear(w, p, q);
    SymmetricForm(w, p, q);
    var (wp, wq) := (Apply(w, p), Apply(w, q));
    DotIsBilinear(Plus(wp, wq), p, q);
    DotIsBilinear(Plus(p, q), wp, wq);
    DotIsBilinear(p, wp, wq);
    DotIsBilinear(q, wp, wq);
  }

  lemma TermAlong(t: Term, x: Vector, u: Vector, y: Vector)
    requires IsSum(y, x, u) && t.Fits(|y|) && IsSymmetric(t.info)
    ensures Form(t.info, Plus(t.r, Change(t, y)))
         == Form(t.info, Plus(t.r, Change(t, x))) + 2.0 * (Coupling(t, u, x) + Dot(Change(t, u), Apply(t.info, t.r)))
             + Coupling(t, u, u)
  {
    hide Apply, Dot, Plus, Change, Coupling, IsSymmetric, IsSum;
    SizesOfASum(y, x, u);
    var (cx, cu) := (Change(t, x), Change(t, u));
    ChangeOfASum(t, x, u, y);
    PlusAssociates(t.r, cx, cu);
    FormOfASum(t.info, Plus(t.r, cx), cu);
    ApplyIsLinear(t.info, t.r, cx);
    DotIsBilinear(cu, Apply(t.info, t.r), Apply(t.info, cx));
    CouplingIsTheInformation(t, u, x);
    CouplingIsTheInformation(t, u, u);
  }

  lemma SizesOfASum(y: Vector, x: Vector, u: Vector)
    requires IsSum(y, x, u)
    ensures |x| == |u| == |y|
  {
  }

  lemma PlusAssociates(a: Vec3, b: Vec3, c: Vec3)
    ensures Plus(a, Plus(b, c)) == Plus(Plus(a, b), c)
  {
  }

  lemma {:induction false} CostAlong(ts: seq<Term>, k: nat, x: Vector, u: Vector, y: Vector)
    requires k <= |ts| && IsSum(y, x, u) && AllFit(ts, |y|) && Informative(ts)
    ensures EdgesCost(ts, k, y) == EdgesCost(ts, k, x) + 2.0 * (EdgesBil(ts, k, u, x) + EdgesLin(ts, k, u))
              + EdgesBil(ts, k, u, u)
  {
    hide Form, Coupling, Change, Apply, Dot, Plus;
    if k > 0 {
      CostAlong(ts, k - 1, x, u, y);
      TermAlong(ts[k - 1], x, u, y);
    }
  }

  lemma {:induction false} SquaresAlong(x: Vector, u: Vector, y: Vector, n: nat)
    requires IsSum(y, x, u) && n <= |y|
    ensures Part(y, y, 0, n) == Part(x, x, 0, n) + 2.0 * Part(u, x, 0, n) + Part(u, u, 0, n)
  {
    if n > 0 {
      SquaresAlong(x, u, y, n - 1);
      SquareOfASum(x[n - 1], u[n - 1]);
    }
  }

  lemma SquareOfASum(x: real, u: real)
    ensures (x + u) * (x + u) == x * x + 2.0 * (u * x) + u * u
  {
  }

  lemma {:induction false} EdgesAreNotNegative(ts: seq<Term>, k: nat, u: Vector)
    requires k <= |ts| && AllFit(ts, |u|) && Informative(ts)
    ensures EdgesBil(ts, k, u, u) >= 0.0
  {
    hide Coupling, Change, Apply, Dot;
    if k > 0 {
      EdgesAreNotNegative(ts, k - 1, u);
      CouplingIsTheInformation(ts[k - 1], u, u);
      assert Form(ts[k - 1].info, Change(ts[k - 1], u)) >= 0.0;
    }
  }

  lemma {:induction false} SquaresAreNotNegative(u: Vector, n: nat)
    requires n <= |u|
    ensures Part(u, u, 0, n) >= 0.0
    ensures forall k :: 0 <= k < n && u[k] != 0.0 ==> Part(u, u, 0, n) > 0.0
  {
    hide Part, Times;
    if n > 0 {
      SquaresAreNotNegative(u, n - 1);
      SquareIsPositive(u[n - 1]);
      PartNext(u, u, n);
    } else {
      NoPart(u, u);
    }
  }

  lemma NoPart(u: Vector, z: Vector)
    ensures Part(u, z, 0, 0) == 0.0
  {
  }

  lemma SquareIsPositive(x: real)
    ensures Times(x, x) >= 0.0 && (x != 0.0 ==> Times(x, x) > 0.0)
  {
    if x > 0.0 {
      PositiveProduct(x, x, Times(x, x));
    } else if x < 0.0 {
      PositiveProduct(-x, -x, Times(x, x));
    }
  }

  /** A stationary move is the only cheapest one of those that leave the held nodes. */
  lemma StationaryIsCheapest(nodes: seq<PoseNode>, ts: seq<Term>, lambda: real, a: Matrix, g: Vector, x: Vector,
      y: Vector)
    requires IsMatrixOf(a, ts, |ts|, lambda, |a|) && IsVectorOf(g, ts, |ts|) && |a| == |g| == 3 * |nodes|
              && Informative(ts) && lambda > 0.0
    requires HeldStill(nodes, x) && Stationary(nodes, a, g, x) && HeldStill(nodes, y) && y != x
    ensures DampedCost(ts, lambda, x) < DampedCost(ts, lambda, y)
  {
    hide Bil, EdgesBil, EdgesLin, EdgesCost, IsHeld, Part, Informative, AllFit;
    var n := |g|;
    var u := Difference(nodes, y, x);
    CostAlong(ts, |ts|, x, u, y);
    SquaresAlong(x, u, y, n);
    EdgesAreNotNegative(ts, |ts|, u);
    SquaresAreNotNegative(u, n);
    assert Bil(a, u, x, n) + Part(g, u, 0, n) == 0.0;
    var (cross, square) := (Part(u, x, 0, n), Part(u, u, 0, n));
    assert EdgesBil(ts, |ts|, u, x) + Times(lambda, cross) + EdgesLin(ts, |ts|, u) == 0.0;
    Charged(lambda, Part(x, x, 0, n), cross, square);
  }

  lemma Difference(nodes: seq<PoseNode>, y: Vector, x: Vector) returns (u: Vector)
    requires HeldStill(nodes, x) && HeldStill(nodes, y) && y != x
    ensures HeldStill(nodes, u) && IsSum(y, x, u) && exists k :: 0 <= k < |u| && u[k] != 0.0
  {
    hide IsHeld;
    u := seq(|x|, k requires 0 <= k < |x| => y[k] - x[k]);
    DifferSomewhere(x, y);
    var k :| 0 <= k < |x| && x[k] != y[k];
    assert u[k] != 0.0;
  }

  lemma DifferSomewhere(x: Vector, y: Vector)
    requires |x| == |y|
    ensures x != y ==> exists k :: 0 <= k < |x| && x[k] != y[k]
  {
    if forall k :: 0 <= k < |x| ==> x[k] == y[k] {
      assert x == y;
    }
  }

  lemma Charged(lambda: real, p: real, cross: real, square: real)
    requires lambda > 0.0 && square > 0.0
    ensures Times(lambda, p + 2.0 * cross + square) > Times(lambda, p) + 2.0 * Times(lambda, cross)
  {
    assert lambda * (p + 2.0 * cross + square) == lambda * p + 2.0 * (lambda * cross) + lambda * square;
    PositiveProduct(lambda, square, lambda * square);
  }

  // ── The solver never gives up on it ─────────────────────────────────────────

  /** The damping and the pins outweigh what the solver takes for zero. */
  ghost predicate DampedEnough(lambda: real, dim: nat)
  {
    Times(dim as real, SINGULAR) < 1.0 && Times(dim as real, SINGULAR) < lambda
  }

  lemma {:induction false} SquaresSplit(nodes: seq<PoseNode>, z: Vector, n: nat)
    requires n <= |z| == 3 * |nodes|
    ensures Part(z, z, 0, n) == Part(Masked(nodes, z), Masked(nodes, z), 0, n) + HeldPart(nodes, z, z, n)
    ensures HeldPart(nodes, z, z, n) >= 0.0
  {
    hide IsHeld;
    if n > 0 {
      SquaresSplit(nodes, z, n - 1);
      SquareIsPositive(z[n - 1]);
    }
  }

  /** Along any direction the pinned matrix has at least the smaller of the damping and 1. */
  lemma PinnedIsDefinite(nodes: seq<PoseNode>, ts: seq<Term>, lambda: real, a: Matrix, g: Vector, h: Matrix,
      b: Vector, z: Vector, least: real)
    requires IsMatrixOf(a, ts, |ts|, lambda, |a|) && Pinned(nodes, |g|, a, g, h, b) && Informative(ts) && |z| == |g|
    requires 0.0 <= least <= 1.0 && least <= lambda
    ensures Bil(h, z, z, |g|) >= Times(least, Part(z, z, 0, |g|))
  {
    hide Bil, EdgesBil, IsHeld, Part, Informative, AllFit, Pinned, Masked;
    PinnedSizes(nodes, a, g, h, b);
    var (n, m) := (|g|, Masked(nodes, z));
    assert |m| == n;
    PinnedBil(nodes, a, g, h, b, z, z, n);
    SquaresSplit(nodes, z, n);
    EdgesAreNotNegative(ts, |ts|, m);
    SquaresAreNotNegative(m, n);
    assert Bil(a, m, m, n) == EdgesBil(ts, |ts|, m, m) + Times(lambda, Part(m, m, 0, n));
    AtLeast(least, lambda, Part(m, m, 0, n), HeldPart(nodes, z, z, n));
  }

  lemma AtLeast(least: real, lambda: real, p: real, q: real)
    requires 0.0 <= least <= 1.0 && least <= lambda && p >= 0.0 && q >= 0.0
    ensures Times(lambda, p) + q >= Times(least, p + q)
  {
    NonNegativeProduct(lambda - least, p);
    NonNegativeProduct(1.0 - least, q);
    assert lambda * p + q - least * (p + q) == (lambda - least) * p + (1.0 - least) * q;
  }

  /** Entries less than `e` apart. */
  predicate Near(u: Vector, v: Vector, e: real)
  {
    |u| == |v| && forall c :: 0 <= c < |u| ==> -e < u[c] - v[c] < e
  }

  lemma PartNext(u: Vector, z: Vector, k: nat)
    requires 0 < k <= |u| && k <= |z|
    ensures Part(u, z, 0, k) == Part(u, z, 0, k - 1) + Times(u[k - 1], z[k - 1])
  {
  }

  lemma NothingYet(u: Vector, z: Vector, p: real, half: real)
    ensures Times(p, Part(u, z, 0, 0)) == 0.0 && Times(half, Times(0.0, p) + Part(z, z, 0, 0)) == 0.0
  {
  }

  /** A row along `z`, times the coordinate of the row. */
  lemma {:induction false} CloseRow(u: Vector, v: Vector, z: Vector, p: real, e: real, k: nat)
    requires Near(u, v, e) && |v| == |z| && k <= |z|
    ensures Times(p, Part(u, z, 0, k)) - Times(p, Part(v, z, 0, k)) <= Times(e / 2.0, Times(k as real, Times(p, p))
              + Part(z, z, 0, k))
  {
    hide Times, Part;
    if k > 0 {
      CloseRow(u, v, z, p, e, k - 1);
      PartNext(u, z, k);
      PartNext(v, z, k);
      PartNext(z, z, k);
      CloseEntry(u[k - 1], v[k - 1], z[k - 1], p, e, Part(u, z, 0, k - 1), Part(v, z, 0, k - 1), (k - 1) as real,
          Part(z, z, 0, k - 1),
                 Part(u, z, 0, k), Part(v, z, 0, k), k as real, Part(z, z, 0, k));
    } else {
      NothingYet(u, z, p, e / 2.0);
      NothingYet(v, z, p, e / 2.0);
      NothingYet(v, z, Times(p, p), e / 2.0);
    }
  }

  lemma CloseEntry(u: real, v: real, z: real, p: real, e: real, pu: real, pv: real, k: real, zz: real, pu': real,
      pv': real, k': real, zz': real)
    requires -e < u - v < e && pu' == pu + Times(u, z) && pv' == pv + Times(v, z) && k' == k + 1.0
              && zz' == zz + Times(z, z)
    requires Times(p, pu) - Times(p, pv) <= Times(e / 2.0, Times(k, Times(p, p)) + zz)
    ensures Times(p, pu') - Times(p, pv') <= Times(e / 2.0, Times(k', Times(p, p)) + zz')
  {
    Mean(u - v, p, z, e);
    var half := e / 2.0;
    assert p * pu' - p * pv' == (p * pu - p * pv) + (u - v) * (p * z);
    assert k' * (p * p) == k * (p * p) + p * p;
    assert half * (k * (p * p) + p * p + (zz + z * z)) == half * (k * (p * p) + zz) + half * (p * p + z * z);
  }

  lemma Mean(d: real, p: real, z: real, e: real)
    requires -e < d < e
    ensures d * (p * z) <= (e / 2.0) * (p * p + z * z)
  {
    SquareIsPositive(p - z);
    SquareIsPositive(p + z);
    NonNegativeProduct(e - d, (p + z) * (p + z));
    NonNegativeProduct(e + d, (p - z) * (p - z));
    assert (e - d) * ((p + z) * (p + z)) + (e + d) * ((p - z) * (p - z)) == 2.0 * (e * (p * p
        + z * z)) - 4.0 * (d * (p * z));
  }

  lemma {:induction false} CloseForms(h: Matrix, m: Matrix, z: Vector, e: real, k: nat)
    requires IsSquare(h, |z|) && IsSquare(m, |z|) && k <= |z| && forall r :: 0 <= r < |z| ==> Near(h[r], m[r], e)
    ensures Bil(h, z, z, k) - Bil(m, z, z, k) <= Times(e / 2.0, Times(|z| as real, Part(z, z, 0, k))
              + Times(k as real, Part(z, z, 0, |z|)))
  {
    hide Times, Part, Bil, Near;
    var n := |z|;
    if k > 0 {
      CloseForms(h, m, z, e, k - 1);
      assert Near(h[k - 1], m[k - 1], e);
      CloseRow(h[k - 1], m[k - 1], z, z[k - 1], e, n);
      BilNext(h, z, k);
      BilNext(m, z, k);
      PartNext(z, z, k);
      OneRowMore(e / 2.0, n as real, Part(z, z, 0, k - 1), z[k - 1], (k - 1) as real, Part(z, z, 0, n),
          Part(z, z, 0, k), k as real);
    } else {
      assert k as real == 0.0;
      NoRowsYet(h, z, e / 2.0);
      NoRowsYet(m, z, e / 2.0);
    }
  }

  lemma BilNext(h: Matrix, z: Vector, k: nat)
    requires 0 < k <= |z| && IsSquare(h, |z|)
    ensures Bil(h, z, z, k) == Bil(h, z, z, k - 1) + Times(z[k - 1], Part(h[k - 1], z, 0, |z|))
  {
  }

  lemma NoRowsYet(h: Matrix, z: Vector, half: real)
    requires IsSquare(h, |z|)
    ensures Bil(h, z, z, 0) == 0.0
    ensures Times(half, Times(|z| as real, Part(z, z, 0, 0)) + Times(0.0, Part(z, z, 0, |z|))) == 0.0
  {
  }

  lemma OneRowMore(half: real, n: real, p: real, z: real, k: real, zz: real, p': real, k': real)
    requires p' == p + Times(z, z) && k' == k + 1.0
    ensures Times(half, Times(n, p) + Times(k, zz))
              + Times(half, Times(n, Times(z, z)) + zz) == Times(half, Times(n, p') + Times(k', zz))
  {
    assert n * p' == n * p + n * (z * z);
    assert k' * zz == k * zz + zz;
    assert half * ((n * p + k * zz) + (n * (z * z) + zz)) == half * (n * p + k * zz) + half * (n * (z * z) + zz);
  }

  /** With enough damping the pinned matrix is far from every singular one. */
  lemma NeverNearlySingular(nodes: seq<PoseNode>, ts: seq<Term>, lambda: real, a: Matrix, g: Vector, h: Matrix,
      b: Vector)
    requires IsMatrixOf(a, ts, |ts|, lambda, |a|) && Pinned(nodes, |g|, a, g, h, b) && Informative(ts)
              && DampedEnough(lambda, |g|)
    ensures !NearlySingular(h)
  {
    hide Informative, IsMatrixOf, Pinned, Bil, Part, Times, Close, Singular, Solves, Near;
    PinnedSizes(nodes, a, g, h, b);
    if NearlySingular(h) {
      var m: Matrix :| IsSquare(m, |h|) && Singular(m) && Close(m, h);
      var z := Null(m);
      var n := |g|;
      var least := if lambda < 1.0 then lambda else 1.0;
      NullForm(m, z);
      EachClose(m, h);
      CloseForms(h, m, z, SINGULAR, n);
      NotNegativeSize(n);
      PinnedIsDefinite(nodes, ts, lambda, a, g, h, b, z, least);
      SquaresAreNotNegative(z, n);
      Outweighs(least, n as real, SINGULAR, Part(z, z, 0, n));
      assert false;
    }
  }

  lemma NotNegativeSize(n: nat)
    ensures Times(n as real, SINGULAR) >= 0.0
  {
  }

  lemma Null(m: Matrix) returns (z: Vector)
    requires IsSquare(m, |m|) && Singular(m)
    ensures |z| == |m| && Solves(m, seq(|m|, _ => 0.0), z) && exists c :: 0 <= c < |z| && z[c] != 0.0
  {
    z :| Solves(m, seq(|m|, _ => 0.0), z) && exists c :: 0 <= c < |z| && z[c] != 0.0;
  }

  lemma NullForm(m: Matrix, z: Vector)
    requires IsSquare(m, |z|) && Solves(m, seq(|m|, _ => 0.0), z)
    ensures Bil(m, z, z, |z|) == 0.0
  {
    var zero := seq(|m|, _ => 0.0);
    SolvedBil(m, zero, z, z, |z|);
    PartOfZeros(zero, z, |z|);
  }

  lemma EachClose(m: Matrix, h: Matrix)
    requires IsSquare(h, |h|) && IsSquare(m, |h|) && Close(m, h)
    ensures forall r :: 0 <= r < |h| ==> Near(h[r], m[r], SINGULAR)
  {
    forall r | 0 <= r < |h| ensures Near(h[r], m[r], SINGULAR) {
      forall c | 0 <= c < |h| ensures -SINGULAR < h[r][c] - m[r][c] < SINGULAR {
        assert Magnitude(m[r][c] - h[r][c]) < SINGULAR;
      }
    }
  }

  lemma Outweighs(least: real, n: real, e: real, zz: real)
    requires zz > 0.0 && Times(n, e) < least
    ensures Times(least, zz) > Times(e / 2.0, Times(n, zz) + Times(n, zz))
  {
    assert (e / 2.0) * (n * zz + n * zz) == (n * e) * zz;
    PositiveProduct(least - n * e, zz, (least - n * e) * zz);
    assert (least - n * e) * zz == least * zz - (n * e) * zz;
  }

  // ── The step of one iteration ───────────────────────────────────────────────

  /** The assembled, damped and pinned system of these edges. */
  ghost predicate IsSystem(nodes: seq<PoseNode>, ts: seq<Term>, lambda: real, h: Matrix, b: Vector)
  {
    exists a: Matrix, g: Vector ::
      IsMatrixOf(a, ts, |ts|, lambda, |a|) && IsVectorOf(g, ts, |ts|) && |a| == |g| && Pinned(nodes, |g|, a, g, h, b)
  }

  /** The normal equations: to first order the damped cost changes along no move that
      leaves the held nodes still. */
  ghost predicate Balanced(nodes: seq<PoseNode>, ts: seq<Term>, lambda: real, x: Vector)
  {
    && |x| == 3 * |nodes| && AllFit(ts, |x|)
    && forall u: Vector {:trigger HeldStill(nodes, u)} :: HeldStill(nodes, u) ==>
         EdgesBil(ts, |ts|, u, x) + Times(lambda, Part(u, x, 0, |x|)) + EdgesLin(ts, |ts|, u) == 0.0
  }

  /** Of the moves that leave the held nodes still, the only one that is cheapest. */
  ghost predicate Cheapest(nodes: seq<PoseNode>, ts: seq<Term>, lambda: real, x: Vector)
  {
    && HeldStill(nodes, x) && AllFit(ts, |x|)
    && forall y: Vector {:trigger HeldStill(nodes, y)} ::
       HeldStill(nodes, y) && y != x ==> DampedCost(ts, lambda, x) < DampedCost(ts, lambda, y)
  }

  /** The one balanced move that leaves the held nodes still; the cheapest one, when no
      edge counts negatively and there is damping. */
  ghost predicate IsTheStep(nodes: seq<PoseNode>, ts: seq<Term>, lambda: real, x: Vector)
  {
    && HeldStill(nodes, x) && Balanced(nodes, ts, lambda, x)
    && (forall y: Vector {:trigger HeldStill(nodes, y)} ::
       HeldStill(nodes, y) && Balanced(nodes, ts, lambda, y) ==> y == x)
    && (Informative(ts) && lambda > 0.0 ==> Cheapest(nodes, ts, lambda, x))
  }

  /** The system is within 1e-12 of a singular one, entry by entry. */
  ghost predicate NoStep(nodes: seq<PoseNode>, ts: seq<Term>, lambda: real)
  {
    exists h: Matrix, b: Vector :: IsSystem(nodes, ts, lambda, h, b) && IsSquare(h, |h|) && NearlySingular(h)
  }

  lemma BalancedIsStationary(nodes: seq<PoseNode>, ts: seq<Term>, lambda: real, a: Matrix, g: Vector, x: Vector)
    requires IsMatrixOf(a, ts, |ts|, lambda, |a|) && IsVectorOf(g, ts, |ts|) && |a| == |g| == |x| == 3 * |nodes|
    ensures Balanced(nodes, ts, lambda, x) <==> Stationary(nodes, a, g, x)
  {
    hide Bil, Part, EdgesBil, EdgesLin, IsHeld, Times;
    forall u: Vector | HeldStill(nodes, u)
      ensures Bil(a, u, x, |g|) + Part(g, u, 0, |g|) == EdgesBil(ts, |ts|, u, x) + Times(lambda, Part(u, x, 0, |x|))
                + EdgesLin(ts, |ts|, u)
    {
    }
  }

  /** What solving the system means. */
  lemma SolvingGivesTheStep(nodes: seq<PoseNode>, ts: seq<Term>, lambda: real, h: Matrix, b: Vector, x: Vector)
    requires IsSystem(nodes, ts, lambda, h, b) && IsSquare(h, |b|)
    requires Solves(h, Negated(b), x) && forall y: Vector :: Solves(h, Negated(b), y) ==> y == x
    ensures IsTheStep(nodes, ts, lambda, x)
  {
    hide Pinned, Solves, IsMatrixOf, IsVectorOf, HeldStill, Balanced, Stationary, DampedCost, Negated, Informative,
        AllFit;
    var a: Matrix, g: Vector :|
      IsMatrixOf(a, ts, |ts|, lambda, |a|) && IsVectorOf(g, ts, |ts|) && |a| == |g| && Pinned(nodes, |g|, a, g, h, b);
    PinnedSizes(nodes, a, g, h, b);
    Fitting(a, ts, lambda);
    SolvingIsBeingStationary(nodes, a, g, h, b, x);
    BalancedIsStationary(nodes, ts, lambda, a, g, x);
    forall y: Vector | HeldStill(nodes, y) ensures |y| == |g| && (Balanced(nodes, ts, lambda, y) ==> y == x) {
      StillSize(nodes, y);
      SolvingIsBeingStationary(nodes, a, g, h, b, y);
      BalancedIsStationary(nodes, ts, lambda, a, g, y);
    }
    if Informative(ts) && lambda > 0.0 {
      forall y: Vector | HeldStill(nodes, y) && y != x ensures DampedCost(ts, lambda, x) < DampedCost(ts, lambda, y) {
        StationaryIsCheapest(nodes, ts, lambda, a, g, x, y);
      }
    }
  }

  lemma Fitting(a: Matrix, ts: seq<Term>, lambda: real)
    requires IsMatrixOf(a, ts, |ts|, lambda, |a|)
    ensures AllFit(ts, |a|)
  {
  }

  lemma StillSize(nodes: seq<PoseNode>, y: Vector)
    requires HeldStill(nodes, y)
    ensures |y| == 3 * |nodes|
  {
  }

  /** With enough damping, and no edge that counts negatively, there always is a step. */
  lemma DampingGivesAStep(nodes: seq<PoseNode>, ts: seq<Term>, lambda: real)
    requires Informative(ts) && DampedEnough(lambda, 3 * |nodes|)
    ensures !NoStep(nodes, ts, lambda)
  {
    hide Informative, IsMatrixOf, IsVectorOf, Pinned, NearlySingular, DampedEnough;
    forall h: Matrix, b: Vector | IsSystem(nodes, ts, lambda, h, b) && IsSquare(h, |h|) ensures !NearlySingular(h) {
      var a: Matrix, g: Vector :|
        IsMatrixOf(a, ts, |ts|, lambda, |a|) && IsVectorOf(g, ts, |ts|) && |a| == |g| && Pinned(nodes, |g|, a, g, h, b);
      PinnedSizes(nodes, a, g, h, b);
      NeverNearlySingular(nodes, ts, lambda, a, g, h, b);
    }
  }
}
