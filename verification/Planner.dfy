/** Path planning, `maploc/src/planner.rs`: the inflated mask, the snap to a free
    cell, the search, and the greedy simplification behind a supercover test. */
module Planner {
  import opened Lines
  import opened Grid
  import opened Search

  datatype PlannerConfig = PlannerConfig(inflateCells: nat, maxExpansions: nat, occThreshold: int)

  // ── The mask ────────────────────────────────────────────────────────────────

  /** Some wall is within `r` cells of (i, j), Euclidean. */
  ghost predicate NearWall(log: seq<int>, w: nat, h: nat, threshold: int, r: int, i: int, j: int)
  {
    exists k, l :: IsWall(log, w, h, threshold, k, l) && SquaredDistance(i, j, k, l) <= Square(r)
  }

  /** ... one of the walls before (ri, rj) in row-major order. */
  ghost predicate NearEarlierWall(log: seq<int>, w: nat, h: nat, threshold: int, r: int, i: int, j: int, ri: int,
      rj: int)
  {
    exists k, l ::
        (k < ri || (k == ri && l < rj)) && IsWall(log, w, h, threshold, k, l)
        && SquaredDistance(i, j, k, l) <= Square(r)
  }

  /** (i, j) in the disc around (ci, cj), and so in the square the stamp sweeps. */
  predicate InDisc(i: int, j: int, ci: int, cj: int, r: int)
  {
    -r <= i - ci <= r && -r <= j - cj <= r && SquaredDistance(i, j, ci, cj) <= Square(r)
  }

  /** Blocks every cell within `r` of (ci, cj) and no other. */
  method Stamp(blocked: array<bool>, w: nat, h: nat, ci: int, cj: int, r: int)
    requires 0 <= r && blocked.Length == w * h
    modifies blocked
    ensures forall i, j {:trigger Idx(w, i, j)} :: 0 <= i < h && 0 <= j < w && 0 <= Idx(w, i, j) < w * h ==>
              (blocked[Idx(w, i, j)] <==> old(blocked[Idx(w, i, j)]) || SquaredDistance(i, j, ci, cj) <= Square(r))
  {
    IdxFacts(w, h);
    ghost var before := blocked[..];
    hide Idx, SquaredDistance, Square;
    for di := -r to r + 1
      invariant forall i, j {:trigger Idx(w, i, j)} :: 0 <= i < h && 0 <= j < w ==>
                  (blocked[Idx(w, i, j)] <==> before[Idx(w, i, j)] || (i - ci < di && InDisc(i, j, ci, cj, r)))
    {
      for dj := -r to r + 1
        invariant forall i, j {:trigger Idx(w, i, j)} :: 0 <= i < h && 0 <= j < w ==>
                    (blocked[Idx(w, i, j)] <==>
                        before[Idx(w, i, j)] || ((i - ci < di || (i - ci == di && j - cj < dj))
                        && InDisc(i, j, ci, cj, r)))
      {
        var ii, jj := ci + di, cj + dj;
        if ii < 0 || jj < 0 || ii >= h || jj >= w {
          continue;
        }
        SquaredDistanceOfAStep(ci, cj, di, dj);
        if Square(di) + Square(dj) > Square(r) {
          continue;
        }
        blocked[Idx(w, ii, jj)] := true;
      }
    }
    forall i, j | SquaredDistance(i, j, ci, cj) <= Square(r) ensures -r <= i - ci <= r && -r <= j - cj <= r {
      CloseCellsAreInTheSquare(i, j, ci, cj, r);
    }
  }

  lemma SquaredDistanceOfAStep(ci: int, cj: int, di: int, dj: int)
    ensures SquaredDistance(ci + di, cj + dj, ci, cj) == Square(di) + Square(dj)
  {
  }

  lemma CloseCellsAreInTheSquare(i: int, j: int, ci: int, cj: int, r: int)
    requires 0 <= r && SquaredDistance(i, j, ci, cj) <= Square(r)
    ensures -r <= i - ci <= r && -r <= j - cj <= r
  {
    SquareGrows(i - ci, r);
    SquareGrows(j - cj, r);
    SquareIsNonNegative(i - ci);
    SquareIsNonNegative(j - cj);
    hide Square;
  }

  lemma SquareIsNonNegative(x: int)
    ensures Square(x) >= 0
  {
  }

  lemma SquareGrows(x: int, r: int)
    requires 0 <= r
    ensures Square(x) <= Square(r) ==> -r <= x <= r
  {
  }

  /** The inflated mask: a cell is blocked exactly when a wall lies within `inflate`
      cells of it. */
  method InflatedObstacles(log: seq<int>, w: nat, h: nat, inflate: int, threshold: int) returns (blocked: array<bool>)
    requires |log| == w * h && 0 <= inflate
    ensures fresh(blocked) && blocked.Length == w * h
    ensures forall i, j {:trigger Idx(w, i, j)} :: 0 <= i < h && 0 <= j < w && 0 <= Idx(w, i, j) < w * h ==>
              (blocked[Idx(w, i, j)] <==> NearWall(log, w, h, threshold, inflate, i, j))
  {
    blocked := new bool[w * h](_ => false);
    IdxFacts(w, h);
    hide Idx, SquaredDistance, Square;
    for i := 0 to h
      invariant MaskedUpTo(blocked[..], log, w, h, threshold, inflate, i, 0)
    {
      for j := 0 to w
        invariant MaskedUpTo(blocked[..], log, w, h, threshold, inflate, i, j)
      {
        if log[Idx(w, i, j)] > threshold {
          Stamp(blocked, w, h, i, j, inflate);
        }
      }
    }
    forall i, j {:trigger Idx(w, i, j)} | 0 <= i < h && 0 <= j < w
      ensures blocked[Idx(w, i, j)] <==> NearWall(log, w, h, threshold, inflate, i, j)
    {
    }
  }

  ghost predicate MaskedUpTo(blocked: seq<bool>, log: seq<int>, w: nat, h: nat, threshold: int, r: int, ri: int,
      rj: int)
  {
    && |blocked| == w * h
    && forall i, j {:trigger Idx(w, i, j)} :: 0 <= i < h && 0 <= j < w && 0 <= Idx(w, i, j) < w * h ==>
         (blocked[Idx(w, i, j)] <==> NearEarlierWall(log, w, h, threshold, r, i, j, ri, rj))
  }

  // ── The snap ────────────────────────────────────────────────────────────────

  /** The ring around `a` that `b` lies on. */
  function Ring(a: Cell, b: Cell): (r: int)
    ensures r >= 0
  {
    Max(Abs(a.0 - b.0), Abs(a.1 - b.1))
  }

  predicate RowMajor(a: Cell, b: Cell)
  {
    a.0 < b.0 || (a.0 == b.0 && a.1 <= b.1)
  }

  /** The free cell on the innermost ring that has one, the first of it in row-major
      order; none when every cell up to `maxRadius` rings out is blocked or off the
      grid. */
  method NearestFree(m: Mask, start: Cell, maxRadius: int) returns (r: Option<Cell>)
    requires m.Valid() && m.InBounds(start) && 0 <= maxRadius
    ensures r.Some? ==> m.Free(r.value) && Ring(start, r.value) <= maxRadius
    ensures r.Some? ==> forall c: Cell :: m.Free(c) && Ring(start, c) <= Ring(start, r.value) ==>
                          Ring(start, c) == Ring(start, r.value) && RowMajor(r.value, c)
    ensures r.None? ==> forall c: Cell :: m.Free(c) ==> Ring(start, c) > maxRadius
  {
    var (i0, j0) := start;
    IdxFacts(m.w, m.h);
    hide Idx;
    if !m.blocked[Idx(m.w, i0, j0)] {
      return Some(start);
    }
    for r := 1 to maxRadius + 1
      invariant forall c: Cell :: m.Free(c) ==> Ring(start, c) >= r
    {
      for di := -r to r + 1
        invariant forall c: Cell :: m.Free(c) ==> Ring(start, c) >= r
        invariant forall c: Cell :: m.Free(c) && Ring(start, c) == r ==> c.0 - i0 >= di
      {
        for dj := -r to r + 1
          invariant forall c: Cell :: m.Free(c) ==> Ring(start, c) >= r
          invariant forall c: Cell ::
                    m.Free(c) && Ring(start, c) == r ==> c.0 - i0 > di || (c.0 - i0 == di && c.1 - j0 >= dj)
        {
          if Abs(di) != r && Abs(dj) != r {
            continue;
          }
          var ii, jj := i0 + di, j0 + dj;
          if ii < 0 || jj < 0 || ii >= m.h || jj >= m.w {
            continue;
          }
          if !m.blocked[Idx(m.w, ii, jj)] {
            return Some((ii, jj));
          }
        }
      }
    }
    return None;
  }

  // ── The supercover test ─────────────────────────────────────────────────────

  /** The step of the line after its `k`-th cell goes through no blocked corner. */
  predicate CornersFree(m: Mask, a: Cell, b: Cell, k: nat)
  {
    var c, d := LineCell(a.0, a.1, b.0, b.1, k), LineCell(a.0, a.1, b.0, b.1, k + 1);
    c.0 != d.0 && c.1 != d.1 ==> m.Free((c.0, d.1)) && m.Free((d.0, c.1))
  }

  /** The first `n` cells of the line are free, and both corners of every diagonal
      step out of them. */
  ghost predicate ClearUpTo(m: Mask, a: Cell, b: Cell, n: nat)
  {
    && (forall k {:trigger LineCell(a.0, a.1, b.0, b.1, k)} :: 0 <= k < n ==> m.Free(LineCell(a.0, a.1, b.0, b.1, k)))
    && (forall k {:trigger CornersFree(m, a, b, k)} :: 0 <= k < n ==> CornersFree(m, a, b, k))
  }

  /** The straight line from `a` to `b`: all its cells are free, and so are both
      corners of every diagonal step. */
  ghost predicate ClearLine(m: Mask, a: Cell, b: Cell)
  {
    ClearUpTo(m, a, b, Steps(a.0, a.1, b.0, b.1)) && m.Free(b)
  }

  /** A blocked cell, or a blocked corner before the end, spoils the line. */
  lemma NotClear(m: Mask, a: Cell, b: Cell, k: nat)
    requires k <= Steps(a.0, a.1, b.0, b.1)
    requires !m.Free(LineCell(a.0, a.1, b.0, b.1, k)) || (k < Steps(a.0, a.1, b.0, b.1) && !CornersFree(m, a, b, k))
    ensures !ClearLine(m, a, b)
  {
    LineStaysInTheRectangle(a.0, a.1, b.0, b.1, k);
    hide LineCell, Steps, Mask.Free, CornersFree;
  }

  /** The walk stands on the line's `k`-th cell, having made `p` steps along i and `q`
      along j, with the error term that goes with them. */
  ghost predicate WalkedTo(a: Cell, b: Cell, p: int, q: int, k: nat, ai: int, aj: int, err: int)
  {
    var di, dj := Abs(b.0 - a.0), Abs(b.1 - a.1);
    && AtStep(di, dj, p, q, k) && k <= Steps(a.0, a.1, b.0, b.1)
    && err == Error(di, dj, p, q)
    && (ai, aj) == LineCell(a.0, a.1, b.0, b.1, k)
  }

  lemma WalkIsOnTheLine(m: Mask, a: Cell, b: Cell, p: int, q: int, k: nat, ai: int, aj: int, err: int)
    requires m.InBounds(a) && m.InBounds(b) && WalkedTo(a, b, p, q, k, ai, aj, err)
    ensures (ai, aj) == LineCell(a.0, a.1, b.0, b.1, k) == (Towards(a.0, b.0, p), Towards(a.1, b.1, q))
    ensures m.InBounds((ai, aj)) && k <= Steps(a.0, a.1, b.0, b.1)
    ensures (ai, aj) == b <==> k == Steps(a.0, a.1, b.0, b.1)
  {
    StepsGiveTheCell(a.0, a.1, b.0, b.1, p, q, k);
    LineStaysInTheRectangle(a.0, a.1, b.0, b.1, k);
    hide LineCell, AtStep, Steps, Error;
  }

  /** One step of the walk moves to the line's next cell. */
  lemma WalkedOneMore(m: Mask, a: Cell, b: Cell, p: int, q: int, k: nat, ai: int, aj: int, err: int, stepI: bool,
      stepJ: bool)
    requires m.InBounds(a) && m.InBounds(b) && WalkedTo(a, b, p, q, k, ai, aj, err) && k < Steps(a.0, a.1, b.0, b.1)
    requires stepI == (2 * err > -Abs(b.1 - a.1)) && stepJ == (2 * err < Abs(b.0 - a.0))
    ensures var ai', aj' := if stepI then ai + Direction(a.0, b.0) else ai, if stepJ then aj + Direction(a.1, b.1)
              else aj;
            && WalkedTo(a, b, if stepI then p + 1 else p, if stepJ then q + 1 else q, k + 1, ai', aj',
                        err - (if stepI then Abs(b.1 - a.1) else 0) + (if stepJ then Abs(b.0 - a.0) else 0))
            && LineCell(a.0, a.1, b.0, b.1, k + 1) == (ai', aj') && m.InBounds((ai', aj'))
  {
    hide Mask.InBounds, LineCell, WalkedTo, Steps, Direction, Abs;
    WalkedNext(a, b, p, q, k, ai, aj, err, stepI, stepJ);
    var ai', aj' := if stepI then ai + Direction(a.0, b.0) else ai, if stepJ then aj + Direction(a.1, b.1) else aj;
    WalkIsOnTheLine(m, a, b, if stepI then p + 1 else p, if stepJ then q + 1 else q, k + 1, ai', aj',
                    err - (if stepI then Abs(b.1 - a.1) else 0) + (if stepJ then Abs(b.0 - a.0) else 0));
  }

  lemma WalkedNext(a: Cell, b: Cell, p: int, q: int, k: nat, ai: int, aj: int, err: int, stepI: bool, stepJ: bool)
    requires WalkedTo(a, b, p, q, k, ai, aj, err) && k < Steps(a.0, a.1, b.0, b.1)
    requires stepI == (2 * err > -Abs(b.1 - a.1)) && stepJ == (2 * err < Abs(b.0 - a.0))
    ensures var ai', aj' := if stepI then ai + Direction(a.0, b.0) else ai, if stepJ then aj + Direction(a.1, b.1)
              else aj;
            WalkedTo(a, b, if stepI then p + 1 else p, if stepJ then q + 1 else q, k + 1, ai', aj',
                     err - (if stepI then Abs(b.1 - a.1) else 0) + (if stepJ then Abs(b.0 - a.0) else 0))
  {
    hide LineCell, AtStep, Steps, Error, Abs, Towards, Direction, Max;
    var di, dj := Abs(b.0 - a.0), Abs(b.1 - a.1);
    LongerAxis(a, b);
    StepLandsOnTheLine(di, dj, p, q, k);
    StepsGiveTheCell(a.0, a.1, b.0, b.1, p, q, k);
    StepsGiveTheCell(a.0, a.1, b.0, b.1, if stepI then p + 1 else p, if stepJ then q + 1 else q, k + 1);
    OneStepTowards(a.0, b.0, p);
    OneStepTowards(a.1, b.1, q);
  }

  lemma LongerAxis(a: Cell, b: Cell)
    ensures Abs(b.0 - a.0) >= 0 && Abs(b.1 - a.1) >= 0
              && Steps(a.0, a.1, b.0, b.1) == Max(Abs(b.0 - a.0), Abs(b.1 - a.1))
  {
  }

  lemma OneStepTowards(from: int, to: int, n: int)
    ensures Towards(from, to, n + 1) == Towards(from, to, n) + Direction(from, to)
  {
  }

  lemma LineStarts(m: Mask, a: Cell, b: Cell)
    ensures ClearUpTo(m, a, b, 0) && WalkedTo(a, b, 0, 0, 0, a.0, a.1, Abs(b.0 - a.0) - Abs(b.1 - a.1))
  {
    WalkStarts(Abs(b.0 - a.0), Abs(b.1 - a.1));
    LineStaysInTheRectangle(a.0, a.1, b.0, b.1, 0);
  }

  /** Walks the line and stops at the first blocked cell or corner; true exactly for
      a clear line. */
  method LineOfSight(m: Mask, a: Cell, b: Cell) returns (visible: bool)
    requires m.Valid() && m.InBounds(a) && m.InBounds(b)
    ensures visible <==> ClearLine(m, a, b)
  {
    hide ClearLine, Mask.Valid, Mask.Free, Mask.InBounds, WalkedTo, LineCell, Steps, Abs, Direction, ClearUpTo,
        CornersFree, Towards;
    var (ai, aj) := a;
    var (bi, bj) := b;
    var di, dj := Abs(bi - ai), Abs(bj - aj);
    var si, sj := Direction(ai, bi), Direction(aj, bj);
    var err := di - dj;
    ghost var p, q, k := 0, 0, 0;
    LineStarts(m, a, b);
    while true
      invariant WalkedTo(a, b, p, q, k, ai, aj, err)
      invariant ClearUpTo(m, a, b, k)
      decreases Steps(a.0, a.1, bi, bj) - k
    {
      WalkIsOnTheLine(m, a, b, p, q, k, ai, aj, err);
      if !m.Free((ai, aj)) {
        NotClear(m, a, b, k);
        return false;
      }
      if ai == bi && aj == bj {
        ClearToTheEnd(m, a, b, k);
        return true;
      }
      var e2 := 2 * err;
      var stepI, stepJ := e2 > -dj, e2 < di;
      WalkedOneMore(m, a, b, p, q, k, ai, aj, err, stepI, stepJ);
      var clear := CornersClear(m, a, b, k, ai, aj, if stepI then si else 0, if stepJ then sj else 0);
      if !clear {
        NotClear(m, a, b, k);
        return false;
      }
      ClearOneMore(m, a, b, k);
      p, q, k := if stepI then p + 1 else p, if stepJ then q + 1 else q, k + 1;
      if stepI {
        err := err - dj;
        ai := ai + si;
      }
      if stepJ {
        err := err + di;
        aj := aj + sj;
      }
    }
  }

  lemma ClearToTheEnd(m: Mask, a: Cell, b: Cell, k: nat)
    requires ClearUpTo(m, a, b, k) && k == Steps(a.0, a.1, b.0, b.1) && m.Free(b)
    ensures ClearLine(m, a, b)
  {
  }

  lemma ClearOneMore(m: Mask, a: Cell, b: Cell, k: nat)
    requires ClearUpTo(m, a, b, k) && m.Free(LineCell(a.0, a.1, b.0, b.1, k)) && CornersFree(m, a, b, k)
    ensures ClearUpTo(m, a, b, k + 1)
  {
  }

  /** The two orthogonal neighbours of a diagonal step. */
  method CornersClear(m: Mask, ghost a: Cell, ghost b: Cell, ghost k: nat, ai: int, aj: int, stepI: int,
      stepJ: int) returns (clear: bool)
    requires m.Valid() && m.InBounds((ai, aj)) && m.InBounds((ai + stepI, aj + stepJ))
    requires LineCell(a.0, a.1, b.0, b.1, k) == (ai, aj)
              && LineCell(a.0, a.1, b.0, b.1, k + 1) == (ai + stepI, aj + stepJ)
    ensures clear <==> CornersFree(m, a, b, k)
  {
    IdxFacts(m.w, m.h);
    hide Idx, LineCell;
    if stepI != 0 && stepJ != 0 {
      clear := m.Free((ai, aj + stepJ)) && m.Free((ai + stepI, aj));
    } else {
      clear := true;
    }
  }

  // ── Simplification ──────────────────────────────────────────────────────────

  /** A legal move from a free cell is a clear line. */
  lemma MovesAreClear(m: Mask, a: Cell, b: Cell)
    requires m.Free(a) && m.Move(a, b)
    ensures ClearLine(m, a, b)
  {
    assert Steps(a.0, a.1, b.0, b.1) == 1;
    LineStaysInTheRectangle(a.0, a.1, b.0, b.1, 0);
    LineStaysInTheRectangle(a.0, a.1, b.0, b.1, 1);
    hide LineCell, Mask.Free;
  }

  ghost predicate ClearSegments(m: Mask, p: seq<Cell>)
  {
    forall k {:trigger p[k]} :: 1 <= k < |p| ==> ClearLine(m, p[k - 1], p[k])
  }

  lemma {:induction false} WalksAreFree(m: Mask, p: seq<Cell>, from: Cell, to: Cell, k: nat)
    requires m.IsPath(p, from, to) && m.Free(from) && k < |p|
    ensures m.Free(p[k])
  {
  }

  lemma WalksAreClear(m: Mask, p: seq<Cell>, from: Cell, to: Cell)
    requires m.IsPath(p, from, to) && m.Free(from)
    ensures ClearSegments(m, p) && forall k :: 0 <= k < |p| ==> m.InBounds(p[k])
  {
    forall k | 0 <= k < |p| ensures m.Free(p[k]) {
      WalksAreFree(m, p, from, to, k);
    }
    hide ClearLine, Mask.Move;
    forall k {:trigger p[k]} | 1 <= k < |p| ensures ClearLine(m, p[k - 1], p[k]) {
      MovesAreClear(m, p[k - 1], p[k]);
    }
  }

  /** `out` keeps the cells of `p` at the increasing positions `picks`, the first
      being the first and the last the one at `end`. */
  ghost predicate Picked(p: seq<Cell>, out: seq<Cell>, picks: seq<int>, end: int)
  {
    && |picks| == |out| > 0 && picks[0] == 0 && picks[|picks| - 1] == end
    && Increasing(picks)
    && forall k :: 0 <= k < |out| ==> 0 <= picks[k] < |p| && out[k] == p[picks[k]]
  }

  ghost predicate Increasing(picks: seq<int>)
  {
    forall k, l :: 0 <= k < l < |picks| ==> picks[k] < picks[l]
  }

  /** Every cell of the path from `p` on is in sight of the one at `p` up to the one at
      `q`, and the next is not, unless `q` is the last. */
  ghost predicate SeesTo(m: Mask, path: seq<Cell>, p: int, q: int)
  {
    && 0 <= p < q < |path|
    && (forall j :: p < j <= q ==> ClearLine(m, path[p], path[j]))
    && (q < |path| - 1 ==> !ClearLine(m, path[p], path[q + 1]))
  }

  /** Every pick is as far as the one before it sees without a gap. */
  ghost predicate Greedy(m: Mask, path: seq<Cell>, picks: seq<int>)
  {
    forall k {:trigger picks[k]} :: 1 <= k < |picks| ==> SeesTo(m, path, picks[k - 1], picks[k])
  }

  /** Which leaves one choice of picks. */
  lemma {:induction false} GreedyIsUnique(m: Mask, path: seq<Cell>, a: seq<int>, b: seq<int>, n: nat)
    requires Greedy(m, path, a) && Greedy(m, path, b) && Increasing(b)
    requires |a| > 0 && |b| > 0 && a[0] == b[0] && a[|a| - 1] == b[|b| - 1] == |path| - 1 && n <= |a|
    ensures n <= |b| && forall k :: 0 <= k < n ==> a[k] == b[k]
  {
    hide SeesTo, Increasing;
    if n > 1 {
      GreedyIsUnique(m, path, a, b, n - 1);
      assert SeesTo(m, path, a[n - 2], a[n - 1]);
      SeesForward(m, path, a[n - 2], a[n - 1]);
      assert SeesTo(m, path, b[n - 2], b[n - 1]);
      SeesToOne(m, path, a[n - 2], a[n - 1], b[n - 1]);
    }
  }

  lemma SeesForward(m: Mask, path: seq<Cell>, p: int, q: int)
    requires SeesTo(m, path, p, q)
    ensures 0 <= p < q < |path|
  {
  }

  lemma SeesToOne(m: Mask, path: seq<Cell>, p: int, q: int, r: int)
    requires SeesTo(m, path, p, q) && SeesTo(m, path, p, r)
    ensures q == r
  {
    hide ClearLine;
  }

  lemma GreedyOneMore(m: Mask, path: seq<Cell>, picks: seq<int>, p: int, next: int)
    requires Greedy(m, path, picks) && |picks| > 0 && picks[|picks| - 1] == p && SeesTo(m, path, p, next)
    ensures Greedy(m, path, picks + [next])
  {
    hide SeesTo;
    var more := picks + [next];
    forall k {:trigger more[k]} | 1 <= k < |more| ensures SeesTo(m, path, more[k - 1], more[k]) {
      if k < |picks| {
        assert picks[k] == more[k] && picks[k - 1] == more[k - 1];
      }
    }
  }

  lemma PickOneMore(p: seq<Cell>, out: seq<Cell>, picks: seq<int>, end: int, next: int)
    requires Picked(p, out, picks, end) && end < next < |p|
    ensures Picked(p, out + [p[next]], picks + [next], next)
  {
  }

  lemma PickedEnds(p: seq<Cell>, out: seq<Cell>, picks: seq<int>, end: int)
    requires Picked(p, out, picks, end)
    ensures |p| > 0 && |out| > 0 && 0 <= end < |p| && out[0] == p[0] && out[|out| - 1] == p[end]
    ensures |picks| > 0 && picks[|picks| - 1] == end
  {
  }

  lemma SegmentsOneMore(m: Mask, out: seq<Cell>, c: Cell)
    requires ClearSegments(m, out) && |out| > 0 && ClearLine(m, out[|out| - 1], c)
    ensures ClearSegments(m, out + [c])
  {
    hide ClearLine;
    var out' := out + [c];
    forall k {:trigger out'[k]} | 1 <= k < |out'| ensures ClearLine(m, out'[k - 1], out'[k]) {
      if k < |out| {
        assert out'[k] == out[k] && out'[k - 1] == out[k - 1];
      }
    }
  }

  /** The cells from the one at `p` on are in sight of it up to the one at `q`. */
  ghost predicate Sees(m: Mask, path: seq<Cell>, p: int, q: int)
  {
    0 <= p < q < |path| && forall j :: p < j <= q ==> ClearLine(m, path[p], path[j])
  }

  /** `out` is the simplified path up to the pick at `end`. */
  ghost predicate Simplified(m: Mask, path: seq<Cell>, out: seq<Cell>, picks: seq<int>, end: int)
  {
    Picked(path, out, picks, end) && Greedy(m, path, picks) && ClearSegments(m, out)
  }

  lemma SimplifiedOneMore(m: Mask, path: seq<Cell>, out: seq<Cell>, picks: seq<int>, end: int, next: int)
    requires Simplified(m, path, out, picks, end) && Sees(m, path, end, next)
    requires next < |path| - 1 ==> !ClearLine(m, path[end], path[next + 1])
    ensures Simplified(m, path, out + [path[next]], picks + [next], next)
  {
    hide ClearLine, Picked, Greedy, ClearSegments;
    PickedEnds(path, out, picks, end);
    PickOneMore(path, out, picks, end, next);
    GreedyOneMore(m, path, picks, end, next);
    SegmentsOneMore(m, out, path[next]);
  }

  /** A path too short to simplify, and the start of a longer one. */
  lemma ShortPath(m: Mask, path: seq<Cell>, picks: seq<int>)
    requires ClearSegments(m, path) && |path| > 0
    ensures Simplified(m, path, [path[0]], [0], 0)
    ensures |path| == 2 && picks == [0, 1] ==> Simplified(m, path, path, picks, 1)
  {
    hide ClearLine;
    assert |path| == 2 ==> ClearLine(m, path[1 - 1], path[1]);
    assert |path| == 1 ==> path == [path[0]];
  }

  /** A step of the path is in sight. */
  lemma SeesAStep(m: Mask, path: seq<Cell>, p: int)
    requires ClearSegments(m, path) && 0 <= p < |path| - 1
    ensures Sees(m, path, p, p + 1)
  {
    hide ClearLine;
    assert ClearLine(m, path[p + 1 - 1], path[p + 1]);
  }

  /** Greedy simplification: of a path whose every step is a clear line, a
      subsequence with the same two ends whose every step is a clear line, and goes as
      far as can be seen without a gap. */
  method SimplifyPath(m: Mask, path: seq<Cell>) returns (out: seq<Cell>, ghost picks: seq<int>)
    requires m.Valid() && ClearSegments(m, path) && forall k :: 0 <= k < |path| ==> m.InBounds(path[k])
    ensures |path| < 3 ==> out == path
    ensures |path| > 0 ==> Simplified(m, path, out, picks, |path| - 1)
    ensures ClearSegments(m, out)
  {
    hide ClearLine, Mask.Valid, Mask.InBounds, Simplified, Sees, ClearSegments;
    if |path| < 3 {
      picks := if |path| == 2 then [0, 1] else if |path| == 1 then [0] else [];
      if |path| > 0 {
        ShortPath(m, path, picks);
        assert |path| == 1 ==> path == [path[0]];
      }
      return path, picks;
    }
    out, picks := [path[0]], [0];
    var anchor, lastVisible := 0, 1;
    ShortPath(m, path, picks);
    SeesAStep(m, path, 0);
    while lastVisible + 1 < |path|
      invariant 0 <= anchor < lastVisible < |path|
      invariant Simplified(m, path, out, picks, anchor) && Sees(m, path, anchor, lastVisible)
      decreases |path| - anchor, |path| - lastVisible
    {
      var next := lastVisible + 1;
      var visible := LineOfSight(m, path[anchor], path[next]);
      if visible {
        SeesOneMore(m, path, anchor, lastVisible);
        lastVisible := next;
      } else {
        SimplifiedOneMore(m, path, out, picks, anchor, lastVisible);
        out, picks := out + [path[lastVisible]], picks + [lastVisible];
        anchor := lastVisible;
        lastVisible := anchor + 1;
        SeesAStep(m, path, anchor);
      }
    }
    SimplifiedOneMore(m, path, out, picks, anchor, lastVisible);
    out, picks := out + [path[|path| - 1]], picks + [lastVisible];
    SegmentsAreClear(m, path, out, picks);
  }

  lemma SeesOneMore(m: Mask, path: seq<Cell>, p: int, q: int)
    requires Sees(m, path, p, q) && q + 1 < |path| && ClearLine(m, path[p], path[q + 1])
    ensures Sees(m, path, p, q + 1)
  {
    hide ClearLine;
  }

  lemma SegmentsAreClear(m: Mask, path: seq<Cell>, out: seq<Cell>, picks: seq<int>)
    requires Simplified(m, path, out, picks, |path| - 1)
    ensures ClearSegments(m, out)
  {
  }

  // ── The plan ────────────────────────────────────────────────────────────────

  /** The mask the grid's walls and the inflation call for. */
  ghost predicate Inflated(m: Mask, log: seq<int>, w: nat, h: nat, cfg: PlannerConfig)
  {
    && m.w == w && m.h == h && |log| == |m.blocked| == w * h
    && forall i, j {:trigger Idx(w, i, j)} :: 0 <= i < h && 0 <= j < w && 0 <= Idx(w, i, j) < w * h ==>
         (m.blocked[Idx(w, i, j)] <==> NearWall(log, w, h, cfg.occThreshold, cfg.inflateCells, i, j))
  }

  /** Inside the grid and farther than the inflation from every wall. */
  ghost predicate Safe(log: seq<int>, w: nat, h: nat, cfg: PlannerConfig, c: Cell)
  {
    && 0 <= c.0 < h && 0 <= c.1 < w
    && forall k, l ::
       IsWall(log, w, h, cfg.occThreshold, k, l) ==> SquaredDistance(c.0, c.1, k, l) > Square(cfg.inflateCells)
  }

  lemma FreeIsSafe(m: Mask, log: seq<int>, w: nat, h: nat, cfg: PlannerConfig, c: Cell)
    requires Inflated(m, log, w, h, cfg)
    ensures m.Free(c) <==> Safe(log, w, h, cfg, c)
  {
    IdxFacts(w, h);
    hide Idx, SquaredDistance, Square, IsWall;
  }

  /** Every cell the straight line from `a` to `b` walks is safe, and so are the two
      cells beside every diagonal step of it. */
  ghost predicate SafeLine(log: seq<int>, w: nat, h: nat, cfg: PlannerConfig, a: Cell, b: Cell)
  {
    && (forall k :: 0 <= k <= Steps(a.0, a.1, b.0, b.1) ==> Safe(log, w, h, cfg, LineCell(a.0, a.1, b.0, b.1, k)))
    && (forall k {:trigger CornerCells(a, b, k)} :: 0 <= k < Steps(a.0, a.1, b.0, b.1) ==>
          Safe(log, w, h, cfg, CornerCells(a, b, k).0) && Safe(log, w, h, cfg, CornerCells(a, b, k).1))
  }

  /** The cells beside the step after the line's `k`-th cell; on a straight step, the
      step's own two cells. */
  function CornerCells(a: Cell, b: Cell, k: nat): (Cell, Cell)
  {
    var c, d := LineCell(a.0, a.1, b.0, b.1, k), LineCell(a.0, a.1, b.0, b.1, k + 1);
    ((c.0, d.1), (d.0, c.1))
  }

  lemma ClearLineIsSafe(m: Mask, log: seq<int>, w: nat, h: nat, cfg: PlannerConfig, a: Cell, b: Cell)
    requires Inflated(m, log, w, h, cfg)
    ensures ClearLine(m, a, b) <==> SafeLine(log, w, h, cfg, a, b)
  {
    hide Mask.Free, Safe, Inflated, ClearLine, SafeLine;
    forall c ensures m.Free(c) <==> Safe(log, w, h, cfg, c) {
      FreeIsSafe(m, log, w, h, cfg, c);
    }
    if ClearLine(m, a, b) {
      ClearIsSafe(m, log, w, h, cfg, a, b);
    }
    if SafeLine(log, w, h, cfg, a, b) {
      SafeIsClear(m, log, w, h, cfg, a, b);
    }
  }

  lemma ClearIsSafe(m: Mask, log: seq<int>, w: nat, h: nat, cfg: PlannerConfig, a: Cell, b: Cell)
    requires (forall c :: m.Free(c) <==> Safe(log, w, h, cfg, c)) && ClearLine(m, a, b)
    ensures SafeLine(log, w, h, cfg, a, b)
  {
    hide Mask.Free, Safe, LineCell, Steps;
    var n := Steps(a.0, a.1, b.0, b.1);
    LineStaysInTheRectangle(a.0, a.1, b.0, b.1, n);
    forall k | 0 <= k <= n ensures Safe(log, w, h, cfg, LineCell(a.0, a.1, b.0, b.1, k)) {
      assert m.Free(LineCell(a.0, a.1, b.0, b.1, k));
    }
    forall k {:trigger CornerCells(a, b, k)} | 0 <= k < n
      ensures Safe(log, w, h, cfg, CornerCells(a, b, k).0) && Safe(log, w, h, cfg, CornerCells(a, b, k).1)
    {
      assert CornersFree(m, a, b, k);
      assert m.Free(LineCell(a.0, a.1, b.0, b.1, k)) && m.Free(LineCell(a.0, a.1, b.0, b.1, k + 1));
    }
  }

  lemma SafeIsClear(m: Mask, log: seq<int>, w: nat, h: nat, cfg: PlannerConfig, a: Cell, b: Cell)
    requires (forall c :: m.Free(c) <==> Safe(log, w, h, cfg, c)) && SafeLine(log, w, h, cfg, a, b)
    ensures ClearLine(m, a, b)
  {
    hide Mask.Free, Safe, LineCell, Steps;
    var n := Steps(a.0, a.1, b.0, b.1);
    LineStaysInTheRectangle(a.0, a.1, b.0, b.1, n);
    assert LineCell(a.0, a.1, b.0, b.1, n) == b;
    assert Safe(log, w, h, cfg, LineCell(a.0, a.1, b.0, b.1, n));
    forall k {:trigger CornersFree(m, a, b, k)} | 0 <= k < n ensures CornersFree(m, a, b, k) {
      assert Safe(log, w, h, cfg, CornerCells(a, b, k).0);
    }
  }

  /** The centre of a cell in the world. */
  function Centre(cfg: GridConfig, c: Cell): (real, real)
  {
    (cfg.xMin + (c.1 as real + 0.5) * cfg.cell, cfg.yMin + (c.0 as real + 0.5) * cfg.cell)
  }

  /** A waypoint converts back to the cell it stands for. */
  lemma CentreIsInItsCell(grid: OccupancyGrid, c: Cell)
    requires grid.cfg.cell > 0.0 && I32_MIN <= c.0 <= I32_MAX && I32_MIN <= c.1 <= I32_MAX
    ensures var (x, y) := Centre(grid.cfg, c); grid.WorldToCell(Real(x), Real(y)) == c
  {
    var (x, y) := Centre(grid.cfg, c);
    HalfwayIsInTheCell(grid.cfg.xMin, c.1, grid.cfg.cell, x);
    HalfwayIsInTheCell(grid.cfg.yMin, c.0, grid.cfg.cell, y);
    hide CellOf;
  }

  lemma HalfwayIsInTheCell(min: real, n: int, cell: real, v: real)
    requires cell > 0.0 && I32_MIN <= n <= I32_MAX && v == min + (n as real + 0.5) * cell
    ensures CellOf(v, min, cell) == n
  {
    var d := n as real + 0.5;
    QuotientOfAProduct(d, cell);
    assert (v - min) / cell == d by {
      assert v - min == d * cell;
    }
    assert d.Floor == n;
  }

  lemma QuotientOfAProduct(d: real, cell: real)
    requires cell > 0.0
    ensures d * cell / cell == d
  {
  }

  /** `c` is where `s` snaps to: itself when safe, else the safe cell on the innermost
      ring that has one, first in row-major order, at most twice the inflation out. */
  ghost predicate Snapped(log: seq<int>, w: nat, h: nat, cfg: PlannerConfig, s: Cell, c: Cell)
  {
    && Safe(log, w, h, cfg, c) && Ring(s, c) <= 2 * cfg.inflateCells
    && forall d: Cell ::
       Safe(log, w, h, cfg, d) && Ring(s, d) <= Ring(s, c) ==> Ring(s, d) == Ring(s, c) && RowMajor(c, d)
  }

  ghost predicate CannotSnap(log: seq<int>, w: nat, h: nat, cfg: PlannerConfig, s: Cell)
  {
    forall d: Cell :: Safe(log, w, h, cfg, d) ==> Ring(s, d) > 2 * cfg.inflateCells
  }

  method Snap(m: Mask, ghost log: seq<int>, cfg: PlannerConfig, s: Cell) returns (r: Option<Cell>)
    requires m.Valid() && m.InBounds(s) && Inflated(m, log, m.w, m.h, cfg)
    ensures r.Some? ==> m.Free(r.value) && Snapped(log, m.w, m.h, cfg, s, r.value)
    ensures r.None? ==> CannotSnap(log, m.w, m.h, cfg, s)
  {
    r := NearestFree(m, s, 2 * cfg.inflateCells);
    hide Mask.Free, Inflated, Safe, Ring, RowMajor;
    forall c | true ensures m.Free(c) <==> Safe(log, m.w, m.h, cfg, c) {
      FreeIsSafe(m, log, m.w, m.h, cfg, c);
    }
  }

  /** No walk the search could return: every one costs more than an i32 holds, or the
      expansion cap was passed. */
  ghost predicate NoWalk(m: Mask, s: Cell, g: Cell, cap: nat)
  {
    || (forall p :: m.IsPath(p, s, g) ==> PathCost(p) >= I32_MAX)
    || m.ManyReachable(s, cap)
  }

  /** The cells of a planned route: from where the start snaps to where the goal
      snaps, every segment safe, greedily picked from a cheapest walk. */
  ghost predicate GoodRoute(m: Mask, log: seq<int>, w: nat, h: nat, cfg: PlannerConfig, start: Cell, goal: Cell,
      cells: seq<Cell>)
  {
    && |cells| > 0
    && Snapped(log, w, h, cfg, start, cells[0]) && Snapped(log, w, h, cfg, goal, cells[|cells| - 1])
    && (forall k {:trigger cells[k]} :: 1 <= k < |cells| ==> SafeLine(log, w, h, cfg, cells[k - 1], cells[k]))
    && OnACheapestWalk(m, cells)
  }

  ghost predicate OnACheapestWalk(m: Mask, cells: seq<Cell>)
    requires |cells| > 0
  {
    exists walk, picks, end ::
      && Simplified(m, walk, cells, picks, end) && end == |walk| - 1
      && Cheapest(m, walk, cells[0], cells[|cells| - 1])
  }

  ghost predicate Cheapest(m: Mask, walk: seq<Cell>, from: Cell, to: Cell)
  {
    m.IsPath(walk, from, to) && forall p :: m.IsPath(p, from, to) ==> PathCost(walk) <= PathCost(p)
  }

  lemma RouteIsGood(m: Mask, log: seq<int>, cfg: PlannerConfig, start: Cell, goal: Cell, walk: seq<Cell>,
      cells: seq<Cell>, picks: seq<int>)
    requires Inflated(m, log, m.w, m.h, cfg) && |walk| > 0 && Simplified(m, walk, cells, picks, |walk| - 1)
    requires Cheapest(m, walk, walk[0], walk[|walk| - 1])
    requires Snapped(log, m.w, m.h, cfg, start, walk[0]) && Snapped(log, m.w, m.h, cfg, goal, walk[|walk| - 1])
    ensures GoodRoute(m, log, m.w, m.h, cfg, start, goal, cells)
  {
    PickedEnds(walk, cells, picks, |walk| - 1);
    hide Inflated, Snapped, SafeLine, ClearLine, Picked, Cheapest, Greedy;
    forall k {:trigger cells[k]} | 1 <= k < |cells| ensures SafeLine(log, m.w, m.h, cfg, cells[k - 1], cells[k]) {
      ClearLineIsSafe(m, log, m.w, m.h, cfg, cells[k - 1], cells[k]);
    }
  }

  /** Search and simplify, on the mask. */
  method Route(m: Mask, ghost log: seq<int>, cfg: PlannerConfig, ghost start: Cell, ghost goal: Cell, s: Cell, g: Cell)
      returns (cells: Option<seq<Cell>>)
    requires m.Valid() && Inflated(m, log, m.w, m.h, cfg) && m.Free(s) && m.Free(g)
    requires Snapped(log, m.w, m.h, cfg, start, s) && Snapped(log, m.w, m.h, cfg, goal, g)
    ensures cells.Some? ==> GoodRoute(m, log, m.w, m.h, cfg, start, goal, cells.value)
    ensures cells.None? ==> NoWalk(m, s, g, cfg.maxExpansions)
  {
    FreeIsInBounds(m, s);
    FreeIsInBounds(m, g);
    hide Inflated, Snapped, ClearSegments, Mask.Free, Mask.Move, Mask.Valid, Mask.InBounds, GoodRoute,
        Simplified, Mask.ManyReachable;
    var path := Astar(Query(m, s, g), cfg.maxExpansions);
    if path.None? {
      return None;
    }
    WalksAreClear(m, path.value, s, g);
    var smoothed, picks := SimplifyPath(m, path.value);
    RouteIsGood(m, log, cfg, start, goal, path.value, smoothed, picks);
    return Some(smoothed);
  }

  lemma FreeIsInBounds(m: Mask, c: Cell)
    requires m.Free(c)
    ensures m.InBounds(c)
  {
  }

  /** The inflated mask, written out. */
  ghost function InflatedMask(log: seq<int>, w: nat, h: nat, cfg: PlannerConfig): Mask
  {
    Mask(seq(w * h, n requires 0 <= n < w * h => w > 0
        && NearWall(log, w, h, cfg.occThreshold, cfg.inflateCells, n / w, n % w)), w, h)
  }

  lemma InflatedIsTheMask(m: Mask, log: seq<int>, w: nat, h: nat, cfg: PlannerConfig)
    requires Inflated(m, log, w, h, cfg)
    ensures m == InflatedMask(log, w, h, cfg)
  {
    hide NearWall;
    var blocked := InflatedMask(log, w, h, cfg).blocked;
    forall n | 0 <= n < w * h ensures m.blocked[n] == blocked[n] {
      SlotHasACell(w, h, n);
      hide Idx;
      assert m.blocked[Idx(w, n / w, n % w)] <==> NearWall(log, w, h, cfg.occThreshold, cfg.inflateCells, n / w, n % w);
    }
  }

  /** The waypoints are the centres of the cells of a good route. */
  ghost predicate IsPlan(grid: GridConfig, log: seq<int>, w: nat, h: nat, cfg: PlannerConfig, start: Cell, goal: Cell,
      route: seq<(real, real)>)
  {
    exists cells: seq<Cell> ::
        GoodRoute(InflatedMask(log, w, h, cfg), log, w, h, cfg, start, goal, cells) && Waypoints(grid, cells, route)
  }

  predicate Waypoints(grid: GridConfig, cells: seq<Cell>, route: seq<(real, real)>)
  {
    |route| == |cells| && forall k :: 0 <= k < |cells| ==> route[k] == Centre(grid, cells[k])
  }

  /** An end has no safe cell near enough, or no walk joins the cells they snap to. */
  ghost predicate NoPlan(log: seq<int>, w: nat, h: nat, cfg: PlannerConfig, start: Cell, goal: Cell)
  {
    || CannotSnap(log, w, h, cfg, start) || CannotSnap(log, w, h, cfg, goal)
    || exists s, g ::
       Snapped(log, w, h, cfg, start, s) && Snapped(log, w, h, cfg, goal, g)
       && NoWalk(InflatedMask(log, w, h, cfg), s, g, cfg.maxExpansions)
  }

  method MaskOf(grid: OccupancyGrid, cfg: PlannerConfig) returns (mask: Mask)
    requires grid.Valid() && grid.w * grid.h <= I32_MAX && COST_DIAGONAL * Max(grid.w, grid.h) <= I32_MAX
    ensures mask.Valid() && mask.w == grid.w && mask.h == grid.h && grid.cfg.cell > 0.0
    ensures Inflated(mask, grid.log[..], grid.w, grid.h, cfg) && mask == InflatedMask(grid.log[..], grid.w, grid.h, cfg)
  {
    var blocked := InflatedObstacles(grid.log[..], grid.w, grid.h, cfg.inflateCells, cfg.occThreshold);
    mask := Mask(blocked[..], grid.w, grid.h);
    assert Inflated(mask, grid.log[..], grid.w, grid.h, cfg);
    InflatedIsTheMask(mask, grid.log[..], grid.w, grid.h, cfg);
  }

  /** A plan. Its waypoints are centres of cells; every cell its segments walk is in
      the grid and farther than the inflation from every wall. There is none only
      when an end is outside the grid, an end has no safe cell close enough, or no
      walk joins the two. */
  method Plan(grid: OccupancyGrid, startX: Coordinate, startY: Coordinate, goalX: Coordinate, goalY: Coordinate,
      cfg: PlannerConfig)
    returns (route: Option<seq<(real, real)>>)
    requires grid.Valid() && grid.w * grid.h <= I32_MAX && COST_DIAGONAL * Max(grid.w, grid.h) <= I32_MAX
    ensures var (s, g) := (grid.WorldToIdx(startX, startY), grid.WorldToIdx(goalX, goalY));
            if s.None? || g.None? then route.None?
            else if route.Some? then IsPlan(grid.cfg, grid.log[..], grid.w, grid.h, cfg, s.value, g.value, route.value)
            else NoPlan(grid.log[..], grid.w, grid.h, cfg, s.value, g.value)
  {
    hide Inflated, Snapped, CannotSnap, NoWalk, GoodRoute, Mask.Valid, Centre, Mask.Free, OccupancyGrid.WorldToIdx,
        OccupancyGrid.WorldToCell, InflatedMask, OccupancyGrid.Valid;
    ghost var log := grid.log[..];
    var mask := MaskOf(grid, cfg);
    var s, g := grid.WorldToIdx(startX, startY), grid.WorldToIdx(goalX, goalY);
    if s.None? || g.None? {
      return None;
    }
    OnTheGrid(grid, startX, startY);
    OnTheGrid(grid, goalX, goalY);
    var from := Snap(mask, log, cfg, s.value);
    if from.None? {
      return None;
    }
    var to := Snap(mask, log, cfg, g.value);
    if to.None? {
      return None;
    }
    var smoothed := Route(mask, log, cfg, s.value, g.value, from.value, to.value);
    if smoothed.None? {
      return None;
    }
    route := Some(seq(|smoothed.value|, k requires 0 <= k < |smoothed.value| => Centre(grid.cfg, smoothed.value[k])));
    assert Waypoints(grid.cfg, smoothed.value, route.value);
  }

  lemma OnTheGrid(grid: OccupancyGrid, x: Coordinate, y: Coordinate)
    requires grid.cfg.cell > 0.0 && grid.WorldToIdx(x, y).Some?
    ensures var c := grid.WorldToIdx(x, y).value; 0 <= c.0 < grid.h && 0 <= c.1 < grid.w
  {
  }
}
