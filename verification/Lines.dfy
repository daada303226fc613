/** The integer line walk of `maploc/src/grid.rs`, and the closed form it computes.
    The planner's supercover test walks the same cells. */
module Lines {

  function Abs(x: int): (r: int)
    ensures r >= 0
  {
    if x < 0 then -x else x
  }

  function Max(a: int, b: int): int
  {
    if a < b then b else a
  }

  /** Which way a coordinate moves along the line. */
  function Direction(from: int, to: int): int
  {
    if from < to then 1 else -1
  }

  /** The coordinate after `n` steps that way. */
  function Towards(from: int, to: int, n: int): int
  {
    if from < to then from + n else from - n
  }

  /** The number of steps the walk takes. */
  function Steps(i0: int, j0: int, i1: int, j1: int): (n: nat)
  {
    Max(Abs(i1 - i0), Abs(j1 - j0))
  }

  /** `k * minor / major` rounded to the nearest integer, half downwards. */
  function Rounded(k: nat, minor: nat, major: nat): int
  {
    if major == 0 then 0 else (2 * k * minor + major - 1) / (2 * major)
  }

  /** The `k`-th cell of the line, in closed form: one step a cell along the longer
      axis, the nearest cell on the shorter one. */
  function LineCell(i0: int, j0: int, i1: int, j1: int, k: nat): (int, int)
  {
    var di, dj := Abs(i1 - i0), Abs(j1 - j0);
    if di <= dj then (Towards(i0, i1, Rounded(k, di, dj)), Towards(j0, j1, k))
    else (Towards(i0, i1, k), Towards(j0, j1, Rounded(k, dj, di)))
  }

  /** How far `k` steps of slope `minor` run ahead of `r` steps of `major`. */
  function Gap(k: int, minor: int, r: int, major: int): int
  {
    k * minor - r * major
  }

  /** `r` is the integer within half of `k * minor / major`, the lower one of two. */
  predicate Nearest(r: int, k: nat, minor: nat, major: nat)
  {
    if major == 0 then r == 0 else -(major as int) < 2 * Gap(k, minor, r, major) <= major
  }

  lemma RoundedIsNearest(r: int, k: nat, minor: nat, major: nat)
    ensures Nearest(r, k, minor, major) <==> r == Rounded(k, minor, major)
  {
    if major > 0 {
      var n := 2 * k * minor + major - 1;
      var q := Rounded(k, minor, major);
      assert 2 * major * q <= n < 2 * major * q + 2 * major;
      assert 2 * Gap(k, minor, q, major) == n - major + 1 - 2 * major * q;
      GapDifference(k, minor, r, q, major);
      if Nearest(r, k, minor, major) && r != q {
        if r < q { MultipleAtLeast(q - r, major); } else { MultipleAtLeast(r - q, major); }
      }
    }
  }

  lemma MultipleAtLeast(x: int, y: int)
    requires x >= 1 && y >= 0
    ensures x * y >= y && -x * y <= -y
  {
  }

  lemma GapDifference(k: int, minor: int, r: int, q: int, major: int)
    ensures Gap(k, minor, r, major) - Gap(k, minor, q, major) == (q - r) * major
    ensures (q - r) * major == -(r - q) * major
  {
  }

  lemma GapSteps(b: int, di: int, a: int, dj: int)
    ensures Gap(b + 1, di, a, dj) == Gap(b, di, a, dj) + di
    ensures Gap(b, di, a + 1, dj) == Gap(b, di, a, dj) - dj
    ensures Gap(b + 1, di, a + 1, dj) == Gap(b, di, a, dj) + di - dj
    ensures Gap(a, dj, b, di) == -Gap(b, di, a, dj)
    ensures Gap(a, dj, b + 1, di) == -Gap(b, di, a, dj) - di
    ensures Gap(a + 1, dj, b, di) == -Gap(b, di, a, dj) + dj
    ensures Gap(a + 1, dj, b + 1, di) == -Gap(b, di, a, dj) + dj - di
  {
  }

  /** After `k` steps the walk has taken `a` steps in i and `b` steps in j. */
  predicate AtStep(di: nat, dj: nat, a: int, b: int, k: nat)
  {
    if di <= dj then b == k && Nearest(a, k, di, dj) else a == k && Nearest(b, k, dj, di)
  }

  /** The walk's error term after `a` and `b` steps. */
  function Error(di: nat, dj: nat, a: int, b: int): int
  {
    Gap(b + 1, di, a + 1, dj)
  }

  /** One step of the walk, decided by the error term alone, lands on the next cell
      of the closed form; the longer axis always moves. */
  lemma StepLandsOnTheLine(di: nat, dj: nat, a: int, b: int, k: nat)
    requires AtStep(di, dj, a, b, k) && k < Max(di, dj)
    ensures var e2 := 2 * Error(di, dj, a, b);
            var a', b' := if e2 > -(dj as int) then a + 1 else a, if e2 < di then b + 1 else b;
            AtStep(di, dj, a', b', k + 1)
                && Error(di, dj, a', b') == Error(di, dj, a, b)
                + (if b' == b then 0 else di as int) - (if a' == a then 0 else dj as int)
  {
    GapSteps(b, di, a, dj);
    GapSteps(b + 1, di, a, dj);
    GapSteps(b, di, a + 1, dj);
    GapSteps(b + 1, di, a + 1, dj);
    if di == dj {
      GapDifference(b, di, a, b, dj);
      if a < b { MultipleAtLeast(b - a, di); }
      if b < a { MultipleAtLeast(a - b, di); }
      assert Gap(b, di, a, dj) == 0;
    }
    hide Gap;
  }

  lemma WalkStarts(di: nat, dj: nat)
    ensures AtStep(di, dj, 0, 0, 0) && Error(di, dj, 0, 0) == di - dj
  {
  }

  /** At the last step both axes have arrived, and not before. */
  lemma WalkArrives(di: nat, dj: nat, a: int, b: int, k: nat)
    requires AtStep(di, dj, a, b, k) && k <= Max(di, dj)
    ensures k == Max(di, dj) <==> a == di && b == dj
    ensures 0 <= a <= di && 0 <= b <= dj
  {
    if di <= dj {
      NearestIsBetween(a, k, di, dj);
    } else {
      NearestIsBetween(b, k, dj, di);
    }
  }

  lemma NearestIsBetween(r: int, k: nat, minor: nat, major: nat)
    requires minor <= major && k <= major && Nearest(r, k, minor, major)
    ensures 0 <= r <= minor
    ensures k == major ==> r == minor
  {
    if major > 0 {
      assert 0 <= k * minor <= major * minor;
      if r < 0 { MultipleAtLeast(-r, major); }
      assert (r - minor) * major == r * major - minor * major;
      if r > minor { MultipleAtLeast(r - minor, major); }
      if k == major && r < minor { MultipleAtLeast(minor - r, major); }
    }
  }

  /** The cell the walk stands on after `a` and `b` steps is the closed form's. */
  lemma StepsGiveTheCell(i0: int, j0: int, i1: int, j1: int, a: int, b: int, k: nat)
    requires AtStep(Abs(i1 - i0), Abs(j1 - j0), a, b, k)
    ensures LineCell(i0, j0, i1, j1, k) == (Towards(i0, i1, a), Towards(j0, j1, b))
  {
    var di, dj := Abs(i1 - i0), Abs(j1 - j0);
    if di <= dj { RoundedIsNearest(a, k, di, dj); } else { RoundedIsNearest(b, k, dj, di); }
    hide Rounded;
  }

  /** The step counts of a closed-form cell. */
  lemma CellGivesTheSteps(i0: int, j0: int, i1: int, j1: int, k: nat) returns (a: int, b: int)
    requires k <= Steps(i0, j0, i1, j1)
    ensures AtStep(Abs(i1 - i0), Abs(j1 - j0), a, b, k)
    ensures LineCell(i0, j0, i1, j1, k) == (Towards(i0, i1, a), Towards(j0, j1, b))
    ensures 0 <= a <= Abs(i1 - i0) && 0 <= b <= Abs(j1 - j0)
  {
    var di, dj := Abs(i1 - i0), Abs(j1 - j0);
    a, b := if di <= dj then Rounded(k, di, dj) else k, if di <= dj then k else Rounded(k, dj, di);
    RoundedIsNearest(Rounded(k, di, dj), k, di, dj);
    RoundedIsNearest(Rounded(k, dj, di), k, dj, di);
    hide Rounded;
    WalkArrives(di, dj, a, b, k);
    StepsGiveTheCell(i0, j0, i1, j1, a, b, k);
  }

  /** The line runs from one end to the other, inside the ends' rectangle. */
  lemma LineStaysInTheRectangle(i0: int, j0: int, i1: int, j1: int, k: nat)
    requires k <= Steps(i0, j0, i1, j1)
    ensures var (i, j) := LineCell(i0, j0, i1, j1, k);
            && (i0 <= i <= i1 || i1 <= i <= i0) && (j0 <= j <= j1 || j1 <= j <= j0)
            && (k == 0 ==> (i, j) == (i0, j0))
            && ((i, j) == (i1, j1) <==> k == Steps(i0, j0, i1, j1))
  {
    var a, b := CellGivesTheSteps(i0, j0, i1, j1, k);
    var di, dj := Abs(i1 - i0), Abs(j1 - j0);
    if k == 0 {
      StepsGiveTheCell(i0, j0, i1, j1, 0, 0, 0);
    }
    WalkArrives(di, dj, a, b, k);
    hide LineCell, AtStep, Nearest;
  }

  /** Every cell is within half a cell of the true line, measured along the
      shorter axis and scaled by twice the longer one's length. */
  lemma LineIsWithinHalfACell(i0: int, j0: int, i1: int, j1: int, k: nat)
    requires k <= Steps(i0, j0, i1, j1)
    ensures var (i, j) := LineCell(i0, j0, i1, j1, k);
            2 * Abs((j - j0) * (i1 - i0) - (i - i0) * (j1 - j0)) <= Steps(i0, j0, i1, j1)
  {
    var a, b := CellGivesTheSteps(i0, j0, i1, j1, k);
    var di, dj := Abs(i1 - i0), Abs(j1 - j0);
    var si, sj := Direction(i0, i1), Direction(j0, j1);
    GapSteps(b, di, a, dj);
    assert 2 * Abs(Gap(b, di, a, dj)) <= Max(di, dj) by { hide Gap, LineCell; }
    assert i1 - i0 == si * di && j1 - j0 == sj * dj;
    assert Towards(i0, i1, a) - i0 == si * a && Towards(j0, j1, b) - j0 == sj * b;
    ScaledGap(si, sj, a, b, di, dj);
    hide LineCell, AtStep;
  }

  lemma ScaledGap(si: int, sj: int, a: int, b: int, di: int, dj: int)
    requires (si == 1 || si == -1) && (sj == 1 || sj == -1)
    ensures Abs(sj * b * (si * di) - si * a * (sj * dj)) == Abs(Gap(b, di, a, dj))
  {
  }

  /** No cell is visited twice. */
  lemma LineCellsAreDistinct(i0: int, j0: int, i1: int, j1: int, k: nat, l: nat)
    requires k < l
    ensures LineCell(i0, j0, i1, j1, k) != LineCell(i0, j0, i1, j1, l)
  {
  }

  /** The walk of the source: an error accumulator decides which axes move. Returns
      the cells in the order they are visited, the last of them the endpoint. */
  method Bresenham(i0: int, j0: int, i1: int, j1: int) returns (visited: seq<(int, int)>)
    ensures |visited| == Steps(i0, j0, i1, j1) + 1
    ensures forall k :: 0 <= k < |visited| ==> visited[k] == LineCell(i0, j0, i1, j1, k)
  {
    var di, dj := Abs(i1 - i0), Abs(j1 - j0);
    var si, sj := Direction(i0, i1), Direction(j0, j1);
    var i, j := i0, j0;
    var err := di - dj;
    visited := [];
    ghost var a, b := 0, 0;
    WalkStarts(di, dj);
    assert Steps(i0, j0, i1, j1) == Max(di, dj);
    hide AtStep, Error, LineCell, Steps, Abs, Max;
    while true
      invariant AtStep(di, dj, a, b, |visited|) && |visited| <= Steps(i0, j0, i1, j1)
      invariant i == Towards(i0, i1, a) && j == Towards(j0, j1, b)
      invariant err == Error(di, dj, a, b)
      invariant forall k :: 0 <= k < |visited| ==> visited[k] == LineCell(i0, j0, i1, j1, k)
      decreases Steps(i0, j0, i1, j1) - |visited|
    {
      var atEnd := i == i1 && j == j1;
      StepsGiveTheCell(i0, j0, i1, j1, a, b, |visited|);
      WalkArrives(di, dj, a, b, |visited|);
      ghost var k := |visited|;
      visited := visited + [(i, j)];
      if atEnd {
        return;
      }
      StepLandsOnTheLine(di, dj, a, b, k);
      var e2 := 2 * err;
      a, b := if e2 > -dj then a + 1 else a, if e2 < di then b + 1 else b;
      if e2 > -dj {
        err := err - dj;
        i := i + si;
      }
      if e2 < di {
        err := err + di;
        j := j + sj;
      }
    }
  }
}
