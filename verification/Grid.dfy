/** The occupancy grid of `maploc/src/grid.rs`: clamped fixed-point log-odds, rays
    inked along an integer line, and a cached distance-to-wall field. Distances are
    kept squared, so the square root the source takes last is left out. */
module Grid {
  import opened Reals
  import opened DistanceTransform
  import opened Lines

  const LO_MIN: int := -400
  const LO_MAX: int := 400
  const LO_HIT: int := 85
  const LO_MISS: int := -40
  const I32_MIN: int := -0x8000_0000
  const I32_MAX: int := 0x7FFF_FFFF

  /** An f32 coordinate: finite, or an infinity or NaN. */
  datatype Coordinate = Real(value: real) | NonFinite

  datatype Option<+T> = None | Some(value: T)

  datatype GridConfig = GridConfig(xMin: real, xMax: real, yMin: real, yMax: real, cell: real)

  function Clamp(v: int, lo: int, hi: int): (r: int)
    requires lo <= hi
    ensures lo <= r <= hi
  {
    if v < lo then lo else if v > hi then hi else v
  }

  /** Where the row-major buffer keeps cell (i, j). */
  function Idx(w: nat, i: int, j: int): int
  {
    i * w + j
  }

  lemma IdxIsInRange(w: nat, h: nat, i: int, j: int)
    requires 0 <= i < h && 0 <= j < w
    ensures 0 <= Idx(w, i, j) < w * h
    ensures Idx(w, i, j) / w == i && Idx(w, i, j) % w == j
  {
    IdxIsBelow(w, h, i, j);
    DivisionIsUnique(Idx(w, i, j), w, i, j);
    hide Idx;
  }

  lemma IdxIsBelow(w: nat, h: nat, i: int, j: int)
    requires 0 <= i < h && 0 <= j < w
    ensures 0 <= Idx(w, i, j) < w * h
  {
    var rest := h - 1 - i;
    assert rest * w >= 0 && i * w >= 0;
    assert rest * w == h * w - w - i * w;
  }

  lemma DivisionIsUnique(n: int, w: nat, i: int, j: int)
    requires 0 <= j < w && n == i * w + j
    ensures n / w == i && n % w == j
  {
    var q, r := n / w, n % w;
    assert q * w + r == n;
    assert (q - i) * w == q * w - i * w;
    if q < i { MultipleAtLeast(i - q, w); }
    if i < q { MultipleAtLeast(q - i, w); }
  }

  /** Cells have slots of their own in the buffer. */
  lemma IdxFacts(w: nat, h: nat)
    ensures forall i, j {:trigger Idx(w, i, j)} :: 0 <= i < h && 0 <= j < w ==> 0 <= Idx(w, i, j) < w * h
    ensures forall i, j, k, l {:trigger Idx(w, i, j), Idx(w, k, l)} ::
              0 <= i < h && 0 <= j < w && 0 <= k < h && 0 <= l < w && Idx(w, i, j) == Idx(w, k, l) ==> i == k && j == l
  {
    forall i, j {:trigger Idx(w, i, j)} | 0 <= i < h && 0 <= j < w
      ensures 0 <= Idx(w, i, j) < w * h && Idx(w, i, j) / w == i && Idx(w, i, j) % w == j
    {
      IdxIsInRange(w, h, i, j);
    }
  }

  /** Every slot of the buffer is some cell's. */
  lemma SlotHasACell(w: nat, h: nat, n: int)
    requires 0 <= n < w * h
    ensures w > 0 && 0 <= n / w < h && 0 <= n % w < w && Idx(w, n / w, n % w) == n
  {
  }

  // ── The distance field ──────────────────────────────────────────────────────

  predicate IsWall(log: seq<int>, w: nat, h: nat, threshold: int, i: int, j: int)
  {
    0 <= i < h && 0 <= j < w && 0 <= Idx(w, i, j) < |log| && log[Idx(w, i, j)] > threshold
  }

  function Square(x: int): int
  {
    x * x
  }

  function SquaredDistance(i: int, j: int, k: int, l: int): int
  {
    Square(i - k) + Square(j - l)
  }

  lemma ParabolaIsASquare(f: seq<Sample>, p: int, q: int)
    requires 0 <= p < |f| && f[p].Finite?
    ensures Parabola(f, p, q) == Square(q - p) as real + f[p].value
  {
  }

  /** `d2` is the squared distance, in cells, from (i, j) to the nearest wall. */
  ghost predicate NearestWall(log: seq<int>, w: nat, h: nat, threshold: int, i: int, j: int, d2: real)
  {
    && (exists k, l :: IsWall(log, w, h, threshold, k, l) && d2 == SquaredDistance(i, j, k, l) as real)
    && (forall k, l :: IsWall(log, w, h, threshold, k, l) ==> d2 <= SquaredDistance(i, j, k, l) as real)
  }

  ghost predicate AnyWall(log: seq<int>, w: nat, h: nat, threshold: int)
  {
    exists k, l :: IsWall(log, w, h, threshold, k, l)
  }

  /** A squared distance in cells, in square metres. */
  function SquareMetres(d2: real, cell: real): real
  {
    d2 * cell * cell
  }

  /** What the field should hold at (i, j): the squared distance to the nearest wall,
      or with no wall at all the square of the grid's longer side. */
  ghost predicate ExactAt(log: seq<int>, w: nat, h: nat, threshold: int, cell: real, i: int, j: int, value: real)
  {
    if AnyWall(log, w, h, threshold)
    then exists d2 :: NearestWall(log, w, h, threshold, i, j, d2) && value == SquareMetres(d2, cell)
    else value == SquareMetres(Square(Max(w, h)) as real, cell)
  }

  ghost predicate ExactField(log: seq<int>, w: nat, h: nat, threshold: int, cell: real, field: seq<real>)
  {
    && |field| == w * h
    && forall i, j {:trigger Idx(w, i, j)} :: 0 <= i < h && 0 <= j < w && 0 <= Idx(w, i, j) < w * h ==>
         ExactAt(log, w, h, threshold, cell, i, j, field[Idx(w, i, j)])
  }

  /** Only one field is exact: a cached one and a fresh one are the same. */
  lemma ExactFieldIsUnique(log: seq<int>, w: nat, h: nat, threshold: int, cell: real, f: seq<real>, g: seq<real>)
    requires ExactField(log, w, h, threshold, cell, f) && ExactField(log, w, h, threshold, cell, g)
    ensures f == g
  {
    forall n | 0 <= n < w * h ensures f[n] == g[n] {
      SlotHasACell(w, h, n);
      hide Idx, ExactAt;
      ExactFieldIsUniqueAt(log, w, h, threshold, cell, n / w, n % w, f[n], g[n]);
    }
  }

  lemma ExactFieldIsUniqueAt(log: seq<int>, w: nat, h: nat, threshold: int, cell: real, i: int, j: int, u: real,
      v: real)
    requires ExactAt(log, w, h, threshold, cell, i, j, u) && ExactAt(log, w, h, threshold, cell, i, j, v)
    ensures u == v
  {
  }

  /** One cell of the transform's input: a wall is a target at no cost. */
  function WallSample(v: int, threshold: int): Sample
  {
    if v > threshold then Finite(0.0) else Infinite
  }

  /** One row of the grid as input of the row pass. */
  function RowSamples(log: seq<int>, w: nat, h: nat, threshold: int, i: int): (s: seq<Sample>)
    requires 0 <= i < h && |log| == w * h
    ensures |s| == w
  {
    IdxFacts(w, h);
    seq(w, j requires 0 <= j < w => WallSample(log[Idx(w, i, j)], threshold))
  }

  /** One column of the row pass's output as input of the column pass. */
  function ColumnSamples(log: seq<int>, w: nat, h: nat, threshold: int, j: int): (s: seq<Sample>)
    requires 0 <= j < w && |log| == w * h
    ensures |s| == h
  {
    seq(h, i requires 0 <= i < h => Cheapest(RowSamples(log, w, h, threshold, i), j, w))
  }

  /** The two passes in turn. */
  function TwoPass(log: seq<int>, w: nat, h: nat, threshold: int, i: int, j: int): Sample
    requires 0 <= i < h && 0 <= j < w && |log| == w * h
  {
    Cheapest(ColumnSamples(log, w, h, threshold, j), i, h)
  }

  /** A pass along the rows and one along the columns give the distance to the
      nearest wall of the whole grid. */
  lemma TwoPassIsNearestWall(log: seq<int>, w: nat, h: nat, threshold: int, i: int, j: int)
    requires 0 <= i < h && 0 <= j < w && |log| == w * h
    ensures TwoPass(log, w, h, threshold, i, j).Infinite? <==> !AnyWall(log, w, h, threshold)
    ensures TwoPass(log, w, h, threshold, i, j).Finite? ==>
              NearestWall(log, w, h, threshold, i, j, TwoPass(log, w, h, threshold, i, j).value)
  {
    var column := ColumnSamples(log, w, h, threshold, j);
    var best := TwoPass(log, w, h, threshold, i, j);
    CheapestIsTheMinimum(column, i, h, best);
    hide Idx, Parabola, Square, ColumnSamples, RowSamples;
    forall k, l | IsWall(log, w, h, threshold, k, l)
      ensures best.Finite? && best.value <= SquaredDistance(i, j, k, l) as real
    {
      ColumnIsAtMost(log, w, h, threshold, j, k, l);
      ParabolaIsASquare(column, k, i);
    }
    if best.Finite? {
      var k :| 0 <= k < h && column[k].Finite? && Parabola(column, k, i) == best.value;
      var l := ColumnIsAttained(log, w, h, threshold, j, k);
      ParabolaIsASquare(column, k, i);
      assert best.value == SquaredDistance(i, j, k, l) as real;
    }
  }

  lemma ColumnIsAtMost(log: seq<int>, w: nat, h: nat, threshold: int, j: int, k: int, l: int)
    requires 0 <= j < w && |log| == w * h && IsWall(log, w, h, threshold, k, l)
    ensures var best := ColumnSamples(log, w, h, threshold, j)[k];
            best.Finite? && best.value <= Square(j - l) as real
  {
    var row := RowSamples(log, w, h, threshold, k);
    CheapestIsTheMinimum(row, j, w, Cheapest(row, j, w));
    assert row[l] == Finite(0.0);
    ParabolaIsASquare(row, l, j);
    hide Parabola, Square, Idx;
    assert ColumnSamples(log, w, h, threshold, j)[k] == Cheapest(row, j, w);
  }

  lemma ColumnIsAttained(log: seq<int>, w: nat, h: nat, threshold: int, j: int, k: int) returns (l: int)
    requires 0 <= j < w && 0 <= k < h && |log| == w * h
    requires ColumnSamples(log, w, h, threshold, j)[k].Finite?
    ensures IsWall(log, w, h, threshold, k, l)
    ensures ColumnSamples(log, w, h, threshold, j)[k].value == Square(j - l) as real
  {
    var row := RowSamples(log, w, h, threshold, k);
    CheapestIsTheMinimum(row, j, w, Cheapest(row, j, w));
    hide Parabola, Square, Idx;
    assert ColumnSamples(log, w, h, threshold, j)[k] == Cheapest(row, j, w);
    l :| 0 <= l < w && row[l].Finite? && Parabola(row, l, j) == Cheapest(row, j, w).value;
    ParabolaIsASquare(row, l, j);
    IdxFacts(w, h);
    assert row[l] == WallSample(log[Idx(w, k, l)], threshold);
  }

  /** The buffer of the row pass: rows before `r` done, the others still walls. */
  ghost predicate RowsDone(buf: seq<Sample>, log: seq<int>, w: nat, h: nat, threshold: int, r: int)
  {
    && |buf| == |log| == w * h
    && forall i, j {:trigger Idx(w, i, j)} :: 0 <= i < h && 0 <= j < w && 0 <= Idx(w, i, j) < w * h ==>
         buf[Idx(w, i, j)] == (if i < r then Cheapest(RowSamples(log, w, h, threshold, i), j, w)
             else WallSample(log[Idx(w, i, j)], threshold))
  }

  /** The buffer of the column pass: columns before `c` done, the others as the row
      pass left them. */
  ghost predicate ColumnsDone(buf: seq<Sample>, log: seq<int>, w: nat, h: nat, threshold: int, c: int)
  {
    && |buf| == |log| == w * h
    && forall i, j {:trigger Idx(w, i, j)} :: 0 <= i < h && 0 <= j < w && 0 <= Idx(w, i, j) < w * h ==>
         buf[Idx(w, i, j)] == (if j < c then TwoPass(log, w, h, threshold, i, j)
             else Cheapest(RowSamples(log, w, h, threshold, i), j, w))
  }

  /** One row of the buffer through the transform. */
  method TransformRow(buf: array<Sample>, w: nat, h: nat, r: nat, ghost row: seq<Sample>,
                      lineIn: array<Sample>, tmp: array<Sample>, scratch: DtScratch)
    requires buf.Length == w * h && r < h && lineIn.Length >= w && tmp.Length >= w
    requires buf != lineIn && buf != tmp && lineIn != tmp
    requires |row| == w && forall j :: 0 <= j < w && 0 <= Idx(w, r, j) < w * h ==> row[j] == buf[Idx(w, r, j)]
    modifies buf, lineIn, tmp, scratch
    ensures forall i, j {:trigger Idx(w, i, j)} ::
              0 <= i < h && 0 <= j < w && 0 <= Idx(w, i, j) < w * h && i != r ==>
              buf[Idx(w, i, j)] == old(buf[Idx(w, i, j)])
    ensures forall j :: 0 <= j < w && 0 <= Idx(w, r, j) < w * h ==> buf[Idx(w, r, j)] == Cheapest(row, j, w)
  {
    IdxFacts(w, h);
    hide Idx, Cheapest;
    for c := 0 to w
      invariant forall j :: 0 <= j < c ==> lineIn[j] == row[j]
      invariant buf[..] == old(buf[..])
    {
      lineIn[c] := buf[Idx(w, r, c)];
    }
    assert lineIn[..w] == row;
    Dt1d(lineIn[..w], tmp, scratch);
    for c := 0 to w
      invariant forall j :: 0 <= j < c ==> buf[Idx(w, r, j)] == tmp[j]
      invariant forall j :: 0 <= j < w ==> tmp[j] == Cheapest(row, j, w)
      invariant forall i, j {:trigger Idx(w, i, j)} ::
                0 <= i < h && 0 <= j < w && i != r ==> buf[Idx(w, i, j)] == old(buf[Idx(w, i, j)])
    {
      buf[Idx(w, r, c)] := tmp[c];
    }
  }

  /** One column of the buffer through the transform. */
  method TransformColumn(buf: array<Sample>, w: nat, h: nat, c: nat, ghost column: seq<Sample>,
                         lineIn: array<Sample>, tmp: array<Sample>, scratch: DtScratch)
    requires buf.Length == w * h && c < w && lineIn.Length >= h && tmp.Length >= h
    requires buf != lineIn && buf != tmp && lineIn != tmp
    requires |column| == h && forall i :: 0 <= i < h && 0 <= Idx(w, i, c) < w * h ==> column[i] == buf[Idx(w, i, c)]
    modifies buf, lineIn, tmp, scratch
    ensures forall i, j {:trigger Idx(w, i, j)} ::
              0 <= i < h && 0 <= j < w && 0 <= Idx(w, i, j) < w * h && j != c ==>
              buf[Idx(w, i, j)] == old(buf[Idx(w, i, j)])
    ensures forall i :: 0 <= i < h && 0 <= Idx(w, i, c) < w * h ==> buf[Idx(w, i, c)] == Cheapest(column, i, h)
  {
    IdxFacts(w, h);
    hide Idx, Cheapest;
    for r := 0 to h
      invariant forall i :: 0 <= i < r ==> lineIn[i] == column[i]
      invariant buf[..] == old(buf[..])
    {
      lineIn[r] := buf[Idx(w, r, c)];
    }
    assert lineIn[..h] == column;
    Dt1d(lineIn[..h], tmp, scratch);
    for r := 0 to h
      invariant forall i :: 0 <= i < r ==> buf[Idx(w, i, c)] == tmp[i]
      invariant forall i :: 0 <= i < h ==> tmp[i] == Cheapest(column, i, h)
      invariant forall i, j {:trigger Idx(w, i, j)} ::
                0 <= i < h && 0 <= j < w && j != c ==> buf[Idx(w, i, j)] == old(buf[Idx(w, i, j)])
    {
      buf[Idx(w, r, c)] := tmp[r];
    }
  }

  lemma RowsStart(log: seq<int>, w: nat, h: nat, threshold: int)
    requires |log| == w * h
    ensures RowsDone(seq(|log|, n requires 0 <= n < |log| => WallSample(log[n], threshold)), log, w, h, threshold, 0)
  {
  }

  lemma RowsAreDone(buf: seq<Sample>, log: seq<int>, w: nat, h: nat, threshold: int)
    requires RowsDone(buf, log, w, h, threshold, h)
    ensures ColumnsDone(buf, log, w, h, threshold, 0)
  {
  }

  /** The buffer after both passes, scaled to square metres, is the exact field. */
  lemma PassesGiveTheField(buf: seq<Sample>, log: seq<int>, w: nat, h: nat, threshold: int, cell: real,
      field: seq<real>)
    requires ColumnsDone(buf, log, w, h, threshold, w) && AnyWall(log, w, h, threshold)
    requires |field| == w * h && forall n ::
              0 <= n < w * h && buf[n].Finite? ==> field[n] == SquareMetres(buf[n].value, cell)
    ensures ExactField(log, w, h, threshold, cell, field)
    ensures forall n :: 0 <= n < w * h ==> buf[n].Finite?
  {
    IdxFacts(w, h);
    forall i, j {:trigger Idx(w, i, j)} | 0 <= i < h && 0 <= j < w
      ensures buf[Idx(w, i, j)].Finite? && ExactAt(log, w, h, threshold, cell, i, j, field[Idx(w, i, j)])
    {
      TwoPassIsNearestWall(log, w, h, threshold, i, j);
      hide Idx, NearestWall, TwoPass, RowSamples, Cheapest, AnyWall, SquareMetres;
      var best := TwoPass(log, w, h, threshold, i, j);
      assert best == buf[Idx(w, i, j)] && field[Idx(w, i, j)] == SquareMetres(best.value, cell);
    }
    hide ExactAt, TwoPass, RowSamples, Cheapest, NearestWall;
    forall n | 0 <= n < w * h ensures buf[n].Finite? {
      SlotHasACell(w, h, n);
    }
    hide Idx;
  }

  /** A world coordinate as a signed cell index: floored, then clamped to i32. */
  function CellOf(v: real, min: real, cell: real): int
    requires cell > 0.0
  {
    Clamp(((v - min) / cell).Floor, I32_MIN, I32_MAX)
  }

  /** Away from the clamp a coordinate is in the cell that holds it. */
  lemma CellHoldsThePoint(v: real, min: real, cell: real, n: int)
    requires cell > 0.0 && I32_MIN < n < I32_MAX
    ensures CellOf(v, min, cell) == n <==> Multiple(n, cell) <= v - min < Multiple(n + 1, cell)
  {
    WholeSteps(v - min, cell, n);
  }

  /** A log-odds after one more ray crossed its cell, or ended there on a hit. */
  function Inked(v: int, hit: bool): (r: int)
    ensures LO_MIN <= r <= LO_MAX
  {
    Clamp(v + (if hit then LO_HIT else LO_MISS), LO_MIN, LO_MAX)
  }

  class OccupancyGrid {
    const cfg: GridConfig
    const w: nat
    const h: nat
    const log: array<int>
    var field: Option<seq<real>>
    var fieldThreshold: int
    var fieldDirty: bool

    /** The log-odds stay clamped, and a clean cache is the exact field. */
    ghost predicate Valid()
      reads this, log
    {
      && cfg.cell > 0.0
      && log.Length == w * h
      && (forall n :: 0 <= n < log.Length ==> LO_MIN <= log[n] <= LO_MAX)
      && (field.Some? && !fieldDirty ==> ExactField(log[..], w, h, fieldThreshold, cfg.cell, field.value))
    }

    constructor (cfg: GridConfig)
      requires cfg.cell > 0.0
      ensures Valid() && this.cfg == cfg && fresh(log)
      ensures w == Ceiling((cfg.xMax - cfg.xMin) / cfg.cell) && h == Ceiling((cfg.yMax - cfg.yMin) / cfg.cell)
      ensures forall n :: 0 <= n < log.Length ==> log[n] == 0
    {
      this.cfg := cfg;
      var nw := Ceiling((cfg.xMax - cfg.xMin) / cfg.cell);
      var nh := Ceiling((cfg.yMax - cfg.yMin) / cfg.cell);
      w, h := nw, nh;
      log := new int[nw * nh](_ => 0);
      field, fieldThreshold, fieldDirty := None, 0, true;
    }

    function WorldToCell(x: Coordinate, y: Coordinate): (int, int)
      requires cfg.cell > 0.0
    {
      if x.NonFinite? || y.NonFinite? then (I32_MIN, I32_MIN)
      else (CellOf(y.value, cfg.yMin, cfg.cell), CellOf(x.value, cfg.xMin, cfg.cell))
    }

    predicate InBounds(i: int, j: int)
    {
      0 <= i < h && 0 <= j < w
    }

    function WorldToIdx(x: Coordinate, y: Coordinate): Option<(int, int)>
      requires cfg.cell > 0.0
    {
      var (i, j) := WorldToCell(x, y);
      if InBounds(i, j) then Some((i, j)) else None
    }

    /** One increment of one cell, clamped. */
    method Bump(i: int, j: int, delta: int)
      requires Valid() && InBounds(i, j) && fieldDirty
      modifies log
      ensures Valid()
      ensures 0 <= Idx(w, i, j) < log.Length && log[..] == old(log[..])[Idx(w, i,
                j) := Clamp(old(log[..])[Idx(w, i, j)] + delta, LO_MIN, LO_MAX)]
    {
      IdxIsInRange(w, h, i, j);
      var n := Idx(w, i, j);
      log[n] := Clamp(log[n] + delta, LO_MIN, LO_MAX);
    }

    /** Adds to the cell at a world point; outside the grid nothing happens. */
    method AddLogOddsAtWorld(x: Coordinate, y: Coordinate, delta: int)
      requires Valid()
      modifies this`fieldDirty, log
      ensures Valid()
      ensures WorldToIdx(x, y).None? ==> log[..] == old(log[..]) && fieldDirty == old(fieldDirty)
      ensures WorldToIdx(x, y).Some? ==>
                var n := Idx(w, WorldToIdx(x, y).value.0, WorldToIdx(x, y).value.1);
                0 <= n < log.Length && log[..] == old(log[..])[n := Clamp(old(log[..])[n] + delta, LO_MIN, LO_MAX)]
    {
      var at := WorldToIdx(x, y);
      if at.Some? {
        fieldDirty := true;
        Bump(at.value.0, at.value.1, delta);
      }
    }

    method AddLogOddsAt(i: nat, j: nat, delta: int)
      requires Valid()
      modifies this`fieldDirty, log
      ensures Valid()
      ensures !InBounds(i, j) ==> log[..] == old(log[..]) && fieldDirty == old(fieldDirty)
      ensures InBounds(i, j) ==>
                var n := Idx(w, i, j);
                0 <= n < log.Length && log[..] == old(log[..])[n := Clamp(old(log[..])[n] + delta, LO_MIN, LO_MAX)]
    {
      if i < h && j < w {
        fieldDirty := true;
        Bump(i, j, delta);
      }
    }

    ghost predicate OnLine(i0: int, j0: int, i1: int, j1: int, i: int, j: int)
    {
      exists k :: 0 <= k <= Steps(i0, j0, i1, j1) && LineCell(i0, j0, i1, j1, k) == (i, j)
    }

    /** What one ray does to the grid: every in-bounds cell of its line gets exactly
        one clamped increment, a hit at the far end and a miss before it; no other
        cell changes. */
    ghost predicate RayInked(before: seq<int>, after: seq<int>, i0: int, j0: int, i1: int, j1: int, hit: bool)
    {
      && |before| == |after| == w * h
      && (forall k {:trigger LineCell(i0, j0, i1, j1, k)} :: 0 <= k <= Steps(i0, j0, i1, j1) ==>
            var (i, j) := LineCell(i0, j0, i1, j1, k);
            InBounds(i, j) && 0 <= Idx(w, i, j) < w * h ==>
              after[Idx(w, i, j)] == Inked(before[Idx(w, i, j)], k == Steps(i0, j0, i1, j1) && hit))
      && (forall i, j {:trigger Idx(w, i, j)} ::
         InBounds(i, j) && 0 <= Idx(w, i, j) < w * h && !OnLine(i0, j0, i1, j1, i, j) ==>
            after[Idx(w, i, j)] == before[Idx(w, i, j)])
    }

    /** What a ray leaves of the cell (i, j). */
    ghost function CellAfterRay(v: int, i0: int, j0: int, i1: int, j1: int, hit: bool, i: int, j: int): int
    {
      if OnLine(i0, j0, i1, j1, i, j) then Inked(v, (i, j) == (i1, j1) && hit) else v
    }

    /** A ray inks every cell so. */
    lemma RayInkedCells(before: seq<int>, after: seq<int>, i0: int, j0: int, i1: int, j1: int, hit: bool)
      requires RayInked(before, after, i0, j0, i1, j1, hit)
      ensures forall i, j {:trigger Idx(w, i, j)} :: InBounds(i, j) && 0 <= Idx(w, i, j) < w * h ==>
                after[Idx(w, i, j)] == CellAfterRay(before[Idx(w, i, j)], i0, j0, i1, j1, hit, i, j)
    {
      hide Idx, LineCell, Steps, Inked;
      forall i, j {:trigger Idx(w, i, j)} | InBounds(i, j) && 0 <= Idx(w, i, j) < w * h
        ensures after[Idx(w, i, j)] == CellAfterRay(before[Idx(w, i, j)], i0, j0, i1, j1, hit, i, j)
      {
        if OnLine(i0, j0, i1, j1, i, j) {
          var k :| 0 <= k <= Steps(i0, j0, i1, j1) && LineCell(i0, j0, i1, j1, k) == (i, j);
          LineStaysInTheRectangle(i0, j0, i1, j1, k);
        }
      }
    }

    ghost predicate RayTouches(i0: int, j0: int, i1: int, j1: int)
    {
      exists k :: 0 <= k <= Steps(i0, j0, i1, j1) && InBounds(LineCell(i0, j0, i1, j1, k).0,
          LineCell(i0, j0, i1, j1, k).1)
    }

    /** Inks one ray and says whether it wrote any cell; a ray with a non-finite end
        is skipped whole. */
    method IntegrateRay(x0: Coordinate, y0: Coordinate, x1: Coordinate, y1: Coordinate,
        hitIsOccupied: bool) returns (touched: bool)
      requires Valid()
      modifies this`fieldDirty, log
      ensures Valid()
      ensures x0.NonFinite? || y0.NonFinite? || x1.NonFinite? || y1.NonFinite? ==>
                !touched && log[..] == old(log[..]) && fieldDirty == old(fieldDirty)
      ensures x0.Real? && y0.Real? && x1.Real? && y1.Real? ==>
                var ((i0, j0), (i1, j1)) := (WorldToCell(x0, y0), WorldToCell(x1, y1));
                RayInked(old(log[..]), log[..], i0, j0, i1, j1, hitIsOccupied)
                    && (touched <==> RayTouches(i0, j0, i1, j1))
      ensures !touched ==> log[..] == old(log[..])
    {
      if x0.NonFinite? || y0.NonFinite? || x1.NonFinite? || y1.NonFinite? {
        return false;
      }
      fieldDirty := true;
      var (i0, j0) := WorldToCell(x0, y0);
      var (i1, j1) := WorldToCell(x1, y1);
      touched := InkLine(i0, j0, i1, j1, hitIsOccupied);
    }

    method InkLine(i0: int, j0: int, i1: int, j1: int, hit: bool) returns (touched: bool)
      requires Valid() && fieldDirty
      modifies log
      ensures Valid()
      ensures RayInked(old(log[..]), log[..], i0, j0, i1, j1, hit)
      ensures touched <==> RayTouches(i0, j0, i1, j1)
      ensures !touched ==> log[..] == old(log[..])
    {
      var visited := Bresenham(i0, j0, i1, j1);
      forall k, l | 0 <= k < l < |visited| ensures visited[k] != visited[l] {
        LineCellsAreDistinct(i0, j0, i1, j1, k, l);
      }
      ghost var before := log[..];
      InkStart(before, visited, hit);
      hide Idx, LineCell, Clamp, InkedSoFar, ExactField;
      touched := false;
      for t := 0 to |visited|
        invariant Valid()
        invariant touched <==> exists k :: 0 <= k < t && InBounds(visited[k].0, visited[k].1)
        invariant !touched ==> log[..] == before
        invariant InkedSoFar(before, log[..], visited, t, hit)
      {
        var wrote := InkCell(before, visited, t, hit);
        touched := touched || wrote;
      }
      InkedSoFarGivesTheRay(before, log[..], visited, i0, j0, i1, j1, hit);
    }

    /** One visit of the walk: a cell outside the grid is passed over. */
    method InkCell(ghost before: seq<int>, visited: seq<(int, int)>, t: nat, hit: bool) returns (wrote: bool)
      requires Valid() && fieldDirty
      requires t < |visited| && (forall k, l :: 0 <= k < l < |visited| ==> visited[k] != visited[l])
      requires InkedSoFar(before, log[..], visited, t, hit)
      modifies log
      ensures Valid()
      ensures InkedSoFar(before, log[..], visited, t + 1, hit)
      ensures wrote <==> InBounds(visited[t].0, visited[t].1)
      ensures !wrote ==> log[..] == old(log[..])
    {
      hide Idx, InkedSoFar, ExactField;
      var (i, j) := visited[t];
      var atEnd := t == |visited| - 1;
      ghost var was := log[..];
      wrote := InBounds(i, j);
      if wrote {
        Bump(i, j, if atEnd && hit then LO_HIT else LO_MISS);
      }
      InkStep(before, was, log[..], visited, t, hit);
    }

    /** The first `t` cells of the walk have had their increment, the rest of the grid
        none. */
    ghost predicate InkedSoFar(before: seq<int>, now: seq<int>, visited: seq<(int, int)>, t: nat, hit: bool)
      requires t <= |visited|
    {
      && |before| == |now| == w * h
      && (forall k ::
         0 <= k < t && InBounds(visited[k].0, visited[k].1) && 0 <= Idx(w, visited[k].0, visited[k].1) < w * h ==>
            now[Idx(w, visited[k].0, visited[k].1)] ==
              Inked(before[Idx(w, visited[k].0, visited[k].1)], k == |visited| - 1 && hit))
      && (forall i, j {:trigger Idx(w, i, j)} ::
         InBounds(i, j) && 0 <= Idx(w, i, j) < w * h && (i, j) !in visited[..t] ==>
            now[Idx(w, i, j)] == before[Idx(w, i, j)])
    }

    lemma InkStart(before: seq<int>, visited: seq<(int, int)>, hit: bool)
      requires |before| == w * h
      ensures InkedSoFar(before, before, visited, 0, hit)
    {
    }

    lemma InkStep(before: seq<int>, was: seq<int>, now: seq<int>, visited: seq<(int, int)>, t: nat, hit: bool)
      requires t < |visited| && (forall k, l :: 0 <= k < l < |visited| ==> visited[k] != visited[l])
      requires InkedSoFar(before, was, visited, t, hit)
      requires var (i, j) := visited[t];
               if InBounds(i, j)
               then 0 <= Idx(w, i, j) < w * h
                    && now == was[Idx(w, i, j) := Inked(was[Idx(w, i, j)], t == |visited| - 1 && hit)]
               else now == was
      ensures InkedSoFar(before, now, visited, t + 1, hit)
    {
      IdxFacts(w, h);
      hide Idx, Inked;
      var (i, j) := visited[t];
      assert (i, j) !in visited[..t];
      assert visited[..t + 1] == visited[..t] + [(i, j)];
      forall k | 0 <= k <= t && InBounds(visited[k].0, visited[k].1)
        ensures now[Idx(w, visited[k].0, visited[k].1)] ==
                  Inked(before[Idx(w, visited[k].0, visited[k].1)], k == |visited| - 1 && hit)
      {
        if k < t {
          assert visited[k] != visited[t];
        }
      }
    }

    lemma InkedSoFarGivesTheRay(before: seq<int>, now: seq<int>, visited: seq<(int, int)>, i0: int, j0: int, i1: int,
        j1: int, hit: bool)
      requires |visited| == Steps(i0, j0, i1, j1) + 1
      requires forall k :: 0 <= k < |visited| ==> visited[k] == LineCell(i0, j0, i1, j1, k)
      requires InkedSoFar(before, now, visited, |visited|, hit)
      ensures RayInked(before, now, i0, j0, i1, j1, hit)
    {
    }

    /** The cached field, recomputed when stale: whatever edits and queries came
        before, the answer is the exact field of the log-odds as they are. */
    method DistanceFieldShared(threshold: int) returns (shared: seq<real>)
      requires Valid()
      modifies this`field, this`fieldThreshold, this`fieldDirty
      ensures Valid() && !fieldDirty && field == Some(shared) && fieldThreshold == threshold
      ensures ExactField(log[..], w, h, threshold, cfg.cell, shared)
    {
      var needsRecompute := fieldDirty || field.None? || fieldThreshold != threshold;
      if needsRecompute {
        RecomputeDistanceField(threshold);
      }
      shared := field.value;
    }

    method RecomputeDistanceField(threshold: int)
      requires Valid()
      modifies this`field, this`fieldThreshold, this`fieldDirty
      ensures Valid() && !fieldDirty && field.Some? && fieldThreshold == threshold
    {
      hide ExactField, ColumnsDone, AnyWall, SquareMetres, WallSample;
      var n := w * h;
      var buf := new Sample[n](_ => Infinite);
      var anyOcc := MarkWalls(buf, threshold);
      if !anyOcc {
        var cap := SquareMetres(Square(Max(w, h)) as real, cfg.cell);
        NoWallField(log[..], w, h, threshold, cfg.cell, seq(n, _ => cap));
        field := Some(seq(n, _ => cap));
        fieldThreshold, fieldDirty := threshold, false;
        return;
      }
      TwoPasses(buf, threshold);
      var squares := buf[..];
      var metres := seq(n, k requires 0 <= k < n => if squares[k].Finite? then
          SquareMetres(squares[k].value, cfg.cell) else 0.0);
      PassesGiveTheField(squares, log[..], w, h, threshold, cfg.cell, metres);
      field := Some(metres);
      fieldThreshold, fieldDirty := threshold, false;
    }

    /** Zero at a wall, infinity elsewhere; says whether there is any wall. */
    method MarkWalls(buf: array<Sample>, threshold: int) returns (anyOcc: bool)
      requires log.Length == w * h && buf.Length == w * h && buf != (log as object)
      requires forall k :: 0 <= k < buf.Length ==> buf[k] == Infinite
      modifies buf
      ensures forall k :: 0 <= k < buf.Length ==> buf[k] == WallSample(log[k], threshold)
      ensures anyOcc <==> AnyWall(log[..], w, h, threshold)
    {
      anyOcc := false;
      for idx := 0 to w * h
        invariant forall k :: 0 <= k < idx ==> buf[k] == WallSample(log[k], threshold)
        invariant forall k :: idx <= k < w * h ==> buf[k] == Infinite
        invariant anyOcc <==> exists k :: 0 <= k < idx && log[k] > threshold
      {
        if log[idx] > threshold {
          buf[idx] := Finite(0.0);
          anyOcc := true;
        }
      }
      WallsAreAboveThreshold(log[..], w, h, threshold);
    }

    /** The transform along every row, then along every column. */
    method TwoPasses(buf: array<Sample>, threshold: int)
      requires log.Length == w * h && buf.Length == w * h && buf != (log as object)
      requires forall k :: 0 <= k < buf.Length ==> buf[k] == WallSample(log[k], threshold)
      modifies buf
      ensures ColumnsDone(buf[..], log[..], w, h, threshold, w)
    {
      ghost var L := log[..];
      var cap := Max(w, h);
      var tmp := new Sample[cap](_ => Finite(0.0));
      var lineIn := new Sample[cap](_ => Finite(0.0));
      var scratch := new DtScratch();
      RowsStart(L, w, h, threshold);
      assert buf[..] == seq(|L|, n requires 0 <= n < |L| => WallSample(L[n], threshold));
      for r := 0 to h
        invariant RowsDone(buf[..], L, w, h, threshold, r)
      {
        ghost var row := RowSamples(L, w, h, threshold, r);
        assert forall j {:trigger Idx(w, r, j)} ::
            0 <= j < w && 0 <= Idx(w, r, j) < w * h ==> row[j] == buf[Idx(w, r, j)];
        hide Idx, RowSamples, Cheapest;
        TransformRow(buf, w, h, r, row, lineIn, tmp, scratch);
      }
      RowsAreDone(buf[..], L, w, h, threshold);
      for c := 0 to w
        invariant ColumnsDone(buf[..], L, w, h, threshold, c)
      {
        ghost var column := ColumnSamples(L, w, h, threshold, c);
        hide Idx, RowSamples, Cheapest;
        assert forall i {:trigger Idx(w, i, c)} ::
            0 <= i < h && 0 <= Idx(w, i, c) < w * h ==> column[i] == buf[Idx(w, i, c)];
        TransformColumn(buf, w, h, c, column, lineIn, tmp, scratch);
      }
    }
  }

  lemma NoWallField(log: seq<int>, w: nat, h: nat, threshold: int, cell: real, field: seq<real>)
    requires !AnyWall(log, w, h, threshold)
    requires |field| == w * h && forall n ::
              0 <= n < w * h ==> field[n] == SquareMetres(Square(Max(w, h)) as real, cell)
    ensures ExactField(log, w, h, threshold, cell, field)
  {
  }

  lemma WallsAreAboveThreshold(log: seq<int>, w: nat, h: nat, threshold: int)
    requires |log| == w * h
    ensures AnyWall(log, w, h, threshold) <==> exists k :: 0 <= k < |log| && log[k] > threshold
  {
    if k :| 0 <= k < |log| && log[k] > threshold {
      SlotHasACell(w, h, k);
      assert IsWall(log, w, h, threshold, k / w, k % w);
    }
  }
}
