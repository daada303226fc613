/** A submap and the manager that opens and freezes them, `maploc/src/submap.rs` and
    `maploc/src/submap_manager.rs`. */
module Submaps {
  import opened Reals
  import opened Lines
  import opened Grid
  import opened Poses

  /** One beam in the body frame: where the sensor is and where the beam ended. */
  datatype Beam = Beam(origin: Vec, end: Vec)

  datatype Scan = Scan(beams: seq<Beam>)

  datatype RawScan = RawScan(poseInSubmap: Pose, scan: Scan)

  const MAX_RAW_SCANS: nat := 10

  function SquareDistance(u: Vec, v: Vec): real
  {
    (u.x - v.x) * (u.x - v.x) + (u.y - v.y) * (u.y - v.y)
  }

  /** Where a point of the body lies, the body being at `p`. */
  function Placed(p: Pose, v: Vec): Vec
  {
    var (cy, sy) := (p.heading.c, p.heading.s);
    Vec(p.at.x + cy * v.x - sy * v.y, p.at.y + sy * v.x + cy * v.y)
  }

  /** ... as poses compose. */
  lemma PlacedIsComposed(p: Pose, v: Vec, h: Heading)
    ensures Placed(p, v) == Compose(p, Pose(v, h)).at
  {
    hide Turn, IsUnit;
    var (placed, composed) := (Placed(p, v), Compose(p, Pose(v, h)).at);
    assert placed.x == composed.x;
    assert placed.y == composed.y;
  }

  /** A point seen from an anchor lies where the body put it in the world. */
  lemma PlacedThroughTheAnchor(anchor: Pose, body: Pose, v: Vec)
    ensures Placed(anchor, Placed(Between(anchor, body), v)) == Placed(body, v)
  {
    hide Placed, Between, Compose, IsUnit;
    var (seen, local) := (Pose(v, EAST), Between(anchor, body));
    PlacedIsComposed(body, v, EAST);
    PlacedIsComposed(local, v, EAST);
    BetweenThenCompose(anchor, body);
    ComposeIsAssociative(anchor, local, seen);
    var lies := Compose(local, seen);
    PlacedIsComposed(anchor, lies.at, lies.heading);
  }

  /** A ray by its end cells. */
  type Line = ((int, int), (int, int))

  function Repeated(lines: seq<Line>, n: nat): seq<Line>
  {
    if n == 0 then [] else Repeated(lines, n - 1) + lines
  }

  class Submap {
    const grid: OccupancyGrid
    var anchorPose: Pose
    var rawScans: seq<RawScan>
    /** How many beams wrote a cell. */
    ghost var inked: nat

    constructor (anchorPose: Pose, cfg: GridConfig)
      requires cfg.cell > 0.0
      ensures this.anchorPose == anchorPose && rawScans == [] && inked == 0
      ensures fresh(grid) && fresh(grid.log) && grid.Valid() && grid.cfg == cfg
    {
      grid := new OccupancyGrid(cfg);
      this.anchorPose, rawScans, inked := anchorPose, [], 0;
    }

    predicate HasContent()
      reads this
    {
      rawScans != []
    }

    /** Stored scans are scans that wrote into the grid. */
    ghost predicate Witnessed()
      reads this
    {
      (HasContent() ==> inked > 0) && |rawScans| <= MAX_RAW_SCANS
    }

    method SetAnchorPose(newAnchor: Pose)
      modifies this`anchorPose
      ensures anchorPose == newAnchor
    {
      anchorPose := newAnchor;
    }

    /** A beam at least one cell long whose line, from the body at `local`, crosses the
        grid. */
    ghost predicate Reaches(local: Pose, b: Beam)
      requires grid.cfg.cell > 0.0
    {
      && SquareDistance(b.end, b.origin) >= grid.cfg.cell * grid.cfg.cell
      && var (o, h) := (Placed(local, b.origin), Placed(local, b.end));
         var ((i0, j0), (i1, j1)) := (grid.WorldToCell(Real(o.x), Real(o.y)), grid.WorldToCell(Real(h.x), Real(h.y)));
         grid.RayTouches(i0, j0, i1, j1)
    }

    /** A beam shorter than a cell is passed over. */
    predicate IsLong(b: Beam)
    {
      SquareDistance(b.end, b.origin) >= grid.cfg.cell * grid.cfg.cell
    }

    /** The cells a beam starts and ends in, seen from the body at `local`. */
    ghost function LineOf(local: Pose, b: Beam): Line
      requires grid.cfg.cell > 0.0
    {
      var (o, h) := (Placed(local, b.origin), Placed(local, b.end));
      (grid.WorldToCell(Real(o.x), Real(o.y)), grid.WorldToCell(Real(h.x), Real(h.y)))
    }

    ghost function LinesOf(local: Pose, beams: seq<Beam>): seq<Line>
      requires grid.cfg.cell > 0.0
    {
      if beams == [] then []
      else
        var (before, b) := (LinesOf(local, beams[..|beams| - 1]), beams[|beams| - 1]);
        if IsLong(b) then before + [LineOf(local, b)] else before
    }

    /** What these lines, one after the other, leave of a cell: a hit where one ends, a
        miss where one passes. */
    ghost function CellAfter(v: int, lines: seq<Line>, i: int, j: int): int
    {
      if lines == [] then v
      else
        var ((i0, j0), (i1, j1)) := lines[|lines| - 1];
        grid.CellAfterRay(CellAfter(v, lines[..|lines| - 1], i, j), i0, j0, i1, j1, true, i, j)
    }

    /** Every cell of the grid is what these lines leave of it. */
    ghost predicate LinesInked(before: seq<int>, after: seq<int>, lines: seq<Line>)
    {
      && |before| == |after| == grid.w * grid.h
      && forall i, j {:trigger Idx(grid.w, i, j)} ::
           grid.InBounds(i, j) && 0 <= Idx(grid.w, i, j) < grid.w * grid.h ==>
             after[Idx(grid.w, i, j)] == CellAfter(before[Idx(grid.w, i, j)], lines, i, j)
    }

    lemma {:induction false} CellAfterMore(v: int, a: seq<Line>, b: seq<Line>, i: int, j: int)
      ensures CellAfter(v, a + b, i, j) == CellAfter(CellAfter(v, a, i, j), b, i, j)
    {
      hide OccupancyGrid.CellAfterRay;
      if b == [] {
        assert a + b == a;
      } else {
        var n := |b| - 1;
        CellAfterMore(v, a, b[..n], i, j);
        assert (a + b)[..|a + b| - 1] == a + b[..n];
      }
    }

    lemma InkedInTurn(before: seq<int>, mid: seq<int>, after: seq<int>, a: seq<Line>, b: seq<Line>)
      requires LinesInked(before, mid, a) && LinesInked(mid, after, b)
      ensures LinesInked(before, after, a + b)
    {
      hide CellAfter, Idx;
      forall i, j {:trigger Idx(grid.w, i, j)} | grid.InBounds(i, j) && 0 <= Idx(grid.w, i, j) < grid.w * grid.h
        ensures after[Idx(grid.w, i, j)] == CellAfter(before[Idx(grid.w, i, j)], a + b, i, j)
      {
        CellAfterMore(before[Idx(grid.w, i, j)], a, b, i, j);
      }
    }

    lemma NothingInked(log: seq<int>)
      requires |log| == grid.w * grid.h
      ensures LinesInked(log, log, [])
    {
      hide Idx;
    }

    lemma OneRayInked(before: seq<int>, after: seq<int>, line: Line)
      requires var ((i0, j0), (i1, j1)) := line; grid.RayInked(before, after, i0, j0, i1, j1, true)
      ensures LinesInked(before, after, [line])
    {
      hide Idx, OccupancyGrid.CellAfterRay, CellAfter;
      var ((i0, j0), (i1, j1)) := line;
      grid.RayInkedCells(before, after, i0, j0, i1, j1, true);
      forall v, i, j ensures CellAfter(v, [line], i, j) == grid.CellAfterRay(v, i0, j0, i1, j1, true, i, j) {
        CellAfterOne(v, line, i, j);
      }
    }

    lemma CellAfterOne(v: int, line: Line, i: int, j: int)
      ensures var ((i0, j0), (i1, j1)) := line;
              CellAfter(v, [line], i, j) == grid.CellAfterRay(v, i0, j0, i1, j1, true, i, j)
    {
      hide OccupancyGrid.CellAfterRay;
      assert [line][..0] == [];
    }

    /** A scan of one beam, over and over: its end cell rises to the top of the clamp, the
        cells before it sink to the bottom, and no other changes. */
    lemma {:induction false} OneBeamOverAndOver(v: int, line: Line, n: nat, i: int, j: int)
      requires LO_MIN <= v <= LO_MAX
      ensures CellAfter(v, Repeated([line], n), i, j)
           == if (i, j) == line.1 then (if v + LO_HIT * n < LO_MAX then v + LO_HIT * n else LO_MAX)
              else if grid.OnLine(line.0.0, line.0.1, line.1.0, line.1.1, i, j) then
                (if v + LO_MISS * n > LO_MIN then v + LO_MISS * n else LO_MIN)
              else v
    {
      hide OccupancyGrid.OnLine, OccupancyGrid.CellAfterRay;
      if n > 0 {
        OneBeamOverAndOver(v, line, n - 1, i, j);
        CellAfterLast(v, Repeated([line], n - 1), line, i, j);
        hide CellAfter;
        OneRoundMore(CellAfter(v, Repeated([line], n - 1), i, j), line, i, j);
      }
    }

    lemma CellAfterLast(v: int, lines: seq<Line>, line: Line, i: int, j: int)
      ensures var ((i0, j0), (i1, j1)) := line;
              CellAfter(v, lines + [line], i, j)
              == grid.CellAfterRay(CellAfter(v, lines, i, j), i0, j0, i1, j1, true, i, j)
    {
      hide OccupancyGrid.CellAfterRay;
      assert (lines + [line])[..|lines + [line]| - 1] == lines;
    }

    /** A hit at the end, a miss before it. */
    lemma OneRoundMore(v: int, line: Line, i: int, j: int)
      ensures var ((i0, j0), (i1, j1)) := line;
              grid.CellAfterRay(v, i0, j0, i1, j1, true, i, j)
              == if (i, j) == line.1 then Clamp(v + LO_HIT, LO_MIN, LO_MAX)
                 else if grid.OnLine(i0, j0, i1, j1, i, j) then Clamp(v + LO_MISS, LO_MIN, LO_MAX)
                 else v
    {
      var ((i0, j0), (i1, j1)) := line;
      EndsAreOnTheLine(i0, j0, i1, j1);
      hide OccupancyGrid.OnLine;
    }

    lemma EndsAreOnTheLine(i0: int, j0: int, i1: int, j1: int)
      ensures grid.OnLine(i0, j0, i1, j1, i1, j1)
    {
      LineStaysInTheRectangle(i0, j0, i1, j1, Steps(i0, j0, i1, j1));
      hide LineCell, Steps;
    }

    ghost predicate AnyReaches(local: Pose, beams: seq<Beam>)
      requires grid.cfg.cell > 0.0
    {
      exists k :: 0 <= k < |beams| && Reaches(local, beams[k])
    }

    /** One beam; a beam shorter than a cell is skipped. */
    method IntegrateBeam(local: Pose, b: Beam) returns (touched: bool)
      requires grid.Valid()
      modifies grid`fieldDirty, grid.log
      ensures grid.Valid()
      ensures touched <==> Reaches(local, b)
      ensures !touched ==> grid.log[..] == old(grid.log[..])
      ensures grid.cfg.cell > 0.0 && LinesInked(old(grid.log[..]), grid.log[..], if IsLong(b) then [LineOf(local, b)]
                else [])
    {
      hide Placed, SquareDistance, OccupancyGrid.Valid, OccupancyGrid.RayInked, LinesInked, CellAfter;
      var minRangeSq := grid.cfg.cell * grid.cfg.cell;
      CellIsPositive(grid);
      GridSize(grid);
      if SquareDistance(b.end, b.origin) < minRangeSq {
        NothingInked(grid.log[..]);
        return false;
      }
      var o, h := Placed(local, b.origin), Placed(local, b.end);
      touched := grid.IntegrateRay(Real(o.x), Real(o.y), Real(h.x), Real(h.y), true);
      OneRayInked(old(grid.log[..]), grid.log[..], LineOf(local, b));
    }

    lemma OneBeamMore(local: Pose, beams: seq<Beam>, k: nat)
      requires grid.cfg.cell > 0.0 && k < |beams|
      ensures LinesOf(local, beams[..k + 1])
           == LinesOf(local, beams[..k]) + if IsLong(beams[k]) then [LineOf(local, beams[k])] else []
    {
      hide IsLong, LineOf;
      assert beams[..k + 1][..k] == beams[..k];
    }

    /** One pass over the beams. */
    method IntegratePass(local: Pose, beams: seq<Beam>) returns (touched: bool)
      requires grid.Valid() && grid.cfg.cell > 0.0
      modifies this`inked, grid`fieldDirty, grid.log
      ensures grid.Valid() && inked >= old(inked)
      ensures touched <==> AnyReaches(local, beams)
      ensures touched ==> inked > old(inked)
      ensures !touched ==> grid.log[..] == old(grid.log[..])
      ensures LinesInked(old(grid.log[..]), grid.log[..], LinesOf(local, beams))
    {
      hide Reaches, OccupancyGrid.Valid, LinesInked, LineOf, IsLong;
      touched := false;
      GridSize(grid);
      NothingInked(grid.log[..]);
      for k := 0 to |beams|
        invariant grid.Valid() && inked >= old(inked)
        invariant LinesInked(old(grid.log[..]), grid.log[..], LinesOf(local, beams[..k]))
        invariant touched <==> AnyReaches(local, beams[..k])
        invariant touched ==> inked > old(inked)
        invariant !touched ==> grid.log[..] == old(grid.log[..])
      {
        ghost var was := grid.log[..];
        var wrote := IntegrateBeam(local, beams[k]);
        assert beams[..k + 1] == beams[..k] + [beams[k]];
        OneBeamMore(local, beams, k);
        InkedInTurn(old(grid.log[..]), was, grid.log[..], LinesOf(local, beams[..k]),
                    if IsLong(beams[k]) then [LineOf(local, beams[k])] else []);
        touched := touched || wrote;
        if wrote {
          inked := inked + 1;
        }
      }
      assert beams[..|beams|] == beams;
    }

    /** What inking a scan leaves: every cell is what the lines of its beams, `passes`
        times over, make of it, and the scan is stored when some beam reached the grid. */
    ghost predicate Gained(stored: seq<RawScan>, log: seq<int>, body: Option<Pose>, scan: Scan, passes: nat)
      requires grid.cfg.cell > 0.0
      reads this, grid.log
    {
      if body.None? then rawScans == stored && grid.log[..] == log
      else
        var local := Between(anchorPose, body.value);
        var reached := AnyReaches(local, scan.beams);
        && rawScans == (if reached && |stored| < MAX_RAW_SCANS then stored + [RawScan(local, scan)] else stored)
        && (!reached ==> grid.log[..] == log)
        && LinesInked(log, grid.log[..], Repeated(LinesOf(local, scan.beams), if passes < 1 then 1 else passes))
    }

    /** Inks a scan `passes` times (at least once) at a body pose, none standing for one
        that is not finite. The scan is remembered once, and only when some beam of it
        reached the grid and there is room. */
    method IntegrateScanWeighted(body: Option<Pose>, scan: Scan, passes: nat)
      requires grid.Valid() && grid.cfg.cell > 0.0 && Witnessed()
      modifies this`rawScans, this`inked, grid`fieldDirty, grid.log
      ensures grid.Valid() && Witnessed()
      ensures Gained(old(rawScans), old(grid.log[..]), body, scan, passes)
    {
      hide Between, AnyReaches, OccupancyGrid.Valid, LinesInked, LinesOf;
      if body.None? {
        return;
      }
      var local := Between(anchorPose, body.value);
      var touched := false;
      GridSize(grid);
      NothingInked(grid.log[..]);
      for pass := 0 to if passes < 1 then 1 else passes
        invariant grid.Valid() && inked >= old(inked) && rawScans == old(rawScans)
        invariant touched <==> pass > 0 && AnyReaches(local, scan.beams)
        invariant LinesInked(old(grid.log[..]), grid.log[..], Repeated(LinesOf(local, scan.beams), pass))
        invariant touched ==> inked > 0
        invariant !touched ==> grid.log[..] == old(grid.log[..])
      {
        ghost var was := grid.log[..];
        var wrote := IntegratePass(local, scan.beams);
        InkedInTurn(old(grid.log[..]), was, grid.log[..], Repeated(LinesOf(local, scan.beams), pass),
            LinesOf(local, scan.beams));
        touched := touched || wrote;
      }
      if touched && |rawScans| < MAX_RAW_SCANS {
        rawScans := rawScans + [RawScan(local, scan)];
      }
    }
  }

  lemma GridSize(grid: OccupancyGrid)
    requires grid.Valid()
    ensures grid.log.Length == grid.w * grid.h
  {
  }

  lemma CellIsPositive(grid: OccupancyGrid)
    requires grid.Valid()
    ensures grid.cfg.cell > 0.0
  {
  }

  // ── The manager ─────────────────────────────────────────────────────────────

  datatype TickOutcome = Idle | Opened | Reanchored

  datatype SubmapManagerConfig = SubmapManagerConfig(grid: GridConfig, maxAgeS: real, maxTravelM: real,
      minTravelForAgeM: real)

  /** A distance whose square is `square` is at least `bound`. */
  predicate AtLeast(square: real, bound: real)
  {
    bound <= 0.0 || square >= bound * bound
  }

  lemma SquaresInOrder(bound: real, d: real)
    requires d >= 0.0
    ensures AtLeast(d * d, bound) <==> bound <= d
  {
    if bound > 0.0 {
      var (bb, bd, dd) := (bound * bound, bound * d, d * d);
      InOrder(bound, d, bound, bb, bd);
      if d > 0.0 {
        InOrder(bound, d, d, bd, dd);
      }
    }
  }

  predicate Distinct(submaps: seq<Submap>)
  {
    forall i, j :: 0 <= i < j < |submaps| ==> submaps[i] != submaps[j]
  }

  lemma DistinctWithOneMore(submaps: seq<Submap>, s: Submap)
    ensures Distinct(submaps + [s]) <==> Distinct(submaps) && s !in submaps
  {
    var all := submaps + [s];
    assert all[|submaps|] == s;
    if Distinct(all) {
      forall i, j | 0 <= i < j < |submaps| ensures submaps[i] != submaps[j] {
        assert all[i] != all[j];
      }
      forall i | 0 <= i < |submaps| ensures submaps[i] != s {
        assert all[i] != all[|submaps|];
      }
    }
  }

  class SubmapManager {
    const cfg: SubmapManagerConfig
    var frozen: seq<Submap>
    var current: Option<Submap>
    var currentStartedS: Option<real>
    var switchRequested: bool

    /** Frozen submaps first, then the current one. */
    function All(): (all: seq<Submap>)
      reads this
    {
      frozen + (if current.Some? then [current.value] else [])
    }

    /** The submaps are different objects, every frozen one was written by some beam,
        and the current one can be inked. */
    ghost predicate Valid()
      reads this, frozen, if current.Some? then {current.value, current.value.grid, current.value.grid.log} else {}
    {
      && cfg.grid.cell > 0.0
      && Distinct(All())
      && (forall i :: 0 <= i < |frozen| ==> frozen[i].HasContent() && frozen[i].Witnessed())
      && (current.Some? ==>
         current.value.Witnessed() && current.value.grid.Valid() && current.value.grid.cfg.cell > 0.0)
    }

    constructor (cfg: SubmapManagerConfig)
      requires cfg.grid.cell > 0.0
      ensures Valid() && this.cfg == cfg && frozen == [] && current == None
    {
      this.cfg, frozen, current, currentStartedS, switchRequested := cfg, [], None, None, false;
    }

    /** Restores a saved manager; the age clock starts at the first tick. */
    constructor FromParts(cfg: SubmapManagerConfig, frozen: seq<Submap>, current: Option<Submap>)
      ensures this.cfg == cfg && this.frozen == frozen && this.current == current && currentStartedS == None
                && !switchRequested
    {
      this.cfg, this.frozen, this.current, currentStartedS, switchRequested := cfg, frozen, current, None, false;
    }

    function NTotal(): (n: nat)
      reads this
      ensures n == |All()|
    {
      |frozen| + if current.Some? then 1 else 0
    }

    method RequestSwitch()
      modifies this`switchRequested
      ensures switchRequested
    {
      switchRequested := true;
    }

    /** A switch was asked for, or the current submap is old enough and its anchor left
        behind, or far behind. */
    predicate ShouldSwitch(nowS: real, tracked: Pose)
      reads this, if current.Some? then {current.value} else {}
    {
      || switchRequested
      || (current.Some? &&
          var travel := SquareDistance(tracked.at, current.value.anchorPose.at);
          var age := nowS - (if currentStartedS.Some? then currentStartedS.value else nowS);
          (age >= cfg.maxAgeS && AtLeast(travel, cfg.minTravelForAgeM)) || AtLeast(travel, cfg.maxTravelM))
    }

    /** ... in metres, away from the squares: `d` is the distance from the anchor. */
    lemma SwitchByDistance(nowS: real, tracked: Pose, d: real)
      requires current.Some? && d >= 0.0 && d * d == SquareDistance(tracked.at, current.value.anchorPose.at)
      ensures ShouldSwitch(nowS, tracked) <==>
                var age := if currentStartedS.Some? then nowS - currentStartedS.value else 0.0;
                switchRequested || d >= cfg.maxTravelM || (age >= cfg.maxAgeS && d >= cfg.minTravelForAgeM)
    {
      SquaresInOrder(cfg.maxTravelM, d);
      SquaresInOrder(cfg.minTravelForAgeM, d);
      hide SquareDistance;
    }

    method StartNew(anchorPose: Pose, nowS: real)
      requires cfg.grid.cell > 0.0
      modifies this`current, this`currentStartedS
      ensures currentStartedS == Some(nowS) && IsNew(anchorPose)
      ensures fresh(current.value) && fresh(current.value.grid) && fresh(current.value.grid.log)
    {
      var submap := new Submap(anchorPose, cfg.grid);
      current := Some(submap);
      currentStartedS := Some(nowS);
    }

    /** The current submap is an empty one at this pose. */
    ghost predicate IsNew(anchorPose: Pose)
      reads this, if current.Some? then {current.value, current.value.grid, current.value.grid.log} else {}
    {
      && current.Some? && current.value.anchorPose == anchorPose && current.value.rawScans == []
      && current.value.grid.Valid() && current.value.grid.cfg.cell > 0.0
    }

    /** Opens the first submap; afterwards, at a switch, freezes the current one if it
        holds anything and replaces it by an empty one at the tracked pose. */
    method Tick(nowS: real, tracked: Pose) returns (outcome: TickOutcome)
      requires Valid()
      modifies this
      ensures Valid()
      ensures outcome == (if old(current).None? then Opened
                          else if !old(ShouldSwitch(nowS, tracked)) then Idle
                          else if old(current.value.HasContent()) then Opened else Reanchored)
      ensures frozen == if outcome.Opened? && old(current).Some? then old(frozen) + [old(current).value]
                else old(frozen)
      ensures outcome.Idle? ==> current == old(current)
      ensures !outcome.Idle? ==>
                IsNew(tracked) && fresh(current.value) && fresh(current.value.grid) && fresh(current.value.grid.log)
      ensures switchRequested == (old(switchRequested) && old(current).None?)
      ensures outcome.Idle? ==> All() == old(All())
      ensures outcome.Reanchored? ==> |All()| == |old(All())| > 0 && forall i ::
                0 <= i < |All()| - 1 ==> All()[i] == old(All())[i]
      ensures outcome.Opened? ==> All() == old(All()) + [current.value]
      ensures forall s :: s in All() ==> s in old(All()) || fresh(s)
    {
      hide OccupancyGrid.Valid, SquareDistance, AtLeast, Distinct;
      ghost var all := All();
      if current.None? {
        StartNew(tracked, nowS);
        assert all == frozen && All() == frozen + [current.value];
        DistinctWithOneMore(frozen, current.value);
        return Opened;
      }
      DistinctWithOneMore(frozen, current.value);
      if currentStartedS.None? {
        currentStartedS := Some(nowS);
      }
      if !ShouldSwitch(nowS, tracked) {
        assert All() == all;
        return Idle;
      }
      switchRequested := false;
      if !current.value.HasContent() {
        StartNew(tracked, nowS);
        assert All() == frozen + [current.value];
        DistinctWithOneMore(frozen, current.value);
        return Reanchored;
      }
      frozen := frozen + [current.value];
      StartNew(tracked, nowS);
      assert frozen == all && All() == frozen + [current.value];
      DistinctWithOneMore(frozen, current.value);
      return Opened;
    }
  }
}
