/** Clamped evidence by height, `maploc/src/band.rs`: every cell keeps a column of
    slices, and a beam clears the slices it crosses and marks the one it ends in. */
module Bands {
  import opened Reals
  import opened Lines
  import opened Grid
  import opened Poses

  const SLICES: int := 10

  /** What an i8 holds. */
  const I8_MIN: int := -128
  const I8_MAX: int := 127

  function Saturated(v: int): int
  {
    Clamp(v, I8_MIN, I8_MAX)
  }

  datatype BandConfig = BandConfig(
    cellM: real, zLoM: real, sliceM: real, maxRangeM: real, hit: int, pass: int, cap: int, stepM: real,
        endMarginM: real)
  {
    predicate Valid()
    {
      cellM > 0.0 && sliceM > 0.0 && stepM > 0.0 && 0 <= hit <= I8_MAX && 0 <= pass <= I8_MAX && 0 <= cap <= I8_MAX
    }
  }

  datatype Point = Point(x: real, y: real, z: real)

  /** A beam in the body frame, with its length in space and over the floor. */
  datatype Ray = Ray(from: Point, to: Point, hit: bool, len: real, flat: real)

  /** A slice of a cell's column. */
  type Key = ((int, int), int)

  type Cells = map<(int, int), seq<int>>

  // ── One slice ───────────────────────────────────────────────────────────────

  /** The evidence of a slice; none where no beam has been. */
  function Level(cells: Cells, key: Key): int
  {
    if key.0 in cells && 0 <= key.1 < |cells[key.0]| then cells[key.0][key.1] else 0
  }

  ghost predicate Capped(cells: Cells, cap: int)
  {
    forall at :: at in cells ==> |cells[at]| == SLICES && forall k :: 0 <= k < SLICES ==> -cap <= cells[at][k] <= cap
  }

  function Min(a: int, b: int): int
  {
    if a < b then a else b
  }

  /** A slice after a frame: every pass takes its share off, down to the floor of the
      clamp, and then every return adds its own, up to the top. */
  function Booked(cfg: BandConfig, v: int, passes: nat, hits: nat): int
  {
    Min(cfg.cap, Max(-cfg.cap, v - passes * cfg.pass) + hits * cfg.hit)
  }

  lemma OneMorePass(cfg: BandConfig, v: int, passes: nat)
    requires cfg.Valid() && -cfg.cap <= v <= cfg.cap
    ensures -cfg.cap <= Booked(cfg, v, passes, 0) <= cfg.cap
    ensures Max(Saturated(Booked(cfg, v, passes, 0) - cfg.pass), -cfg.cap) == Booked(cfg, v, passes + 1, 0)
  {
    Multiples(passes, cfg.pass);
    var p := passes * cfg.pass;
    assert (passes + 1) * cfg.pass == p + cfg.pass;
  }

  lemma OneMoreHit(cfg: BandConfig, v: int, passes: nat, hits: nat)
    requires cfg.Valid() && -cfg.cap <= v <= cfg.cap
    ensures -cfg.cap <= Booked(cfg, v, passes, hits) <= cfg.cap
    ensures Min(Saturated(Booked(cfg, v, passes, hits) + cfg.hit), cfg.cap) == Booked(cfg, v, passes, hits + 1)
  {
    Multiples(passes, cfg.pass);
    Multiples(hits, cfg.hit);
    var h := hits * cfg.hit;
    assert (hits + 1) * cfg.hit == h + cfg.hit;
  }

  lemma Multiples(n: nat, m: int)
    requires m >= 0
    ensures n * m >= 0
  {
  }

  /** Writes one slice, in a fresh column where there is none. */
  function WithLevel(cells: Cells, key: Key, v: int): Cells
    requires 0 <= key.1 < SLICES && (key.0 in cells ==> |cells[key.0]| == SLICES)
  {
    cells[key.0 := (if key.0 in cells then cells[key.0] else seq(SLICES, _ => 0))[key.1 := v]]
  }

  lemma KeysOfWithLevel(cells: Cells, key: Key, v: int)
    requires 0 <= key.1 < SLICES && (key.0 in cells ==> |cells[key.0]| == SLICES)
    ensures WithLevel(cells, key, v).Keys == cells.Keys + {key.0}
  {
  }

  lemma LevelsAfter(cells: Cells, key: Key, v: int, cap: int)
    requires Capped(cells, cap) && 0 <= key.1 < SLICES && -cap <= v <= cap && cap >= 0
    ensures Capped(WithLevel(cells, key, v), cap)
    ensures forall other: Key ::
              Level(WithLevel(cells, key, v), other) == if other == key then v else Level(cells, other)
  {
  }

  // ── A frame ─────────────────────────────────────────────────────────────────

  /** The last slice a beam was in. */
  function Last(samples: seq<Option<Key>>): Option<Key>
  {
    if samples == [] then None
    else if samples[|samples| - 1].Some? then samples[|samples| - 1]
    else Last(samples[..|samples| - 1])
  }

  /** How often a beam came into a slice: samples in a row in one slice are one visit. */
  function Visits(samples: seq<Option<Key>>, key: Key): nat
  {
    if samples == [] then 0
    else
      var (before, last) := (samples[..|samples| - 1], samples[|samples| - 1]);
      Visits(before, key) + if last == Some(key) && Last(before) != Some(key) then 1 else 0
  }

  function OnMap(pose: Pose, p: Point): Point
  {
    var (c, s) := (pose.heading.c, pose.heading.s);
    Point(pose.at.x + c * p.x - s * p.y, pose.at.y + s * p.x + c * p.y, p.z)
  }

  function CellAt(cfg: BandConfig, x: real, y: real): (int, int)
    requires cfg.Valid()
  {
    ((x / cfg.cellM).Floor, (y / cfg.cellM).Floor)
  }

  function SliceAt(cfg: BandConfig, z: real): Option<int>
    requires cfg.Valid()
  {
    var k := ((z - cfg.zLoM) / cfg.sliceM).Floor;
    if 0 <= k < SLICES then Some(k) else None
  }

  function KeyAt(cfg: BandConfig, p: Point): (r: Option<Key>)
    requires cfg.Valid()
    ensures r.Some? ==> 0 <= r.value.1 < SLICES
  {
    match SliceAt(cfg, p.z)
    case None => None
    case Some(k) => Some((CellAt(cfg, p.x, p.y), k))
  }

  /** A point `t` along the beam. */
  function Along(a: Point, b: Point, len: real, t: real): Point
    requires len > 0.0
  {
    Point(a.x + (b.x - a.x) * t / len, a.y + (b.y - a.y) * t / len, a.z + (b.z - a.z) * t / len)
  }

  const SHORTEST: real := 0.0001

  /** Where clearing stops: a margin before a return, or at the range if that is nearer. */
  function Until(cfg: BandConfig, r: Ray): real
  {
    var until := if r.hit then r.len - cfg.endMarginM else r.len;
    if r.flat > cfg.maxRangeM && r.flat != 0.0 && r.len * cfg.maxRangeM / r.flat < until then
        r.len * cfg.maxRangeM / r.flat else until
  }

  /** The distance of the `k`-th sample from the sensor. */
  function Walked(cfg: BandConfig, k: nat): real
  {
    k as real * cfg.stepM
  }

  /** The slices the first `n` samples of a beam are in. */
  function Samples(cfg: BandConfig, pose: Pose, r: Ray, n: nat): (s: seq<Option<Key>>)
    requires cfg.Valid() && r.len > 0.0
    ensures |s| == n
  {
    if n == 0 then []
    else
      var at := Along(OnMap(pose, r.from), OnMap(pose, r.to), r.len, Walked(cfg, n - 1));
      Samples(cfg, pose, r, n - 1) + [KeyAt(cfg, at)]
  }

  /** The number of samples short of `until`. */
  function Count(until: real, step: real): nat
    requires step > 0.0
  {
    Ceiling(until / step)
  }

  lemma SamplesOneMore(cfg: BandConfig, pose: Pose, r: Ray, n: nat, t: real)
    requires cfg.Valid() && r.len > 0.0 && t == Walked(cfg, n)
    ensures Samples(cfg, pose, r, n + 1) == Samples(cfg, pose, r, n)
              + [KeyAt(cfg, Along(OnMap(pose, r.from), OnMap(pose, r.to), r.len, t))]
    ensures t + cfg.stepM == Walked(cfg, n + 1)
  {
  }

  lemma NoSamples(cfg: BandConfig, pose: Pose, r: Ray)
    requires cfg.Valid() && r.len > 0.0
    ensures Samples(cfg, pose, r, 0) == [] && Last([]) == None
  {
  }

  lemma CountStops(cfg: BandConfig, until: real, n: nat)
    requires cfg.stepM > 0.0
    ensures Walked(cfg, n) < until <==> n < Count(until, cfg.stepM)
  {
    var step := cfg.stepM;
    var q := until / step;
    assert q * step == until;
    CeilIsAbove(q, n);
    hide Ceiling;
    Compare(n as real, q, step);
  }

  lemma CeilIsAbove(q: real, n: nat)
    ensures n as real < q <==> n < Ceiling(q)
  {
  }

  lemma Compare(a: real, b: real, step: real)
    requires step > 0.0
    ensures a < b <==> a * step < b * step
  {
  }

  function Trail(cfg: BandConfig, pose: Pose, r: Ray): seq<Option<Key>>
    requires cfg.Valid()
  {
    if r.len <= SHORTEST then [] else Samples(cfg, pose, r, Count(Until(cfg, r), cfg.stepM))
  }

  /** A beam clears as far as it may: every sample short of its end, a margin short of a
      return, and short of the range over the floor. */
  lemma TrailReachesAsFarAsItMay(cfg: BandConfig, pose: Pose, r: Ray, n: nat)
    requires cfg.Valid() && r.flat >= 0.0
    ensures n < |Trail(cfg, pose, r)| <==>
              && r.len > SHORTEST && Walked(cfg, n) < (if r.hit then r.len - cfg.endMarginM else r.len)
              && (cfg.maxRangeM < r.flat && r.flat != 0.0 ==> Walked(cfg, n) * r.flat < r.len * cfg.maxRangeM)
  {
    hide Samples, Count, Walked;
    if r.len > SHORTEST {
      CountStops(cfg, Until(cfg, r), n);
      if cfg.maxRangeM < r.flat && r.flat != 0.0 {
        var reach := r.len * cfg.maxRangeM / r.flat;
        assert reach * r.flat == r.len * cfg.maxRangeM;
        Compare(Walked(cfg, n), reach, r.flat);
      }
    }
  }

  /** A point is booked in the slice that holds it. */
  lemma SliceHoldsThePoint(cfg: BandConfig, p: Point, key: Key)
    requires cfg.Valid()
    ensures KeyAt(cfg, p) == Some(key) <==>
              var ((i, j), k) := key;
              && 0 <= k < SLICES && Multiple(k, cfg.sliceM) <= p.z - cfg.zLoM < Multiple(k + 1, cfg.sliceM)
              && Multiple(i, cfg.cellM) <= p.x < Multiple(i + 1, cfg.cellM)
              && Multiple(j, cfg.cellM) <= p.y < Multiple(j + 1, cfg.cellM)
  {
    var ((i, j), k) := key;
    WholeSteps(p.z - cfg.zLoM, cfg.sliceM, k);
    WholeSteps(p.x, cfg.cellM, i);
    WholeSteps(p.y, cfg.cellM, j);
    hide Multiple;
  }

  /** The slice a beam's return is booked in, if it is. */
  function ReturnOf(cfg: BandConfig, pose: Pose, r: Ray, wall: (real, real) -> bool): Option<Key>
    requires cfg.Valid()
  {
    var b := OnMap(pose, r.to);
    if r.len <= SHORTEST || !r.hit || r.flat > cfg.maxRangeM || wall(b.x, b.y) then None else KeyAt(cfg, b)
  }

  /** A beam that went past what it may is no return, nor one that ends in a wall; any
      other is booked where its end lies on the map, if the band has a slice there. */
  lemma ReturnIsWhereTheBeamEnds(cfg: BandConfig, pose: Pose, r: Ray, wall: (real, real) -> bool, h: Heading)
    requires cfg.Valid()
    ensures var end := Compose(pose, Pose(Vec(r.to.x, r.to.y), h)).at;
            ReturnOf(cfg, pose, r, wall).Some? <==>
              && r.hit && r.len > SHORTEST && r.flat <= cfg.maxRangeM && !wall(end.x, end.y)
              && SliceAt(cfg, r.to.z).Some?
    ensures var end := Compose(pose, Pose(Vec(r.to.x, r.to.y), h)).at;
            ReturnOf(cfg, pose, r, wall).Some? ==>
              ReturnOf(cfg, pose, r, wall) == KeyAt(cfg, Point(end.x, end.y, r.to.z))
  {
    hide Turn, IsUnit, CellAt;
    var (b, end) := (OnMap(pose, r.to), Compose(pose, Pose(Vec(r.to.x, r.to.y), h)).at);
    assert b.x == end.x && b.y == end.y && b.z == r.to.z;
    hide OnMap, Compose;
    assert b == Point(end.x, end.y, r.to.z);
  }

  function Passes(cfg: BandConfig, pose: Pose, rays: seq<Ray>, key: Key): nat
    requires cfg.Valid()
  {
    if rays == [] then 0
        else Passes(cfg, pose, rays[..|rays| - 1], key) + Visits(Trail(cfg, pose, rays[|rays| - 1]), key)
  }

  function Returns(cfg: BandConfig, pose: Pose, rays: seq<Ray>, wall: (real, real) -> bool, key: Key): nat
    requires cfg.Valid()
  {
    if rays == [] then 0
    else
      var back := ReturnOf(cfg, pose, rays[|rays| - 1], wall);
      Returns(cfg, pose, rays[..|rays| - 1], wall, key) + if back == Some(key) then 1 else 0
  }

  lemma {:induction false} PassesOfTwo(cfg: BandConfig, pose: Pose, a: seq<Ray>, b: seq<Ray>,
      wall: (real, real) -> bool, key: Key)
    requires cfg.Valid()
    ensures Passes(cfg, pose, a + b, key) == Passes(cfg, pose, a, key) + Passes(cfg, pose, b, key)
    ensures Returns(cfg, pose, a + b, wall, key) == Returns(cfg, pose, a, wall, key) + Returns(cfg, pose, b, wall, key)
  {
    if b == [] {
      assert a + b == a;
    } else {
      var n := |b| - 1;
      PassesOfTwo(cfg, pose, a, b[..n], wall, key);
      assert (a + b)[..|a + b| - 1] == a + b[..n];
    }
  }

  lemma WithoutOne(a: seq<Ray>, b: seq<Ray>, i: nat)
    requires i < |b| && multiset(a + [b[i]]) == multiset(b)
    ensures multiset(a) == multiset(b[..i] + b[i + 1..])
  {
    assert b == b[..i] + [b[i]] + b[i + 1..];
    assert multiset(a) == multiset(a + [b[i]]) - multiset{b[i]};
    assert multiset(b[..i] + b[i + 1..]) == multiset(b) - multiset{b[i]};
  }

  /** How often each slice is passed and hit does not depend on the order of the rays. */
  lemma {:induction false} OrderDoesNotMatter(cfg: BandConfig, pose: Pose, a: seq<Ray>, b: seq<Ray>,
      wall: (real, real) -> bool, key: Key)
    requires cfg.Valid() && multiset(a) == multiset(b)
    ensures Passes(cfg, pose, a, key) == Passes(cfg, pose, b, key)
              && Returns(cfg, pose, a, wall, key) == Returns(cfg, pose, b, wall, key)
    decreases |a|
  {
    if a == [] {
      assert |b| == |multiset(b)| == 0;
    } else {
      var n, r := |a| - 1, a[|a| - 1];
      assert a == a[..n] + [r];
      assert r in multiset(b);
      var i :| 0 <= i < |b| && b[i] == r;
      var (front, back) := (b[..i], b[i + 1..]);
      assert b == front + [r] + back;
      WithoutOne(a[..n], b, i);
      OrderDoesNotMatter(cfg, pose, a[..n], front + back, wall, key);
      PassesOfTwo(cfg, pose, a[..n], [r], wall, key);
      PassesOfTwo(cfg, pose, front + [r], back, wall, key);
      PassesOfTwo(cfg, pose, front, [r], wall, key);
      PassesOfTwo(cfg, pose, front, back, wall, key);
    }
  }

  // ── The columns of a frame ──────────────────────────────────────────────────

  /** The cells whose columns these samples are in. */
  function CellsOf(samples: seq<Option<Key>>): set<(int, int)>
  {
    set s <- samples | s.Some? :: s.value.0
  }

  function HitCells(hits: seq<Key>): set<(int, int)>
  {
    set h <- hits :: h.0
  }

  /** The cells the rays clear slices in. */
  ghost function Crossed(cfg: BandConfig, pose: Pose, rays: seq<Ray>): set<(int, int)>
    requires cfg.Valid()
  {
    set r <- rays, at <- CellsOf(Trail(cfg, pose, r)) :: at
  }

  /** The cells the rays' returns are booked in. */
  ghost function Ended(cfg: BandConfig, pose: Pose, rays: seq<Ray>, wall: (real, real) -> bool): set<(int, int)>
    requires cfg.Valid()
  {
    set r <- rays | ReturnOf(cfg, pose, r, wall).Some? :: ReturnOf(cfg, pose, r, wall).value.0
  }

  lemma NoCells()
    ensures CellsOf([]) == {} == HitCells([])
  {
  }

  lemma NoRays(cfg: BandConfig, pose: Pose, wall: (real, real) -> bool)
    requires cfg.Valid()
    ensures Crossed(cfg, pose, []) == {} == Ended(cfg, pose, [], wall)
  {
  }

  lemma CellsOfOneMore(samples: seq<Option<Key>>, s: Option<Key>)
    ensures CellsOf(samples + [s]) == CellsOf(samples) + if s.Some? then {s.value.0} else {}
  {
  }

  lemma HitCellsOneMore(hits: seq<Key>, h: Key)
    ensures HitCells(hits + [h]) == HitCells(hits) + {h.0}
  {
  }

  /** A sample in the slice the beam was last in is in a cell it was in. */
  lemma {:induction false} LastIsInItsCell(samples: seq<Option<Key>>)
    ensures Last(samples).Some? ==> Last(samples).value.0 in CellsOf(samples)
  {
    if samples != [] {
      var n := |samples| - 1;
      LastIsInItsCell(samples[..n]);
      CellsOfOneMore(samples[..n], samples[n]);
      assert samples == samples[..n] + [samples[n]];
    }
  }

  lemma RaysOneMore(cfg: BandConfig, pose: Pose, rays: seq<Ray>, r: Ray, wall: (real, real) -> bool)
    requires cfg.Valid()
    ensures Crossed(cfg, pose, rays + [r]) == Crossed(cfg, pose, rays) + CellsOf(Trail(cfg, pose, r))
    ensures Ended(cfg, pose, rays + [r], wall)
         == Ended(cfg, pose, rays, wall) + var back := ReturnOf(cfg, pose, r, wall); if back.Some? then {back.value.0}
             else {}
  {
    hide ReturnOf, Trail, CellsOf;
  }

  /** The band a frame leaves: every slice where its passes and returns take it, and a
      column for every cell that had one or that a ray has come to. */
  ghost predicate AfterFrame(cfg: BandConfig, pose: Pose, rays: seq<Ray>, wall: (real, real) -> bool, before: Cells,
      after: Cells)
    requires cfg.Valid()
  {
    && Capped(after, cfg.cap) && after.Keys == before.Keys + Crossed(cfg, pose, rays) + Ended(cfg, pose, rays, wall)
    && forall key: Key {:trigger Level(after, key)} ::
         Level(after, key) == Booked(cfg, Level(before, key), Passes(cfg, pose, rays, key),
             Returns(cfg, pose, rays, wall, key))
  }

  /** Bands that were equal are equal after the same rays in any order. */
  lemma FramesInAnyOrder(cfg: BandConfig, pose: Pose, a: seq<Ray>, b: seq<Ray>, wall: (real, real) -> bool,
      before: Cells, afterA: Cells, afterB: Cells)
    requires cfg.Valid() && multiset(a) == multiset(b)
    requires AfterFrame(cfg, pose, a, wall, before, afterA) && AfterFrame(cfg, pose, b, wall, before, afterB)
    ensures afterA == afterB
  {
    hide Level, Booked, Passes, Returns, ReturnOf, Trail, CellsOf, Capped;
    forall r: Ray ensures r in a <==> r in b {
      assert r in multiset(a) <==> r in multiset(b);
    }
    assert Crossed(cfg, pose, a) == Crossed(cfg, pose, b) && Ended(cfg, pose, a, wall) == Ended(cfg, pose, b, wall);
    forall key: Key ensures Level(afterA, key) == Level(afterB, key) {
      OrderDoesNotMatter(cfg, pose, a, b, wall, key);
    }
    LevelsDetermine(afterA, afterB, cfg.cap);
  }

  lemma LevelsDetermine(a: Cells, b: Cells, cap: int)
    requires Capped(a, cap) && Capped(b, cap) && a.Keys == b.Keys && forall key: Key :: Level(a, key) == Level(b, key)
    ensures a == b
  {
    forall at | at in a ensures a[at] == b[at] {
      assert |a[at]| == SLICES == |b[at]|;
      forall k | 0 <= k < SLICES ensures a[at][k] == b[at][k] {
        assert Level(a, (at, k)) == Level(b, (at, k));
      }
    }
  }

  /** Every slice has had the passes of these rays, and of so much of the next one. */
  ghost predicate Passed(cfg: BandConfig, pose: Pose, before: Cells, cells: Cells, rays: seq<Ray>,
      samples: seq<Option<Key>>)
    requires cfg.Valid()
  {
    forall key: Key {:trigger Level(cells, key)} ::
      Level(cells, key) == Booked(cfg, Level(before, key), Passes(cfg, pose, rays, key) + Visits(samples, key), 0)
  }

  lemma LevelsAreCapped(cells: Cells, key: Key, cap: int)
    requires Capped(cells, cap) && cap >= 0
    ensures -cap <= Level(cells, key) <= cap
  {
  }

  lemma NothingPassed(cfg: BandConfig, pose: Pose, cells: Cells)
    requires cfg.Valid() && Capped(cells, cfg.cap)
    ensures Passed(cfg, pose, cells, cells, [], [])
  {
  }

  /** One more sample: a slice the beam was not in already loses its share. */
  lemma SampleOneMore(cfg: BandConfig, pose: Pose, before: Cells, cells: Cells, rays: seq<Ray>,
      samples: seq<Option<Key>>,
      s: Option<Key>, cells': Cells)
    requires cfg.Valid() && Capped(before, cfg.cap) && Capped(cells, cfg.cap)
              && Passed(cfg, pose, before, cells, rays, samples)
    requires s.Some? ==> 0 <= s.value.1 < SLICES
    requires if s.Some? && Last(samples) != s then
               Capped(cells, cfg.cap) && (s.value.0 in cells ==> |cells[s.value.0]| == SLICES)
               && cells' == WithLevel(cells, s.value, Max(Saturated(Level(cells, s.value) - cfg.pass), -cfg.cap))
             else cells' == cells
    ensures Capped(cells', cfg.cap) && Passed(cfg, pose, before, cells', rays, samples + [s])
  {
    hide Level, Booked, Capped, WithLevel, Saturated, Visits, Passed;
    if s.Some? && Last(samples) != s {
      SamplePasses(cfg, pose, before, cells, rays, samples, s.value);
    } else {
      SampleStays(cfg, pose, before, cells, rays, samples, s);
    }
  }

  lemma VisitOneMore(samples: seq<Option<Key>>, s: Option<Key>, key: Key)
    ensures Visits(samples + [s], key) == Visits(samples, key) + if s == Some(key) && Last(samples) != Some(key) then
              1 else 0
  {
  }

  lemma SampleStays(cfg: BandConfig, pose: Pose, before: Cells, cells: Cells, rays: seq<Ray>,
      samples: seq<Option<Key>>, s: Option<Key>)
    requires cfg.Valid() && Passed(cfg, pose, before, cells, rays, samples) && (s.Some? ==> Last(samples) == s)
    ensures Passed(cfg, pose, before, cells, rays, samples + [s])
  {
    hide Level, Booked, Visits;
    forall key: Key ensures Level(cells, key) == Booked(cfg, Level(before, key), Passes(cfg, pose, rays, key)
        + Visits(samples + [s], key), 0) {
      VisitOneMore(samples, s, key);
    }
  }

  lemma SamplePasses(cfg: BandConfig, pose: Pose, before: Cells, cells: Cells, rays: seq<Ray>,
      samples: seq<Option<Key>>, s: Key)
    requires cfg.Valid() && Capped(before, cfg.cap) && Capped(cells, cfg.cap)
              && Passed(cfg, pose, before, cells, rays, samples)
    requires 0 <= s.1 < SLICES && Last(samples) != Some(s) && (s.0 in cells ==> |cells[s.0]| == SLICES)
    ensures var cells' := WithLevel(cells, s, Max(Saturated(Level(cells, s) - cfg.pass), -cfg.cap));
            Capped(cells', cfg.cap) && Passed(cfg, pose, before, cells', rays, samples + [Some(s)])
  {
    hide Level, Booked, Capped, WithLevel, Saturated, Visits;
    var n := Passes(cfg, pose, rays, s) + Visits(samples, s);
    assert Level(cells, s) == Booked(cfg, Level(before, s), n, 0);
    LevelsAreCapped(before, s, cfg.cap);
    OneMorePass(cfg, Level(before, s), n);
    OneMorePass(cfg, Level(before, s), n + 1);
    var v := Booked(cfg, Level(before, s), n + 1, 0);
    LevelsAfter(cells, s, v, cfg.cap);
    var cells' := WithLevel(cells, s, v);
    forall key: Key ensures Level(cells', key) == Booked(cfg, Level(before, key), Passes(cfg, pose, rays, key)
        + Visits(samples + [Some(s)], key), 0) {
      VisitOneMore(samples, Some(s), key);
      if key != s {
        assert Level(cells', key) == Level(cells, key);
      }
    }
  }

  lemma RayPassed(cfg: BandConfig, pose: Pose, before: Cells, cells: Cells, rays: seq<Ray>, r: Ray)
    requires cfg.Valid() && Passed(cfg, pose, before, cells, rays, Trail(cfg, pose, r))
    ensures Passed(cfg, pose, before, cells, rays + [r], [])
  {
    hide Level, Booked, Trail;
    assert (rays + [r])[..|rays|] == rays;
  }

  function CountKey(hits: seq<Key>, n: nat, key: Key): nat
    requires n <= |hits|
  {
    if n == 0 then 0 else CountKey(hits, n - 1, key) + if hits[n - 1] == key then 1 else 0
  }

  /** The returns of these rays, in a list. */
  ghost predicate Returned(cfg: BandConfig, pose: Pose, hits: seq<Key>, rays: seq<Ray>, wall: (real, real) -> bool)
    requires cfg.Valid()
  {
    && (forall k :: 0 <= k < |hits| ==> 0 <= hits[k].1 < SLICES)
    && forall key: Key {:trigger Returns(cfg, pose, rays, wall, key)} ::
       CountKey(hits, |hits|, key) == Returns(cfg, pose, rays, wall, key)
  }

  lemma {:induction false} CountInAPrefix(hits: seq<Key>, more: seq<Key>, n: nat, key: Key)
    requires n <= |hits|
    ensures CountKey(hits + more, n, key) == CountKey(hits, n, key)
  {
    if n > 0 {
      CountInAPrefix(hits, more, n - 1, key);
    }
  }

  lemma ReturnedOneMore(cfg: BandConfig, pose: Pose, hits: seq<Key>, rays: seq<Ray>, r: Ray, wall: (real, real) -> bool)
    requires cfg.Valid() && Returned(cfg, pose, hits, rays, wall)
    ensures var back := ReturnOf(cfg, pose, r, wall);
            Returned(cfg, pose, if back.Some? then hits + [back.value] else hits, rays + [r], wall)
  {
    var back := ReturnOf(cfg, pose, r, wall);
    var more := if back.Some? then hits + [back.value] else hits;
    assert back.Some? ==> 0 <= back.value.1 < SLICES;
    hide ReturnOf;
    assert (rays + [r])[..|rays|] == rays;
    forall key: Key ensures CountKey(more, |more|, key) == Returns(cfg, pose, rays + [r], wall, key) {
      assert CountKey(hits, |hits|, key) == Returns(cfg, pose, rays, wall, key);
      if back.Some? {
        CountInAPrefix(hits, [back.value], |hits|, key);
      }
    }
  }

  // ── The band ────────────────────────────────────────────────────────────────

  class Band {
    const cfg: BandConfig
    var cells: Cells

    /** No evidence is ever past the cap. */
    ghost predicate Valid()
      reads this
    {
      cfg.Valid() && Capped(cells, cfg.cap)
    }

    constructor (cfg: BandConfig)
      requires cfg.Valid()
      ensures Valid() && this.cfg == cfg && cells == map[]
    {
      this.cfg, cells := cfg, map[];
    }

    /** Books one frame: every slice ends where its passes and returns take it, all
        passes before all returns. */
    method ObserveBeside(pose: Pose, rays: seq<Ray>, wall: (real, real) -> bool)
      requires Valid()
      modifies this`cells
      ensures Valid() && AfterFrame(cfg, pose, rays, wall, old(cells), cells)
    {
      hide Level, Booked, ReturnOf, Trail, Capped, Passed, Returned, CellsOf, HitCells, Crossed, Ended;
      ghost var before := cells;
      NothingPassed(cfg, pose, cells);
      var hits: seq<Key> := [];
      NothingReturned(cfg, pose, wall);
      NoCells();
      NoRays(cfg, pose, wall);
      for k := 0 to |rays|
        invariant Valid() && Passed(cfg, pose, before, cells, rays[..k], [])
                  && Returned(cfg, pose, hits, rays[..k], wall)
        invariant cells.Keys == before.Keys + Crossed(cfg, pose, rays[..k])
                  && HitCells(hits) == Ended(cfg, pose, rays[..k], wall)
      {
        PassRay(before, pose, rays[..k], rays[k]);
        var back := ReturnOf(cfg, pose, rays[k], wall);
        ReturnedOneMore(cfg, pose, hits, rays[..k], rays[k], wall);
        RaysOneMore(cfg, pose, rays[..k], rays[k], wall);
        if back.Some? {
          HitCellsOneMore(hits, back.value);
          hits := hits + [back.value];
        }
        assert rays[..k + 1] == rays[..k] + [rays[k]];
      }
      assert rays[..|rays|] == rays;
      BookHits(before, pose, rays, hits, wall);
    }

    /** One beam clears the slices it crosses. */
    method PassRay(ghost before: Cells, pose: Pose, ghost rays: seq<Ray>, r: Ray)
      requires Valid() && Capped(before, cfg.cap) && Passed(cfg, pose, before, cells, rays, [])
      modifies this`cells
      ensures Valid() && Passed(cfg, pose, before, cells, rays + [r], [])
                && cells.Keys == old(cells).Keys + CellsOf(Trail(cfg, pose, r))
    {
      hide Level, Booked, Passed, Capped, Visits, Last, KeyAt, Along, OnMap, Count, Until, Saturated, CellsOf;
      if r.len <= SHORTEST {
        assert Trail(cfg, pose, r) == [];
        NoCells();
        RayPassed(cfg, pose, before, cells, rays, r);
        return;
      }
      var a, b := OnMap(pose, r.from), OnMap(pose, r.to);
      var until := Until(cfg, r);
      var last: Option<Key> := None;
      var t := 0.0;
      ghost var n := 0;
      NoSamples(cfg, pose, r);
      NoCells();
      while t < until
        invariant t == Walked(cfg, n) && n <= Count(until, cfg.stepM)
        invariant Valid() && Passed(cfg, pose, before, cells, rays, Samples(cfg, pose, r, n))
        invariant last == Last(Samples(cfg, pose, r, n))
                  && cells.Keys == old(cells).Keys + CellsOf(Samples(cfg, pose, r, n))
        decreases Count(until, cfg.stepM) - n
      {
        CountStops(cfg, until, n);
        var key := KeyAt(cfg, Along(a, b, r.len, t));
        ghost var samples, was := Samples(cfg, pose, r, n), cells;
        if key.Some? && last != key {
          last := key;
          PassSlice(key.value);
        }
        SampleOneMore(cfg, pose, before, was, rays, samples, key, cells);
        LastOfOneMore(samples, key);
        LastIsInItsCell(samples);
        CellsOfOneMore(samples, key);
        SamplesOneMore(cfg, pose, r, n, t);
        t := t + cfg.stepM;
        n := n + 1;
      }
      CountStops(cfg, until, n);
      RayPassed(cfg, pose, before, cells, rays, r);
    }

    method PassSlice(key: Key)
      requires Valid() && 0 <= key.1 < SLICES
      modifies this`cells
      ensures Valid() && (key.0 in old(cells) ==> |old(cells)[key.0]| == SLICES)
      ensures cells == WithLevel(old(cells), key, Max(Saturated(Level(old(cells), key) - cfg.pass), -cfg.cap))
      ensures cells.Keys == old(cells).Keys + {key.0}
    {
      LevelsAreCapped(cells, key, cfg.cap);
      LevelsAfter(cells, key, Max(Saturated(Level(cells, key) - cfg.pass), -cfg.cap), cfg.cap);
      cells := WithLevel(cells, key, Max(Saturated(Level(cells, key) - cfg.pass), -cfg.cap));
    }

    /** Every slice gains its hits, clamped at the cap, on top of what clearing left. */
    method BookHits(ghost before: Cells, pose: Pose, ghost rays: seq<Ray>, hits: seq<Key>,
        ghost wall: (real, real) -> bool)
      requires Valid() && Capped(before, cfg.cap) && Passed(cfg, pose, before, cells, rays, [])
                && Returned(cfg, pose, hits, rays, wall)
      modifies this`cells
      ensures Valid() && cells.Keys == old(cells).Keys + HitCells(hits)
      ensures forall key: Key {:trigger Level(cells, key)} ::
                Level(cells, key) == Booked(cfg, Level(before, key), Passes(cfg, pose, rays, key),
                    Returns(cfg, pose, rays, wall, key))
    {
      hide Level, Booked, Passed, Capped, Saturated, WithLevel, BookedSoFar, HitCells;
      StartBooking(cfg, pose, before, cells, rays, hits);
      NoCells();
      for k := 0 to |hits|
        invariant Valid() && BookedSoFar(cfg, pose, before, cells, rays, hits, k)
                  && cells.Keys == old(cells).Keys + HitCells(hits[..k])
      {
        ColumnsAreWhole(cells, cfg.cap);
        HitCellsOneMore(hits[..k], hits[k]);
        assert hits[..k + 1] == hits[..k] + [hits[k]];
        HitOneMore(cfg, pose, before, cells, rays, hits, k);
        KeysOfWithLevel(cells, hits[k], Min(Saturated(Level(cells, hits[k]) + cfg.hit), cfg.cap));
        cells := WithLevel(cells, hits[k], Min(Saturated(Level(cells, hits[k]) + cfg.hit), cfg.cap));
      }
      assert hits[..|hits|] == hits;
      AllBooked(cfg, pose, before, cells, rays, hits, wall);
    }

    /** The other band's columns, moved by `anchor`, are added slice by slice and clamped. */
    method Merge(other: Band, anchor: Pose)
      requires Valid() && other.Valid() && other != this
      modifies this`cells
      ensures Valid()
    {
      hide Capped, CellAt;
      var h := other.cfg.cellM / 2.0;
      var todo := other.cells.Keys;
      while todo != {}
        invariant Valid() && todo <= other.cells.Keys
        decreases todo
      {
        var at :| at in todo;
        todo := todo - {at};
        var (i, j) := at;
        var p := Compose(anchor, Pose(Vec(i as real * other.cfg.cellM + h, j as real * other.cfg.cellM + h), EAST));
        AddColumn(CellAt(cfg, p.at.x, p.at.y), other.cells[at]);
      }
    }

    method AddColumn(at: (int, int), column: seq<int>)
      requires Valid()
      modifies this`cells
      ensures Valid()
      ensures forall key: Key :: key.0 != at ==> Level(cells, key) == Level(old(cells), key)
    {
      hide Capped, WithLevel, Saturated, Level;
      for k := 0 to SLICES
        invariant Valid()
        invariant forall key: Key :: key.0 != at ==> Level(cells, key) == Level(old(cells), key)
      {
        var v := if k < |column| then column[k] else 0;
        var sum := Clamp(Saturated(Level(cells, (at, k)) + v), -cfg.cap, cfg.cap);
        ColumnsAreWhole(cells, cfg.cap);
        LevelsAfter(cells, (at, k), sum, cfg.cap);
        cells := WithLevel(cells, (at, k), sum);
      }
    }

    /** The columns kept within `radiusM` of a point are cleared to the floor of the clamp;
        no other changes, and none is added. */
    method Strike(x: real, y: real, radiusM: real)
      requires Valid() && radiusM >= 0.0
      modifies this`cells
      ensures Valid() && cells.Keys == old(cells).Keys
      ensures forall at ::
                at in cells ==>
                cells[at] == if IsWithin(cfg, at, x, y, radiusM) then seq(SLICES, _ => -cfg.cap) else old(cells)[at]
    {
      hide Capped, CellAt, IsWithin, Ceiling, Struck;
      var reach := Ceiling(radiusM / cfg.cellM) + 1;
      var (ci, cj) := CellAt(cfg, x, y);
      ghost var before := cells;
      StrikeStarts(cfg, cells, x, y, radiusM);
      for i := ci - reach to ci + reach + 1
        invariant Valid() && Struck(cfg, before, cells, x, y, radiusM, i, cj - reach)
      {
        for j := cj - reach to cj + reach + 1
          invariant Valid() && Struck(cfg, before, cells, x, y, radiusM, i, j)
        {
          StrikeOne(cfg, before, cells, x, y, radiusM, i, j);
          if IsWithin(cfg, (i, j), x, y, radiusM) && (i, j) in cells {
            ClearColumn((i, j));
          }
        }
        NextRow(cfg, before, cells, x, y, radiusM, i);
      }
      StrikeEnds(cfg, before, cells, x, y, radiusM);
    }

    method ClearColumn(at: (int, int))
      requires Valid() && at in cells
      modifies this`cells
      ensures Valid() && cells == old(cells)[at := seq(SLICES, _ => -cfg.cap)]
    {
      cells := cells[at := seq(SLICES, _ => -cfg.cap)];
    }
  }

  /** A cell's centre is within `radiusM` of (x, y). */
  predicate IsWithin(cfg: BandConfig, at: (int, int), x: real, y: real, radiusM: real)
  {
    var (dx, dy) := ((at.0 as real + 0.5) * cfg.cellM - x, (at.1 as real + 0.5) * cfg.cellM - y);
    dx * dx + dy * dy <= radiusM * radiusM
  }

  /** The cells before (i, j) in row-major order have been seen to. */
  ghost predicate Struck(cfg: BandConfig, before: Cells, now: Cells, x: real, y: real, radiusM: real, i: int, j: int)
  {
    && now.Keys == before.Keys
    && forall at :: at in now ==>
         now[at] == if IsWithin(cfg, at, x, y, radiusM) && (at.0 < i || (at.0 == i && at.1 < j)) then
             seq(SLICES, _ => -cfg.cap) else before[at]
  }

  lemma StrikeStarts(cfg: BandConfig, cells: Cells, x: real, y: real, radiusM: real)
    requires cfg.Valid() && radiusM >= 0.0
    ensures var (reach, (ci, cj)) := (Ceiling(radiusM / cfg.cellM) + 1, CellAt(cfg, x, y)); Struck(cfg, cells, cells,
              x, y, radiusM, ci - reach, cj - reach)
  {
    hide IsWithin, CellAt, Ceiling;
    forall at | IsWithin(cfg, at, x, y, radiusM) ensures InReach(cfg, at, x, y, radiusM) {
      ReachIsEnough(cfg, at, x, y, radiusM);
    }
  }

  lemma StrikeOne(cfg: BandConfig, before: Cells, now: Cells, x: real, y: real, radiusM: real, i: int, j: int)
    requires cfg.Valid() && Struck(cfg, before, now, x, y, radiusM, i, j)
    ensures var hit := IsWithin(cfg, (i, j), x, y, radiusM) && (i, j) in now;
            Struck(cfg, before, if hit then now[(i, j) := seq(SLICES, _ => -cfg.cap)] else now, x, y, radiusM, i, j + 1)
  {
  }

  lemma NextRow(cfg: BandConfig, before: Cells, now: Cells, x: real, y: real, radiusM: real, i: int)
    requires cfg.Valid() && radiusM >= 0.0
    requires var (reach, (ci, cj)) := (Ceiling(radiusM / cfg.cellM) + 1, CellAt(cfg, x, y)); Struck(cfg, before, now,
              x, y, radiusM, i, cj + reach + 1)
    ensures var (reach, (ci, cj)) := (Ceiling(radiusM / cfg.cellM) + 1, CellAt(cfg, x, y)); Struck(cfg, before, now,
              x, y, radiusM, i + 1, cj - reach)
  {
    hide IsWithin, CellAt, Ceiling;
    forall at | IsWithin(cfg, at, x, y, radiusM) ensures InReach(cfg, at, x, y, radiusM) {
      ReachIsEnough(cfg, at, x, y, radiusM);
    }
  }

  lemma StrikeEnds(cfg: BandConfig, before: Cells, now: Cells, x: real, y: real, radiusM: real)
    requires cfg.Valid() && radiusM >= 0.0
    requires var (reach, (ci, cj)) := (Ceiling(radiusM / cfg.cellM) + 1, CellAt(cfg, x, y)); Struck(cfg, before, now,
              x, y, radiusM, ci + reach + 1, cj - reach)
    ensures now.Keys == before.Keys
    ensures forall at ::
              at in now ==>
              now[at] == if IsWithin(cfg, at, x, y, radiusM) then seq(SLICES, _ => -cfg.cap) else before[at]
  {
    hide IsWithin, CellAt, Ceiling;
    forall at | IsWithin(cfg, at, x, y, radiusM) ensures InReach(cfg, at, x, y, radiusM) {
      ReachIsEnough(cfg, at, x, y, radiusM);
    }
  }

  /** In the square of cells a strike sweeps. */
  predicate InReach(cfg: BandConfig, at: (int, int), x: real, y: real, radiusM: real)
    requires cfg.Valid()
  {
    var (reach, (ci, cj)) := (Ceiling(radiusM / cfg.cellM) + 1, CellAt(cfg, x, y));
    ci - reach <= at.0 <= ci + reach && cj - reach <= at.1 <= cj + reach
  }

  /** The square of cells swept holds every cell within the radius. */
  lemma ReachIsEnough(cfg: BandConfig, at: (int, int), x: real, y: real, radiusM: real)
    requires cfg.Valid() && radiusM >= 0.0 && IsWithin(cfg, at, x, y, radiusM)
    ensures InReach(cfg, at, x, y, radiusM)
  {
    var (dx, dy) := ((at.0 as real + 0.5) * cfg.cellM - x, (at.1 as real + 0.5) * cfg.cellM - y);
    NonNegativeSquare(dx);
    NonNegativeSquare(dy);
    WithinOnAnAxis(cfg.cellM, at.0, x, radiusM, dx);
    WithinOnAnAxis(cfg.cellM, at.1, y, radiusM, dy);
  }

  lemma NonNegativeSquare(d: real)
    ensures d * d >= 0.0
  {
  }

  lemma WithinOnAnAxis(cell: real, i: int, x: real, radiusM: real, d: real)
    requires cell > 0.0 && radiusM >= 0.0 && d == (i as real + 0.5) * cell - x && d * d <= radiusM * radiusM
    ensures var (reach, c) := (Ceiling(radiusM / cell) + 1, (x / cell).Floor); c - reach <= i <= c + reach
  {
    var (u, r) := (x / cell, radiusM / cell);
    var e := i as real + 0.5 - u;
    BoundedBySquare(d, radiusM);
    Unscaled(cell, x, u, radiusM, r, i as real + 0.5, e);
    assert r <= Ceiling(r) as real;
  }

  /** The bound in cells. */
  lemma Unscaled(cell: real, x: real, u: real, radiusM: real, r: real, middle: real, e: real)
    requires cell > 0.0 && u == x / cell && r == radiusM / cell && e == middle - u
    requires -radiusM <= middle * cell - x <= radiusM
    ensures -r <= e <= r
  {
    assert u * cell == x && r * cell == radiusM;
    assert e * cell == middle * cell - x;
    assert (-e) * cell == -(e * cell);
    Compare(r, e, cell);
    Compare(r, -e, cell);
  }

  lemma BoundedBySquare(d: real, r: real)
    requires r >= 0.0 && d * d <= r * r
    ensures -r <= d <= r
  {
    if d > r {
      SquareExceeds(d, r);
    }
    if -d > r {
      SquareExceeds(-d, r);
    }
  }

  lemma SquareExceeds(d: real, r: real)
    requires d > r >= 0.0
    ensures d * d > r * r
  {
    PositiveProduct(d - r, d, (d - r) * d);
    assert r * (d - r) >= 0.0;
    assert d * d == r * r + r * (d - r) + (d - r) * d;
  }

  // ── The band by submap ──────────────────────────────────────────────────────

  /** One band a submap, each in its submap's frame. */
  class AnchoredBand {
    const cfg: BandConfig
    var layers: seq<Band>

    ghost predicate Valid()
      reads this, layers
    {
      && cfg.Valid()
      && (forall i :: 0 <= i < |layers| ==> layers[i].cfg == cfg && layers[i].Valid())
      && (forall i, j :: 0 <= i < j < |layers| ==> layers[i] != layers[j])
    }

    constructor (cfg: BandConfig)
      requires cfg.Valid()
      ensures Valid() && this.cfg == cfg && layers == []
    {
      this.cfg, layers := cfg, [];
    }

    /** Afterwards there are `n` layers; the last has the frame, at the tracked pose seen
        from its anchor, and those before it are what they were, or empty if new. */
    method Observe(n: nat, anchor: Pose, tracked: Pose, rays: seq<Ray>,
        wall: (real, real) -> bool) returns (booked: bool)
      requires Valid()
      modifies this`layers, layers
      ensures Valid() && |layers| == n && (booked <==> n > 0)
      ensures forall i ::
                0 <= i < n && i < |old(layers)| ==>
                layers[i] == old(layers)[i] && (i < n - 1 ==> layers[i].cells == old(layers[i].cells))
      ensures forall i :: |old(layers)| <= i < n - 1 ==> layers[i].cells == map[]
      ensures booked ==>
                AfterFrame(cfg, Between(anchor, tracked), rays, wall, if n <= |old(layers)| then
                    old(LayerCells())[n - 1] else map[], layers[n - 1].cells)
    {
      hide Level, Booked, Passes, Returns, Capped, Between, AfterFrame;
      layers := layers[..if n < |layers| then n else |layers|];
      if n == 0 {
        return false;
      }
      while |layers| < n
        invariant |layers| <= n && Valid()
        invariant forall i ::
                  0 <= i < |layers| && i < |old(layers)| ==>
                  layers[i] == old(layers)[i] && layers[i].cells == old(layers[i].cells)
        invariant forall i :: |old(layers)| <= i < |layers| ==> layers[i].cells == map[] && fresh(layers[i])
        invariant |layers| == n || |layers| >= |old(layers)|
      {
        var layer := new Band(cfg);
        layers := layers + [layer];
      }
      layers[n - 1].ObserveBeside(Between(anchor, tracked), rays, wall);
      return true;
    }

    /** In the last layer every column within the radius of the tracked pose goes to the
        floor of the clamp; no other layer changes. */
    method StrikeAt(n: nat, anchor: Pose, tracked: Pose, radiusM: real)
      requires Valid() && radiusM >= 0.0
      modifies layers
      ensures Valid()
      ensures forall i :: 0 <= i < |layers| && i != n - 1 ==> layers[i].cells == old(layers[i].cells)
      ensures 0 < n <= |layers| ==>
                var (p, cells, before) := (Between(anchor, tracked).at, layers[n - 1].cells, old(layers[n - 1].cells));
                cells.Keys == before.Keys &&
                forall at ::
                    at in cells ==>
                    cells[at] == if IsWithin(cfg, at, p.x, p.y, radiusM) then seq(SLICES, _ => -cfg.cap) else before[at]
    {
      hide Capped, Between, IsWithin;
      if 0 < n <= |layers| {
        var p := Between(anchor, tracked).at;
        layers[n - 1].Strike(p.x, p.y, radiusM);
      }
    }

    ghost function LayerCells(): (r: seq<Cells>)
      reads this, layers
      ensures |r| == |layers| && forall i :: 0 <= i < |layers| ==> r[i] == layers[i].cells
    {
      seq(|layers|, i requires 0 <= i < |layers| reads this, layers => layers[i].cells)
    }
  }

  /** Every pass, and the first `k` returns. */
  ghost predicate BookedSoFar(cfg: BandConfig, pose: Pose, before: Cells, cells: Cells, rays: seq<Ray>,
      hits: seq<Key>, k: nat)
    requires cfg.Valid() && k <= |hits|
  {
    forall key: Key {:trigger Level(cells, key)} ::
      Level(cells, key) == Booked(cfg, Level(before, key), Passes(cfg, pose, rays, key), CountKey(hits, k, key))
  }

  lemma StartBooking(cfg: BandConfig, pose: Pose, before: Cells, cells: Cells, rays: seq<Ray>, hits: seq<Key>)
    requires cfg.Valid() && Passed(cfg, pose, before, cells, rays, [])
    ensures BookedSoFar(cfg, pose, before, cells, rays, hits, 0)
  {
  }

  lemma AllBooked(cfg: BandConfig, pose: Pose, before: Cells, cells: Cells, rays: seq<Ray>, hits: seq<Key>,
      wall: (real, real) -> bool)
    requires cfg.Valid() && BookedSoFar(cfg, pose, before, cells, rays, hits, |hits|)
              && Returned(cfg, pose, hits, rays, wall)
    ensures forall key: Key {:trigger Level(cells, key)} ::
              Level(cells, key) == Booked(cfg, Level(before, key), Passes(cfg, pose, rays, key),
                  Returns(cfg, pose, rays, wall, key))
  {
  }

  lemma HitOneMore(cfg: BandConfig, pose: Pose, before: Cells, cells: Cells, rays: seq<Ray>, hits: seq<Key>, k: nat)
    requires cfg.Valid() && Capped(before, cfg.cap) && Capped(cells, cfg.cap) && k < |hits| && 0 <= hits[k].1 < SLICES
    requires BookedSoFar(cfg, pose, before, cells, rays, hits, k)
              && (hits[k].0 in cells ==> |cells[hits[k].0]| == SLICES)
    ensures var cells' := WithLevel(cells, hits[k], Min(Saturated(Level(cells, hits[k]) + cfg.hit), cfg.cap));
            Capped(cells', cfg.cap) && BookedSoFar(cfg, pose, before, cells', rays, hits, k + 1)
  {
    hide Level, Booked, Capped, WithLevel, Saturated;
    var s := hits[k];
    var n, m := Passes(cfg, pose, rays, s), CountKey(hits, k, s);
    assert Level(cells, s) == Booked(cfg, Level(before, s), n, m);
    LevelsAreCapped(before, s, cfg.cap);
    OneMoreHit(cfg, Level(before, s), n, m);
    OneMoreHit(cfg, Level(before, s), n, m + 1);
    LevelsAfter(cells, s, Booked(cfg, Level(before, s), n, m + 1), cfg.cap);
  }

  lemma ColumnsAreWhole(cells: Cells, cap: int)
    requires Capped(cells, cap)
    ensures forall at :: at in cells ==> |cells[at]| == SLICES
  {
  }

  lemma NothingReturned(cfg: BandConfig, pose: Pose, wall: (real, real) -> bool)
    requires cfg.Valid()
    ensures Returned(cfg, pose, [], [], wall)
  {
  }

  lemma LastOfOneMore(samples: seq<Option<Key>>, s: Option<Key>)
    ensures Last(samples + [s]) == if s.Some? then s else Last(samples)
  {
  }
}