/** The frames of one stand put together, `maploc/src/accumulator.rs`: a beam is kept
    when enough distinct frames have one ending in the nine cells around its end. */
module Accumulator {
  import opened Reals
  import opened Grid
  import opened Poses
  import opened Submaps

  datatype AccumulatorConfig = AccumulatorConfig(cellM: real, minFrames: nat, maxRangeM: real, minWindowFrames: nat)

  /** One frame: where the body was, and what it saw. */
  datatype Frame = Frame(pose: Pose, scan: Scan)

  type Cell = (int, int)

  const SMALLEST_CELL: real := 0.000001

  function CellSize(cfg: AccumulatorConfig): (c: real)
    ensures c > 0.0
  {
    if cfg.cellM < SMALLEST_CELL then SMALLEST_CELL else cfg.cellM
  }

  function EndCell(cfg: AccumulatorConfig, pose: Pose, b: Beam): Cell
  {
    var w := Placed(pose, b.end);
    ((w.x / CellSize(cfg)).Floor, (w.y / CellSize(cfg)).Floor)
  }

  /** A beam ends in the cell that holds its end in the world. */
  lemma EndIsInItsCell(cfg: AccumulatorConfig, pose: Pose, b: Beam, cell: Cell)
    ensures var (c, w) := (CellSize(cfg), Compose(pose, Pose(b.end, EAST)).at);
            EndCell(cfg, pose, b) == cell <==>
              Multiple(cell.0, c) <= w.x < Multiple(cell.0 + 1, c)
                  && Multiple(cell.1, c) <= w.y < Multiple(cell.1 + 1, c)
  {
    hide Placed, Compose, CellSize;
    var (c, w) := (CellSize(cfg), Placed(pose, b.end));
    PlacedIsComposed(pose, b.end, EAST);
    WholeSteps(w.x, c, cell.0);
    WholeSteps(w.y, c, cell.1);
  }

  predicate InRange(cfg: AccumulatorConfig, b: Beam)
  {
    SquareDistance(b.end, b.origin) <= cfg.maxRangeM * cfg.maxRangeM
  }

  // ── The vote ────────────────────────────────────────────────────────────────

  /** Some in-range beam of the frame ends in the cell. */
  ghost predicate Hits(cfg: AccumulatorConfig, f: Frame, cell: Cell)
  {
    exists k ::
        0 <= k < |f.scan.beams| && InRange(cfg, f.scan.beams[k]) && EndCell(cfg, f.pose, f.scan.beams[k]) == cell
  }

  /** How many of the first `n` frames hit the cell. */
  ghost function Hitting(cfg: AccumulatorConfig, frames: seq<Frame>, n: nat, cell: Cell): nat
    requires n <= |frames|
  {
    if n == 0 then 0 else Hitting(cfg, frames, n - 1, cell) + if Hits(cfg, frames[n - 1], cell) then 1 else 0
  }

  /** Enough frames hit one of the nine cells around the beam's end. */
  ghost predicate IsConfirmed(cfg: AccumulatorConfig, frames: seq<Frame>, at: Cell)
  {
    exists cell: Cell ::
        -1 <= cell.0 - at.0 <= 1 && -1 <= cell.1 - at.1 <= 1 && Hitting(cfg, frames, |frames|, cell) >= cfg.minFrames
  }

  /** What the window keeps: beams in range, and confirmed when there are frames enough
      to vote. */
  ghost predicate IsKept(cfg: AccumulatorConfig, frames: seq<Frame>, f: Frame, b: Beam)
  {
    InRange(cfg, b) && (|frames| >= cfg.minWindowFrames ==> IsConfirmed(cfg, frames, EndCell(cfg, f.pose, b)))
  }

  /** A beam of one frame seen from the pose of another. */
  function Moved(from: Pose, to: Pose, b: Beam): Beam
  {
    Beam(Unrotate(to.heading, Minus(Placed(from, b.origin), to.at)),
        Unrotate(to.heading, Minus(Placed(from, b.end), to.at)))
  }

  /** The kept beams of the first `m` of one frame's, seen from `rep`. */
  ghost function KeptOf(cfg: AccumulatorConfig, frames: seq<Frame>, f: Frame, rep: Pose, m: nat): seq<Beam>
    requires m <= |f.scan.beams|
  {
    if m == 0 then []
    else KeptOf(cfg, frames, f, rep, m - 1) + (if IsKept(cfg, frames, f, f.scan.beams[m - 1]) then
        [Moved(f.pose, rep, f.scan.beams[m - 1])] else [])
  }

  /** ... and of the first `n` frames. */
  ghost function Kept(cfg: AccumulatorConfig, frames: seq<Frame>, rep: Pose, n: nat): seq<Beam>
    requires n <= |frames|
  {
    if n == 0 then []
        else Kept(cfg, frames, rep, n - 1) + KeptOf(cfg, frames, frames[n - 1], rep, |frames[n - 1].scan.beams|)
  }

  /** A composite's beam stands where its frame's beam stood in the world. */
  lemma WorldEndpointsStay(from: Pose, to: Pose, b: Beam)
    ensures Placed(to, Moved(from, to, b).origin) == Placed(from, b.origin)
              && Placed(to, Moved(from, to, b).end) == Placed(from, b.end)
  {
    PutBack(to, Placed(from, b.origin));
    PutBack(to, Placed(from, b.end));
    hide Placed, Unrotate, Minus;
  }

  lemma PutBack(p: Pose, w: Vec)
    ensures Placed(p, Unrotate(p.heading, Minus(w, p.at))) == w
  {
  }

  // ── The accumulator ─────────────────────────────────────────────────────────

  /** Votes per cell: how many frames, and the last one counted. */
  type Votes = map<Cell, (nat, nat)>

  function Count(votes: Votes, cell: Cell): nat
  {
    if cell in votes then votes[cell].0 else 0
  }

  /** Some in-range beam of the first `m` of the frame's ends in the cell. */
  ghost predicate HitsBefore(cfg: AccumulatorConfig, f: Frame, m: nat, cell: Cell)
    requires m <= |f.scan.beams|
  {
    exists k :: 0 <= k < m && InRange(cfg, f.scan.beams[k]) && EndCell(cfg, f.pose, f.scan.beams[k]) == cell
  }

  /** A cell's votes after the frames before `n`, and `n` itself if it has hit it. */
  ghost predicate CountedAt(cfg: AccumulatorConfig, frames: seq<Frame>, votes: Votes, n: nat, m: nat, cell: Cell)
    requires n < |frames| && m <= |frames[n].scan.beams|
  {
    var hit := HitsBefore(cfg, frames[n], m, cell);
    && Count(votes, cell) == Hitting(cfg, frames, n, cell) + (if hit then 1 else 0)
    && (hit <==> cell in votes && votes[cell].1 == n) && (cell in votes ==> votes[cell].1 <= n)
  }

  ghost predicate Counted(cfg: AccumulatorConfig, frames: seq<Frame>, votes: Votes, n: nat, m: nat)
    requires n < |frames| && m <= |frames[n].scan.beams|
  {
    forall cell: Cell :: CountedAt(cfg, frames, votes, n, m, cell)
  }

  /** Every frame before `n` has voted. */
  ghost predicate AllCounted(cfg: AccumulatorConfig, frames: seq<Frame>, votes: Votes, n: nat)
    requires n <= |frames|
  {
    && (forall cell: Cell {:trigger Count(votes, cell)} :: Count(votes, cell) == Hitting(cfg, frames, n, cell))
    && (forall cell: Cell :: cell in votes ==> votes[cell].1 < n)
  }

  /** One vote for a cell, unless this frame has voted for it. */
  function Voted(votes: Votes, key: Cell, frame: nat): Votes
  {
    if key in votes then (if votes[key].1 == frame then votes else votes[key := (votes[key].0 + 1, frame)])
    else votes[key := (1, frame)]
  }

  lemma OneMoreBeam(cfg: AccumulatorConfig, frames: seq<Frame>, votes: Votes, n: nat, m: nat)
    requires n < |frames| && m < |frames[n].scan.beams| && Counted(cfg, frames, votes, n, m)
    ensures var b := frames[n].scan.beams[m];
            Counted(cfg, frames, if InRange(cfg, b) then Voted(votes, EndCell(cfg, frames[n].pose, b), n)
                else votes, n, m + 1)
  {
    var f := frames[n];
    var b := f.scan.beams[m];
    var key := EndCell(cfg, f.pose, b);
    var votes' := if InRange(cfg, b) then Voted(votes, key, n) else votes;
    hide InRange, EndCell;
    var next := m + 1;
    forall cell: Cell ensures CountedAt(cfg, frames, votes', n, next, cell) {
      assert CountedAt(cfg, frames, votes, n, m, cell);
      assert HitsBefore(cfg, f, next, cell) <==> HitsBefore(cfg, f, m, cell) || (InRange(cfg, b) && key == cell);
    }
  }

  lemma FrameStarts(cfg: AccumulatorConfig, frames: seq<Frame>, votes: Votes, n: nat)
    requires n < |frames| && AllCounted(cfg, frames, votes, n)
    ensures Counted(cfg, frames, votes, n, 0)
  {
  }

  lemma FrameEnds(cfg: AccumulatorConfig, frames: seq<Frame>, votes: Votes, n: nat)
    requires n < |frames| && Counted(cfg, frames, votes, n, |frames[n].scan.beams|)
    ensures AllCounted(cfg, frames, votes, n + 1)
  {
    forall cell: Cell ensures Count(votes, cell) == Hitting(cfg, frames, n + 1, cell)
        && (cell in votes ==> votes[cell].1 < n + 1) {
      assert CountedAt(cfg, frames, votes, n, |frames[n].scan.beams|, cell);
    }
  }

  class WindowAccumulator {
    const cfg: AccumulatorConfig
    var frames: seq<Frame>

    constructor (cfg: AccumulatorConfig)
      ensures this.cfg == cfg && frames == []
    {
      this.cfg, frames := cfg, [];
    }

    method Push(pose: Pose, scan: Scan)
      modifies this`frames
      ensures frames == old(frames) + [Frame(pose, scan)]
    {
      frames := frames + [Frame(pose, scan)];
    }

    /** Closes the window: exactly the kept beams, in order, seen from the middle frame;
        none when there is nothing to keep. The frames are gone either way. */
    method Finish() returns (composite: Option<(Pose, seq<Beam>)>)
      modifies this`frames
      ensures frames == []
      ensures old(frames) == [] ==> composite == None
      ensures old(frames) != [] ==>
                var rep := old(frames)[|old(frames)| / 2].pose;
                var kept := Kept(cfg, old(frames), rep, |old(frames)|);
                composite == if kept == [] then None else Some((rep, kept))
    {
      var taken := frames;
      frames := [];
      if |taken| == 0 {
        return None;
      }
      hide Kept, AllCounted;
      var rep := taken[|taken| / 2].pose;
      var voteEnabled := |taken| >= cfg.minWindowFrames;
      var votes: Votes := map[];
      if voteEnabled {
        votes := Vote(taken);
      }
      var out: seq<Beam> := [];
      NothingKept(cfg, taken, rep);
      for n := 0 to |taken|
        invariant out == Kept(cfg, taken, rep, n) && frames == []
      {
        var some := Filter(taken, taken[n], rep, votes);
        KeptOneMore(cfg, taken, rep, n);
        out := out + some;
      }
      composite := if |out| == 0 then None else Some((rep, out));
    }

    /** Every frame votes once for every cell it hits. */
    method Vote(taken: seq<Frame>) returns (votes: Votes)
      ensures AllCounted(cfg, taken, votes, |taken|)
    {
      hide AllCounted, Counted, InRange, EndCell, Voted;
      votes := map[];
      NobodyVoted(cfg, taken);
      for n := 0 to |taken|
        invariant AllCounted(cfg, taken, votes, n)
      {
        FrameStarts(cfg, taken, votes, n);
        for m := 0 to |taken[n].scan.beams|
          invariant Counted(cfg, taken, votes, n, m)
        {
          OneMoreBeam(cfg, taken, votes, n, m);
          var b := taken[n].scan.beams[m];
          if !InRange(cfg, b) {
            continue;
          }
          votes := Voted(votes, EndCell(cfg, taken[n].pose, b), n);
        }
        FrameEnds(cfg, taken, votes, n);
      }
    }

    /** A frame's kept beams. */
    method Filter(taken: seq<Frame>, f: Frame, rep: Pose, votes: Votes) returns (some: seq<Beam>)
      requires |taken| >= cfg.minWindowFrames ==> AllCounted(cfg, taken, votes, |taken|)
      ensures some == KeptOf(cfg, taken, f, rep, |f.scan.beams|)
    {
      hide AllCounted, InRange, EndCell, IsConfirmed, Moved;
      some := [];
      for m := 0 to |f.scan.beams|
        invariant some == KeptOf(cfg, taken, f, rep, m)
      {
        var b := f.scan.beams[m];
        if !InRange(cfg, b) {
          continue;
        }
        if |taken| >= cfg.minWindowFrames {
          var confirmed := Confirmed(taken, votes, EndCell(cfg, f.pose, b));
          if !confirmed {
            continue;
          }
        }
        some := some + [Moved(f.pose, rep, b)];
      }
    }

    /** The nine cells around a beam's end. */
    method Confirmed(ghost taken: seq<Frame>, votes: Votes, at: Cell) returns (confirmed: bool)
      requires AllCounted(cfg, taken, votes, |taken|)
      ensures confirmed <==> IsConfirmed(cfg, taken, at)
    {
      for di := -1 to 2
        invariant forall cell: Cell {:trigger Count(votes, cell)} ::
                  -1 <= cell.0 - at.0 < di && -1 <= cell.1 - at.1 <= 1 ==> Count(votes, cell) < cfg.minFrames
      {
        for dj := -1 to 2
          invariant forall cell: Cell {:trigger Count(votes, cell)} ::
                      -1 <= cell.0 - at.0 <= di && -1 <= cell.1 - at.1 <= 1 ==>
                        cell.0 - at.0 < di || cell.1 - at.1 < dj ==> Count(votes, cell) < cfg.minFrames
        {
          if Count(votes, (at.0 + di, at.1 + dj)) >= cfg.minFrames {
            assert Hitting(cfg, taken, |taken|, (at.0 + di, at.1 + dj)) >= cfg.minFrames;
            return true;
          }
        }
      }
      forall cell: Cell | -1 <= cell.0 - at.0 <= 1 && -1 <= cell.1 - at.1 <= 1
        ensures Hitting(cfg, taken, |taken|, cell) < cfg.minFrames
      {
        assert Count(votes, cell) == Hitting(cfg, taken, |taken|, cell);
      }
      return false;
    }
  }

  lemma NothingKept(cfg: AccumulatorConfig, frames: seq<Frame>, rep: Pose)
    ensures Kept(cfg, frames, rep, 0) == []
  {
  }

  lemma KeptOneMore(cfg: AccumulatorConfig, frames: seq<Frame>, rep: Pose, n: nat)
    requires n < |frames|
    ensures Kept(cfg, frames, rep, n + 1) == Kept(cfg, frames, rep, n)
              + KeptOf(cfg, frames, frames[n], rep, |frames[n].scan.beams|)
  {
  }

  lemma NobodyVoted(cfg: AccumulatorConfig, frames: seq<Frame>)
    ensures AllCounted(cfg, frames, map[], 0)
  {
  }
}
