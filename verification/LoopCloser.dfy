/** Loop closures, `maploc/src/loop_closer.rs`: which scans of a submap bear witness, what
    anchor they agree on against an older submap, and which closures that gives. What a
    match of one scan against one submap comes to is given. */
module LoopCloser {
  import opened Reals
  import opened Grid
  import opened Poses
  import opened Submaps
  import Sorting

  datatype LoopCloserConfig = LoopCloserConfig(
    radiusM: real, minIndexGap: nat, maxResidualM: real, minBeamsUsed: nat, minCoverage: real, edgeSigmaXy: real,
        edgeSigmaYaw: real,
    verifyScans: nat, minWitnessBeams: nat, verifyMaxSpreadM: real, verifyMaxSpreadRad: real,
    minCorrectionM: real, minCorrectionRad: real,
    maxBaseM: real, maxPerSubmapM: real, maxCapM: real,
    maxBaseRad: real, maxPerSubmapRad: real, maxCapRad: real)

  /** A scan matched against an older submap: where it lies there, how well, and on how
      many of its beams. */
  datatype Matched = Matched(pose: Pose, residual: Coordinate, used: nat, observed: nat, valid: nat)

  /** What a match of a scan against the submap with this index comes to. */
  type Matcher = (nat, RawScan) -> Matched

  /** The anchor that the witnesses come to, and the largest of their residuals. */
  datatype Consensus = Consensus(anchor: Pose, residual: real)

  datatype LoopClosure = LoopClosure(fromIdx: nat, toIdx: nat, measurement: Pose, residual: real)

  // ── The witnesses ───────────────────────────────────────────────────────────

  function Size(s: RawScan): nat
  {
    |s.scan.beams|
  }

  /** Larger scans first, equally large ones in the order they came. */
  function BySize(scans: seq<RawScan>): seq<RawScan>
  {
    Sorting.By(Size, scans)
  }

  ghost predicate Descending(scans: seq<RawScan>)
  {
    Sorting.Descending(Size, scans)
  }

  function Limit(cfg: LoopCloserConfig): nat
  {
    if cfg.verifyScans < 1 then 1 else cfg.verifyScans
  }

  /** The witnesses among the first `n`: large enough, no observation twice, no more than
      the limit. */
  function Picked(cfg: LoopCloserConfig, sorted: seq<RawScan>, n: nat): seq<RawScan>
    requires n <= |sorted|
  {
    if n == 0 then []
    else
      var (before, s) := (Picked(cfg, sorted, n - 1), sorted[n - 1]);
      if |before| >= Limit(cfg) || Size(s) < cfg.minWitnessBeams || s in before then before else before + [s]
  }

  function Witnesses(cfg: LoopCloserConfig, scans: seq<RawScan>): seq<RawScan>
  {
    var sorted := BySize(scans);
    Picked(cfg, sorted, |sorted|)
  }

  /** The largest different observations that are large enough, up to the limit. */
  ghost predicate AreTheStrongest(cfg: LoopCloserConfig, scans: seq<RawScan>, picked: seq<RawScan>)
  {
    && |picked| <= Limit(cfg) && Descending(picked)
    && (forall i, j :: 0 <= i < j < |picked| ==> picked[i] != picked[j])
    && (forall s :: s in picked ==> s in scans && Size(s) >= cfg.minWitnessBeams)
    && (forall s :: s in scans && Size(s) >= cfg.minWitnessBeams && s !in picked ==>
          |picked| == Limit(cfg) && forall t :: t in picked ==> Size(t) >= Size(s))
  }

  lemma {:induction false} PickedAreTheStrongest(cfg: LoopCloserConfig, sorted: seq<RawScan>, n: nat)
    requires Descending(sorted) && n <= |sorted|
    ensures AreTheStrongest(cfg, sorted[..n], Picked(cfg, sorted, n))
  {
    hide AreTheStrongest, Size;
    if n > 0 {
      PickedAreTheStrongest(cfg, sorted, n - 1);
      var (before, s) := (Picked(cfg, sorted, n - 1), sorted[n - 1]);
      assert sorted[..n] == sorted[..n - 1] + [s];
      forall t | t in sorted[..n - 1] ensures Size(t) >= Size(s) {
        var k :| 0 <= k < n - 1 && sorted[..n - 1][k] == t;
        assert sorted[k] == t;
      }
      OneScanMore(cfg, sorted[..n - 1], before, s);
    } else {
      NoScans(cfg);
    }
  }

  lemma NoScans(cfg: LoopCloserConfig)
    ensures AreTheStrongest(cfg, [], [])
  {
  }

  lemma OneScanMore(cfg: LoopCloserConfig, scans: seq<RawScan>, before: seq<RawScan>, s: RawScan)
    requires AreTheStrongest(cfg, scans, before) && forall t :: t in scans ==> Size(t) >= Size(s)
    ensures AreTheStrongest(cfg, scans + [s],
                            if |before| >= Limit(cfg) || Size(s) < cfg.minWitnessBeams || s in before then before
                                else before + [s])
  {
    hide Size;
  }

  lemma WitnessesAreTheStrongest(cfg: LoopCloserConfig, scans: seq<RawScan>)
    ensures AreTheStrongest(cfg, scans, Witnesses(cfg, scans))
  {
    var sorted := BySize(scans);
    Sorting.BySorts(Size, scans);
    PickedAreTheStrongest(cfg, sorted, |sorted|);
    assert sorted[..|sorted|] == sorted;
    hide BySize, Picked, Size;
  }

  method PickWitnesses(scans: seq<RawScan>, cfg: LoopCloserConfig) returns (picked: seq<RawScan>)
    ensures picked == Witnesses(cfg, scans) && AreTheStrongest(cfg, scans, picked)
  {
    hide AreTheStrongest, BySize;
    WitnessesAreTheStrongest(cfg, scans);
    var bySize := BySize(scans);
    picked := [];
    for n := 0 to |bySize|
      invariant picked == Picked(cfg, bySize, n) && |picked| < Limit(cfg)
    {
      var s := bySize[n];
      if Size(s) < cfg.minWitnessBeams {
        continue;
      }
      if s in picked {
        continue;
      }
      picked := picked + [s];
      if |picked| >= Limit(cfg) {
        NoMoreIsPicked(cfg, bySize, n + 1, |bySize|);
        break;
      }
    }
  }

  lemma {:induction false} NoMoreIsPicked(cfg: LoopCloserConfig, sorted: seq<RawScan>, n: nat, m: nat)
    requires n <= m <= |sorted| && |Picked(cfg, sorted, n)| >= Limit(cfg)
    ensures Picked(cfg, sorted, m) == Picked(cfg, sorted, n)
  {
    if n < m {
      NoMoreIsPicked(cfg, sorted, n, m - 1);
    }
  }

  // ── What they agree on ──────────────────────────────────────────────────────

  /** A match good enough to be believed. */
  predicate Testifies(cfg: LoopCloserConfig, m: Matched)
  {
    && m.residual.Real? && m.residual.value <= cfg.maxResidualM && m.used >= cfg.minBeamsUsed
    && (if m.valid > 0 then m.observed as real / m.valid as real else 0.0) >= cfg.minCoverage
  }

  /** ... in beams: of the valid ones enough were observed. */
  lemma TestifiesByBeams(cfg: LoopCloserConfig, m: Matched)
    requires m.residual.Real? && m.residual.value <= cfg.maxResidualM && m.valid > 0
    ensures Testifies(cfg, m) <==>
              cfg.minBeamsUsed <= m.used && cfg.minCoverage * m.valid as real <= m.observed as real
  {
    var share := m.observed as real / m.valid as real;
    assert share * m.valid as real == m.observed as real;
    InOrder(cfg.minCoverage, share, m.valid as real, cfg.minCoverage * m.valid as real, m.observed as real);
  }

  /** The anchor of the new submap that a match of one of its scans implies. */
  function Implied(older: Pose, m: Matched, s: RawScan): Pose
  {
    Compose(Compose(older, m.pose), Inverse(s.poseInSubmap))
  }

  /** A match implies the anchor `truth` exactly when it puts the scan where it was taken
      if the submap stood there; so true matches all imply the same. */
  lemma TrueMatchesAgree(older: Pose, truth: Pose, m: Matched, s: RawScan)
    ensures Implied(older, m, s) == truth <==> m.pose == Between(older, Compose(truth, s.poseInSubmap))
  {
    hide *;
    ImpliedBy(older, m, s);
    InverseOnTheRight(truth, s.poseInSubmap);
    InverseOnTheLeft(Compose(older, m.pose), s.poseInSubmap);
    BetweenThenCompose(older, m.pose);
    BetweenThenCompose(older, Compose(truth, s.poseInSubmap));
  }

  lemma ImpliedBy(older: Pose, m: Matched, s: RawScan)
    ensures Implied(older, m, s) == Compose(Compose(older, m.pose), Inverse(s.poseInSubmap))
  {
  }

  lemma InverseOnTheLeft(a: Pose, b: Pose)
    ensures Compose(Compose(a, Inverse(b)), b) == a
  {
    hide *;
    ComposeIsAssociative(a, Inverse(b), b);
    InverseUndoes(a);
    InverseUndoes(b);
  }

  /** The sum of the first `n` positions, and of the first `n` headings as vectors. */
  function Sums(anchors: seq<Pose>, n: nat): (Vec, Vec)
    requires n <= |anchors|
  {
    if n == 0 then (Vec(0.0, 0.0), Vec(0.0, 0.0))
    else
      var ((at, dir), a) := (Sums(anchors, n - 1), anchors[n - 1]);
      (Plus(at, a.at), Plus(dir, Vec(a.heading.c, a.heading.s)))
  }

  /** The mean position, with the mean heading. */
  function Mean(anchors: seq<Pose>, trig: Trig): Pose
    requires anchors != []
  {
    var (n, (at, dir)) := (|anchors| as real, Sums(anchors, |anchors|));
    Pose(Vec(at.x / n, at.y / n), trig.towards(dir))
  }

  /** How far apart two headings are. */
  function Turned(a: Heading, b: Heading, trig: Trig): real
  {
    var d := trig.angle(Turn(Back(b), a));
    if d < 0.0 then -d else d
  }

  predicate IsNear(cfg: LoopCloserConfig, a: Pose, mean: Pose, trig: Trig)
  {
    !Beyond(SquareDistance(a.at, mean.at), cfg.verifyMaxSpreadM)
        && Turned(a.heading, mean.heading, trig) <= cfg.verifyMaxSpreadRad
  }

  /** The anchors the witnesses imply. */
  function Anchors(older: Pose, matches: seq<Matched>, picked: seq<RawScan>): (r: seq<Pose>)
    requires |matches| == |picked|
    ensures |r| == |picked|
  {
    seq(|picked|, k requires 0 <= k < |picked| => Implied(older, matches[k], picked[k]))
  }

  function Worst(matches: seq<Matched>, n: nat): real
    requires n <= |matches| && forall k :: 0 <= k < n ==> matches[k].residual.Real?
  {
    if n == 0 then 0.0 else MaxReal(Worst(matches, n - 1), matches[n - 1].residual.value)
  }

  lemma {:induction false} WorstIsTheLargest(matches: seq<Matched>, n: nat)
    requires n <= |matches| && forall k :: 0 <= k < n ==> matches[k].residual.Real?
    ensures forall k :: 0 <= k < n ==> matches[k].residual.value <= Worst(matches, n)
    ensures Worst(matches, n) == 0.0 || exists k :: 0 <= k < n && matches[k].residual.value == Worst(matches, n)
  {
    if n > 0 {
      WorstIsTheLargest(matches, n - 1);
    }
  }

  function MatchesOf(matcher: Matcher, olderIdx: nat, picked: seq<RawScan>): (r: seq<Matched>)
    ensures |r| == |picked|
  {
    seq(|picked|, k requires 0 <= k < |picked| => matcher(olderIdx, picked[k]))
  }

  /** Two witnesses or more, every match to be believed, every implied anchor near the
      mean of all. */
  predicate Agree(cfg: LoopCloserConfig, olderIdx: nat, older: Pose, picked: seq<RawScan>, matcher: Matcher, trig: Trig)
  {
    var matches := MatchesOf(matcher, olderIdx, picked);
    && |picked| >= 2 && (forall k :: 0 <= k < |matches| ==> Testifies(cfg, matches[k]))
    && var anchors := Anchors(older, matches, picked);
       forall k :: 0 <= k < |anchors| ==> IsNear(cfg, anchors[k], Mean(anchors, trig), trig)
  }

  function ConsensusOf(cfg: LoopCloserConfig, olderIdx: nat, older: Pose, picked: seq<RawScan>, matcher: Matcher,
      trig: Trig): Option<Consensus>
  {
    if !Agree(cfg, olderIdx, older, picked, matcher, trig) then None
    else
      var matches := MatchesOf(matcher, olderIdx, picked);
      Some(Consensus(Mean(Anchors(older, matches, picked), trig), Worst(matches, |matches|)))
  }

  /** Vectors along a heading point in it, and no turn has no angle. */
  ghost predicate PointsAlong(trig: Trig)
  {
    trig.angle(EAST) == 0.0 && forall h: Heading, k: nat :: k > 0 ==> trig.towards(Stretched(h, k)) == h
  }

  function Stretched(h: Heading, k: nat): Vec
  {
    Vec(Multiple(k, h.c), Multiple(k, h.s))
  }

  lemma {:induction false} SumsOfTheSame(anchors: seq<Pose>, a: Pose, n: nat)
    requires n <= |anchors| && forall k :: 0 <= k < |anchors| ==> anchors[k] == a
    ensures Sums(anchors, n) == (Vec(Multiple(n, a.at.x), Multiple(n, a.at.y)), Stretched(a.heading, n))
  {
    hide Multiple;
    if n > 0 {
      SumsOfTheSame(anchors, a, n - 1);
      var (s, t) := (Sums(anchors, n), (Vec(Multiple(n, a.at.x), Multiple(n, a.at.y)), Stretched(a.heading, n)));
      OneMoreTime(n, a.at.x);
      OneMoreTime(n, a.at.y);
      OneMoreTime(n, a.heading.c);
      OneMoreTime(n, a.heading.s);
      assert s.0.x == t.0.x && s.0.y == t.0.y && s.1.x == t.1.x && s.1.y == t.1.y;
    } else {
      NoTime(a.at.x);
      NoTime(a.at.y);
      NoTime(a.heading.c);
      NoTime(a.heading.s);
    }
  }

  lemma OneMoreTime(n: nat, x: real)
    requires n > 0
    ensures Multiple(n - 1, x) + x == Multiple(n, x)
  {
  }

  lemma NoTime(x: real)
    ensures Multiple(0, x) == 0.0
  {
  }

  lemma MeanOfTheSame(anchors: seq<Pose>, a: Pose, trig: Trig)
    requires anchors != [] && PointsAlong(trig) && forall k :: 0 <= k < |anchors| ==> anchors[k] == a
    ensures Mean(anchors, trig) == a
  {
    SumsOfTheSame(anchors, a, |anchors|);
    hide Sums, Stretched;
    Averaged(|anchors| as real, a.at.x);
    Averaged(|anchors| as real, a.at.y);
  }

  lemma Averaged(n: real, x: real)
    requires n > 0.0
    ensures n * x / n == x
  {
  }

  /** The mean is where the anchors balance. */
  lemma MeanBalances(anchors: seq<Pose>, trig: Trig)
    requires anchors != []
    ensures var (n, (at, dir)) := (|anchors| as real, Sums(anchors, |anchors|));
            n * Mean(anchors, trig).at.x == at.x && n * Mean(anchors, trig).at.y == at.y
  {
    hide Sums;
  }

  lemma NearItself(cfg: LoopCloserConfig, a: Pose, trig: Trig)
    requires PointsAlong(trig) && cfg.verifyMaxSpreadM >= 0.0 && cfg.verifyMaxSpreadRad >= 0.0
    ensures IsNear(cfg, a, a, trig)
  {
    InverseUndoes(a);
    assert Turn(Back(a.heading), a.heading) == EAST;
    hide Turn, Back;
    NonNegativeProduct(cfg.verifyMaxSpreadM, cfg.verifyMaxSpreadM);
  }

  /** Witnesses all matched where they were taken, the new submap standing at `truth`,
      agree on `truth`. */
  lemma TrueWitnessesAgree(cfg: LoopCloserConfig, olderIdx: nat, older: Pose, picked: seq<RawScan>, matcher: Matcher,
      trig: Trig, truth: Pose)
    requires PointsAlong(trig) && cfg.verifyMaxSpreadM >= 0.0 && cfg.verifyMaxSpreadRad >= 0.0 && |picked| >= 2
    requires forall k {:trigger picked[k]} :: 0 <= k < |picked| ==>
               var m := matcher(olderIdx, picked[k]);
               Testifies(cfg, m) && m.pose == Between(older, Compose(truth, picked[k].poseInSubmap))
    ensures var c := ConsensusOf(cfg, olderIdx, older, picked, matcher, trig); c.Some? && c.value.anchor == truth
  {
    hide Testifies, Implied, Between, Compose, IsNear, Mean, PointsAlong, Worst;
    var matches := MatchesOf(matcher, olderIdx, picked);
    var anchors := Anchors(older, matches, picked);
    forall k | 0 <= k < |picked| ensures anchors[k] == truth && Testifies(cfg, matches[k]) {
      assert matches[k] == matcher(olderIdx, picked[k]);
      TrueMatchesAgree(older, truth, matches[k], picked[k]);
    }
    MeanOfTheSame(anchors, truth, trig);
    NearItself(cfg, truth, trig);
  }

  /** Matches the witnesses one after the other, until one is not to be believed. */
  method Confer(cfg: LoopCloserConfig, olderIdx: nat, older: Pose, picked: seq<RawScan>, matcher: Matcher,
      trig: Trig) returns (c: Option<Consensus>)
    ensures c == ConsensusOf(cfg, olderIdx, older, picked, matcher, trig)
  {
    hide Testifies, Implied, IsNear, Mean;
    if |picked| < 2 {
      return None;
    }
    ghost var all := MatchesOf(matcher, olderIdx, picked);
    var anchors: seq<Pose>, worst := [], 0.0;
    for k := 0 to |picked|
      invariant |anchors| == k && (forall j ::
                0 <= j < k ==> Testifies(cfg, all[j]) && anchors[j] == Implied(older, all[j], picked[j]))
      invariant (forall j :: 0 <= j < k ==> all[j].residual.Real?) && worst == Worst(all, k)
    {
      var result := matcher(olderIdx, picked[k]);
      if !Testifies(cfg, result) {
        assert !Testifies(cfg, all[k]);
        return None;
      }
      TestifiesIsReal(cfg, result);
      worst := MaxReal(worst, result.residual.value);
      anchors := anchors + [Implied(older, result, picked[k])];
    }
    assert anchors == Anchors(older, all, picked);
    var mean := Mean(anchors, trig);
    if exists k :: 0 <= k < |anchors| && !IsNear(cfg, anchors[k], mean, trig) {
      return None;
    }
    return Some(Consensus(mean, worst));
  }

  lemma TestifiesIsReal(cfg: LoopCloserConfig, m: Matched)
    requires Testifies(cfg, m)
    ensures m.residual.Real?
  {
  }

  // ── Closures ────────────────────────────────────────────────────────────────

  /** The square root of `square` is more than `bound`. */
  predicate Beyond(square: real, bound: real)
  {
    bound < 0.0 || square > bound * bound
  }

  /** Far enough to be worth correcting, near enough to be drift over `gap` submaps. */
  predicate IsPlausible(cfg: LoopCloserConfig, gap: nat, correction: real, turnRad: real)
  {
    && (AtLeast(correction, cfg.minCorrectionM) || turnRad >= cfg.minCorrectionRad)
    && !Beyond(correction, MinReal(cfg.maxBaseM + cfg.maxPerSubmapM * gap as real, cfg.maxCapM))
    && turnRad <= MinReal(cfg.maxBaseRad + cfg.maxPerSubmapRad * gap as real, cfg.maxCapRad)
  }

  /** ... in metres, away from the squares: `d` is the distance corrected. */
  lemma PlausibleByDistance(cfg: LoopCloserConfig, gap: nat, d: real, turnRad: real)
    requires d >= 0.0
    ensures IsPlausible(cfg, gap, d * d, turnRad) <==>
              && (cfg.minCorrectionM <= d || cfg.minCorrectionRad <= turnRad)
              && d <= cfg.maxBaseM + cfg.maxPerSubmapM * gap as real && d <= cfg.maxCapM
              && turnRad <= cfg.maxBaseRad + cfg.maxPerSubmapRad * gap as real && turnRad <= cfg.maxCapRad
  {
    SquaresInOrder(cfg.minCorrectionM, d);
    var bound := MinReal(cfg.maxBaseM + cfg.maxPerSubmapM * gap as real, cfg.maxCapM);
    NotBeyond(d, bound);
    hide AtLeast, Beyond;
  }

  lemma NotBeyond(d: real, bound: real)
    requires d >= 0.0
    ensures Beyond(d * d, bound) <==> bound < d
  {
    if bound >= 0.0 {
      NonNegativeProduct(d, bound);
      if bound < d {
        PositiveProduct(d - bound, d, (d - bound) * d);
        NonNegativeProduct(d - bound, bound);
      } else {
        NonNegativeProduct(bound - d, d);
        NonNegativeProduct(bound - d, bound);
      }
    }
  }

  /** What a measurement corrects of where the graph has the anchor: the square of the
      distance, and the turn. */
  predicate CorrectsPlausibly(cfg: LoopCloserConfig, gap: nat, measurement: Pose, predicted: Pose, trig: Trig)
  {
    IsPlausible(cfg, gap, SquareDistance(measurement.at, predicted.at),
        Turned(measurement.heading, predicted.heading, trig))
  }

  /** A closure between the submaps at these anchors is accepted. */
  predicate Accepts(cfg: LoopCloserConfig, olderIdx: nat, newIdx: nat, older: Pose, anchor: Pose,
      c: Option<Consensus>, trig: Trig)
  {
    && olderIdx + cfg.minIndexGap < newIdx
    && !Beyond(SquareDistance(anchor.at, older.at), cfg.radiusM)
    && c.Some? && CorrectsPlausibly(cfg, newIdx - olderIdx, Between(older, c.value.anchor), Between(older, anchor),
       trig)
  }

  function ClosureOf(olderIdx: nat, newIdx: nat, older: Pose, c: Consensus): LoopClosure
  {
    LoopClosure(olderIdx, newIdx, Between(older, c.anchor), c.residual)
  }

  /** The closure of `submaps[newIdx]` with an older one, if there is one. */
  function ClosureWith(submaps: seq<Submap>, newIdx: nat, cfg: LoopCloserConfig, matcher: Matcher, trig: Trig,
      i: nat): Option<LoopClosure>
    requires newIdx < |submaps| && i < |submaps|
    reads submaps
  {
    var (older, anchor) := (submaps[i].anchorPose, submaps[newIdx].anchorPose);
    var c := ConsensusOf(cfg, i, older, Witnesses(cfg, submaps[newIdx].rawScans), matcher, trig);
    if Accepts(cfg, i, newIdx, older, anchor, c, trig) then Some(ClosureOf(i, newIdx, older, c.value)) else None
  }

  /** The closures with the first `n` submaps, in order. */
  function ClosuresWith(submaps: seq<Submap>, newIdx: nat, cfg: LoopCloserConfig, matcher: Matcher, trig: Trig,
      n: nat): seq<LoopClosure>
    requires newIdx < |submaps| && n <= |submaps|
    reads submaps
  {
    if n == 0 then []
    else
      var (before, c) := (ClosuresWith(submaps, newIdx, cfg, matcher, trig, n - 1),
          ClosureWith(submaps, newIdx, cfg, matcher, trig, n - 1));
      if c.Some? then before + [c.value] else before
  }

  /** The closure with an older submap, more than the gap away. */
  ghost predicate IsOne(submaps: seq<Submap>, newIdx: nat, cfg: LoopCloserConfig, matcher: Matcher, trig: Trig,
      n: nat, c: LoopClosure)
    requires newIdx < |submaps| && n <= |submaps|
    reads submaps
  {
    c.fromIdx < n && c.fromIdx + cfg.minIndexGap < c.toIdx == newIdx
        && ClosureWith(submaps, newIdx, cfg, matcher, trig, c.fromIdx) == Some(c)
  }

  /** ... in order, and none of the first `n` missing. */
  ghost predicate AllOnes(submaps: seq<Submap>, newIdx: nat, cfg: LoopCloserConfig, matcher: Matcher, trig: Trig,
      n: nat, r: seq<LoopClosure>)
    requires newIdx < |submaps| && n <= |submaps|
    reads submaps
  {
    && (forall k :: 0 <= k < |r| ==> IsOne(submaps, newIdx, cfg, matcher, trig, n, r[k]))
    && (forall k, l :: 0 <= k < l < |r| ==> r[k].fromIdx < r[l].fromIdx)
    && (forall i ::
       0 <= i < n && ClosureWith(submaps, newIdx, cfg, matcher, trig, i).Some? ==> exists k ::
       0 <= k < |r| && r[k].fromIdx == i)
  }

  lemma OneMore(submaps: seq<Submap>, newIdx: nat, cfg: LoopCloserConfig, matcher: Matcher, trig: Trig, n: nat,
      before: seq<LoopClosure>)
    requires newIdx < |submaps| && n < |submaps| && AllOnes(submaps, newIdx, cfg, matcher, trig, n, before)
    ensures var c := ClosureWith(submaps, newIdx, cfg, matcher, trig, n);
            AllOnes(submaps, newIdx, cfg, matcher, trig, n + 1, if c.Some? then before + [c.value] else before)
  {
    hide ClosureWith;
    ClosureSpansTheGap(submaps, newIdx, cfg, matcher, trig, n);
    var c := ClosureWith(submaps, newIdx, cfg, matcher, trig, n);
    forall k | 0 <= k < |before| ensures IsOne(submaps, newIdx, cfg, matcher, trig, n + 1, before[k]) {
      assert IsOne(submaps, newIdx, cfg, matcher, trig, n, before[k]);
    }
    if c.Some? {
      OneMoreClosure(before, c.value);
    }
  }

  /** One closure for every older submap there is one with, and no other, oldest first;
      every one spans more than the gap. */
  lemma {:induction false} ClosuresAreThose(submaps: seq<Submap>, newIdx: nat, cfg: LoopCloserConfig,
      matcher: Matcher, trig: Trig, n: nat)
    requires newIdx < |submaps| && n <= |submaps|
    ensures AllOnes(submaps, newIdx, cfg, matcher, trig, n, ClosuresWith(submaps, newIdx, cfg, matcher, trig, n))
  {
    hide AllOnes, ClosureWith;
    if n > 0 {
      ClosuresAreThose(submaps, newIdx, cfg, matcher, trig, n - 1);
      OneMore(submaps, newIdx, cfg, matcher, trig, n - 1, ClosuresWith(submaps, newIdx, cfg, matcher, trig, n - 1));
    } else {
      NoneAmongNone(submaps, newIdx, cfg, matcher, trig);
    }
  }

  lemma NoneAmongNone(submaps: seq<Submap>, newIdx: nat, cfg: LoopCloserConfig, matcher: Matcher, trig: Trig)
    requires newIdx < |submaps|
    ensures AllOnes(submaps, newIdx, cfg, matcher, trig, 0, [])
  {
  }

  lemma OneMoreClosure(before: seq<LoopClosure>, c: LoopClosure)
    ensures (before + [c])[|before|] == c && forall k :: 0 <= k < |before| ==> (before + [c])[k] == before[k]
  {
  }

  lemma ClosureSpansTheGap(submaps: seq<Submap>, newIdx: nat, cfg: LoopCloserConfig, matcher: Matcher, trig: Trig,
      i: nat)
    requires newIdx < |submaps| && i < |submaps|
    ensures var c := ClosureWith(submaps, newIdx, cfg, matcher, trig, i); c.Some? ==>
              c.value.fromIdx == i && i + cfg.minIndexGap < c.value.toIdx == newIdx
  {
    hide ConsensusOf, CorrectsPlausibly, Witnesses, Between;
  }

  /** The closures of `submaps[newIdx]`: one for every older submap it is accepted
      against, in order. */
  method DetectLoops(submaps: seq<Submap>, newIdx: nat, cfg: LoopCloserConfig, matcher: Matcher,
      trig: Trig) returns (out: seq<LoopClosure>)
    ensures newIdx < |submaps| ==> out == ClosuresWith(submaps, newIdx, cfg, matcher, trig, |submaps|)
    ensures newIdx >= |submaps| ==> out == []
  {
    hide ConsensusOf, Accepts, CorrectsPlausibly, Witnesses, Between, ClosuresWith, ClosureWith;
    out := [];
    if newIdx == 0 || newIdx >= |submaps| {
      if newIdx < |submaps| {
        NoneOlder(submaps, newIdx, cfg, matcher, trig, |submaps|);
      }
      return;
    }
    var newAnchor := submaps[newIdx].anchorPose;
    var scans := submaps[newIdx].rawScans;
    if scans == [] {
      NoWitnesses(submaps, newIdx, cfg, matcher, trig, |submaps|);
      return;
    }
    NoClosuresYet(submaps, newIdx, cfg, matcher, trig);
    for olderIdx := 0 to |submaps|
      invariant out == ClosuresWith(submaps, newIdx, cfg, matcher, trig, olderIdx)
    {
      OneSubmapMore(submaps, newIdx, cfg, matcher, trig, olderIdx);
      if olderIdx == newIdx {
        continue;
      }
      if olderIdx + cfg.minIndexGap >= newIdx {
        continue;
      }
      var olderAnchor := submaps[olderIdx].anchorPose;
      if Beyond(SquareDistance(newAnchor.at, olderAnchor.at), cfg.radiusM) {
        continue;
      }
      var picked := PickWitnesses(scans, cfg);
      var agreed := Confer(cfg, olderIdx, olderAnchor, picked, matcher, trig);
      if agreed.None? {
        continue;
      }
      var measurement := Between(olderAnchor, agreed.value.anchor);
      var zPred := Between(olderAnchor, newAnchor);
      if !CorrectsPlausibly(cfg, newIdx - olderIdx, measurement, zPred, trig) {
        continue;
      }
      out := out + [LoopClosure(olderIdx, newIdx, measurement, agreed.value.residual)];
    }
  }

  lemma NoClosuresYet(submaps: seq<Submap>, newIdx: nat, cfg: LoopCloserConfig, matcher: Matcher, trig: Trig)
    requires newIdx < |submaps|
    ensures ClosuresWith(submaps, newIdx, cfg, matcher, trig, 0) == []
  {
  }

  /** The gates, one after the other. */
  lemma OneSubmapMore(submaps: seq<Submap>, newIdx: nat, cfg: LoopCloserConfig, matcher: Matcher, trig: Trig, i: nat)
    requires newIdx < |submaps| && i < |submaps|
    ensures var (older, anchor, before) := (submaps[i].anchorPose, submaps[newIdx].anchorPose,
              ClosuresWith(submaps, newIdx, cfg, matcher, trig, i));
            var c := ConsensusOf(cfg, i, older, Witnesses(cfg, submaps[newIdx].rawScans), matcher, trig);
            ClosuresWith(submaps, newIdx, cfg, matcher, trig, i + 1)
            == if i + cfg.minIndexGap < newIdx && !Beyond(SquareDistance(anchor.at, older.at), cfg.radiusM) && c.Some?
                  && CorrectsPlausibly(cfg, newIdx - i, Between(older, c.value.anchor), Between(older, anchor), trig)
               then before + [LoopClosure(i, newIdx, Between(older, c.value.anchor), c.value.residual)] else before
  {
    hide ConsensusOf, CorrectsPlausibly, Witnesses, Between, Beyond, SquareDistance;
  }

  lemma {:induction false} NoneOlder(submaps: seq<Submap>, newIdx: nat, cfg: LoopCloserConfig, matcher: Matcher,
      trig: Trig, n: nat)
    requires newIdx == 0 && newIdx < |submaps| && n <= |submaps|
    ensures ClosuresWith(submaps, newIdx, cfg, matcher, trig, n) == []
  {
    if n > 0 {
      NoneOlder(submaps, newIdx, cfg, matcher, trig, n - 1);
      OneSubmapMore(submaps, newIdx, cfg, matcher, trig, n - 1);
    }
  }

  lemma {:induction false} NoWitnesses(submaps: seq<Submap>, newIdx: nat, cfg: LoopCloserConfig, matcher: Matcher,
      trig: Trig, n: nat)
    requires newIdx < |submaps| && n <= |submaps| && submaps[newIdx].rawScans == []
    ensures ClosuresWith(submaps, newIdx, cfg, matcher, trig, n) == []
  {
    if n > 0 {
      NoWitnesses(submaps, newIdx, cfg, matcher, trig, n - 1);
      OneSubmapMore(submaps, newIdx, cfg, matcher, trig, n - 1);
      assert Witnesses(cfg, []) == [];
    }
  }
}
