/** The places kept while a boot's search goes on, `maploc/src/mapper.rs`: carried by
    odometry, counted window by window, and nominated when one of them leads. What a search
    proposes and what a window says of a place are given. */
module Hypotheses {
  import opened Reals
  import opened Grid
  import opened Poses
  import opened Submaps
  import Sorting

  /** A place: where it is thought to be and the odometry reading that goes with it, the
      windows that agreed with it on balance, and the reading when it was first proposed
      with the square of the largest distance from there that has been read since. */
  datatype Hypothesis = Hypothesis(pose: Pose, seen: Pose, hits: nat, origin: Pose, travel2: real)

  /** Two places agree within a distance and within an angle, of which this is the
      cosine; and how many windows must have agreed with one that is nominated. */
  datatype AgreeConfig = AgreeConfig(agreeM: real, agreeCos: real, agreeWindows: nat)

  const MAX_BASINS: nat := 8
  const TRAVEL_M: real := 1.0
  const LEAD: nat := 3

  /** A window at the boot: the odometry reading, the places its search proposes, and
      which places it agrees with. */
  datatype Round = Round(odom: Pose, basins: seq<Pose>, agrees: Pose -> bool)

  predicate SamePlace(cfg: AgreeConfig, a: Pose, b: Pose)
  {
    cfg.agreeM >= 0.0 && SquareDistance(a.at, b.at) <= cfg.agreeM * cfg.agreeM
        && Turn(Back(b.heading), a.heading).c >= cfg.agreeCos
  }

  // ── One window ──────────────────────────────────────────────────────────────

  function CarriedTo(h: Hypothesis, odom: Pose): Hypothesis
  {
    h.(pose := Carried(h.pose, h.seen, odom), seen := odom,
        travel2 := MaxReal(h.travel2, SquareDistance(odom.at, h.origin.at)))
  }

  function AllCarried(hs: seq<Hypothesis>, odom: Pose): (r: seq<Hypothesis>)
    ensures |r| == |hs| && forall k :: 0 <= k < |hs| ==> r[k] == CarriedTo(hs[k], odom)
  {
    seq(|hs|, k requires 0 <= k < |hs| => CarriedTo(hs[k], odom))
  }

  /** The last of those with the most hits, among the first `n` that are the same place. */
  function Best(cfg: AgreeConfig, hs: seq<Hypothesis>, pose: Pose, n: nat): Option<Hypothesis>
    requires n <= |hs|
  {
    if n == 0 then None
    else
      var (best, h) := (Best(cfg, hs, pose, n - 1), hs[n - 1]);
      if SamePlace(cfg, h.pose, pose) && (best.None? || h.hits >= best.value.hits) then Some(h) else best
  }

  /** A proposed place inherits the count of the best one it is the same as. */
  function Proposed(cfg: AgreeConfig, carried: seq<Hypothesis>, odom: Pose, pose: Pose): Hypothesis
  {
    match Best(cfg, carried, pose, |carried|)
    case None => Hypothesis(pose, odom, 1, odom, 0.0)
    case Some(h) => Hypothesis(pose, odom, h.hits + 1, h.origin, h.travel2)
  }

  function AllProposed(cfg: AgreeConfig, carried: seq<Hypothesis>, r: Round): (next: seq<Hypothesis>)
    ensures |next| == |r.basins| && forall k ::
              0 <= k < |next| ==> next[k] == Proposed(cfg, carried, r.odom, r.basins[k])
  {
    seq(|r.basins|, k requires 0 <= k < |r.basins| => Proposed(cfg, carried, r.odom, r.basins[k]))
  }

  predicate IsIn(cfg: AgreeConfig, next: seq<Hypothesis>, h: Hypothesis)
  {
    exists k :: 0 <= k < |next| && SamePlace(cfg, next[k].pose, h.pose)
  }

  /** A place not proposed again gains a hit or loses one, as the window says; with none
      left it is gone. */
  function Kept(cfg: AgreeConfig, next: seq<Hypothesis>, h: Hypothesis, r: Round): seq<Hypothesis>
  {
    if IsIn(cfg, next, h) then next
    else if r.agrees(h.pose) then next + [h.(hits := h.hits + 1)]
    else if h.hits > 1 then next + [h.(hits := h.hits - 1)]
    else next
  }

  function AllKept(cfg: AgreeConfig, carried: seq<Hypothesis>, r: Round, n: nat): seq<Hypothesis>
    requires n <= |carried|
  {
    if n == 0 then AllProposed(cfg, carried, r) else Kept(cfg, AllKept(cfg, carried, r, n - 1), carried[n - 1], r)
  }

  function Hits(h: Hypothesis): nat
  {
    h.hits
  }

  /** Most hits first, equally many in the order they came. */
  function ByHits(hs: seq<Hypothesis>): seq<Hypothesis>
  {
    Sorting.By(Hits, hs)
  }

  function Updated(cfg: AgreeConfig, hs: seq<Hypothesis>, r: Round): seq<Hypothesis>
  {
    var carried := AllCarried(hs, r.odom);
    var next := ByHits(AllKept(cfg, carried, r, |carried|));
    if |next| > MAX_BASINS then next[..MAX_BASINS] else next
  }

  method Update(cfg: AgreeConfig, hs: seq<Hypothesis>, r: Round) returns (next: seq<Hypothesis>)
    ensures next == Updated(cfg, hs, r)
  {
    hide CarriedTo, Proposed, Kept, ByHits;
    var carried: seq<Hypothesis> := [];
    for k := 0 to |hs|
      invariant |carried| == k && forall j :: 0 <= j < k ==> carried[j] == CarriedTo(hs[j], r.odom)
    {
      carried := carried + [CarriedTo(hs[k], r.odom)];
    }
    assert carried == AllCarried(hs, r.odom);
    next := [];
    for k := 0 to |r.basins|
      invariant |next| == k && forall j :: 0 <= j < k ==> next[j] == Proposed(cfg, carried, r.odom, r.basins[j])
    {
      next := next + [Proposed(cfg, carried, r.odom, r.basins[k])];
    }
    assert next == AllProposed(cfg, carried, r);
    for k := 0 to |carried|
      invariant next == AllKept(cfg, carried, r, k)
    {
      next := Kept(cfg, next, carried[k], r);
    }
    next := ByHits(next);
    if |next| > MAX_BASINS {
      next := next[..MAX_BASINS];
    }
  }

  // ── What a count is worth ───────────────────────────────────────────────────

  /** The square of the farthest a reading from `s` to before `n` is from that at `s`. */
  ghost function Farthest(odoms: seq<Pose>, s: nat, n: nat): real
    requires s < n <= |odoms|
    decreases n
  {
    if n == s + 1 then 0.0 else MaxReal(Farthest(odoms, s, n - 1), SquareDistance(odoms[n - 1].at, odoms[s].at))
  }

  /** A hypothesis first proposed at window `s`: at most one hit a window since, and its
      travel is the largest distance any reading since has from that one. */
  ghost predicate Since(h: Hypothesis, odoms: seq<Pose>, s: nat)
  {
    && s < |odoms| && h.origin == odoms[s] && h.hits <= |odoms| - s && h.travel2 == Farthest(odoms, s, |odoms|)
  }

  ghost predicate Grounded(h: Hypothesis, odoms: seq<Pose>)
  {
    h.hits >= 1 && exists s: nat :: Since(h, odoms, s)
  }

  ghost predicate AllGrounded(hs: seq<Hypothesis>, odoms: seq<Pose>)
  {
    (forall k :: 0 <= k < |hs| ==> Grounded(hs[k], odoms)) && Sorting.Descending(Hits, hs)
  }

  lemma {:induction false} FarthestOfAPrefix(odoms: seq<Pose>, o: Pose, s: nat, n: nat)
    requires s < n <= |odoms|
    ensures Farthest(odoms + [o], s, n) == Farthest(odoms, s, n)
  {
    if n > s + 1 {
      FarthestOfAPrefix(odoms, o, s, n - 1);
    }
  }

  /** Carried to the next window, without a hit yet. */
  ghost predicate Ready(h: Hypothesis, odoms: seq<Pose>)
  {
    h.hits >= 1 && exists s: nat :: ReadySince(h, odoms, s)
  }

  ghost predicate ReadySince(h: Hypothesis, odoms: seq<Pose>, s: nat)
  {
    Since(h.(hits := h.hits + 1), odoms, s)
  }

  lemma CarriedIsReady(h: Hypothesis, odoms: seq<Pose>, o: Pose)
    requires Grounded(h, odoms)
    ensures Ready(CarriedTo(h, o), odoms + [o])
  {
    hide SquareDistance, Carried;
    var s: nat :| Since(h, odoms, s);
    FarthestOfAPrefix(odoms, o, s, |odoms|);
    assert ReadySince(CarriedTo(h, o), odoms + [o], s);
  }

  /** With a hit, without one, or with one fewer. */
  lemma ReadyIsGrounded(h: Hypothesis, odoms: seq<Pose>, hits: nat)
    requires Ready(h, odoms) && 1 <= hits <= h.hits + 1
    ensures Grounded(h.(hits := hits), odoms)
  {
    var s: nat :| ReadySince(h, odoms, s);
    assert Since(h.(hits := hits), odoms, s);
  }

  lemma {:induction false} BestIsOne(cfg: AgreeConfig, hs: seq<Hypothesis>, pose: Pose, n: nat)
    requires n <= |hs|
    ensures Best(cfg, hs, pose, n).Some? ==> exists k ::
              0 <= k < n && hs[k] == Best(cfg, hs, pose, n).value && SamePlace(cfg, hs[k].pose, pose)
    ensures forall k :: 0 <= k < n && SamePlace(cfg, hs[k].pose, pose) ==>
              Best(cfg, hs, pose, n).Some? && hs[k].hits <= Best(cfg, hs, pose, n).value.hits
  {
    if n > 0 {
      BestIsOne(cfg, hs, pose, n - 1);
    }
  }

  lemma ProposedIsGrounded(cfg: AgreeConfig, carried: seq<Hypothesis>, odoms: seq<Pose>, o: Pose, pose: Pose)
    requires forall k :: 0 <= k < |carried| ==> Ready(carried[k], odoms + [o])
    ensures Grounded(Proposed(cfg, carried, o, pose), odoms + [o])
  {
    hide Ready, SamePlace;
    BestIsOne(cfg, carried, pose, |carried|);
    match Best(cfg, carried, pose, |carried|)
    case None =>
      assert Since(Hypothesis(pose, o, 1, o, 0.0), odoms + [o], |odoms|);
    case Some(h) =>
      ReadyIsGrounded(h, odoms + [o], h.hits + 1);
      hide Best;
      SameGround(h.(hits := h.hits + 1), Hypothesis(pose, o, h.hits + 1, h.origin, h.travel2), odoms + [o]);
  }

  lemma SameGround(h: Hypothesis, h': Hypothesis, odoms: seq<Pose>)
    requires Grounded(h, odoms) && h'.hits == h.hits && h'.origin == h.origin && h'.travel2 == h.travel2
    ensures Grounded(h', odoms)
  {
    var s: nat :| Since(h, odoms, s);
    assert Since(h', odoms, s);
  }

  lemma {:induction false} KeptAreGrounded(cfg: AgreeConfig, carried: seq<Hypothesis>, r: Round, odoms: seq<Pose>,
      n: nat)
    requires n <= |carried| && forall k :: 0 <= k < |carried| ==> Ready(carried[k], odoms + [r.odom])
    ensures forall h :: h in AllKept(cfg, carried, r, n) ==> Grounded(h, odoms + [r.odom])
  {
    hide Ready, Grounded, Proposed, IsIn;
    if n == 0 {
      forall k | 0 <= k < |r.basins| ensures Grounded(Proposed(cfg, carried, r.odom, r.basins[k]), odoms + [r.odom]) {
        ProposedIsGrounded(cfg, carried, odoms, r.odom, r.basins[k]);
      }
    } else {
      KeptAreGrounded(cfg, carried, r, odoms, n - 1);
      var h := carried[n - 1];
      ReadyHasHits(h, odoms + [r.odom]);
      ReadyIsGrounded(h, odoms + [r.odom], h.hits + 1);
      if h.hits > 1 {
        ReadyIsGrounded(h, odoms + [r.odom], h.hits - 1);
      }
    }
  }

  lemma ReadyHasHits(h: Hypothesis, odoms: seq<Pose>)
    requires Ready(h, odoms)
    ensures h.hits >= 1
  {
  }

  lemma ByHitsSorts(hs: seq<Hypothesis>)
    ensures Sorting.Descending(Hits, ByHits(hs)) && forall h :: h in ByHits(hs) <==> h in hs
  {
    Sorting.BySorts(Hits, hs);
  }

  /** Whatever the windows say, every hypothesis stands on what happened. */
  lemma UpdatedAreGrounded(cfg: AgreeConfig, hs: seq<Hypothesis>, r: Round, odoms: seq<Pose>)
    requires AllGrounded(hs, odoms)
    ensures AllGrounded(Updated(cfg, hs, r), odoms + [r.odom]) && |Updated(cfg, hs, r)| <= MAX_BASINS
  {
    hide Grounded, Ready, CarriedTo, ByHits, AllKept;
    var carried := AllCarried(hs, r.odom);
    forall k | 0 <= k < |carried| ensures Ready(carried[k], odoms + [r.odom]) {
      CarriedIsReady(hs[k], odoms, r.odom);
    }
    KeptAreGrounded(cfg, carried, r, odoms, |carried|);
    var kept := AllKept(cfg, carried, r, |carried|);
    ByHitsSorts(kept);
    var sorted := ByHits(kept);
    forall k | 0 <= k < |sorted| ensures Grounded(sorted[k], odoms + [r.odom]) {
      assert sorted[k] in kept;
    }
  }

  // ── Where a place is ────────────────────────────────────────────────────────

  /** What is kept after these windows. */
  ghost function After(cfg: AgreeConfig, rounds: seq<Round>): seq<Hypothesis>
  {
    if rounds == [] then [] else Updated(cfg, After(cfg, rounds[..|rounds| - 1]), rounds[|rounds| - 1])
  }

  /** A window proposed it, and since then odometry has carried it, up to `now`. */
  ghost predicate Proposes(rounds: seq<Round>, now: Pose, h: Hypothesis)
  {
    h.seen == now && exists j: nat, basin: Pose :: IsProposal(rounds, now, h, j, basin)
  }

  ghost predicate IsProposal(rounds: seq<Round>, now: Pose, h: Hypothesis, j: nat, basin: Pose)
  {
    j < |rounds| && basin in rounds[j].basins && h.pose == Carried(basin, rounds[j].odom, now)
  }

  /** Every place kept is where some window proposed it, moved by the odometry since. */
  lemma {:induction false} PlacesStandWhereProposed(cfg: AgreeConfig, rounds: seq<Round>)
    ensures forall h :: h in After(cfg, rounds) ==> Proposes(rounds, rounds[|rounds| - 1].odom, h)
  {
    hide Proposes, Updated;
    if rounds != [] {
      var (before, r) := (rounds[..|rounds| - 1], rounds[|rounds| - 1]);
      PlacesStandWhereProposed(cfg, before);
      var hs := After(cfg, before);
      forall k | 0 <= k < |hs| ensures Proposes(rounds, r.odom, CarriedTo(hs[k], r.odom)) {
        assert hs[k] in hs;
        CarriedFarther(before, r, hs[k]);
        assert before + [r] == rounds;
      }
      UpdatedStand(cfg, hs, r, rounds);
    }
  }

  lemma CarriedFarther(before: seq<Round>, r: Round, h: Hypothesis)
    requires before != [] && Proposes(before, before[|before| - 1].odom, h)
    ensures Proposes(before + [r], r.odom, CarriedTo(h, r.odom))
  {
    hide Carried, SquareDistance;
    var now := before[|before| - 1].odom;
    var j: nat, basin: Pose :| IsProposal(before, now, h, j, basin);
    CarriedTwice(basin, before[j].odom, now, r.odom);
    assert IsProposal(before + [r], r.odom, CarriedTo(h, r.odom), j, basin);
  }

  lemma CarriedTwice(p: Pose, a: Pose, b: Pose, c: Pose)
    ensures Carried(Carried(p, a, b), b, c) == Carried(p, a, c) && Carried(p, a, a) == p
  {
    hide Compose, Between;
    ComposeIsAssociative(p, Between(a, b), Between(b, c));
    BetweensChain(a, b, c);
    BetweenItself(a);
    BetweenItself(p);
  }

  lemma UpdatedStand(cfg: AgreeConfig, hs: seq<Hypothesis>, r: Round, rounds: seq<Round>)
    requires rounds != [] && rounds[|rounds| - 1] == r
    requires forall k :: 0 <= k < |hs| ==> Proposes(rounds, r.odom, CarriedTo(hs[k], r.odom))
    ensures forall h :: h in Updated(cfg, hs, r) ==> Proposes(rounds, r.odom, h)
  {
    hide Proposes, CarriedTo, ByHits, AllKept;
    var carried := AllCarried(hs, r.odom);
    KeptStand(cfg, carried, r, rounds, |carried|);
    ByHitsSorts(AllKept(cfg, carried, r, |carried|));
  }

  lemma {:induction false} KeptStand(cfg: AgreeConfig, carried: seq<Hypothesis>, r: Round, rounds: seq<Round>, n: nat)
    requires n <= |carried| && rounds != [] && rounds[|rounds| - 1] == r
    requires forall k :: 0 <= k < |carried| ==> Proposes(rounds, r.odom, carried[k])
    ensures forall h :: h in AllKept(cfg, carried, r, n) ==> Proposes(rounds, r.odom, h)
  {
    hide Proposes, IsIn, Proposed;
    if n == 0 {
      forall k | 0 <= k < |r.basins| ensures Proposes(rounds, r.odom, Proposed(cfg, carried, r.odom, r.basins[k])) {
        ProposedStands(cfg, carried, r, rounds, k);
      }
    } else {
      KeptStand(cfg, carried, r, rounds, n - 1);
      HitsDoNotMove(rounds, r.odom, carried[n - 1]);
    }
  }

  lemma ProposedStands(cfg: AgreeConfig, carried: seq<Hypothesis>, r: Round, rounds: seq<Round>, k: nat)
    requires rounds != [] && rounds[|rounds| - 1] == r && k < |r.basins|
    ensures Proposes(rounds, r.odom, Proposed(cfg, carried, r.odom, r.basins[k]))
  {
    hide Carried, Best;
    CarriedTwice(r.basins[k], r.odom, r.odom, r.odom);
    assert IsProposal(rounds, r.odom, Proposed(cfg, carried, r.odom, r.basins[k]), |rounds| - 1, r.basins[k]);
  }

  lemma HitsDoNotMove(rounds: seq<Round>, now: Pose, h: Hypothesis)
    requires Proposes(rounds, now, h)
    ensures forall hits: nat :: Proposes(rounds, now, h.(hits := hits))
  {
    hide Carried;
    forall hits: nat ensures Proposes(rounds, now, h.(hits := hits)) {
      var j: nat, basin: Pose :| IsProposal(rounds, now, h, j, basin);
      assert IsProposal(rounds, now, h.(hits := hits), j, basin);
    }
  }

  // ── Nomination ──────────────────────────────────────────────────────────────

  /** One hypothesis is clearly ahead: seen often enough, from far enough apart. */
  function Leader(cfg: AgreeConfig, hs: seq<Hypothesis>): Option<Pose>
  {
    if |hs| > 0 && hs[0].hits >= cfg.agreeWindows && hs[0].travel2 >= TRAVEL_M * TRAVEL_M
        && (|hs| == 1 || hs[0].hits >= hs[1].hits + LEAD)
    then Some(hs[0].pose) else None
  }

  /** What a nomination takes: `LEAD` hits more than every other place has, enough
      windows since it was first proposed, and the body, at one of them, a metre from
      where it was then. */
  ghost predicate Earned(cfg: AgreeConfig, hs: seq<Hypothesis>, odoms: seq<Pose>, pose: Pose)
  {
    && |hs| > 0 && hs[0].pose == pose && cfg.agreeWindows <= hs[0].hits
    && (forall k :: 0 < k < |hs| ==> hs[k].hits + LEAD <= hs[0].hits)
    && exists s: nat, e: nat {:trigger odoms[s], odoms[e]} ::
         s < e < |odoms| && hs[0].origin == odoms[s] && cfg.agreeWindows <= |odoms| - s
             && SquareDistance(odoms[e].at, odoms[s].at) >= TRAVEL_M * TRAVEL_M
  }

  lemma {:induction false} FarthestIsReached(odoms: seq<Pose>, s: nat, n: nat) returns (e: nat)
    requires s < n <= |odoms| && Farthest(odoms, s, n) > 0.0
    ensures s < e < n && SquareDistance(odoms[e].at, odoms[s].at) == Farthest(odoms, s, n)
    decreases n
  {
    hide SquareDistance;
    if n > s + 1 && Farthest(odoms, s, n - 1) == Farthest(odoms, s, n) {
      e := FarthestIsReached(odoms, s, n - 1);
    } else {
      e := n - 1;
    }
  }

  lemma LeaderHasEarnedIt(cfg: AgreeConfig, hs: seq<Hypothesis>, odoms: seq<Pose>)
    requires AllGrounded(hs, odoms) && Leader(cfg, hs).Some?
    ensures Earned(cfg, hs, odoms, Leader(cfg, hs).value)
  {
    hide SquareDistance;
    var h := hs[0];
    assert Grounded(h, odoms);
    var s: nat :| Since(h, odoms, s);
    var e := FarthestIsReached(odoms, s, |odoms|);
    assert odoms[s] == h.origin && odoms[e] == odoms[e];
  }
}
