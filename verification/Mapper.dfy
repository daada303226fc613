/** The mapper's modes, `maploc/src/mapper.rs`: tracking, suspicion, being lost, the boot
    search, resting, and what each may ink. What the scans say (a candidate's verdict, a
    search's result, a residual) is given with every call, so that whatever is proved
    holds whatever they say. */
module Mapping {
  import opened Grid
  import opened Poses
  import opened Submaps
  import H = Hypotheses

  /** The pose after one odometry reading: moved by the step since the one before. */
  function WithStep(tracked: Pose, before: Option<Pose>, odom: Pose): Pose
  {
    if before.Some? then Carried(tracked, before.value, odom) else tracked
  }

  /** The tracked pose stands still exactly when there is no step. */
  lemma StandsStillIff(tracked: Pose, before: Option<Pose>, odom: Pose)
    ensures WithStep(tracked, before, odom) == tracked <==> before.None? || before.value == odom
  {
    hide Compose, Between;
    if before.Some? {
      var step := Between(before.value, odom);
      BetweenItself(tracked);
      BetweenItself(odom);
      BetweenItself(before.value);
      BetweenThenCompose(tracked, step);
      BetweenThenCompose(before.value, odom);
    }
  }

  // ── What the mapper does to its map ─────────────────────────────────────────

  /** What one tick of the pipeline came to: whether a submap opened, how many loops
      closed, and where they moved the tracked pose. */
  datatype TickAnswer = TickAnswer(opens: bool, loops: nat, moved: Pose)

  /** The pipeline as the mapper sees it; every call that may change a submap or the
      graph advances `revision`. */
  class Track {
    var tracked: Pose
    var lastOdom: Option<Pose>
    var nSubmaps: nat
    var nLoops: nat
    ghost var revision: nat

    constructor (tracked: Pose, nSubmaps: nat)
      ensures this.tracked == tracked && this.nSubmaps == nSubmaps && nLoops == 0
    {
      this.tracked, this.nSubmaps, lastOdom, nLoops, revision := tracked, nSubmaps, None, 0, 0;
    }

    method SetTracked(pose: Pose)
      modifies this`tracked, this`lastOdom
      ensures tracked == pose && lastOdom == None
    {
      tracked, lastOdom := pose, None;
    }

    method ObserveOdom(odom: Pose)
      modifies this`tracked, this`lastOdom
      ensures tracked == WithStep(old(tracked), old(lastOdom), odom) && lastOdom == Some(odom)
    {
      if lastOdom.Some? {
        tracked := Carried(tracked, lastOdom.value, odom);
      }
      lastOdom := Some(odom);
    }

    method Tick(a: TickAnswer)
      modifies this
      ensures revision == old(revision) + 1 && lastOdom == old(lastOdom)
      ensures nSubmaps == old(nSubmaps) + (if old(nSubmaps) == 0 || a.opens then 1 else 0)
      ensures nLoops == old(nLoops) + a.loops && tracked == if a.loops > 0 then a.moved else old(tracked)
    {
      revision := revision + 1;
      if nSubmaps == 0 || a.opens {
        nSubmaps := nSubmaps + 1;
      }
      if a.loops > 0 {
        nLoops := nLoops + a.loops;
        tracked := a.moved;
      }
    }

    method Integrate()
      modifies this`revision
      ensures revision == old(revision) + 1
    {
      revision := revision + 1;
    }
  }

  // ── Configuration and answers ───────────────────────────────────────────────

  datatype RestConfig = RestConfig(
    enabled: bool, afterS: real, watchEveryS: real, watchWindowS: real,
    driftResidualM: real, agreeMaxM: real, doubtAfter: nat)

  datatype SettleConfig = SettleConfig(enabled: bool, windows: nat, maxHeld: nat)

  datatype MapperConfig = MapperConfig(
    frozen: bool, continuous: bool, minWindowBeams: nat, flushAfterS: real, lostAfterWindows: nat,
    suspectGiveUpWindows: nat, lostGiveUpWindows: nat, searchRadiusM: real, agree: H.AgreeConfig,
    confirmMaxResidualM: real, trackingEnabled: bool, settle: SettleConfig, rest: RestConfig)

  /** The travel a boot's confirmation asks for, and the displacement that counts as a push:
      a distance, or a turn of 0.15 rad, of which this is the cosine. */
  const CONFIRM_TRAVEL_M: real := 0.5
  const PUSH_M: real := 0.05
  const PUSH_COS: real := 0.9887710779360422

  datatype Verdict = Confirmed | Refuted | Ambiguous | Unjudgeable

  datatype Watch = Agrees | Unjudged | Drifted | Contradicts

  datatype Found = Nothing | Rejected | Nominee(pose: Pose, agrees: bool)

  /** What a closed window says of every question the mapper may ask it. */
  datatype Window = Window(
    beams: nat,
    // while lost: the soft seed, the pending candidate, the search
    seed: Verdict, seedUnique: bool, seedValley: bool,
    pending: Verdict, pendingValley: bool,
    basins: Option<seq<Pose>>, agreesAt: Pose -> bool, found: Found,
    // while tracking: the watchdog, the correction, the settling
    contradicts: bool, corrected: Option<Pose>, seen: bool, small: bool, agrees: bool,
    // while resting
    judged: bool, residual: real, matched: bool, movedFar: bool,
    // the pipeline's tick after a resume
    tick: TickAnswer)

  datatype Sample = Sample(odom: Pose, moving: bool, sitting: bool, fallen: bool)

  /** What one tick of the control loop is told: whether the odometry of the last while
      stayed in place, the window if one comes out of the frames, the correction of a
      walking duck, the place the shadow's map was found, the pipeline's tick. */
  datatype Answers = Answers(steady: bool, window: Option<Window>, walked: Walked, shadowFit: Option<Pose>,
      tick: TickAnswer)

  /** In continuous mode: no correction was due, or the map could not say, or it did. */
  datatype Walked = NotDue | NoMatch | Moved(delta: Pose)

  datatype Note =
    | WindowDiscarded | WindowQuarantined | LostTracking | TrackingCorrected | WindowHeld | Settled | WindowIntegrated
    | RelocalizeCandidate | RelocalizeCandidateJudged | RelocalizeRejected | ShadowSeed | ShadowSeedRefuted
    | Relocalized | ResumedUnverified | SuspectAfterSit | SuspectAfterFall | LoopClosed
    | RestBegan | RestWatched(verdict: Watch) | RestEnded(why: Why) | Untrusted

  datatype Why = ByLoss | ByJob | ByPush | ByMotion | ByDrift | ByDoubt

  datatype Rest = Rest(since: real, nextWatch: real, watching: bool, contradictions: nat, baseline: Option<real>,
      odom: Pose)

  // ── What is remembered of a run ─────────────────────────────────────────────

  datatype SeedEvent = NewSeed | Judged(verdict: Verdict)

  /** The length of the run of confirmations the log ends in. */
  ghost function SeedRun(log: seq<SeedEvent>): nat
  {
    if log != [] && log[|log| - 1] == Judged(Confirmed) then SeedRun(log[..|log| - 1]) + 1 else 0
  }

  /** How many contradicting windows in a row are too many: the configured number, and
      one where that is zero. */
  function LossAt(cfg: MapperConfig): nat
  {
    if cfg.lostAfterWindows > 1 then cfg.lostAfterWindows else 1
  }

  /** The length of the run of contradictions the log ends in. */
  ghost function ContradictedRun(log: seq<bool>): nat
  {
    if log != [] && log[|log| - 1] then ContradictedRun(log[..|log| - 1]) + 1 else 0
  }

  /** The length of the run of contradicting watches the log ends in. */
  ghost function WatchRun(log: seq<Watch>): nat
  {
    if log != [] && log[|log| - 1] == Contradicts then WatchRun(log[..|log| - 1]) + 1 else 0
  }

  /** Farther than `PUSH_M`, or turned by more than the angle of `PUSH_COS`. */
  predicate IsPush(from: Pose, odom: Pose)
  {
    var d := Between(from, odom);
    SquareDistance(d.at, Vec(0.0, 0.0)) > PUSH_M * PUSH_M || d.heading.c < PUSH_COS
  }

  /** Where odometry has carried a candidate since it was proposed. */
  function Implied(candidate: (Pose, Pose), now: Pose): Pose
  {
    Compose(candidate.0, Between(candidate.1, now))
  }

  // ── The state ───────────────────────────────────────────────────────────────

  /** The stand under way: the frames of the open window, the map the watchdog judges
      its windows against, the settling after a resume. */
  datatype Stand = Stand(
    still: bool, since: Option<real>, frames: nat, windowOpened: Option<real>,
    grid: bool, settling: Option<(nat, nat)>, windows: nat)

  /** The lost machinery's state. A seed or a candidate is a pose together with where the
      tracked pose was then. */
  datatype Search = Search(
    lost: bool, hardLost: bool, booting: bool, untrusted: bool, afterFall: bool, resumedFromSession: bool,
    afterBoot: Option<(real, nat)>, suspect: nat, unjudged: nat, lostWindows: nat,
    softSeed: Option<(Pose, Pose)>, seedAgreed: nat, seedFromMap: bool,
    pending: Option<(Pose, Pose)>, lastSearch: Option<nat>, places: seq<H.Hypothesis>)

  datatype Repose = Repose(rest: Option<Rest>, pushedFrom: Option<Pose>, doubtSpent: bool, windowsTried: bool)

  /** The account the counters are held against: the verdicts on the seed, the watchdog's
      verdicts since tracking last resumed, the watches of this rest, the odometry at which
      the rest began, two counts of windows judged while lost (all, and all up to the last
      nomination), the pose of the last resume, the odometry of the boot's windows, and the
      places and that odometry as they were at the last nomination. */
  datatype Run = Run(
    seeds: seq<SeedEvent>, windows: seq<bool>, watches: seq<Watch>, restBegan: Pose, judged: nat, nominatedAt: nat,
        resumedAt: Pose,
    odoms: seq<Pose>, nominated: (seq<H.Hypothesis>, seq<Pose>))

  /** An untrusted pose is being booted on, and a boot is being lost without a way to
      give up; the settings it took away are kept, and otherwise in force. */
  ghost predicate BootIsKept(cfg: MapperConfig, s: Search, home: (real, nat))
  {
    && (s.untrusted ==> s.booting) && (s.booting ==> s.lost && s.hardLost && s.resumedFromSession)
    && s.afterBoot == (if s.booting then Some(home) else None)
    && (cfg.searchRadiusM, cfg.lostGiveUpWindows) == (if s.booting then (0.0, 0) else home)
  }

  /** The counters count what was seen; no candidate or seed outlives being lost. */
  ghost predicate CountersCount(s: Search, i: Repose, run: Run)
  {
    && s.seedAgreed == SeedRun(run.seeds)
    && (i.rest.Some? ==> i.rest.value.contradictions == WatchRun(run.watches))
    && (s.pending.Some? ==> run.nominatedAt <= run.judged)
    && s.suspect == (if s.lost then 0 else ContradictedRun(run.windows))
    && (!s.lost ==> s.pending.None? && s.softSeed.None? && s.seedAgreed == 0)
  }

  /** The places kept at a boot stand on what happened, and a candidate of the boot was
      one that had earned it. */
  ghost predicate PlacesCount(cfg: MapperConfig, s: Search, run: Run)
  {
    && H.AllGrounded(s.places, run.odoms)
    && (s.booting && s.pending.Some? ==> H.Earned(cfg.agree, run.nominated.0, run.nominated.1, s.pending.value.0))
  }

  /** Where a rest or a push is under way, its odometry is the one the account has; while a
      rest is under way nothing counts for a seed or a candidate. */
  ghost predicate RestIsPlaced(cfg: MapperConfig, s: Search, i: Repose, run: Run)
  {
    && (i.rest.Some? ==> i.pushedFrom.None? && i.rest.value.odom == run.restBegan)
    && (i.rest.Some? && s.lost ==> !s.booting && s.seedAgreed == 0 && s.pending.None?)
    && (i.pushedFrom.Some? ==> i.pushedFrom == Some(run.restBegan))
    && (!cfg.rest.enabled ==> i.rest.None? && i.pushedFrom.None?)
  }

  /** Between calls, a rest is a still and tracked stand. */
  predicate RestIsStill(stand: Stand, s: Search, i: Repose)
  {
    i.rest.Some? ==> !s.lost && stand.still
  }

  /** Only the settings a boot puts away differ. */
  predicate SameMode(before: MapperConfig, after: MapperConfig)
  {
    after == before.(searchRadiusM := after.searchRadiusM, lostGiveUpWindows := after.lostGiveUpWindows)
  }

  /** All of it, and the watchdog's map is a map. */
  ghost predicate Sound(cfg: MapperConfig, stand: Stand, s: Search, i: Repose, run: Run, home: (real, nat),
      nSubmaps: nat)
  {
    && BootIsKept(cfg, s, home) && CountersCount(s, i, run) && RestIsPlaced(cfg, s, i, run)
    && PlacesCount(cfg, s, run) && (stand.grid ==> nSubmaps > 0)
       && (s.suspect > 0 ==> stand.grid && s.suspect < cfg.lostAfterWindows)
  }

  predicate OnlySeedChanged(s: Search, s': Search)
  {
    s' == s.(softSeed := s'.softSeed, seedAgreed := s'.seedAgreed, seedFromMap := s'.seedFromMap,
        unjudged := s'.unjudged)
  }

  predicate IsTracking(s: Search)
  {
    !s.lost && !s.booting && !s.untrusted
  }

  /** The same stand, more or less settled. */
  predicate SameStand(before: Stand, after: Stand)
  {
    after == before.(settling := after.settling, windows := after.windows)
  }

  predicate OnlyCandidateChanged(s: Search, s': Search)
  {
    s' == s.(pending := s'.pending, lastSearch := s'.lastSearch, lostWindows := s'.lostWindows, places := s'.places)
  }

  /** Lost in the same way. */
  predicate SameLoss(s: Search, s': Search)
  {
    && s'.lost == s.lost && s'.hardLost == s.hardLost && s'.booting == s.booting && s'.untrusted == s.untrusted
    && s'.afterFall == s.afterFall && s'.resumedFromSession == s.resumedFromSession && s'.afterBoot == s.afterBoot
  }

  /** Found: nothing of the search is left, but that it was a resumed map. */
  function Tracking(s: Search): Search
  {
    s.(lost := false, untrusted := false, suspect := 0, unjudged := 0, seedAgreed := 0, softSeed := None,
       seedFromMap := false, pending := None, lastSearch := None, lostWindows := 0, hardLost := false,
       afterFall := false, afterBoot := None, booting := false)
  }

  lemma ResumingIsSound(cfg: MapperConfig, stand: Stand, s: Search, i: Repose, run: Run, home: (real, nat), n: nat,
      run': Run)
    requires Sound(cfg, stand, s, i, run, home, n) && s.lost && i.rest.None?
    requires run' == run.(seeds := run.seeds + [NewSeed], windows := [], resumedAt := run'.resumedAt)
    ensures s.afterBoot == (if s.booting then Some(home) else None)
    ensures !s.booting ==> cfg == cfg.(searchRadiusM := home.0, lostGiveUpWindows := home.1)
    ensures Sound(cfg.(searchRadiusM := home.0, lostGiveUpWindows := home.1), stand, Tracking(s), i, run', home, n)
  {
    RunsGrow(run, NewSeed, false, Agrees);
    NoWindowsNoRun();
    hide SeedRun, ContradictedRun, WatchRun;
  }

  /** Nothing has happened yet. */
  function NoRun(): Run
  {
    Run([], [], [], ORIGIN, 0, 0, ORIGIN, [], ([], []))
  }

  /** Starting a boot keeps everything. */
  lemma BootIsSound(cfg: MapperConfig, stand: Stand, s: Search, i: Repose, run: Run, home: (real, nat), n: nat)
    requires Sound(cfg, stand, s, i, run, home, n) && (s.lost || s.suspect == 0) && i.rest.None? && s.pending.None?
    ensures if s.afterBoot.Some? then s.afterBoot == Some(home) else home == (cfg.searchRadiusM, cfg.lostGiveUpWindows)
    ensures Sound(cfg.(searchRadiusM := 0.0, lostGiveUpWindows := 0), stand,
                  s.(lost := true, hardLost := true, resumedFromSession := true, booting := true, lostWindows := 0,
                      afterBoot := Some(home), places := []),
                  i, run.(odoms := []), home, n)
  {
    hide SeedRun, ContradictedRun, WatchRun;
  }

  /** ... a fall aside. */
  predicate SameMind(s: Search, s': Search)
  {
    s' == s.(afterFall := s'.afterFall)
  }

  function Best(baseline: Option<real>, residual: real): real
  {
    if baseline.Some? && baseline.value < residual then baseline.value else residual
  }

  /** What a verdict on the seed, or a new seed, changes of a search. */
  lemma SeedChangesAreSound(cfg: MapperConfig, stand: Stand, s: Search, i: Repose, run: Run, home: (real, nat),
      n: nat, s': Search, run': Run)
    requires Sound(cfg, stand, s, i, run, home, n) && s.lost && i.rest.None?
    requires OnlySeedChanged(s, s') && run' == run.(seeds := run'.seeds) && s'.seedAgreed == SeedRun(run'.seeds)
    ensures Sound(cfg, stand, s', i, run', home, n)
  {
  }

  /** What a verdict on the candidate, or another one, changes of a search. */
  lemma CandidateChangesAreSound(cfg: MapperConfig, stand: Stand, s: Search, i: Repose, run: Run, home: (real, nat),
      n: nat, s': Search, run': Run)
    requires Sound(cfg, stand, s, i, run, home, n) && s.lost && i.rest.None?
    requires OnlyCandidateChanged(s, s')
    requires run' == run.(nominatedAt := run'.nominatedAt, judged := run'.judged, odoms := run'.odoms,
              nominated := run'.nominated) && run'.judged >= run.judged
    requires (s'.places == s.places && run'.odoms == run.odoms) || H.AllGrounded(s'.places, run'.odoms)
    requires s'.pending.Some? && s.booting ==>
               (s'.pending == s.pending && run'.nominated == run.nominated)
                   || H.Earned(cfg.agree, run'.nominated.0, run'.nominated.1, s'.pending.value.0)
    requires run'.nominatedAt == run.nominatedAt || run'.nominatedAt == run'.judged
    requires s'.pending.Some? ==> s'.pending == s.pending || run'.nominatedAt == run'.judged
    ensures Sound(cfg, stand, s', i, run', home, n)
  {
  }

  lemma RunsGrow(run: Run, s: SeedEvent, w: bool, v: Watch)
    ensures SeedRun(run.seeds + [s]) == if s == Judged(Confirmed) then SeedRun(run.seeds) + 1 else 0
    ensures ContradictedRun(run.windows + [w]) == if w then ContradictedRun(run.windows) + 1 else 0
    ensures WatchRun(run.watches + [v]) == if v == Contradicts then WatchRun(run.watches) + 1 else 0
  {
  }

  lemma NoWindowsNoRun()
    ensures ContradictedRun([]) == 0
  {
  }

  /** The seed is confirmed: a second window in a row agrees with it, and nothing says
      it might be another place. */
  predicate SeedConfirms(s: Search, w: Window)
  {
    && s.softSeed.Some? && w.seed == Confirmed && s.seedAgreed + 1 >= 2
    && (s.seedFromMap || !s.resumedFromSession || w.seedUnique)
    && (s.seedFromMap || !(s.resumedFromSession || s.afterFall) || !w.seedValley)
  }

  /** The candidate is confirmed: another window agrees with it, it is pinned down, and
      at a boot the body has moved since it was nominated. */
  predicate CandidateConfirms(s: Search, w: Window, now: Pose)
  {
    && s.pending.Some? && w.pending == Confirmed && !((s.resumedFromSession || s.afterFall) && w.pendingValley)
    && !(s.booting && SquareDistance(now.at, s.pending.value.1.at) < CONFIRM_TRAVEL_M * CONFIRM_TRAVEL_M)
  }

  /** One unjudgeable window too many, on a map that was not resumed and with no fall. */
  predicate SeedGivesUp(cfg: MapperConfig, s: Search, w: Window)
  {
    w.seed.Unjudgeable? && s.unjudged + 1 >= cfg.suspectGiveUpWindows && !s.afterFall && !s.resumedFromSession
  }

  /** What ends a boot: two windows in a row, this the second, agreed with the seed; or
      this one confirmed a candidate that had earned its nomination at an earlier one,
      half a metre away. */
  ghost predicate BootConfirmed(agree: H.AgreeConfig, s: Search, run: Run, w: Window, now: Pose)
  {
    || (SeedConfirms(s, w) && SeedRun(run.seeds) >= 1)
    || (CandidateConfirms(s, w, now) && run.nominatedAt <= run.judged
        && H.Earned(agree, run.nominated.0, run.nominated.1, s.pending.value.0)
        && SquareDistance(now.at, s.pending.value.1.at) >= CONFIRM_TRAVEL_M * CONFIRM_TRAVEL_M)
  }

  /** The residual exceeds the fixed bound, unless a doubt has used that up, or the best
      of this rest by more than the drift allowed. */
  predicate IsOff(cfg: MapperConfig, i: Repose, w: Window)
    requires i.rest.Some?
  {
    || (w.residual > cfg.rest.agreeMaxM && !i.doubtSpent)
    || (i.rest.value.baseline.Some? && w.residual > i.rest.value.baseline.value + cfg.rest.driftResidualM)
  }

  /** The verdict on a watch, in the order the tests are made; `Drifted` where a match
      accounts for it, and the first time in a stand also without one. */
  function VerdictOf(cfg: MapperConfig, grid: bool, i: Repose, w: Window): Watch
    requires i.rest.Some?
  {
    if w.beams < cfg.minWindowBeams || !grid || !w.judged then Unjudged
    else if w.matched && (IsOff(cfg, i, w) || w.movedFar) then Drifted
    else if IsOff(cfg, i, w) && !i.windowsTried && w.residual <= cfg.confirmMaxResidualM then Drifted
    else if IsOff(cfg, i, w) then Contradicts
    else Agrees
  }

  // ── How the account grows ───────────────────────────────────────────────────

  /** What a call may book: its window, the odometry reading, what the watchdog makes of
      the window while tracking, and what a watch makes of it during a rest. */
  datatype Seen = Seen(window: Option<Window>, odom: Pose, contradicted: Option<bool>, verdict: Option<Watch>)

  function SeenBy(cfg: MapperConfig, grid: bool, lost: bool, i: Repose, window: Option<Window>,
      odom: Pose): (seen: Seen)
    ensures seen.odom == odom && seen.window == window
  {
    if window.None? then Quiet(odom)
    else
      var w := window.value;
      Seen(window, odom, if lost || i.rest.Some? then None else Some(w.contradicts && grid),
           if i.rest.Some? then Some(VerdictOf(cfg, grid, i, w)) else None)
  }

  /** A step of a call that has no window to book. */
  function Quiet(odom: Pose): Seen
  {
    Seen(None, odom, None, None)
  }

  /** Wherever the tracked pose is, the two seeds imply the same pose. */
  ghost predicate SameSeed(a: (Pose, Pose), b: (Pose, Pose))
  {
    forall now :: Implied(a, now) == Implied(b, now)
  }

  lemma CarriedSeedIsTheSame(seed: (Pose, Pose), now: Pose)
    ensures SameSeed(seed, (Implied(seed, now), now))
  {
    hide Compose, Between;
    forall later ensures Implied(seed, later) == Implied((Implied(seed, now), now), later) {
      ComposeIsAssociative(seed.0, Between(seed.1, now), Between(now, later));
      BetweensChain(seed.1, now, later);
    }
  }

  /** New seeds, and at most one verdict, which is this window's; without a new seed the
      seed is the same or gone. */
  ghost predicate SeedsGrew(was: seq<SeedEvent>, now: seq<SeedEvent>, w: Option<Window>,
      before: Option<(Pose, Pose)>, after: Option<(Pose, Pose)>)
  {
    && |was| <= |now| && now[..|was|] == was
    && (forall k :: |was| <= k < |now| ==> now[k] == NewSeed || (w.Some? && now[k] == Judged(w.value.seed)))
    && (forall k, l :: |was| <= k < l < |now| ==> now[k] == NewSeed || now[l] == NewSeed)
    && (after.Some? ==>
       (before.Some? && SameSeed(before.value, after.value)) || (exists k :: |was| <= k < |now| && now[k] == NewSeed))
  }

  predicate Resumes(notes: seq<Note>)
  {
    Relocalized in notes || ResumedUnverified in notes
  }

  /** The watchdog's one verdict on this window while tracking; afresh on a resume; track
      is lost only by a contradiction booked now. */
  predicate WindowsGrew(was: seq<bool>, now: seq<bool>, notes: seq<Note>, seen: Seen)
  {
    && (now == was || (seen.window.Some? && Resumes(notes) && now == [])
       || (seen.contradicted.Some? && now == was + [seen.contradicted.value]))
    && (Resumes(notes) ==> seen.window.Some? && now == [])
    && (LostTracking in notes ==> seen.contradicted == Some(true) && now == was + [true])
  }

  /** The one verdict of this watch; afresh, with the odometry it is measured from, when
      a rest begins. */
  predicate WatchesGrew(was: Run, now: Run, notes: seq<Note>, seen: Seen)
  {
    || ((now.watches == was.watches || (seen.verdict.Some? && now.watches == was.watches + [seen.verdict.value]))
       && now.restBegan == was.restBegan)
    || (RestBegan in notes && now.watches == [] && now.restBegan == seen.odom)
  }

  /** One window counted and one reading, afresh when a boot begins; a candidate is the
      one before or is nominated now, by places that stand on the readings so far. */
  ghost predicate PlacesGrew(was: Run, now: Run, before: Search, after: Search, notes: seq<Note>, seen: Seen)
  {
    && (now.judged == was.judged || (seen.window.Some? && now.judged == was.judged + 1))
    && (now.odoms == was.odoms || (seen.window.Some? && now.odoms == was.odoms + [seen.odom])
       || (Untrusted in notes && now.odoms == []))
    && (SameNominee(was, now, before, after)
        || (seen.window.Some? && RelocalizeCandidate in notes && now.nominatedAt == now.judged == was.judged + 1
            && (now.nominated.1 == was.odoms || now.nominated.1 == was.odoms + [seen.odom])
               && H.AllGrounded(now.nominated.0, now.nominated.1)))
  }

  predicate SameNominee(was: Run, now: Run, before: Search, after: Search)
  {
    now.nominatedAt == was.nominatedAt && now.nominated == was.nominated
        && (after.pending == before.pending || after.pending.None?)
  }

  /** What one call, or a step of it, may add to the account. */
  ghost predicate Grew(was: Run, now: Run, before: Search, after: Search, notes: seq<Note>, seen: Seen)
  {
    && SeedsGrew(was.seeds, now.seeds, seen.window, before.softSeed, after.softSeed)
       && WindowsGrew(was.windows, now.windows, notes, seen)
    && WatchesGrew(was, now, notes, seen) && PlacesGrew(was, now, before, after, notes, seen)
    && (now.resumedAt == was.resumedAt || Resumes(notes))
  }

  lemma NothingGrew(run: Run, s: Search, notes: seq<Note>, seen: Seen)
    requires !Resumes(notes) && LostTracking !in notes
    ensures Grew(run, run, s, s, notes, seen)
  {
  }

  /** A quiet step before or after. */
  lemma GrewTwice(was: Run, mid: Run, now: Run, s0: Search, s1: Search, s2: Search, first: seq<Note>, more: seq<Note>,
      a: Seen, b: Seen, seen: Seen)
    requires Grew(was, mid, s0, s1, first, a) && Grew(mid, now, s1, s2, more, b) && a.odom == b.odom
    requires (a == seen && b.window.None? && b.contradicted.None? && b.verdict.None?)
              || (b == seen && a.window.None? && a.contradicted.None? && a.verdict.None? && RestBegan !in first
              && Untrusted !in first)
    ensures Grew(was, now, s0, s2, first + more, seen)
  {
    hide SeedsGrew, WindowsGrew, WatchesGrew, PlacesGrew;
    SeedsGrewTwice(was.seeds, mid.seeds, now.seeds, s0.softSeed, s1.softSeed, s2.softSeed, a.window, b.window,
        seen.window);
    WindowsGrewTwice(was.windows, mid.windows, now.windows, first, more, a, b, seen);
    WatchesGrewTwice(was, mid, now, first, more, a, b, seen);
    PlacesGrewTwice(was, mid, now, s0, s1, s2, first, more, a, b, seen);
  }

  /** One more note, of a closure. */
  lemma GrewLouder(was: Run, now: Run, before: Search, after: Search, notes: seq<Note>, seen: Seen)
    requires Grew(was, now, before, after, notes, seen)
    ensures Grew(was, now, before, after, notes + [LoopClosed], seen) && Grew(was, now, before, after, notes + [], seen)
  {
    hide SeedsGrew, H.AllGrounded;
    assert notes + [] == notes;
  }

  lemma SeedsGrewTwice(was: seq<SeedEvent>, mid: seq<SeedEvent>, now: seq<SeedEvent>, s0: Option<(Pose, Pose)>,
      s1: Option<(Pose, Pose)>,
      s2: Option<(Pose, Pose)>, a: Option<Window>, b: Option<Window>, w: Option<Window>)
    requires SeedsGrew(was, mid, a, s0, s1) && SeedsGrew(mid, now, b, s1, s2)
              && ((a == w && b.None?) || (b == w && a.None?))
    ensures SeedsGrew(was, now, w, s0, s2)
  {
    hide Implied;
    assert forall k :: 0 <= k < |mid| ==> now[k] == now[..|mid|][k] == mid[k];
    assert now[..|was|] == mid[..|was|] == was;
  }

  lemma WindowsGrewTwice(was: seq<bool>, mid: seq<bool>, now: seq<bool>, first: seq<Note>, more: seq<Note>, a: Seen,
      b: Seen, seen: Seen)
    requires WindowsGrew(was, mid, first, a) && WindowsGrew(mid, now, more, b)
    requires (a == seen && b.window.None? && b.contradicted.None?)
              || (b == seen && a.window.None? && a.contradicted.None?)
    ensures WindowsGrew(was, now, first + more, seen)
  {
  }

  lemma WatchesGrewTwice(was: Run, mid: Run, now: Run, first: seq<Note>, more: seq<Note>, a: Seen, b: Seen, seen: Seen)
    requires WatchesGrew(was, mid, first, a) && WatchesGrew(mid, now, more, b) && a.odom == b.odom
    requires (a == seen && b.verdict.None?) || (b == seen && a.verdict.None? && RestBegan !in first)
    ensures WatchesGrew(was, now, first + more, seen)
  {
  }

  lemma PlacesGrewTwice(was: Run, mid: Run, now: Run, s0: Search, s1: Search, s2: Search, first: seq<Note>,
      more: seq<Note>, a: Seen, b: Seen, seen: Seen)
    requires PlacesGrew(was, mid, s0, s1, first, a) && PlacesGrew(mid, now, s1, s2, more, b) && a.odom == b.odom
    requires (a == seen && b.window.None?) || (b == seen && a.window.None? && Untrusted !in first)
    ensures PlacesGrew(was, now, s0, s2, first + more, seen)
  {
    hide H.AllGrounded;
  }

  /** A distrust, where one was noted: no readings, a new seed unless the pose was lost
      already, and no candidate. */
  predicate Distrusted(was: Run, now: Run, before: Search, after: Search, notes: seq<Note>)
  {
    if Untrusted in notes then
      && now == was.(seeds := was.seeds + (if before.lost then [] else [NewSeed]), odoms := [])
      && after.pending.None? && (before.lost ==> after.softSeed == before.softSeed)
    else now == was && after == before
  }

  lemma DistrustGrew(was: Run, now: Run, before: Search, after: Search, notes: seq<Note>, seen: Seen)
    requires Distrusted(was.(watches := now.watches), now, before, after, notes) && !Resumes(notes)
              && LostTracking !in notes
    requires now.watches == was.watches || (seen.verdict.Some? && now.watches == was.watches + [seen.verdict.value])
    ensures Grew(was, now, before, after, notes, seen)
  {
    hide Implied;
    if Untrusted in notes && !before.lost {
      assert now.seeds[|was.seeds|] == NewSeed;
    }
  }

  lemma RestGrew(was: Run, now: Run, s: Search, notes: seq<Note>, odom: Pose)
    requires now == was.(watches := [], restBegan := odom) && notes == [RestBegan]
    ensures Grew(was, now, s, s, notes, Quiet(odom))
  {
    hide Implied;
  }

  /** A new seed alone. */
  lemma NewSeedGrew(was: Run, now: Run, before: Search, after: Search, notes: seq<Note>, seen: Seen)
    requires now == was.(seeds := was.seeds + [NewSeed]) && (after.pending == before.pending || after.pending.None?)
    requires !Resumes(notes) && LostTracking !in notes
    ensures Grew(was, now, before, after, notes, seen)
  {
    hide Implied;
    assert now.seeds[|was.seeds|] == NewSeed;
  }

  lemma SameMindGrew(run: Run, before: Search, after: Search, odom: Pose)
    requires SameMind(before, after)
    ensures Grew(run, run, before, after, [], Quiet(odom))
  {
    hide Implied;
  }

  /** A verdict and a new seed, each or not. */
  function Appended(seeds: seq<SeedEvent>, judged: bool, verdict: Verdict, resumed: bool): seq<SeedEvent>
  {
    var seeds := if judged then seeds + [Judged(verdict)] else seeds;
    if resumed then seeds + [NewSeed] else seeds
  }

  /** Nothing, or a resume, after which neither seed nor candidate is left. */
  predicate Resumed(was: Run, now: Run, before: Search, after: Search)
  {
    if after.lost then
      now == was && after.softSeed == before.softSeed && (after.pending == before.pending || after.pending.None?)
    else
      && now == was.(seeds := was.seeds + [NewSeed], windows := [], resumedAt := now.resumedAt)
      && after.softSeed.None? && after.pending.None?
  }

  /** The verdict on the seed, if there is one, and what a resume books. */
  ghost predicate SeedJudged(was: Run, now: Run, before: Search, after: Search, w: Window)
  {
    && now.seeds == Appended(was.seeds, before.softSeed.Some?, w.seed, !after.lost)
    && now.windows == (if after.lost then was.windows else []) && (after.lost ==> now.resumedAt == was.resumedAt)
    && (if after.lost then after.softSeed.Some? ==>
       before.softSeed.Some? && SameSeed(before.softSeed.value, after.softSeed.value)
        else after.softSeed.None? && after.pending.None?)
  }

  lemma NoSeedJudged(run: Run, s: Search, w: Window)
    requires s.lost && s.softSeed.None?
    ensures SeedJudged(run, run, s, s, w)
  {
  }

  lemma VerdictBooked(was: Run, now: Run, before: Search, after: Search, w: Window, implied: Pose, at: Pose)
    requires before.softSeed.Some? && implied == Implied(before.softSeed.value, at)
    requires now.seeds == if after.lost then was.seeds + [Judged(w.seed)] else was.seeds + [Judged(w.seed)] + [NewSeed]
    requires now.windows == (if after.lost then was.windows else []) && (after.lost ==> now.resumedAt == was.resumedAt)
    requires after.softSeed.None? || (after.lost && after.softSeed == Some((implied, at)))
    requires !after.lost ==> after.pending.None?
    ensures SeedJudged(was, now, before, after, w)
  {
    hide Implied;
    CarriedSeedIsTheSame(before.softSeed.value, at);
  }

  /** What a resume books, and a nomination. */
  ghost predicate CandidateSought(was: Run, now: Run, before: Search, after: Search, notes: seq<Note>, odom: Pose)
  {
    && now.seeds == (if after.lost then was.seeds else was.seeds + [NewSeed])
    && now.windows == (if after.lost then was.windows else []) && (after.lost ==> now.resumedAt == was.resumedAt)
    && (if after.lost then after.softSeed == before.softSeed else after.softSeed.None? && after.pending.None?)
    && Nominated(was, now, before, after, notes, odom)
  }

  ghost predicate Nominated(was: Run, now: Run, before: Search, after: Search, notes: seq<Note>, odom: Pose)
  {
    && (now.odoms == was.odoms || now.odoms == was.odoms + [odom])
    && (SameNominee(was, now, before, after)
        || (RelocalizeCandidate in notes && now.nominatedAt == was.judged && now.nominated.1 == now.odoms
            && H.AllGrounded(now.nominated.0, now.nominated.1)))
  }

  lemma NobodyNominated(run: Run, s: Search, odom: Pose)
    ensures Nominated(run, run, s, s, [], odom)
  {
    hide H.AllGrounded;
  }

  lemma ResumedIsSought(was: Run, now: Run, before: Search, after: Search, notes: seq<Note>, odom: Pose)
    requires Resumed(was, now, before, after)
    ensures CandidateSought(was, now, before, after, notes, odom)
  {
  }

  lemma ResumedIsTheSame(was: Run, now: Run, before: Search, after: Search)
    requires Resumed(was, now, before, after) && after.lost
    ensures now == was
  {
  }

  lemma SearchedIsSought(was: Run, now: Run, before: Search, after: Search, notes: seq<Note>, odom: Pose)
    requires Nominated(was, now, before, after, notes, odom) && after.lost && OnlyCandidateChanged(before, after)
    requires now == was.(nominatedAt := now.nominatedAt, odoms := now.odoms, nominated := now.nominated)
    ensures CandidateSought(was, now, before, after, notes, odom)
  {
    hide H.AllGrounded;
  }

  lemma SoughtLater(was: Run, now: Run, s0: Search, s1: Search, s2: Search, first: seq<Note>, more: seq<Note>,
      odom: Pose)
    requires Resumed(was, was, s0, s1) && s1.lost && CandidateSought(was, now, s1, s2, more, odom)
    ensures CandidateSought(was, now, s0, s2, first + more, odom)
  {
    hide H.AllGrounded;
  }

  /** A window while lost: counted, then the seed, then, if that did not end it, the rest. */
  lemma SoughtGrew(was: Run, mid: Run, now: Run, s0: Search, s1: Search, s2: Search, first: seq<Note>,
      more: seq<Note>, w: Window, odom: Pose)
    requires SeedJudged(was.(judged := was.judged + 1), mid, s0, s1, w) && (s1.lost ==> s1.pending == s0.pending)
    requires mid == was.(judged := was.judged + 1, seeds := mid.seeds, windows := mid.windows,
              resumedAt := mid.resumedAt)
    requires if s1.lost && (now != mid || s2 != s1 || more != []) then CandidateSought(mid, now, s1, s2, more, odom)
              else now == mid && s2 == s1 && more == []
    requires now == mid.(seeds := now.seeds, windows := now.windows, resumedAt := now.resumedAt,
                         nominatedAt := now.nominatedAt, odoms := now.odoms, nominated := now.nominated)
    requires (Resumes(first + more) <==> !s2.lost) && LostTracking !in first + more
    ensures Grew(was, now, s0, s2, first + more, Seen(Some(w), odom, None, None))
  {
    hide Implied, H.AllGrounded;
    assert s2.lost || now.seeds[|now.seeds| - 1] == NewSeed;
  }

  lemma BookedInTurn(was: Run, mid: Run, now: Run, s0: Search, s1: Search, s2: Search, w: Window, more: seq<Note>,
      odom: Pose)
    requires SeedJudged(was.(judged := was.judged + 1), mid, s0, s1, w)
    requires if s1.lost && (now != mid || s2 != s1 || more != []) then CandidateSought(mid, now, s1, s2, more, odom)
              else now == mid && s2 == s1 && more == []
    ensures now.seeds == Appended(was.seeds, s0.softSeed.Some?, w.seed, !s2.lost)
    ensures s2.lost ==> now.windows == was.windows && now.resumedAt == was.resumedAt
  {
    hide SameSeed, Nominated;
  }

  /** A window while tracking. */
  lemma VettedGrew(was: Run, now: Run, before: Search, after: Search, notes: seq<Note>, w: Window, odom: Pose,
      contradicted: bool)
    requires now == was.(windows := was.windows + [contradicted]) && after.softSeed == before.softSeed
              && after.pending.None?
    requires !Resumes(notes) && (LostTracking in notes ==> contradicted)
    ensures Grew(was, now, before, after, notes, Seen(Some(w), odom, Some(contradicted), None))
  {
    hide Implied;
  }

  /** A seed that was found before the window is judged counts for nothing yet. */
  lemma ConfirmedBefore(agree: H.AgreeConfig, s0: Search, s1: Search, was: Run, mid: Run, w: Window, now: Pose)
    requires BootConfirmed(agree, s1, mid, w, now) && SameLoss(s0, s1) && s1.pending == s0.pending
              && mid == was.(seeds := mid.seeds)
    requires (s1 == s0 && mid == was) || s1.seedAgreed == 0
    ensures BootConfirmed(agree, s0, was, w, now)
  {
    hide SquareDistance;
  }

  /** Suspicion on a map that holds anything, trust on one that does not. */
  function StartingSearch(track: Track): Search
    reads track
  {
    var lost := track.nSubmaps > 0;
    Search(lost, false, false, false, false, false, None, 0, 0, 0,
           if lost then Some((track.tracked, track.tracked)) else None, 0, false, None, None, [])
  }

  // ── What a window must do ───────────────────────────────────────────────────

  /** The mapper and its pipeline at one moment. */
  datatype View = View(cfg: MapperConfig, stand: Stand, search: Search, repose: Repose, run: Run, tracked: Pose,
      lastOdom: Option<Pose>, nSubmaps: nat, revision: nat)

  /** A job is asking, and the settings from before any boot: what a window is told beside
      the state, with the time and the odometry reading. */
  datatype Moment = Moment(t: real, odom: Pose, engaged: bool, home: (real, nat))

  /** The stand is over, or its window has been open for as long as it gets: a watch's
      time while resting. */
  predicate IsDue(v: View, t: real, still: bool)
  {
    var flushS := if v.repose.rest.Some? then v.cfg.rest.watchWindowS else v.cfg.flushAfterS;
    && v.stand.frames > 0
    && ((v.stand.still && !still) || (v.stand.windowOpened.Some? && t - v.stand.windowOpened.value >= flushS))
  }

  /** The frames of a due window are gone, and the window, if they gave one, is judged;
      before that nothing happens. */
  ghost predicate Heard(was: View, now: View, still: bool, window: Option<Window>, m: Moment, told: seq<Note>)
  {
    if !IsDue(was, m.t, still) then now == was && told == []
    else
      var open := was.(stand := was.stand.(frames := 0, windowOpened := None));
      if window.None? then now == open && told == [] else Told(open, now, window.value, m, told)
  }

  /** What a window is for: a watch while resting, a clue while lost, otherwise a check,
      a correction and ink. One of too few beams is for nothing, and so is one while
      untrusted with no job, or on an empty map. */
  ghost predicate Told(was: View, now: View, w: Window, m: Moment, told: seq<Note>)
  {
    if was.repose.rest.Some? then Watched(was, now, w, m, told)
    else if w.beams < was.cfg.minWindowBeams then now == was && told == [WindowDiscarded]
    else if !was.search.lost then Vetted(was, now, w, told)
    else if (was.search.untrusted && !m.engaged) || was.nSubmaps == 0 then now == was && told == []
    else Sought(was, now, w, m.odom, m.home, told)
  }

  /** At rest: the verdict is counted, and the map and the pose stay. A drift ends the
      rest; contradictions up to the limit end it and the trust. */
  ghost predicate Watched(was: View, now: View, w: Window, m: Moment, told: seq<Note>)
    requires was.repose.rest.Some?
  {
    var verdict := VerdictOf(was.cfg, was.stand.grid, was.repose, w);
    WatchedSo(was, now, verdict, w.residual, verdict.Drifted? && !IsFoundElsewhere(was.cfg, was.repose, w), m.t, told)
  }

  ghost predicate WatchedSo(was: View, now: View, verdict: Watch, residual: real, tried: bool, t: real,
      told: seq<Note>)
    requires was.repose.rest.Some?
  {
    var doubted := verdict.Contradicts? && was.repose.rest.value.contradictions + 1 >= was.cfg.rest.doubtAfter;
    var tallied := Tallied(was.cfg, was.repose.rest.value, verdict, residual, t);
    && now.run.watches == was.run.watches + [verdict] && RestWatched(verdict) in told
    && SameMap(was, now)
    && now.repose.rest == (if verdict.Drifted? || doubted then None else Some(tallied))
    && now.repose == was.repose.(rest := now.repose.rest, doubtSpent := was.repose.doubtSpent || doubted,
         windowsTried := was.repose.windowsTried || tried)
    && now.stand == (if verdict.Drifted? then Woken(was.stand, was.repose.rest.value, t)
                     else if doubted then Woken(was.stand, tallied, t) else was.stand)
    && (Untrusted in told <==> doubted)
    && (if doubted then now.search.untrusted && now.search.lost && now.search.booting && now.search.seedAgreed == 0
             && now.cfg == was.cfg.(searchRadiusM := 0.0, lostGiveUpWindows := 0)
        else now.search == was.search && now.cfg == was.cfg
             && now.run == was.run.(watches := was.run.watches + [verdict]))
  }

  /** A match accounts for the drift. */
  predicate IsFoundElsewhere(cfg: MapperConfig, i: Repose, w: Window)
    requires i.rest.Some?
  {
    w.matched && (IsOff(cfg, i, w) || w.movedFar)
  }

  /** The stand when the rest is over: a watch's frames are dropped, and the wait begins
      again. */
  function Woken(stand: Stand, rest: Rest, t: real): Stand
  {
    stand.(frames := if rest.watching then 0 else stand.frames,
           windowOpened := if rest.watching then None else stand.windowOpened,
           since := if stand.still then Some(t) else None)
  }

  lemma WokenStands(stand: Stand, rest: Rest, t: real)
    ensures var woken := Woken(stand, rest, t);
            woken == stand.(frames := woken.frames, windowOpened := woken.windowOpened, since := woken.since)
  {
  }

  /** The rest after one more watch: a contradiction is looked at again at once, an
      agreement may better the baseline. */
  function Tallied(cfg: MapperConfig, rest: Rest, verdict: Watch, residual: real, t: real): Rest
  {
    var next := rest.(watching := false);
    match verdict
    case Contradicts => next.(contradictions := rest.contradictions + 1, nextWatch := t)
    case Agrees => next.(contradictions := 0, nextWatch := t + cfg.rest.watchEveryS,
        baseline := Some(Best(rest.baseline, residual)))
    case _ => next.(contradictions := 0, nextWatch := t + cfg.rest.watchEveryS)
  }

  predicate SameMap(was: View, now: View)
  {
    now.tracked == was.tracked && now.lastOdom == was.lastOdom && now.nSubmaps == was.nSubmaps
        && now.revision == was.revision
  }

  /** Tracking. Where the map contradicts the window nothing is corrected or inked, and
      as many in a row as configured lose the track; otherwise the pose is corrected, and
      the map inked once unless the window is held for the settling. */
  ghost predicate Vetted(was: View, now: View, w: Window, told: seq<Note>)
  {
    var contradicted := w.contradicts && was.stand.grid;
    && now.cfg == was.cfg && now.repose == was.repose
    && now.run == was.run.(windows := was.run.windows + [contradicted])
    && (now.search.lost <==> ContradictedRun(now.run.windows) == LossAt(was.cfg))
    && (LostTracking in told <==> now.search.lost)
    && if contradicted then
         && SameMap(was, now) && now.stand == was.stand && WindowIntegrated !in told
         && now.search == if was.search.suspect + 1 >= was.cfg.lostAfterWindows then Kidnapped(was.search)
                          else was.search.(suspect := was.search.suspect + 1)
       else
         && now.search == was.search.(suspect := if was.stand.grid then 0 else was.search.suspect)
         && Corrected(was, now, w) && now.stand == StandAfter(was.cfg, was.stand, w) && now.nSubmaps == was.nSubmaps
         && (WindowIntegrated in told <==> now.stand.settling.None?)
         && now.revision == was.revision + if now.stand.settling.None? && !was.cfg.frozen then 1 else 0
  }

  function Kidnapped(s: Search): Search
  {
    s.(lost := true, suspect := 0, pending := None, lastSearch := None, lostWindows := 0, hardLost := true)
  }

  predicate Corrected(was: View, now: View, w: Window)
  {
    if was.stand.grid && was.cfg.trackingEnabled && w.corrected.Some? then
      now.tracked == Compose(was.tracked, w.corrected.value) && now.lastOdom == None
    else now.tracked == was.tracked && now.lastOdom == was.lastOdom
  }

  /** The settling after one more window, over when windows enough in a row agreed, or too
      many were held; then the window counts. */
  function StandAfter(cfg: MapperConfig, stand: Stand, w: Window): Stand
  {
    var inked := stand.(settling := None, windows := stand.windows + 1);
    if stand.settling.None? then inked
    else
      var (agreed, held) := (InARow(stand.settling.value.0, w), stand.settling.value.1 + 1);
      if agreed >= cfg.settle.windows || held > cfg.settle.maxHeld then inked
      else stand.(settling := Some((agreed, held)))
  }

  /** A window that does not see the map changes nothing; one that does agrees or not. */
  function InARow(agreed: nat, w: Window): nat
  {
    if !w.seen then agreed else if w.small && w.agrees then agreed + 1 else 0
  }

  // ── ... and the rest of the tick ────────────────────────────────────────────

  /** The body stands: it neither moves nor sits nor has fallen, and odometry stayed in place. */
  predicate StandsStill(sample: Sample, steady: bool)
  {
    !sample.moving && !sample.sitting && !sample.fallen && steady
  }

  /** Before the window: odometry and a walking duck's correction, and the seed the
      shadow's map gave, if it gave one. */
  ghost predicate Prepared(was: View, now: View, sample: Sample, walked: Walked, seeded: bool,
      first: seq<Note>)
  {
    var stepped := WithStep(was.tracked, was.lastOdom, sample.odom);
    var walking := was.cfg.continuous && !was.search.lost && !walked.NotDue?;
    && now == was.(stand := now.stand, search := now.search, run := now.run, tracked := now.tracked,
         lastOdom := now.lastOdom)
    && now.stand == was.stand.(grid := if walking then was.nSubmaps > 0 else was.stand.grid)
    && (if walking && walked.Moved? && was.cfg.trackingEnabled && was.nSubmaps > 0
        then now.tracked == Compose(stepped, walked.delta) && now.lastOdom == None
        else now.tracked == stepped && now.lastOdom == Some(sample.odom))
    && (ShadowSeed in first <==> seeded)
    && (if seeded then SeededFromMap(was, now) else now.search == was.search && now.run == was.run)
  }

  /** A new seed, where the tracked pose was, that counts for nothing yet. */
  predicate SeededFromMap(was: View, now: View)
  {
    && was.search.lost && now.search.softSeed.Some? && now.search.softSeed.value.1 == was.tracked
    && now.search == was.search.(softSeed := now.search.softSeed, seedAgreed := 0, seedFromMap := true)
    && now.run == was.run.(seeds := was.run.seeds + [NewSeed])
  }

  /** After the window: the stand as it is now, suspicion after a sit or a fall, and a rest
      or its end; the map and the pose stay. Unless it comes to distrust, nothing else of
      the search changes. */
  ghost predicate Followed(was: View, now: View, t: real, still: bool, sample: Sample, engaged: bool, more: seq<Note>)
  {
    var suspected := Suspected(was.search, sample, was.tracked);
    && SameMap(was, now) && now.stand.settling == was.stand.settling && now.stand.windows == was.stand.windows
    && now.stand.still == still
    && now.stand.grid == (if still && !was.stand.still then was.nSubmaps > 0 else was.stand.grid)
    && (Untrusted !in more ==> now.cfg == was.cfg && now.search == suspected)
    && (Untrusted in more ==> now.search.untrusted && now.search.lost && now.search.booting)
    && now.run.windows == was.run.windows
    && (RestBegan in more <==>
        && Untrusted !in more && was.repose.rest.None? && was.cfg.rest.enabled && still && !engaged && !suspected.lost
        && was.stand.settling.None?
        && t - (if was.stand.since.Some? then was.stand.since.value else t) >= was.cfg.rest.afterS)
    && (Untrusted !in more ==>
        (now.repose.rest.Some? <==>
         RestBegan in more || (was.repose.rest.Some? && still && !engaged && !suspected.lost)))
  }

  /** A rest begins on a stand long enough, with no job, tracked and settled; and goes on
      until the stand is over, a job asks or the pose is lost. */
  ghost predicate Rested(was: View, now: View, t: real, engaged: bool, more: seq<Note>)
  {
    var asleep := was.stand.still && !engaged && !was.search.lost;
    && SameMap(was, now)
    && now.stand == was.stand.(frames := now.stand.frames, windowOpened := now.stand.windowOpened,
         since := now.stand.since)
    && (Untrusted !in more ==> now.cfg == was.cfg && now.search == was.search)
    && (Untrusted in more ==> now.search.untrusted && now.search.lost && now.search.booting)
    && now.run.windows == was.run.windows
    && (RestBegan in more <==>
        && Untrusted !in more && was.repose.rest.None? && was.cfg.rest.enabled && asleep && was.stand.settling.None?
        && was.stand.since.Some? && t - was.stand.since.value >= was.cfg.rest.afterS)
    && (Untrusted !in more ==>
        (now.repose.rest.Some? <==> RestBegan in more || (was.repose.rest.Some? && asleep)))
  }

  /** What a step of the rest may do: distrust only a loss during the rest, or a push. */
  ghost predicate RestKeeps(was: View, now: View, sample: Sample, engaged: bool, more: seq<Note>)
  {
    && SameMode(was.cfg, now.cfg)
    && (now.search.untrusted && !was.search.untrusted ==> Untrusted in more)
    && (Untrusted in more ==> (was.repose.rest.Some? && was.search.lost) || MayPush(was, sample, engaged))
    && (Untrusted in more ==> now.search.untrusted && now.search.lost && now.search.booting)
    && (Untrusted !in more ==> now.search == was.search && now.cfg == was.cfg)
    && now.run == was.run.(seeds := now.run.seeds, odoms := now.run.odoms, watches := now.run.watches,
         restBegan := now.run.restBegan)
    && (was.search.lost ==> now.run == was.run.(seeds := now.run.seeds, odoms := now.run.odoms))
    && LostTracking !in more && Relocalized !in more && ResumedUnverified !in more
    && Grew(was.run, now.run, was.search, now.search, more, Quiet(sample.odom))
  }

  /** A push, with no job and no walking, from the odometry of the rest's start. */
  predicate MayPush(was: View, sample: Sample, engaged: bool)
  {
    (was.repose.rest.Some? || was.repose.pushedFrom.Some?) && !engaged && !sample.moving
        && IsPush(was.run.restBegan, sample.odom)
  }

  /** What the stand, the suspicion and the rest may do. */
  ghost predicate Stirs(was: View, now: View, sample: Sample, engaged: bool, more: seq<Note>)
  {
    && SameMode(was.cfg, now.cfg)
    && Relocalized !in more && ResumedUnverified !in more && LostTracking !in more
    && (was.search.lost ==>
        now.search.lost && now.run == was.run.(seeds := now.run.seeds, odoms := now.run.odoms))
    && (was.search.booting ==> now.search.booting) && (now.search.booting && !was.search.booting ==> Untrusted in more)
    && (now.search.untrusted && !was.search.untrusted ==> Untrusted in more)
    && (Untrusted in more ==>
        (was.repose.rest.Some? && (sample.sitting || sample.fallen)) || MayPush(was, sample, engaged))
    && now.run.windows == was.run.windows
    && (now.search.lost && !was.search.lost ==> Untrusted in more || sample.sitting || sample.fallen)
    && Grew(was.run, now.run, was.search, now.search, more, Quiet(sample.odom))
  }

  lemma StirredInSteps(was: View, stood: View, suspected: View, now: View, t: real, still: bool, sample: Sample,
      engaged: bool, first: seq<Note>, more: seq<Note>)
    requires stood == was.(stand := StandNow(was, t, still), repose := stood.repose)
              && stood.repose.rest == was.repose.rest && stood.repose.pushedFrom == was.repose.pushedFrom
    requires suspected == stood.(search := Suspected(was.search, sample, was.tracked), run := suspected.run)
              && suspected.run == was.run.(seeds := suspected.run.seeds)
    requires was.repose.rest.Some? ==> !was.search.lost
    requires first == [] || first == [SuspectAfterFall] || first == [SuspectAfterSit]
    requires Grew(was.run, suspected.run, was.search, suspected.search, first, Quiet(sample.odom))
    requires RestKeeps(suspected, now, sample, engaged, more)
    ensures Stirs(was, now, sample, engaged, first + more)
  {
    hide Grew, IsPush, StandNow;
    var quiet := Quiet(sample.odom);
    GrewTwice(was.run, suspected.run, now.run, was.search, suspected.search, now.search, first, more, quiet, quiet,
        quiet);
  }

  lemma StirredAwake(was: View, now: View, sample: Sample, engaged: bool, more: seq<Note>)
    requires Stirs(was, now, sample, engaged, more)
    ensures SameMode(was.cfg, now.cfg)
    ensures now.search.booting && !was.search.booting ==> was.repose.rest.Some? || was.repose.pushedFrom.Some?
  {
    hide Grew, IsPush;
  }

  /** The three grounds for distrust: the watches of this rest end in a run of
      contradictions as long as configured, a sample during the rest sits or has fallen,
      or a push. */
  ghost predicate MayDistrust(was: View, now: View, sample: Sample, engaged: bool)
  {
    || (was.repose.rest.Some? && now.run.watches == was.run.watches + [Contradicts]
       && WatchRun(now.run.watches) >= now.cfg.rest.doubtAfter)
    || (was.repose.rest.Some? && (sample.sitting || sample.fallen))
    || MayPush(was, sample, engaged)
  }

  /** What all of a tick but the shadow and odometry may do, whatever it is told. */
  ghost predicate Advances(was: View, now: View, window: Option<Window>, sample: Sample, engaged: bool,
      notes: seq<Note>)
  {
    && SameMode(was.cfg, now.cfg) && (now.cfg.frozen ==> now.revision == was.revision)
    && (was.search.lost && !Resumes(notes) ==>
        now.search.lost && now.revision == was.revision && now.tracked == was.tracked)
    && (ResumedUnverified in notes ==> !was.search.booting && !was.search.untrusted)
    && (was.search.booting && !now.search.booting ==>
        Relocalized in notes && window.Some?
        && BootConfirmed(now.cfg.agree, was.search, was.run, window.value, was.tracked))
    && (now.search.untrusted && !was.search.untrusted ==> Untrusted in notes)
    && (Untrusted in notes ==> MayDistrust(was, now, sample, engaged))
    && (LostTracking in notes ==> ContradictedRun(now.run.windows) == LossAt(now.cfg))
    && Grew(was.run, now.run, was.search, now.search, notes, SeenIn(was, window, sample.odom))
    && (now.search.lost && !was.search.lost ==>
        LostTracking in notes || Untrusted in notes || sample.sitting || sample.fallen)
    && (now.search.booting && !was.search.booting ==> Untrusted in notes)
  }

  lemma AdvancedInSteps(was: View, mid: View, now: View, window: Option<Window>, sample: Sample, engaged: bool,
      told: seq<Note>, more: seq<Note>)
    requires Keeps(was, mid, window, sample.odom, told) && Stirs(mid, now, sample, engaged, more) && SameMap(mid, now)
    requires (was.search.untrusted ==> was.search.booting) && (was.search.booting ==> was.search.lost)
    ensures Advances(was, now, window, sample, engaged, told + more)
  {
    hide Grew, IsPush, BootConfirmed, WatchRun, ContradictedRun, SeenBy;
    GrewTwice(was.run, mid.run, now.run, was.search, mid.search, now.search, told, more,
        SeenIn(was, window, sample.odom), Quiet(sample.odom), SeenIn(was, window, sample.odom));
  }

  /** A whole tick. What it books is what it was told, and a window while tracking is
      judged against the map that a walking duck's correction drew, if it did. */
  ghost predicate Observes(was: View, now: View, sample: Sample, a: Answers, engaged: bool, notes: seq<Note>)
  {
    var stepped := WithStep(was.tracked, was.lastOdom, sample.odom);
    var grid := if was.cfg.continuous && !was.search.lost && !a.walked.NotDue? then was.nSubmaps > 0
        else was.stand.grid;
    && SameMode(was.cfg, now.cfg) && (now.cfg.frozen ==> now.revision == was.revision)
    && (was.search.lost && !Resumes(notes) ==>
        now.search.lost && now.revision == was.revision && now.tracked == stepped)
    && (ResumedUnverified in notes ==> !was.search.booting && !was.search.untrusted)
    && (was.search.booting && !now.search.booting ==>
        Relocalized in notes && a.window.Some?
        && BootConfirmed(now.cfg.agree, was.search, was.run, a.window.value, stepped))
    && (now.search.untrusted && !was.search.untrusted ==> Untrusted in notes)
    && (Untrusted in notes ==> MayDistrust(was, now, sample, engaged))
    && (LostTracking in notes ==> ContradictedRun(now.run.windows) == LossAt(now.cfg))
    && Grew(was.run, now.run, was.search, now.search, notes,
            SeenBy(was.cfg, grid, was.search.lost, was.repose, a.window, sample.odom))
    && (now.search.lost && !was.search.lost ==>
        LostTracking in notes || Untrusted in notes || sample.sitting || sample.fallen)
    && (now.search.booting && !was.search.booting ==> Untrusted in notes)
  }

  lemma ObservedInSteps(was: View, before: View, later: View, now: View, sample: Sample, a: Answers, seeded: bool,
      engaged: bool, first: seq<Note>, more: seq<Note>, last: seq<Note>)
    requires Prepared(was, before, sample, a.walked, seeded, first)
              && Advances(before, later, a.window, sample, engaged, more)
    requires Ticked(later, now, a.tick, last)
    requires Grew(was.run, before.run, was.search, before.search, first, Quiet(sample.odom))
    requires RestBegan !in first && Untrusted !in first && !Resumes(first) && LostTracking !in first
    requires was.search.booting ==> was.search.lost
    ensures Observes(was, now, sample, a, engaged, first + more + last)
  {
    hide Grew, IsPush, BootConfirmed, WatchRun, ContradictedRun, SeenBy, Carried, Compose;
    var seen := SeenIn(before, a.window, sample.odom);
    GrewTwice(was.run, before.run, later.run, was.search, before.search, later.search, first, more,
        Quiet(sample.odom), seen, seen);
    GrewLouder(was.run, later.run, was.search, later.search, first + more, seen);
    if was.search.booting && !now.search.booting {
      ConfirmedBefore(now.cfg.agree, was.search, before.search, was.run, before.run, a.window.value, before.tracked);
    }
  }

  /** The stand as it is now. */
  function StandNow(v: View, t: real, still: bool): Stand
  {
    v.stand.(grid := if still && !v.stand.still then v.nSubmaps > 0 else v.stand.grid, still := still,
             windowOpened := if v.stand.still && !still then None else v.stand.windowOpened,
             since := if still then Some(if v.stand.since.Some? then v.stand.since.value else t) else None)
  }

  lemma FollowedInSteps(was: View, stood: View, suspected: View, now: View, t: real, still: bool, sample: Sample,
      engaged: bool, first: seq<Note>, more: seq<Note>)
    requires stood == was.(stand := StandNow(was, t, still), repose := stood.repose)
              && stood.repose.rest == was.repose.rest
    requires suspected == stood.(search := Suspected(was.search, sample, was.tracked), run := suspected.run)
              && suspected.run.windows == was.run.windows
    requires Rested(suspected, now, t, engaged, more) && Untrusted !in first && RestBegan !in first
    ensures Followed(was, now, t, still, sample, engaged, first + more)
  {
    hide Suspected;
  }

  /** A sit or a fall makes the carried pose a seed; a fall is remembered. */
  function Suspected(s: Search, sample: Sample, at: Pose): Search
  {
    var s := if sample.fallen then s.(afterFall := true) else s;
    if s.lost || !(sample.sitting || sample.fallen) then s
    else s.(lost := true, suspect := 0, unjudged := 0, seedAgreed := 0, hardLost := false, softSeed := Some((at, at)),
            pending := None, lastSearch := None)
  }

  /** At last the pipeline's tick, unless the pose is a guess or the map is frozen; a
      closure redraws the stand's map and drops the frames. */
  ghost predicate Ticked(was: View, now: View, tick: TickAnswer, last: seq<Note>)
  {
    if was.search.lost || was.cfg.frozen then now == was && last == []
    else
      var closed := tick.loops > 0;
      && now == was.(stand := now.stand, revision := was.revision + 1,
           nSubmaps := was.nSubmaps + (if was.nSubmaps == 0 || tick.opens then 1 else 0),
           tracked := if closed then tick.moved else was.tracked)
      && last == (if closed then [LoopClosed] else [])
      && now.stand == was.stand.(grid := if closed && was.stand.still then true else was.stand.grid,
           frames := if closed then 0 else was.stand.frames,
           windowOpened := if closed && was.stand.frames > 0 then None else was.stand.windowOpened)
  }

  /** The steps of one tick: the mapper when the window comes, once the window is dealt
      with, and before the pipeline's tick, with the notes of each. */
  datatype Story = Story(before: View, after: View, later: View, first: seq<Note>, told: seq<Note>, more: seq<Note>,
      last: seq<Note>)

  /** A whole tick, step by step. */
  ghost predicate Tells(story: Story, was: View, now: View, t: real, sample: Sample, a: Answers, seeded: bool,
      engaged: bool, home: (real, nat), notes: seq<Note>)
  {
    var still := StandsStill(sample, a.steady);
    && Prepared(was, story.before, sample, a.walked, seeded, story.first)
    && Heard(story.before, story.after, still, a.window, Moment(t, sample.odom, engaged, home), story.told)
    && Followed(story.after, story.later, t, still, sample, engaged, story.more)
    && Ticked(story.later, now, a.tick, story.last)
    && notes == story.first + story.told + story.more + story.last
  }

  ghost predicate HasStory(was: View, now: View, t: real, sample: Sample, a: Answers, seeded: bool, engaged: bool,
      home: (real, nat), notes: seq<Note>)
  {
    exists story :: Tells(story, was, now, t, sample, a, seeded, engaged, home, notes)
  }

  // ── ... while lost ──────────────────────────────────────────────────────────

  predicate SeedEnds(cfg: MapperConfig, s: Search, w: Window)
  {
    SeedConfirms(s, w) || (s.softSeed.Some? && SeedGivesUp(cfg, s, w))
  }

  /** A window that agrees with the seed leaves the candidate and the search for later. */
  predicate SeedHolds(s: Search, w: Window)
  {
    s.softSeed.Some? && w.seed.Confirmed?
  }

  /** One window more than the limit of a loss by the watchdog. */
  predicate GivesUp(cfg: MapperConfig, s: Search)
  {
    s.hardLost && cfg.lostGiveUpWindows > 0 && !s.afterFall && s.lostWindows + 1 > cfg.lostGiveUpWindows
  }

  /** Where tracking resumes, if this window ends the search. */
  function Recovery(cfg: MapperConfig, s: Search, w: Window, at: Pose): Option<Pose>
  {
    if SeedEnds(cfg, s, w) then Some(Implied(s.softSeed.value, at))
    else if SeedHolds(s, w) then None
    else if CandidateConfirms(s, w, at) then Some(Implied(s.pending.value, at))
    else if GivesUp(cfg, s) then Some(at)
    else None
  }

  /** ... and whether that is a confirmation. */
  predicate IsConfirmed(cfg: MapperConfig, s: Search, w: Window, at: Pose)
  {
    SeedConfirms(s, w) || (!SeedEnds(cfg, s, w) && CandidateConfirms(s, w, at))
  }

  /** The seed after a verdict that leaves the pose lost: dropped once refuted, otherwise
      carried along. */
  function SeedTaken(s: Search, w: Window, at: Pose): Search
  {
    if s.softSeed.None? then s
    else s.(softSeed := if w.seed.Refuted? then None else Some((Implied(s.softSeed.value, at), at)),
            seedAgreed := if w.seed.Confirmed? then s.seedAgreed + 1 else 0,
            seedFromMap := s.seedFromMap && !w.seed.Refuted?,
            unjudged := if w.seed.Unjudgeable? then s.unjudged + 1 else s.unjudged)
  }

  /** A candidate that is not confirmed is dropped, unless at a boot it was, and the body
      has only to move on. */
  function CandidateTaken(s: Search, w: Window, at: Pose): Search
  {
    if s.pending.Some? && s.booting && w.pending.Confirmed?
        && !((s.resumedFromSession || s.afterFall) && w.pendingValley)
       && SquareDistance(at.at, s.pending.value.1.at) < CONFIRM_TRAVEL_M * CONFIRM_TRAVEL_M then s
    else s.(pending := None)
  }

  function LostOneMore(cfg: MapperConfig, s: Search): Search
  {
    if s.hardLost && cfg.lostGiveUpWindows > 0 && !s.afterFall then s.(lostWindows := s.lostWindows + 1) else s
  }

  /** What the search makes of the window: at a boot the places are weighed anew and a
      leader is nominated, otherwise a place that enough searches in a row agreed on. */
  function Searched(cfg: MapperConfig, s: Search, w: Window, odom: Pose, at: Pose): Search
  {
    if s.hardLost && s.resumedFromSession && s.booting then
      if w.basins.None? then s
      else
        var places := H.Updated(cfg.agree, s.places, H.Round(odom, w.basins.value, w.agreesAt));
        var leader := H.Leader(cfg.agree, places);
        s.(places := places,
           pending := if s.pending.None? && leader.Some? then Some((leader.value, at)) else s.pending)
    else if w.found.Nominee? then
      var agreed := if s.lastSearch.Some? && w.found.agrees then s.lastSearch.value + 1 else 1;
      s.(lastSearch := Some(agreed),
         pending := if s.pending.None? && agreed >= cfg.agree.agreeWindows then Some((w.found.pose, at)) else s.pending)
    else s
  }

  lemma NothingSearched(cfg: MapperConfig, s: Search, w: Window, odom: Pose, at: Pose)
    ensures s.hardLost && s.resumedFromSession && s.booting && w.basins.None? ==> Searched(cfg, s, w, odom, at) == s
    ensures OnlyCandidateChanged(s, s)
  {
  }

  /** Past the seed. */
  function PastTheSeed(cfg: MapperConfig, s: Search, w: Window, odom: Pose, at: Pose): Search
  {
    Searched(cfg, LostOneMore(cfg, CandidateTaken(s, w, at)), w, odom, at)
  }

  /** Lost: the window is counted and its verdict on the seed booked, and tracking resumes
      exactly where the seed, the candidate or the give-up says, or the search goes on. */
  ghost predicate Sought(was: View, now: View, w: Window, odom: Pose, home: (real, nat), told: seq<Note>)
  {
    now.run.judged == was.run.judged + 1 && SoughtFrom(was, now, w, odom, home, told)
  }

  ghost predicate SoughtFrom(was: View, now: View, w: Window, odom: Pose, home: (real, nat), told: seq<Note>)
  {
    var (s, at) := (was.search, was.tracked);
    var recovery := Recovery(was.cfg, s, w, at);
    && now.run.seeds == Appended(was.run.seeds, s.softSeed.Some?, w.seed, recovery.Some?)
    && (Relocalized in told <==> recovery.Some? && IsConfirmed(was.cfg, s, w, at))
    && (ResumedUnverified in told <==> recovery.Some? && Relocalized !in told)
    && if recovery.Some? then Recovered(was, now, recovery.value, w.tick, home)
       else
         && now == was.(search := now.search, run := now.run)
         && now.run.windows == was.run.windows && now.run.resumedAt == was.run.resumedAt
         && now.search == if SeedHolds(s, w) then SeedTaken(s, w, at)
                          else PastTheSeed(was.cfg, SeedTaken(s, w, at), w, odom, at)
  }

  /** Tracking from `pose` on: with the settings from before any boot, nothing of the search
      left, and the window inked, but on a map that was resumed or after a fall, where
      the settling comes first. */
  ghost predicate Recovered(was: View, now: View, pose: Pose, tick: TickAnswer, home: (real, nat))
  {
    var frozen := was.cfg.frozen;
    var settles := was.cfg.settle.enabled && (was.search.resumedFromSession || was.search.afterFall);
    && now.cfg == was.cfg.(searchRadiusM := home.0, lostGiveUpWindows := home.1)
    && now.search == Tracking(was.search) && now.repose == was.repose
    && now.run.windows == [] && now.run.resumedAt == pose
    && now.stand == (if settles then was.stand.(settling := Some((0, 0)))
                     else was.stand.(windows := was.stand.windows + 1))
    && now.revision == was.revision + (if frozen then 0 else if settles then 1 else 2)
    && now.tracked == (if !frozen && tick.loops > 0 then tick.moved else pose) && now.lastOdom == None
    && now.nSubmaps == was.nSubmaps + (if !frozen && (was.nSubmaps == 0 || tick.opens) then 1 else 0)
  }

  /** From the candidate on. */
  ghost predicate SoughtOn(was: View, now: View, w: Window, odom: Pose, home: (real, nat))
  {
    var (s, at) := (was.search, was.tracked);
    if CandidateConfirms(s, w, at) then Recovered(was, now, Implied(s.pending.value, at), w.tick, home)
    else if GivesUp(was.cfg, s) then Recovered(was, now, at, w.tick, home)
    else now == was.(search := PastTheSeed(was.cfg, s, w, odom, at), run := now.run)
  }

  /** From the give-up on. */
  ghost predicate SoughtLast(was: View, now: View, w: Window, odom: Pose, home: (real, nat))
  {
    var (s, at) := (was.search, was.tracked);
    if GivesUp(was.cfg, s) then Recovered(was, now, at, w.tick, home)
    else now == was.(search := Searched(was.cfg, LostOneMore(was.cfg, s), w, odom, at), run := now.run)
  }

  lemma PastTheCandidate(was: View, mid: View, now: View, w: Window, odom: Pose, home: (real, nat))
    requires !CandidateConfirms(was.search, w, was.tracked)
    requires mid == was.(search := CandidateTaken(was.search, w, was.tracked)) && SoughtLast(mid, now, w, odom, home)
    ensures SoughtOn(was, now, w, odom, home)
  {
    hide Recovered, SameWhenFound, Searched, Implied, SquareDistance;
    CandidateForgotten(was.search, mid.search);
    if GivesUp(was.cfg, was.search) {
      RecoveredAfter(was, mid, now, was.tracked, w.tick, home);
    }
  }

  /** The whole of it, the seed ending it or not. */
  lemma PastTheSeedItIsSought(was: View, mid: View, now: View, w: Window, odom: Pose, home: (real, nat),
      told: seq<Note>)
    requires !SeedEnds(was.cfg, was.search, w) && !SeedHolds(was.search, w)
    requires mid == was.(search := SeedTaken(was.search, w, was.tracked), run := mid.run)
    requires SoughtOn(mid, now, w, odom, home) && (mid.search.lost || now == mid)
    requires var (s, at) := (mid.search, mid.tracked);
             && (Relocalized in told <==> CandidateConfirms(s, w, at))
             && (ResumedUnverified in told <==> !CandidateConfirms(s, w, at) && GivesUp(was.cfg, s))
    requires now.run.seeds == Appended(was.run.seeds, was.search.softSeed.Some?, w.seed, !now.search.lost)
    requires now.search.lost ==> now.run.windows == was.run.windows && now.run.resumedAt == was.run.resumedAt
    requires was.search.lost
    ensures SoughtFrom(was, now, w, odom, home, told)
  {
    hide Recovered, SameWhenFound, PastTheSeed, Implied, SquareDistance, SeedConfirms, SeedGivesUp, Appended;
    var (s, at) := (was.search, was.tracked);
    SeedForgotten(s, mid.search);
    SeedLeavesTheCandidate(was.cfg, s, w, at);
    if CandidateConfirms(s, w, at) {
      RecoveredAfter(was, mid, now, Implied(s.pending.value, at), w.tick, home);
      RecoveredIsFound(was, now, Implied(s.pending.value, at), w.tick, home);
    } else if GivesUp(was.cfg, s) {
      RecoveredAfter(was, mid, now, at, w.tick, home);
      RecoveredIsFound(was, now, at, w.tick, home);
    } else {
      StillLost(was.cfg, mid.search, w, odom, at);
    }
  }

  lemma SeedTakenKeeps(s: Search, w: Window, at: Pose)
    ensures OnlySeedChanged(s, SeedTaken(s, w, at)) && SeedTaken(s, w, at).pending == s.pending
  {
    hide Implied;
  }

  lemma SeedLeavesTheCandidate(cfg: MapperConfig, s: Search, w: Window, at: Pose)
    ensures var s' := SeedTaken(s, w, at);
            (CandidateConfirms(s', w, at) <==> CandidateConfirms(s, w, at)) && (GivesUp(cfg, s') <==> GivesUp(cfg, s))
            && s'.pending == s.pending && OnlySeedChanged(s, s')
  {
    hide SquareDistance, Implied;
  }

  lemma RecoveredIsFound(was: View, now: View, pose: Pose, tick: TickAnswer, home: (real, nat))
    requires Recovered(was, now, pose, tick, home)
    ensures !now.search.lost
  {
  }

  lemma StillLost(cfg: MapperConfig, s: Search, w: Window, odom: Pose, at: Pose)
    requires s.lost
    ensures PastTheSeed(cfg, s, w, odom, at).lost
  {
    SearchedKeepsLost(cfg, LostOneMore(cfg, CandidateTaken(s, w, at)), w, odom, at);
    hide Searched, SquareDistance;
  }

  lemma SearchedKeepsLost(cfg: MapperConfig, s: Search, w: Window, odom: Pose, at: Pose)
    ensures Searched(cfg, s, w, odom, at).lost == s.lost
  {
    hide H.Updated, H.Leader;
  }

  /** A window that ends it, or is left, with the seed. */
  lemma AtTheSeedItIsSought(was: View, now: View, w: Window, odom: Pose, home: (real, nat),
      told: seq<Note>)
    requires SeedEnds(was.cfg, was.search, w) || SeedHolds(was.search, w)
    requires if SeedEnds(was.cfg, was.search, w) then
               Recovered(was, now, Implied(was.search.softSeed.value, was.tracked), w.tick, home)
             else now == was.(search := SeedTaken(was.search, w, was.tracked), run := now.run)
    requires Relocalized in told <==> SeedConfirms(was.search, w)
    requires ResumedUnverified in told <==> was.search.softSeed.Some? && SeedGivesUp(was.cfg, was.search, w)
    requires was.search.lost && now.run.seeds == Appended(was.run.seeds, was.search.softSeed.Some?, w.seed,
              !now.search.lost)
    requires now.search.lost ==> now.run.windows == was.run.windows && now.run.resumedAt == was.run.resumedAt
    ensures SoughtFrom(was, now, w, odom, home, told)
  {
    hide Recovered, CandidateConfirms, Implied, Appended;
    if SeedEnds(was.cfg, was.search, w) {
      RecoveredIsFound(was, now, Implied(was.search.softSeed.value, was.tracked), w.tick, home);
    }
  }

  /** The window is counted before it is looked at. */
  lemma CountedFirst(was: View, counted: View, now: View, w: Window, odom: Pose, home: (real, nat), told: seq<Note>)
    requires counted == was.(run := was.run.(judged := was.run.judged + 1)) && now.run.judged == counted.run.judged
    requires SoughtFrom(counted, now, w, odom, home, told)
    ensures Sought(was, now, w, odom, home, told)
  {
    hide Recovered, PastTheSeed, Implied, SeedConfirms, SeedGivesUp, CandidateConfirms, Appended;
    var recovery := Recovery(was.cfg, was.search, w, was.tracked);
    if recovery.Some? {
      RecoveredAfter(was, counted, now, recovery.value, w.tick, home);
    }
  }

  /** The search ends exactly on a seed confirmed or given up, or, unless this window holds
      the seed, on a candidate confirmed or one window too many. */
  lemma SoughtEndsIff(was: View, now: View, w: Window, odom: Pose, home: (real, nat), told: seq<Note>)
    requires Sought(was, now, w, odom, home, told) && was.search.lost
    ensures !now.search.lost <==>
              || SeedConfirms(was.search, w) || (was.search.softSeed.Some? && SeedGivesUp(was.cfg, was.search, w))
              || (!SeedHolds(was.search, w)
                  && (CandidateConfirms(was.search, w, was.tracked) || GivesUp(was.cfg, was.search)))
    ensures !now.search.lost <==> Resumes(told)
  {
    hide Recovered, PastTheSeed, Implied, CandidateConfirms, SeedGivesUp, GivesUp, Appended;
    StillLost(was.cfg, SeedTaken(was.search, w, was.tracked), w, odom, was.tracked);
    var recovery := Recovery(was.cfg, was.search, w, was.tracked);
    if recovery.Some? {
      RecoveredIsFound(was, now, recovery.value, w.tick, home);
    }
  }

  /** A boot ends on a confirmation only. */
  lemma BootEndsConfirmed(was: View, now: View, w: Window, odom: Pose, home: (real, nat), told: seq<Note>)
    requires Sought(was, now, w, odom, home, told) && was.search.booting && was.search.lost && !now.search.lost
    requires was.search.resumedFromSession && was.cfg.lostGiveUpWindows == 0
    requires was.search.seedAgreed == SeedRun(was.run.seeds)
    requires was.search.pending.Some? ==>
               was.run.nominatedAt <= was.run.judged
               && H.Earned(was.cfg.agree, was.run.nominated.0, was.run.nominated.1, was.search.pending.value.0)
    ensures BootConfirmed(was.cfg.agree, was.search, was.run, w, was.tracked)
  {
    hide Recovered, PastTheSeed, H.Earned, Implied, SquareDistance, SeedRun, Appended;
    StillLost(was.cfg, SeedTaken(was.search, w, was.tracked), w, odom, was.tracked);
  }

  /** What a window may do, whatever it says: ink neither a frozen map nor one the pose is
      lost on, end a boot only by a confirmation, lose the track or the trust only on
      the grounds there are. */
  ghost predicate Keeps(was: View, now: View, window: Option<Window>, odom: Pose, notes: seq<Note>)
  {
    && SameMode(was.cfg, now.cfg) && (now.cfg.frozen ==> now.revision == was.revision)
    && (now.search.booting && !was.search.booting ==> Untrusted in notes)
    && (was.repose.rest.Some? ==> now.revision == was.revision && now.tracked == was.tracked)
    && (was.search.lost && now.search.lost ==>
       now.revision == was.revision && now.tracked == was.tracked && SameLoss(was.search, now.search))
    && (was.search.lost && !now.search.lost ==> Relocalized in notes || ResumedUnverified in notes)
    && (was.search.booting && !now.search.booting ==>
       window.Some? && BootConfirmed(now.cfg.agree, was.search, was.run, window.value, was.tracked))
    && (ResumedUnverified in notes ==> was.search.lost && !was.search.booting && !was.search.afterFall)
    && (now.search.untrusted && !was.search.untrusted ==> Untrusted in notes)
    && (Untrusted in notes ==>
       && was.repose.rest.Some? && WatchRun(now.run.watches) >= now.cfg.rest.doubtAfter
       && now.run.watches == was.run.watches + [Contradicts] && now.repose.rest.None? && now.search.lost)
    && (LostTracking in notes ==> ContradictedRun(now.run.windows) == LossAt(now.cfg) && !was.search.lost)
    && (now.search.lost && !was.search.lost ==> LostTracking in notes || Untrusted in notes)
    && (window.Some? && window.value.contradicts && was.stand.grid && !was.search.lost ==> now.revision == was.revision)
    && now.stand.still == was.stand.still && (now.repose.rest.Some? ==> was.repose.rest.Some?)
    && now.run.restBegan == was.run.restBegan && now.repose.pushedFrom == was.repose.pushedFrom
    && Grew(was.run, now.run, was.search, now.search, notes, SeenIn(was, window, odom))
  }

  lemma StillNotBooting(was: View, now: View, window: Option<Window>, odom: Pose, notes: seq<Note>)
    requires Keeps(was, now, window, odom, notes)
    ensures SameMode(was.cfg, now.cfg) && (was.repose.rest.None? && !was.search.booting ==> !now.search.booting)
  {
    hide Grew, BootConfirmed, WatchRun, ContradictedRun;
  }

  function SeenIn(v: View, window: Option<Window>, odom: Pose): Seen
  {
    SeenBy(v.cfg, v.stand.grid, v.search.lost, v.repose, window, odom)
  }

  lemma KeepsWithoutFrames(was: View, open: View, now: View, window: Option<Window>, odom: Pose, notes: seq<Note>)
    requires open == was.(stand := was.stand.(frames := 0, windowOpened := None))
    ensures Keeps(open, now, window, odom, notes) ==> Keeps(was, now, window, odom, notes)
    ensures now == was || now == open ==> Keeps(was, now, window, odom, [])
  {
    hide Grew, SeenBy, BootConfirmed, WatchRun, ContradictedRun;
    NothingGrew(was.run, was.search, [], SeenIn(was, window, odom));
  }

  /** What a resume forgets may have changed before. */
  predicate SameWhenFound(s: Search, s': Search)
  {
    Tracking(s') == Tracking(s) && s'.resumedFromSession == s.resumedFromSession && s'.afterFall == s.afterFall
  }

  lemma RecoveredAfter(was: View, mid: View, now: View, pose: Pose, tick: TickAnswer, home: (real, nat))
    requires Recovered(mid, now, pose, tick, home)
    requires mid == was.(search := mid.search, run := mid.run) && SameWhenFound(was.search, mid.search)
    ensures Recovered(was, now, pose, tick, home)
  {
    hide Tracking;
  }

  lemma SeedForgotten(s: Search, s': Search)
    requires OnlySeedChanged(s, s')
    ensures SameWhenFound(s, s')
  {
  }

  lemma CandidateForgotten(s: Search, s': Search)
    requires OnlyCandidateChanged(s, s') && s'.places == s.places
    ensures SameWhenFound(s, s')
  {
  }

  /** A second mapper with a map of its own, and the two tracked poses when it started. */
  datatype Shadow = Shadow(walker: Mapper, starts: Option<(Pose, Pose)>)

  class Mapper {
    var cfg: MapperConfig
    const track: Track
    var engaged: bool
    var stand: Stand
    var search: Search
    var repose: Repose
    var shadow: Option<Shadow>
    ghost const home: (real, nat)
    ghost var run: Run

    ghost function Now(): View
      reads this, track
    {
      View(cfg, stand, search, repose, run, track.tracked, track.lastOdom, track.nSubmaps, track.revision)
    }

    ghost predicate Core()
      reads this, track
    {
      Sound(cfg, stand, search, repose, run, home, track.nSubmaps)
    }

    /** A mapper that walks along as a shadow: it never rests, so it never comes to
        distrust its pose and to have a shadow itself. */
    ghost predicate Walks()
      reads this, track
    {
      Core() && !cfg.rest.enabled && !search.booting && shadow.None?
    }

    /** Holds after every step of a call. */
    ghost predicate Mid()
      reads this, track, if shadow.Some? then {shadow.value.walker, shadow.value.walker.track} else {}
    {
      && Core() && (shadow.Some? ==> search.booting)
      && (shadow.Some? ==>
         shadow.value.walker != this && shadow.value.walker.track != track && shadow.value.walker.Walks())
    }

    /** Holds between calls. */
    ghost predicate Valid()
      reads this, track, if shadow.Some? then {shadow.value.walker, shadow.value.walker.track} else {}
    {
      Mid() && RestIsStill(stand, search, repose)
    }

    lemma MidSays()
      requires Mid()
      ensures RestIsPlaced(cfg, search, repose, run)
      ensures shadow.Some? ==> search.booting && shadow.value.walker != this && shadow.value.walker.track != track
      ensures (search.untrusted ==> search.booting)
                && (search.booting ==> search.lost && search.resumedFromSession && cfg.lostGiveUpWindows == 0)
      ensures search.seedAgreed == SeedRun(run.seeds) && (search.pending.Some? ==> run.nominatedAt <= run.judged)
      ensures !search.lost ==> search.pending.None? && search.softSeed.None? && search.seedAgreed == 0
      ensures PlacesCount(cfg, search, run) && (search.booting ==> search.hardLost)
    {
    }

    /** Lost, with the carried pose for a seed, exactly when the map holds a submap. */
    constructor (cfg: MapperConfig, track: Track)
      ensures Valid() && shadow == None && !search.booting && this.track == track && this.cfg == cfg
      ensures home == (cfg.searchRadiusM, cfg.lostGiveUpWindows)
      ensures search.lost == (track.nSubmaps > 0) && search.seedAgreed == 0 && search.pending == None
                && repose.rest == None && !engaged
      ensures search.lost ==> search.softSeed == Some((track.tracked, track.tracked))
      ensures run == NoRun()
    {
      this.cfg, this.track, engaged, shadow := cfg, track, false, None;
      stand := Stand(false, None, 0, None, false, None, 0);
      search := StartingSearch(track);
      repose := Repose(None, None, false, false);
      home := (cfg.searchRadiusM, cfg.lostGiveUpWindows);
      run := NoRun();
    }

    /** Lost and booting from the start, with nothing counted. */
    constructor ResumedLost(cfg: MapperConfig, track: Track)
      ensures Valid() && search.booting && this.track == track && home == (cfg.searchRadiusM, cfg.lostGiveUpWindows)
      ensures search.seedAgreed == 0 && search.pending == None
                && this.cfg == cfg.(searchRadiusM := 0.0, lostGiveUpWindows := 0)
      ensures run == NoRun()
    {
      this.cfg, this.track, engaged, shadow := cfg, track, false, None;
      stand := Stand(false, None, 0, None, false, None, 0);
      search := StartingSearch(track);
      repose := Repose(None, None, false, false);
      home := (cfg.searchRadiusM, cfg.lostGiveUpWindows);
      run := NoRun();
      new;
      SearchAfresh();
    }

    // ── Losing the pose ───────────────────────────────────────────────────────

    /** Soft suspicion: the pose carried so far is the seed to confirm. */
    method ArmSuspicion()
      requires Mid() && !search.booting
      modifies this`search, this`run
      ensures Mid()
      ensures search == old(search).(lost := true, suspect := 0, unjudged := 0, seedAgreed := 0, hardLost := false,
                                     softSeed := Some((track.tracked, track.tracked)), pending := None, lastSearch :=
                                         None)
      ensures run == old(run).(seeds := old(run).seeds + [NewSeed])
    {
      hide Walks;
      RunsGrow(run, NewSeed, false, Agrees);
      search := search.(lost := true, suspect := 0, unjudged := 0, seedAgreed := 0, hardLost := false,
                        softSeed := Some((track.tracked, track.tracked)), pending := None, lastSearch := None);
      run := run.(seeds := run.seeds + [NewSeed]);
    }

    /** Booting, with the radius and the limit of giving up at zero and their values before
        the first boot kept. There is a new shadow exactly when the map holds a submap. */
    method SearchAfresh()
      requires Mid() && (search.lost || search.suspect == 0) && repose.rest.None? && search.pending.None?
      modifies this`cfg, this`search, this`shadow, this`run
      ensures Mid()
      ensures search == old(search).(lost := true, hardLost := true, resumedFromSession := true, booting := true,
                lostWindows := 0, afterBoot := Some(home), places := [])
      ensures run == old(run).(odoms := [])
      ensures cfg == old(cfg).(searchRadiusM := 0.0, lostGiveUpWindows := 0)
      ensures shadow.Some? <==> track.nSubmaps > 0
      ensures shadow.Some? ==>
                && fresh(shadow.value.walker) && fresh(shadow.value.walker.track)
                && shadow.value.walker.home == home && !shadow.value.walker.cfg.frozen
    {
      hide Sound, Walks;
      var shadowCfg := PutSettingsAway();
      if track.nSubmaps > 0 {
        var walker := NewWalker(shadowCfg);
        shadow := Some(Shadow(walker, None));
      }
    }

    /** The boot's settings and state, with no shadow yet; returns the settings of one. */
    method PutSettingsAway() returns (shadowCfg: MapperConfig)
      requires Mid() && (search.lost || search.suspect == 0) && repose.rest.None? && search.pending.None?
      modifies this`cfg, this`search, this`shadow, this`run
      ensures Mid() && shadow == None
      ensures search == old(search).(lost := true, hardLost := true, resumedFromSession := true, booting := true,
                lostWindows := 0, afterBoot := Some(home), places := [])
      ensures run == old(run).(odoms := []) && cfg == old(cfg).(searchRadiusM := 0.0, lostGiveUpWindows := 0)
      ensures (shadowCfg.searchRadiusM, shadowCfg.lostGiveUpWindows) == home && !shadowCfg.frozen
                && !shadowCfg.rest.enabled
    {
      hide Sound, Walks;
      BootIsSound(cfg, stand, search, repose, run, home, track.nSubmaps);
      shadowCfg := cfg;
      var afterBoot := search.afterBoot;
      if afterBoot.Some? {
        shadowCfg := shadowCfg.(searchRadiusM := afterBoot.value.0, lostGiveUpWindows := afterBoot.value.1);
      } else {
        afterBoot := Some((cfg.searchRadiusM, cfg.lostGiveUpWindows));
      }
      shadowCfg := shadowCfg.(frozen := false, rest := shadowCfg.rest.(enabled := false));
      cfg := cfg.(searchRadiusM := 0.0, lostGiveUpWindows := 0);
      search := search.(lost := true, hardLost := true, resumedFromSession := true, booting := true, lostWindows := 0,
          afterBoot := afterBoot, places := []);
      run := run.(odoms := []);
      shadow := None;
    }

    /** A mapper on a map of its own, with these settings. */
    method NewWalker(cfg: MapperConfig) returns (walker: Mapper)
      requires !cfg.rest.enabled
      ensures fresh(walker) && fresh(walker.track) && walker.Walks()
      ensures walker.home == (cfg.searchRadiusM, cfg.lostGiveUpWindows) && walker.cfg == cfg
    {
      hide Sound;
      var slam := new Track(ORIGIN, 0);
      walker := new Mapper(cfg, slam);
    }

    /** Untrusted and booting; the agreeing windows start from none, and no candidate is
        left to confirm. */
    method Distrust() returns (notes: seq<Note>)
      requires Mid() && repose.rest.None? && (search.lost ==>
                !search.booting && search.seedAgreed == 0 && search.pending.None?)
      modifies this`cfg, this`search, this`shadow, this`run
      ensures Mid() && search.untrusted && search.lost && search.seedAgreed == 0 && search.pending == None
                && notes == [Untrusted]
      ensures cfg == old(cfg).(searchRadiusM := 0.0, lostGiveUpWindows := 0)
      ensures run == old(run).(seeds := run.seeds, odoms := run.odoms)
      ensures shadow.Some? ==> fresh(shadow.value.walker) && fresh(shadow.value.walker.track)
      ensures Distrusted(old(run), run, old(search), search, notes)
      ensures search.booting
    {
      hide Walks, SeedRun, ContradictedRun, WatchRun;
      if !search.lost {
        ArmSuspicion();
      }
      SearchAfresh();
      search := search.(untrusted := true);
      return [Untrusted];
    }

    // ── Finding it again ──────────────────────────────────────────────────────

    /** Counts a window, and changes the map once if it is not frozen. */
    method Ink()
      modifies this`stand, track`revision
      ensures stand == old(stand).(windows := old(stand).windows + 1)
      ensures track.revision == old(track.revision) + if cfg.frozen then 0 else 1
    {
      stand := stand.(windows := stand.windows + 1);
      if cfg.frozen {
        return;
      }
      track.Integrate();
    }

    /** Tracking again, with the settings the mapper was built with and no shadow; every
        count starts from nothing. */
    method ResumeAt(pose: Pose, tick: TickAnswer)
      requires Mid() && search.lost && repose.rest.None?
      modifies track, this`stand, this`search, this`shadow, this`cfg, this`run
      ensures Mid() && !search.lost && !search.booting && !search.untrusted && shadow == None
      ensures cfg == old(cfg).(searchRadiusM := home.0, lostGiveUpWindows := home.1)
      ensures cfg.frozen ==> track.revision == old(track.revision) && track.tracked == pose
      ensures track.nSubmaps >= old(track.nSubmaps)
                && run == old(run).(seeds := old(run).seeds + [NewSeed], windows := [], resumedAt := pose)
      ensures SameStand(old(stand), stand)
      ensures search.softSeed.None? && search.pending.None?
      ensures Recovered(old(Now()), Now(), pose, tick, home)
    {
      hide Walks, Sound, SeedRun, ContradictedRun, WatchRun;
      Land(pose, tick);
      var s := search;
      ghost var was := run;
      run := run.(seeds := run.seeds + [NewSeed], windows := [], resumedAt := pose);
      ResumingIsSound(cfg, stand, s, repose, was, home, track.nSubmaps, run);
      if s.booting && s.afterBoot.Some? {
        cfg := cfg.(searchRadiusM := s.afterBoot.value.0, lostGiveUpWindows := s.afterBoot.value.1);
      }
      search, shadow := Tracking(s), None;
    }

    /** The pipeline is told, and sees the jump, before the window inks, if it does. */
    method Land(pose: Pose, tick: TickAnswer)
      requires Mid() && search.lost
      modifies track, this`stand
      ensures Mid() && SameStand(old(stand), stand) && track.nSubmaps >= old(track.nSubmaps)
      ensures cfg.frozen ==> track.revision == old(track.revision) && track.tracked == pose
      ensures cfg.settle.enabled && (search.resumedFromSession || search.afterFall) ==>
                stand.settling == Some((0, 0)) && stand.windows == old(stand).windows
      ensures !(cfg.settle.enabled && (search.resumedFromSession || search.afterFall)) ==>
                stand.settling == old(stand).settling && stand.windows == old(stand).windows + 1
      ensures track.revision == old(track.revision) + (if cfg.frozen then 0 else if cfg.settle.enabled
                && (search.resumedFromSession || search.afterFall) then 1 else 2)
      ensures track.tracked == (if !cfg.frozen && tick.loops > 0 then tick.moved else pose) && track.lastOdom == None
      ensures track.nSubmaps == old(track.nSubmaps) + (if !cfg.frozen && (old(track.nSubmaps) == 0 || tick.opens)
                then 1 else 0)
    {
      hide Walks, BootIsKept, CountersCount, RestIsPlaced;
      var settle := cfg.settle.enabled && (search.resumedFromSession || search.afterFall);
      track.SetTracked(pose);
      if !cfg.frozen {
        track.Tick(tick);
      }
      if settle {
        stand := stand.(settling := Some((0, 0)));
      } else {
        Ink();
      }
    }

    // ── A window while lost ───────────────────────────────────────────────────

    /** Nothing but the search moved. */
    twostate predicate NothingInked(notes: seq<Note>)
      reads this, track
    {
      && cfg == old(cfg) && shadow == old(shadow) && track.revision == old(track.revision)
         && track.tracked == old(track.tracked)
      && track.nSubmaps == old(track.nSubmaps) && stand == old(stand) && Relocalized !in notes
         && ResumedUnverified !in notes
    }

    /** The window's verdict on the seed, before any candidate is looked at. */
    method JudgeSeed(w: Window) returns (done: bool, notes: seq<Note>)
      requires Mid() && search.lost && repose.rest.None?
      modifies track, this`stand, this`search, this`shadow, this`cfg, this`run
      ensures Mid()
      ensures !search.lost ==> IsTracking(search) && shadow == None && SameStand(old(stand), stand)
      ensures SeedConfirms(old(search), w) ==>
                done && !search.lost && Relocalized in notes
                && run.resumedAt == Implied(old(search).softSeed.value, old(track.tracked))
      ensures ResumedUnverified in notes ==>
                done && !search.lost && !old(search).resumedFromSession && !old(search).afterFall
                && w.seed == Unjudgeable
      ensures !search.lost ==> SeedConfirms(old(search), w) || ResumedUnverified in notes
      ensures search.lost ==> NothingInked(notes) && OnlySeedChanged(old(search), search)
      ensures run == old(run).(seeds := run.seeds, windows := run.windows, resumedAt := run.resumedAt)
      ensures SameMode(old(cfg), cfg) && (cfg.frozen ==> track.revision == old(track.revision))
      ensures LostTracking !in notes && Untrusted !in notes
      ensures SeedJudged(old(run), run, old(search), search, w)
      ensures done <==> SeedEnds(old(cfg), old(search), w) || SeedHolds(old(search), w)
      ensures if SeedEnds(old(cfg), old(search), w) then
                Recovered(old(Now()), Now(), Implied(old(search).softSeed.value, old(track.tracked)), w.tick, home)
              else Now() == old(Now()).(search := SeedTaken(old(search), w, old(track.tracked)), run := run)
      ensures Relocalized in notes <==> SeedConfirms(old(search), w)
      ensures ResumedUnverified in notes <==> old(search).softSeed.Some? && SeedGivesUp(old(cfg), old(search), w)
    {
      hide Mid, Walks, Core, Sound, SeedRun, ContradictedRun, WatchRun, Compose, Between, SameSeed, SeedJudged,
          Recovered, Tracking, SameWhenFound, Implied;
      if search.softSeed.None? {
        NoSeedJudged(run, search, w);
        return false, [];
      }
      var s, now := search, track.tracked;
      var implied := Implied(s.softSeed.value, now);
      var confirmed, gaveUp := SeedConfirms(s, w), SeedGivesUp(cfg, s, w);
      TakeSeed(w, if confirmed || gaveUp || w.seed.Refuted? then None else Some((implied, now)));
      SeedForgotten(s, search);
      ghost var mid := Now();
      if confirmed || gaveUp {
        ResumeAt(implied, w.tick);
        RecoveredAfter(old(Now()), mid, Now(), implied, w.tick, home);
      }
      VerdictBooked(old(run), run, s, search, w, implied, now);
      done := w.seed.Confirmed? || gaveUp;
      notes := if confirmed then [Relocalized] else if gaveUp then [ResumedUnverified]
               else if w.seed.Confirmed? then [RelocalizeCandidate]
               else if w.seed.Refuted? && s.seedFromMap then [ShadowSeedRefuted] else [];
    }

    /** The seed's verdict, counted; the seed is dropped, or carried to where it would be
        now. */
    method TakeSeed(w: Window, seed: Option<(Pose, Pose)>)
      requires Mid() && search.lost && repose.rest.None?
      modifies this`search, this`run
      ensures Mid() && OnlySeedChanged(old(search), search)
      ensures run == old(run).(seeds := old(run).seeds + [Judged(w.seed)])
      ensures search == old(search).(softSeed := seed,
                seedAgreed := if w.seed.Confirmed? then old(search).seedAgreed + 1 else 0,
                seedFromMap := old(search).seedFromMap && !w.seed.Refuted?,
                unjudged := if w.seed.Unjudgeable? then old(search).unjudged + 1 else old(search).unjudged)
    {
      hide Walks, Sound, SeedRun, ContradictedRun, WatchRun;
      ghost var s, before := search, run;
      MidSays();
      RunsGrow(run, Judged(w.seed), false, Agrees);
      search := search.(softSeed := seed, seedAgreed := if w.seed.Confirmed? then search.seedAgreed + 1 else 0,
                        seedFromMap := search.seedFromMap && !w.seed.Refuted?,
                        unjudged := if w.seed.Unjudgeable? then search.unjudged + 1 else search.unjudged);
      run := run.(seeds := run.seeds + [Judged(w.seed)]);
      SeedChangesAreSound(cfg, stand, s, repose, before, home, track.nSubmaps, search, run);
    }

    /** Then the candidate of an earlier search, if one is pending. */
    method JudgePending(w: Window) returns (done: bool, notes: seq<Note>)
      requires Mid() && search.lost && repose.rest.None?
      modifies track, this`stand, this`search, this`shadow, this`cfg, this`run
      ensures Mid()
      ensures !search.lost ==> IsTracking(search) && shadow == None && SameStand(old(stand), stand)
      ensures CandidateConfirms(old(search), w, old(track.tracked)) <==> !search.lost
      ensures !search.lost ==>
                done && Relocalized in notes && run.resumedAt == Implied(old(search).pending.value, old(track.tracked))
      ensures search.lost ==> NothingInked(notes) && !done && OnlyCandidateChanged(old(search), search)
      ensures search.lost && search.pending.Some? ==> search.pending == old(search).pending
      ensures run == old(run).(seeds := run.seeds, windows := run.windows, resumedAt := run.resumedAt)
      ensures SameMode(old(cfg), cfg) && (cfg.frozen ==> track.revision == old(track.revision))
      ensures LostTracking !in notes && Untrusted !in notes && ResumedUnverified !in notes
      ensures Resumed(old(run), run, old(search), search)
      ensures if CandidateConfirms(old(search), w, old(track.tracked)) then
                Recovered(old(Now()), Now(), Implied(old(search).pending.value, old(track.tracked)), w.tick, home)
              else Now() == old(Now()).(search := CandidateTaken(old(search), w, old(track.tracked)))
      ensures done <==> !search.lost
      ensures Relocalized in notes <==> !search.lost
    {
      hide Walks, Sound, SeedRun, ContradictedRun, WatchRun, Compose, Between, SquareDistance, Recovered, SameWhenFound,
          Implied;
      if search.pending.None? {
        return false, [];
      }
      var s := search;
      var now := track.tracked;
      var implied := Implied(s.pending.value, now);
      search := s.(pending := None);
      CandidateForgotten(s, search);
      ghost var mid := Now();
      CandidateChangesAreSound(cfg, stand, s, repose, run, home, track.nSubmaps, search, run);
      if w.pending != Confirmed {
        return false, [RelocalizeCandidateJudged];
      }
      if (s.resumedFromSession || s.afterFall) && w.pendingValley {
        return false, [];
      }
      if s.booting && SquareDistance(now.at, s.pending.value.1.at) < CONFIRM_TRAVEL_M * CONFIRM_TRAVEL_M {
        search := s;
        return false, [RelocalizeCandidate];
      }
      ResumeAt(implied, w.tick);
      RecoveredAfter(old(Now()), mid, Now(), implied, w.tick, home);
      return true, [Relocalized];
    }

    /** After more windows than the limit of a loss by the watchdog, tracking resumes
        unverified where odometry has it. */
    method GiveUp(w: Window) returns (done: bool, notes: seq<Note>)
      requires Mid() && search.lost && repose.rest.None?
      modifies track, this`stand, this`search, this`shadow, this`cfg, this`run
      ensures Mid()
      ensures !search.lost ==> IsTracking(search) && shadow == None && SameStand(old(stand), stand)
      ensures done <==> !search.lost
      ensures done ==>
                notes == [ResumedUnverified] && !old(search).booting && !old(search).afterFall && old(search).hardLost
                && run.resumedAt == old(track.tracked)
      ensures !done ==>
                notes == [] && NothingInked(notes) && OnlyCandidateChanged(old(search), search)
                && search.pending == old(search).pending
      ensures run == old(run).(seeds := run.seeds, windows := run.windows, resumedAt := run.resumedAt)
      ensures SameMode(old(cfg), cfg) && (cfg.frozen ==> track.revision == old(track.revision))
      ensures Resumed(old(run), run, old(search), search)
      ensures if GivesUp(old(cfg), old(search)) then Recovered(old(Now()), Now(), old(track.tracked), w.tick, home)
              else Now() == old(Now()).(search := LostOneMore(old(cfg), old(search)))
      ensures !search.lost <==> GivesUp(old(cfg), old(search))
    {
      MidSays();
      hide Walks, Sound, SeedRun, ContradictedRun, WatchRun, Recovered, SameWhenFound;
      if search.hardLost && cfg.lostGiveUpWindows > 0 && !search.afterFall {
        ghost var s := search;
        search := search.(lostWindows := search.lostWindows + 1);
        CandidateForgotten(s, search);
        ghost var mid := Now();
        CandidateChangesAreSound(cfg, stand, s, repose, run, home, track.nSubmaps, search, run);
        if search.lostWindows > cfg.lostGiveUpWindows {
          ResumeAt(track.tracked, w.tick);
          RecoveredAfter(old(Now()), mid, Now(), old(track.tracked), w.tick, home);
          return true, [ResumedUnverified];
        }
      }
      return false, [];
    }

    /** Without a confirmation the window may nominate a candidate, if none is pending: at
        a boot the place that leads all others, otherwise a place that enough searches in
        a row agreed on. */
    method SearchWindow(w: Window, odom: Pose) returns (notes: seq<Note>)
      requires Mid() && search.lost && repose.rest.None?
      modifies this`search, this`run
      ensures Mid() && OnlyCandidateChanged(old(search), search)
      ensures search.pending == old(search).pending
                || (old(search).pending.None? && search.pending.value.1 == track.tracked
                && run.nominatedAt == run.judged)
      ensures search.booting && old(search).pending.None? && search.pending.Some? ==>
                H.Earned(cfg.agree, search.places, run.odoms, search.pending.value.0)
                    && run.odoms == old(run).odoms + [odom]
      ensures run == old(run).(nominatedAt := run.nominatedAt, odoms := run.odoms, nominated := run.nominated)
      ensures notes == [] || notes == [RelocalizeCandidate] || notes == [RelocalizeRejected]
      ensures Nominated(old(run), run, old(search), search, notes, odom)
      ensures search == Searched(cfg, old(search), w, odom, track.tracked)
    {
      MidSays();
      hide Mid, Core, Walks, Sound, H.Earned, Nominated, OnlyCandidateChanged, Searched;
      NothingSearched(cfg, search, w, odom, track.tracked);
      if search.hardLost && search.resumedFromSession && search.booting {
        if w.basins.None? {
          NobodyNominated(run, search, odom);
          return [];
        }
        notes := SearchAtBoot(w, odom);
      } else {
        notes := SearchForOne(w, odom);
      }
    }

    /** The place that leads all others. */
    method SearchAtBoot(w: Window, odom: Pose) returns (notes: seq<Note>)
      requires Mid() && search.lost && repose.rest.None? && search.booting && search.hardLost
                && search.resumedFromSession && w.basins.Some?
      modifies this`search, this`run
      ensures Mid() && OnlyCandidateChanged(old(search), search)
      ensures search.pending == old(search).pending
                || (old(search).pending.None? && search.pending.value.1 == track.tracked
                && run.nominatedAt == run.judged)
      ensures run == old(run).(nominatedAt := run.nominatedAt, odoms := run.odoms, nominated := run.nominated)
      ensures old(search).pending.None? && search.pending.Some? ==>
                H.Earned(cfg.agree, search.places, run.odoms, search.pending.value.0)
                    && run.odoms == old(run).odoms + [odom]
      ensures notes == [] || notes == [RelocalizeCandidate]
      ensures Nominated(old(run), run, old(search), search, notes, odom)
      ensures search == Searched(cfg, old(search), w, odom, track.tracked)
    {
      hide Mid, Core, Walks, Sound, H.AllGrounded, H.Earned, H.Leader, H.Updated;
      notes := [];
      Reconsider(H.Round(odom, w.basins.value, w.agreesAt));
      var leader := H.Leader(cfg.agree, search.places);
      if search.pending.None? && leader.Some? {
        H.LeaderHasEarnedIt(cfg.agree, search.places, run.odoms);
        Nominate(leader.value);
        notes := [RelocalizeCandidate];
      }
    }

    /** A place that enough searches in a row agreed on. */
    method SearchForOne(w: Window, odom: Pose) returns (notes: seq<Note>)
      requires Mid() && search.lost && repose.rest.None? && !search.booting
      modifies this`search, this`run
      ensures Mid() && OnlyCandidateChanged(old(search), search)
      ensures search.pending == old(search).pending
                || (old(search).pending.None? && search.pending.value.1 == track.tracked
                && run.nominatedAt == run.judged)
      ensures run == old(run).(nominatedAt := run.nominatedAt, odoms := run.odoms, nominated := run.nominated)
      ensures notes == [] || notes == [RelocalizeCandidate] || notes == [RelocalizeRejected]
      ensures Nominated(old(run), run, old(search), search, notes, odom)
      ensures search == Searched(cfg, old(search), w, odom, track.tracked)
    {
      hide Mid, Core, Walks, Sound, H.Earned;
      MidSays();
      hide H.AllGrounded;
      notes := [];
      if w.found.Nominee? {
        var agreed := if search.lastSearch.Some? && w.found.agrees then search.lastSearch.value + 1 else 1;
        CountAgreement(agreed);
        if agreed >= cfg.agree.agreeWindows && search.pending.None? {
          Nominate(w.found.pose);
        }
        notes := [RelocalizeCandidate];
      } else if w.found.Rejected? {
        notes := [RelocalizeRejected];
      }
    }

    /** The places so far, weighed against one more window. */
    method Reconsider(r: H.Round)
      requires Mid() && search.lost && repose.rest.None?
      modifies this`search, this`run
      ensures Mid() && H.AllGrounded(search.places, run.odoms)
      ensures search == old(search).(places := H.Updated(cfg.agree, old(search).places, r))
                && run == old(run).(odoms := old(run).odoms + [r.odom])
    {
      hide Walks, Sound, H.AllGrounded, H.Updated;
      ghost var s, before := search, run;
      MidSays();
      H.UpdatedAreGrounded(cfg.agree, search.places, r, run.odoms);
      var places := H.Update(cfg.agree, search.places, r);
      search := search.(places := places);
      run := run.(odoms := run.odoms + [r.odom]);
      CandidateChangesAreSound(cfg, stand, s, repose, before, home, track.nSubmaps, search, run);
    }

    /** A candidate, from where the body stands now. */
    method Nominate(pose: Pose)
      requires Mid() && search.lost && repose.rest.None?
      requires search.booting ==> H.Earned(cfg.agree, search.places, run.odoms, pose)
      modifies this`search, this`run
      ensures Mid() && search == old(search).(pending := Some((pose, track.tracked)))
      ensures run == old(run).(nominatedAt := old(run).judged, nominated := (search.places, run.odoms))
    {
      hide Walks, Sound, H.AllGrounded, H.Earned;
      ghost var s, before := search, run;
      search := search.(pending := Some((pose, track.tracked)));
      run := run.(nominatedAt := run.judged, nominated := (search.places, run.odoms));
      CandidateChangesAreSound(cfg, stand, s, repose, before, home, track.nSubmaps, search, run);
    }

    /** How many searches in a row have agreed. */
    method CountAgreement(agreed: nat)
      requires Mid() && search.lost && repose.rest.None?
      modifies this`search
      ensures Mid() && search == old(search).(lastSearch := Some(agreed))
    {
      hide Walks, Sound;
      ghost var s := search;
      search := search.(lastSearch := Some(agreed));
      CandidateChangesAreSound(cfg, stand, s, repose, run, home, track.nSubmaps, search, run);
    }

    /** A window while lost: the seed, the candidate, the give-up, the search. A boot ends
        only on a seed that two windows in a row agreed with, or on a candidate that a
        later window confirmed after the body had moved; never unverified. */
    method Seek(w: Window, odom: Pose) returns (notes: seq<Note>)
      requires Mid() && search.lost && repose.rest.None?
      modifies track, this`stand, this`search, this`shadow, this`cfg, this`run
      ensures Mid()
      ensures !search.lost ==> IsTracking(search) && shadow == None && SameStand(old(stand), stand)
      ensures search.lost ==> NothingInked(notes) && SameLoss(old(search), search)
      ensures !search.lost ==> Relocalized in notes || ResumedUnverified in notes
      ensures ResumedUnverified in notes ==> !old(search).booting && !old(search).afterFall && !search.lost
      ensures !search.lost && old(search).booting ==>
                BootConfirmed(cfg.agree, old(search), old(run), w, old(track.tracked))
      ensures run == old(run).(seeds := run.seeds, windows := run.windows, resumedAt := run.resumedAt,
                nominatedAt := run.nominatedAt, odoms := run.odoms, nominated := run.nominated, judged :=
                old(run).judged + 1)
      ensures SameMode(old(cfg), cfg) && (cfg.frozen ==> track.revision == old(track.revision))
      ensures LostTracking !in notes && Untrusted !in notes
      ensures Grew(old(run), run, old(search), search, notes, Seen(Some(w), odom, None, None))
      ensures Sought(old(Now()), Now(), w, odom, home, notes)
    {
      hide Mid, Core, Walks, Sound, SeedRun, Grew, Sought, SoughtFrom, BootConfirmed, H.Earned, H.AllGrounded, SameLoss,
          RestIsPlaced, IsTracking;
      MidSays();
      CountWindow();
      ghost var counted := Now();
      notes := SeekCounted(old(run), w, odom);
      CountedFirst(old(Now()), counted, Now(), w, odom, home, notes);
      if old(search).booting && !search.lost {
        BootEndsConfirmed(old(Now()), Now(), w, odom, home, notes);
      }
    }

    /** ... once it is counted. */
    method SeekCounted(ghost before: Run, w: Window, odom: Pose) returns (notes: seq<Note>)
      requires Mid() && search.lost && repose.rest.None? && run == before.(judged := before.judged + 1)
      modifies track, this`stand, this`search, this`shadow, this`cfg, this`run
      ensures Mid()
      ensures !search.lost ==> IsTracking(search) && shadow == None && SameStand(old(stand), stand)
      ensures search.lost ==> NothingInked(notes) && SameLoss(old(search), search)
      ensures !search.lost ==> Relocalized in notes || ResumedUnverified in notes
      ensures ResumedUnverified in notes ==> !old(search).booting && !old(search).afterFall && !search.lost
      ensures run == old(run).(seeds := run.seeds, windows := run.windows, resumedAt := run.resumedAt,
                nominatedAt := run.nominatedAt, odoms := run.odoms, nominated := run.nominated)
      ensures SameMode(old(cfg), cfg) && (cfg.frozen ==> track.revision == old(track.revision))
      ensures LostTracking !in notes && Untrusted !in notes
      ensures Grew(before, run, old(search), search, notes, Seen(Some(w), odom, None, None))
      ensures SoughtFrom(old(Now()), Now(), w, odom, home, notes)
    {
      hide Mid, Core, Walks, Sound, SeedRun, ContradictedRun, WatchRun, SquareDistance, Compose, Between,
          RestIsPlaced, SeedJudged, CandidateSought, Grew, PlacesCount, SameSeed, SoughtFrom, SoughtOn, Recovered,
          SeedTaken, SeedConfirms, SeedGivesUp, CandidateConfirms, GivesUp;
      MidSays();
      var done;
      done, notes := JudgeSeed(w);
      if done {
        BookedInTurn(before, run, run, old(search), search, search, w, [], odom);
        AtTheSeedItIsSought(old(Now()), Now(), w, odom, home, notes);
        SoughtGrew(before, run, run, old(search), search, search, notes, [], w, odom);
        assert notes + [] == notes;
      } else {
        notes := SeekPastSeed(before, old(Now()), notes, w, odom);
      }
    }

    /** ... once the seed is judged. */
    method SeekPastSeed(ghost before: Run, ghost was: View, first: seq<Note>, w: Window, odom: Pose)
        returns (notes: seq<Note>)
      requires Mid() && search.lost && repose.rest.None? && was.search.lost
      requires !SeedEnds(was.cfg, was.search, w) && !SeedHolds(was.search, w)
      requires Now() == was.(search := SeedTaken(was.search, w, was.tracked), run := run)
      requires SeedJudged(before.(judged := before.judged + 1), run, was.search, search, w)
      requires run == before.(judged := before.judged + 1, seeds := run.seeds, windows := run.windows,
                resumedAt := run.resumedAt) && was.run == before.(judged := before.judged + 1)
      requires Relocalized !in first && ResumedUnverified !in first && LostTracking !in first && Untrusted !in first
      modifies track, this`stand, this`search, this`shadow, this`cfg, this`run
      ensures Mid()
      ensures !search.lost ==> IsTracking(search) && shadow == None && SameStand(old(stand), stand)
      ensures search.lost ==> NothingInked(notes) && SameLoss(old(search), search)
      ensures !search.lost ==> Relocalized in notes || ResumedUnverified in notes
      ensures ResumedUnverified in notes ==> !old(search).booting && !old(search).afterFall && !search.lost
      ensures run == old(run).(seeds := run.seeds, windows := run.windows, resumedAt := run.resumedAt,
                nominatedAt := run.nominatedAt, odoms := run.odoms, nominated := run.nominated)
      ensures SameMode(old(cfg), cfg) && (cfg.frozen ==> track.revision == old(track.revision))
      ensures LostTracking !in notes && Untrusted !in notes
      ensures Grew(before, run, was.search, search, notes, Seen(Some(w), odom, None, None))
      ensures SoughtFrom(was, Now(), w, odom, home, notes)
    {
      hide Mid, Core, Walks, Sound, SeedJudged, CandidateSought, Grew, SoughtFrom, SoughtOn, SeedEnds, SeedHolds,
          CandidateConfirms, GivesUp, Implied;
      SeedTakenKeeps(was.search, w, was.tracked);
      hide SeedTaken;
      ghost var (mid, midway, since) := (run, search, Now());
      var more := SeekFurther(w, odom);
      notes := first + more;
      BookedInTurn(before, mid, run, was.search, midway, search, w, more, odom);
      PastTheSeedItIsSought(was, since, Now(), w, odom, home, notes);
      SoughtGrew(before, mid, run, was.search, midway, search, first, more, w, odom);
    }

    /** ... from the candidate on. */
    method SeekFurther(w: Window, odom: Pose) returns (notes: seq<Note>)
      requires Mid() && search.lost && repose.rest.None?
      modifies track, this`stand, this`search, this`shadow, this`cfg, this`run
      ensures Mid()
      ensures !search.lost ==> IsTracking(search) && shadow == None && SameStand(old(stand), stand)
      ensures search.lost ==> NothingInked(notes) && SameLoss(old(search), search)
      ensures !search.lost ==> Relocalized in notes || ResumedUnverified in notes
      ensures ResumedUnverified in notes ==> !old(search).booting && !old(search).afterFall && !search.lost
      ensures !search.lost && old(search).booting ==> CandidateConfirms(old(search), w, old(track.tracked))
      ensures run == old(run).(seeds := run.seeds, windows := run.windows, resumedAt := run.resumedAt,
                nominatedAt := run.nominatedAt, odoms := run.odoms, nominated := run.nominated)
      ensures SameMode(old(cfg), cfg) && (cfg.frozen ==> track.revision == old(track.revision))
      ensures LostTracking !in notes && Untrusted !in notes
      ensures CandidateSought(old(run), run, old(search), search, notes, odom)
      ensures SoughtOn(old(Now()), Now(), w, odom, home)
      ensures Relocalized in notes <==> CandidateConfirms(old(search), w, old(track.tracked))
      ensures ResumedUnverified in notes <==>
                !CandidateConfirms(old(search), w, old(track.tracked)) && GivesUp(old(cfg), old(search))
    {
      hide Mid, Core, Walks, Sound, SeedRun, ContradictedRun, WatchRun, CandidateConfirms, CandidateSought, Nominated,
          Resumed;
      var done;
      done, notes := JudgePending(w);
      if done {
        ResumedIsSought(old(run), run, old(search), search, notes, odom);
      } else {
        ghost var (mid, first) := (search, notes);
        ResumedIsTheSame(old(run), run, old(search), mid);
        ghost var was := Now();
        var more := GiveUpOrSearch(w, odom);
        PastTheCandidate(old(Now()), was, Now(), w, odom, home);
        SoughtLater(old(run), run, old(search), mid, search, first, more, odom);
        notes := notes + more;
      }
    }

    /** ... from the give-up on. */
    method GiveUpOrSearch(w: Window, odom: Pose) returns (notes: seq<Note>)
      requires Mid() && search.lost && repose.rest.None?
      modifies track, this`stand, this`search, this`shadow, this`cfg, this`run
      ensures Mid()
      ensures !search.lost ==> IsTracking(search) && shadow == None && SameStand(old(stand), stand)
      ensures search.lost ==> NothingInked(notes) && SameLoss(old(search), search)
      ensures !search.lost ==> ResumedUnverified in notes && !old(search).booting
      ensures ResumedUnverified in notes ==> !old(search).booting && !old(search).afterFall && !search.lost
      ensures run == old(run).(seeds := run.seeds, windows := run.windows, resumedAt := run.resumedAt,
                nominatedAt := run.nominatedAt, odoms := run.odoms, nominated := run.nominated)
      ensures SameMode(old(cfg), cfg) && (cfg.frozen ==> track.revision == old(track.revision))
      ensures LostTracking !in notes && Untrusted !in notes && Relocalized !in notes
      ensures CandidateSought(old(run), run, old(search), search, notes, odom)
      ensures SoughtLast(old(Now()), Now(), w, odom, home)
      ensures ResumedUnverified in notes <==> GivesUp(old(cfg), old(search))
    {
      hide Mid, Core, Walks, Sound, SeedRun, ContradictedRun, WatchRun, CandidateSought, Nominated, Resumed,
          Recovered, Searched, LostOneMore;
      var done;
      done, notes := GiveUp(w);
      if done {
        ResumedIsSought(old(run), run, old(search), search, notes, odom);
      } else {
        ghost var mid := search;
        ResumedIsTheSame(old(run), run, old(search), mid);
        var more := SearchWindow(w, odom);
        SearchedIsSought(old(run), run, mid, search, more, odom);
        SoughtLater(old(run), run, old(search), mid, search, notes, more, odom);
        notes := notes + more;
      }
    }

    method CountWindow()
      requires Mid() && search.lost && repose.rest.None?
      modifies this`run
      ensures Mid() && run == old(run).(judged := old(run).judged + 1)
    {
      hide Walks, Sound;
      ghost var before := run;
      run := run.(judged := run.judged + 1);
      CandidateChangesAreSound(cfg, stand, search, repose, before, home, track.nSubmaps, search, run);
    }

    // ── A window while tracking ───────────────────────────────────────────────

    /** The watchdog: a window the map contradicts is not inked and corrects nothing; as
        many of them in a row as configured are a kidnap. */
    method Quarantine() returns (notes: seq<Note>)
      requires Mid() && !search.lost && repose.rest.None? && stand.grid
      modifies this`search, this`run
      ensures Mid() && !search.booting && !search.untrusted && run == old(run).(windows := old(run).windows + [true])
      ensures search.lost <==> old(search).suspect + 1 >= cfg.lostAfterWindows
      ensures search.lost <==> ContradictedRun(run.windows) == LossAt(cfg)
      ensures search.lost ==>
                notes == [LostTracking] && ContradictedRun(run.windows) == LossAt(cfg) && search.hardLost
                && !search.booting && search.softSeed == old(search).softSeed && search.pending.None?
      ensures !search.lost ==>
                notes == [WindowQuarantined] && search == old(search).(suspect := old(search).suspect + 1)
      ensures search.lost ==> search == Kidnapped(old(search))
    {
      hide Walks, SeedRun, ContradictedRun, WatchRun;
      RunsGrow(run, NewSeed, true, Agrees);
      run := run.(windows := run.windows + [true]);
      if search.suspect + 1 >= cfg.lostAfterWindows {
        search := search.(lost := true, suspect := 0, pending := None, lastSearch := None, lostWindows := 0,
            hardLost := true);
        return [LostTracking];
      }
      search := search.(suspect := search.suspect + 1);
      return [WindowQuarantined];
    }

    method Accept()
      requires Mid() && !search.lost && repose.rest.None?
      modifies this`search, this`run
      ensures Mid() && !search.lost && search == old(search).(suspect := if stand.grid then 0 else old(search).suspect)
                && ContradictedRun(run.windows) == 0
      ensures run == old(run).(windows := old(run).windows + [false])
    {
      hide Walks, SeedRun, ContradictedRun, WatchRun;
      RunsGrow(run, NewSeed, false, Agrees);
      run := run.(windows := run.windows + [false]);
      if stand.grid {
        search := search.(suspect := 0);
      }
    }

    /** The window's correction, then the settling after a resume, then the ink. */
    method CorrectAndInk(w: Window) returns (notes: seq<Note>)
      requires Mid() && !search.lost && repose.rest.None?
      modifies track`tracked, track`lastOdom, track`revision, this`stand
      ensures Mid() && SameStand(old(stand), stand)
      ensures track.revision == old(track.revision) + if WindowIntegrated in notes && !cfg.frozen then 1 else 0
      ensures WindowIntegrated in notes <==> stand.settling.None?
      ensures old(stand).settling.None? ==> stand.settling.None?
      ensures track.tracked == if stand.grid && cfg.trackingEnabled && w.corrected.Some? then
                Compose(old(track.tracked), w.corrected.value) else old(track.tracked)
      ensures LostTracking !in notes && Untrusted !in notes && Relocalized !in notes && ResumedUnverified !in notes
      ensures stand == StandAfter(cfg, old(stand), w)
      ensures track.lastOdom == if stand.grid && cfg.trackingEnabled && w.corrected.Some? then None
                else old(track.lastOdom)
    {
      hide Mid, Compose;
      notes := Correct(w);
      var more := SettleOrInk(w);
      notes := notes + more;
    }

    method Correct(w: Window) returns (notes: seq<Note>)
      requires Mid()
      modifies track`tracked, track`lastOdom
      ensures Mid() && (notes == [] || notes == [TrackingCorrected])
      ensures track.tracked == if stand.grid && cfg.trackingEnabled && w.corrected.Some? then
                Compose(old(track.tracked), w.corrected.value) else old(track.tracked)
      ensures track.lastOdom == if stand.grid && cfg.trackingEnabled && w.corrected.Some? then None
                else old(track.lastOdom)
    {
      hide Walks, Sound, Compose;
      notes := [];
      if stand.grid && cfg.trackingEnabled && w.corrected.Some? {
        track.SetTracked(Compose(track.tracked, w.corrected.value));
        notes := [TrackingCorrected];
      }
    }

    /** Windows in a row that agree, or too many windows held, end the settling. */
    method SettleOrInk(w: Window) returns (notes: seq<Note>)
      requires Mid()
      modifies track`revision, this`stand
      ensures Mid() && SameStand(old(stand), stand)
      ensures track.revision == old(track.revision) + if WindowIntegrated in notes && !cfg.frozen then 1 else 0
      ensures notes == [WindowHeld] || notes == [WindowIntegrated] || notes == [Settled, WindowIntegrated]
      ensures WindowIntegrated in notes <==> stand.settling.None?
      ensures old(stand).settling.None? ==> stand.settling.None?
      ensures stand == StandAfter(cfg, old(stand), w)
    {
      hide Walks, BootIsKept, CountersCount, RestIsPlaced;
      notes := [];
      if stand.settling.Some? {
        var (count, held) := stand.settling.value;
        count := if w.seen && w.small && w.agrees then count + 1 else if w.seen then 0 else count;
        held := held + 1;
        if count < cfg.settle.windows && held <= cfg.settle.maxHeld {
          stand := stand.(settling := Some((count, held)));
          return [WindowHeld];
        }
        stand := stand.(settling := None);
        notes := [Settled];
      }
      Ink();
      notes := notes + [WindowIntegrated];
    }

    /** A window the map does not contradict. */
    method Admit(w: Window) returns (notes: seq<Note>)
      requires Mid() && !search.lost && repose.rest.None? && !(stand.grid && w.contradicts)
      modifies track`tracked, track`lastOdom, track`revision, this`stand, this`search, this`run
      ensures Mid() && SameStand(old(stand), stand) && run == old(run).(windows := old(run).windows + [false])
      ensures !search.lost && search == old(search).(suspect := search.suspect) && ContradictedRun(run.windows) == 0
      ensures cfg.frozen ==> track.revision == old(track.revision)
      ensures LostTracking !in notes && Untrusted !in notes && Relocalized !in notes && ResumedUnverified !in notes
      ensures Vetted(old(Now()), Now(), w, notes)
    {
      hide Mid, Core, Walks, Sound, ContradictedRun, Compose, StandAfter;
      Accept();
      notes := CorrectAndInk(w);
    }

    method Vet(w: Window) returns (notes: seq<Note>)
      requires Mid() && !search.lost && repose.rest.None?
      modifies track`tracked, track`lastOdom, track`revision, this`stand, this`search, this`run
      ensures Mid() && !search.booting && !search.untrusted
      ensures SameStand(old(stand), stand)
      ensures run == old(run).(windows := old(run).windows + [w.contradicts && old(stand).grid])
      ensures w.contradicts && old(stand).grid ==>
                track.revision == old(track.revision) && track.tracked == old(track.tracked)
                && WindowIntegrated !in notes
      ensures LostTracking in notes <==> search.lost
      ensures search.lost <==> w.contradicts && old(stand).grid && old(search).suspect + 1 >= cfg.lostAfterWindows
      ensures search.lost <==> ContradictedRun(run.windows) == LossAt(cfg)
      ensures cfg.frozen ==> track.revision == old(track.revision)
      ensures Untrusted !in notes && Relocalized !in notes && ResumedUnverified !in notes
      ensures search.softSeed == old(search).softSeed && search.pending.None?
      ensures Vetted(old(Now()), Now(), w, notes)
    {
      hide Mid, Core, Walks, Sound, SeedRun, ContradictedRun, WatchRun, Compose, StandAfter, Kidnapped, PlacesCount,
          RestIsPlaced;
      MidSays();
      if stand.grid && w.contradicts {
        notes := Quarantine();
      } else {
        notes := Admit(w);
      }
    }

    // ── Rest ──────────────────────────────────────────────────────────────────

    /** The rest is over; a watch's frames are dropped. */
    method Wake(t: real, why: Why) returns (notes: seq<Note>)
      requires Mid() && repose.rest.Some?
      modifies this`repose, this`stand
      ensures Mid() && notes == [RestEnded(why)]
      ensures repose == old(repose).(rest := None, doubtSpent := old(repose).doubtSpent && why != ByJob)
      ensures stand == Woken(old(stand), old(repose).rest.value, t)
    {
      hide Walks, SeedRun, ContradictedRun, WatchRun;
      if repose.rest.value.watching {
        stand := stand.(frames := 0, windowOpened := None);
      }
      stand := stand.(since := if stand.still then Some(t) else None);
      repose := repose.(rest := None, doubtSpent := repose.doubtSpent && why != ByJob);
      return [RestEnded(why)];
    }

    /** The map and the pose stay. The pose becomes untrusted exactly when this watch brings
        the run of contradictions, which agreement or no judgement restarts, to the limit. */
    method WatchWindow(w: Window, t: real, odom: Pose) returns (notes: seq<Note>)
      requires Mid() && repose.rest.Some? && !search.lost
      modifies this`repose, this`stand, this`cfg, this`search, this`shadow, this`run
      ensures Mid() && run == old(run).(seeds := run.seeds, odoms := run.odoms, watches := old(run).watches
                + [VerdictOf(old(cfg), old(stand).grid, old(repose), w)])
      ensures search.untrusted <==>
                VerdictOf(old(cfg), old(stand).grid, old(repose), w) == Contradicts
                && old(repose).rest.value.contradictions + 1 >= cfg.rest.doubtAfter
      ensures search.untrusted <==> Untrusted in notes
      ensures search.untrusted ==> WatchRun(run.watches) >= cfg.rest.doubtAfter && repose.rest.None? && search.lost
      ensures !search.untrusted ==> search == old(search) && cfg == old(cfg) && shadow == old(shadow)
      ensures repose.rest.Some? ==>
                VerdictOf(old(cfg), old(stand).grid, old(repose), w) != Drifted
                && repose.rest.value.odom == old(repose).rest.value.odom
      ensures stand == old(stand).(frames := stand.frames, windowOpened := stand.windowOpened, since := stand.since)
      ensures repose.pushedFrom == old(repose).pushedFrom && SameMode(old(cfg), cfg)
      ensures shadow.Some? && shadow != old(shadow) ==> fresh(shadow.value.walker) && fresh(shadow.value.walker.track)
      ensures LostTracking !in notes && Relocalized !in notes && ResumedUnverified !in notes
                && WindowIntegrated !in notes
      ensures Distrusted(old(run).(watches := run.watches), run, old(search), search, notes)
      ensures Watched(old(Now()), Now(), w, Moment(t, odom, engaged, home), notes)
    {
      MidSays();
      var verdict := VerdictOf(cfg, stand.grid, repose, w);
      var tried := verdict.Drifted? && !IsFoundElsewhere(cfg, repose, w);
      hide *;
      if verdict.Drifted? {
        notes := DriftOff(tried, w.residual, t);
      } else {
        notes := CountWatch(verdict, w.residual, t);
      }
    }

    /** A drift: the rest ends, and the pose stays trusted. */
    method DriftOff(tried: bool, ghost residual: real, t: real) returns (notes: seq<Note>)
      requires Mid() && repose.rest.Some?
      modifies this`repose, this`stand, this`run
      ensures Mid() && run == old(run).(watches := old(run).watches + [Drifted]) && repose.rest.None?
                && repose.pushedFrom == old(repose).pushedFrom
      ensures stand == old(stand).(frames := stand.frames, windowOpened := stand.windowOpened, since := stand.since)
      ensures Untrusted !in notes && LostTracking !in notes && Relocalized !in notes && ResumedUnverified !in notes
                && WindowIntegrated !in notes
      ensures RestWatched(Drifted) in notes
      ensures WatchedSo(old(Now()), Now(), Drifted, residual, tried, t, notes)
    {
      WokenStands(stand, repose.rest.value, t);
      hide *;
      notes := Wake(t, ByDrift);
      DriftEndsTheRun(tried);
      notes := [RestWatched(Drifted)] + notes;
    }

    /** The watch is counted; one contradiction too many, and the pose is untrusted. */
    method CountWatch(verdict: Watch, residual: real, t: real) returns (notes: seq<Note>)
      requires Mid() && repose.rest.Some? && !search.lost && !search.untrusted && !verdict.Drifted?
      modifies this`repose, this`stand, this`cfg, this`search, this`shadow, this`run
      ensures Mid() && run == old(run).(seeds := run.seeds, odoms := run.odoms, watches := old(run).watches + [verdict])
      ensures search.untrusted <==>
                verdict == Contradicts && old(repose).rest.value.contradictions + 1 >= cfg.rest.doubtAfter
      ensures search.untrusted <==> Untrusted in notes
      ensures search.untrusted ==> WatchRun(run.watches) >= cfg.rest.doubtAfter && repose.rest.None? && search.lost
      ensures !search.untrusted ==> search == old(search) && cfg == old(cfg) && shadow == old(shadow)
      ensures repose.rest.Some? ==> repose.rest.value.odom == old(repose).rest.value.odom
      ensures stand == old(stand).(frames := stand.frames, windowOpened := stand.windowOpened, since := stand.since)
      ensures repose.pushedFrom == old(repose).pushedFrom && SameMode(old(cfg), cfg)
      ensures shadow.Some? && shadow != old(shadow) ==> fresh(shadow.value.walker) && fresh(shadow.value.walker.track)
      ensures LostTracking !in notes && Relocalized !in notes && ResumedUnverified !in notes
                && WindowIntegrated !in notes
      ensures Distrusted(old(run).(watches := run.watches), run, old(search), search, notes)
      ensures repose.rest == if search.untrusted then None
                else Some(Tallied(cfg, old(repose).rest.value, verdict, residual, t))
      ensures search.untrusted ==> search.booting && search.seedAgreed == 0
      ensures RestWatched(verdict) in notes
      ensures WatchedSo(old(Now()), Now(), verdict, residual, false, t, notes)
    {
      hide Mid, WatchRun;
      notes := [RestWatched(verdict)];
      Tally(verdict, residual, t);
      if verdict.Contradicts? && repose.rest.value.contradictions >= cfg.rest.doubtAfter {
        var more := Doubt(t);
        notes := notes + more;
      }
    }

    method DriftEndsTheRun(tried: bool)
      requires Mid() && repose.rest.None?
      modifies this`repose, this`run
      ensures Mid() && run == old(run).(watches := old(run).watches + [Drifted])
      ensures repose == old(repose).(windowsTried := old(repose).windowsTried || tried)
    {
      hide Walks, SeedRun, ContradictedRun, WatchRun;
      repose := repose.(windowsTried := repose.windowsTried || tried);
      run := run.(watches := run.watches + [Drifted]);
    }

    /** The rest goes on; its count of contradictions is again the run the watches end in. */
    method Tally(verdict: Watch, residual: real, t: real)
      requires Mid() && repose.rest.Some? && !verdict.Drifted?
      modifies this`repose, this`run
      ensures Mid() && run == old(run).(watches := old(run).watches + [verdict])
      ensures repose == old(repose).(rest := repose.rest) && repose.rest.Some?
                && repose.rest.value.odom == old(repose).rest.value.odom
      ensures repose.rest.value.contradictions == WatchRun(run.watches) == if verdict.Contradicts? then
                old(repose).rest.value.contradictions + 1 else 0
      ensures repose.rest == Some(Tallied(cfg, old(repose).rest.value, verdict, residual, t))
    {
      hide Walks, SeedRun, ContradictedRun, WatchRun;
      RunsGrow(run, NewSeed, false, verdict);
      var rest := repose.rest.value.(watching := false);
      rest := if verdict.Contradicts? then rest.(contradictions := rest.contradictions + 1, nextWatch := t)
              else rest.(contradictions := 0, nextWatch := t + cfg.rest.watchEveryS);
      if verdict.Agrees? {
        rest := rest.(baseline := Some(Best(rest.baseline, residual)));
      }
      repose := repose.(rest := Some(rest));
      run := run.(watches := run.watches + [verdict]);
    }

    method Doubt(t: real) returns (notes: seq<Note>)
      requires Mid() && repose.rest.Some? && !search.lost
      modifies this`repose, this`stand, this`cfg, this`search, this`shadow, this`run
      ensures Mid() && search.untrusted && search.lost && notes == [RestEnded(ByDoubt), Untrusted] && repose.rest.None?
      ensures repose.pushedFrom == old(repose).pushedFrom
                && cfg == old(cfg).(searchRadiusM := 0.0, lostGiveUpWindows := 0)
      ensures stand == old(stand).(frames := stand.frames, windowOpened := stand.windowOpened, since := stand.since)
      ensures run == old(run).(seeds := run.seeds, odoms := run.odoms)
      ensures shadow.Some? ==> fresh(shadow.value.walker) && fresh(shadow.value.walker.track)
      ensures Distrusted(old(run), run, old(search), search, notes)
      ensures search.booting && search.seedAgreed == 0
      ensures repose == old(repose).(rest := None, doubtSpent := true)
      ensures stand == Woken(old(stand), old(repose).rest.value, t)
    {
      hide Walks, SeedRun, ContradictedRun, WatchRun;
      var ended := Wake(t, ByDoubt);
      repose := repose.(doubtSpent := true);
      var last := Distrust();
      return ended + last;
    }

    /** A closed window: a watch while resting, a clue while lost, otherwise a correction
        and ink. */
    method Absorb(w: Window, t: real, odom: Pose) returns (notes: seq<Note>)
      requires Valid()
      modifies track, this`stand, this`search, this`shadow, this`cfg, this`run, this`repose
      ensures Valid() && Keeps(old(Now()), Now(), Some(w), odom, notes)
      ensures shadow.Some? && shadow != old(shadow) ==> fresh(shadow.value.walker) && fresh(shadow.value.walker.track)
      ensures Told(old(Now()), Now(), w, Moment(t, odom, engaged, home), notes)
    {
      hide Valid, Keeps, Told, Mid;
      ValidSays();
      if repose.rest.Some? {
        notes := AbsorbAtRest(w, t, odom);
      } else if w.beams < cfg.minWindowBeams {
        notes := Ignore(w, t, odom);
      } else if !search.lost {
        notes := AbsorbTracking(w, t, odom);
      } else if (search.untrusted && !engaged) || track.nSubmaps == 0 {
        notes := Ignore(w, t, odom);
      } else {
        notes := AbsorbLost(w, t, odom);
      }
    }

    lemma ValidSays()
      requires Valid()
      ensures Mid() && RestIsPlaced(cfg, search, repose, run) && RestIsStill(stand, search, repose)
    {
    }

    /** A window for nothing. */
    method Ignore(w: Window, t: real, odom: Pose) returns (notes: seq<Note>)
      requires Valid() && repose.rest.None?
      requires w.beams < cfg.minWindowBeams || (search.lost && ((search.untrusted && !engaged) || track.nSubmaps == 0))
      ensures Valid() && Keeps(old(Now()), Now(), Some(w), odom, notes)
      ensures Told(Now(), Now(), w, Moment(t, odom, engaged, home), notes)
    {
      hide Valid, Grew, VerdictOf, Watched, Vetted, Sought;
      notes := if w.beams < cfg.minWindowBeams then [WindowDiscarded] else [];
      NothingGrew(run, search, notes, SeenBy(cfg, stand.grid, search.lost, repose, Some(w), odom));
    }

    method AbsorbAtRest(w: Window, t: real, odom: Pose) returns (notes: seq<Note>)
      requires Valid() && repose.rest.Some?
      modifies this`stand, this`search, this`shadow, this`cfg, this`run, this`repose
      ensures Valid() && Keeps(old(Now()), Now(), Some(w), odom, notes)
      ensures shadow.Some? && shadow != old(shadow) ==> fresh(shadow.value.walker) && fresh(shadow.value.walker.track)
      ensures Told(old(Now()), Now(), w, Moment(t, odom, engaged, home), notes)
    {
      hide Mid, Core, Walks, Sound, SeedRun, ContradictedRun, WatchRun, VerdictOf, BootConfirmed, Grew, Distrusted,
          RestIsPlaced, PlacesCount, Watched;
      MidSays();
      ghost var seen := SeenBy(cfg, stand.grid, search.lost, repose, Some(w), odom);
      notes := WatchWindow(w, t, odom);
      DistrustGrew(old(run), run, old(search), search, notes, seen);
    }

    method AbsorbTracking(w: Window, t: real, odom: Pose) returns (notes: seq<Note>)
      requires Valid() && repose.rest.None? && !search.lost && w.beams >= cfg.minWindowBeams
      modifies track`tracked, track`lastOdom, track`revision, this`stand, this`search, this`run
      ensures Valid() && Keeps(old(Now()), Now(), Some(w), odom, notes)
      ensures Told(old(Now()), Now(), w, Moment(t, odom, engaged, home), notes)
    {
      hide Mid, Core, Walks, Sound, SeedRun, ContradictedRun, WatchRun, VerdictOf, BootConfirmed, Grew, Vetted;
      MidSays();
      notes := Vet(w);
      VettedGrew(old(run), run, old(search), search, notes, w, odom, w.contradicts && old(stand).grid);
    }

    method AbsorbLost(w: Window, t: real, odom: Pose) returns (notes: seq<Note>)
      requires Valid() && repose.rest.None? && search.lost && w.beams >= cfg.minWindowBeams
      requires !((search.untrusted && !engaged) || track.nSubmaps == 0)
      modifies track, this`stand, this`search, this`shadow, this`cfg, this`run
      ensures Valid() && Keeps(old(Now()), Now(), Some(w), odom, notes)
      ensures shadow == old(shadow) || shadow == None
      ensures Told(old(Now()), Now(), w, Moment(t, odom, engaged, home), notes)
    {
      hide Mid, Core, Walks, Sound, SeedRun, ContradictedRun, WatchRun, VerdictOf, BootConfirmed, Grew, Sought;
      MidSays();
      notes := Seek(w, odom);
    }

    /** Begins a rest, or ends one, every tick. */
    method RestStep(t: real, sample: Sample) returns (notes: seq<Note>)
      requires Mid()
      modifies this`repose, this`stand, this`cfg, this`search, this`shadow, this`run
      ensures Valid()
      ensures stand == old(stand).(frames := stand.frames, windowOpened := stand.windowOpened, since := stand.since)
      ensures Untrusted !in notes ==> shadow == old(shadow)
      ensures shadow.Some? && shadow != old(shadow) ==> fresh(shadow.value.walker) && fresh(shadow.value.walker.track)
      ensures old(Walks()) ==> notes == []
      ensures RestKeeps(old(Now()), Now(), sample, engaged, notes)
      ensures Rested(old(Now()), Now(), t, engaged, notes)
    {
      hide Sound, SeedRun, ContradictedRun, WatchRun, IsPush, Grew;
      MidSays();
      assert Walks() ==> !cfg.rest.enabled && repose.rest.None? && repose.pushedFrom.None?;
      hide Walks;
      notes := PushStep(sample);
      if notes != [] {
        DistrustGrew(old(run), run, old(search), search, notes, Quiet(sample.odom));
        return;
      }
      NothingGrew(run, search, [], Quiet(sample.odom));
      if repose.rest.Some? {
        notes := RestOrWake(t, sample);
        DistrustGrew(old(run), run, old(search), search, notes, Quiet(sample.odom));
      } else if cfg.rest.enabled && stand.still && !engaged && !search.lost && stand.settling.None?
          && stand.since.Some? && t - stand.since.value >= cfg.rest.afterS {
        BeginRest(t, sample.odom);
        notes := [RestBegan];
        RestGrew(old(run), run, search, notes, sample.odom);
      }
    }

    /** Where a push was noted, the pose is distrusted exactly when it was still tracked, no
        job or walk moved the body, and odometry is past the push from the rest's start. */
    method PushStep(sample: Sample) returns (notes: seq<Note>)
      requires Mid()
      modifies this`repose, this`cfg, this`search, this`shadow, this`run
      ensures Mid() && (notes == [] || notes == [Untrusted])
      ensures notes == [Untrusted] <==>
                old(repose).pushedFrom.Some? && !(engaged || sample.moving || old(search).lost)
                && IsPush(old(run).restBegan, sample.odom)
      ensures notes == [Untrusted] ==> search.untrusted && search.lost && SameMode(old(cfg), cfg)
      ensures notes == [] ==> search == old(search) && cfg == old(cfg) && shadow == old(shadow) && run == old(run)
      ensures run == old(run).(seeds := run.seeds, odoms := run.odoms) && repose.rest == old(repose).rest
      ensures repose.pushedFrom == old(repose).pushedFrom || repose.pushedFrom.None?
      ensures notes == [] && stand.still ==> repose.pushedFrom.None?
      ensures notes == [Untrusted] ==> repose.rest.None?
      ensures shadow.Some? && shadow != old(shadow) ==> fresh(shadow.value.walker) && fresh(shadow.value.walker.track)
      ensures Distrusted(old(run), run, old(search), search, notes)
      ensures notes == [Untrusted] ==> search.booting
    {
      hide Mid, Core, Walks, Sound, SeedRun, ContradictedRun, WatchRun, IsPush;
      MidSays();
      notes := [];
      if repose.pushedFrom.Some? {
        var from := repose.pushedFrom.value;
        var walked := engaged || sample.moving || search.lost;
        var carried := !walked && IsPush(from, sample.odom);
        if carried || walked || stand.still {
          DropPush();
        }
        if carried {
          notes := Distrust();
        }
      }
    }

    method DropPush()
      requires Mid()
      modifies this`repose
      ensures Mid() && repose == old(repose).(pushedFrom := None)
    {
      hide Walks, SeedRun, ContradictedRun, WatchRun;
      repose := repose.(pushedFrom := None);
    }

    /** No frames, no watches and no baseline; the first watch may start now. */
    method BeginRest(t: real, odom: Pose)
      requires Mid() && cfg.rest.enabled && !search.lost && repose.rest.None? && repose.pushedFrom.None?
      modifies this`repose, this`stand, this`run
      ensures Mid() && repose == old(repose).(rest := Some(Rest(t, t, false, 0, None, odom)))
      ensures run == old(run).(watches := [], restBegan := odom)
                && stand == old(stand).(frames := 0, windowOpened := None)
    {
      hide Walks, SeedRun, ContradictedRun;
      stand := stand.(frames := 0, windowOpened := None);
      repose := repose.(rest := Some(Rest(t, t, false, 0, None, odom)));
      run := run.(watches := [], restBegan := odom);
    }

    /** A rest under way ends with a loss, a job, a push or a walk. */
    method RestOrWake(t: real, sample: Sample) returns (notes: seq<Note>)
      requires Mid() && repose.rest.Some?
      modifies this`repose, this`stand, this`cfg, this`search, this`shadow, this`run
      ensures Valid() && SameMode(old(cfg), cfg)
      ensures stand == old(stand).(frames := stand.frames, windowOpened := stand.windowOpened, since := stand.since)
      ensures Untrusted in notes <==>
                old(search).lost || (!engaged && !stand.still && !sample.moving
                && IsPush(old(run).restBegan, sample.odom))
      ensures Untrusted in notes ==> search.untrusted && search.lost
      ensures Untrusted !in notes ==> search == old(search) && cfg == old(cfg) && shadow == old(shadow)
      ensures repose.rest.Some? <==> !old(search).lost && !engaged && stand.still
      ensures run == old(run).(seeds := run.seeds, odoms := run.odoms)
      ensures LostTracking !in notes && Relocalized !in notes && ResumedUnverified !in notes
      ensures shadow.Some? && shadow != old(shadow) ==> fresh(shadow.value.walker) && fresh(shadow.value.walker.track)
      ensures Distrusted(old(run), run, old(search), search, notes)
      ensures RestBegan !in notes
      ensures Untrusted in notes ==> search.booting
    {
      hide Mid, Core, Walks, Sound, SeedRun, ContradictedRun, WatchRun, IsPush;
      MidSays();
      if !search.lost && !engaged && stand.still {
        return [];
      }
      var why := if search.lost then ByLoss else if engaged then ByJob else if !sample.moving then ByPush else ByMotion;
      var pushed := why.ByPush? && IsPush(repose.rest.value.odom, sample.odom);
      var from := repose.rest.value.odom;
      notes := Wake(t, why);
      if why.ByLoss? || pushed {
        var more := Distrust();
        notes := notes + more;
      } else if why.ByPush? {
        NotePush(from);
      }
    }

    method NotePush(from: Pose)
      requires Mid() && repose.rest.None? && cfg.rest.enabled && from == run.restBegan
      modifies this`repose
      ensures Mid() && repose == old(repose).(pushedFrom := Some(from))
    {
      hide Walks, SeedRun, ContradictedRun, WatchRun;
      repose := repose.(pushedFrom := Some(from));
    }

    // ── The calls a host makes ────────────────────────────────────────────────

    /** Sets whether a job is asking. */
    method SetEngaged(on: bool)
      requires Valid()
      modifies this`engaged
      ensures Valid() && engaged == on
    {
      engaged := on;
    }

    /** Freezes the map, or thaws it. */
    method SetFrozen(on: bool)
      requires Valid()
      modifies this`cfg
      ensures Valid() && cfg == old(cfg).(frozen := on)
    {
      hide Walks, CountersCount;
      cfg := cfg.(frozen := on);
    }

    /** A depth frame. Kept for a window, inked (in continuous mode), or dropped; a shadow
        sees it too. */
    method Frame(t: real) returns (kept: bool)
      requires Valid()
      modifies this`stand, this`repose, track`revision, if shadow.Some? then
                {shadow.value.walker, shadow.value.walker.track} else {}
      ensures Valid() && (old(Walks()) ==> Walks())
      ensures search.lost || cfg.frozen || old(repose).rest.Some? ==> track.revision == old(track.revision)
      ensures search.untrusted && !engaged ==> !kept && stand == old(stand) && repose == old(repose)
      ensures kept && (search.lost || !cfg.continuous) ==> stand.still && stand.frames > 0
      decreases shadow.Some?
    {
      hide Sound;
      if search.untrusted && !engaged {
        return false;
      }
      if search.lost && shadow.Some? {
        shadow.value.walker.WalkerIsValid();
        var ignored := shadow.value.walker.Frame(t);
      }
      if repose.rest.Some? && !repose.rest.value.watching {
        if t < repose.rest.value.nextWatch || !stand.still {
          return false;
        }
        StartWatch();
      }
      if cfg.continuous && !search.lost && repose.rest.None? {
        if !cfg.frozen {
          track.Integrate();
        }
        return true;
      }
      if !stand.still {
        return false;
      }
      Push(t);
      return true;
    }

    method StartWatch()
      requires Valid() && repose.rest.Some?
      modifies this`stand, this`repose
      ensures Valid() && (old(Walks()) ==> Walks()) && repose.rest.Some?
                && stand == old(stand).(frames := 0, windowOpened := None)
    {
      hide SeedRun, ContradictedRun, WatchRun;
      repose := repose.(rest := Some(repose.rest.value.(watching := true)));
      stand := stand.(frames := 0, windowOpened := None);
    }

    method Push(t: real)
      requires Valid()
      modifies this`stand
      ensures Valid() && (old(Walks()) ==> Walks()) && stand.still == old(stand).still
                && stand.frames == old(stand).frames + 1
    {
      hide SeedRun, ContradictedRun, WatchRun;
      stand := stand.(frames := stand.frames + 1, windowOpened := if stand.frames == 0 then Some(t)
          else stand.windowOpened);
    }

    lemma WalkerIsValid()
      requires Walks()
      ensures Valid() && shadow.None? && !search.untrusted && repose.rest.None?
    {
    }

    lemma WalksIsNotBooting()
      requires Valid()
      ensures Walks() <==> !cfg.rest.enabled && !search.booting
      ensures Walks() ==> repose.rest.None? && repose.pushedFrom.None?
    {
    }

    /** The shadow walks along; where its map is found on the saved one, the pose there,
        carried by odometry to now, is the new seed. */
    method ShadowStep(t: real, sample: Sample, a: Answers, sa: Answers) returns (notes: seq<Note>)
      requires Valid()
      modifies this`search, this`run, this`shadow, if shadow.Some? then
                {shadow.value.walker, shadow.value.walker.track} else {}
      ensures Valid() && (old(Walks()) ==> Walks()) && SameLoss(old(search), search)
      ensures search.pending == old(search).pending && search.suspect == old(search).suspect
      ensures run == old(run).(seeds := run.seeds) && (notes == [] || notes == [ShadowSeed])
      ensures notes == [] ==> search == old(search) && run == old(run)
      ensures shadow.Some? <==> old(shadow).Some?
      ensures shadow.Some? ==> shadow.value.walker == old(shadow).value.walker
      ensures (search == old(search) && run == old(run)) || search.seedAgreed == 0
      ensures Grew(old(run), run, old(search), search, notes, Quiet(sample.odom))
      ensures notes == [ShadowSeed] <==> old(search).lost && old(shadow).Some? && a.shadowFit.Some?
      ensures notes == [ShadowSeed] ==>
                && SeededFromMap(old(Now()), Now()) && shadow.Some? && shadow.value.starts.Some?
                && var (fresh0, main0) := shadow.value.starts.value;
                   search.softSeed.value.0 == Compose(a.shadowFit.value, Compose(fresh0, Between(main0, track.tracked)))
      ensures old(search).lost && old(shadow).Some? ==>
                && shadow.value.starts.Some? && (old(shadow).value.starts.Some? ==> shadow == old(shadow))
                && (old(shadow).value.starts.None? ==> shadow.value.starts.value.1 == track.tracked)
      decreases shadow.Some?, 0
    {
      hide Sound, Grew, Observes, HasStory, Compose, Between, SeededFromMap;
      NothingGrew(run, search, [], Quiet(sample.odom));
      notes := [];
      if !search.lost || shadow.None? {
        return;
      }
      var walker := shadow.value.walker;
      walker.WalkerIsValid();
      var ignored := walker.Observe(t, sample, sa, sa);
      if shadow.value.starts.None? {
        shadow := Some(Shadow(walker, Some((walker.track.tracked, track.tracked))));
      }
      if a.shadowFit.Some? {
        var (fresh0, main0) := shadow.value.starts.value;
        var pose := Compose(a.shadowFit.value, Compose(fresh0, Between(main0, track.tracked)));
        ghost var mid := Now();
        SeedFromMap(pose);
        assert mid == old(Now());
        notes := [ShadowSeed];
        NewSeedGrew(old(run), run, old(search), search, notes, Quiet(sample.odom));
      }
    }

    method SeedFromMap(pose: Pose)
      requires Valid() && search.lost
      modifies this`search, this`run
      ensures Valid() && SameLoss(old(search), search) && search.pending == old(search).pending
                && search.suspect == old(search).suspect
      ensures search.softSeed == Some((pose, track.tracked)) && search.seedFromMap && search.seedAgreed == 0
      ensures run == old(run).(seeds := old(run).seeds + [NewSeed])
      ensures SeededFromMap(old(Now()), Now())
    {
      hide Walks, SeedRun, ContradictedRun, WatchRun;
      RunsGrow(run, NewSeed, false, Agrees);
      search := search.(softSeed := Some((pose, track.tracked)), seedAgreed := 0, seedFromMap := true);
      run := run.(seeds := run.seeds + [NewSeed]);
    }

    /** Continuous mode's correction: the watchdog's map is drawn anew, the pose moved. */
    method CorrectWhileWalking(walked: Walked) returns (notes: seq<Note>)
      requires Valid()
      modifies this`stand, track`tracked, track`lastOdom
      ensures Valid() && (old(Walks()) ==> Walks()) && stand == old(stand).(grid := stand.grid)
                && (notes == [] || notes == [TrackingCorrected])
      ensures search.lost ==> stand == old(stand) && track.tracked == old(track.tracked)
      ensures stand.grid == old(HasGrid(walked))
      ensures var walking := cfg.continuous && !search.lost && !walked.NotDue?;
              && stand == old(stand).(grid := if walking then track.nSubmaps > 0 else old(stand).grid)
              && if walking && walked.Moved? && cfg.trackingEnabled && track.nSubmaps > 0 then
                   track.tracked == Compose(old(track.tracked), walked.delta) && track.lastOdom == None
                 else track.tracked == old(track.tracked) && track.lastOdom == old(track.lastOdom)
    {
      hide BootIsKept, CountersCount, RestIsPlaced, Compose;
      notes := [];
      if !cfg.continuous || search.lost || walked.NotDue? {
        return;
      }
      stand := stand.(grid := track.nSubmaps > 0);
      if walked.Moved? && cfg.trackingEnabled && stand.grid {
        track.SetTracked(Compose(track.tracked, walked.delta));
        notes := [TrackingCorrected];
      }
    }

    /** The window is absorbed when the stand is over, or when it has been open for the time
        a watch or a stand's window gets. */
    method CloseWindow(t: real, still: bool, window: Option<Window>, odom: Pose) returns (notes: seq<Note>,
        absorbed: bool)
      requires Valid()
      modifies track, this`stand, this`search, this`shadow, this`cfg, this`run, this`repose
      ensures Valid() && (old(Walks()) ==> Walks()) && Keeps(old(Now()), Now(), window, odom, notes)
      ensures shadow.Some? && shadow != old(shadow) ==> fresh(shadow.value.walker) && fresh(shadow.value.walker.track)
      ensures absorbed <==> IsDue(old(Now()), t, still) && window.Some?
      ensures Heard(old(Now()), Now(), still, window, Moment(t, odom, engaged, home), notes)
    {
      hide Valid, Mid, Core, Sound, Keeps, Walks, Told;
      WalksIsNotBooting();
      notes, absorbed := [], false;
      var standEnded := stand.still && !still;
      var flushS := if repose.rest.Some? then cfg.rest.watchWindowS else cfg.flushAfterS;
      var ripe := stand.windowOpened.Some? && t - stand.windowOpened.value >= flushS;
      if (standEnded || ripe) && stand.frames > 0 {
        DropFrames();
        if window.Some? {
          absorbed := true;
          notes := Absorb(window.value, t, odom);
        }
      }
      ghost var open := old(Now()).(stand := old(stand).(frames := 0, windowOpened := None));
      KeepsWithoutFrames(old(Now()), open, Now(), window, odom, notes);
      StillNotBooting(old(Now()), Now(), window, odom, notes);
      WalksIsNotBooting();
    }

    method DropFrames()
      requires Valid()
      modifies this`stand
      ensures Valid() && (old(Walks()) ==> Walks()) && stand == old(stand).(frames := 0, windowOpened := None)
    {
      hide BootIsKept, CountersCount, RestIsPlaced;
      stand := stand.(frames := 0, windowOpened := None);
    }

    /** The stand's bookkeeping: when one ends, no window is open; when one begins, the map
        its windows are judged against is drawn. */
    method NewStand(t: real, still: bool)
      requires Valid()
      modifies this`stand, this`repose
      ensures Mid() && (old(Walks()) ==> Walks())
      ensures stand.still == still && stand.settling == old(stand).settling && repose.rest == old(repose).rest
      ensures repose.pushedFrom == old(repose).pushedFrom
      ensures repose.rest.Some? ==> !search.lost
      ensures stand == StandNow(old(Now()), t, still)
    {
      hide BootIsKept, SeedRun, ContradictedRun, WatchRun;
      if stand.still && !still {
        stand := stand.(windowOpened := None);
      }
      stand := stand.(grid := if still && !stand.still then track.nSubmaps > 0 else stand.grid, still := still,
                      since := if still then (if stand.since.Some? then stand.since else Some(t)) else None);
      repose := repose.(doubtSpent := repose.doubtSpent && still, windowsTried := repose.windowsTried && still);
    }

    /** Lost exactly when the sample sits or has fallen, if it was not lost before. */
    method Suspect(sample: Sample) returns (notes: seq<Note>)
      requires Mid() && (repose.rest.Some? ==> !search.lost)
      modifies this`search, this`run
      ensures Mid() && (old(Walks()) ==> Walks())
      ensures old(search).lost ==> SameMind(old(search), search) && run == old(run)
      ensures !old(search).lost ==>
                (search.lost <==> sample.sitting || sample.fallen) && !search.untrusted && !search.booting
      ensures run == old(run).(seeds := run.seeds)
      ensures notes == [] || notes == [SuspectAfterFall] || notes == [SuspectAfterSit]
      ensures Grew(old(run), run, old(search), search, notes, Quiet(sample.odom))
      ensures search == Suspected(old(search), sample, track.tracked)
    {
      hide SeedRun, ContradictedRun, WatchRun;
      notes := [];
      if sample.fallen {
        search := search.(afterFall := true);
      }
      if (sample.sitting || sample.fallen) && !search.lost {
        ArmSuspicion();
        notes := [if sample.fallen then SuspectAfterFall else SuspectAfterSit];
        NewSeedGrew(old(run), run, old(search), search, notes, Quiet(sample.odom));
      } else {
        SameMindGrew(run, old(search), search, sample.odom);
      }
    }

    /** The pipeline ages its submaps, unless the pose is a guess or the map is frozen; a
        closure redraws the stand's map and drops the frames taken before it. */
    method TickStep(tick: TickAnswer) returns (notes: seq<Note>)
      requires Valid()
      modifies track, this`stand
      ensures Valid() && (old(Walks()) ==> Walks()) && stand.still == old(stand).still
      ensures search.lost || cfg.frozen ==> track.revision == old(track.revision) && track.tracked == old(track.tracked)
      ensures notes == [] || notes == [LoopClosed]
      ensures Ticked(old(Now()), Now(), tick, notes)
    {
      hide BootIsKept, CountersCount, RestIsPlaced;
      notes := [];
      if search.lost {
        return;
      }
      var loopsBefore := track.nLoops;
      if !cfg.frozen {
        track.Tick(tick);
      }
      if track.nLoops > loopsBefore {
        notes := [LoopClosed];
        if stand.still {
          stand := stand.(grid := track.nSubmaps > 0);
        }
        if stand.frames > 0 {
          stand := stand.(frames := 0, windowOpened := None);
        }
      }
    }

    /** The stand, the suspicion and the rest, once the window is dealt with. */
    method AfterWindow(t: real, still: bool, sample: Sample) returns (notes: seq<Note>)
      requires Valid()
      modifies this`stand, this`search, this`shadow, this`cfg, this`run, this`repose
      ensures Valid() && (old(Walks()) ==> Walks())
      ensures shadow.Some? && shadow != old(shadow) ==> fresh(shadow.value.walker) && fresh(shadow.value.walker.track)
      ensures Stirs(old(Now()), Now(), sample, engaged, notes)
      ensures Followed(old(Now()), Now(), t, still, sample, engaged, notes)
    {
      hide Valid, Mid, Core, Sound, Walks, Grew, Followed, Rested, Suspected, StandNow, Stirs, RestKeeps, RestIsPlaced;
      WalksIsNotBooting();
      ghost var stood, suspected;
      var first;
      first, stood, suspected := StandAndSuspect(t, still, sample);
      var more := RestStep(t, sample);
      notes := first + more;
      FollowedInSteps(old(Now()), stood, suspected, Now(), t, still, sample, engaged, first, more);
      StirredInSteps(old(Now()), stood, suspected, Now(), t, still, sample, engaged, first, more);
      StirredAwake(old(Now()), Now(), sample, engaged, notes);
      WalksIsNotBooting();
    }

    method StandAndSuspect(t: real, still: bool, sample: Sample) returns (notes: seq<Note>, ghost stood: View,
        ghost suspected: View)
      requires Valid()
      modifies this`stand, this`search, this`repose, this`run
      ensures Mid() && suspected == Now() && (old(repose).rest.Some? ==> !old(search).lost)
      ensures stood == old(Now()).(stand := StandNow(old(Now()), t, still), repose := stood.repose)
                && stood.repose.rest == old(repose).rest && stood.repose.pushedFrom == old(repose).pushedFrom
      ensures suspected == stood.(search := Suspected(old(search), sample, track.tracked), run := suspected.run)
                && suspected.run == old(run).(seeds := suspected.run.seeds)
      ensures notes == [] || notes == [SuspectAfterFall] || notes == [SuspectAfterSit]
      ensures Grew(old(run), run, old(search), search, notes, Quiet(sample.odom))
    {
      hide Mid, Core, Sound, Walks, Grew, Suspected, StandNow;
      NewStand(t, still);
      stood := Now();
      notes := Suspect(sample);
      suspected := Now();
    }

    /** One tick of the control loop. */
    method Observe(t: real, sample: Sample, a: Answers, sa: Answers) returns (notes: seq<Note>)
      requires Valid()
      modifies track, this`stand, this`search, this`shadow, this`cfg, this`run, this`repose
      modifies if shadow.Some? then {shadow.value.walker, shadow.value.walker.track} else {}
      ensures Valid() && (old(Walks()) ==> Walks())
      ensures Observes(old(Now()), Now(), sample, a, engaged, notes)
      ensures HasStory(old(Now()), Now(), t, sample, a,
                old(search).lost && old(shadow).Some? && a.shadowFit.Some?, engaged, home, notes)
      decreases shadow.Some?, 2
    {
      hide Grew, Mid, Core, Sound, Walks, RestIsPlaced, Prepared, Heard, Followed, Ticked, Advances, Observes;
      ValidSays();
      MidSays();
      notes := Prepare(t, sample, a, sa);
      ghost var (before, first) := (Now(), notes);
      var more;
      ghost var after, told, stirred;
      more, after, told, stirred := Advance(t, sample, a);
      notes := notes + more;
      ghost var later := Now();
      var last := TickStep(a.tick);
      notes := notes + last;
      ObservedInSteps(old(Now()), before, later, Now(), sample, a,
          old(search).lost && old(shadow).Some? && a.shadowFit.Some?, engaged, first, more, last);
      assert notes == first + told + stirred + last;
      assert Tells(Story(before, after, later, first, told, stirred, last), old(Now()), Now(), t, sample, a,
          old(search).lost && old(shadow).Some? && a.shadowFit.Some?, engaged, home, notes);
    }

    /** The shadow first, then odometry. */
    method Prepare(t: real, sample: Sample, a: Answers, sa: Answers) returns (notes: seq<Note>)
      requires Valid()
      modifies this`stand, this`search, this`run, this`shadow, track`tracked, track`lastOdom
      modifies if shadow.Some? then {shadow.value.walker, shadow.value.walker.track} else {}
      ensures Valid() && (old(Walks()) ==> Walks()) && SameLoss(old(search), search)
      ensures search.pending == old(search).pending && run == old(run).(seeds := run.seeds)
      ensures Relocalized !in notes && ResumedUnverified !in notes && Untrusted !in notes && LostTracking !in notes
      ensures search.lost ==> track.tracked == WithStep(old(track.tracked), old(track.lastOdom), sample.odom)
      ensures (search == old(search) && run == old(run)) || search.seedAgreed == 0
      ensures Grew(old(run), run, old(search), search, notes, Quiet(sample.odom)) && RestBegan !in notes
      ensures stand.grid == old(HasGrid(a.walked))
      ensures Prepared(old(Now()), Now(), sample, a.walked,
                       old(search).lost && old(shadow).Some? && a.shadowFit.Some?, notes)
      decreases shadow.Some?, 1
    {
      hide Grew, Core, Sound, SeedRun, WatchRun, ContradictedRun, Walks;
      notes := ShadowStep(t, sample, a, sa);
      ghost var first := notes;
      var more := Carry(sample.odom, a.walked);
      notes := notes + more;
      NothingGrew(run, search, more, Quiet(sample.odom));
      GrewTwice(old(run), run, run, old(search), search, search, first, more, Quiet(sample.odom), Quiet(sample.odom),
          Quiet(sample.odom));
    }

    /** The window, the stand, the suspicion and the rest. */
    method Advance(t: real, sample: Sample, a: Answers) returns (notes: seq<Note>, ghost after: View,
        ghost told: seq<Note>, ghost more: seq<Note>)
      requires Valid()
      modifies track, this`stand, this`search, this`shadow, this`cfg, this`run, this`repose
      ensures Valid() && (old(Walks()) ==> Walks())
      ensures Advances(old(Now()), Now(), a.window, sample, engaged, notes)
      ensures var still := StandsStill(sample, a.steady);
              && Heard(old(Now()), after, still, a.window, Moment(t, sample.odom, engaged, home), told)
              && Followed(after, Now(), t, still, sample, engaged, more) && notes == told + more
    {
      hide Grew, Mid, Core, Sound, Walks, RestIsPlaced, Heard, Keeps, Stirs, Advances;
      ValidSays();
      MidSays();
      var still := !sample.moving && !sample.sitting && !sample.fallen && a.steady;
      var absorbed;
      notes, absorbed := CloseWindow(t, still, a.window, sample.odom);
      after, told := Now(), notes;
      var stirred := AfterWindow(t, still, sample);
      more := stirred;
      notes := notes + stirred;
      AdvancedInSteps(old(Now()), after, Now(), a.window, sample, engaged, told, more);
    }

    /** Whether a window of this call has a map to be judged against. */
    predicate HasGrid(walked: Walked)
      reads this, track
    {
      if cfg.continuous && !search.lost && !walked.NotDue? then track.nSubmaps > 0 else stand.grid
    }

    /** Odometry first, then a walking duck's correction. */
    method Carry(odom: Pose, walked: Walked) returns (notes: seq<Note>)
      requires Valid()
      modifies this`stand, track`tracked, track`lastOdom
      ensures Valid() && (old(Walks()) ==> Walks()) && (notes == [] || notes == [TrackingCorrected])
      ensures stand.still == old(stand).still
      ensures search.lost ==> track.tracked == WithStep(old(track.tracked), old(track.lastOdom), odom)
      ensures stand.grid == old(HasGrid(walked))
      ensures Prepared(old(Now()), Now(), Sample(odom, false, false, false), walked, false, notes)
    {
      hide Sound, SeedRun, ContradictedRun, WatchRun;
      track.ObserveOdom(odom);
      notes := CorrectWhileWalking(walked);
    }
  }
}
