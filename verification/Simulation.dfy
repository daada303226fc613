/** The pipeline under the mapper, `maploc/src/mapper.rs` over `maploc/src/pipeline.rs`:
    every call the mapper makes of `Pipeline.Slam` is a call of its stand-in
    `Mapping.Track`, with some answer. What is proved of the mapper holds for every answer,
    and so over the pipeline itself. */
module Simulation {
  import opened Grid
  import opened Poses
  import opened Submaps
  import opened Pipeline
  import opened LoopCloser
  import opened Optimizer
  import opened Mapping

  /** The stand-in and the pipeline agree on everything the mapper can see. */
  ghost predicate Mirrors(t: Track, s: Slam)
    reads t, s, s.mgr
  {
    t.tracked == s.tracked && t.lastOdom == s.lastOdom && t.nSubmaps == s.mgr.NTotal() && t.nLoops == s.nLoops
  }

  /** Neither the graph nor a submap changes while `revision` stands. */
  method SetTracked(s: Slam, t: Track, pose: Pose)
    requires s.Wired() && Mirrors(t, s)
    modifies s`tracked, s`lastOdom, s`jumped, t`tracked, t`lastOdom
    ensures s.Wired() && Mirrors(t, s)
  {
    hide Slam.Wired;
    s.SetTracked(pose);
    t.SetTracked(pose);
  }

  method ObserveOdom(s: Slam, t: Track, odom: Pose)
    requires s.Wired() && Mirrors(t, s)
    modifies s`tracked, s`lastOdom, t`tracked, t`lastOdom
    ensures s.Wired() && Mirrors(t, s)
  {
    hide Slam.Wired, Carried;
    s.ObserveOdom(odom);
    t.ObserveOdom(odom);
  }

  /** Whatever a tick of the pipeline comes to is an answer the stand-in may get. */
  method Tick(s: Slam, t: Track, nowS: real, matcher: Matcher, trig: Trig) returns (answer: TickAnswer)
    requires s.Wired() && Mirrors(t, s)
    modifies s, s.mgr, s.graph, s.mgr.All()`anchorPose, t
    ensures s.Wired() && Mirrors(t, s) && t.revision == old(t.revision) + 1
    ensures answer.opens <==> s.mgr.NTotal() > old(s.mgr.NTotal())
    ensures answer.loops == s.nLoops - old(s.nLoops)
  {
    hide Slam.Wired, SubmapManager.ShouldSwitch;
    var before := s.nLoops;
    var opens := s.Tick(nowS, matcher, trig);
    answer := TickAnswer(opens, s.nLoops - before, s.tracked);
    t.Tick(answer);
    assert s.mgr.current.Some? && s.mgr.NTotal() == old(s.mgr.NTotal()) + if opens then 1 else 0;
    assert old(s.mgr.NTotal()) == 0 ==> opens;
  }

  /** A switch asked for changes nothing the mapper can see; what it brings is the answer
      of the next tick. */
  method RequestSubmapSwitch(s: Slam, t: Track)
    requires s.Wired() && Mirrors(t, s)
    modifies s.mgr`switchRequested
    ensures s.Wired() && Mirrors(t, s) && s.mgr.switchRequested
  {
    hide Slam.Wired;
    s.RequestSubmapSwitch();
  }

  method Integrate(s: Slam, t: Track, body: Option<Pose>, scan: Scan, passes: nat)
    requires s.Wired() && Mirrors(t, s)
    modifies s`dirty, t`revision
    modifies if s.mgr.current.Some? then {s.mgr.current.value} else {}
    modifies if s.mgr.current.Some? then {s.mgr.current.value.grid} else {}
    modifies if s.mgr.current.Some? then {s.mgr.current.value.grid.log} else {}
    ensures s.Wired() && Mirrors(t, s) && t.revision == old(t.revision) + 1
  {
    hide Slam.Wired;
    s.IntegrateWeighted(body, scan, passes);
    t.Integrate();
  }
}
