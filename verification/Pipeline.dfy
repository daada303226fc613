/** What ties the submaps to the graph, `maploc/src/pipeline.rs`: a node for every submap,
    a link for every switch, an edge for every closure, and the pose tracked meanwhile. */
module Pipeline {
  import opened Reals
  import opened Grid
  import opened Poses
  import LinearAlgebra
  import NormalEquations
  import opened Submaps
  import opened PoseGraphs
  import opened Optimizer
  import opened LoopCloser

  datatype SlamConfig = SlamConfig(
    submap: SubmapManagerConfig, loops: LoopCloserConfig, optimizer: OptimizerConfig, odomSigmaXy: real,
        odomSigmaYaw: real)
  {
    predicate Valid()
    {
      && submap.grid.cell > 0.0
      && odomSigmaXy > 0.0 && odomSigmaYaw > 0.0 && loops.edgeSigmaXy > 0.0 && loops.edgeSigmaYaw > 0.0
    }
  }

  /** How far a pose may be set before it counts as a jump: a distance, or a turn of 0.35
      rad, of which this is the cosine. */
  const RELOCALIZED_JUMP_M: real := 0.5
  const RELOCALIZED_JUMP_COS: real := 0.9393727128473789
  const RELOCALIZED_SIGMA_XY: real := 0.30
  const RELOCALIZED_SIGMA_YAW: real := 0.35

  // ── The wiring ──────────────────────────────────────────────────────────────

  /** Submaps, nodes and the map between them agree index by index, every node stands
      at its submap's anchor, and only the first node is held. */
  ghost predicate Aligned(submaps: seq<Submap>, nodes: seq<PoseNode>, nodeForSubmap: seq<nat>)
    reads submaps
  {
    && |submaps| == |nodes| == |nodeForSubmap|
    && (forall i {:trigger nodeForSubmap[i]} :: 0 <= i < |nodes| ==> nodeForSubmap[i] == i)
    && (forall i {:trigger nodes[i]} :: 0 <= i < |nodes| ==> nodes[i].submapIdx == i && (nodes[i].held <==> i == 0))
    && (forall i {:trigger submaps[i]} {:trigger nodes[i]} ::
       0 <= i < |nodes| ==> submaps[i].anchorPose == nodes[i].pose)
  }

  /** ... except that the last submap was just replaced by one anchored elsewhere. */
  ghost predicate AlignedButLast(submaps: seq<Submap>, nodes: seq<PoseNode>, nodeForSubmap: seq<nat>)
    reads submaps
  {
    && |submaps| == |nodes| == |nodeForSubmap| > 0
    && (forall i {:trigger nodeForSubmap[i]} :: 0 <= i < |nodes| ==> nodeForSubmap[i] == i)
    && (forall i {:trigger nodes[i]} :: 0 <= i < |nodes| ==> nodes[i].submapIdx == i && (nodes[i].held <==> i == 0))
    && (forall i {:trigger submaps[i]} {:trigger nodes[i]} ::
       0 <= i < |nodes| - 1 ==> submaps[i].anchorPose == nodes[i].pose)
  }

  predicate IsLink(e: PoseEdge, n: nat)
  {
    e.to == e.from + 1 < n
  }

  predicate IsClosure(e: PoseEdge, n: nat, gap: nat)
  {
    e.from + gap < e.to < n
  }

  /** Every consecutive pair of nodes is linked, and every other edge is a closure over
      more than `gap` submaps. */
  ghost predicate Chained(edges: seq<PoseEdge>, n: nat, gap: nat)
  {
    && (forall k {:trigger edges[k]} :: 0 <= k < |edges| ==> IsLink(edges[k], n) || IsClosure(edges[k], n, gap))
    && (forall i: nat {:trigger Linked(edges, i)} :: i + 1 < n ==> Linked(edges, i))
  }

  /** ... and no edge counts negatively. */
  ghost predicate Joined(edges: seq<PoseEdge>, n: nat, gap: nat)
  {
    Chained(edges, n, gap) && AllInformative(edges)
  }

  ghost predicate Linked(edges: seq<PoseEdge>, i: nat)
  {
    exists k :: 0 <= k < |edges| && edges[k].from == i && edges[k].to == i + 1
  }

  /** `e` is an edge into the last of `n` nodes from the one before. */
  predicate LeadsIn(edges: seq<PoseEdge>, n: nat, e: nat)
  {
    e < |edges| && edges[e].to == edges[e].from + 1 == n - 1
  }

  // ── How sure the edges are ──────────────────────────────────────────────────

  /** The information of these sigmas counts along every direction. */
  function Informs(sigmaXy: real, sigmaYaw: real): (information: Mat3)
    requires sigmaXy > 0.0 && sigmaYaw > 0.0
    ensures LinearAlgebra.PositiveSemidefinite(information)
  {
    NonZeroSquare(sigmaXy);
    NonZeroSquare(sigmaYaw);
    InformationIsPositive(sigmaXy, sigmaYaw);
    InformationFromSigmas(sigmaXy, sigmaYaw)
  }

  /** Residuals cost by the square, in sigmas. */
  lemma SigmasCostTheirSquares(sigmaXy: real, sigmaYaw: real, p: real, q: real, r: real)
    requires sigmaXy > 0.0 && sigmaYaw > 0.0
    ensures LinearAlgebra.Form(Informs(sigmaXy, sigmaYaw),
              LinearAlgebra.Vec3(p * sigmaXy, q * sigmaXy, r * sigmaYaw)) == p * p + q * q + r * r
  {
    NonZeroSquare(sigmaXy);
    NonZeroSquare(sigmaYaw);
    var (xy, yaw) := (1.0 / (sigmaXy * sigmaXy), 1.0 / (sigmaYaw * sigmaYaw));
    LinearAlgebra.FormOfADiagonal(xy, xy, yaw, LinearAlgebra.Vec3(p * sigmaXy, q * sigmaXy, r * sigmaYaw));
    hide LinearAlgebra.Form, LinearAlgebra.PositiveSemidefinite;
    var (x, y, z) := (p * sigmaXy, q * sigmaXy, r * sigmaYaw);
    InSigmas(sigmaXy, p, xy, x, x * x);
    InSigmas(sigmaXy, q, xy, y, y * y);
    InSigmas(sigmaYaw, r, yaw, z, z * z);
  }

  lemma InSigmas(sigma: real, p: real, information: real, x: real, xx: real)
    requires sigma * sigma != 0.0 && information == 1.0 / (sigma * sigma) && x == p * sigma && xx == x * x
    ensures information * xx == p * p
  {
    assert xx == p * p * (sigma * sigma);
    OverTheSquare(information, sigma * sigma, p * p, xx);
  }

  lemma OverTheSquare(information: real, square: real, residual: real, form: real)
    requires square != 0.0 && information == 1.0 / square && form == residual * square
    ensures information * form == residual
  {
    assert information * square == 1.0;
    assert information * form == residual * (information * square);
  }

  /** A link across a relocalization. */
  function RelocalizedInformation(): (information: Mat3)
    ensures LinearAlgebra.PositiveSemidefinite(information)
  {
    Informs(RELOCALIZED_SIGMA_XY, RELOCALIZED_SIGMA_YAW)
  }

  /** A new link: as sure as odometry is, but across a jump. */
  function LinkInformation(cfg: SlamConfig, jumped: bool): (information: Mat3)
    requires cfg.Valid()
    ensures LinearAlgebra.PositiveSemidefinite(information)
  {
    if jumped then RelocalizedInformation() else Informs(cfg.odomSigmaXy, cfg.odomSigmaYaw)
  }

  /** A closure: its sigmas are at least the residual of its match, in proportion. */
  function ClosureInformation(cfg: LoopCloserConfig, residual: real): (information: Mat3)
    requires cfg.edgeSigmaXy > 0.0 && cfg.edgeSigmaYaw > 0.0
    ensures LinearAlgebra.PositiveSemidefinite(information)
  {
    var sigma := MaxReal(cfg.edgeSigmaXy, residual);
    var factor := sigma / cfg.edgeSigmaXy;
    PositiveProduct(cfg.edgeSigmaYaw, factor, cfg.edgeSigmaYaw * factor);
    Informs(sigma, cfg.edgeSigmaYaw * factor)
  }

  // ── What a tick makes of the graph ──────────────────────────────────────────

  /** One more node, for a submap opened at `anchor`; only the first is held. */
  function NodesWith(nodes: seq<PoseNode>, anchor: Pose): seq<PoseNode>
  {
    nodes + [PoseNode(anchor, |nodes|, nodes == [])]
  }

  /** ... and the link into it from the node before, if there is one, measuring what
      lies between them. */
  function EdgesWith(cfg: SlamConfig, jumped: bool, edges: seq<PoseEdge>, nodes: seq<PoseNode>, anchor: Pose):
      seq<PoseEdge>
    requires cfg.Valid()
  {
    var n := |nodes|;
    if n == 0 then edges
    else edges + [PoseEdge(n - 1, n, Between(nodes[n - 1].pose, anchor), LinkInformation(cfg, jumped))]
  }

  /** The last node moved to `anchor`. */
  function NodesAt(nodes: seq<PoseNode>, anchor: Pose): (moved: seq<PoseNode>)
    requires nodes != []
    ensures |moved| == |nodes|
  {
    var n := |nodes|;
    nodes[n - 1 := nodes[n - 1].(pose := anchor)]
  }

  /** ... and the edge into it measured anew; past a jump it is as sure as a
      relocalization is. */
  function EdgesAt(edges: seq<PoseEdge>, nodes: seq<PoseNode>, into: Option<nat>, anchor: Pose):
      (measured: seq<PoseEdge>)
    requires into.Some? ==> into.value < |edges| && |nodes| >= 2
    ensures |measured| == |edges|
  {
    if into.None? then edges
    else
      var (e, n) := (into.value, |nodes|);
      edges[e := PoseEdge(n - 2, n - 1, Between(nodes[n - 2].pose, anchor),
        if SquareDistance(anchor.at, nodes[n - 1].pose.at) > RELOCALIZED_JUMP_M * RELOCALIZED_JUMP_M
        then RelocalizedInformation() else edges[e].information)]
  }

  function ClosureEdge(cfg: LoopCloserConfig, c: LoopClosure): PoseEdge
    requires cfg.edgeSigmaXy > 0.0 && cfg.edgeSigmaYaw > 0.0
  {
    PoseEdge(c.fromIdx, c.toIdx, c.measurement, ClosureInformation(cfg, c.residual))
  }

  function ClosureEdges(cfg: LoopCloserConfig, loops: seq<LoopClosure>): (edges: seq<PoseEdge>)
    requires cfg.edgeSigmaXy > 0.0 && cfg.edgeSigmaYaw > 0.0
    ensures |edges| == |loops| && forall k :: 0 <= k < |loops| ==> edges[k] == ClosureEdge(cfg, loops[k])
  {
    seq(|loops|, k requires 0 <= k < |loops| => ClosureEdge(cfg, loops[k]))
  }

  /** The closures of the submap frozen last; the first frozen has none to look for. */
  function FoundLoops(cfg: LoopCloserConfig, frozen: seq<Submap>, matcher: Matcher, trig: Trig): seq<LoopClosure>
    reads frozen
  {
    if |frozen| < 2 then [] else ClosuresWith(frozen, |frozen| - 1, cfg, matcher, trig, |frozen|)
  }

  /** Optimized, and after a jump the last node alone put back where it was. */
  ghost predicate SettledGraph(cfg: OptimizerConfig, trig: Trig, jumped: bool, edges: seq<PoseEdge>,
      nodes: seq<PoseNode>, edges': seq<PoseEdge>, nodes': seq<PoseNode>)
  {
    exists moved: seq<PoseNode> :: Optimized(edges, nodes, cfg, trig, edges', moved) && |moved| == |nodes| > 0
        && nodes' == if jumped then NodesAt(moved, nodes[|nodes| - 1].pose) else moved
  }

  /** With these closures found: none leaves the graph as it is; any is an edge more,
      and the graph is settled. */
  ghost predicate Closed(cfg: SlamConfig, trig: Trig, jumped: bool, loops: seq<LoopClosure>, edges: seq<PoseEdge>,
      nodes: seq<PoseNode>, edges': seq<PoseEdge>, nodes': seq<PoseNode>)
    requires cfg.Valid()
  {
    if loops == [] then edges' == edges && nodes' == nodes
    else SettledGraph(cfg.optimizer, trig, jumped, edges + ClosureEdges(cfg.loops, loops), nodes, edges', nodes')
  }

  lemma NonZeroSquare(x: real)
    requires x > 0.0
    ensures x * x != 0.0 && 1.0 / (x * x) >= 0.0
  {
    PositiveProduct(x, x, x * x);
  }

  lemma InformationIsPositive(sigmaXy: real, sigmaYaw: real)
    requires sigmaXy > 0.0 && sigmaYaw > 0.0 && sigmaXy * sigmaXy != 0.0 && sigmaYaw * sigmaYaw != 0.0
    ensures LinearAlgebra.PositiveSemidefinite(InformationFromSigmas(sigmaXy, sigmaYaw))
  {
    NonZeroSquare(sigmaXy);
    NonZeroSquare(sigmaYaw);
    var (xy, yaw) := (1.0 / (sigmaXy * sigmaXy), 1.0 / (sigmaYaw * sigmaYaw));
    LinearAlgebra.PositiveDiagonal(xy, xy, yaw);
    hide LinearAlgebra.PositiveSemidefinite;
  }

  /** With a gap of one or more, the optimizer's test for a chain edge tells links from
      closures. */
  lemma LinksAreTheChain(edges: seq<PoseEdge>, n: nat, gap: nat, k: nat)
    requires Chained(edges, n, gap) && gap >= 1 && k < |edges|
    ensures IsLink(edges[k], n) <==> IsChain(edges[k])
    ensures IsClosure(edges[k], n, gap) <==> !IsChain(edges[k])
  {
  }

  /** The edge stays, or is a closure that lost its information. */
  predicate Kept(before: PoseEdge, after: PoseEdge, n: nat, gap: nat)
  {
    after == before || (IsClosure(before, n, gap) && after == before.(information := DISOWNED))
  }

  ghost predicate AllKept(before: seq<PoseEdge>, after: seq<PoseEdge>, n: nat, gap: nat)
  {
    |before| <= |after| && forall k {:trigger after[k]} :: 0 <= k < |before| ==> Kept(before[k], after[k], n, gap)
  }

  /** Whatever the optimizer disowns is a closure, and every link keeps its information. */
  lemma DisowningSparesTheLinks(edges: seq<PoseEdge>, n: nat, gap: nat, out: seq<nat>, after: seq<PoseEdge>)
    requires Chained(edges, n, gap) && OnlyLoopsOut(edges, out, after)
    ensures AllKept(edges, after, n, gap)
    ensures forall k :: 0 <= k < |edges| && IsLink(edges[k], n) ==> after[k] == edges[k]
  {
    forall k {:trigger after[k]} | 0 <= k < |edges| ensures Kept(edges[k], after[k], n, gap) {
      assert IsLink(edges[k], n) || IsClosure(edges[k], n, gap);
    }
  }

  /** Chained edges join nodes. */
  lemma ChainedIsInRange(edges: seq<PoseEdge>, n: nat, gap: nat)
    requires Chained(edges, n, gap)
    ensures AllInRange(edges, n)
  {
    forall k | 0 <= k < |edges| ensures InRange(edges[k], n) {
      assert IsLink(edges[k], n) || IsClosure(edges[k], n, gap);
    }
  }

  lemma DisowningKeepsTheEnds(edges: seq<PoseEdge>, out: seq<nat>, after: seq<PoseEdge>)
    requires OnlyLoopsOut(edges, out, after)
    ensures SameEnds(edges, after)
  {
  }

  /** The edges with their weights and measurements changed at will. */
  predicate SameEnds(before: seq<PoseEdge>, after: seq<PoseEdge>)
  {
    |before| == |after| && forall k {:trigger after[k]} ::
        0 <= k < |after| ==> after[k].from == before[k].from && after[k].to == before[k].to
  }

  /** One edge with other information that counts. */
  lemma StillInformative(edges: seq<PoseEdge>, e: nat, edge: PoseEdge)
    requires AllInformative(edges) && e < |edges|
    requires edge.information == edges[e].information || LinearAlgebra.PositiveSemidefinite(edge.information)
    ensures AllInformative(edges[e := edge])
  {
  }

  lemma OneMoreInforms(edges: seq<PoseEdge>, edge: PoseEdge)
    requires AllInformative(edges) && LinearAlgebra.PositiveSemidefinite(edge.information)
    ensures AllInformative(edges + [edge])
  {
  }

  lemma SameEndsStayChained(before: seq<PoseEdge>, after: seq<PoseEdge>, n: nat, gap: nat)
    requires SameEnds(before, after) && Chained(before, n, gap)
    ensures Chained(after, n, gap)
    ensures forall e :: LeadsIn(before, n, e) ==> LeadsIn(after, n, e)
  {
    forall i: nat {:trigger Linked(after, i)} | i + 1 < n ensures Linked(after, i) {
      assert Linked(before, i);
      var k :| 0 <= k < |before| && before[k].from == i && before[k].to == i + 1;
      assert after[k].from == i;
    }
    forall k {:trigger after[k]} | 0 <= k < |after| ensures IsLink(after[k], n) || IsClosure(after[k], n, gap) {
      assert IsLink(before[k], n) || IsClosure(before[k], n, gap);
    }
  }

  /** One more node, linked to the last. */
  lemma LinkedToTheLast(edges: seq<PoseEdge>, n: nat, gap: nat, e: PoseEdge)
    requires Chained(edges, n, gap) && n > 0 && e.from == n - 1 && e.to == n
    ensures Chained(edges + [e], n + 1, gap) && LeadsIn(edges + [e], n + 1, |edges|)
  {
    var more := edges + [e];
    forall i: nat {:trigger Linked(more, i)} | i < n ensures Linked(more, i) {
      if i == n - 1 {
        assert more[|edges|] == e;
      } else {
        assert Linked(edges, i);
        var k :| 0 <= k < |edges| && edges[k].from == i && edges[k].to == i + 1;
        assert more[k] == edges[k];
      }
    }
    forall k {:trigger more[k]} | 0 <= k < |more| ensures IsLink(more[k], n + 1) || IsClosure(more[k], n + 1, gap) {
      if k < |edges| {
        assert IsLink(edges[k], n) || IsClosure(edges[k], n, gap);
      }
    }
  }

  lemma ClosureKeepsTheChain(edges: seq<PoseEdge>, n: nat, gap: nat, e: PoseEdge)
    requires Chained(edges, n, gap) && IsClosure(e, n, gap)
    ensures Chained(edges + [e], n, gap)
    ensures forall k :: LeadsIn(edges, n, k) ==> LeadsIn(edges + [e], n, k)
  {
    var more := edges + [e];
    forall i: nat {:trigger Linked(more, i)} | i + 1 < n ensures Linked(more, i) {
      assert Linked(edges, i);
      var k :| 0 <= k < |edges| && edges[k].from == i && edges[k].to == i + 1;
      assert more[k] == edges[k];
    }
    forall k {:trigger more[k]} | 0 <= k < |more| ensures IsLink(more[k], n) || IsClosure(more[k], n, gap) {
      if k < |edges| {
        assert more[k] == edges[k];
      }
    }
  }

  lemma NothingIsChained(gap: nat)
    ensures Chained([], 0, gap) && Chained([], 1, gap)
  {
  }

  // ── The pipeline ────────────────────────────────────────────────────────────

  /** The pose moved farther than odometry could have moved it. */
  predicate IsJump(before: Pose, after: Pose)
  {
    || SquareDistance(after.at, before.at) > RELOCALIZED_JUMP_M * RELOCALIZED_JUMP_M
    || Turn(Back(before.heading), after.heading).c < RELOCALIZED_JUMP_COS
  }

  predicate Joins(e: PoseEdge, from: nat, to: nat)
  {
    e.from == from && e.to == to
  }

  lemma LastPairIsLinked(edges: seq<PoseEdge>, n: nat, gap: nat)
    requires Chained(edges, n, gap) && n >= 2
    ensures exists k :: 0 <= k < |edges| && Joins(edges[k], n - 2, n - 1)
  {
    assert Linked(edges, n - 2);
    var k :| 0 <= k < |edges| && edges[k].from == n - 2 && edges[k].to == n - 1;
    assert Joins(edges[k], n - 2, n - 1);
  }

  /** The parts of a saved session, wired as the pipeline keeps them. */
  ghost predicate SessionIsWired(cfg: SlamConfig, frozen: seq<Submap>, current: Option<Submap>, nodes: seq<PoseNode>,
      edges: seq<PoseEdge>, nodeForSubmap: seq<nat>)
    reads frozen, if current.Some? then {current.value, current.value.grid, current.value.grid.log} else {}
  {
    var submaps := frozen + if current.Some? then [current.value] else [];
    && cfg.Valid() && Distinct(submaps)
    && (forall i :: 0 <= i < |frozen| ==> frozen[i].HasContent() && frozen[i].Witnessed())
    && (current.Some? ==> current.value.Witnessed() && current.value.grid.Valid() && current.value.grid.cfg.cell > 0.0)
    && Aligned(submaps, nodes, nodeForSubmap) && Joined(edges, |nodes|, cfg.loops.minIndexGap)
  }

  /** The closures a resumed pipeline counts: the edges beyond the chain. */
  function ResumedLoops(nEdges: nat, nFrozen: nat): nat
  {
    var chain := if nFrozen < 1 then 0 else nFrozen - 1;
    if nEdges < chain then 0 else nEdges - chain
  }

  /** The chain is taken to be one edge shorter than it is when a submap was open: the
      count comes back right exactly when none was, or nothing had frozen yet, and
      otherwise one too high. */
  lemma ResumedCountIsOneTooHigh(nEdges: nat, nLoops: nat, nFrozen: nat, open: bool)
    requires nEdges + 1 == nFrozen + (if open then 1 else 0) + nLoops && (open || nFrozen > 0)
    ensures ResumedLoops(nEdges, nFrozen) == nLoops <==> !open || nFrozen == 0
    ensures open && nFrozen > 0 ==> ResumedLoops(nEdges, nFrozen) == nLoops + 1
  {
  }

  /** The last edge from one node to another. */
  method FindLast(edges: seq<PoseEdge>, from: nat, to: nat) returns (found: Option<nat>)
    ensures found.Some? ==> found.value < |edges| && Joins(edges[found.value], from, to) && forall k ::
              found.value < k < |edges| ==> !Joins(edges[k], from, to)
    ensures found.None? ==> forall k :: 0 <= k < |edges| ==> !Joins(edges[k], from, to)
  {
    for k := |edges| downto 0
      invariant forall j :: k <= j < |edges| ==> !Joins(edges[j], from, to)
    {
      if Joins(edges[k], from, to) {
        return Some(k);
      }
    }
    return None;
  }

  class Slam {
    const cfg: SlamConfig
    const mgr: SubmapManager
    const graph: PoseGraph
    var nodeForSubmap: seq<nat>
    var nLoops: nat
    var tracked: Pose
    var lastOdom: Option<Pose>
    var edgeIntoCurrent: Option<nat>
    var dirty: bool
    var jumped: bool

    /** What every operation keeps. */
    ghost predicate Wired()
      reads this, mgr, graph, mgr.All(), mgr.frozen,
            if mgr.current.Some? then {mgr.current.value, mgr.current.value.grid, mgr.current.value.grid.log} else {}
    {
      && cfg.Valid() && mgr.cfg == cfg.submap && mgr.Valid()
      && Aligned(mgr.All(), graph.nodes, nodeForSubmap)
      && Joined(graph.edges, |graph.nodes|, cfg.loops.minIndexGap)
      && (edgeIntoCurrent.Some? ==> mgr.current.Some? && LeadsIn(graph.edges, |graph.nodes|, edgeIntoCurrent.value))
      && (mgr.current.Some? && |graph.nodes| >= 2 ==> edgeIntoCurrent.Some?)
    }

    constructor (cfg: SlamConfig)
      requires cfg.Valid()
      ensures Wired() && fresh(mgr) && fresh(graph)
      ensures this.cfg == cfg && tracked == ORIGIN && lastOdom == None && nLoops == 0 && mgr.All() == [] && !jumped
    {
      this.cfg := cfg;
      mgr := new SubmapManager(cfg.submap);
      graph := new PoseGraph();
      nodeForSubmap, nLoops, tracked, lastOdom := [], 0, ORIGIN, None;
      edgeIntoCurrent, dirty, jumped := None, false, false;
      NothingIsChained(cfg.loops.minIndexGap);
    }

    /** Overwrites the tracked pose; the next odometry reading starts afresh. */
    method SetTracked(pose: Pose)
      requires Wired()
      modifies this`tracked, this`lastOdom, this`jumped
      ensures Wired()
      ensures tracked == pose && lastOdom == None && jumped == (old(jumped) || IsJump(old(tracked), pose))
    {
      hide Aligned, Joined, LeadsIn, SubmapManager.Valid, IsJump, SlamConfig.Valid;
      if IsJump(tracked, pose) {
        jumped := true;
      }
      tracked, lastOdom := pose, None;
    }

    /** The tracked pose moves by the step from the reading before, if there was one. */
    method ObserveOdom(odom: Pose)
      requires Wired()
      modifies this`tracked, this`lastOdom
      ensures Wired()
      ensures lastOdom == Some(odom)
      ensures tracked == if old(lastOdom).Some? then Carried(old(tracked), old(lastOdom).value, odom) else old(tracked)
    {
      hide Aligned, Joined, LeadsIn, SubmapManager.Valid, SlamConfig.Valid, Turn, Back;
      if lastOdom.Some? {
        var p := lastOdom.value;
        var d := Unrotate(p.heading, Poses.Minus(odom.at, p.at));
        var dyaw := Turn(Back(p.heading), odom.heading);
        var (cy, sy) := (tracked.heading.c, tracked.heading.s);
        ghost var carried := Carried(tracked, p, odom);
        tracked := Pose(Vec(tracked.at.x + cy * d.x - sy * d.y, tracked.at.y + sy * d.x + cy * d.y),
            Turn(tracked.heading, dyaw));
        assert tracked.at.x == carried.at.x;
        assert tracked.at.y == carried.at.y;
      }
      lastOdom := Some(odom);
    }

    method RequestSubmapSwitch()
      requires Wired()
      modifies mgr`switchRequested
      ensures Wired() && mgr.switchRequested
    {
      mgr.RequestSwitch();
    }

    /** The pipeline of what was saved, wired; the edge into the last node is the last of
        those that come from the node before. */
    constructor FromSession(cfg: SlamConfig, frozen: seq<Submap>, current: Option<Submap>, graph: PoseGraph,
        nodeForSubmap: seq<nat>, tracked: Pose)
      ensures this.cfg == cfg && this.graph == graph && this.nodeForSubmap == nodeForSubmap && this.tracked == tracked
      ensures fresh(mgr) && mgr.cfg == cfg.submap && mgr.frozen == frozen && mgr.current == current
      ensures lastOdom == None && !jumped && nLoops == ResumedLoops(|graph.edges|, |frozen|)
      ensures var n := |nodeForSubmap|;
              if n >= 2 && current.Some? then
                forall e: nat :: edgeIntoCurrent == Some(e) <==>
                          e < |graph.edges| && Joins(graph.edges[e], nodeForSubmap[n - 2], nodeForSubmap[n - 1]) &&
                          forall k :: e < k < |graph.edges| ==> !Joins(graph.edges[k], nodeForSubmap[n - 2],
                              nodeForSubmap[n - 1])
              else edgeIntoCurrent == None
      ensures old(SessionIsWired(cfg, frozen, current, graph.nodes, graph.edges, nodeForSubmap)) ==> Wired()
      ensures old(SessionIsWired(cfg, frozen, current, graph.nodes, graph.edges, nodeForSubmap))
                && 0 < |graph.nodes| <= |graph.edges| + 1 ==>
                (Counted() <==> current.None? || frozen == [])
    {
      var n := |nodeForSubmap|;
      var found := None;
      if n >= 2 && current.Some? {
        found := FindLast(graph.edges, nodeForSubmap[n - 2], nodeForSubmap[n - 1]);
      }
      this.cfg, this.graph, this.nodeForSubmap, this.tracked := cfg, graph, nodeForSubmap, tracked;
      mgr := new SubmapManager.FromParts(cfg.submap, frozen, current);
      nLoops := ResumedLoops(|graph.edges|, |frozen|);
      edgeIntoCurrent, lastOdom, dirty, jumped := found, None, true, false;
      new;
      hide Chained, AllInformative, Distinct;
      if SessionIsWired(cfg, frozen, current, graph.nodes, graph.edges, nodeForSubmap) && n >= 2 && current.Some? {
        LastPairIsLinked(graph.edges, n, cfg.loops.minIndexGap);
        assert found.Some?;
      }
    }

    /** The current submap, if there is one, may gain the scan; nothing else moves. */
    method IntegrateWeighted(body: Option<Pose>, scan: Scan, passes: nat)
      requires Wired()
      modifies this`dirty
      modifies if mgr.current.Some? then {mgr.current.value} else {}
      modifies if mgr.current.Some? then {mgr.current.value.grid} else {}
      modifies if mgr.current.Some? then {mgr.current.value.grid.log} else {}
      ensures Wired()
      ensures dirty == (old(dirty) || mgr.current.Some?)
      ensures mgr.current.Some? ==>
                var s := mgr.current.value;
                && s.anchorPose == old(s.anchorPose)
                && s.Gained(old(s.rawScans), old(s.grid.log[..]), body, scan, passes)
    {
      hide Submap.Gained, OccupancyGrid.Valid, Joined, LeadsIn, SlamConfig.Valid, Distinct;
      if mgr.current.None? {
        return;
      }
      DistinctWithOneMore(mgr.frozen, mgr.current.value);
      mgr.current.value.IntegrateScanWeighted(body, scan, passes);
      dirty := true;
    }

    /** The empty current submap was replaced: its node follows, and so does the edge
        into it. */
    method FollowReanchor()
      requires cfg.Valid() && mgr.cfg == cfg.submap && mgr.Valid() && mgr.current.Some?
      requires AlignedButLast(mgr.All(), graph.nodes, nodeForSubmap)
      requires Joined(graph.edges, |graph.nodes|, cfg.loops.minIndexGap)
      requires edgeIntoCurrent.Some? ==> LeadsIn(graph.edges, |graph.nodes|, edgeIntoCurrent.value)
      requires |graph.nodes| >= 2 ==> edgeIntoCurrent.Some?
      modifies this`jumped, graph
      ensures Wired() && !jumped
      ensures SameEnds(old(graph.edges), graph.edges) && old(graph.nodes) != []
      ensures graph.nodes == NodesAt(old(graph.nodes), mgr.current.value.anchorPose)
      ensures (edgeIntoCurrent.Some? ==> edgeIntoCurrent.value < |old(graph.edges)| && |old(graph.nodes)| >= 2)
                && graph.edges == EdgesAt(old(graph.edges), old(graph.nodes), edgeIntoCurrent,
                     mgr.current.value.anchorPose)
    {
      hide Chained, SubmapManager.Valid, SlamConfig.Valid, Between, SquareDistance, Informs, AllInformative, Aligned,
          AlignedButLast, SameEnds, Wired;
      var anchor := mgr.current.value.anchorPose;
      var n := |nodeForSubmap|;
      LastNodeFollows(mgr.All(), graph.nodes, nodeForSubmap, anchor);
      var node := nodeForSubmap[n - 1];
      var was := graph.nodes[node].pose;
      graph.nodes := graph.nodes[node := graph.nodes[node].(pose := anchor)];
      if edgeIntoCurrent.Some? {
        var e := edgeIntoCurrent.value;
        var edge := graph.edges[e];
        edge := edge.(measurement := Between(graph.nodes[edge.from].pose, anchor));
        if SquareDistance(anchor.at, was.at) > RELOCALIZED_JUMP_M * RELOCALIZED_JUMP_M {
          edge := edge.(information := RelocalizedInformation());
        }
        StillInformative(graph.edges, e, edge);
        OneEdgeMeasuredAnew(graph.edges, e, edge);
        graph.edges := graph.edges[e := edge];
      } else {
        NoEdgeMeasuredAnew(graph.edges);
      }
      SameEndsStayChained(old(graph.edges), graph.edges, n, cfg.loops.minIndexGap);
      jumped := false;
      WiredParts();
    }

    /** A submap was opened: its node, and the link into it from the node before. */
    method OpenNode(ghost before: seq<Submap>) returns (wasJumped: bool)
      requires cfg.Valid() && mgr.cfg == cfg.submap && mgr.Valid() && mgr.current.Some?
      requires mgr.All() == before + [mgr.current.value] && Aligned(before, graph.nodes, nodeForSubmap)
      requires Joined(graph.edges, |graph.nodes|, cfg.loops.minIndexGap)
      modifies this`edgeIntoCurrent, this`jumped, this`nodeForSubmap, graph
      ensures Wired() && !jumped && wasJumped == old(jumped)
      ensures graph.nodes == NodesWith(old(graph.nodes), mgr.current.value.anchorPose)
      ensures graph.edges == EdgesWith(cfg, old(jumped), old(graph.edges), old(graph.nodes),
                mgr.current.value.anchorPose)
      ensures edgeIntoCurrent == if old(graph.nodes) == [] then None else Some(|old(graph.edges)|)
    {
      hide Chained, AllInformative, SubmapManager.Valid, Between, LeadsIn, LinkInformation;
      var anchor := mgr.current.value.anchorPose;
      var node := graph.AddNode(anchor, mgr.NTotal() - 1);
      edgeIntoCurrent := None;
      wasJumped := jumped;
      jumped := false;
      NothingIsChained(cfg.loops.minIndexGap);
      if |nodeForSubmap| > 0 {
        var prevNode := nodeForSubmap[|nodeForSubmap| - 1];
        var prevPose := graph.nodes[prevNode].pose;
        var edge := PoseEdge(prevNode, node, Between(prevPose, anchor), LinkInformation(cfg, wasJumped));
        OneMoreInforms(graph.edges, edge);
        LinkedToTheLast(graph.edges, |old(graph.nodes)|, cfg.loops.minIndexGap, edge);
        graph.AddEdge(edge);
        edgeIntoCurrent := Some(|graph.edges| - 1);
      } else {
        NoEdges(graph.edges, cfg.loops.minIndexGap);
      }
      nodeForSubmap := nodeForSubmap + [node];
    }

    /** Every submap to its node. */
    method ApplyAnchors()
      requires mgr.Valid() && |nodeForSubmap| == |mgr.All()| == |graph.nodes|
      requires forall i :: 0 <= i < |nodeForSubmap| ==> nodeForSubmap[i] == i
      modifies mgr.All()`anchorPose
      ensures mgr.Valid()
      ensures forall i :: 0 <= i < |mgr.All()| ==> mgr.All()[i].anchorPose == graph.nodes[i].pose
    {
      hide OccupancyGrid.Valid;
      var submaps := mgr.All();
      for sm := 0 to |nodeForSubmap|
        invariant mgr.Valid() && mgr.All() == submaps
        invariant forall i :: 0 <= i < sm ==> submaps[i].anchorPose == graph.nodes[i].pose
      {
        submaps[sm].SetAnchorPose(graph.nodes[nodeForSubmap[sm]].pose);
      }
    }

    /** The closures as edges, less sure the worse their match. */
    method AddClosures(loops: seq<LoopClosure>)
      requires Wired() && mgr.current.Some?
      requires forall k :: 0 <= k < |loops| ==> loops[k].fromIdx + cfg.loops.minIndexGap < loops[k].toIdx < |mgr.frozen|
      modifies this`nLoops, graph`edges
      ensures Wired()
      ensures nLoops == old(nLoops) + |loops|
      ensures graph.edges == old(graph.edges) + ClosureEdges(cfg.loops, loops)
    {
      hide Chained, AllInformative, SubmapManager.Valid, LeadsIn, ClosureInformation;
      ghost var edges := graph.edges;
      for k := 0 to |loops|
        invariant Wired() && nLoops == old(nLoops) + k
        invariant graph.edges == edges + ClosureEdges(cfg.loops, loops)[..k]
      {
        var lc := loops[k];
        nLoops := nLoops + 1;
        var edge := PoseEdge(nodeForSubmap[lc.fromIdx], nodeForSubmap[lc.toIdx], lc.measurement,
            ClosureInformation(cfg.loops, lc.residual));
        OneMoreInforms(graph.edges, edge);
        ClosureKeepsTheChain(graph.edges, |graph.nodes|, cfg.loops.minIndexGap, edge);
        graph.AddEdge(edge);
      }
    }

    /** Loop closure after a freeze: the optimizer moves the anchors, and the tracked pose
        keeps its place in the current submap; after a relocalization's jump neither
        the current anchor nor the tracked pose moves. */
    method CloseLoops(wasJumped: bool, matcher: Matcher, trig: Trig)
      requires Wired() && mgr.current.Some? && |mgr.frozen| >= 2
      modifies this`nLoops, this`tracked, graph, mgr.All()`anchorPose
      ensures Wired()
      ensures var loops := old(FoundLoops(cfg.loops, mgr.frozen, matcher, trig));
              && nLoops == old(nLoops) + |loops|
              && Closed(cfg, trig, wasJumped, loops, old(graph.edges), old(graph.nodes), graph.edges, graph.nodes)
              && (loops == [] ==> tracked == old(tracked))
      ensures |graph.edges| - |old(graph.edges)| == nLoops - old(nLoops) >= 0
      ensures |graph.nodes| == |old(graph.nodes)| && graph.nodes[0].pose == old(graph.nodes[0].pose)
      ensures !wasJumped ==>
                var was := old(mgr.current.value.anchorPose);
                Between(mgr.current.value.anchorPose, tracked) == Between(was, old(tracked))
      ensures wasJumped ==> mgr.current.value.anchorPose == old(mgr.current.value.anchorPose) && tracked == old(tracked)
      ensures AllKept(old(graph.edges), graph.edges, |graph.nodes|, cfg.loops.minIndexGap)
    {
      hide Joined, SubmapManager.Valid, LeadsIn, Between, Compose, ClosureInformation, Accepts, Disowned, Optimized,
          ClosuresWith, SettledGraph;
      var idx := |mgr.frozen| - 1;
      var loops := DetectLoops(mgr.frozen, idx, cfg.loops, matcher, trig);
      ClosuresSpanTheGap(loops, mgr.frozen, idx, cfg.loops, matcher, trig);
      AddClosures(loops);
      if |loops| == 0 {
        return;
      }
      Settle(wasJumped, trig);
    }

    /** Optimizes the graph and moves every anchor, and the tracked pose with the current
        one; after a jump the current anchor is put back and the tracked pose left. */
    method Settle(wasJumped: bool, trig: Trig)
      requires Wired() && mgr.current.Some?
      modifies this`tracked, graph, mgr.All()`anchorPose
      ensures Wired()
      ensures SettledGraph(cfg.optimizer, trig, wasJumped, old(graph.edges), old(graph.nodes), graph.edges, graph.nodes)
      ensures |graph.nodes| == |old(graph.nodes)| && |graph.edges| == |old(graph.edges)|
                && graph.nodes[0].pose == old(graph.nodes[0].pose)
      ensures !wasJumped ==>
                var was := old(mgr.current.value.anchorPose);
                Between(mgr.current.value.anchorPose, tracked) == Between(was, old(tracked))
      ensures wasJumped ==> mgr.current.value.anchorPose == old(mgr.current.value.anchorPose) && tracked == old(tracked)
      ensures AllKept(old(graph.edges), graph.edges, |graph.nodes|, cfg.loops.minIndexGap)
    {
      hide Joined, SubmapManager.Valid, LeadsIn, Between, Compose, IsChain, NormalEquations.DampedEnough, Optimized;
      var curNode := nodeForSubmap[|nodeForSubmap| - 1];
      assert mgr.All()[curNode] == mgr.current.value;
      var oldAnchor := graph.nodes[curNode].pose;
      var result := MoveAnchors(trig);
      assert mgr.All()[curNode] == mgr.current.value;
      if wasJumped {
        graph.nodes := graph.nodes[curNode := graph.nodes[curNode].(pose := oldAnchor)];
        PutBack(curNode, oldAnchor);
      } else {
        var newAnchor := graph.nodes[curNode].pose;
        BetweenThenCompose(newAnchor, Between(oldAnchor, tracked));
        tracked := Compose(newAnchor, Between(oldAnchor, tracked));
      }
    }

    /** Optimizes the graph and moves every submap to its node. */
    method MoveAnchors(trig: Trig) returns (result: OptimizeResult)
      requires Wired()
      modifies graph, mgr.All()`anchorPose
      ensures Wired()
      ensures Optimized(old(graph.edges), old(graph.nodes), cfg.optimizer, trig, graph.edges, graph.nodes)
      ensures |graph.nodes| == |old(graph.nodes)| && |graph.edges| == |old(graph.edges)|
      ensures forall i ::
                0 <= i < |graph.nodes| && old(graph.nodes)[i].held ==> graph.nodes[i].pose == old(graph.nodes)[i].pose
      ensures AllKept(old(graph.edges), graph.edges, |graph.nodes|, cfg.loops.minIndexGap)
      ensures NormalEquations.DampedEnough(cfg.optimizer.lambda, 3 * |graph.nodes|) ==>
                result.converged || result.iterations == cfg.optimizer.maxIters
    {
      hide Chained, AllInformative, SubmapManager.Valid, LeadsIn, OptimizedBy, OnlyFreeNodesMoved, IsChain,
          NormalEquations.DampedEnough, SettlesWith;
      ghost var edges, nodes := graph.edges, graph.nodes;
      ChainedIsInRange(edges, |nodes|, cfg.loops.minIndexGap);
      ghost var out, settled;
      result, out, settled := Optimize(graph, cfg.optimizer, trig);
      DisowningSparesTheLinks(edges, |nodes|, cfg.loops.minIndexGap, out, graph.edges);
      DisowningKeepsTheEnds(edges, out, graph.edges);
      DisownedStayInformative(edges, out, graph.edges);
      StillTheSameNodes(nodes, graph.nodes);
      SameEndsStayChained(edges, graph.edges, |graph.nodes|, cfg.loops.minIndexGap);
      ApplyAnchors();
    }

    method PutBack(ghost curNode: nat, anchor: Pose)
      requires mgr.Valid() && mgr.current.Some? && curNode == |mgr.frozen|
      modifies mgr.current.value`anchorPose
      ensures mgr.Valid() && mgr.current.value.anchorPose == anchor
      ensures forall i ::
                0 <= i < |mgr.All()| && i != curNode ==> mgr.All()[i].anchorPose == old(mgr.All()[i].anchorPose)
    {
      hide OccupancyGrid.Valid;
      assert mgr.All()[curNode] == mgr.current.value;
      mgr.current.value.SetAnchorPose(anchor);
    }

    /** What holds while the edges are the chain and the closures counted. */
    ghost predicate Counted()
      reads this, graph
    {
      if graph.nodes == [] then graph.edges == [] && nLoops == 0 else |graph.edges| + 1 == |graph.nodes| + nLoops
    }

    /** Lets the submaps age; a freeze looks for closures and, when there are any,
        corrects the anchors. Afterwards a new current submap stands at the tracked
        pose, which only a closure without a jump has moved. */
    method Tick(nowS: real, matcher: Matcher, trig: Trig) returns (froze: bool)
      requires Wired()
      modifies this, mgr, graph, mgr.All()`anchorPose
      ensures Wired() && (old(Counted()) ==> Counted())
      ensures froze <==> old(mgr.current).None? || old(mgr.ShouldSwitch(nowS, tracked)
                && mgr.current.value.HasContent())
      ensures old(mgr.current).None? || old(mgr.ShouldSwitch(nowS, tracked)) ==>
                mgr.current.Some? && mgr.current.value.anchorPose == tracked && !jumped
      ensures froze ==>
                var loops := old(if mgr.current.None? then []
                                 else FoundLoops(cfg.loops, mgr.frozen + [mgr.current.value], matcher, trig));
                && nLoops == old(nLoops) + |loops|
                && Closed(cfg, trig, old(jumped), loops,
                     EdgesWith(cfg, old(jumped), old(graph.edges), old(graph.nodes), old(tracked)),
                     NodesWith(old(graph.nodes), old(tracked)), graph.edges, graph.nodes)
                && (old(jumped) || loops == [] ==> tracked == old(tracked))
                && edgeIntoCurrent == if old(graph.nodes) == [] then None else Some(|old(graph.edges)|)
      ensures !froze && old(mgr.ShouldSwitch(nowS, tracked)) ==>
                && old(graph.nodes) != []
                && (edgeIntoCurrent.Some? ==> edgeIntoCurrent.value < |old(graph.edges)| && |old(graph.nodes)| >= 2)
                && graph.nodes == NodesAt(old(graph.nodes), tracked)
                && graph.edges == EdgesAt(old(graph.edges), old(graph.nodes), edgeIntoCurrent, tracked)
      ensures !froze && !old(mgr.ShouldSwitch(nowS, tracked)) ==>
                graph.nodes == old(graph.nodes) && graph.edges == old(graph.edges) && mgr.current == old(mgr.current)
                && jumped == old(jumped)
      ensures !froze ==> nLoops == old(nLoops) && tracked == old(tracked) && edgeIntoCurrent == old(edgeIntoCurrent)
      ensures lastOdom == old(lastOdom) && dirty == (old(dirty) || froze)
      ensures mgr.frozen == if froze && old(mgr.current).Some? then old(mgr.frozen) + [old(mgr.current).value]
                else old(mgr.frozen)
    {
      hide Joined, LinkInformation, SubmapManager.Valid, LeadsIn, OccupancyGrid.Valid, SquareDistance, AtLeast,
          Aligned, AlignedButLast, SubmapManager.ShouldSwitch, SlamConfig.Valid, Between, Wired, Closed, EdgesWith,
              NodesWith, EdgesAt, NodesAt,
          ClosuresWith;
      WiredParts();
      ghost var submaps := mgr.All();
      var prevFrozen := |mgr.frozen|;
      var outcome := mgr.Tick(nowS, tracked);
      Follow(outcome, submaps, |mgr.frozen| > prevFrozen, matcher, trig);
      froze := outcome.Opened?;
    }

    /** Brings node, edges and anchors into line with what the manager did. */
    method Follow(outcome: TickOutcome, ghost before: seq<Submap>, froze: bool, matcher: Matcher,
        trig: Trig)
      requires cfg.Valid() && mgr.cfg == cfg.submap && mgr.Valid()
      requires Aligned(before, graph.nodes, nodeForSubmap) && |before| == |graph.nodes|
                && Joined(graph.edges, |graph.nodes|, cfg.loops.minIndexGap)
      requires edgeIntoCurrent.Some? ==>
                LeadsIn(graph.edges, |graph.nodes|, edgeIntoCurrent.value) && (outcome.Idle? ==> mgr.current.Some?)
      requires outcome.Idle? ==>
                mgr.All() == before && (mgr.current.Some? && |graph.nodes| >= 2 ==> edgeIntoCurrent.Some?)
      requires outcome.Reanchored? ==>
                |mgr.All()| == |before| > 0 && (forall i :: 0 <= i < |before| - 1 ==> mgr.All()[i] == before[i])
                && (|graph.nodes| >= 2 ==> edgeIntoCurrent.Some?)
      requires outcome.Opened? ==> mgr.current.Some? && mgr.All() == before + [mgr.current.value]
      requires !outcome.Idle? ==> mgr.current.Some? && mgr.current.value.anchorPose == tracked
      modifies this`edgeIntoCurrent, this`jumped, this`nodeForSubmap, this`nLoops, this`tracked, this`dirty, graph,
                mgr.All()`anchorPose
      ensures Wired() && (old(Counted()) ==> Counted())
      ensures !outcome.Idle? ==> mgr.current.value.anchorPose == tracked && !jumped
      ensures dirty == (old(dirty) || outcome.Opened?)
      ensures outcome.Opened? ==>
                var loops := old(if froze then FoundLoops(cfg.loops, mgr.frozen, matcher, trig) else []);
                && nLoops == old(nLoops) + |loops|
                && Closed(cfg, trig, old(jumped), loops,
                     EdgesWith(cfg, old(jumped), old(graph.edges), old(graph.nodes), old(tracked)),
                     NodesWith(old(graph.nodes), old(tracked)), graph.edges, graph.nodes)
                && (old(jumped) || loops == [] ==> tracked == old(tracked))
                && edgeIntoCurrent == if old(graph.nodes) == [] then None else Some(|old(graph.edges)|)
      ensures outcome.Reanchored? ==>
                && old(graph.nodes) != []
                && (edgeIntoCurrent.Some? ==> edgeIntoCurrent.value < |old(graph.edges)| && |old(graph.nodes)| >= 2)
                && graph.nodes == NodesAt(old(graph.nodes), tracked)
                && graph.edges == EdgesAt(old(graph.edges), old(graph.nodes), edgeIntoCurrent, tracked)
      ensures outcome.Idle? ==>
                graph.nodes == old(graph.nodes) && graph.edges == old(graph.edges) && jumped == old(jumped)
      ensures !outcome.Opened? ==>
                nLoops == old(nLoops) && tracked == old(tracked) && edgeIntoCurrent == old(edgeIntoCurrent)
    {
      hide Joined, LinkInformation, SubmapManager.Valid, LeadsIn, OccupancyGrid.Valid, Aligned, AlignedButLast,
          SlamConfig.Valid, Between, Wired, Closed, EdgesWith, NodesWith, EdgesAt, NodesAt, FoundLoops;
      if outcome.Reanchored? {
        ReplacedLast(before, mgr.All(), graph.nodes, nodeForSubmap);
        FollowReanchor();
      } else if outcome.Opened? {
        Open(before, froze, matcher, trig);
      } else {
        WiredParts();
      }
    }

    /** The wiring, part by part. */
    lemma WiredParts()
      ensures Wired() <==>
              && cfg.Valid() && mgr.cfg == cfg.submap && mgr.Valid()
              && Aligned(mgr.All(), graph.nodes, nodeForSubmap)
              && Joined(graph.edges, |graph.nodes|, cfg.loops.minIndexGap)
              && (edgeIntoCurrent.Some? ==>
                 mgr.current.Some? && LeadsIn(graph.edges, |graph.nodes|, edgeIntoCurrent.value))
              && (mgr.current.Some? && |graph.nodes| >= 2 ==> edgeIntoCurrent.Some?)
      ensures Wired() ==> |mgr.All()| == |graph.nodes|
    {
    }

    /** One node more, and where a submap froze, the closures that were found. */
    method Open(ghost before: seq<Submap>, froze: bool, matcher: Matcher, trig: Trig)
      requires cfg.Valid() && mgr.cfg == cfg.submap && mgr.Valid() && mgr.current.Some?
                && mgr.current.value.anchorPose == tracked
      requires mgr.All() == before + [mgr.current.value] && Aligned(before, graph.nodes, nodeForSubmap)
      requires Joined(graph.edges, |graph.nodes|, cfg.loops.minIndexGap)
      modifies this`edgeIntoCurrent, this`jumped, this`nodeForSubmap, this`nLoops, this`tracked, this`dirty, graph,
                mgr.All()`anchorPose
      ensures Wired() && !jumped && dirty && mgr.current.value.anchorPose == tracked
      ensures var loops := old(if froze then FoundLoops(cfg.loops, mgr.frozen, matcher, trig) else []);
              && nLoops == old(nLoops) + |loops|
              && Closed(cfg, trig, old(jumped), loops,
                   EdgesWith(cfg, old(jumped), old(graph.edges), old(graph.nodes), old(tracked)),
                   NodesWith(old(graph.nodes), old(tracked)), graph.edges, graph.nodes)
              && (old(jumped) || loops == [] ==> tracked == old(tracked))
              && edgeIntoCurrent == if old(graph.nodes) == [] then None else Some(|old(graph.edges)|)
      ensures old(Counted()) ==> Counted()
    {
      hide Joined, LinkInformation, SubmapManager.Valid, LeadsIn, Between, Compose, OccupancyGrid.Valid, Aligned,
          SettledGraph, ClosuresWith, SlamConfig.Valid;
      var wasJumped := OpenNode(before);
      if froze && |mgr.frozen| >= 2 {
        CloseLoops(wasJumped, matcher, trig);
        if !wasJumped {
          SamePlace(mgr.current.value.anchorPose, tracked, old(tracked));
        }
      }
      dirty := true;
    }
  }

  lemma LastNodeFollows(submaps: seq<Submap>, nodes: seq<PoseNode>, nodeForSubmap: seq<nat>, anchor: Pose)
    requires AlignedButLast(submaps, nodes, nodeForSubmap) && submaps[|submaps| - 1].anchorPose == anchor
    ensures var n := |nodes|;
            |nodeForSubmap| == n == |submaps| > 0 && nodeForSubmap[n - 1] == n - 1
            && Aligned(submaps, nodes[n - 1 := nodes[n - 1].(pose := anchor)], nodeForSubmap)
  {
  }

  lemma OneEdgeMeasuredAnew(edges: seq<PoseEdge>, e: nat, edge: PoseEdge)
    requires e < |edges| && edge.from == edges[e].from && edge.to == edges[e].to
    ensures SameEnds(edges, edges[e := edge])
  {
  }

  lemma NoEdgeMeasuredAnew(edges: seq<PoseEdge>)
    ensures SameEnds(edges, edges)
  {
  }

  lemma ReplacedLast(before: seq<Submap>, after: seq<Submap>, nodes: seq<PoseNode>, nodeForSubmap: seq<nat>)
    requires Aligned(before, nodes, nodeForSubmap) && |after| == |before| > 0 && forall i ::
              0 <= i < |after| - 1 ==> after[i] == before[i]
    ensures AlignedButLast(after, nodes, nodeForSubmap)
  {
  }

  lemma SamePlace(anchor: Pose, tracked: Pose, before: Pose)
    requires Between(anchor, tracked) == Between(before, before)
    ensures anchor == tracked
  {
  }

  lemma StillTheSameNodes(before: seq<PoseNode>, after: seq<PoseNode>)
    requires OnlyFreeNodesMoved(before, after)
    ensures |after| == |before|
    ensures forall i {:trigger after[i]} :: 0 <= i < |after| ==>
              after[i].submapIdx == before[i].submapIdx && after[i].held == before[i].held
                  && (before[i].held ==> after[i].pose == before[i].pose)
  {
  }

  lemma ClosuresSpanTheGap(loops: seq<LoopClosure>, submaps: seq<Submap>, newIdx: nat, cfg: LoopCloserConfig,
      matcher: Matcher, trig: Trig)
    requires newIdx < |submaps| && loops == ClosuresWith(submaps, newIdx, cfg, matcher, trig, |submaps|)
    ensures forall k :: 0 <= k < |loops| ==> loops[k].fromIdx + cfg.minIndexGap < loops[k].toIdx == newIdx
  {
    hide ClosureWith, ClosuresWith;
    ClosuresAreThose(submaps, newIdx, cfg, matcher, trig, |submaps|);
    forall k | 0 <= k < |loops| ensures loops[k].fromIdx + cfg.minIndexGap < loops[k].toIdx == newIdx {
      assert IsOne(submaps, newIdx, cfg, matcher, trig, |submaps|, loops[k]);
    }
  }

  lemma NoEdges(edges: seq<PoseEdge>, gap: nat)
    requires Chained(edges, 0, gap)
    ensures edges == []
  {
    assert edges != [] ==> IsLink(edges[0], 0) || IsClosure(edges[0], 0, gap);
  }
}
