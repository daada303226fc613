/** The optimizer, `maploc/src/optimizer.rs`: what a solve moves and where it stops, and
    which edges are disowned. The angle of a heading, the heading of an angle and the
    square root are given. */
module Optimizer {
  import opened Reals
  import opened Grid
  import opened Poses
  import LinearAlgebra
  import opened LinearSolver
  import opened NormalEquations
  import opened PoseGraphs

  datatype OptimizerConfig = OptimizerConfig(
    maxIters: nat, huberDelta: real, epsXy: real, epsYaw: real, lambda: real, rejectSigmas: real, rejectMax: nat)

  type Mat3 = LinearAlgebra.Mat3
  type Vec3 = LinearAlgebra.Vec3

  const DISOWNED: Mat3 := LinearAlgebra.Diag(0.0, 0.0, 0.0)

  predicate InRange(e: PoseEdge, n: nat)
  {
    e.from < n && e.to < n
  }

  predicate AllInRange(edges: seq<PoseEdge>, n: nat)
  {
    forall k :: 0 <= k < |edges| ==> InRange(edges[k], n)
  }

  // ── One edge ────────────────────────────────────────────────────────────────

  /** What lies between two poses, less what was measured. */
  function ResidualAt(m: Pose, a: Pose, b: Pose, trig: Trig): Vec3
  {
    var pred := Between(a, b);
    LinearAlgebra.Vec3(pred.at.x - m.at.x, pred.at.y - m.at.y, trig.angle(Turn(Back(m.heading), pred.heading)))
  }

  function Residual(e: PoseEdge, nodes: seq<PoseNode>, trig: Trig): Vec3
    requires InRange(e, |nodes|)
  {
    ResidualAt(e.measurement, nodes[e.from].pose, nodes[e.to].pose, trig)
  }

  /** Of the angles only that of no turn is zero. */
  ghost predicate OnlyEastIsZero(trig: Trig)
  {
    forall h: Heading :: trig.angle(h) == 0.0 <==> h == EAST
  }

  /** An edge is at rest exactly when what lies between its poses is what was measured. */
  lemma ResidualIsZeroIff(m: Pose, a: Pose, b: Pose, trig: Trig)
    requires OnlyEastIsZero(trig)
    ensures ResidualAt(m, a, b, trig) == LinearAlgebra.ZERO <==> Between(a, b) == m
  {
    hide Between, IsUnit;
    var pred := Between(a, b);
    NoTurnBetween(m.heading, pred.heading);
    hide Turn, Back;
    assert pred == m <==> pred.at.x == m.at.x && pred.at.y == m.at.y && pred.heading == m.heading;
  }

  lemma NoTurnBetween(a: Heading, b: Heading)
    ensures Turn(Back(a), b) == EAST <==> a == b
  {
    var (p, q) := (Pose(Vec(0.0, 0.0), a), Pose(Vec(0.0, 0.0), b));
    BetweenThenCompose(p, q);
    BetweenItself(p);
    if Turn(Back(a), b) == EAST {
      assert Between(p, q).heading == EAST && Compose(p, Between(p, q)).heading == Turn(a, EAST);
      EastTurnsNothing(a);
    }
  }

  lemma EastTurnsNothing(a: Heading)
    ensures Turn(a, EAST) == a == Turn(EAST, a)
  {
  }

  function Chi2(e: PoseEdge, nodes: seq<PoseNode>, trig: Trig): real
    requires InRange(e, |nodes|)
  {
    LinearAlgebra.Form(e.information, Residual(e, nodes, trig))
  }

  /** Past `huberDelta` sigmas an edge's information falls off with its residual. */
  function Reweighted(information: Mat3, chi2: real, cfg: OptimizerConfig, trig: Trig): Mat3
  {
    var e := trig.root(MaxReal(chi2, 0.0));
    if cfg.huberDelta > 0.0 && e > cfg.huberDelta then LinearAlgebra.ScaleAll(cfg.huberDelta / e, information)
        else information
  }

  /** How what lies between two nodes changes with the first, and with the second. */
  function JacobianFrom(a: Pose, pred: Pose): Mat3
  {
    var (c, s) := (a.heading.c, a.heading.s);
    LinearAlgebra.Mat3(LinearAlgebra.Vec3(-c, -s, pred.at.y), LinearAlgebra.Vec3(s, -c, -pred.at.x),
        LinearAlgebra.Vec3(0.0, 0.0, -1.0))
  }

  function JacobianTo(a: Pose): Mat3
  {
    var (c, s) := (a.heading.c, a.heading.s);
    LinearAlgebra.Mat3(LinearAlgebra.Vec3(c, s, 0.0), LinearAlgebra.Vec3(-s, c, 0.0), LinearAlgebra.Vec3(0.0, 0.0, 1.0))
  }

  function Linearized(e: PoseEdge, nodes: seq<PoseNode>, cfg: OptimizerConfig, trig: Trig): Term
    requires InRange(e, |nodes|)
  {
    var (a, b) := (nodes[e.from].pose, nodes[e.to].pose);
    Term(e.from, e.to, JacobianFrom(a, Between(a, b)), JacobianTo(a),
         Reweighted(e.information, Chi2(e, nodes, trig), cfg, trig), Residual(e, nodes, trig))
  }

  ghost function LinearizedAll(edges: seq<PoseEdge>, nodes: seq<PoseNode>, cfg: OptimizerConfig,
      trig: Trig): (ts: seq<Term>)
    requires AllInRange(edges, |nodes|)
    ensures |ts| == |edges| && forall k :: 0 <= k < |edges| ==> ts[k] == Linearized(edges[k], nodes, cfg, trig)
    ensures AllFit(ts, 3 * |nodes|)
  {
    seq(|edges|, k requires 0 <= k < |edges| => Linearized(edges[k], nodes, cfg, trig))
  }

  /** Moves in the plane change what lies between two nodes exactly as the Jacobians say. */
  lemma PlanarMovesAreExact(a: Pose, b: Pose, da: Vec, db: Vec)
    ensures var (pred, moved) := (Between(a, b), Between(a.(at := Plus(a.at, da)), b.(at := Plus(b.at, db))));
            var d := LinearAlgebra.Plus(LinearAlgebra.Apply(JacobianFrom(a, pred), LinearAlgebra.Vec3(da.x, da.y, 0.0)),
                                        LinearAlgebra.Apply(JacobianTo(a), LinearAlgebra.Vec3(db.x, db.y, 0.0)));
            moved == pred.(at := Plus(pred.at, Vec(d.x, d.y))) && d.z == 0.0
  {
    hide Turn, Back, IsUnit;
    var (pred, moved) := (Between(a, b), Between(a.(at := Plus(a.at, da)), b.(at := Plus(b.at, db))));
    var d := LinearAlgebra.Plus(LinearAlgebra.Apply(JacobianFrom(a, pred), LinearAlgebra.Vec3(da.x, da.y, 0.0)),
                                LinearAlgebra.Apply(JacobianTo(a), LinearAlgebra.Vec3(db.x, db.y, 0.0)));
    assert moved.at.x == pred.at.x + d.x;
    assert moved.at.y == pred.at.y + d.y;
  }

  /** The angles of a heading and of a turn add up. */
  predicate AddsUp(trig: Trig, h: Heading, t: real)
  {
    trig.angle(Turn(h, trig.heading(t))) == trig.angle(h) + t
  }

  /** Where the first node does not turn, the residual changes exactly as the Jacobians
      say, the second node's turn included as long as the angles add up. */
  lemma ResidualMovesExactly(m: Pose, a: Pose, b: Pose, da: Vec, db: Vec, t: real, trig: Trig)
    requires AddsUp(trig, Turn(Back(m.heading), Between(a, b).heading), t)
    ensures ResidualAt(m, a.(at := Plus(a.at, da)), Pose(Plus(b.at, db), Turn(b.heading, trig.heading(t))), trig)
         == LinearAlgebra.Plus(ResidualAt(m, a, b, trig),
              LinearAlgebra.Plus(LinearAlgebra.Apply(JacobianFrom(a, Between(a, b)),
                  LinearAlgebra.Vec3(da.x, da.y, 0.0)),
                                 LinearAlgebra.Apply(JacobianTo(a), LinearAlgebra.Vec3(db.x, db.y, t))))
  {
    hide Turn, Back, IsUnit;
    var (a', b') := (a.(at := Plus(a.at, da)), b.(at := Plus(b.at, db)));
    var turned := b'.(heading := Turn(b.heading, trig.heading(t)));
    PlanarMovesAreExact(a, b, da, db);
    TurningTheSecond(a', b', trig.heading(t));
    TurnsAssociate(Back(m.heading), Between(a, b).heading, trig.heading(t));
    OneColumnTurns(a, Between(a, b), da, db, t);
    hide Between, JacobianFrom, JacobianTo, LinearAlgebra.Apply;
    var (before, after) := (ResidualAt(m, a, b, trig), ResidualAt(m, a', turned, trig));
    var d := LinearAlgebra.Plus(LinearAlgebra.Apply(JacobianFrom(a, Between(a, b)),
        LinearAlgebra.Vec3(da.x, da.y, 0.0)),
                                LinearAlgebra.Apply(JacobianTo(a), LinearAlgebra.Vec3(db.x, db.y, t)));
    assert after.x == before.x + d.x;
    assert after.y == before.y + d.y;
    assert after.z == before.z + d.z;
  }

  lemma TurningTheSecond(a: Pose, b: Pose, h: Heading)
    ensures Between(a, b.(heading := Turn(b.heading, h))) == Pose(Between(a, b).at, Turn(Between(a, b).heading, h))
  {
    hide IsUnit, Turn, Back;
    TurnsAssociate(Back(a.heading), b.heading, h);
  }

  lemma OneColumnTurns(a: Pose, pred: Pose, da: Vec, db: Vec, t: real)
    ensures LinearAlgebra.Apply(JacobianFrom(a, pred), LinearAlgebra.Vec3(da.x, da.y, 0.0)).z == 0.0
    ensures var d := LinearAlgebra.Apply(JacobianTo(a), LinearAlgebra.Vec3(db.x, db.y, 0.0));
            LinearAlgebra.Apply(JacobianTo(a), LinearAlgebra.Vec3(db.x, db.y, t)) == LinearAlgebra.Vec3(d.x, d.y, t)
  {
  }

  /** A turn of the first node, to first order: the sine times the Jacobian's column, and
      what the cosine lacks of one. */
  lemma TurningTheFirst(a: Pose, b: Pose, h: Heading)
    ensures var (pred, turned) := (Between(a, b), Between(a.(heading := Turn(a.heading, h)), b));
            var j := JacobianFrom(a, pred);
            && turned.at.x == pred.at.x + h.s * j.r0.z + (h.c - 1.0) * pred.at.x
            && turned.at.y == pred.at.y + h.s * j.r1.z + (h.c - 1.0) * pred.at.y
            && turned.heading == Turn(Back(h), pred.heading) && j.r2 == LinearAlgebra.Vec3(0.0, 0.0, -1.0)
  {
    hide IsUnit;
    var (pred, turned) := (Between(a, b), Between(a.(heading := Turn(a.heading, h)), b));
    var step := Poses.Minus(b.at, a.at);
    BackOfATurn(a.heading, h);
    TurnsAssociate(Back(h), Back(a.heading), b.heading);
    hide Turn, Back;
    RotateTurned(Back(h), Back(a.heading), step);
    RotateBackParts(Turn(a.heading, h), step);
    RotateBackParts(a.heading, step);
    RotateBackParts(h, pred.at);
    hide Rotate;
    assert turned.at == Unrotate(h, pred.at);
  }

  lemma BackOfATurn(a: Heading, h: Heading)
    ensures Back(Turn(a, h)) == Turn(Back(h), Back(a))
  {
  }

  /** Past the threshold an edge costs in proportion to its residual in sigmas. */
  lemma HuberGrowsLinearly(e: PoseEdge, nodes: seq<PoseNode>, cfg: OptimizerConfig, trig: Trig)
    requires InRange(e, |nodes|) && LinearAlgebra.PositiveSemidefinite(e.information)
    requires var c := Chi2(e, nodes, trig); trig.root(MaxReal(c, 0.0)) * trig.root(MaxReal(c, 0.0)) == MaxReal(c, 0.0)
    ensures var (c, w) := (Chi2(e, nodes, trig), Reweighted(e.information, Chi2(e, nodes, trig), cfg, trig));
            var sigmas := trig.root(MaxReal(c, 0.0));
            LinearAlgebra.Form(w, Residual(e, nodes, trig))
            == if cfg.huberDelta > 0.0 && sigmas > cfg.huberDelta then cfg.huberDelta * sigmas else c
  {
    hide LinearAlgebra.Form, Residual;
    var r := Residual(e, nodes, trig);
    var c := LinearAlgebra.Form(e.information, r);
    var sigmas := trig.root(MaxReal(c, 0.0));
    assert c >= 0.0;
    if cfg.huberDelta > 0.0 && sigmas > cfg.huberDelta {
      LinearAlgebra.FormScales(cfg.huberDelta / sigmas, e.information, r);
      ScaledSquare(cfg.huberDelta, sigmas, c);
    }
  }

  lemma ScaledSquare(delta: real, sigmas: real, c: real)
    requires sigmas > 0.0 && c == sigmas * sigmas
    ensures delta / sigmas * c == delta * sigmas
  {
    assert delta / sigmas * sigmas == delta;
  }

  /** No edge's information is negative along any direction. */
  ghost predicate AllInformative(edges: seq<PoseEdge>)
  {
    forall k :: 0 <= k < |edges| ==> LinearAlgebra.PositiveSemidefinite(edges[k].information)
  }

  lemma LinearizedStayInformative(edges: seq<PoseEdge>, nodes: seq<PoseNode>, cfg: OptimizerConfig, trig: Trig)
    requires AllInRange(edges, |nodes|) && AllInformative(edges)
    ensures Informative(LinearizedAll(edges, nodes, cfg, trig))
  {
    hide LinearAlgebra.PositiveSemidefinite;
    forall k | 0 <= k < |edges| ensures LinearAlgebra.PositiveSemidefinite(Linearized(edges[k], nodes, cfg,
        trig).info) {
      var e := trig.root(MaxReal(Chi2(edges[k], nodes, trig), 0.0));
      if cfg.huberDelta > 0.0 && e > cfg.huberDelta {
        LinearAlgebra.ScaledIsPositive(cfg.huberDelta / e, edges[k].information);
      }
    }
  }

  // ── One solve ───────────────────────────────────────────────────────────────

  /** One node's share of a solution: a step in the map frame and a turn. */
  function MovedNode(n: PoseNode, d: Vec3, trig: Trig): PoseNode
  {
    if n.held then n
    else n.(pose := Pose(Vec(n.pose.at.x + d.x, n.pose.at.y + d.y), Turn(n.pose.heading, trig.heading(d.z))))
  }

  function Moved(nodes: seq<PoseNode>, x: Vector, trig: Trig): (r: seq<PoseNode>)
    requires |x| == 3 * |nodes|
    ensures |r| == |nodes|
  {
    seq(|nodes|, k requires 0 <= k < |nodes| => MovedNode(nodes[k], Block(x, k), trig))
  }

  // ── A planar step ───────────────────────────────────────────────────────────

  /** No node turns. */
  ghost predicate Planar(nodes: seq<PoseNode>, x: Vector)
  {
    |x| == 3 * |nodes| && forall k :: 0 <= k < |nodes| ==> Block(x, k).z == 0.0
  }

  /** The pose a node has after a planar step that leaves the held nodes still. */
  lemma PlanarPose(nodes: seq<PoseNode>, x: Vector, k: nat, trig: Trig)
    requires HeldStill(nodes, x) && Planar(nodes, x) && k < |nodes| && trig.heading(0.0) == EAST
    ensures Moved(nodes, x, trig)[k].pose
         == nodes[k].pose.(at := Plus(nodes[k].pose.at, Vec(Block(x, k).x, Block(x, k).y)))
  {
    hide Turn;
    EastTurnsNothing(nodes[k].pose.heading);
    if nodes[k].held {
      HeldAt(nodes, k, 0);
      HeldAt(nodes, k, 1);
    }
  }

  /** After such a step an edge's residual is the linearized one. */
  lemma PlanarResidual(e: PoseEdge, nodes: seq<PoseNode>, x: Vector, cfg: OptimizerConfig, trig: Trig)
    requires InRange(e, |nodes|) && HeldStill(nodes, x) && Planar(nodes, x) && trig.heading(0.0) == EAST
    ensures Residual(e, Moved(nodes, x, trig), trig)
         == LinearAlgebra.Plus(Residual(e, nodes, trig), Change(Linearized(e, nodes, cfg, trig), x))
  {
    hide Between, Turn, Back, Moved, Block, JacobianFrom, JacobianTo, LinearAlgebra.Apply, Reweighted;
    var (a, b, da, db) := (nodes[e.from].pose, nodes[e.to].pose, Block(x, e.from), Block(x, e.to));
    PlanarPose(nodes, x, e.from, trig);
    PlanarPose(nodes, x, e.to, trig);
    EastTurnsNothing(Turn(Back(e.measurement.heading), Between(a, b).heading));
    EastTurnsNothing(b.heading);
    ResidualMovesExactly(e.measurement, a, b, Vec(da.x, da.y), Vec(db.x, db.y), 0.0, trig);
  }

  /** The squared residuals of the first `k` edges, weighted. */
  ghost function Cost(edges: seq<PoseEdge>, k: nat, nodes: seq<PoseNode>, trig: Trig): real
    requires k <= |edges| && AllInRange(edges, |nodes|)
  {
    if k == 0 then 0.0 else Cost(edges, k - 1, nodes, trig) + Chi2(edges[k - 1], nodes, trig)
  }

  /** Without reweighting the linearized cost of a planar step is the cost at the nodes
      it leads to. */
  lemma {:induction false} PlanarCost(edges: seq<PoseEdge>, k: nat, nodes: seq<PoseNode>, x: Vector,
      cfg: OptimizerConfig, trig: Trig)
    requires AllInRange(edges, |nodes|) && k <= |edges| && cfg.huberDelta <= 0.0
    requires HeldStill(nodes, x) && Planar(nodes, x) && trig.heading(0.0) == EAST
    ensures EdgesCost(LinearizedAll(edges, nodes, cfg, trig), k, x) == Cost(edges, k, Moved(nodes, x, trig), trig)
  {
    hide Residual, Moved, Change, LinearAlgebra.Form, LinearAlgebra.Plus;
    if k > 0 {
      PlanarCost(edges, k - 1, nodes, x, cfg, trig);
      PlanarResidual(edges[k - 1], nodes, x, cfg, trig);
    }
  }

  /** No other planar move that leaves the held nodes still costs as little, at the nodes
      it leads to, with what the damping charges. */
  ghost predicate BestPlanarMove(edges: seq<PoseEdge>, nodes: seq<PoseNode>, cfg: OptimizerConfig, trig: Trig,
      x: Vector)
    requires AllInRange(edges, |nodes|) && |x| == 3 * |nodes|
  {
    forall y: Vector {:trigger HeldStill(nodes, y)} :: HeldStill(nodes, y) && Planar(nodes, y) && y != x ==>
      Cost(edges, |edges|, Moved(nodes, x, trig), trig) + Times(cfg.lambda, Part(x, x, 0, |x|))
      < Cost(edges, |edges|, Moved(nodes, y, trig), trig) + Times(cfg.lambda, Part(y, y, 0, |y|))
  }

  /** Where the linearization is exact and nothing counts negatively. */
  ghost predicate Plain(edges: seq<PoseEdge>, cfg: OptimizerConfig, trig: Trig)
  {
    AllInformative(edges) && cfg.lambda > 0.0 && cfg.huberDelta <= 0.0 && trig.heading(0.0) == EAST
  }

  lemma PlanarStepIsBest(edges: seq<PoseEdge>, nodes: seq<PoseNode>, cfg: OptimizerConfig, trig: Trig, x: Vector)
    requires AllInRange(edges, |nodes|) && Plain(edges, cfg, trig) && |x| == 3 * |nodes|
    requires IsTheStep(nodes, LinearizedAll(edges, nodes, cfg, trig), cfg.lambda, x) && Planar(nodes, x)
    ensures BestPlanarMove(edges, nodes, cfg, trig, x)
  {
    hide Cost, Moved, EdgesCost, Balanced, Linearized, Part, Times, Informative, AllInformative, Planar;
    LinearizedStayInformative(edges, nodes, cfg, trig);
    PlanarCost(edges, |edges|, nodes, x, cfg, trig);
    forall y: Vector | HeldStill(nodes, y) && Planar(nodes, y) && y != x
      ensures Cost(edges, |edges|, Moved(nodes, x, trig), trig) + Times(cfg.lambda, Part(x, x, 0, |x|))
            < Cost(edges, |edges|, Moved(nodes, y, trig), trig) + Times(cfg.lambda, Part(y, y, 0, |y|))
    {
      PlanarCost(edges, |edges|, nodes, y, cfg, trig);
      assert DampedCost(LinearizedAll(edges, nodes, cfg, trig), cfg.lambda, x)
           < DampedCost(LinearizedAll(edges, nodes, cfg, trig), cfg.lambda, y);
    }
  }

  // ── Edges at rest ───────────────────────────────────────────────────────────

  /** Between the ends of every edge lies what was measured. */
  ghost predicate AtRest(edges: seq<PoseEdge>, nodes: seq<PoseNode>)
    requires AllInRange(edges, |nodes|)
  {
    forall k :: 0 <= k < |edges| ==> IsMet(edges[k], nodes)
  }

  predicate IsMet(e: PoseEdge, nodes: seq<PoseNode>)
    requires InRange(e, |nodes|)
  {
    Between(nodes[e.from].pose, nodes[e.to].pose) == e.measurement
  }

  /** Only no turn has no angle, and nothing counts negatively. */
  ghost predicate Settling(edges: seq<PoseEdge>, cfg: OptimizerConfig, trig: Trig)
  {
    AllInformative(edges) && cfg.lambda > 0.0 && OnlyEastIsZero(trig) && trig.heading(0.0) == EAST
  }

  ghost function Still(n: nat): (x: Vector)
    ensures |x| == n && forall k :: 0 <= k < n ==> x[k] == 0.0
  {
    seq(n, _ => 0.0)
  }

  lemma StillChangesNothing(t: Term, x: Vector)
    requires t.Fits(|x|) && x == Still(|x|) && t.r == LinearAlgebra.ZERO
    ensures LinearAlgebra.Form(t.info, LinearAlgebra.Plus(t.r, Change(t, x))) == 0.0
  {
    assert Block(x, t.from) == Block(x, t.to) == LinearAlgebra.ZERO;
    hide Block;
    assert LinearAlgebra.Plus(t.r, Change(t, x)) == LinearAlgebra.ZERO;
  }

  lemma {:induction false} StillCostsNothing(ts: seq<Term>, k: nat, x: Vector)
    requires AllFit(ts, |x|) && k <= |ts| && x == Still(|x|)
    requires forall j :: 0 <= j < |ts| ==> ts[j].r == LinearAlgebra.ZERO
    ensures EdgesCost(ts, k, x) == 0.0
  {
    hide LinearAlgebra.Form, LinearAlgebra.Plus, Change;
    if k > 0 {
      StillCostsNothing(ts, k - 1, x);
      StillChangesNothing(ts[k - 1], x);
    }
  }

  lemma {:induction false} CostsAreNotNegative(ts: seq<Term>, k: nat, x: Vector)
    requires AllFit(ts, |x|) && k <= |ts| && Informative(ts)
    ensures EdgesCost(ts, k, x) >= 0.0
  {
    hide LinearAlgebra.Form, LinearAlgebra.Plus, Change;
    if k > 0 {
      CostsAreNotNegative(ts, k - 1, x);
    }
  }

  /** With every edge at rest there is no step but none at all. */
  lemma RestingStepIsStill(edges: seq<PoseEdge>, nodes: seq<PoseNode>, cfg: OptimizerConfig, trig: Trig, x: Vector)
    requires AllInRange(edges, |nodes|) && Settling(edges, cfg, trig) && AtRest(edges, nodes)
    requires IsTheStep(nodes, LinearizedAll(edges, nodes, cfg, trig), cfg.lambda, x)
    ensures x == Still(|x|)
  {
    hide Balanced, EdgesCost, Part, Between, Linearized, Informative, AllInformative, LinearAlgebra.ZERO;
    var ts := LinearizedAll(edges, nodes, cfg, trig);
    var still := Still(|x|);
    LinearizedStayInformative(edges, nodes, cfg, trig);
    AtRestIsZero(edges, nodes, cfg, trig);
    StillCostsNothing(ts, |ts|, still);
    PartOnZeros(still, still, 0, |x|);
    CostsAreNotNegative(ts, |ts|, x);
    SquaresAreNotNegative(x, |x|);
    ProductIsNotNegative(cfg.lambda, Part(x, x, 0, |x|));
    ProductWithZero(cfg.lambda);
    assert HeldStill(nodes, still);
    assert x != still ==> DampedCost(ts, cfg.lambda, x) < DampedCost(ts, cfg.lambda, still);
  }

  lemma ProductIsNotNegative(a: real, b: real)
    requires a >= 0.0 && b >= 0.0
    ensures Times(a, b) >= 0.0
  {
  }

  lemma ProductWithZero(a: real)
    ensures Times(a, 0.0) == 0.0
  {
  }

  lemma AtRestIsZero(edges: seq<PoseEdge>, nodes: seq<PoseNode>, cfg: OptimizerConfig, trig: Trig)
    requires AllInRange(edges, |nodes|) && OnlyEastIsZero(trig) && AtRest(edges, nodes)
    ensures forall k :: 0 <= k < |edges| ==> LinearizedAll(edges, nodes, cfg, trig)[k].r == LinearAlgebra.ZERO
  {
    hide ResidualAt, OnlyEastIsZero, LinearAlgebra.ZERO, Between, JacobianFrom, JacobianTo, Reweighted, Chi2;
    forall k | 0 <= k < |edges| ensures Linearized(edges[k], nodes, cfg, trig).r == LinearAlgebra.ZERO {
      var e := edges[k];
      assert IsMet(e, nodes);
      ResidualIsZeroIff(e.measurement, nodes[e.from].pose, nodes[e.to].pose, trig);
    }
  }

  lemma StillMovesNothing(nodes: seq<PoseNode>, x: Vector, trig: Trig)
    requires |x| == 3 * |nodes| && x == Still(|x|) && trig.heading(0.0) == EAST
    ensures Moved(nodes, x, trig) == nodes
  {
    hide Turn;
    forall k | 0 <= k < |nodes| ensures Moved(nodes, x, trig)[k] == nodes[k] {
      EastTurnsNothing(nodes[k].pose.heading);
    }
  }

  /** Nodes between which lies all that was measured are left where they are. */
  lemma {:induction false} RestingStay(edges: seq<PoseEdge>, nodes: seq<PoseNode>, cfg: OptimizerConfig, trig: Trig,
      steps: seq<Vector>, k: nat)
    requires AllInRange(edges, |nodes|) && Settling(edges, cfg, trig) && AtRest(edges, nodes)
    requires AllSized(steps, |nodes|) && k <= |steps| && AllSolved(edges, nodes, cfg, trig, steps)
    ensures MovedBy(nodes, steps, k, trig) == nodes
  {
    hide Settling, AtRest, IsTheStep, Moved, LinearizedAll;
    if k > 0 {
      RestingStay(edges, nodes, cfg, trig, steps, k - 1);
      assert IsTheStep(nodes, LinearizedAll(edges, nodes, cfg, trig), cfg.lambda, steps[k - 1]);
      RestingStepIsStill(edges, nodes, cfg, trig, steps[k - 1]);
      SettlingSays(edges, cfg, trig);
      StillMovesNothing(nodes, steps[k - 1], trig);
    }
  }

  lemma SettlingSays(edges: seq<PoseEdge>, cfg: OptimizerConfig, trig: Trig)
    requires Settling(edges, cfg, trig)
    ensures trig.heading(0.0) == EAST
  {
  }

  ghost predicate AllSized(steps: seq<Vector>, n: nat)
  {
    forall it :: 0 <= it < |steps| ==> |steps[it]| == 3 * n
  }

  /** The nodes after `k` steps. */
  ghost function MovedBy(nodes: seq<PoseNode>, steps: seq<Vector>, k: nat, trig: Trig): (r: seq<PoseNode>)
    requires k <= |steps| && AllSized(steps, |nodes|)
    ensures |r| == |nodes|
  {
    if k == 0 then nodes else Moved(MovedBy(nodes, steps, k - 1, trig), steps[k - 1], trig)
  }

  predicate IsMovedNode(before: PoseNode, after: PoseNode)
  {
    after == before.(pose := after.pose) && (before.held ==> after == before)
  }

  /** Nothing but the poses of the free nodes differs. */
  ghost predicate OnlyFreeNodesMoved(before: seq<PoseNode>, after: seq<PoseNode>)
  {
    |before| == |after| && forall k {:trigger after[k]} :: 0 <= k < |after| ==> IsMovedNode(before[k], after[k])
  }

  lemma {:induction false} MovingKeepsTheHeld(nodes: seq<PoseNode>, steps: seq<Vector>, k: nat, trig: Trig)
    requires k <= |steps| && AllSized(steps, |nodes|)
    ensures OnlyFreeNodesMoved(nodes, MovedBy(nodes, steps, k, trig))
  {
    hide Block;
    if k > 0 {
      MovingKeepsTheHeld(nodes, steps, k - 1, trig);
    }
  }

  /** How far a step goes, squared. */
  function Square(d: Vec3): real
  {
    d.x * d.x + d.y * d.y
  }

  /** A step below both thresholds. */
  predicate IsSmall(d: Vec3, cfg: OptimizerConfig)
  {
    Square(d) < cfg.epsXy * cfg.epsXy && -cfg.epsYaw < d.z < cfg.epsYaw
  }

  /** The largest step of a free node is below both thresholds. */
  predicate AllSmall(nodes: seq<PoseNode>, x: Vector, cfg: OptimizerConfig)
    requires |x| == 3 * |nodes|
  {
    0.0 < cfg.epsXy && 0.0 < cfg.epsYaw && forall k :: 0 <= k < |nodes| && !nodes[k].held ==> IsSmall(Block(x, k), cfg)
  }

  /** The farthest step, squared, and the widest turn of the first `k` nodes, held ones aside. */
  ghost predicate Largest(nodes: seq<PoseNode>, x: Vector, k: nat, farthest: real, widest: real)
    requires |x| == 3 * |nodes|
  {
    && k <= |nodes| && 0.0 <= farthest && 0.0 <= widest
    && (forall j :: 0 <= j < k && !nodes[j].held ==> Square(Block(x, j)) <= farthest && Across(Block(x, j)) <= widest)
    && (farthest == 0.0 || exists j :: 0 <= j < k && !nodes[j].held && Square(Block(x, j)) == farthest)
    && (widest == 0.0 || exists j :: 0 <= j < k && !nodes[j].held && Across(Block(x, j)) == widest)
  }

  /** How far a step turns, either way. */
  function Across(d: Vec3): real
  {
    MaxReal(d.z, -d.z)
  }

  lemma LargestSoFar(nodes: seq<PoseNode>, x: Vector, k: nat, farthest: real, widest: real)
    requires |x| == 3 * |nodes| && Largest(nodes, x, k, farthest, widest) && k < |nodes|
    ensures nodes[k].held ==> Largest(nodes, x, k + 1, farthest, widest)
    ensures !nodes[k].held ==> var d := Block(x, k);
              Largest(nodes, x, k + 1, MaxReal(farthest, Square(d)), MaxReal(widest, Across(d)))
  {
    hide Block, Square, Across;
  }

  lemma LargestIsSmall(nodes: seq<PoseNode>, x: Vector, cfg: OptimizerConfig, farthest: real, widest: real)
    requires |x| == 3 * |nodes| && Largest(nodes, x, |nodes|, farthest, widest)
    ensures AllSmall(nodes, x, cfg)
        <==> 0.0 < cfg.epsXy && farthest < Times(cfg.epsXy, cfg.epsXy) && widest < cfg.epsYaw
  {
    hide Block, Square, Across, IsSmall;
    forall k | 0 <= k < |nodes| ensures IsSmall(Block(x, k), cfg)
        <==> Square(Block(x, k)) < Times(cfg.epsXy, cfg.epsXy) && Across(Block(x, k)) < cfg.epsYaw {
      SmallEachWay(Block(x, k), cfg);
    }
    PositiveSquare(cfg.epsXy);
    hide Times;
  }

  lemma SmallEachWay(d: Vec3, cfg: OptimizerConfig)
    ensures IsSmall(d, cfg) <==> Square(d) < Times(cfg.epsXy, cfg.epsXy) && Across(d) < cfg.epsYaw
  {
  }

  lemma NoneIsLargest(nodes: seq<PoseNode>, x: Vector)
    requires |x| == 3 * |nodes|
    ensures Largest(nodes, x, 0, 0.0, 0.0)
  {
  }

  lemma PositiveSquare(x: real)
    ensures 0.0 < x ==> 0.0 < Times(x, x)
  {
    if 0.0 < x {
      PositiveProduct(x, x, Times(x, x));
    }
  }

  /** Applies one solution to the free nodes. */
  method Apply(graph: PoseGraph, cfg: OptimizerConfig, x: Vector, trig: Trig) returns (small: bool)
    requires |x| == 3 * |graph.nodes|
    modifies graph`nodes
    ensures graph.nodes == Moved(old(graph.nodes), x, trig)
    ensures small <==> AllSmall(old(graph.nodes), x, cfg)
  {
    hide Block, Square, Across, AllSmall, Largest, Turn;
    ghost var before := graph.nodes;
    var (farthest, widest) := (0.0, 0.0);
    NoneIsLargest(before, x);
    for k := 0 to |graph.nodes|
      invariant |graph.nodes| == |before|
      invariant forall j :: 0 <= j < k ==> graph.nodes[j] == MovedNode(before[j], Block(x, j), trig)
      invariant forall j :: k <= j < |before| ==> graph.nodes[j] == before[j]
      invariant Largest(before, x, k, farthest, widest)
    {
      var node := graph.nodes[k];
      LargestSoFar(before, x, k, farthest, widest);
      if node.held {
        continue;
      }
      var d := Block(x, k);
      graph.nodes := graph.nodes[k := MovedNode(node, d, trig)];
      farthest := MaxReal(farthest, Square(d));
      widest := MaxReal(widest, Across(d));
    }
    LargestIsSmall(before, x, cfg, farthest, widest);
    small := 0.0 < cfg.epsXy && farthest < cfg.epsXy * cfg.epsXy && widest < cfg.epsYaw;
  }

  datatype OptimizeResult = OptimizeResult(iterations: nat, converged: bool)

  /** The edges as the `k`-th iteration sees them. */
  ghost function Seen(edges: seq<PoseEdge>, nodes: seq<PoseNode>, cfg: OptimizerConfig, trig: Trig,
      steps: seq<Vector>, k: nat): seq<Term>
    requires k <= |steps| && AllSized(steps, |nodes|) && AllInRange(edges, |nodes|)
  {
    LinearizedAll(edges, MovedBy(nodes, steps, k, trig), cfg, trig)
  }

  /** Every one of the first `k` steps solved its iteration's system. */
  ghost predicate AllSolved(edges: seq<PoseEdge>, nodes: seq<PoseNode>, cfg: OptimizerConfig, trig: Trig,
      steps: seq<Vector>)
    requires AllSized(steps, |nodes|) && AllInRange(edges, |nodes|)
  {
    forall it {:trigger steps[it]} :: 0 <= it < |steps| ==>
      IsTheStep(MovedBy(nodes, steps, it, trig), Seen(edges, nodes, cfg, trig, steps, it), cfg.lambda, steps[it])
  }

  /** Every planar step led to the cheapest nodes a planar move can lead to. */
  ghost predicate AllBest(edges: seq<PoseEdge>, nodes: seq<PoseNode>, cfg: OptimizerConfig, trig: Trig,
      steps: seq<Vector>)
    requires AllSized(steps, |nodes|) && AllInRange(edges, |nodes|)
  {
    forall it {:trigger steps[it]} :: 0 <= it < |steps| && Planar(nodes, steps[it]) ==>
      BestPlanarMove(edges, MovedBy(nodes, steps, it, trig), cfg, trig, steps[it])
  }

  lemma AllAreBest(edges: seq<PoseEdge>, nodes: seq<PoseNode>, cfg: OptimizerConfig, trig: Trig, steps: seq<Vector>)
    requires AllSized(steps, |nodes|) && AllInRange(edges, |nodes|) && AllSolved(edges, nodes, cfg, trig, steps)
    ensures Plain(edges, cfg, trig) ==> AllBest(edges, nodes, cfg, trig, steps)
    ensures Settling(edges, cfg, trig) && AtRest(edges, nodes) ==> MovedBy(nodes, steps, |steps|, trig) == nodes
  {
    hide Plain, Settling, AtRest, IsTheStep, BestPlanarMove, LinearizedAll, MovedBy;
    if Plain(edges, cfg, trig) {
      forall it {:trigger steps[it]} | 0 <= it < |steps| && Planar(nodes, steps[it])
        ensures BestPlanarMove(edges, MovedBy(nodes, steps, it, trig), cfg, trig, steps[it])
      {
        PlanarStepIsBest(edges, MovedBy(nodes, steps, it, trig), cfg, trig, steps[it]);
      }
    }
    if Settling(edges, cfg, trig) && AtRest(edges, nodes) {
      RestingStay(edges, nodes, cfg, trig, steps, |steps|);
    }
  }

  /** None of the first `k` steps was small throughout. */
  ghost predicate StillMoving(nodes: seq<PoseNode>, cfg: OptimizerConfig, trig: Trig, steps: seq<Vector>, k: nat)
    requires k <= |steps| && AllSized(steps, |nodes|)
  {
    forall it {:trigger steps[it]} :: 0 <= it < k ==> !AllSmall(MovedBy(nodes, steps, it, trig), steps[it], cfg)
  }

  /** A whole solve: every step is its iteration's; it stops at the first that is small
      throughout, at the first system nearly singular, or at the iteration limit. */
  ghost predicate Solved(edges: seq<PoseEdge>, nodes: seq<PoseNode>, cfg: OptimizerConfig, trig: Trig,
      steps: seq<Vector>, result: OptimizeResult)
    requires AllInRange(edges, |nodes|)
  {
    var n := |steps|;
    && AllSized(steps, |nodes|) && AllSolved(edges, nodes, cfg, trig, steps) && n <= result.iterations <= cfg.maxIters
    && if result.converged then
         n == result.iterations > 0 && StillMoving(nodes, cfg, trig, steps, n - 1)
             && AllSmall(MovedBy(nodes, steps, n - 1, trig), steps[n - 1], cfg)
       else
         StillMoving(nodes, cfg, trig, steps, n)
         && (n == cfg.maxIters
             || (n + 1 == result.iterations && NoStep(MovedBy(nodes, steps, n, trig),
                Seen(edges, nodes, cfg, trig, steps, n), cfg.lambda)))
  }

  /** Builds the system of these nodes and edges. */
  method Build(graph: PoseGraph, cfg: OptimizerConfig, trig: Trig, h: array<Vector>, bv: array<real>)
    requires AllInRange(graph.edges, |graph.nodes|)
    requires h.Length == bv.Length == 3 * |graph.nodes| && IsSquare(h[..], h.Length)
    modifies h, bv
    ensures IsSquare(h[..], h.Length) && IsSystem(graph.nodes, LinearizedAll(graph.edges, graph.nodes, cfg, trig),
              cfg.lambda, h[..], bv[..])
  {
    hide IsMatrixOf, IsVectorOf, Pinned, Linearized, Grown, VectorGrown, LinearAlgebra.Apply;
    ghost var ts := LinearizedAll(graph.edges, graph.nodes, cfg, trig);
    Reset(h, bv);
    NothingAssembled(h[..], bv[..], ts, cfg.lambda);
    for k := 0 to |graph.edges|
      invariant IsSquare(h[..], h.Length) && IsMatrixOf(h[..], ts, k, cfg.lambda, 0) && IsVectorOf(bv[..], ts, k)
    {
      ghost var (a, g) := (h[..], bv[..]);
      AddTerm(h, bv, Linearized(graph.edges[k], graph.nodes, cfg, trig));
      GrownIsTheNextMatrix(a, h[..], ts, k, cfg.lambda);
      GrownIsTheNextVector(g, bv[..], ts, k);
    }
    Damp(h, ts, cfg.lambda);
    SquareMatrix(h[..], ts, cfg.lambda);
    ghost var (a, g) := (h[..], bv[..]);
    Pin(h, bv, graph.nodes);
    PinnedSizes(graph.nodes, a, g, h[..], bv[..]);
  }

  /** One iteration's system, solved if it can be. */
  method Iterate(graph: PoseGraph, cfg: OptimizerConfig, trig: Trig, h: array<Vector>,
      bv: array<real>) returns (answer: Option<Vector>)
    requires AllInRange(graph.edges, |graph.nodes|)
    requires h.Length == bv.Length == 3 * |graph.nodes| && IsSquare(h[..], h.Length)
    modifies h, bv
    ensures IsSquare(h[..], h.Length)
    ensures var ts := LinearizedAll(graph.edges, graph.nodes, cfg, trig);
            if answer.Some? then
                |answer.value| == 3 * |graph.nodes| && IsTheStep(graph.nodes, ts, cfg.lambda, answer.value)
            else NoStep(graph.nodes, ts, cfg.lambda)
  {
    hide IsSystem, NearlySingular, IsTheStep, Solves, Linearized;
    Build(graph, cfg, trig, h, bv);
    var negB: Vector := seq(bv.Length, k requires 0 <= k < bv.Length reads bv => -bv[k]);
    assert negB == Negated(bv[..]);
    answer := Solve(h[..], negB);
    if answer.Some? {
      SolutionSize(h[..], negB, answer.value);
      SolvingGivesTheStep(graph.nodes, LinearizedAll(graph.edges, graph.nodes, cfg, trig), cfg.lambda, h[..], bv[..],
          answer.value);
    }
  }

  lemma SolutionSize(a: Matrix, b: Vector, x: Vector)
    requires IsSquare(a, |b|) && Solves(a, b, x)
    ensures |x| == |b|
  {
  }

  method SolveGraph(graph: PoseGraph, cfg: OptimizerConfig, trig: Trig) returns (result: OptimizeResult,
      ghost steps: seq<Vector>)
    requires AllInRange(graph.edges, |graph.nodes|)
    modifies graph`nodes
    ensures old(graph.nodes) == [] || graph.edges == [] ==>
              graph.nodes == old(graph.nodes) && result == OptimizeResult(0, true) && steps == []
    ensures old(graph.nodes) != [] && graph.edges != [] ==>
              Solved(graph.edges, old(graph.nodes), cfg, trig, steps, result)
    ensures AllSized(steps, |old(graph.nodes)|) && graph.nodes == MovedBy(old(graph.nodes), steps, |steps|, trig)
    ensures Plain(graph.edges, cfg, trig) ==> AllBest(graph.edges, old(graph.nodes), cfg, trig, steps)
    ensures Settling(graph.edges, cfg, trig) && AtRest(graph.edges, old(graph.nodes)) ==>
              graph.nodes == old(graph.nodes)
    ensures OnlyFreeNodesMoved(old(graph.nodes), graph.nodes)
    ensures AllInformative(graph.edges) && DampedEnough(cfg.lambda, 3 * |graph.nodes|) ==>
              result.converged || result.iterations == cfg.maxIters
  {
    hide AllSmall, OnlyFreeNodesMoved, MovedBy, StillMoving, AllSolved, Moved, NoStep, IsTheStep, AllInformative,
        DampedEnough, Plain, AllBest, Settling, AtRest;
    ghost var before := graph.nodes;
    steps := [];
    NothingMoved(graph.edges, before, cfg, trig);
    if |graph.nodes| == 0 || |graph.edges| == 0 {
      return OptimizeResult(0, true), [];
    }
    var dim := 3 * |graph.nodes|;
    var zeros: Vector := seq(dim, _ => 0.0);
    var h := new Vector[dim](_ => zeros);
    var bv := new real[dim](_ => 0.0);
    var iter, converged := 0, false;
    for it := 0 to cfg.maxIters
      invariant iter == it == |steps| && !converged && |graph.nodes| == |before| && AllSized(steps, |before|)
      invariant IsSquare(h[..], dim)
      invariant AllSolved(graph.edges, before, cfg, trig, steps) && StillMoving(before, cfg, trig, steps, it)
      invariant graph.nodes == MovedBy(before, steps, it, trig)
    {
      iter := it + 1;
      var answer := Iterate(graph, cfg, trig, h, bv);
      if answer.None? {
        DampedEnoughGoesOn(graph.edges, graph.nodes, cfg, trig);
        break;
      }
      var small := Apply(graph, cfg, answer.value, trig);
      MovedOnce(graph.edges, before, cfg, trig, steps, answer.value);
      steps := steps + [answer.value];
      if small {
        converged := true;
        break;
      }
    }
    MovingKeepsTheHeld(before, steps, |steps|, trig);
    AllAreBest(graph.edges, before, cfg, trig, steps);
    return OptimizeResult(iter, converged), steps;
  }

  lemma NothingMoved(edges: seq<PoseEdge>, nodes: seq<PoseNode>, cfg: OptimizerConfig, trig: Trig)
    requires AllInRange(edges, |nodes|)
    ensures MovedBy(nodes, [], 0, trig) == nodes && StillMoving(nodes, cfg, trig, [], 0)
              && OnlyFreeNodesMoved(nodes, nodes)
    ensures AllSolved(edges, nodes, cfg, trig, []) && AllBest(edges, nodes, cfg, trig, [])
  {
  }

  lemma DampedEnoughGoesOn(edges: seq<PoseEdge>, nodes: seq<PoseNode>, cfg: OptimizerConfig, trig: Trig)
    requires AllInRange(edges, |nodes|) && NoStep(nodes, LinearizedAll(edges, nodes, cfg, trig), cfg.lambda)
    ensures !(AllInformative(edges) && DampedEnough(cfg.lambda, 3 * |nodes|))
  {
    hide NoStep, Informative, AllInformative, DampedEnough, Linearized;
    if AllInformative(edges) && DampedEnough(cfg.lambda, 3 * |nodes|) {
      LinearizedStayInformative(edges, nodes, cfg, trig);
      DampingGivesAStep(nodes, LinearizedAll(edges, nodes, cfg, trig), cfg.lambda);
      assert false;
    }
  }

  lemma {:induction false} MovedByAPrefix(nodes: seq<PoseNode>, steps: seq<Vector>, x: Vector, k: nat, trig: Trig)
    requires k <= |steps| && AllSized(steps, |nodes|) && |x| == 3 * |nodes|
    ensures MovedBy(nodes, steps + [x], k, trig) == MovedBy(nodes, steps, k, trig)
  {
    hide Moved;
    if k > 0 {
      MovedByAPrefix(nodes, steps, x, k - 1, trig);
    }
  }

  /** One more step. */
  lemma MovedOnce(edges: seq<PoseEdge>, nodes: seq<PoseNode>, cfg: OptimizerConfig, trig: Trig, steps: seq<Vector>,
      x: Vector)
    requires AllInRange(edges, |nodes|) && AllSized(steps, |nodes|) && |x| == 3 * |nodes|
    requires AllSolved(edges, nodes, cfg, trig, steps) && StillMoving(nodes, cfg, trig, steps, |steps|)
    requires IsTheStep(MovedBy(nodes, steps, |steps|, trig), Seen(edges, nodes, cfg, trig, steps, |steps|),
              cfg.lambda, x)
    ensures var more := steps + [x];
            && AllSized(more, |nodes|) && AllSolved(edges, nodes, cfg, trig, more)
               && StillMoving(nodes, cfg, trig, more, |steps|)
            && MovedBy(nodes, more, |steps|, trig) == MovedBy(nodes, steps, |steps|, trig)
            && MovedBy(nodes, more, |more|, trig) == Moved(MovedBy(nodes, steps, |steps|, trig), x, trig)
            && (!AllSmall(MovedBy(nodes, steps, |steps|, trig), x, cfg) ==> StillMoving(nodes, cfg, trig, more, |more|))
  {
    hide IsTheStep, AllSmall, MovedBy, LinearizedAll, AllInRange;
    SolvedOnce(edges, nodes, cfg, trig, steps, x);
    MovingOnce(nodes, cfg, trig, steps, x);
    hide AllSolved, StillMoving, Seen;
    MovedByAPrefix(nodes, steps, x, |steps|, trig);
    LastMove(nodes, steps + [x], trig);
  }

  lemma LastMove(nodes: seq<PoseNode>, steps: seq<Vector>, trig: Trig)
    requires steps != [] && AllSized(steps, |nodes|)
    ensures var n := |steps|; MovedBy(nodes, steps, n, trig) == Moved(MovedBy(nodes, steps, n - 1, trig),
              steps[n - 1], trig)
  {
    hide Moved;
  }

  lemma SolvedOnce(edges: seq<PoseEdge>, nodes: seq<PoseNode>, cfg: OptimizerConfig, trig: Trig, steps: seq<Vector>,
      x: Vector)
    requires AllInRange(edges, |nodes|) && AllSized(steps, |nodes|) && |x| == 3 * |nodes|
              && AllSolved(edges, nodes, cfg, trig, steps)
    requires IsTheStep(MovedBy(nodes, steps, |steps|, trig), Seen(edges, nodes, cfg, trig, steps, |steps|),
              cfg.lambda, x)
    ensures AllSized(steps + [x], |nodes|) && AllSolved(edges, nodes, cfg, trig, steps + [x])
  {
    hide IsTheStep, MovedBy, LinearizedAll, AllInRange;
    var more := steps + [x];
    forall it {:trigger more[it]} | 0 <= it < |more|
      ensures IsTheStep(MovedBy(nodes, more, it, trig), Seen(edges, nodes, cfg, trig, more, it), cfg.lambda, more[it])
    {
      MovedByAPrefix(nodes, steps, x, it, trig);
      if it < |steps| {
        assert more[it] == steps[it];
      }
    }
  }

  lemma MovingOnce(nodes: seq<PoseNode>, cfg: OptimizerConfig, trig: Trig, steps: seq<Vector>, x: Vector)
    requires AllSized(steps, |nodes|) && |x| == 3 * |nodes| && StillMoving(nodes, cfg, trig, steps, |steps|)
    ensures AllSized(steps + [x], |nodes|) && StillMoving(nodes, cfg, trig, steps + [x], |steps|)
    ensures !AllSmall(MovedBy(nodes, steps, |steps|, trig), x, cfg) ==>
              StillMoving(nodes, cfg, trig, steps + [x], |steps| + 1)
  {
    hide AllSmall, MovedBy;
    var more := steps + [x];
    forall it {:trigger more[it]} | 0 <= it < |steps|
        || (it == |steps| && !AllSmall(MovedBy(nodes, steps, |steps|, trig), x, cfg))
      ensures !AllSmall(MovedBy(nodes, more, it, trig), more[it], cfg)
    {
      MovedByAPrefix(nodes, steps, x, it, trig);
      if it < |steps| {
        assert more[it] == steps[it];
      }
    }
  }

  // ── Disowning ───────────────────────────────────────────────────────────────

  /** A loop edge that still counts. */
  predicate IsLive(e: PoseEdge)
  {
    !IsChain(e) && e.information.r0.x != 0.0
  }

  /** The residuals of these edges with the nodes as they are. */
  function ChiOf(edges: seq<PoseEdge>, nodes: seq<PoseNode>, trig: Trig): nat -> real
  {
    (j: nat) => if j < |edges| && InRange(edges[j], |nodes|) then Chi2(edges[j], nodes, trig) else 0.0
  }

  /** The residuals after each solve. */
  ghost function ChiOver(edges: seq<PoseEdge>, settled: seq<seq<PoseNode>>, trig: Trig): nat -> nat -> real
  {
    (r: nat) => ChiOf(edges, if r < |settled| then settled[r] else [], trig)
  }

  /** `i` is the live loop edge with the largest residual, the first of several. */
  ghost predicate IsWorst(edges: seq<PoseEdge>, chi2: nat -> real, i: nat)
  {
    && i < |edges| && IsLive(edges[i])
    && forall j :: 0 <= j < |edges| && IsLive(edges[j]) ==> chi2(j) < chi2(i) || (chi2(j) == chi2(i) && i <= j)
  }

  /** Its residual is more than the configured number of sigmas. */
  predicate Outlies(x: real, sigmas: real)
  {
    x > sigmas * sigmas
  }

  method WorstEdge(edges: seq<PoseEdge>, nodes: seq<PoseNode>, trig: Trig) returns (worst: Option<(nat, real)>)
    requires AllInRange(edges, |nodes|)
    ensures worst.Some? ==>
              var (i, x) := worst.value;
              IsWorst(edges, ChiOf(edges, nodes, trig), i) && i < |edges| && InRange(edges[i], |nodes|)
                  && x == Chi2(edges[i], nodes, trig)
    ensures worst.None? ==> forall i :: 0 <= i < |edges| ==> !IsLive(edges[i])
  {
    hide Chi2;
    ghost var chi2 := ChiOf(edges, nodes, trig);
    worst := None;
    for i := 0 to |edges|
      invariant worst.None? ==> forall j :: 0 <= j < i ==> !IsLive(edges[j])
      invariant worst.Some? ==>
                worst.value.0 < i && worst.value.1 == chi2(worst.value.0) && IsWorst(edges[..i], chi2, worst.value.0)
    {
      assert edges[..i + 1] == edges[..i] + [edges[i]];
      if !IsLive(edges[i]) {
        continue;
      }
      var x := Chi2(edges[i], nodes, trig);
      if worst.None? || x > worst.value.1 {
        worst := Some((i, x));
      }
    }
    assert edges[..|edges|] == edges;
  }

  ghost function Without(edges: seq<PoseEdge>, i: nat): (r: seq<PoseEdge>)
    requires i < |edges|
    ensures |r| == |edges| && forall n :: AllInRange(edges, n) ==> AllInRange(r, n)
  {
    edges[i := edges[i].(information := DISOWNED)]
  }

  /** The edges after disowning these, one by one. */
  ghost function WithoutAll(edges: seq<PoseEdge>, out: seq<nat>): (r: seq<PoseEdge>)
    requires forall k :: 0 <= k < |out| ==> out[k] < |edges|
    ensures |r| == |edges| && forall n :: AllInRange(edges, n) ==> AllInRange(r, n)
  {
    if out == [] then edges else Without(WithoutAll(edges, out[..|out| - 1]), out[|out| - 1])
  }

  /** Each of `out` was, in its round, the worst of the live loop edges and outlying. */
  ghost predicate WorstFirst(edges: seq<PoseEdge>, chi2: nat -> nat -> real, sigmas: real, out: seq<nat>)
  {
    && (forall k :: 0 <= k < |out| ==> out[k] < |edges|)
    && forall k {:trigger out[k]} :: 0 <= k < |out| ==>
         IsWorst(WithoutAll(edges, out[..k]), chi2(k), out[k]) && Outlies(chi2(k)(out[k]), sigmas)
  }

  /** What `optimize` did: `out` disowned, worst first, no more than allowed; and if
      fewer than allowed, because no live loop edge outlay any more. */
  ghost predicate Disowned(before: seq<PoseEdge>, after: seq<PoseEdge>, cfg: OptimizerConfig,
      chi2: nat -> nat -> real, out: seq<nat>)
  {
    && WorstFirst(before, chi2, cfg.rejectSigmas, out) && |out| <= cfg.rejectMax
    && after == WithoutAll(before, out)
    && (|out| < cfg.rejectMax ==> forall i ::
       0 <= i < |after| && IsLive(after[i]) ==> !Outlies(chi2(|out|)(i), cfg.rejectSigmas))
  }

  /** `after` differs from `edges` by the disowning of `out`, loop edges all, each
      disowned once. */
  ghost predicate OnlyLoopsOut(edges: seq<PoseEdge>, out: seq<nat>, after: seq<PoseEdge>)
  {
    && |after| == |edges|
    && (forall i {:trigger after[i]} ::
       0 <= i < |edges| ==> after[i] == if i in out then edges[i].(information := DISOWNED) else edges[i])
    && (forall i :: i in out ==> i < |edges| && !IsChain(edges[i]))
    && (forall k, l :: 0 <= k < l < |out| ==> out[k] != out[l])
  }

  lemma OneMoreOut(edges: seq<PoseEdge>, out: seq<nat>, mid: seq<PoseEdge>, i: nat)
    requires OnlyLoopsOut(edges, out, mid) && i < |mid| && !IsChain(mid[i]) && mid[i].information.r0.x != 0.0
    ensures OnlyLoopsOut(edges, out + [i], Without(mid, i))
  {
  }

  /** Disowning never touches the chain, keeps every edge's ends and measurement, and
      no edge is disowned twice. */
  lemma {:induction false} DisowningKeepsTheChain(edges: seq<PoseEdge>, chi2: nat -> nat -> real, sigmas: real,
      out: seq<nat>)
    requires WorstFirst(edges, chi2, sigmas, out)
    ensures OnlyLoopsOut(edges, out, WithoutAll(edges, out))
  {
    hide IsWorst, Outlies, OnlyLoopsOut, WorstFirst;
    if out == [] {
      NothingOut(edges);
    } else {
      var rest, i := out[..|out| - 1], out[|out| - 1];
      WorstFirstSoFar(edges, chi2, sigmas, out);
      DisowningKeepsTheChain(edges, chi2, sigmas, rest);
      WorstIsLive(WithoutAll(edges, rest), chi2(|rest|), i);
      OneMoreOut(edges, rest, WithoutAll(edges, rest), i);
      assert out == rest + [i];
    }
  }

  lemma NothingOut(edges: seq<PoseEdge>)
    ensures OnlyLoopsOut(edges, [], edges)
  {
  }

  lemma WorstFirstSoFar(edges: seq<PoseEdge>, chi2: nat -> nat -> real, sigmas: real, out: seq<nat>)
    requires WorstFirst(edges, chi2, sigmas, out) && out != []
    ensures var n := |out| - 1;
            && WorstFirst(edges, chi2, sigmas, out[..n]) && (forall k :: 0 <= k < |out| ==> out[k] < |edges|)
            && IsWorst(WithoutAll(edges, out[..n]), chi2(n), out[n])
  {
    hide IsWorst, Outlies, WithoutAll;
    var n := |out| - 1;
    assert forall k :: 0 <= k < n ==> out[..n][..k] == out[..k];
  }

  lemma WorstIsLive(edges: seq<PoseEdge>, chi2: nat -> real, i: nat)
    requires IsWorst(edges, chi2, i)
    ensures i < |edges| && !IsChain(edges[i]) && edges[i].information.r0.x != 0.0
  {
  }

  /** One solve over these edges takes the nodes from `from` to `to`. */
  ghost predicate Settles(edges: seq<PoseEdge>, from: seq<PoseNode>, to: seq<PoseNode>, cfg: OptimizerConfig,
      trig: Trig)
  {
    exists result :: SettlesWith(edges, from, to, cfg, trig, result)
  }

  /** ... after so many iterations, converged or not. */
  ghost predicate SettlesWith(edges: seq<PoseEdge>, from: seq<PoseNode>, to: seq<PoseNode>, cfg: OptimizerConfig,
      trig: Trig, result: OptimizeResult)
  {
    && AllInRange(edges, |from|)
    && if from == [] || edges == [] then to == from && result == OptimizeResult(0, true)
       else exists steps: seq<Vector> ::
         Solved(edges, from, cfg, trig, steps, result) && to == MovedBy(from, steps, |steps|, trig)
  }

  /** The `k`-th solve, over the edges still owned then. */
  ghost predicate SettledAt(edges: seq<PoseEdge>, nodes: seq<PoseNode>, cfg: OptimizerConfig, trig: Trig,
      out: seq<nat>, settled: seq<seq<PoseNode>>, k: nat)
    requires k <= |out| && k < |settled| && forall k :: 0 <= k < |out| ==> out[k] < |edges|
  {
    Settles(WithoutAll(edges, out[..k]), if k == 0 then nodes else settled[k - 1], settled[k], cfg, trig)
  }

  /** `settled` has the nodes after every solve: the first over all the edges, each later
      one over those still owned then. */
  ghost predicate AllSettled(edges: seq<PoseEdge>, nodes: seq<PoseNode>, cfg: OptimizerConfig, trig: Trig,
      out: seq<nat>, settled: seq<seq<PoseNode>>)
  {
    && |settled| == |out| + 1 && (forall k :: 0 <= k < |out| ==> out[k] < |edges|)
    && forall k :: 0 <= k <= |out| ==> SettledAt(edges, nodes, cfg, trig, out, settled, k)
  }

  lemma SettledFirst(edges: seq<PoseEdge>, nodes: seq<PoseNode>, cfg: OptimizerConfig, trig: Trig, to: seq<PoseNode>)
    requires Settles(edges, nodes, to, cfg, trig)
    ensures AllSettled(edges, nodes, cfg, trig, [], [to])
  {
    hide Settles;
    assert [to][0] == to && edges == WithoutAll(edges, []);
  }

  lemma SettledOneMore(edges: seq<PoseEdge>, nodes: seq<PoseNode>, cfg: OptimizerConfig, trig: Trig, out: seq<nat>,
      settled: seq<seq<PoseNode>>, i: nat, to: seq<PoseNode>)
    requires AllSettled(edges, nodes, cfg, trig, out, settled) && i < |edges|
    requires Settles(WithoutAll(edges, out + [i]), settled[|out|], to, cfg, trig)
    ensures AllSettled(edges, nodes, cfg, trig, out + [i], settled + [to])
  {
    hide Settles, SettledAt, WithoutAll;
    forall k | 0 <= k <= |out| + 1 ensures SettledAt(edges, nodes, cfg, trig, out + [i], settled + [to], k) {
      SettledLater(edges, nodes, cfg, trig, out, settled, i, to, k);
    }
  }

  lemma SettledLater(edges: seq<PoseEdge>, nodes: seq<PoseNode>, cfg: OptimizerConfig, trig: Trig, out: seq<nat>,
      settled: seq<seq<PoseNode>>, i: nat, to: seq<PoseNode>, k: nat)
    requires |settled| == |out| + 1 && (forall k :: 0 <= k < |out| ==> out[k] < |edges|) && i < |edges|
              && k <= |out| + 1
    requires if k <= |out| then SettledAt(edges, nodes, cfg, trig, out, settled, k)
             else Settles(WithoutAll(edges, out + [i]), settled[|out|], to, cfg, trig)
    ensures SettledAt(edges, nodes, cfg, trig, out + [i], settled + [to], k)
  {
    hide Settles, WithoutAll;
    if k <= |out| {
      assert (out + [i])[..k] == out[..k];
    } else {
      assert (out + [i])[..k] == out + [i];
    }
  }

  /** The residuals of earlier solves do not change with later ones. */
  lemma WorstFirstLater(edges: seq<PoseEdge>, settled: seq<seq<PoseNode>>, to: seq<PoseNode>, trig: Trig,
      sigmas: real, out: seq<nat>)
    requires WorstFirst(edges, ChiOver(edges, settled, trig), sigmas, out) && |out| <= |settled|
    ensures WorstFirst(edges, ChiOver(edges, settled + [to], trig), sigmas, out)
  {
    hide ChiOf, IsWorst, Outlies, WithoutAll;
    var (was, now) := (ChiOver(edges, settled, trig), ChiOver(edges, settled + [to], trig));
    forall k | 0 <= k < |out| ensures was(k) == now(k) {
      assert (settled + [to])[k] == settled[k];
    }
  }

  /** A live edge's residual is what it was before anything was disowned. */
  lemma LiveEdgesAreTheSame(edges: seq<PoseEdge>, out: seq<nat>, now: seq<PoseEdge>, nodes: seq<PoseNode>, trig: Trig)
    requires OnlyLoopsOut(edges, out, now)
    ensures forall j :: 0 <= j < |now| && IsLive(now[j]) ==> ChiOf(now, nodes, trig)(j) == ChiOf(edges, nodes, trig)(j)
    ensures forall i :: IsWorst(now, ChiOf(now, nodes, trig), i) ==> IsWorst(now, ChiOf(edges, nodes, trig), i)
  {
    hide Chi2;
    forall j | 0 <= j < |now| && IsLive(now[j]) ensures now[j] == edges[j] {
    }
  }

  /** Where the optimizer is after disowning `out`. */
  ghost predicate Rounds(before: seq<PoseEdge>, was: seq<PoseNode>, cfg: OptimizerConfig, trig: Trig,
      out: seq<nat>, settled: seq<seq<PoseNode>>, edges: seq<PoseEdge>, nodes: seq<PoseNode>)
  {
    && AllSettled(before, was, cfg, trig, out, settled) && nodes == settled[|out|]
    && WorstFirst(before, ChiOver(before, settled, trig), cfg.rejectSigmas, out) && edges == WithoutAll(before, out)
    && OnlyLoopsOut(before, out, edges) && OnlyFreeNodesMoved(was, nodes) && |nodes| == |was|
       && AllInRange(edges, |was|)
  }

  lemma RoundsStart(before: seq<PoseEdge>, was: seq<PoseNode>, cfg: OptimizerConfig, trig: Trig, nodes: seq<PoseNode>)
    requires Settles(before, was, nodes, cfg, trig) && OnlyFreeNodesMoved(was, nodes) && AllInRange(before, |was|)
    ensures Rounds(before, was, cfg, trig, [], [nodes], before, nodes)
  {
    hide Settles, ChiOver, AllInRange;
    SettledFirst(before, was, cfg, trig, nodes);
    NothingOut(before);
    SameNodes(was, nodes);
  }

  /** The worst edge found among those still owned. */
  lemma WorstNow(before: seq<PoseEdge>, was: seq<PoseNode>, cfg: OptimizerConfig, trig: Trig,
      out: seq<nat>, settled: seq<seq<PoseNode>>, edges: seq<PoseEdge>, nodes: seq<PoseNode>, i: nat)
    requires Rounds(before, was, cfg, trig, out, settled, edges, nodes) && IsWorst(edges, ChiOf(edges, nodes, trig), i)
    ensures var chi2 := ChiOver(before, settled, trig)(|out|);
            IsWorst(edges, chi2, i) && InRange(edges[i], |nodes|) && chi2(i) == Chi2(edges[i], nodes, trig)
  {
    hide AllSettled, WorstFirst, Chi2, WithoutAll, OnlyFreeNodesMoved, OnlyLoopsOut;
    LiveEdgesAreTheSame(before, out, edges, nodes, trig);
    SettledSize(before, was, cfg, trig, out, settled);
  }

  lemma SettledSize(edges: seq<PoseEdge>, nodes: seq<PoseNode>, cfg: OptimizerConfig, trig: Trig, out: seq<nat>,
      settled: seq<seq<PoseNode>>)
    requires AllSettled(edges, nodes, cfg, trig, out, settled)
    ensures |settled| == |out| + 1 && forall k :: 0 <= k < |out| ==> out[k] < |edges|
  {
  }

  /** The worst edge disowned, and the rest solved again. */
  lemma OneRoundMore(before: seq<PoseEdge>, was: seq<PoseNode>, cfg: OptimizerConfig, trig: Trig,
      out: seq<nat>, settled: seq<seq<PoseNode>>, edges: seq<PoseEdge>, nodes: seq<PoseNode>, i: nat, to: seq<PoseNode>)
    requires Rounds(before, was, cfg, trig, out, settled, edges, nodes) && IsWorst(edges, ChiOf(edges, nodes, trig), i)
    requires cfg.rejectSigmas > 0.0 && InRange(edges[i], |nodes|)
              && Outlies(MaxReal(Chi2(edges[i], nodes, trig), 0.0), cfg.rejectSigmas)
    requires Settles(Without(edges, i), nodes, to, cfg, trig) && OnlyFreeNodesMoved(nodes, to)
    ensures Rounds(before, was, cfg, trig, out + [i], settled + [to], Without(edges, i), to)
  {
    WorstNow(before, was, cfg, trig, out, settled, edges, nodes, i);
    hide AllSettled, WorstFirst, Chi2, WithoutAll, OnlyFreeNodesMoved, OnlyLoopsOut, IsWorst, ChiOver, ChiOf, Outlies,
        Settles, AllInRange, Without;
    var chi2 := ChiOver(before, settled, trig);
    SettledSize(before, was, cfg, trig, out, settled);
    DisownOneMore(before, chi2, cfg.rejectSigmas, out, i);
    WorstFirstLater(before, settled, to, trig, cfg.rejectSigmas, out + [i]);
    DisowningKeepsTheChain(before, chi2, cfg.rejectSigmas, out + [i]);
    WorstIsLive(edges, chi2(|out|), i);
    SettledOneMore(before, was, cfg, trig, out, settled, i, to);
    MovedTwice(was, nodes, to);
    assert AllInRange(Without(edges, i), |was|);
  }

  lemma NoneLeft(before: seq<PoseEdge>, was: seq<PoseNode>, cfg: OptimizerConfig, trig: Trig,
      out: seq<nat>, settled: seq<seq<PoseNode>>, edges: seq<PoseEdge>, nodes: seq<PoseNode>,
          worst: Option<(nat, real)>)
    requires Rounds(before, was, cfg, trig, out, settled, edges, nodes)
    requires worst.None? ==> forall i :: 0 <= i < |edges| ==> !IsLive(edges[i])
    requires worst.Some? ==>
               var (i, x) := worst.value;
               && IsWorst(edges, ChiOf(edges, nodes, trig), i) && InRange(edges[i], |nodes|)
                  && x == Chi2(edges[i], nodes, trig)
               && !Outlies(MaxReal(x, 0.0), cfg.rejectSigmas)
    ensures forall i ::
              0 <= i < |edges| && IsLive(edges[i]) ==>
              !Outlies(ChiOver(before, settled, trig)(|out|)(i), cfg.rejectSigmas)
  {
    if worst.Some? {
      WorstNow(before, was, cfg, trig, out, settled, edges, nodes, worst.value.0);
      hide AllSettled, WorstFirst, Chi2, WithoutAll, OnlyFreeNodesMoved, OnlyLoopsOut, ChiOver, ChiOf, Rounds;
      NoOutlierLeft(edges, ChiOver(before, settled, trig)(|out|), cfg.rejectSigmas, worst.value.0);
    }
  }

  /** Where the last solve started. */
  ghost function LastFrom(was: seq<PoseNode>, settled: seq<seq<PoseNode>>, k: nat): seq<PoseNode>
  {
    if 0 < k <= |settled| then settled[k - 1] else was
  }

  /** What the optimizer makes of edges and nodes, `out` disowned and `settled` on the way. */
  ghost predicate OptimizedBy(before: seq<PoseEdge>, was: seq<PoseNode>, cfg: OptimizerConfig, trig: Trig,
      out: seq<nat>, settled: seq<seq<PoseNode>>, edges: seq<PoseEdge>, nodes: seq<PoseNode>)
  {
    && AllSettled(before, was, cfg, trig, out, settled) && nodes == settled[|out|]
    && (if cfg.rejectSigmas <= 0.0 then out == [] && edges == before
        else Disowned(before, edges, cfg, ChiOver(before, settled, trig), out))
  }

  ghost predicate Optimized(before: seq<PoseEdge>, was: seq<PoseNode>, cfg: OptimizerConfig, trig: Trig,
      edges: seq<PoseEdge>, nodes: seq<PoseNode>)
  {
    exists out: seq<nat>, settled: seq<seq<PoseNode>> :: OptimizedBy(before, was, cfg, trig, out, settled, edges, nodes)
  }

  /** The optimizer: one solve, then as many rounds of disowning the worst outlying
      loop edge and solving again as the configuration allows. */
  method Optimize(graph: PoseGraph, cfg: OptimizerConfig, trig: Trig)
      returns (result: OptimizeResult, ghost out: seq<nat>, ghost settled: seq<seq<PoseNode>>)
    requires AllInRange(graph.edges, |graph.nodes|)
    modifies graph
    ensures OnlyFreeNodesMoved(old(graph.nodes), graph.nodes)
    ensures OptimizedBy(old(graph.edges), old(graph.nodes), cfg, trig, out, settled, graph.edges, graph.nodes)
    ensures SettlesWith(graph.edges, LastFrom(old(graph.nodes), settled, |out|), graph.nodes, cfg, trig, result)
    ensures |out| <= cfg.rejectMax && OnlyLoopsOut(old(graph.edges), out, graph.edges)
    ensures AllInformative(old(graph.edges)) && DampedEnough(cfg.lambda, 3 * |graph.nodes|) ==>
              result.converged || result.iterations == cfg.maxIters
  {
    hide Rounds, OnlyFreeNodesMoved, OnlyLoopsOut, AllSettled, Settles, ChiOf, Chi2, ChiOver, WorstFirst, IsWorst,
        WithoutAll, Outlies, AllInRange,
         AllInformative, DampedEnough, Solved, MovedBy, AllSized, Plain, AllBest, Settling, AtRest, SettlesWith,
             Disowned;
    ghost var (before, was) := (graph.edges, graph.nodes);
    ghost var steps;
    result, steps := SolveGraph(graph, cfg, trig);
    SolveSettles(before, was, graph.nodes, cfg, trig, steps, result);
    RoundsStart(before, was, cfg, trig, graph.nodes);
    out, settled := [], [graph.nodes];
    RoundsSay(before, was, cfg, trig, out, settled, graph.edges, graph.nodes);
    if cfg.rejectSigmas <= 0.0 {
      return;
    }
    var round := 0;
    while round < cfg.rejectMax
      invariant round == |out| <= cfg.rejectMax && |graph.nodes| == |was|
      invariant Rounds(before, was, cfg, trig, out, settled, graph.edges, graph.nodes)
      invariant SettlesWith(graph.edges, LastFrom(was, settled, |out|), graph.nodes, cfg, trig, result)
      invariant AllInformative(before) && DampedEnough(cfg.lambda, 3 * |was|) ==>
                result.converged || result.iterations == cfg.maxIters
    {
      RoundsSay(before, was, cfg, trig, out, settled, graph.edges, graph.nodes);
      var worst := WorstEdge(graph.edges, graph.nodes, trig);
      if worst.None? {
        NoneLeft(before, was, cfg, trig, out, settled, graph.edges, graph.nodes, worst);
        break;
      }
      var (i, x) := worst.value;
      if !Outlies(MaxReal(x, 0.0), cfg.rejectSigmas) {
        NoneLeft(before, was, cfg, trig, out, settled, graph.edges, graph.nodes, worst);
        break;
      }
      ghost var (edges, nodes) := (graph.edges, graph.nodes);
      WithoutSays(graph.edges, i, |was|);
      graph.edges := graph.edges[i := graph.edges[i].(information := DISOWNED)];
      result, steps := SolveGraph(graph, cfg, trig);
      SolveSettles(graph.edges, nodes, graph.nodes, cfg, trig, steps, result);
      OneRoundMore(before, was, cfg, trig, out, settled, edges, nodes, i, graph.nodes);
      out, settled := out + [i], settled + [graph.nodes];
      RoundsSay(before, was, cfg, trig, out, settled, graph.edges, graph.nodes);
      round := round + 1;
    }
    RoundsSay(before, was, cfg, trig, out, settled, graph.edges, graph.nodes);
    RoundsEnd(before, was, cfg, trig, out, settled, graph.edges, graph.nodes);
  }

  lemma RoundsSay(before: seq<PoseEdge>, was: seq<PoseNode>, cfg: OptimizerConfig, trig: Trig,
      out: seq<nat>, settled: seq<seq<PoseNode>>, edges: seq<PoseEdge>, nodes: seq<PoseNode>)
    requires Rounds(before, was, cfg, trig, out, settled, edges, nodes)
    ensures AllSettled(before, was, cfg, trig, out, settled) && |settled| == |out| + 1 && nodes == settled[|out|]
    ensures OnlyLoopsOut(before, out, edges) && OnlyFreeNodesMoved(was, nodes) && |nodes| == |was|
              && AllInRange(edges, |was|)
    ensures AllInformative(before) ==> AllInformative(edges)
  {
    hide WorstFirst, ChiOver, WithoutAll, OnlyFreeNodesMoved, OnlyLoopsOut, AllInformative;
    SettledSize(before, was, cfg, trig, out, settled);
    DisownedStayInformative(before, out, edges);
  }

  lemma DisownedStayInformative(before: seq<PoseEdge>, out: seq<nat>, after: seq<PoseEdge>)
    requires OnlyLoopsOut(before, out, after)
    ensures AllInformative(before) ==> AllInformative(after)
  {
    hide LinearAlgebra.PositiveSemidefinite;
    LinearAlgebra.PositiveDiagonal(0.0, 0.0, 0.0);
  }

  lemma RoundsEnd(before: seq<PoseEdge>, was: seq<PoseNode>, cfg: OptimizerConfig, trig: Trig,
      out: seq<nat>, settled: seq<seq<PoseNode>>, edges: seq<PoseEdge>, nodes: seq<PoseNode>)
    requires Rounds(before, was, cfg, trig, out, settled, edges, nodes) && |out| <= cfg.rejectMax
    requires |out| < cfg.rejectMax ==>
               forall i ::
                   0 <= i < |edges| && IsLive(edges[i]) ==>
                   !Outlies(ChiOver(before, settled, trig)(|out|)(i), cfg.rejectSigmas)
    ensures Disowned(before, edges, cfg, ChiOver(before, settled, trig), out)
  {
    hide AllSettled, WorstFirst, ChiOver, WithoutAll, OnlyFreeNodesMoved, OnlyLoopsOut;
  }

  lemma WithoutSays(edges: seq<PoseEdge>, i: nat, n: nat)
    requires i < |edges| && AllInRange(edges, n)
    ensures AllInRange(Without(edges, i), n) && Without(edges, i) == edges[i := edges[i].(information := DISOWNED)]
    ensures InRange(edges[i], n)
  {
  }

  lemma SolveSettles(edges: seq<PoseEdge>, from: seq<PoseNode>, to: seq<PoseNode>, cfg: OptimizerConfig, trig: Trig,
      steps: seq<Vector>, result: OptimizeResult)
    requires AllInRange(edges, |from|) && AllSized(steps, |from|) && to == MovedBy(from, steps, |steps|, trig)
    requires from == [] || edges == [] ==> to == from && result == OptimizeResult(0, true)
    requires from != [] && edges != [] ==> Solved(edges, from, cfg, trig, steps, result)
    ensures SettlesWith(edges, from, to, cfg, trig, result) && Settles(edges, from, to, cfg, trig)
  {
    hide Solved, MovedBy;
  }

  lemma SameNodes(a: seq<PoseNode>, b: seq<PoseNode>)
    requires OnlyFreeNodesMoved(a, b)
    ensures |a| == |b|
  {
  }

  lemma MovedTwice(a: seq<PoseNode>, b: seq<PoseNode>, c: seq<PoseNode>)
    requires OnlyFreeNodesMoved(a, b) && OnlyFreeNodesMoved(b, c)
    ensures OnlyFreeNodesMoved(a, c) && |a| == |c|
  {
  }

  lemma NoOutlierLeft(edges: seq<PoseEdge>, chi2: nat -> real, sigmas: real, i: nat)
    requires IsWorst(edges, chi2, i) && !Outlies(MaxReal(chi2(i), 0.0), sigmas)
    ensures forall j :: 0 <= j < |edges| && IsLive(edges[j]) ==> !Outlies(chi2(j), sigmas)
  {
  }

  lemma DisownOneMore(edges: seq<PoseEdge>, chi2: nat -> nat -> real, sigmas: real, out: seq<nat>, i: nat)
    requires WorstFirst(edges, chi2, sigmas, out) && sigmas > 0.0
    requires IsWorst(WithoutAll(edges, out), chi2(|out|), i) && Outlies(MaxReal(chi2(|out|)(i), 0.0), sigmas)
    ensures WorstFirst(edges, chi2, sigmas, out + [i])
    ensures WithoutAll(edges, out + [i]) == Without(WithoutAll(edges, out), i)
  {
    hide IsWorst, WithoutAll, Outlies;
    var more := out + [i];
    assert Outlies(chi2(|out|)(i), sigmas) by { OutliesAboveZero(chi2(|out|)(i), sigmas); }
    assert more[..|out|] == out;
    assert forall k :: 0 <= k < |out| ==> more[..k] == out[..k];
    WorstIsAnEdge(edges, chi2, out, i);
    LastWithout(edges, out, i);
  }

  lemma WorstIsAnEdge(edges: seq<PoseEdge>, chi2: nat -> nat -> real, out: seq<nat>, i: nat)
    requires (forall k :: 0 <= k < |out| ==> out[k] < |edges|) && IsWorst(WithoutAll(edges, out), chi2(|out|), i)
    ensures i < |edges|
  {
  }

  lemma LastWithout(edges: seq<PoseEdge>, out: seq<nat>, i: nat)
    requires (forall k :: 0 <= k < |out| ==> out[k] < |edges|) && i < |edges|
    ensures WithoutAll(edges, out + [i]) == Without(WithoutAll(edges, out), i)
  {
  }

  lemma OutliesAboveZero(x: real, sigmas: real)
    requires sigmas > 0.0 && Outlies(MaxReal(x, 0.0), sigmas)
    ensures Outlies(x, sigmas)
  {
  }
}
