/** Planar poses, `maploc/src/pose_graph.rs`. A heading is kept as its cosine and
    sine, so that composition is exact. */
module Poses {

  datatype Rotation = Rotation(c: real, s: real)

  /** The square of its length is one. */
  predicate IsUnit(r: Rotation)
  {
    r.c * r.c + r.s * r.s == 1.0
  }

  type Heading = r: Rotation | IsUnit(r) witness Rotation(1.0, 0.0)

  datatype Vec = Vec(x: real, y: real)

  datatype Pose = Pose(at: Vec, heading: Heading)

  const EAST: Heading := Rotation(1.0, 0.0)
  const ORIGIN: Pose := Pose(Vec(0.0, 0.0), EAST)

  /** The angle of a heading, the heading of an angle, the heading a vector points in, and
      the square root, given. */
  datatype Trig = Trig(angle: Heading -> real, heading: real -> Heading, towards: Vec -> Heading, root: real -> real)

  // ── Rotations ───────────────────────────────────────────────────────────────

  function Turn(a: Heading, b: Heading): Heading
  {
    TurnIsUnit(a, b);
    Rotation(a.c * b.c - a.s * b.s, a.s * b.c + a.c * b.s)
  }

  /** The opposite angle. */
  function Back(a: Heading): Heading
  {
    BackIsUnit(a);
    Rotation(a.c, -a.s)
  }

  function Rotate(a: Rotation, v: Vec): Vec
  {
    Vec(a.c * v.x - a.s * v.y, a.s * v.x + a.c * v.y)
  }

  function Opposite(v: Vec): Vec
  {
    Vec(-v.x, -v.y)
  }

  /** The other way round. */
  function Unrotate(a: Rotation, v: Vec): Vec
  {
    Vec(a.c * v.x + a.s * v.y, -a.s * v.x + a.c * v.y)
  }

  /** Where the start lies, seen from the end of a step `v`. */
  function Retraced(a: Rotation, v: Vec): Vec
  {
    Vec(-(a.c * v.x + a.s * v.y), a.s * v.x - a.c * v.y)
  }

  function Plus(u: Vec, v: Vec): Vec
  {
    Vec(u.x + v.x, u.y + v.y)
  }

  function Minus(u: Vec, v: Vec): Vec
  {
    Vec(u.x - v.x, u.y - v.y)
  }

  lemma TurnIsUnit(a: Rotation, b: Rotation)
    requires IsUnit(a) && IsUnit(b)
    ensures IsUnit(Rotation(a.c * b.c - a.s * b.s, a.s * b.c + a.c * b.s))
  {
  }

  lemma BackIsUnit(a: Rotation)
    requires IsUnit(a)
    ensures IsUnit(Rotation(a.c, -a.s))
  {
  }

  lemma TurnsAssociate(a: Heading, b: Heading, c: Heading)
    ensures Turn(Turn(a, b), c) == Turn(a, Turn(b, c))
    ensures Turn(a, b) == Turn(b, a)
  {
    hide IsUnit;
    var l, r := Turn(Turn(a, b), c), Turn(a, Turn(b, c));
    assert l.c == r.c;
    assert l.s == r.s;
  }

  lemma RotateTurned(a: Heading, b: Heading, v: Vec)
    ensures Rotate(Turn(a, b), v) == Rotate(a, Rotate(b, v))
  {
    hide IsUnit;
    var l, r := Rotate(Turn(a, b), v), Rotate(a, Rotate(b, v));
    assert l.x == r.x;
    assert l.y == r.y;
  }

  lemma RotateIsLinear(a: Rotation, u: Vec, v: Vec)
    ensures Rotate(a, Plus(u, v)) == Plus(Rotate(a, u), Rotate(a, v))
    ensures Rotate(a, Minus(u, v)) == Minus(Rotate(a, u), Rotate(a, v))
    ensures Rotate(a, Opposite(u)) == Opposite(Rotate(a, u))
  {
    hide *;
    RotateAdds(a, u, v);
    RotateSubtracts(a, u, v);
    RotateOpposes(a, u);
  }

  lemma RotateAdds(a: Rotation, u: Vec, v: Vec)
    ensures Rotate(a, Plus(u, v)) == Plus(Rotate(a, u), Rotate(a, v))
  {
  }

  lemma RotateSubtracts(a: Rotation, u: Vec, v: Vec)
    ensures Rotate(a, Minus(u, v)) == Minus(Rotate(a, u), Rotate(a, v))
  {
  }

  lemma RotateOpposes(a: Rotation, u: Vec)
    ensures Rotate(a, Opposite(u)) == Opposite(Rotate(a, u))
  {
  }

  // ── Poses ───────────────────────────────────────────────────────────────────

  function Compose(a: Pose, b: Pose): Pose
  {
    var (ca, sa) := (a.heading.c, a.heading.s);
    Pose(Vec(a.at.x + ca * b.at.x - sa * b.at.y, a.at.y + sa * b.at.x + ca * b.at.y), Turn(a.heading, b.heading))
  }

  function Inverse(p: Pose): Pose
  {
    Pose(Retraced(p.heading, p.at), Back(p.heading))
  }

  /** `b` in the frame of `a`. */
  function Between(a: Pose, b: Pose): Pose
  {
    Pose(Unrotate(a.heading, Minus(b.at, a.at)), Turn(Back(a.heading), b.heading))
  }

  lemma RotateBackParts(h: Heading, v: Vec)
    ensures Rotate(Back(h), v) == Unrotate(h, v)
    ensures Rotate(Back(h), Opposite(v)) == Retraced(h, v)
  {
  }

  /** Composition and its inverse in terms of rotations. */
  lemma ComposeParts(a: Pose, b: Pose)
    ensures Compose(a, b) == Pose(Plus(a.at, Rotate(a.heading, b.at)), Turn(a.heading, b.heading))
    ensures Between(a, b) == Pose(Rotate(Back(a.heading), Minus(b.at, a.at)), Turn(Back(a.heading), b.heading))
    ensures Inverse(a) == Pose(Rotate(Back(a.heading), Opposite(a.at)), Back(a.heading))
  {
    hide *;
    ComposePart(a, b);
    BetweenPart(a, b);
    InversePart(a);
  }

  lemma ComposePart(a: Pose, b: Pose)
    ensures Compose(a, b) == Pose(Plus(a.at, Rotate(a.heading, b.at)), Turn(a.heading, b.heading))
  {
    hide IsUnit, Turn;
    var l, r := Compose(a, b).at, Plus(a.at, Rotate(a.heading, b.at));
    assert l.x == r.x;
    assert l.y == r.y;
  }

  lemma BetweenPart(a: Pose, b: Pose)
    ensures Between(a, b) == Pose(Rotate(Back(a.heading), Minus(b.at, a.at)), Turn(Back(a.heading), b.heading))
  {
    hide IsUnit, Turn, Back, Rotate, Unrotate, Minus;
    RotateBackParts(a.heading, Minus(b.at, a.at));
  }

  lemma InversePart(a: Pose)
    ensures Inverse(a) == Pose(Rotate(Back(a.heading), Opposite(a.at)), Back(a.heading))
  {
  }

  lemma PlusMinus(u: Vec, v: Vec, w: Vec)
    ensures Plus(u, Minus(v, u)) == v && Minus(Plus(u, v), u) == v
    ensures Plus(Plus(u, v), w) == Plus(u, Plus(v, w))
    ensures Plus(u, Vec(0.0, 0.0)) == u == Plus(Vec(0.0, 0.0), u)
    ensures Minus(u, u) == Vec(0.0, 0.0) == Plus(Opposite(u), u) == Plus(u, Opposite(u))
    ensures Plus(Minus(u, v), Minus(w, u)) == Minus(w, v)
    ensures Plus(Opposite(u), v) == Minus(v, u)
  {
  }

  lemma ComposeIsAssociative(a: Pose, b: Pose, c: Pose)
    ensures Compose(Compose(a, b), c) == Compose(a, Compose(b, c))
  {
    hide IsUnit, Turn, Rotate, Plus, Compose, Between, Inverse;
    ComposeParts(a, b);
    ComposeParts(Compose(a, b), c);
    ComposeParts(b, c);
    ComposeParts(a, Compose(b, c));
    RotateTurned(a.heading, b.heading, c.at);
    RotateIsLinear(a.heading, b.at, Rotate(b.heading, c.at));
    TurnsAssociate(a.heading, b.heading, c.heading);
    PlusMinus(a.at, Rotate(a.heading, b.at), Rotate(a.heading, Rotate(b.heading, c.at)));
  }

  /** The origin is neutral, and an inverse inverts on both sides. */
  lemma InverseUndoes(a: Pose)
    ensures Compose(ORIGIN, a) == a == Compose(a, ORIGIN)
    ensures Compose(a, Inverse(a)) == ORIGIN == Compose(Inverse(a), a)
  {
  }

  lemma BetweenIsInverseComposed(a: Pose, b: Pose)
    ensures Between(a, b) == Compose(Inverse(a), b)
  {
    hide IsUnit, Turn, Rotate, Plus, Minus, Compose, Between, Inverse, Back;
    ComposeParts(a, b);
    ComposeParts(Inverse(a), b);
    var zero := Vec(0.0, 0.0);
    RotateIsLinear(Back(a.heading), Opposite(a.at), b.at);
    PlusMinus(a.at, b.at, zero);
  }

  /** Relative poses are the differences of composition. */
  lemma BetweenThenCompose(a: Pose, b: Pose)
    ensures Compose(a, Between(a, b)) == b
    ensures Between(a, Compose(a, b)) == b
  {
    hide *;
    BetweenIsInverseComposed(a, b);
    BetweenIsInverseComposed(a, Compose(a, b));
    ComposeIsAssociative(a, Inverse(a), b);
    ComposeIsAssociative(Inverse(a), a, b);
    InverseUndoes(a);
    InverseUndoes(b);
  }

  /** If c = a . b then a = c . b^-1, as the source's comment has it. */
  lemma InverseOnTheRight(a: Pose, b: Pose)
    ensures Compose(Compose(a, b), Inverse(b)) == a
  {
    hide *;
    ComposeIsAssociative(a, b, Inverse(b));
    InverseUndoes(a);
    InverseUndoes(b);
  }

  /** Relative poses chain. */
  lemma BetweensChain(a: Pose, b: Pose, c: Pose)
    ensures Compose(Between(a, b), Between(b, c)) == Between(a, c)
  {
    hide *;
    BetweenIsInverseComposed(a, b);
    BetweenIsInverseComposed(a, c);
    ComposeIsAssociative(Inverse(a), b, Between(b, c));
    BetweenThenCompose(b, c);
  }

  /** Moving two poses together leaves one as the other sees it. */
  lemma BetweenMovesAlong(g: Pose, a: Pose, b: Pose)
    ensures Between(Compose(g, a), Compose(g, b)) == Between(a, b)
  {
    hide *;
    ComposeIsAssociative(g, a, Between(a, b));
    BetweenThenCompose(a, b);
    BetweenThenCompose(Compose(g, a), Between(a, b));
  }

  lemma BetweenItself(a: Pose)
    ensures Between(a, a) == ORIGIN && Compose(a, ORIGIN) == a
  {
  }

  // ── Odometry ────────────────────────────────────────────────────────────────

  /** One odometry reading composed onto the tracked pose: only the step since the
      reading before counts. */
  function Carried(tracked: Pose, before: Pose, odom: Pose): Pose
  {
    Compose(tracked, Between(before, odom))
  }

  function CarriedAlong(tracked: Pose, odom: seq<Pose>): Pose
    requires |odom| > 0
  {
    if |odom| == 1 then tracked
    else Carried(CarriedAlong(tracked, odom[..|odom| - 1]), odom[|odom| - 2], odom[|odom| - 1])
  }

  /** However many readings there are, the tracked pose moves by the step between the
      first and the last. */
  lemma {:induction false} OdometryTelescopes(tracked: Pose, odom: seq<Pose>)
    requires |odom| > 0
    ensures CarriedAlong(tracked, odom) == Compose(tracked, Between(odom[0], odom[|odom| - 1]))
  {
    hide Compose, Between;
    if |odom| == 1 {
      BetweenItself(odom[0]);
      BetweenItself(tracked);
    } else {
      var n := |odom|;
      OdometryTelescopes(tracked, odom[..n - 1]);
      BetweensChain(odom[0], odom[n - 2], odom[n - 1]);
      ComposeIsAssociative(tracked, Between(odom[0], odom[n - 2]), Between(odom[n - 2], odom[n - 1]));
    }
  }

  /** ... and so whatever frame the readings are in. */
  lemma OdometryFrameDoesNotMatter(tracked: Pose, before: Pose, odom: Pose, frame: Pose)
    ensures Carried(tracked, Compose(frame, before), Compose(frame, odom)) == Carried(tracked, before, odom)
  {
    BetweenMovesAlong(frame, before, odom);
    hide Compose, Between;
  }
}
