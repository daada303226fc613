/** The A* search of `maploc/src/planner.rs` over the inflated mask: 8-connected
    moves, integer costs, an octile heuristic, and a heap with stale entries left
    in it. */
module Search {
  import opened Lines
  import opened Grid

  const COST_STRAIGHT: int := 1000
  const COST_DIAGONAL: int := 1414

  /** The mark of a node nobody has reached: u32::MAX. */
  const NO_NODE: int := 0xFFFF_FFFF

  type Cell = (int, int)

  /** i32 addition that stops at the largest value instead of wrapping. */
  function SaturatingAdd(a: int, b: int): (r: int)
    requires 0 <= a && 0 <= b
    ensures r == a + b || (r == I32_MAX < a + b)
  {
    if a + b > I32_MAX then I32_MAX else a + b
  }

  /** The octile distance between two cells. */
  function Octile(a: Cell, b: Cell): (r: int)
    ensures r >= 0
  {
    var di, dj := Abs(a.0 - b.0), Abs(a.1 - b.1);
    var lo, hi := if di < dj then di else dj, if di < dj then dj else di;
    COST_STRAIGHT * (hi - lo) + COST_DIAGONAL * lo
  }

  /** The eight moves the search tries, in its order: row step, column step, cost. */
  const NEIGHBOURS: seq<(int, int, int)> :=
    [(-1, 0, COST_STRAIGHT), (1, 0, COST_STRAIGHT), (0, -1, COST_STRAIGHT), (0, 1, COST_STRAIGHT),
     (-1, -1, COST_DIAGONAL), (-1, 1, COST_DIAGONAL), (1, -1, COST_DIAGONAL), (1, 1, COST_DIAGONAL)]

  /** What a move costs: the two axes together, or one. */
  function MoveCost(a: Cell, b: Cell): int
  {
    if a.0 != b.0 && a.1 != b.1 then COST_DIAGONAL else COST_STRAIGHT
  }

  /** A grid with some cells blocked. The bounds are the ones the source's casts to
      i32 and u32 need, and its i32 octile distance. */
  datatype Mask = Mask(blocked: seq<bool>, w: nat, h: nat) {

    predicate Valid()
    {
      |blocked| == w * h <= I32_MAX && COST_DIAGONAL * Max(w, h) <= I32_MAX
    }

    predicate InBounds(c: Cell)
    {
      0 <= c.0 < h && 0 <= c.1 < w
    }

    /** In bounds and not blocked. */
    predicate Free(c: Cell)
    {
      InBounds(c) && 0 <= Idx(w, c.0, c.1) < |blocked| && !blocked[Idx(w, c.0, c.1)]
    }

    /** A legal move: to one of the eight neighbours, if free; diagonally only
        between two free corners. */
    predicate Move(a: Cell, b: Cell)
    {
      && InBounds(a) && Free(b) && a != b
      && Abs(a.0 - b.0) <= 1 && Abs(a.1 - b.1) <= 1
      && (a.0 != b.0 && a.1 != b.1 ==> Free((a.0, b.1)) && Free((b.0, a.1)))
    }

    /** A walk of legal moves. */
    predicate IsPath(p: seq<Cell>, from: Cell, to: Cell)
    {
      && |p| > 0 && p[0] == from && p[|p| - 1] == to
      && forall k {:trigger p[k]} :: 1 <= k < |p| ==> Move(p[k - 1], p[k])
    }

    ghost predicate Reachable(from: Cell, to: Cell)
    {
      exists p :: IsPath(p, from, to)
    }

    ghost predicate AllReachable(from: Cell, s: set<Cell>)
    {
      forall c :: c in s ==> Reachable(from, c)
    }

    /** More than `n` cells can be reached from `from`. */
    ghost predicate ManyReachable(from: Cell, n: nat)
    {
      exists s: set<Cell> :: AllReachable(from, s) && |s| > n
    }
  }

  function PathCost(p: seq<Cell>): (r: int)
    ensures r >= 0
  {
    if |p| < 2 then 0 else MoveCost(p[0], p[1]) + PathCost(p[1..])
  }

  /** The heuristic is consistent: one move never lowers it by more than it costs. */
  lemma OctileIsConsistent(m: Mask, a: Cell, b: Cell, goal: Cell)
    requires m.Move(a, b)
    ensures Octile(a, goal) <= MoveCost(a, b) + Octile(b, goal)
  {
  }

  /** ... so it never overestimates a walk. */
  lemma {:induction false} OctileIsAdmissible(m: Mask, p: seq<Cell>, goal: Cell)
    requires |p| > 0 && m.IsPath(p, p[0], goal)
    ensures Octile(p[0], goal) <= PathCost(p)
  {
    if |p| > 1 {
      assert m.Move(p[0], p[1]);
      OctileIsConsistent(m, p[0], p[1], goal);
      OctileIsAdmissible(m, p[1..], goal);
    }
  }

  /** One query and the search's variables over it; nodes are row-major indices. */
  datatype Query = Query(m: Mask, start: Cell, goal: Cell) {

    ghost predicate Valid()
    {
      m.Valid() && m.InBounds(start) && m.InBounds(goal)
    }

    function Nodes(): nat
    {
      m.w * m.h
    }

    function Node(c: Cell): int
    {
      Idx(m.w, c.0, c.1)
    }

    function CellAt(n: int): Cell
    {
      if m.w == 0 then (0, 0) else (n / m.w, n % m.w)
    }

    predicate Move(n: int, k: int)
    {
      m.Move(CellAt(n), CellAt(k))
    }

    function Cost(n: int, k: int): int
    {
      MoveCost(CellAt(n), CellAt(k))
    }

    function Heuristic(n: int): (r: int)
      ensures r >= 0
    {
      Octile(CellAt(n), goal)
    }

    /** The heap key of a node with score `g`. */
    function Key(g: int, n: int): (r: int)
      requires 0 <= g
      ensures 0 <= r
    {
      SaturatingAdd(g, Heuristic(n))
    }

    lemma CellsAndNodes()
      requires Valid()
      ensures forall c: Cell {:trigger Node(c)} :: m.InBounds(c) ==> 0 <= Node(c) < Nodes() && CellAt(Node(c)) == c
      ensures forall n {:trigger CellAt(n)} :: 0 <= n < Nodes() ==> m.InBounds(CellAt(n)) && Node(CellAt(n)) == n
    {
      forall c: Cell {:trigger Node(c)} | m.InBounds(c)
        ensures 0 <= Node(c) < Nodes() && CellAt(Node(c)) == c
      {
        IdxIsInRange(m.w, m.h, c.0, c.1);
      }
      forall n {:trigger CellAt(n)} | 0 <= n < Nodes()
        ensures m.InBounds(CellAt(n)) && Node(CellAt(n)) == n
      {
        SlotHasACell(m.w, m.h, n);
      }
    }
  }

  /** A heap entry: key and node, compared as the source's tuples are. */
  type Entry = (int, int)

  predicate AtMost(a: Entry, b: Entry)
  {
    a.0 < b.0 || (a.0 == b.0 && a.1 <= b.1)
  }

  lemma {:induction false} HeapHasALeast(heap: multiset<Entry>) returns (least: Entry)
    requires |heap| > 0
    ensures least in heap && forall e :: e in heap ==> AtMost(least, e)
    decreases |heap|
  {
    var e :| e in heap;
    var rest := heap - multiset{e};
    if |rest| == 0 {
      assert heap == multiset{e};
      least := e;
    } else {
      var r := HeapHasALeast(rest);
      least := if AtMost(e, r) then e else r;
      forall x | x in heap ensures AtMost(least, x) {
        if x != e { assert x in rest; }
      }
    }
  }

  /** The search's tables. */
  datatype Tables = Tables(g: seq<int>, cameFrom: seq<int>, closed: seq<bool>) {

    ghost predicate Sized(q: Query)
    {
      && |g| == |cameFrom| == |closed| == q.Nodes()
      && forall n :: 0 <= n < |g| ==> 0 <= g[n] <= I32_MAX
    }

    /** Every reached node but the start has a closed parent one move before it. */
    ghost predicate Parented(q: Query, n: int)
      requires Sized(q) && 0 <= n < q.Nodes()
    {
      var p := cameFrom[n];
      0 <= p < q.Nodes() && closed[p] && q.Move(p, n) && g[n] == g[p] + q.Cost(p, n)
    }

    /** No move out of `u` can improve its other end. */
    ghost predicate Relaxed(q: Query, u: int, v: int)
      requires Sized(q) && 0 <= u < q.Nodes() && 0 <= v < q.Nodes()
    {
      g[u] + q.Heuristic(u) < I32_MAX && q.Move(u, v) ==> g[v] <= g[u] + q.Cost(u, v)
    }
  }

  ghost predicate Rooted(q: Query, t: Tables)
    requires q.Valid()
  {
    && t.Sized(q)
    && 0 <= q.Node(q.start) < q.Nodes() && t.g[q.Node(q.start)] == 0
    && 0 <= q.Node(q.goal) < q.Nodes() && !t.closed[q.Node(q.goal)]
  }

  ghost predicate AllParented(q: Query, t: Tables)
    requires t.Sized(q)
  {
    forall n :: 0 <= n < q.Nodes() && n != q.Node(q.start) && t.g[n] < I32_MAX ==> t.Parented(q, n)
  }

  ghost predicate ClosedRelaxed(q: Query, t: Tables, expanding: int)
    requires t.Sized(q)
  {
    forall u, v :: 0 <= u < q.Nodes() && 0 <= v < q.Nodes() && t.closed[u] && u != expanding ==> t.Relaxed(q, u, v)
  }

  ghost predicate OpenQueued(q: Query, t: Tables, heap: multiset<Entry>)
    requires t.Sized(q)
  {
    forall n :: 0 <= n < q.Nodes() && !t.closed[n] && t.g[n] < I32_MAX ==> (q.Key(t.g[n], n), n) in heap
  }

  ghost predicate HeapBounded(q: Query, t: Tables, heap: multiset<Entry>, last: int)
    requires t.Sized(q)
  {
    forall e: Entry ::
        e in heap ==> 0 <= e.1 < q.Nodes() && t.g[e.1] < I32_MAX && q.Key(t.g[e.1], e.1) <= e.0 && last <= e.0
  }

  ghost predicate ClosedBounded(q: Query, t: Tables, last: int)
    requires t.Sized(q)
  {
    forall n :: 0 <= n < q.Nodes() && t.closed[n] ==> t.g[n] < I32_MAX && q.Key(t.g[n], n) <= last
  }

  /** What holds between two pops; `last` is the key of the last node expanded.
      `expanding`, if a node, is closed with its moves only partly tried. */
  ghost predicate Invariant(q: Query, t: Tables, heap: multiset<Entry>, last: int, expanding: int)
    requires q.Valid()
  {
    && Rooted(q, t) && AllParented(q, t) && ClosedRelaxed(q, t, expanding)
    && OpenQueued(q, t, heap) && HeapBounded(q, t, heap, last) && ClosedBounded(q, t, last)
  }

  /** On a walk to the goal that beats `I32_MAX`, some open node has a key no larger
      than the walk's cost. */
  lemma {:induction false} OpenOnEveryPath(q: Query, t: Tables, heap: multiset<Entry>, last: int, p: seq<Cell>,
      spent: int) returns (n: int)
    requires q.Valid() && Invariant(q, t, heap, last, NO_NODE)
    requires |p| > 0 && q.m.IsPath(p, p[0], q.goal) && q.m.InBounds(p[0]) && 0 <= q.Node(p[0]) < q.Nodes()
    requires t.g[q.Node(p[0])] <= spent && spent + PathCost(p) < I32_MAX
    ensures 0 <= n < q.Nodes() && !t.closed[n] && t.g[n] < I32_MAX && q.Key(t.g[n], n) <= spent + PathCost(p)
    ensures (q.Key(t.g[n], n), n) in heap
    decreases |p|
  {
    q.CellsAndNodes();
    OctileIsAdmissible(q.m, p, q.goal);
    var u := q.Node(p[0]);
    hide Octile, MoveCost, Idx;
    if !t.closed[u] {
      n := u;
    } else {
      assert |p| > 1;
      assert q.m.Move(p[0], p[1]);
      var v := q.Node(p[1]);
      assert t.Relaxed(q, u, v);
      n := OpenOnEveryPath(q, t, heap, last, p[1..], spent + MoveCost(p[0], p[1]));
    }
  }

  lemma SearchStarts(q: Query, t: Tables)
    requires q.Valid() && t.Sized(q)
    requires forall n :: 0 <= n < q.Nodes() ==> t.g[n] == (if n == q.Node(q.start) then 0 else I32_MAX) && !t.closed[n]
    ensures Invariant(q, t, multiset{(Octile(q.start, q.goal), q.Node(q.start))}, 0, NO_NODE)
  {
    q.CellsAndNodes();
    OctileFits(q, q.start);
    hide Octile, Idx, MoveCost;
    var n := q.Node(q.start);
    assert q.CellAt(n) == q.start && q.Key(0, n) == Octile(q.start, q.goal);
  }

  /** In a grid within the bounds the octile distance is an i32. */
  lemma OctileFits(q: Query, c: Cell)
    requires q.Valid() && q.m.InBounds(c)
    ensures Octile(c, q.goal) <= I32_MAX
  {
  }

  /** A stale entry changes nothing. */
  lemma PopStale(q: Query, t: Tables, heap: multiset<Entry>, last: int, top: Entry)
    requires q.Valid() && Invariant(q, t, heap, last, NO_NODE)
    requires top in heap && t.closed[top.1]
    ensures Invariant(q, t, heap - multiset{top}, last, NO_NODE)
  {
    hide Octile, Idx, MoveCost;
  }

  /** The least entry of an open node carries the node's own key. */
  lemma LeastKeyIsCurrent(q: Query, t: Tables, heap: multiset<Entry>, last: int, top: Entry)
    requires q.Valid() && Invariant(q, t, heap, last, NO_NODE)
    requires top in heap && !t.closed[top.1] && forall e :: e in heap ==> AtMost(top, e)
    ensures top.0 == q.Key(t.g[top.1], top.1)
  {
    hide Octile, Idx, MoveCost;
    assert (q.Key(t.g[top.1], top.1), top.1) in heap;
  }

  /** Closing the least open node starts its expansion. */
  lemma PopOpen(q: Query, t: Tables, heap: multiset<Entry>, last: int, top: Entry)
    requires q.Valid() && Invariant(q, t, heap, last, NO_NODE)
    requires top in heap && !t.closed[top.1] && top.1 != q.Node(q.goal)
    requires forall e :: e in heap ==> AtMost(top, e)
    ensures Invariant(q, t.(closed := t.closed[top.1 := true]), heap - multiset{top}, top.0, top.1)
    ensures top.0 == q.Key(t.g[top.1], top.1)
  {
    hide AllParented, ClosedRelaxed, OpenQueued, ClosedBounded, Octile, Idx, MoveCost, Query.Key, Query.CellAt;
    LeastKeyIsCurrent(q, t, heap, last, top);
    CloseKeepsTheHeap(q, t, heap, last, top);
    CloseKeepsParents(q, t, top.1);
    CloseKeepsRelaxed(q, t, top.1);
    hide HeapBounded;
  }

  lemma CloseKeepsTheHeap(q: Query, t: Tables, heap: multiset<Entry>, last: int, top: Entry)
    requires q.Valid() && t.Sized(q) && 0 <= top.1 < q.Nodes()
    requires OpenQueued(q, t, heap) && HeapBounded(q, t, heap, last) && ClosedBounded(q, t, last)
    requires top in heap && top.0 == q.Key(t.g[top.1], top.1) && forall e :: e in heap ==> AtMost(top, e)
    ensures var t' := t.(closed := t.closed[top.1 := true]);
            var heap' := heap - multiset{top};
            OpenQueued(q, t', heap') && HeapBounded(q, t', heap', top.0) && ClosedBounded(q, t', top.0)
  {
    hide Octile, Idx, MoveCost, Query.CellAt, Query.Key;
  }

  lemma CloseKeepsParents(q: Query, t: Tables, cur: int)
    requires q.Valid() && t.Sized(q) && 0 <= cur < q.Nodes() && AllParented(q, t)
    ensures AllParented(q, t.(closed := t.closed[cur := true]))
  {
  }

  lemma CloseKeepsRelaxed(q: Query, t: Tables, cur: int)
    requires q.Valid() && t.Sized(q) && 0 <= cur < q.Nodes() && ClosedRelaxed(q, t, NO_NODE)
    ensures ClosedRelaxed(q, t.(closed := t.closed[cur := true]), cur)
  {
    hide Octile, Idx, MoveCost, Query.Move, Query.CellAt, Query.Cost;
    var t' := t.(closed := t.closed[cur := true]);
    forall u, v | 0 <= u < q.Nodes() && 0 <= v < q.Nodes() && t'.closed[u] && u != cur ensures t'.Relaxed(q, u, v) {
      assert t.Relaxed(q, u, v);
    }
  }

  /** The tables after the move from `cur` to `v` has been tried. */
  function Try(q: Query, t: Tables, cur: int, v: int, tentative: int): Tables
    requires t.Sized(q) && 0 <= v < q.Nodes()
  {
    if !t.closed[v] && tentative < t.g[v] then Tables(t.g[v := tentative], t.cameFrom[v := cur], t.closed) else t
  }

  /** Trying a move keeps the invariant and leaves that move nothing to improve. */
  lemma TryKeepsTheInvariant(q: Query, t: Tables, heap: multiset<Entry>, last: int, cur: int, v: int)
    requires q.Valid() && 0 <= cur < q.Nodes() && 0 <= v < q.Nodes()
    requires Invariant(q, t, heap, last, cur) && t.closed[cur] && last == q.Key(t.g[cur], cur)
    requires q.Move(cur, v)
    ensures var tentative := SaturatingAdd(t.g[cur], q.Cost(cur, v));
            var t' := Try(q, t, cur, v, tentative);
            var heap' := if !t.closed[v] && tentative < t.g[v] then heap + multiset{(q.Key(tentative, v), v)} else heap;
            && Invariant(q, t', heap', last, cur) && t'.g[cur] == t.g[cur] && t'.Relaxed(q, cur, v)
            && (forall n :: 0 <= n < q.Nodes() ==> t'.g[n] <= t.g[n])
  {
    hide Octile, Idx, MoveCost, Query.Move, Query.CellAt, Query.Node, Query.Cost, Query.Heuristic;
    hide AllParented, ClosedRelaxed, OpenQueued, HeapBounded, Query.Key, Tables.Relaxed;
    MoveFacts(q, cur, v);
    var tentative := SaturatingAdd(t.g[cur], q.Cost(cur, v));
    if !t.closed[v] && tentative < t.g[v] {
      ImproveKeepsTheRest(q, t, last, cur, v);
      ImproveKeepsParents(q, t, cur, v);
      ImproveKeepsRelaxed(q, t, cur, v);
      ImproveKeepsTheHeap(q, t, heap, last, cur, v);
    } else {
      NothingToImprove(q, t, last, cur, v);
    }
    hide Rooted, ClosedBounded;
  }

  lemma MoveFacts(q: Query, n: int, k: int)
    requires q.Move(n, k)
    ensures q.Cost(n, k) >= COST_STRAIGHT && q.Heuristic(n) <= q.Cost(n, k) + q.Heuristic(k)
  {
    OctileIsConsistent(q.m, q.CellAt(n), q.CellAt(k), q.goal);
    hide Octile, Idx, Query.CellAt;
  }

  lemma NothingToImprove(q: Query, t: Tables, last: int, cur: int, v: int)
    requires q.Valid() && t.Sized(q) && 0 <= cur < q.Nodes() && 0 <= v < q.Nodes()
    requires ClosedBounded(q, t, last) && last == q.Key(t.g[cur], cur)
    requires 0 <= q.Cost(cur, v) && q.Heuristic(cur) <= q.Cost(cur, v) + q.Heuristic(v)
    requires t.closed[v] || SaturatingAdd(t.g[cur], q.Cost(cur, v)) >= t.g[v]
    ensures t.Relaxed(q, cur, v)
  {
  }

  lemma ImproveKeepsTheRest(q: Query, t: Tables, last: int, cur: int, v: int)
    requires q.Valid() && Rooted(q, t) && ClosedBounded(q, t, last) && 0 <= cur < q.Nodes() && 0 <= v < q.Nodes()
    requires t.closed[cur] && !t.closed[v] && 0 < t.g[cur] + q.Cost(cur, v) < t.g[v]
    ensures var t' := Tables(t.g[v := t.g[cur] + q.Cost(cur, v)], t.cameFrom[v := cur], t.closed);
            Rooted(q, t') && ClosedBounded(q, t', last) && t'.Relaxed(q, cur, v)
  {
    hide Query.Move, Query.Cost, Query.Heuristic, Query.Node, Query.Key;
  }

  lemma ImproveKeepsParents(q: Query, t: Tables, cur: int, v: int)
    requires q.Valid() && t.Sized(q) && 0 <= cur < q.Nodes() && 0 <= v < q.Nodes() && AllParented(q, t)
    requires t.closed[cur] && !t.closed[v] && q.Move(cur, v) && 0 <= t.g[cur] + q.Cost(cur, v) < I32_MAX
    ensures AllParented(q, Tables(t.g[v := t.g[cur] + q.Cost(cur, v)], t.cameFrom[v := cur], t.closed))
  {
    hide Octile, Idx, MoveCost, Query.Move, Query.CellAt, Query.Cost, Query.Heuristic;
    var t' := Tables(t.g[v := t.g[cur] + q.Cost(cur, v)], t.cameFrom[v := cur], t.closed);
    forall n | 0 <= n < q.Nodes() && n != q.Node(q.start) && t'.g[n] < I32_MAX ensures t'.Parented(q, n) {
      if n != v {
        assert t.Parented(q, n);
      }
    }
  }

  lemma ImproveKeepsRelaxed(q: Query, t: Tables, cur: int, v: int)
    requires q.Valid() && t.Sized(q) && 0 <= cur < q.Nodes() && 0 <= v < q.Nodes() && ClosedRelaxed(q, t, cur)
    requires t.closed[cur] && !t.closed[v] && 0 <= t.g[cur] + q.Cost(cur, v) < t.g[v]
    ensures ClosedRelaxed(q, Tables(t.g[v := t.g[cur] + q.Cost(cur, v)], t.cameFrom[v := cur], t.closed), cur)
  {
    hide Octile, Idx, MoveCost, Query.Move, Query.CellAt, Query.Cost, Query.Heuristic;
    var t' := Tables(t.g[v := t.g[cur] + q.Cost(cur, v)], t.cameFrom[v := cur], t.closed);
    forall x, y | 0 <= x < q.Nodes() && 0 <= y < q.Nodes() && t'.closed[x] && x != cur ensures t'.Relaxed(q, x, y) {
      assert t.Relaxed(q, x, y);
    }
  }

  lemma ImproveKeepsTheHeap(q: Query, t: Tables, heap: multiset<Entry>, last: int, cur: int, v: int)
    requires q.Valid() && t.Sized(q) && 0 <= cur < q.Nodes() && 0 <= v < q.Nodes()
    requires OpenQueued(q, t, heap) && HeapBounded(q, t, heap, last) && last == q.Key(t.g[cur], cur)
    requires !t.closed[v] && 0 <= t.g[cur] + q.Cost(cur, v) < t.g[v]
              && q.Heuristic(cur) <= q.Cost(cur, v) + q.Heuristic(v)
    ensures var g := t.g[cur] + q.Cost(cur, v);
            var t' := Tables(t.g[v := g], t.cameFrom[v := cur], t.closed);
            var heap' := heap + multiset{(q.Key(g, v), v)};
            OpenQueued(q, t', heap') && HeapBounded(q, t', heap', last)
  {
    hide Octile, Idx, MoveCost, Query.Move, Query.CellAt, Query.Cost, Query.Heuristic;
  }

  /** The cell the `j`-th entry of the neighbour table leads to. */
  function Neighbour(c: Cell, j: nat): Cell
    requires j < 8
  {
    (c.0 + NEIGHBOURS[j].0, c.1 + NEIGHBOURS[j].1)
  }

  /** Every legal move is in the table, at its cost. */
  lemma MoveIsInTheTable(m: Mask, a: Cell, b: Cell) returns (j: nat)
    requires m.Move(a, b)
    ensures j < 8 && b == Neighbour(a, j)
  {
    var di, dj := b.0 - a.0, b.1 - a.1;
    j := if dj == 0 then (if di < 0 then 0 else 1)
         else if di == 0 then (if dj < 0 then 2 else 3)
         else if di < 0 then (if dj < 0 then 4 else 5)
         else (if dj < 0 then 6 else 7);
  }

  lemma TableCostIsMoveCost(a: Cell, j: nat)
    requires j < 8
    ensures NEIGHBOURS[j].2 == MoveCost(a, Neighbour(a, j)) && Neighbour(a, j) != a
    ensures Abs(a.0 - Neighbour(a, j).0) <= 1 && Abs(a.1 - Neighbour(a, j).1) <= 1
    ensures (NEIGHBOURS[j].0 != 0 && NEIGHBOURS[j].1 != 0) <==> (a.0 != Neighbour(a, j).0 && a.1 != Neighbour(a, j).1)
  {
  }

  /** The first `k` moves out of `cur` have been tried. */
  ghost predicate Tried(q: Query, t: Tables, cur: int, k: nat)
    requires t.Sized(q) && 0 <= cur < q.Nodes() && k <= 8
  {
    forall j :: 0 <= j < k ==> var b := Neighbour(q.CellAt(cur), j);
                               0 <= q.Node(b) < q.Nodes() && q.m.Move(q.CellAt(cur), b) ==> t.Relaxed(q, cur, q.Node(b))
  }

  /** With all eight moves tried the node is relaxed like any closed one. */
  lemma AllTried(q: Query, t: Tables, heap: multiset<Entry>, last: int, cur: int)
    requires q.Valid() && 0 <= cur < q.Nodes() && Invariant(q, t, heap, last, cur) && Tried(q, t, cur, 8)
    ensures Invariant(q, t, heap, last, NO_NODE)
  {
    q.CellsAndNodes();
    hide Octile, Idx, MoveCost, Mask.Move;
    forall v | 0 <= v < q.Nodes() ensures t.Relaxed(q, cur, v) {
      if q.Move(cur, v) {
        var j := MoveIsInTheTable(q.m, q.CellAt(cur), q.CellAt(v));
        assert q.CellAt(v) == Neighbour(q.CellAt(cur), j);
      }
    }
    hide Tables.Relaxed, AllParented, OpenQueued, HeapBounded, ClosedBounded;
    assert ClosedRelaxed(q, t, NO_NODE);
  }

  lemma TriedOneMore(q: Query, t: Tables, t': Tables, cur: int, k: nat)
    requires t.Sized(q) && t'.Sized(q) && 0 <= cur < q.Nodes() && k < 8 && Tried(q, t, cur, k)
    requires t'.g[cur] == t.g[cur] && forall n :: 0 <= n < q.Nodes() ==> t'.g[n] <= t.g[n]
    requires var b := Neighbour(q.CellAt(cur), k);
             0 <= q.Node(b) < q.Nodes() && q.m.Move(q.CellAt(cur), b) ==> t'.Relaxed(q, cur, q.Node(b))
    ensures Tried(q, t', cur, k + 1)
  {
  }

  /** What the source's three tests decide: whether the table's entry is a legal
      move to a cell still open. */
  method NeighbourToTry(q: Query, closed: seq<bool>, c: Cell, k: nat) returns (nidx: int)
    requires q.Valid() && q.m.InBounds(c) && |closed| == q.Nodes() && k < 8
    ensures var b := Neighbour(c, k);
            if nidx == NO_NODE then !q.m.Move(c, b) || (0 <= q.Node(b) < q.Nodes() && closed[q.Node(b)])
            else q.m.Move(c, b) && nidx == q.Node(b) && 0 <= nidx < q.Nodes() && !closed[nidx]
  {
    var (di, dj, _) := NEIGHBOURS[k];
    var ni, nj := c.0 + di, c.1 + dj;
    TableCostIsMoveCost(c, k);
    hide Idx, MoveCost;
    if ni < 0 || nj < 0 || ni >= q.m.h || nj >= q.m.w {
      return NO_NODE;
    }
    IdxFacts(q.m.w, q.m.h);
    nidx := Idx(q.m.w, ni, nj);
    if q.m.blocked[nidx] || closed[nidx] {
      return NO_NODE;
    }
    if di != 0 && dj != 0 && (q.m.blocked[Idx(q.m.w, c.0, nj)] || q.m.blocked[Idx(q.m.w, ni, c.1)]) {
      return NO_NODE;
    }
  }

  lemma MovesAndNodes(q: Query, cur: int, b: Cell)
    requires q.Valid() && 0 <= cur < q.Nodes()
    ensures q.m.InBounds(q.CellAt(cur))
    ensures q.m.Move(q.CellAt(cur), b) ==>
              0 <= q.Node(b) < q.Nodes() && q.CellAt(q.Node(b)) == b && q.Move(cur, q.Node(b))
  {
    q.CellsAndNodes();
    hide Idx, Query.CellAt;
  }

  /** One move of the table: skipped when it is not legal or its end is closed, and
      otherwise queued when it improves the end's score. */
  method TryMove(q: Query, gScore: array<int>, cameFrom: array<int>, closed: array<bool>, heap: multiset<Entry>,
      cur: int, k: nat)
    returns (heap': multiset<Entry>)
    requires q.Valid() && 0 <= cur < q.Nodes() && k < 8 && gScore != cameFrom
    requires Tables(gScore[..], cameFrom[..], closed[..]).Sized(q) && closed[cur]
    requires Invariant(q, Tables(gScore[..], cameFrom[..], closed[..]), heap, q.Key(gScore[cur], cur), cur)
    requires Tried(q, Tables(gScore[..], cameFrom[..], closed[..]), cur, k)
    modifies gScore, cameFrom
    ensures gScore[cur] == old(gScore[cur])
    ensures Tables(gScore[..], cameFrom[..], closed[..]).Sized(q)
    ensures Invariant(q, Tables(gScore[..], cameFrom[..], closed[..]), heap', q.Key(gScore[cur], cur), cur)
    ensures Tried(q, Tables(gScore[..], cameFrom[..], closed[..]), cur, k + 1)
  {
    hide Octile, Idx, MoveCost, Mask.Move, Query.CellAt, Query.Node, Query.Key, Query.Valid, Invariant,
        Tables.Relaxed, Neighbour, Tried;
    ghost var t := Tables(gScore[..], cameFrom[..], closed[..]);
    var c := q.CellAt(cur);
    var b := Neighbour(c, k);
    MovesAndNodes(q, cur, b);
    ScoresAreScores(q, t, heap, q.Key(gScore[cur], cur), cur);
    var nidx := NeighbourToTry(q, closed[..], c, k);
    heap' := heap;
    if q.m.Move(c, b) {
      TryKeepsTheInvariant(q, t, heap, q.Key(t.g[cur], cur), cur, q.Node(b));
    }
    if nidx != NO_NODE {
      TableCost(q, cur, nidx, b, k);
      heap' := Improve(q, gScore, cameFrom, heap, cur, nidx, b, NEIGHBOURS[k].2);
    }
    TriedOneMore(q, t, Tables(gScore[..], cameFrom[..], closed[..]), cur, k);
  }

  lemma ScoresAreScores(q: Query, t: Tables, heap: multiset<Entry>, last: int, cur: int)
    requires q.Valid() && 0 <= cur < q.Nodes() && Invariant(q, t, heap, last, cur) && t.Sized(q)
    ensures 0 <= t.g[cur]
  {
  }

  lemma TableCost(q: Query, cur: int, nidx: int, b: Cell, k: nat)
    requires k < 8 && b == Neighbour(q.CellAt(cur), k) && q.CellAt(nidx) == b
    ensures NEIGHBOURS[k].2 == q.Cost(cur, nidx) && forall g ::
              0 <= g ==> q.Key(g, nidx) == SaturatingAdd(g, Octile(b, q.goal))
  {
  }

  /** Takes a better score for the neighbour, and queues it. */
  method Improve(q: Query, gScore: array<int>, cameFrom: array<int>, heap: multiset<Entry>, cur: int, nidx: int,
      b: Cell, stepCost: int)
    returns (heap': multiset<Entry>)
    requires 0 <= cur < gScore.Length == cameFrom.Length && 0 <= nidx < gScore.Length && gScore != cameFrom
    requires 0 <= gScore[cur] && 0 <= stepCost
    modifies gScore, cameFrom
    ensures var tentative := SaturatingAdd(old(gScore[cur]), stepCost);
            if tentative < old(gScore[nidx]) then
              && gScore[..] == old(gScore[..])[nidx := tentative] && cameFrom[..] == old(cameFrom[..])[nidx := cur]
              && heap' == heap + multiset{(SaturatingAdd(tentative, Octile(b, q.goal)), nidx)}
            else gScore[..] == old(gScore[..]) && cameFrom[..] == old(cameFrom[..]) && heap' == heap
  {
    hide Octile;
    var tentative := SaturatingAdd(gScore[cur], stepCost);
    heap' := heap;
    if tentative < gScore[nidx] {
      gScore[nidx] := tentative;
      cameFrom[nidx] := cur;
      heap' := heap + multiset{(SaturatingAdd(tentative, Octile(b, q.goal)), nidx)};
    }
  }

  /** Tries the eight moves out of `cur`, in the table's order. */
  method Expand(q: Query, gScore: array<int>, cameFrom: array<int>, closed: array<bool>, heap: multiset<Entry>,
      cur: int)
    returns (heap': multiset<Entry>)
    requires q.Valid() && 0 <= cur < q.Nodes() && gScore != cameFrom
    requires Tables(gScore[..], cameFrom[..], closed[..]).Sized(q) && closed[cur]
    requires Invariant(q, Tables(gScore[..], cameFrom[..], closed[..]), heap, q.Key(gScore[cur], cur), cur)
    modifies gScore, cameFrom
    ensures gScore[cur] == old(gScore[cur])
    ensures Tables(gScore[..], cameFrom[..], closed[..]).Sized(q)
    ensures Invariant(q, Tables(gScore[..], cameFrom[..], closed[..]), heap', q.Key(gScore[cur], cur), NO_NODE)
  {
    heap' := heap;
    var curG := gScore[cur];
    hide Octile, Idx, MoveCost, Mask.Move, Query.CellAt, Query.Key, Invariant, Tables.Relaxed, Neighbour;
    for k := 0 to 8
      invariant closed[..] == old(closed[..]) && gScore[cur] == curG
      invariant Tables(gScore[..], cameFrom[..], closed[..]).Sized(q)
      invariant Invariant(q, Tables(gScore[..], cameFrom[..], closed[..]), heap', q.Key(curG, cur), cur)
      invariant Tried(q, Tables(gScore[..], cameFrom[..], closed[..]), cur, k)
    {
      heap' := TryMove(q, gScore, cameFrom, closed, heap', cur, k);
    }
    AllTried(q, Tables(gScore[..], cameFrom[..], closed[..]), heap', q.Key(curG, cur), cur);
  }

  function Reversed<T>(s: seq<T>): (r: seq<T>)
    ensures |r| == |s| && forall k :: 0 <= k < |s| ==> r[k] == s[|s| - 1 - k]
  {
    if s == [] then [] else Reversed(s[1..]) + [s[0]]
  }

  /** A walk may be extended at its front by a move into it. */
  lemma PathGrows(m: Mask, a: Cell, p: seq<Cell>, goal: Cell)
    requires |p| > 0 && m.IsPath(p, p[0], goal) && m.Move(a, p[0])
    ensures m.IsPath([a] + p, a, goal) && PathCost([a] + p) == MoveCost(a, p[0]) + PathCost(p)
  {
  }

  /** Walks the parents back from the goal. A reached node always has one, and its
      score strictly falls on the way, so the walk ends at the start. */
  method Reconstruct(q: Query, cameFrom: seq<int>, cur: int, ghost t: Tables, ghost heap: multiset<Entry>,
      ghost last: int) returns (path: seq<Cell>)
    requires q.Valid() && cameFrom == t.cameFrom && Invariant(q, t, heap, last, NO_NODE)
    requires 0 <= cur < q.Nodes() && cur == q.Node(q.goal) && t.g[cur] < I32_MAX
    ensures q.m.IsPath(path, q.start, q.goal) && PathCost(path) == t.g[cur]
  {
    q.CellsAndNodes();
    hide Octile, Idx, MoveCost, Mask.Move;
    path := [];
    var node := cur;
    ghost var tail := [q.CellAt(node)];
    while true
      invariant 0 <= node < q.Nodes() && t.g[node] < I32_MAX
      invariant tail == [q.CellAt(node)] + Reversed(path)
      invariant q.m.IsPath(tail, q.CellAt(node), q.goal) && PathCost(tail) + t.g[node] == t.g[cur]
      decreases t.g[node]
    {
      path := path + [q.CellAt(node)];
      assert Reversed(path) == tail;
      if node == q.Node(q.start) {
        break;
      }
      var prev := cameFrom[node];
      assert t.Parented(q, node);
      PathGrows(q.m, q.CellAt(prev), tail, q.goal);
      assert q.Cost(prev, node) >= COST_STRAIGHT by { MoveFacts(q, prev, node); }
      tail := [q.CellAt(prev)] + tail;
      node := prev;
    }
    path := Reversed(path);
  }

  lemma StandingIsAPath(m: Mask, c: Cell)
    ensures m.IsPath([c], c, c)
  {
  }

  lemma PathExtends(m: Mask, p: seq<Cell>, start: Cell, a: Cell, b: Cell)
    requires m.IsPath(p, start, a) && m.Move(a, b)
    ensures m.IsPath(p + [b], start, b)
  {
    hide Mask.Move;
    var r := p + [b];
    forall k {:trigger r[k]} | 1 <= k < |r| ensures m.Move(r[k - 1], r[k]) {
      if k < |p| {
        assert p[k] == r[k];
      }
    }
  }

  /** A node with a score can be reached from the start. */
  lemma {:induction false} ScoredIsReachable(q: Query, t: Tables, n: int) returns (p: seq<Cell>)
    requires q.Valid() && Rooted(q, t) && AllParented(q, t)
    requires 0 <= n < q.Nodes() && t.g[n] < I32_MAX
    ensures q.m.IsPath(p, q.start, q.CellAt(n))
    decreases t.g[n]
  {
    q.CellsAndNodes();
    hide Octile, Idx, MoveCost, Mask.Move, Query.CellAt, Mask.IsPath;
    if n == q.Node(q.start) {
      p := [q.start];
      assert q.m.IsPath(p, q.start, q.start) by { StandingIsAPath(q.m, q.start); }
    } else {
      assert t.Parented(q, n);
      var parent := t.cameFrom[n];
      MoveFacts(q, parent, n);
      p := ScoredIsReachable(q, t, parent);
      PathExtends(q.m, p, q.start, q.CellAt(parent), q.CellAt(n));
      p := p + [q.CellAt(n)];
    }
  }

  /** The least entry is the goal's: its score is the cost of the cheapest walk. */
  lemma GoalIsOptimal(q: Query, t: Tables, heap: multiset<Entry>, last: int, top: Entry, p: seq<Cell>)
    requires q.Valid() && Invariant(q, t, heap, last, NO_NODE)
    requires top in heap && top.1 == q.Node(q.goal) && forall e :: e in heap ==> AtMost(top, e)
    requires q.m.IsPath(p, q.start, q.goal)
    ensures t.g[top.1] <= PathCost(p)
  {
    LeastKeyIsCurrent(q, t, heap, last, top);
    q.CellsAndNodes();
    assert q.Heuristic(top.1) == 0;
    hide Octile, Idx, MoveCost, Mask.Move, Query.CellAt;
    if PathCost(p) < t.g[top.1] {
      var n := OpenOnEveryPath(q, t, heap, last, p, 0);
    }
  }

  /** With nothing left in the heap every walk to the goal costs too much for an i32. */
  lemma EmptyHeapMeansNoPath(q: Query, t: Tables, last: int, p: seq<Cell>)
    requires q.Valid() && Invariant(q, t, multiset{}, last, NO_NODE)
    requires q.m.IsPath(p, q.start, q.goal)
    ensures PathCost(p) >= I32_MAX
  {
    hide Octile, Idx, MoveCost, Mask.Move, Query.CellAt;
    if PathCost(p) < I32_MAX {
      var n := OpenOnEveryPath(q, t, multiset{}, last, p, 0);
    }
  }

  /** The nodes marked closed. */
  ghost function Closed(closed: seq<bool>): set<int>
  {
    set k | 0 <= k < |closed| && closed[k]
  }

  lemma NothingClosed(closed: seq<bool>)
    requires forall k :: 0 <= k < |closed| ==> !closed[k]
    ensures Closed(closed) == {}
  {
  }

  lemma CloseOne(closed: seq<bool>, cur: int)
    requires 0 <= cur < |closed| && !closed[cur]
    ensures |Closed(closed[cur := true])| == |Closed(closed)| + 1 <= |closed|
  {
    assert Closed(closed[cur := true]) == Closed(closed) + {cur};
    AtMostSoMany(Closed(closed[cur := true]), |closed|);
  }

  /** The nodes closed so far, as cells, are all reachable. */
  lemma ClosedAreReachable(q: Query, t: Tables, heap: multiset<Entry>, last: int, cur: int, n: nat)
    requires q.Valid() && Invariant(q, t, heap, last, cur)
    requires |Closed(t.closed)| > n
    ensures q.m.ManyReachable(q.start, n)
  {
    var nodes := Closed(t.closed);
    q.CellsAndNodes();
    hide Octile, Idx, MoveCost, Mask.Move, Query.CellAt;
    var cells := set k | k in nodes :: q.CellAt(k);
    SameSize(q, nodes, cells);
    forall c | c in cells ensures q.m.Reachable(q.start, c) {
      var k :| k in nodes && c == q.CellAt(k);
      var p := ScoredIsReachable(q, t, k);
    }
    assert q.m.AllReachable(q.start, cells);
  }

  lemma Pick<T>(s: set<T>) returns (k: T)
    requires s != {}
    ensures k in s
  {
    k :| k in s;
  }

  lemma {:induction false} SameSize(q: Query, nodes: set<int>, cells: set<Cell>)
    requires q.Valid() && forall k :: k in nodes ==> 0 <= k < q.Nodes()
    requires cells == set k | k in nodes :: q.CellAt(k)
    ensures |cells| == |nodes|
    decreases |nodes|
  {
    q.CellsAndNodes();
    hide Query.CellAt, Query.Node;
    if |nodes| == 0 {
      assert nodes == {};
      assert cells == {};
    } else {
      var k := Pick(nodes);
      var others := nodes - {k};
      var rest := set j | j in others :: q.CellAt(j);
      SameSize(q, others, rest);
      assert q.CellAt(k) !in rest;
      assert cells == rest + {q.CellAt(k)};
    }
  }

  lemma {:induction false} AtMostSoMany(s: set<int>, n: nat)
    requires forall k :: k in s ==> 0 <= k < n
    ensures |s| <= n
  {
    if n == 0 {
      assert forall k :: k !in s;
    } else {
      AtMostSoMany(s - {n - 1}, n - 1);
    }
  }

  lemma EndsAreNodes(q: Query)
    requires q.Valid()
    ensures 0 <= q.Node(q.start) < q.Nodes() && 0 <= q.Node(q.goal) < q.Nodes()
  {
    q.CellsAndNodes();
  }

  /** The heap's least entry. */
  method Least(heap: multiset<Entry>) returns (top: Entry)
    requires |heap| > 0
    ensures top in heap && forall e :: e in heap ==> AtMost(top, e)
  {
    ghost var least := HeapHasALeast(heap);
    top :| top in heap && forall e: Entry :: e in heap ==> AtMost(top, e);
  }

  lemma TopIsANode(q: Query, t: Tables, heap: multiset<Entry>, last: int, top: Entry)
    requires q.Valid() && Invariant(q, t, heap, last, NO_NODE) && top in heap
    ensures t.Sized(q) && 0 <= top.1 < q.Nodes() && t.g[top.1] < I32_MAX
  {
  }

  lemma GoalBeatsEveryPath(q: Query, t: Tables, heap: multiset<Entry>, last: int, top: Entry)
    requires q.Valid() && Invariant(q, t, heap, last, NO_NODE) && t.Sized(q) && 0 <= top.1 < q.Nodes()
    requires top in heap && top.1 == q.Node(q.goal) && forall e :: e in heap ==> AtMost(top, e)
    ensures forall p :: q.m.IsPath(p, q.start, q.goal) ==> t.g[top.1] <= PathCost(p)
  {
    hide Mask.IsPath, Query.Node, Invariant;
    forall p | q.m.IsPath(p, q.start, q.goal) ensures t.g[top.1] <= PathCost(p) {
      GoalIsOptimal(q, t, heap, last, top, p);
    }
  }

  /** The search. A path it returns is a walk of legal moves from start to goal and
      no such walk is cheaper; it returns none only when every walk there is costs
      more than an i32 holds, or when more than `maxExpansions` cells were found
      reachable. */
  method Astar(q: Query, maxExpansions: nat) returns (path: Option<seq<Cell>>)
    requires q.Valid()
    ensures path.Some? ==> q.m.IsPath(path.value, q.start, q.goal) && PathCost(path.value) < I32_MAX
    ensures path.Some? ==> forall p :: q.m.IsPath(p, q.start, q.goal) ==> PathCost(path.value) <= PathCost(p)
    ensures path.None? ==>
              (forall p :: q.m.IsPath(p, q.start, q.goal) ==> PathCost(p) >= I32_MAX)
              || q.m.ManyReachable(q.start, maxExpansions)
  {
    hide Octile, Idx, MoveCost, Query.Move, Mask.Move, Mask.IsPath, Query.CellAt, Query.Node, Query.Key, Query.Valid,
        Invariant, Closed;
    var n := q.Nodes();
    var gScore := new int[n](_ => I32_MAX);
    var cameFrom := new int[n](_ => NO_NODE);
    var closed := new bool[n](_ => false);
    var sIdx, gIdx := q.Node(q.start), q.Node(q.goal);
    EndsAreNodes(q);
    gScore[sIdx] := 0;
    var heap := multiset{(Octile(q.start, q.goal), sIdx)};
    SearchStarts(q, Tables(gScore[..], cameFrom[..], closed[..]));
    ghost var last := 0;
    NothingClosed(closed[..]);
    var expansions := 0;
    while |heap| > 0
      invariant Invariant(q, Tables(gScore[..], cameFrom[..], closed[..]), heap, last, NO_NODE)
      invariant expansions == |Closed(closed[..])|
      decreases n - expansions, |heap|
    {
      ghost var t := Tables(gScore[..], cameFrom[..], closed[..]);
      var top := Least(heap);
      TopIsANode(q, t, heap, last, top);
      var cur := top.1;
      if cur == gIdx {
        GoalBeatsEveryPath(q, t, heap, last, top);
        var found := Reconstruct(q, cameFrom[..], cur, t, heap, last);
        return Some(found);
      }
      if closed[cur] {
        PopStale(q, t, heap, last, top);
        heap := heap - multiset{top};
        continue;
      }
      PopOpen(q, t, heap, last, top);
      heap := heap - multiset{top};
      last := top.0;
      closed[cur] := true;
      expansions := expansions + 1;
      CloseOne(t.closed, cur);
      if expansions > maxExpansions {
        ClosedAreReachable(q, Tables(gScore[..], cameFrom[..], closed[..]), heap, last, cur, maxExpansions);
        return None;
      }
      heap := Expand(q, gScore, cameFrom, closed, heap, cur);
    }
    forall p | q.m.IsPath(p, q.start, q.goal) ensures PathCost(p) >= I32_MAX {
      EmptyHeapMeansNoPath(q, Tables(gScore[..], cameFrom[..], closed[..]), last, p);
    }
    return None;
  }

  /** Cutting the loop between two visits of one cell leaves a shorter walk. */
  lemma CutLoop(m: Mask, p: seq<Cell>, from: Cell, to: Cell, i: nat, j: nat)
    requires m.IsPath(p, from, to) && i < j < |p| && p[i] == p[j]
    ensures m.IsPath(p[..i] + p[j..], from, to)
  {
    hide Mask.Move;
    var r := p[..i] + p[j..];
    forall k {:trigger r[k]} | 1 <= k < |r| ensures m.Move(r[k - 1], r[k]) {
      if k < i {
        assert r[k] == p[k];
      } else if k == i {
        assert r[k] == p[i] == p[k] && r[k - 1] == p[k - 1];
      } else {
        assert r[k] == p[k - i + j] && r[k - 1] == p[k - i + j - 1];
      }
    }
  }

  lemma {:induction false} Pigeonhole(s: seq<int>, n: nat) returns (i: nat, j: nat)
    requires |s| > n && forall k :: 0 <= k < |s| ==> 0 <= s[k] < n
    ensures i < j < |s| && s[i] == s[j]
    decreases |s|
  {
    if k :| 0 <= k < |s| - 1 && s[k] == s[|s| - 1] {
      i, j := k, |s| - 1;
    } else {
      var last := s[|s| - 1];
      var t := seq(|s| - 1, k requires 0 <= k < |s| - 1 => if s[k] < last then s[k] else s[k] - 1);
      i, j := Pigeonhole(t, n - 1);
    }
  }

  lemma {:induction false} CellsOfAPathAreInBounds(m: Mask, p: seq<Cell>, from: Cell, to: Cell, k: nat)
    requires m.IsPath(p, from, to) && m.InBounds(from) && k < |p|
    ensures m.InBounds(p[k])
  {
  }

  /** A goal that can be reached can be reached without visiting a cell twice. */
  lemma {:induction false} ShortWalkExists(q: Query, p: seq<Cell>) returns (short: seq<Cell>)
    requires q.Valid() && q.m.IsPath(p, q.start, q.goal)
    ensures q.m.IsPath(short, q.start, q.goal) && |short| <= q.Nodes()
    decreases |p|
  {
    if |p| <= q.Nodes() {
      short := p;
    } else {
      q.CellsAndNodes();
      hide Idx, Mask.Move, Query.CellAt;
      forall k | 0 <= k < |p| ensures q.m.InBounds(p[k]) {
        CellsOfAPathAreInBounds(q.m, p, q.start, q.goal, k);
      }
      var nodes := seq(|p|, k requires 0 <= k < |p| => q.Node(p[k]));
      var i, j := Pigeonhole(nodes, q.Nodes());
      assert q.CellAt(nodes[i]) == p[i] && q.CellAt(nodes[j]) == p[j];
      CutLoop(q.m, p, q.start, q.goal, i, j);
      short := ShortWalkExists(q, p[..i] + p[j..]);
    }
  }

  lemma {:induction false} PathCostIsBounded(p: seq<Cell>)
    ensures |p| > 0 ==> PathCost(p) <= COST_DIAGONAL * (|p| - 1)
  {
    if |p| >= 2 {
      PathCostIsBounded(p[1..]);
    }
  }

  /** When the grid is small enough for i32 scores and the cap is no smaller than
      the grid, no answer means no walk: the search is complete. */
  lemma NoAnswerMeansUnreachable(q: Query, maxExpansions: nat)
    requires q.Valid() && COST_DIAGONAL * q.Nodes() <= I32_MAX && maxExpansions >= q.Nodes()
    requires (forall p :: q.m.IsPath(p, q.start, q.goal) ==> PathCost(p) >= I32_MAX)
              || q.m.ManyReachable(q.start, maxExpansions)
    ensures !q.m.Reachable(q.start, q.goal)
  {
    hide Mask.IsPath;
    if q.m.ManyReachable(q.start, maxExpansions) {
      var s: set<Cell> :| q.m.AllReachable(q.start, s) && |s| > maxExpansions;
      ReachableCellsAreFew(q, s);
    } else if q.m.Reachable(q.start, q.goal) {
      var p :| q.m.IsPath(p, q.start, q.goal);
      var short := ShortWalkExists(q, p);
      PathIsNotEmpty(q.m, short, q.start, q.goal);
      PathCostIsBounded(short);
    }
  }

  lemma PathIsNotEmpty(m: Mask, p: seq<Cell>, from: Cell, to: Cell)
    requires m.IsPath(p, from, to)
    ensures |p| > 0
  {
  }

  lemma ReachableCellsAreFew(q: Query, s: set<Cell>)
    requires q.Valid() && q.m.AllReachable(q.start, s)
    ensures |s| <= q.Nodes()
  {
    q.CellsAndNodes();
    hide Idx, Mask.Move, Query.CellAt, Query.Node;
    var nodes := set n | 0 <= n < q.Nodes() && q.CellAt(n) in s;
    forall c | c in s ensures q.m.InBounds(c) {
      var p :| q.m.IsPath(p, q.start, c);
      CellsOfAPathAreInBounds(q.m, p, q.start, c, |p| - 1);
    }
    assert s == set n | n in nodes :: q.CellAt(n) by {
      assert forall c :: c in s ==> q.Node(c) in nodes;
    }
    SameSize(q, nodes, s);
    AtMostSoMany(nodes, q.Nodes());
  }
}
