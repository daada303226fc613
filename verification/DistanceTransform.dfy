/** The one-dimensional squared distance transform of `maploc/src/grid.rs`: a
    lower envelope of upward parabolas, kept as a stack. */
module DistanceTransform {

  /** An f32 sample of the transform: a finite value, or the +infinity that marks
      a cell with no target. */
  datatype Sample = Finite(value: real) | Infinite

  /** An envelope boundary. The first is minus infinity and the one past the last
      parabola plus infinity; all others are where two parabolas cross. */
  datatype Bound = MinusInfinity | At(x: real) | PlusInfinity {

    predicate Below(q: int) {
      MinusInfinity? || (At? && x < q as real)
    }

    predicate AtMost(that: Bound) {
      MinusInfinity? || that.PlusInfinity? || (At? && that.At? && x <= that.x)
    }
  }

  /** The parabola rooted at sample `p`, evaluated at cell `q`. */
  function Parabola(f: seq<Sample>, p: int, q: int): real
    requires 0 <= p < |f| && f[p].Finite?
  {
    (q - p) as real * (q - p) as real + f[p].value
  }

  /** The specification: the cheapest parabola of the first `n` samples at `q`. */
  function Cheapest(f: seq<Sample>, q: int, n: nat): Sample
    requires n <= |f|
  {
    if n == 0 then Infinite
    else
      var best := Cheapest(f, q, n - 1);
      if f[n - 1].Infinite? then best
      else if best.Infinite? || Parabola(f, n - 1, q) < best.value then Finite(Parabola(f, n - 1, q))
      else best
  }

  /** `r` is the minimum at `q` over the finite ones of the first `n` samples. */
  ghost predicate IsMinimum(f: seq<Sample>, q: int, n: nat, r: Sample)
    requires n <= |f|
  {
    && (r.Infinite? ==> forall p :: 0 <= p < n ==> f[p].Infinite?)
    && (r.Finite? ==>
          && (exists p :: 0 <= p < n && f[p].Finite? && Parabola(f, p, q) == r.value)
          && (forall p :: 0 <= p < n && f[p].Finite? ==> r.value <= Parabola(f, p, q)))
  }

  /** `Cheapest` is the minimum over the finite samples, and nothing else is. */
  lemma {:induction false} CheapestIsTheMinimum(f: seq<Sample>, q: int, n: nat, r: Sample)
    requires n <= |f|
    ensures IsMinimum(f, q, n, r) <==> r == Cheapest(f, q, n)
  {
    if n > 0 {
      CheapestIsTheMinimum(f, q, n - 1, Cheapest(f, q, n - 1));
    }
  }

  /** Where the parabola of `q` crosses the one of an earlier `vk`. */
  function Intersection(f: seq<Sample>, q: int, vk: int): real
    requires 0 <= vk < q < |f| && f[q].Finite? && f[vk].Finite?
  {
    ((f[q].value + q as real * q as real) - (f[vk].value
        + vk as real * vk as real)) / (2.0 * q as real - 2.0 * vk as real)
  }

  /** Left of the crossing the earlier parabola is the lower one, right of it the
      later one. */
  lemma CrossingSplitsTheLine(f: seq<Sample>, p: int, q: int, x: int)
    requires 0 <= p < q < |f| && f[p].Finite? && f[q].Finite?
    ensures x as real <= Intersection(f, q, p) <==> Parabola(f, p, x) <= Parabola(f, q, x)
    ensures x as real >= Intersection(f, q, p) <==> Parabola(f, q, x) <= Parabola(f, p, x)
  {
  }

  ghost predicate CrossesAt(f: seq<Sample>, p: int, q: int, z: Bound)
  {
    0 <= p < q < |f| && f[p].Finite? && f[q].Finite? && z == At(Intersection(f, q, p))
  }

  ghost predicate Rises(a: Bound, b: Bound)
  {
    a.At? && b.At? && a.x < b.x
  }

  /** The stack's shape: `v` holds finite samples in increasing order, `z` their
      left boundaries, each the crossing with the parabola before. */
  ghost predicate Envelope(f: seq<Sample>, v: seq<int>, z: seq<Bound>)
  {
    && |v| == |z|
    && (forall k :: 0 <= k < |v| ==> 0 <= v[k] < |f| && f[v[k]].Finite?)
    && (|v| > 0 ==> z[0] == MinusInfinity)
    && (forall k :: 1 <= k < |v| ==> CrossesAt(f, v[k - 1], v[k], z[k]))
    && (forall k :: 2 <= k < |v| ==> Rises(z[k - 1], z[k]))
  }

  /** Some parabola on the stack is no higher than `p`'s at `x`. */
  ghost predicate Covered(f: seq<Sample>, v: seq<int>, p: int, x: int)
    requires 0 <= p < |f| && f[p].Finite?
  {
    exists k :: 0 <= k < |v| && 0 <= v[k] < |f| && f[v[k]].Finite? && Parabola(f, v[k], x) <= Parabola(f, p, x)
  }

  /** The stack is the lower envelope of the first `n` samples. */
  ghost predicate Covers(f: seq<Sample>, v: seq<int>, n: int)
    requires n <= |f|
  {
    forall p, x :: 0 <= p < n && f[p].Finite? ==> Covered(f, v, p, x)
  }

  /** The top of the stack is nowhere the lowest once the new parabola crosses it
      at or before its own left boundary. */
  lemma TopIsDominated(f: seq<Sample>, v: seq<int>, z: seq<Bound>, q: int, x: int)
    requires Envelope(f, v, z) && |v| >= 2
    requires v[|v| - 1] < q < |f| && f[q].Finite?
    requires z[|v| - 1].At? && Intersection(f, q, v[|v| - 1]) <= z[|v| - 1].x
    ensures Parabola(f, q, x) <= Parabola(f, v[|v| - 1], x) || Parabola(f, v[|v| - 2], x) <= Parabola(f, v[|v| - 1], x)
  {
  }

  /** Popping keeps the envelope: what the top covered, the rest and `q` cover. */
  lemma PopKeepsCover(f: seq<Sample>, v: seq<int>, z: seq<Bound>, q: int)
    requires Envelope(f, v, z) && |v| >= 2
    requires v[|v| - 1] < q < |f| && f[q].Finite?
    requires z[|v| - 1].At? && Intersection(f, q, v[|v| - 1]) <= z[|v| - 1].x
    requires Covers(f, v + [q], q)
    ensures Envelope(f, v[..|v| - 1], z[..|v| - 1])
    ensures Covers(f, v[..|v| - 1] + [q], q)
  {
    EnvelopePop(f, v, z);
    hide Parabola, Intersection;
    var rest := v[..|v| - 1] + [q];
    forall p, x {:trigger Covered(f, rest, p, x)} | 0 <= p < q && f[p].Finite? ensures Covered(f, rest, p, x) {
      assert Covered(f, v + [q], p, x);
      PopKeepsCoverAt(f, v, z, q, p, x);
    }
  }

  lemma EnvelopePop(f: seq<Sample>, v: seq<int>, z: seq<Bound>)
    requires Envelope(f, v, z) && |v| >= 1
    ensures Envelope(f, v[..|v| - 1], z[..|v| - 1])
  {
  }

  /** A parabola pushed where it crosses the top keeps the stack's shape. */
  lemma EnvelopePush(f: seq<Sample>, v: seq<int>, z: seq<Bound>, q: int, left: Bound)
    requires Envelope(f, v, z) && 0 <= q < |f| && f[q].Finite?
    requires v == [] ==> left == MinusInfinity
    requires v != [] ==> v[|v| - 1] < q && left == At(Intersection(f, q, v[|v| - 1])) && !left.AtMost(z[|v| - 1])
    ensures Envelope(f, v + [q], z + [left])
  {
    if v != [] {
      assert CrossesAt(f, v[|v| - 1], q, left);
      if |v| >= 2 {
        assert CrossesAt(f, v[|v| - 2], v[|v| - 1], z[|v| - 1]);
        assert Rises(z[|v| - 1], left);
      }
    }
    hide CrossesAt, Rises;
  }

  lemma PopKeepsCoverAt(f: seq<Sample>, v: seq<int>, z: seq<Bound>, q: int, p: int, x: int)
    requires Envelope(f, v, z) && |v| >= 2
    requires v[|v| - 1] < q < |f| && f[q].Finite?
    requires z[|v| - 1].At? && Intersection(f, q, v[|v| - 1]) <= z[|v| - 1].x
    requires 0 <= p < q && f[p].Finite? && Covered(f, v + [q], p, x)
    ensures Covered(f, v[..|v| - 1] + [q], p, x)
  {
    var top := |v| - 1;
    var rest := v[..top] + [q];
    TopIsDominated(f, v, z, q, x);
    hide Parabola, Intersection;
    var k :| 0 <= k < |v| + 1 && Parabola(f, (v + [q])[k], x) <= Parabola(f, p, x);
    var j := if k < top then k else if k > top || Parabola(f, q, x) <= Parabola(f, v[top], x) then top else top - 1;
    assert rest[top] == q && rest[top - 1] == v[top - 1];
    assert Parabola(f, rest[j], x) <= Parabola(f, p, x);
  }

  /** Where two neighbouring boundaries enclose `x`, the parabola between them is
      the lowest of the stack. */
  lemma {:induction false} LowestBetweenItsBoundaries(f: seq<Sample>, v: seq<int>, z: seq<Bound>, k: nat, j: nat,
      x: int)
    requires Envelope(f, v, z) && k < |v| && j < |v|
    requires z[k].Below(x) || k == 0
    requires k + 1 < |v| ==> !z[k + 1].Below(x)
    ensures Parabola(f, v[k], x) <= Parabola(f, v[j], x)
    decreases if j < k then k - j else j - k
  {
    hide Parabola, Intersection;
    if j < k {
      LowestBetweenItsBoundaries(f, v, z, k, j + 1, x);
      BoundariesIncrease(f, v, z, j + 1, k);
      assert CrossesAt(f, v[j], v[j + 1], z[j + 1]);
      CrossingSplitsTheLine(f, v[j], v[j + 1], x);
    } else if k < j {
      LowestBetweenItsBoundaries(f, v, z, k, j - 1, x);
      BoundariesIncrease(f, v, z, k + 1, j);
      assert CrossesAt(f, v[j - 1], v[j], z[j]);
      CrossingSplitsTheLine(f, v[j - 1], v[j], x);
    }
  }

  lemma {:induction false} BoundariesIncrease(f: seq<Sample>, v: seq<int>, z: seq<Bound>, j: nat, k: nat)
    requires Envelope(f, v, z) && 1 <= j <= k < |v|
    ensures z[j].At? && z[k].At? && z[j].x <= z[k].x
    decreases k
  {
    hide Intersection;
    assert CrossesAt(f, v[j - 1], v[j], z[j]);
    if j < k {
      assert Rises(z[k - 1], z[k]);
      BoundariesIncrease(f, v, z, j, k - 1);
    }
  }

  /** The envelope buffers, reused from one line to the next. */
  class DtScratch {
    var v: seq<int>
    var z: seq<Bound>

    constructor ()
      ensures v == [] && z == []
    {
      v, z := [], [];
    }
  }

  /** The transform of `f` into the first `|f|` slots of `d`: at every cell the
      cheapest parabola, infinite when no sample is finite. */
  method Dt1d(f: seq<Sample>, d: array<Sample>, scratch: DtScratch)
    requires d.Length >= |f|
    modifies d, scratch
    ensures forall q :: 0 <= q < |f| ==> d[q] == Cheapest(f, q, |f|)
    ensures forall q :: |f| <= q < d.Length ==> d[q] == old(d[q])
  {
    var n := |f|;
    if n == 0 {
      return;
    }
    BuildEnvelope(f, scratch);
    if scratch.v == [] {
      ghost var v := scratch.v;
      for q := 0 to n
        invariant forall i :: 0 <= i < q ==> d[i] == Infinite
        invariant forall i :: n <= i < d.Length ==> d[i] == old(d[i])
      {
        d[q] := Infinite;
      }
      forall q | 0 <= q < n ensures Cheapest(f, q, n) == Infinite {
        assert forall p :: 0 <= p < n && f[p].Finite? ==> Covered(f, v, p, q);
        CheapestIsTheMinimum(f, q, n, Infinite);
      }
      return;
    }
    ReadEnvelope(f, d, scratch);
  }

  /** The sweep that stacks the parabolas: those left are the lower envelope of
      every finite sample. */
  method BuildEnvelope(f: seq<Sample>, scratch: DtScratch)
    modifies scratch
    ensures |scratch.z| == |scratch.v| + 1 && scratch.z[|scratch.v|] == PlusInfinity
    ensures Envelope(f, scratch.v, scratch.z[..|scratch.v|])
    ensures Covers(f, scratch.v, |f|)
  {
    hide Parabola, Intersection;
    scratch.v, scratch.z := [], [];
    for q := 0 to |f|
      invariant Envelope(f, scratch.v, scratch.z)
      invariant forall k :: 0 <= k < |scratch.v| ==> scratch.v[k] < q
      invariant Covers(f, scratch.v, q)
    {
      if f[q].Infinite? {
        continue;
      }
      var left := PopDominated(f, q, scratch);
      scratch.v, scratch.z := scratch.v + [q], scratch.z + [left];
      assert scratch.v[|scratch.v| - 1] == q;
    }
    ghost var m := |scratch.v|;
    ghost var z := scratch.z;
    scratch.z := scratch.z + [PlusInfinity];
    assert scratch.z[..m] == z;
  }

  lemma CoverWithOneMore(f: seq<Sample>, v: seq<int>, q: int)
    requires q <= |f| && Covers(f, v, q)
    ensures Covers(f, v + [q], q)
  {
    hide Parabola;
    forall p, x | 0 <= p < q && f[p].Finite? ensures Covered(f, v + [q], p, x) {
      assert Covered(f, v, p, x);
      var k :| 0 <= k < |v| && 0 <= v[k] < |f| && f[v[k]].Finite? && Parabola(f, v[k], x) <= Parabola(f, p, x);
      assert (v + [q])[k] == v[k];
    }
  }

  /** The pop loop: drops every parabola the new one makes useless and returns
      the new one's left boundary. */
  method PopDominated(f: seq<Sample>, q: int, scratch: DtScratch) returns (left: Bound)
    requires 0 <= q < |f| && f[q].Finite?
    requires Envelope(f, scratch.v, scratch.z)
    requires forall k :: 0 <= k < |scratch.v| ==> scratch.v[k] < q
    requires Covers(f, scratch.v, q)
    modifies scratch
    ensures forall k :: 0 <= k < |scratch.v| ==> scratch.v[k] < q
    ensures Envelope(f, scratch.v + [q], scratch.z + [left])
    ensures Covers(f, scratch.v + [q], q)
  {
    hide Parabola, Intersection;
    CoverWithOneMore(f, scratch.v, q);
    while true
      invariant forall k :: 0 <= k < |scratch.v| ==> scratch.v[k] < q
      invariant Envelope(f, scratch.v, scratch.z)
      invariant Covers(f, scratch.v + [q], q)
      decreases |scratch.v|
    {
      if scratch.v == [] {
        EnvelopePush(f, scratch.v, scratch.z, q, MinusInfinity);
        return MinusInfinity;
      }
      var top := |scratch.v| - 1;
      var s := Intersection(f, q, scratch.v[top]);
      if At(s).AtMost(scratch.z[top]) {
        assert CrossesAt(f, scratch.v[top - 1], scratch.v[top], scratch.z[top]);
        PopKeepsCover(f, scratch.v, scratch.z, q);
        scratch.v, scratch.z := scratch.v[..top], scratch.z[..top];
      } else {
        EnvelopePush(f, scratch.v, scratch.z, q, At(s));
        return At(s);
      }
    }
  }

  /** The second sweep: a cursor over the boundaries finds the lowest parabola. */
  method ReadEnvelope(f: seq<Sample>, d: array<Sample>, scratch: DtScratch)
    requires d.Length >= |f|
    requires |scratch.z| == |scratch.v| + 1 && scratch.z[|scratch.v|] == PlusInfinity && |scratch.v| > 0
    requires Envelope(f, scratch.v, scratch.z[..|scratch.v|])
    requires Covers(f, scratch.v, |f|)
    modifies d
    ensures forall q :: 0 <= q < |f| ==> d[q] == Cheapest(f, q, |f|)
    ensures forall q :: |f| <= q < d.Length ==> d[q] == old(d[q])
  {
    var v, z := scratch.v, scratch.z;
    var k := 0;
    for q := 0 to |f|
      invariant 0 <= k < |v|
      invariant k == 0 || z[k].Below(q)
      invariant forall i :: 0 <= i < q ==> d[i] == Cheapest(f, i, |f|)
      invariant forall i :: |f| <= i < d.Length ==> d[i] == old(d[i])
    {
      while z[k + 1].Below(q)
        invariant 0 <= k < |v|
        invariant k == 0 || z[k].Below(q)
        decreases |v| - k
      {
        k := k + 1;
      }
      d[q] := Finite(Parabola(f, v[k], q));
      EnvelopeGivesTheMinimum(f, v, z[..|v|], k, q);
    }
  }

  lemma EnvelopeGivesTheMinimum(f: seq<Sample>, v: seq<int>, z: seq<Bound>, k: nat, q: int)
    requires Envelope(f, v, z) && k < |v|
    requires z[k].Below(q) || k == 0
    requires k + 1 < |v| ==> !z[k + 1].Below(q)
    requires Covers(f, v, |f|)
    ensures Finite(Parabola(f, v[k], q)) == Cheapest(f, q, |f|)
  {
    forall p | 0 <= p < |f| && f[p].Finite? ensures Parabola(f, v[k], q) <= Parabola(f, p, q) {
      assert Covered(f, v, p, q);
      var j :| 0 <= j < |v| && Parabola(f, v[j], q) <= Parabola(f, p, q);
      LowestBetweenItsBoundaries(f, v, z, k, j, q);
    }
    CheapestIsTheMinimum(f, q, |f|, Finite(Parabola(f, v[k], q)));
  }
}
