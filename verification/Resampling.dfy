/** Systematic resampling of the particle filter, `maploc/src/mcl.rs`. */
module Resampling {

  type Pose = (real, real, real)

  // ── The specification ───────────────────────────────────────────────────────

  /** The sum of the first `k` weights. */
  function Sum(weights: seq<real>, k: nat): real
    requires k <= |weights|
  {
    if k == 0 then 0.0 else Sum(weights, k - 1) + weights[k - 1]
  }

  function Times(n: int, step: real): real
  {
    n as real * step
  }

  /** The `i`-th tooth of the comb. */
  function Tooth(u0: real, step: real, i: int): real
  {
    u0 + Times(i, step)
  }

  /** `k` is where the running sum first reaches `u`. */
  predicate Drawn(weights: seq<real>, u: real, k: nat)
  {
    k < |weights| && (k == 0 || Sum(weights, k) < u) && u <= Sum(weights, k + 1)
  }

  /** One particle drawn for every tooth. */
  ghost predicate Resampled(weights: seq<real>, u0: real, step: real, from: seq<nat>)
  {
    |from| == |weights| && forall i :: 0 <= i < |from| ==> Drawn(weights, Tooth(u0, step, i), from[i])
  }

  /** How many of the first `m` draws took particle `k`. */
  function Copies(from: seq<nat>, k: nat, m: nat): nat
    requires m <= |from|
  {
    if m == 0 then 0 else Copies(from, k, m - 1) + if from[m - 1] == k then 1 else 0
  }

  /** How many of the first `m` teeth are at or below `c`. */
  function Below(u0: real, step: real, c: real, m: nat): (n: nat)
    ensures n <= m
  {
    if m == 0 then 0 else Below(u0, step, c, m - 1) + if Tooth(u0, step, m - 1) <= c then 1 else 0
  }

  /** No more than `bound` either way, and strictly less where that is meant. */
  predicate Within(spread: real, bound: real, strictly: bool)
  {
    -bound <= spread <= bound && (strictly ==> -bound < spread < bound)
  }

  // ── Low variance ────────────────────────────────────────────────────────────

  lemma TimesIsLinear(a: int, b: int, step: real)
    ensures Times(a - b, step) == Times(a, step) - Times(b, step)
    ensures Times(a - 1, step) == Times(a, step) - step
  {
  }

  lemma TeethRise(u0: real, step: real, i: int, j: int)
    requires step > 0.0 && i <= j
    ensures Tooth(u0, step, i) <= Tooth(u0, step, j)
    ensures i < j ==> Tooth(u0, step, i) < Tooth(u0, step, j)
  {
  }

  lemma Product(a: real, b: real)
    requires a >= 0.0 && b > 0.0
    ensures a * b >= 0.0 && (a > 0.0 ==> a * b > 0.0)
  {
  }

  /** The teeth at or below `c` are the first ones. */
  lemma {:induction false} BelowIsAPrefix(u0: real, step: real, c: real, m: nat)
    requires step > 0.0
    ensures var n := Below(u0, step, c, m);
            && (n > 0 ==> Tooth(u0, step, n - 1) <= c)
            && (n < m ==> c < Tooth(u0, step, n))
  {
    if m > 0 {
      BelowIsAPrefix(u0, step, c, m - 1);
      TeethRise(u0, step, Below(u0, step, c, m - 1), m - 1);
      hide Tooth;
    }
  }

  lemma {:induction false} SumsRise(weights: seq<real>, i: nat, j: nat)
    requires i <= j <= |weights| && forall k :: 0 <= k < |weights| ==> weights[k] >= 0.0
    ensures Sum(weights, i) <= Sum(weights, j)
  {
    if i < j {
      SumsRise(weights, i, j - 1);
    }
  }

  /** A tooth draws particle `k` exactly when it lies in `k`'s stretch of the sum. */
  lemma DrawnIsTheStretch(weights: seq<real>, u: real, j: nat, k: nat)
    requires Drawn(weights, u, j) && k < |weights| && forall i :: 0 <= i < |weights| ==> weights[i] >= 0.0
    ensures j == k <==> (k == 0 || Sum(weights, k) < u) && u <= Sum(weights, k + 1)
  {
    if j < k {
      SumsRise(weights, j + 1, k);
    } else if k < j {
      SumsRise(weights, k + 1, j);
    }
  }

  /** The copies of a particle are the teeth below the end of its stretch and not
      below its start. */
  lemma {:induction false} CopiesAreTeeth(weights: seq<real>, u0: real, step: real, from: seq<nat>, k: nat, m: nat)
    requires Resampled(weights, u0, step, from) && m <= |from| && k < |weights|
    requires forall i :: 0 <= i < |weights| ==> weights[i] >= 0.0
    ensures Copies(from, k, m) == Below(u0, step, Sum(weights, k + 1), m) - (if k == 0 then 0
              else Below(u0, step, Sum(weights, k), m))
  {
    if m > 0 {
      CopiesAreTeeth(weights, u0, step, from, k, m - 1);
      DrawnIsTheStretch(weights, Tooth(u0, step, m - 1), from[m - 1], k);
      SumsRise(weights, k, k + 1);
      hide Tooth, Sum;
    }
  }

  /** The teeth at or below a part `c` of the total number `c / step`, up to where the
      comb starts. */
  lemma BelowIsProportional(u0: real, step: real, c: real, n: nat)
    requires n > 0 && 0.0 <= u0 < step && 0.0 <= c <= Times(n, step)
    ensures var b := Times(Below(u0, step, c, n), step);
            c - u0 <= b <= c - u0 + step && (u0 > 0.0 ==> c - u0 < b)
  {
    var b := Below(u0, step, c, n);
    BelowIsAPrefix(u0, step, c, n);
    TimesIsLinear(b, 0, step);
    assert Times(0, step) == 0.0;
    hide Times, Below;
  }

  /** The copies of a particle, times the step, are within one step of its weight;
      strictly within when the comb does not start at zero. */
  lemma CopiesAreProportional(weights: seq<real>, u0: real, step: real, from: seq<nat>, k: nat)
    requires Resampled(weights, u0, step, from) && k < |weights|
    requires forall i :: 0 <= i < |weights| ==> weights[i] >= 0.0
    requires 0.0 <= u0 < step && Times(|weights|, step) == Sum(weights, |weights|)
    ensures var spread := Times(Copies(from, k, |from|), step) - weights[k];
            Within(spread, step, u0 > 0.0)
  {
    hide *;
    SizeOf(weights, u0, step, from);
    var n := |weights|;
    CopiesAreTeeth(weights, u0, step, from, k, n);
    StretchIsInTheSum(weights, k);
    StretchIsProportional(u0, step, Sum(weights, k), Sum(weights, k + 1), k == 0, n);
  }

  lemma StretchIsInTheSum(weights: seq<real>, k: nat)
    requires k < |weights| && forall i :: 0 <= i < |weights| ==> weights[i] >= 0.0
    ensures 0.0 <= Sum(weights, k) <= Sum(weights, k + 1) <= Sum(weights, |weights|)
    ensures Sum(weights, k + 1) - Sum(weights, k) == weights[k] && (k == 0 ==> Sum(weights, k) == 0.0)
  {
    SumNext(weights, k);
    SumsRise(weights, 0, k);
    SumsRise(weights, k + 1, |weights|);
  }

  lemma StretchIsProportional(u0: real, step: real, lo: real, hi: real, first: bool, n: nat)
    requires n > 0 && 0.0 <= u0 < step && 0.0 <= lo <= hi <= Times(n, step) && (first ==> lo == 0.0)
    ensures var count := Below(u0, step, hi, n) - (if first then 0 else Below(u0, step, lo, n));
            Within(Times(count, step) - (hi - lo), step, u0 > 0.0)
  {
    BelowIsProportional(u0, step, hi, n);
    if first {
      NoTimes(step);
    } else {
      BelowIsProportional(u0, step, lo, n);
      TimesIsLinear(Below(u0, step, hi, n), Below(u0, step, lo, n), step);
    }
    hide Times, Below, Tooth;
  }

  lemma NoTimes(step: real)
    ensures Times(0, step) == 0.0
  {
  }

  lemma SizeOf(weights: seq<real>, u0: real, step: real, from: seq<nat>)
    requires Resampled(weights, u0, step, from)
    ensures |from| == |weights|
  {
  }

  lemma SumNext(weights: seq<real>, k: nat)
    requires k < |weights|
    ensures Sum(weights, k + 1) == Sum(weights, k) + weights[k] && Sum(weights, 0) == 0.0
  {
  }

  /** What a particle's weight asks for, in copies. */
  function Share(weights: seq<real>, k: nat): real
    requires k < |weights| && Sum(weights, |weights|) > 0.0
  {
    Times(|weights|, weights[k]) / Sum(weights, |weights|)
  }

  /** Low variance: the copies of a particle differ from its share `n w / sum` by less
      than one, or by at most one when the comb starts at zero. */
  lemma CopiesAreWithinOneOfTheShare(weights: seq<real>, u0: real, step: real, from: seq<nat>, k: nat)
    requires Resampled(weights, u0, step, from) && k < |weights|
    requires forall i :: 0 <= i < |weights| ==> weights[i] >= 0.0
    requires 0.0 <= u0 < step && Times(|weights|, step) == Sum(weights, |weights|) > 0.0
    ensures var spread := Copies(from, k, |from|) as real - Share(weights, k);
            Within(spread, 1.0, u0 > 0.0)
  {
    hide *;
    CopiesAreProportional(weights, u0, step, from, k);
    ShareOfTheSum(weights, k);
    ShareInSteps(|weights|, weights[k], step, Sum(weights, |weights|), Share(weights, k));
    Unscale(Copies(from, k, |from|), Share(weights, k), step, weights[k], u0 > 0.0);
  }

  lemma ShareOfTheSum(weights: seq<real>, k: nat)
    requires k < |weights| && Sum(weights, |weights|) > 0.0
    ensures Share(weights, k) * Sum(weights, |weights|) == Times(|weights|, weights[k])
  {
  }

  lemma ShareInSteps(n: nat, w: real, step: real, sum: real, share: real)
    requires n > 0 && sum == Times(n, step) && share * sum == Times(n, w)
    ensures share * step == w
  {
  }

  /** Dividing a bound by the step. */
  lemma Unscale(c: nat, share: real, step: real, w: real, strictly: bool)
    requires step > 0.0 && share * step == w && Within(Times(c, step) - w, step, strictly)
    ensures Within(c as real - share, 1.0, strictly)
  {
    var d := c as real - share;
    assert Times(c, step) - w == d * step;
    if d >= 1.0 {
      Product(d - 1.0, step);
      assert (d - 1.0) * step == d * step - step;
    }
    if d <= -1.0 {
      Product(-1.0 - d, step);
      assert (-1.0 - d) * step == -step - d * step;
    }
  }

  /** A particle without weight is never copied exactly when the comb starts above zero
      or the first particle has weight. */
  lemma WeightlessAreLeftIff(weights: seq<real>, u0: real, step: real, from: seq<nat>)
    requires Resampled(weights, u0, step, from) && |weights| > 0 && u0 >= 0.0 && step > 0.0
    requires forall i :: 0 <= i < |weights| ==> weights[i] >= 0.0
    ensures (forall k :: 0 <= k < |weights| && weights[k] == 0.0 ==> Copies(from, k, |from|) == 0) <==>
              u0 > 0.0 || weights[0] > 0.0
  {
    hide Resampled, Copies;
    forall k | 0 <= k < |weights| && weights[k] == 0.0
      ensures Copies(from, k, |from|) == 0 <==> u0 > 0.0 || k > 0
    {
      WeightlessCopies(weights, u0, step, from, k);
    }
  }

  lemma WeightlessCopies(weights: seq<real>, u0: real, step: real, from: seq<nat>, k: nat)
    requires Resampled(weights, u0, step, from) && k < |weights| && u0 >= 0.0 && step > 0.0 && weights[k] == 0.0
    requires forall i :: 0 <= i < |weights| ==> weights[i] >= 0.0
    ensures Copies(from, k, |from|) == 0 <==> u0 > 0.0 || k > 0
  {
    hide Tooth, Times, Below, Drawn;
    var n := |weights|;
    SumNext(weights, k);
    CopiesAreTeeth(weights, u0, step, from, k, n);
    if k == 0 {
      BelowNothing(u0, step, n);
    }
  }

  /** The teeth at or below zero: the first when the comb starts there, or none. */
  lemma BelowNothing(u0: real, step: real, n: nat)
    requires n > 0 && u0 >= 0.0 && step > 0.0
    ensures Below(u0, step, 0.0, n) == 0 <==> u0 > 0.0
  {
    BelowIsAPrefix(u0, step, 0.0, n);
    NoTimes(step);
    if Below(u0, step, 0.0, n) > 0 {
      TeethRise(u0, step, 0, Below(u0, step, 0.0, n) - 1);
    }
  }

  /** Where the strict bound fails: a comb that starts at zero copies a first particle
      that has no weight at all. */
  lemma FirstParticleIsCopiedForNothing(weights: seq<real>, step: real, from: seq<nat>)
    requires Resampled(weights, 0.0, step, from) && |weights| > 0 && weights[0] == 0.0 < Sum(weights, |weights|)
    requires forall i :: 0 <= i < |weights| ==> weights[i] >= 0.0
    ensures Copies(from, 0, |from|) as real - Share(weights, 0) >= 1.0
  {
    assert Drawn(weights, Tooth(0.0, step, 0), from[0]) && Tooth(0.0, step, 0) == 0.0;
    SumsRise(weights, 0, from[0]);
    SumNext(weights, 0);
    hide Sum;
    CopiedSoFar(from, |from|);
    assert Times(|weights|, 0.0) == 0.0;
  }

  /** Two particles, all the weight on the second. */
  lemma SuchACombExists(weights: seq<real>, from: seq<nat>)
    requires weights == [0.0, 1.0] && from == [0, 1]
    ensures Resampled(weights, 0.0, 0.5, from) && Sum(weights, 2) == 1.0
  {
    SumNext(weights, 0);
    SumNext(weights, 1);
    assert Times(0, 0.5) == 0.0 && Times(1, 0.5) == 0.5;
    hide Sum, Times;
  }

  lemma {:induction false} CopiedSoFar(from: seq<nat>, m: nat)
    requires 0 < m <= |from| && from[0] == 0
    ensures Copies(from, 0, m) >= 1
  {
    if m > 1 {
      CopiedSoFar(from, m - 1);
    }
  }

  // ── The filter ──────────────────────────────────────────────────────────────

  class Mcl {
    var particles: seq<Pose>
    var weights: seq<real>

    constructor (particles: seq<Pose>, weights: seq<real>)
      requires |particles| == |weights|
      ensures this.particles == particles && this.weights == weights
    {
      this.particles, this.weights := particles, weights;
    }

    method ResetWeights()
      modifies this`weights
      ensures |weights| == |particles| && forall k :: 0 <= k < |weights| ==> weights[k] == 1.0 / |weights| as real
    {
      var n := |particles|;
      weights := seq(n, k requires 0 <= k < n => 1.0 / n as real);
    }

    /** Draws as many particles as there were, particle `from[i]` for tooth `i` of a
        comb that starts at `draw` steps, `draw` being in [0, 1). Without any weight
        the particles stay. */
    method SystematicResample(draw: real) returns (ghost from: seq<nat>)
      requires |particles| == |weights| && 0.0 <= draw < 1.0
      modifies this
      ensures |particles| == |weights| == |old(particles)|
      ensures |particles| > 0 ==> forall k :: 0 <= k < |weights| ==> weights[k] == 1.0 / |weights| as real
      ensures Sum(old(weights), |old(weights)|) <= 0.0 ==> particles == old(particles)
      ensures Sum(old(weights), |old(weights)|) > 0.0 ==>
                && Resampled(old(weights), Start(old(weights), draw), Step(old(weights)), from)
                && forall i :: 0 <= i < |from| ==> from[i] < |old(particles)| && particles[i] == old(particles)[from[i]]
      ensures (forall k :: 0 <= k < |old(weights)| ==> old(weights)[k] >= 0.0)
                && Sum(old(weights), |old(weights)|) > 0.0 ==>
                forall k ::
                    0 <= k < |old(particles)| ==> |from| == |old(particles)| && FairShare(old(weights), draw, from, k)
    {
      from := [];
      var n := |particles|;
      if n == 0 {
        return;
      }
      var cum, acc := Accumulate();
      if acc <= 0.0 {
        ResetWeights();
        return;
      }
      var step := Step(weights);
      var u0 := Start(weights, draw);
      CombFits(weights, draw);
      hide Step, Start, Sum, Tooth, Times, Copies, Share, Resampled, FairShare;
      var newParticles;
      newParticles, from := Comb(cum, u0, step);
      SizeOf(weights, u0, step, from);
      if forall k :: 0 <= k < n ==> weights[k] >= 0.0 {
        EveryShareIsFair(weights, u0, step, from, draw);
      }
      particles := newParticles;
      ResetWeights();
    }

    /** Runs the comb along the running sums. */
    method Comb(cum: seq<real>, u0: real, step: real) returns (newParticles: seq<Pose>, ghost from: seq<nat>)
      requires |cum| == |weights| == |particles| > 0 && forall j :: 0 <= j < |cum| ==> cum[j] == Sum(weights, j + 1)
      requires step > 0.0 && Tooth(u0, step, |cum| - 1) < Sum(weights, |weights|)
      ensures Resampled(weights, u0, step, from) && |newParticles| == |from|
      ensures forall i :: 0 <= i < |from| ==> from[i] < |particles| && newParticles[i] == particles[from[i]]
    {
      hide Drawn, Sum, Tooth;
      var n := |particles|;
      newParticles, from := [], [];
      var k := 0;
      for i := 0 to n
        invariant |newParticles| == |from| == i && k < n
        invariant k > 0 ==> i > 0 && Sum(weights, k) < Tooth(u0, step, i - 1)
        invariant forall j :: 0 <= j < i ==> Drawn(weights, Tooth(u0, step, j), from[j])
        invariant forall j :: 0 <= j < i ==> from[j] < n && newParticles[j] == particles[from[j]]
      {
        var u := Tooth(u0, step, i);
        TeethRise(u0, step, i - 1, i);
        TeethRise(u0, step, i, n - 1);
        k := Advance(cum, k, u);
        IsDrawn(weights, u, k);
        newParticles, from := newParticles + [particles[k]], from + [k];
      }
    }

    /** Moves on to the first particle, from `k`, whose running sum reaches `u`. */
    method Advance(cum: seq<real>, k: nat, u: real) returns (k': nat)
      requires |cum| == |weights| && forall j :: 0 <= j < |cum| ==> cum[j] == Sum(weights, j + 1)
      requires k < |cum| && (k == 0 || Sum(weights, k) < u)
      ensures k <= k' < |cum| && (k' == 0 || Sum(weights, k') < u) && (k' < |cum| - 1 ==> u <= Sum(weights, k' + 1))
    {
      k' := k;
      while k' < |cum| - 1 && cum[k'] < u
        invariant k <= k' < |cum| && (k' == 0 || Sum(weights, k') < u)
      {
        k' := k' + 1;
      }
    }

    /** The running sums of the weights. */
    method Accumulate() returns (cum: seq<real>, acc: real)
      ensures |cum| == |weights| && acc == Sum(weights, |weights|)
      ensures forall j :: 0 <= j < |cum| ==> cum[j] == Sum(weights, j + 1)
    {
      cum, acc := [], 0.0;
      for j := 0 to |weights|
        invariant |cum| == j && acc == Sum(weights, j)
        invariant forall i :: 0 <= i < j ==> cum[i] == Sum(weights, i + 1)
      {
        acc := acc + weights[j];
        cum := cum + [acc];
      }
    }
  }

  lemma EveryShareIsFair(weights: seq<real>, u0: real, step: real, from: seq<nat>, draw: real)
    requires Resampled(weights, u0, step, from) && (draw > 0.0 ==> u0 > 0.0)
    requires forall i :: 0 <= i < |weights| ==> weights[i] >= 0.0
    requires 0.0 <= u0 < step && Times(|weights|, step) == Sum(weights, |weights|) > 0.0
    ensures forall k :: 0 <= k < |weights| ==> FairShare(weights, draw, from, k)
  {
    forall k | 0 <= k < |weights| ensures FairShare(weights, draw, from, k) {
      CopiesAreWithinOneOfTheShare(weights, u0, step, from, k);
    }
  }

  lemma IsDrawn(weights: seq<real>, u: real, k: nat)
    requires k < |weights| && (k == 0 || Sum(weights, k) < u) && u <= Sum(weights, k + 1)
    ensures Drawn(weights, u, k)
  {
  }

  /** The teeth of the comb are this far apart. */
  function Step(weights: seq<real>): real
    requires |weights| > 0
  {
    Sum(weights, |weights|) / |weights| as real
  }

  /** ... and the first is this far along. */
  function Start(weights: seq<real>, draw: real): real
    requires |weights| > 0
  {
    draw * Step(weights)
  }

  /** The teeth are equal shares of the total, all as far into theirs as was drawn. */
  lemma TeethAreShares(weights: seq<real>, draw: real, i: nat)
    requires |weights| > 0
    ensures Times(|weights|, Tooth(Start(weights, draw), Step(weights), i))
         == (i as real + draw) * Sum(weights, |weights|)
  {
    hide Sum;
    var (n, acc, step) := (|weights| as real, Sum(weights, |weights|), Step(weights));
    assert n * step == acc;
    assert Tooth(Start(weights, draw), step, i) == (i as real + draw) * step;
    Regroup(n, i as real + draw, step);
  }

  lemma Regroup(a: real, b: real, c: real)
    ensures a * (b * c) == b * (a * c)
  {
  }

  /** The last tooth is below the total. */
  lemma CombFits(weights: seq<real>, draw: real)
    requires |weights| > 0 && Sum(weights, |weights|) > 0.0 && 0.0 <= draw < 1.0
    ensures var (n, acc, step, u0) := (|weights|, Sum(weights, |weights|), Step(weights), Start(weights, draw));
            && step > 0.0 && Times(n, step) == acc && 0.0 <= u0 < step
            && (draw > 0.0 ==> u0 > 0.0) && Tooth(u0, step, n - 1) < acc
  {
    var (n, acc, step) := (|weights|, Sum(weights, |weights|), Step(weights));
    assert Times(n, step) == acc;
    TimesIsLinear(n, 0, step);
    assert step > 0.0;
    Product(draw, step);
    Product(1.0 - draw, step);
    assert (1.0 - draw) * step == step - draw * step;
    hide Sum;
  }

  /** Particle `k` was drawn within one of its share, strictly so for a nonzero draw. */
  ghost predicate FairShare(weights: seq<real>, draw: real, from: seq<nat>, k: nat)
    requires k < |weights| && Sum(weights, |weights|) > 0.0
  {
    var spread := Copies(from, k, |from|) as real - Share(weights, k);
    Within(spread, 1.0, draw > 0.0)
  }
}
