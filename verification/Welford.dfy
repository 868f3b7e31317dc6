/**
 Running mean and variance over a stream of samples, as the sensor keeps them for
 the packet rate, the source entropy and the packet TTL.

 `Updated` is the one-sample step and `Merged` the grouped step the kernel backend
 uses.  Both are related to an independent definition of mean and spread, `Exact`,
 and `GroupingAgrees` follows: any grouping of the same samples, in any order, ends
 in the same accumulator.  Past the recency cap the accumulator no longer equals that
 definition; `UpdatedBounded` says what still holds then, forever.
 */
module Welford {
  import opened Arith
  import opened Options

  const WARMUP_WINDOWS: nat := 200
  const MAX_N: nat := 500

  /** The three numbers an accumulator holds. */
  datatype Moments = Moments(n: nat, mean: real, m2: real)

  const EMPTY := Moments(0, 0.0, 0.0)

  /** One sample.  At the cap the mean still moves by delta / maxN and M2 decays. */
  function Updated(s: Moments, x: real, maxN: nat): Moments
    requires maxN >= 1
  {
    var n := Min(s.n + 1, maxN);
    var delta := x - s.mean;
    var mean := s.mean + delta / n as real;
    var delta2 := x - mean;
    var m2 := if s.n >= maxN
              then s.m2 * (1.0 - 1.0 / maxN as real) + delta * delta2
              else s.m2 + delta * delta2;
    Moments(n, mean, m2)
  }

  /** How far a group of `absorbed` equal samples moves the mean of `after` samples. */
  function MeanShift(delta: real, absorbed: nat, after: nat): real
    requires after >= 1
  {
    delta * absorbed as real / after as real
  }

  /** What merging `absorbed` equal samples into `before` adds to M2 (Chan et al. 1979). */
  function M2Growth(delta: real, before: nat, absorbed: nat, after: nat): real
    requires after >= 1
  {
    delta * delta * before as real * absorbed as real / after as real
  }

  /** `count` copies of one value in one step; whatever does not fit under the cap is dropped. */
  function Merged(s: Moments, x: real, count: nat, maxN: nat): Moments
    requires s.n <= maxN
  {
    var after := Min(s.n + count, maxN);
    var absorbed := after - s.n;
    if absorbed == 0 then s
    else
      var delta := x - s.mean;
      Moments(after, s.mean + MeanShift(delta, absorbed, after), s.m2 + M2Growth(delta, s.n, absorbed, after))
  }

  function Variance(s: Moments): Option<real> {
    if s.n < 2 then None
    else
      var v := s.m2 / (s.n - 1) as real;
      if v < 0.0 then None else Some(v)
  }

  /** Square root of the variance, 0 while there is none; `root` is the square root. */
  function StdDev(s: Moments, root: real -> real): real {
    match Variance(s)
    case None => 0.0
    case Some(v) => root(v)
  }

  predicate IsWarm(s: Moments) {
    s.n >= WARMUP_WINDOWS
  }

  /** The accumulator object, updated in place. */
  class WelfordAccumulator {
    var n: nat
    var mean: real
    var m2: real
    const maxN: nat

    ghost predicate Valid()
      reads this
    {
      1 <= maxN
    }

    function State(): Moments
      reads this
    {
      Moments(n, mean, m2)
    }

    constructor (maxN: nat)
      requires 1 <= maxN
      ensures Valid() && State() == EMPTY && this.maxN == maxN
    {
      this.n, this.mean, this.m2, this.maxN := 0, 0.0, 0.0, maxN;
    }

    method Update(x: real)
      requires Valid()
      modifies this
      ensures Valid()
      ensures State() == Updated(old(State()), x, maxN)
    {
      var atCap := n >= maxN;
      n := Min(n + 1, maxN);
      var delta := x - mean;
      mean := mean + delta / n as real;
      var delta2 := x - mean;
      if atCap {
        m2 := m2 * (1.0 - 1.0 / maxN as real) + delta * delta2;
      } else {
        m2 := m2 + delta * delta2;
      }
    }

    method UpdateBatch(x: real, count: nat)
      requires Valid() && n <= maxN
      modifies this
      ensures Valid() && n <= maxN
      ensures State() == Merged(old(State()), x, count, maxN)
    {
      hide MeanShift, M2Growth;
      if count == 0 {
        return;
      }
      var delta := x - mean;
      var before := n;
      var after := Min(before + count, maxN);
      var absorbed := after - before;
      if absorbed == 0 {
        return;
      }
      mean := mean + MeanShift(delta, absorbed, after);
      m2 := m2 + M2Growth(delta, before, absorbed, after);
      n := after;
    }

    method Reset()
      modifies this
      ensures State() == EMPTY
    {
      n, mean, m2 := 0, 0.0, 0.0;
    }
  }

  // ----- the independent definition -----

  function Scaled(k: nat, y: real): real {
    k as real * y
  }

  function SumOf(f: real -> real, xs: seq<real>): real {
    if xs == [] then 0.0 else SumOf(f, xs[..|xs| - 1]) + f(xs[|xs| - 1])
  }

  function Identity(): real -> real {
    x => x
  }

  function SquareFrom(c: real): real -> real {
    x => (x - c) * (x - c)
  }

  function Sum(xs: seq<real>): real {
    SumOf(Identity(), xs)
  }

  /** Sum of squared distances of the samples from `c`. */
  function Spread(xs: seq<real>, c: real): real {
    SumOf(SquareFrom(c), xs)
  }

  /** The accumulator describes exactly the samples `xs`. */
  ghost predicate Exact(s: Moments, xs: seq<real>) {
    && s.n == |xs|
    && Scaled(s.n, s.mean) == Sum(xs)
    && s.m2 == Spread(xs, s.mean)
    && (s.n == 0 ==> s.mean == 0.0)
  }

  /** How the spread of m samples with total `sum` changes when its centre moves from c to c + d. */
  function Shift(m: nat, sum: real, c: real, d: real): real {
    m as real * (d * d) - 2.0 * d * (sum - m as real * c)
  }

  /** Moving the centre: the parallel axis theorem, on sums. */
  lemma {:induction false} SpreadAbout(xs: seq<real>, c: real, d: real)
    ensures Spread(xs, c + d) == Spread(xs, c) + Shift(|xs|, Sum(xs), c, d)
  {
    hide Shift, SquareFrom;
    if xs == [] {
      ShiftStep(0, 0.0, 0.0, c, d);
    } else {
      var ys, x := xs[..|xs| - 1], xs[|xs| - 1];
      SpreadAbout(ys, c, d);
      ShiftStep(|ys|, Sum(ys), x, c, d);
    }
  }

  lemma ShiftStep(m: nat, sum: real, x: real, c: real, d: real)
    ensures Shift(0, 0.0, c, d) == 0.0
    ensures SquareFrom(c + d)(x) + Shift(m, sum, c, d) == SquareFrom(c)(x) + Shift(m + 1, sum + x, c, d)
  {
  }

  /** Moving the centre away from the mean. */
  lemma SpreadOffMean(xs: seq<real>, c: real, d: real)
    requires Scaled(|xs|, c) == Sum(xs)
    ensures Spread(xs, c + d) == Spread(xs, c) + Scaled(|xs|, d * d)
  {
    hide Spread;
    SpreadAbout(xs, c, d);
  }

  lemma SumAppend(f: real -> real, xs: seq<real>, x: real)
    ensures SumOf(f, xs + [x]) == SumOf(f, xs) + f(x)
  {
  }

  function Copies(x: real, count: nat): (r: seq<real>)
    ensures |r| == count
    ensures forall i :: 0 <= i < count ==> r[i] == x
  {
    if count == 0 then [] else Copies(x, count - 1) + [x]
  }

  lemma {:induction false} SumCopies(f: real -> real, xs: seq<real>, x: real, count: nat)
    ensures SumOf(f, xs + Copies(x, count)) == SumOf(f, xs) + Scaled(count, f(x))
  {
    hide Scaled;
    ScaledStep(count, f(x));
    if count == 0 {
      assert xs + Copies(x, 0) == xs;
    } else {
      SumCopies(f, xs, x, count - 1);
      OneCopyMore(f, xs, x, count);
    }
  }

  lemma ScaledStep(k: nat, y: real)
    ensures Scaled(0, y) == 0.0
    ensures 1 <= k ==> Scaled(k, y) == Scaled(k - 1, y) + y
  {
  }

  lemma OneCopyMore(f: real -> real, xs: seq<real>, x: real, count: nat)
    requires 1 <= count
    ensures SumOf(f, xs + Copies(x, count)) == SumOf(f, xs + Copies(x, count - 1)) + f(x)
  {
    assert xs + Copies(x, count) == (xs + Copies(x, count - 1)) + [x];
    SumAppend(f, xs + Copies(x, count - 1), x);
  }

  lemma OneMore(m: nat, q: real)
    requires 1 <= m
    ensures m as real * q == (m - 1) as real * q + q
  {
  }

  /** The algebra of one merge, with every quotient already named: d == (x - mean) / (n + k). */
  lemma MergeMean(n: nat, k: nat, mean: real, x: real, d: real, e: real)
    requires x == mean + (n as real + k as real) * d && e == k as real * d
    ensures Scaled(n + k, mean + e) == Scaled(n, mean) + Scaled(k, x)
  {
  }

  lemma MergeSpread(n: nat, k: nat, mean: real, x: real, d: real, e: real)
    requires x == mean + (n as real + k as real) * d && e == k as real * d
    ensures Scaled(n, e * e) + Scaled(k, SquareFrom(mean + e)(x)) == MergeGrowth(n, k, d)
  {
  }

  function MergeGrowth(n: nat, k: nat, d: real): real {
    (n as real + k as real) * (d * d * n as real * k as real)
  }

  /** A grouped step keeps the accumulator exact while it fits under the cap. */
  lemma MergedExact(s: Moments, xs: seq<real>, x: real, count: nat, maxN: nat)
    requires Exact(s, xs) && s.n + count <= maxN
    ensures Exact(Merged(s, x, count, maxN), xs + Copies(x, count))
  {
    if count == 0 {
      assert xs + Copies(x, 0) == xs;
    } else {
      hide Merged, Scaled, MergeGrowth, SquareFrom, SumOf;
      var d, e := MergedForm(s, x, count, maxN);
      MergeMean(s.n, count, s.mean, x, d, e);
      MergeSpread(s.n, count, s.mean, x, d, e);
      SumCopies(Identity(), xs, x, count);
      SumCopies(SquareFrom(s.mean + e), xs, x, count);
      SpreadOffMean(xs, s.mean, e);
    }
  }

  /** The two quotients in `Merged`, over one named quotient d. */
  lemma MergedForm(s: Moments, x: real, count: nat, maxN: nat) returns (d: real, e: real)
    requires 1 <= count && s.n + count <= maxN
    ensures x == s.mean + (s.n as real + count as real) * d && e == count as real * d
    ensures Merged(s, x, count, maxN) == Moments(s.n + count, s.mean + e, s.m2 + MergeGrowth(s.n, count, d))
  {
    var n, k := s.n as real, count as real;
    var a := (s.n + count) as real;
    assert a == n + k;
    var delta := x - s.mean;
    d := delta / a;
    e := k * d;
    DivMul(delta, a);
    MeanShiftForm(delta, count, s.n + count, d);
    M2GrowthForm(delta, s.n, count, d);
  }

  lemma MeanShiftForm(delta: real, k: nat, after: nat, d: real)
    requires 1 <= after && delta == d * after as real
    ensures MeanShift(delta, k, after) == k as real * d
  {
  }

  lemma M2GrowthForm(delta: real, n: nat, k: nat, d: real)
    requires 1 <= n + k && delta == d * (n + k) as real
    ensures M2Growth(delta, n, k, n + k) == MergeGrowth(n, k, d)
  {
  }

  /** Below the cap the single step is the grouped step with one copy. */
  lemma UpdatedIsMerged(s: Moments, x: real, maxN: nat)
    requires s.n < maxN
    ensures Updated(s, x, maxN) == Merged(s, x, 1, maxN)
  {
  }

  function UpdateAll(s: Moments, xs: seq<real>, maxN: nat): Moments
    requires maxN >= 1
  {
    if xs == [] then s else Updated(UpdateAll(s, xs[..|xs| - 1], maxN), xs[|xs| - 1], maxN)
  }

  /** Up to the cap, one-at-a-time updates compute the definition of mean and spread. */
  lemma {:induction false} UpdatesRefineDefinition(xs: seq<real>, maxN: nat)
    requires |xs| <= maxN && maxN >= 1
    ensures Exact(UpdateAll(EMPTY, xs, maxN), xs)
  {
    if xs != [] {
      var ys, x := xs[..|xs| - 1], xs[|xs| - 1];
      UpdatesRefineDefinition(ys, maxN);
      var s := UpdateAll(EMPTY, ys, maxN);
      UpdatedIsMerged(s, x, maxN);
      MergedExact(s, ys, x, 1, maxN);
      assert Copies(x, 1) == [x];
      assert ys + [x] == xs;
    }
  }

  // ----- grouping -----

  datatype Batch = Batch(value: real, count: nat)

  function Expand(bs: seq<Batch>): seq<real> {
    if bs == [] then []
    else Expand(bs[..|bs| - 1]) + Copies(bs[|bs| - 1].value, bs[|bs| - 1].count)
  }

  /** Feeding batches in the given order; n never passes the cap. */
  function MergeAll(bs: seq<Batch>, maxN: nat): (r: Moments)
    ensures r.n <= maxN
  {
    if bs == [] then EMPTY
    else Merged(MergeAll(bs[..|bs| - 1], maxN), bs[|bs| - 1].value, bs[|bs| - 1].count, maxN)
  }

  lemma {:induction false} MergesRefineDefinition(bs: seq<Batch>, maxN: nat)
    requires |Expand(bs)| <= maxN
    ensures Exact(MergeAll(bs, maxN), Expand(bs))
  {
    if bs != [] {
      MergesRefineDefinition(bs[..|bs| - 1], maxN);
      var b := bs[|bs| - 1];
      MergedExact(MergeAll(bs[..|bs| - 1], maxN), Expand(bs[..|bs| - 1]), b.value, b.count, maxN);
    }
  }

  lemma {:induction false} SumRemove(f: real -> real, xs: seq<real>, i: nat)
    requires i < |xs|
    ensures SumOf(f, xs) == SumOf(f, xs[..i] + xs[i + 1..]) + f(xs[i])
  {
    var last := |xs| - 1;
    if i == last {
      assert xs[..i] + xs[i + 1..] == xs[..last];
    } else {
      var ys := xs[..last];
      SumRemove(f, ys, i);
      assert xs[..i] + xs[i + 1..] == (ys[..i] + ys[i + 1..]) + [xs[last]];
      SumAppend(f, ys[..i] + ys[i + 1..], xs[last]);
    }
  }

  lemma RemoveOne(ys: seq<real>, i: nat)
    requires i < |ys|
    ensures multiset(ys[..i] + ys[i + 1..]) == multiset(ys) - multiset{ys[i]}
  {
    assert ys == ys[..i] + [ys[i]] + ys[i + 1..];
  }

  /** A sum sees only which samples there are, not their order. */
  lemma {:induction false} SumPermutation(f: real -> real, xs: seq<real>, ys: seq<real>)
    requires multiset(xs) == multiset(ys)
    ensures |xs| == |ys|
    ensures SumOf(f, xs) == SumOf(f, ys)
    decreases |xs|
  {
    assert |multiset(xs)| == |xs| && |multiset(ys)| == |ys|;
    if xs != [] {
      var last := |xs| - 1;
      RemoveOne(xs, last);
      assert xs[..last] + xs[last + 1..] == xs[..last];
      assert xs[last] in multiset(ys);
      var i :| 0 <= i < |ys| && ys[i] == xs[last];
      RemoveOne(ys, i);
      SumPermutation(f, xs[..last], ys[..i] + ys[i + 1..]);
      SumRemove(f, ys, i);
    }
  }

  lemma ScaledInjective(k: nat, y: real, z: real)
    requires 1 <= k && Scaled(k, y) == Scaled(k, z)
    ensures y == z
  {
  }

  /** The definition determines the accumulator, whatever the order of the samples. */
  lemma ExactUnique(s: Moments, t: Moments, xs: seq<real>, ys: seq<real>)
    requires Exact(s, xs) && Exact(t, ys) && multiset(xs) == multiset(ys)
    ensures s == t
  {
    hide Scaled, SquareFrom, SumOf;
    SumPermutation(Identity(), xs, ys);
    if s.n > 0 {
      ScaledInjective(s.n, s.mean, t.mean);
    }
    SumPermutation(SquareFrom(s.mean), xs, ys);
  }

  /**
   Any grouping of the same samples into batches, in any order, gives the same n, mean
   and M2 as feeding them one at a time in any other order.
   */
  lemma GroupingAgrees(bs: seq<Batch>, xs: seq<real>, maxN: nat)
    requires multiset(Expand(bs)) == multiset(xs)
    requires 1 <= maxN && |xs| <= maxN
    ensures MergeAll(bs, maxN) == UpdateAll(EMPTY, xs, maxN)
  {
    SumPermutation(Identity(), Expand(bs), xs);
    MergesRefineDefinition(bs, maxN);
    UpdatesRefineDefinition(xs, maxN);
    ExactUnique(MergeAll(bs, maxN), UpdateAll(EMPTY, xs, maxN), Expand(bs), xs);
  }

  // ----- past the cap -----

  /** What every accumulator fed from [0, hi] satisfies, however long it has been running. */
  ghost predicate Bounded(s: Moments, hi: real) {
    && 0.0 <= s.mean <= hi
    && 0.0 <= s.m2
    && (if s.n == 0 then s.m2 == 0.0 else s.m2 <= (s.n - 1) as real * (hi * hi))
  }

  /** Every update, at or below the cap, keeps mean in [0, hi] and M2 in [0, (n - 1) hi^2]. */
  lemma UpdatedBounded(s: Moments, x: real, maxN: nat, hi: real)
    requires maxN >= 1 && s.n <= maxN
    requires Bounded(s, hi) && 0.0 <= x <= hi
    ensures Bounded(Updated(s, x, maxN), hi)
    ensures s.n <= Updated(s, x, maxN).n <= maxN
  {
    hide Updated;
    var a, q := UpdatedForm(s, x, maxN);
    Blend(a, x, s.mean, 0.0, hi);
    M2Bounded(s, Updated(s, x, maxN), x, maxN, a, q, hi);
  }

  lemma M2Bounded(s: Moments, t: Moments, x: real, maxN: nat, a: real, q: real, hi: real)
    requires s.n <= maxN && t.n == Min(s.n + 1, maxN) && 1 <= maxN
    requires Bounded(s, hi) && 0.0 <= x <= hi
    requires a * t.n as real == 1.0 && 0.0 < a <= 1.0 && q == (x - s.mean) * (x - s.mean)
    requires t.m2 == (if s.n >= maxN then s.m2 * (1.0 - a) else s.m2) + (1.0 - a) * q
    ensures 0.0 <= t.m2 <= (t.n - 1) as real * (hi * hi)
  {
    var h2 := hi * hi;
    SquareBound(x - s.mean, hi);
    if s.n >= maxN {
      DecayBound(s.m2, t.n as real, a, q, h2);
    } else {
      GrowthBound(s, t, a, q, h2);
    }
  }

  /** An update as a step of weight a = 1 / n towards the sample. */
  lemma UpdatedForm(s: Moments, x: real, maxN: nat) returns (a: real, q: real)
    requires maxN >= 1 && s.n <= maxN
    ensures q == (x - s.mean) * (x - s.mean)
    ensures var t := Updated(s, x, maxN);
            && t.n == Min(s.n + 1, maxN)
            && a * t.n as real == 1.0 && 0.0 < a <= 1.0
            && t.mean == a * x + (1.0 - a) * s.mean
            && t.m2 == (if s.n >= maxN then s.m2 * (1.0 - a) else s.m2) + (1.0 - a) * q
  {
    var t := Updated(s, x, maxN);
    var n := t.n as real;
    var delta := x - s.mean;
    a := 1.0 / n;
    q := delta * delta;
    DivMul(1.0, n);
    assert a <= 1.0 by {
      if a > 1.0 {
        MulMono(a, 1.0, n);
        assert false;
      }
    }
    Quotient(delta, n, a * delta) by {
      assert n * (a * delta) == (a * n) * delta;
    }
    assert x - t.mean == (1.0 - a) * delta;
    assert delta * ((1.0 - a) * delta) == (1.0 - a) * q;
  }

  lemma DecayBound(m2: real, n: real, a: real, q: real, h2: real)
    requires n >= 1.0 && a * n == 1.0 && 0.0 < a <= 1.0
    requires 0.0 <= m2 <= (n - 1.0) * h2 && 0.0 <= q <= h2
    ensures 0.0 <= m2 * (1.0 - a) + (1.0 - a) * q <= (n - 1.0) * h2
  {
  }

  lemma GrowthBound(s: Moments, t: Moments, a: real, q: real, h2: real)
    requires t.n == s.n + 1 && a * t.n as real == 1.0 && 0.0 < a <= 1.0
    requires 0.0 <= s.m2 && (if s.n == 0 then s.m2 == 0.0 else s.m2 <= (s.n - 1) as real * h2)
    requires 0.0 <= q <= h2
    requires t.m2 == s.m2 + (1.0 - a) * q
    ensures 0.0 <= t.m2 <= (t.n - 1) as real * h2
  {
    MulNonNeg(1.0 - a, q);
    if s.n == 0 {
      assert a == 1.0;
    } else {
      MulMono(q, 1.0 - a, 1.0);
      OneMore(s.n, h2);
    }
  }

  /** So the variance, once there is one, exists and never exceeds hi^2. */
  lemma BoundedVariance(s: Moments, hi: real)
    requires Bounded(s, hi) && s.n >= 2
    ensures Variance(s).Some? && 0.0 <= Variance(s).value <= hi * hi
  {
  }
}
