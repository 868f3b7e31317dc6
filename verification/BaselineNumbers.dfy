/**
 The verdict and the learning of a window close, from the numbers a target holds and nothing else: which rates and
 entropies raise a flag, which samples are learned, and what the accumulators and references become.
 */
module BaselineNumbers {
  import opened Options
  import opened Arith
  import opened Welford
  import opened Baseline
  import opened BaselineRuns

  // ----- deviations -----

  /** The sample deviation of an accumulator; a restored one may hold a negative M2 and then has none. */
  ghost predicate IsDeviation(m: Moments, s: real) {
    if m.m2 < 0.0 then s == 0.0 else 0.0 <= s && s * s * (m.n - 1) as real == m.m2
  }

  /** The deviations a target is judged by and the number of them it is allowed. */
  datatype Gauge = Gauge(rate: real, entropy: real, k: real)

  /** The floor and ceiling of the rate deviation and the tightened k of a cooldown, from the settings. */
  lemma LimitsByNumbers(cfg: Config, mean: real)
    ensures RateSigmaFloor(cfg, mean) ==
              if cfg.rateSigmaFloorRatio * mean >= cfg.rateSigmaFloor then cfg.rateSigmaFloorRatio * mean else cfg.rateSigmaFloor
    ensures RateSigmaCeiling(cfg, mean) ==
              if cfg.rateCeilingRatio * mean >= cfg.rateCeilingFloor then cfg.rateCeilingRatio * mean else cfg.rateCeilingFloor
    ensures CooldownK(cfg) == if cfg.k * cfg.cooldownKFactor >= 1.0 then cfg.k * cfg.cooldownKFactor else 1.0
  {
    hide ProductAtLeast;
    ProductAtLeastIs(cfg.rateSigmaFloorRatio, mean, cfg.rateSigmaFloor);
    ProductAtLeastIs(cfg.rateCeilingRatio, mean, cfg.rateCeilingFloor);
    ProductAtLeastIs(cfg.k, cfg.cooldownKFactor, 1.0);
  }

  /** `s` and `z` being the target's own deviations in rate and entropy. */
  ghost predicate Gauged(cfg: Config, t: Target, s: real, z: real, g: Gauge) {
    var floor, ceiling := RateSigmaFloor(cfg, t.rate.mean), RateSigmaCeiling(cfg, t.rate.mean);
    && IsDeviation(t.rate, s) && IsDeviation(t.entropy, z)
    && g.rate == (if s >= ceiling || floor >= ceiling then ceiling else if s >= floor then s else floor)
    && g.entropy == (if z < cfg.entropySigmaFloor then cfg.entropySigmaFloor
                     else if z > cfg.entropySigmaCeiling then cfg.entropySigmaCeiling else z)
    && g.k == if t.cooldown == 0 then cfg.k else CooldownK(cfg)
  }

  lemma SquaresDiffer(a: real, b: real)
    requires 0.0 <= a && 0.0 <= b && a * a == b * b
    ensures a == b
  {
    assert (a - b) * (a + b) == a * a - b * b;
    if a != b {
      MulZero(a - b, a + b);
    }
  }

  lemma DeviationIsStdDev(m: Moments, root: real -> real, s: real)
    requires IsRoot(root) && m.n >= 2
    ensures IsDeviation(m, s) <==> s == StdDev(m, root)
  {
    var d := (m.n - 1) as real;
    var v := m.m2 / d;
    DivMul(m.m2, d);
    SignOfQuotient(m.m2, d, v);
    if m.m2 >= 0.0 {
      var q := root(v);
      assert 0.0 <= q && q * q == v;
      if 0.0 <= s && s * s * d == m.m2 {
        Quotient(m.m2, d, s * s) by {
          assert d * (s * s) == s * s * d;
        }
        SquaresDiffer(s, q);
      }
    }
  }

  lemma SignOfQuotient(p: real, d: real, v: real)
    requires d > 0.0 && v * d == p
    ensures v < 0.0 <==> p < 0.0
  {
  }

  lemma GaugeUnique(cfg: Config, t: Target, s: real, z: real, g: Gauge)
    requires ValidConfig(cfg) && Warm(t) && Gauged(cfg, t, s, z, g)
    ensures g.rate == SigmaR(cfg, t.rate) && g.entropy == SigmaH(cfg, t.entropy) && g.k == BaseK(cfg, t.cooldown)
  {
    hide StdDev, IsDeviation, IsRoot, RateSigmaFloor, RateSigmaCeiling, CooldownK;
    DeviationIsStdDev(t.rate, cfg.root, s);
    DeviationIsStdDev(t.entropy, cfg.root, z);
  }

  /** Every warm target has a gauge. */
  lemma GaugeOf(cfg: Config, t: Target) returns (s: real, z: real, g: Gauge)
    requires ValidConfig(cfg) && Warm(t)
    ensures Gauged(cfg, t, s, z, g)
  {
    hide StdDev, IsDeviation, IsRoot, RateSigmaFloor, RateSigmaCeiling, CooldownK;
    s, z := StdDev(t.rate, cfg.root), StdDev(t.entropy, cfg.root);
    DeviationIsStdDev(t.rate, cfg.root, s);
    DeviationIsStdDev(t.entropy, cfg.root, z);
    g := Gauge(SigmaR(cfg, t.rate), SigmaH(cfg, t.entropy), BaseK(cfg, t.cooldown));
  }

  // ----- the smoothed rate -----

  /** How strongly a window pulls the smoothed rate. */
  ghost predicate IsPull(cfg: Config, t: Target, w: Window, a: real) {
    var least := if t.cooldown == 0 && w.rate < t.ewma / 10.0 then 0.8 else if t.cooldown > 0 || w.rate < t.ewma then 0.5 else 0.0;
    a == if cfg.alpha >= least then cfg.alpha else least
  }

  /** The smoothed rate moves towards the window's rate by the pull, during warm-up as well. */
  lemma SmoothedByNumbers(cfg: Config, t: Target, w: Window, a: real)
    requires ValidConfig(cfg) && IsPull(cfg, t, w, a)
    ensures VerdictOf(cfg, t, w).r - t.ewma == a * (w.rate - t.ewma)
    ensures Close(cfg, t, w).ewma == VerdictOf(cfg, t, w).r
  {
    hide Judge, LearnedRate, LearnedEntropy, RefStep, Reverted;
    JudgeShape(cfg, t, SmoothedRate(cfg, t, w), w);
    assert a == ActiveAlpha(cfg, t.ewma, t.cooldown, w.rate);
    OneMinus(a, t.ewma);
    assert a * (w.rate - t.ewma) == a * w.rate - a * t.ewma;
  }

  // ----- the verdict -----

  /**
   How much wider sources spread over more addresses than usual make the rate boundary: by the window's entropy over
   the usual one, never narrower, and not at all past the emergency volume.
   */
  ghost predicate IsWidening(cfg: Config, t: Target, r: real, h: real, g: Gauge, x: real) {
    var usual := if t.entropy.mean > 0.0 then t.entropy.mean else cfg.entropyKFallback;
    if r > t.rate.mean + cfg.emergencySigma * g.rate || h <= usual then x == 1.0 else x * usual == h
  }

  lemma WideningUnique(cfg: Config, t: Target, k: real, r: real, h: real, g: Gauge, x: real)
    requires 0.0 < cfg.entropyKFallback && IsWidening(cfg, t, r, h, g, x)
    ensures ScaledRateK(cfg, k, r, t.rate.mean, g.rate, h, t.entropy.mean) == k * x
  {
    var usual := if t.entropy.mean > 0.0 then t.entropy.mean else cfg.entropyKFallback;
    if !(r > t.rate.mean + cfg.emergencySigma * g.rate) {
      var q := h / usual;
      DivMul(h, usual);
      if h <= usual {
        AtMostOne(q, usual, h);
      } else {
        Quotient(h, usual, x);
        MoreThanOne(q, usual, h);
      }
    }
  }

  lemma AtMostOne(q: real, d: real, h: real)
    requires 0.0 < d && q * d == h && h <= d
    ensures q <= 1.0
  {
    assert (q - 1.0) * d == h - d;
    assert q > 1.0 ==> (q - 1.0) * d > 0.0;
  }

  lemma MoreThanOne(q: real, d: real, h: real)
    requires 0.0 < d && q * d == h && h > d
    ensures q > 1.0
  {
    assert (1.0 - q) * d == d - h;
    assert q <= 1.0 ==> (1.0 - q) * d >= 0.0;
  }

  /** Some widening always applies. */
  lemma WideningOf(cfg: Config, t: Target, r: real, h: real, g: Gauge) returns (x: real)
    requires 0.0 < cfg.entropyKFallback
    ensures IsWidening(cfg, t, r, h, g, x)
  {
    var usual := if t.entropy.mean > 0.0 then t.entropy.mean else cfg.entropyKFallback;
    if r > t.rate.mean + cfg.emergencySigma * g.rate || h <= usual {
      x := 1.0;
    } else {
      x := h / usual;
      DivMul(h, usual);
    }
  }

  lemma EntropyBoundaryIs(cfg: Config, t: Target, k: real, e: real)
    requires e == SigmaH(cfg, t.entropy)
    ensures EntropyBoundary(cfg, k, t) == t.entropy.mean - k * e
  {
    hide SigmaH;
  }

  lemma RateBoundaryIs(cfg: Config, t: Target, k: real, r: real, h: real, g: Gauge, x: real)
    requires 0.0 < cfg.entropyKFallback && g.rate == SigmaR(cfg, t.rate) && IsWidening(cfg, t, r, h, g, x)
    ensures RateBoundary(cfg, k, t, r, h) == t.rate.mean + k * x * g.rate
  {
    hide SigmaR, ScaledRateK, IsWidening;
    WideningUnique(cfg, t, k, r, h, g, x);
  }

  /** When an entropy is flagged, and when it is a real anomaly. */
  lemma EntropyByNumbers(cfg: Config, t: Target, w: Window, s: real, z: real, g: Gauge)
    requires ValidConfig(cfg) && Warm(t) && Gauged(cfg, t, s, z, g)
    ensures var v := VerdictOf(cfg, t, w);
            && !v.warmup
            && (v.entropyFlag <==> w.packets >= cfg.entropyMinPackets && w.h < t.entropy.mean - g.k * g.entropy)
            && (v.realEntropy <==> w.h < t.entropy.mean - cfg.k * g.entropy)
  {
    hide SigmaR, SigmaH, BaseK, Gauged, RateBoundary, EntropyBoundary, SmoothedRate, WindowIsClean, IsRoot;
    GaugeUnique(cfg, t, s, z, g);
    EntropyBoundaryIs(cfg, t, g.k, g.entropy);
    EntropyBoundaryIs(cfg, t, cfg.k, g.entropy);
  }

  /** When a rate is flagged, when it is a real anomaly, and when the window is clean on its own. */
  lemma RateByNumbers(cfg: Config, t: Target, w: Window, s: real, z: real, g: Gauge, x: real)
    requires ValidConfig(cfg) && Warm(t) && Gauged(cfg, t, s, z, g)
    requires IsWidening(cfg, t, VerdictOf(cfg, t, w).r, w.h, g, x)
    ensures var v := VerdictOf(cfg, t, w);
            && (v.rateFlag <==> v.r > t.rate.mean + g.k * x * g.rate)
            && (v.realRate <==> v.r > t.rate.mean + cfg.k * x * g.rate)
            && (v.natural <==>
                  t.cooldown == 0 && !v.rateFlag
                  && (v.entropyFlag ==> w.dominance < cfg.distributedDominance && v.r <= t.rate.mean + g.rate))
  {
    hide SigmaR, SigmaH, BaseK, Gauged, EntropyBoundary, RateBoundary, SmoothedRate, IsWidening, IsRoot;
    GaugeUnique(cfg, t, s, z, g);
    var r := VerdictOf(cfg, t, w).r;
    assert r == SmoothedRate(cfg, t, w);
    RateBoundaryIs(cfg, t, g.k, r, w.h, g, x);
    RateBoundaryIs(cfg, t, cfg.k, r, w.h, g, x);
  }

  // ----- what is learned -----

  /** One more sample; at the recency cap it takes the place of one average sample. */
  ghost predicate Absorbs(m: Moments, x: real, m': Moments) {
    if m.n < MAX_N then
      && m'.n == m.n + 1
      && m'.n as real * m'.mean == m.n as real * m.mean + x
      && m'.m2 == m.m2 + (x - m.mean) * (x - m'.mean)
    else
      && m'.n == MAX_N
      && MAX_N as real * (m'.mean - m.mean) == x - m.mean
      && m'.m2 == m.m2 - m.m2 / MAX_N as real + (x - m.mean) * (x - m'.mean)
  }

  lemma UpdatedAbsorbs(m: Moments, x: real)
    ensures Absorbs(m, x, Updated(m, x, MAX_N))
  {
    var n, d := Min(m.n + 1, MAX_N) as real, x - m.mean;
    DivMul(d, n);
    assert n * (m.mean + d / n) == n * m.mean + d;
    if m.n >= MAX_N {
      assert m.m2 * (1.0 - 1.0 / n) == m.m2 - m.m2 / n;
    }
  }

  /** No outlier: the window ended a freeze, or the sample is within so many deviations of the mean. */
  ghost predicate Ordinary(cfg: Config, escaped: bool, x: real, mean: real, e: real) {
    escaped || e <= 0.0 || -(cfg.outlierSigma * e) <= x - mean <= cfg.outlierSigma * e
  }

  lemma OrdinaryIsNoOutlier(cfg: Config, escaped: bool, x: real, mean: real, e: real)
    ensures Ordinary(cfg, escaped, x, mean, e) <==> !IsOutlier(escaped, x, mean, e, cfg.outlierSigma)
  {
  }

  /** What one clean window makes of a slow reference, seeded from the mean when there is none yet. */
  ghost predicate Pulled(cfg: Config, x: real, reference: Option<real>, mean: real, reference': Option<real>) {
    var from := if reference.Some? then reference.value else mean;
    reference'.Some? && reference'.value - from == cfg.peacetimeWeight * (x - from)
  }

  lemma RefStepPulls(cfg: Config, x: real, reference: Option<real>, mean: real)
    ensures Pulled(cfg, x, reference, mean, Some(RefStep(cfg.peacetimeWeight, x, reference, mean)))
  {
    var w, from := cfg.peacetimeWeight, if reference.Some? then reference.value else mean;
    OneMinus(w, from);
    assert w * (x - from) == w * x - w * from;
  }

  /** The entropy side of a clean window: outliers are left out, everything else is learned. */
  lemma CleanEntropy(cfg: Config, t: Target, w: Window, s: real, z: real, g: Gauge)
    requires ValidConfig(cfg) && Warm(t) && Gauged(cfg, t, s, z, g) && VerdictOf(cfg, t, w).clean
    ensures var u, escaped := Close(cfg, t, w), !VerdictOf(cfg, t, w).natural;
            && (if Ordinary(cfg, escaped, w.h, t.entropy.mean, g.entropy) then Absorbs(t.entropy, w.h, u.entropy)
                else u.entropy == t.entropy)
            && Pulled(cfg, w.h, t.entropyRef, u.entropy.mean, u.entropyRef)
  {
    hide SigmaR, SigmaH, BaseK, Gauged, Judge, SmoothedRate, LearnedRate, Updated, IsOutlier, Absorbs, Ordinary, RefStep, Pulled,
      IsRoot;
    GaugeUnique(cfg, t, s, z, g);
    UpdatedAbsorbs(t.entropy, w.h);
    OrdinaryIsNoOutlier(cfg, !VerdictOf(cfg, t, w).natural, w.h, t.entropy.mean, g.entropy);
    RefStepPulls(cfg, w.h, t.entropyRef, Close(cfg, t, w).entropy.mean);
  }

  /**
   The rate side: outliers and everything above the mean cap are left out, and then a mean more than half of the
   reference away from it is put back to it.
   */
  lemma CleanRate(cfg: Config, t: Target, w: Window, s: real, z: real, g: Gauge) returns (l: Moments, ref: real)
    requires ValidConfig(cfg) && Warm(t) && Gauged(cfg, t, s, z, g) && VerdictOf(cfg, t, w).clean
    ensures var u, v := Close(cfg, t, w), VerdictOf(cfg, t, w);
            && (if Ordinary(cfg, !v.natural, v.r, t.rate.mean, g.rate) && t.rate.mean < cfg.rateMeanCap
                then Absorbs(t.rate, v.r, l) else l == t.rate)
            && u.rateRef == Some(ref) && Pulled(cfg, v.r, t.rateRef, l.mean, u.rateRef)
            && u.rate == if ref > 0.0 && (2.0 * (l.mean - ref) > ref || 2.0 * (ref - l.mean) > ref)
                         then Moments(l.n, ref, l.m2) else l
  {
    hide SigmaR, SigmaH, BaseK, Gauged, Judge, SmoothedRate, LearnedEntropy, Updated, IsOutlier, Absorbs, Ordinary, RefStep,
      Pulled, IsRoot, HasDrifted;
    GaugeUnique(cfg, t, s, z, g);
    var v := VerdictOf(cfg, t, w);
    JudgeShape(cfg, t, SmoothedRate(cfg, t, w), w);
    var before := t.(ewma := v.r);
    l := LearnedRate(cfg, before, v.r, !v.natural);
    ref := RefStep(cfg.peacetimeWeight, v.r, t.rateRef, l.mean);
    UpdatedAbsorbs(t.rate, v.r);
    OrdinaryIsNoOutlier(cfg, !v.natural, v.r, t.rate.mean, g.rate);
    RefStepPulls(cfg, v.r, t.rateRef, l.mean);
    DriftedByNumbers(l.mean, ref);
  }

  lemma DriftedByNumbers(mean: real, ref: real)
    ensures HasDrifted(mean, ref) <==> ref > 0.0 && (2.0 * (mean - ref) > ref || 2.0 * (ref - mean) > ref)
  {
    if ref > 0.0 {
      var d := Abs(mean - ref);
      DivMul(d, ref);
      HalfOf(d, ref, d / ref);
    }
  }

  lemma HalfOf(d: real, ref: real, q: real)
    requires ref > 0.0 && q * ref == d
    ensures q > 0.50 <==> 2.0 * d > ref
  {
    assert (q - 0.50) * ref == d - 0.50 * ref;
    if q > 0.50 {
      assert (q - 0.50) * ref > 0.0;
    } else {
      assert (0.50 - q) * ref >= 0.0;
    }
  }

  /**
   The counters: a real anomaly in rate or entropy starts the cooldown over, any other window counts it down; a window
   clean on its own or the one past the cap ends the freeze, any other prolongs it.
   */
  lemma CountersByNumbers(cfg: Config, t: Target, w: Window)
    requires ValidConfig(cfg) && Warm(t)
    ensures var u, v := Close(cfg, t, w), VerdictOf(cfg, t, w);
            && u.cooldown == (if v.realRate || v.realEntropy then cfg.cooldownWindows
                              else if t.cooldown == 0 then 0 else t.cooldown - 1)
            && (v.clean <==> v.natural || t.frozen >= cfg.maxFreeze)
            && u.frozen == (if v.clean then 0 else t.frozen + 1)
            && (v.RealAnomaly() <==> v.realRate || v.realEntropy)
            && (v.Escaped() <==> v.clean && !v.natural) && (v.Learns() <==> v.clean)
  {
    hide Close, VerdictOf;
    StepShape(cfg, t, w);
  }

  /** Warm-up windows are learned whole and judge nothing; the counters and references are left alone. */
  lemma WarmupByNumbers(cfg: Config, t: Target, w: Window)
    requires ValidConfig(cfg) && (t.rate.n < WARMUP_WINDOWS || t.entropy.n < WARMUP_WINDOWS)
    ensures var u, v := Close(cfg, t, w), VerdictOf(cfg, t, w);
            && v == Verdict(true, v.r, false, false, false, false, false, false)
            && Absorbs(t.rate, v.r, u.rate) && Absorbs(t.entropy, w.h, u.entropy)
            && u == Target(v.r, u.rate, u.entropy, t.rateRef, t.entropyRef, t.cooldown, t.frozen)
  {
    hide Judge, Learn, Updated, Absorbs, SmoothedRate, IsRoot;
    UpdatedAbsorbs(t.rate, VerdictOf(cfg, t, w).r);
    UpdatedAbsorbs(t.entropy, w.h);
  }
}
