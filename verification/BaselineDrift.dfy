/**
 How far and how fast a baseline can move: bounded forever by the rates it was shown,
 held within half of a slow reference, and that reference dragged no faster than its
 weight allows, however the windows are arranged.
 */
module BaselineDrift {
  import opened Options
  import opened Arith
  import opened Welford
  import opened Baseline
  import opened BaselineRuns

  ghost predicate WindowsWithin(ws: seq<Window>, lo: real, hi: real) {
    forall i :: 0 <= i < |ws| ==> lo <= ws[i].rate <= hi && 0.0 <= ws[i].h <= 1.0
  }

  // ----- smoothed rate -----

  lemma SmoothedWithin(cfg: Config, t: Target, w: Window, lo: real, hi: real)
    requires ValidConfig(cfg) && lo <= t.ewma <= hi && lo <= w.rate <= hi
    ensures lo <= SmoothedRate(cfg, t, w) <= hi
  {
    hide ActiveAlpha;
    AlphaInUnit(cfg, t.ewma, t.cooldown, w.rate);
    Blend(ActiveAlpha(cfg, t.ewma, t.cooldown, w.rate), w.rate, t.ewma, lo, hi);
  }

  lemma SmoothedError(a: real, c: real, rate: real, ewma: real)
    requires 0.0 < 1.0 - a <= c
    ensures Abs(Smoothed(a, rate, ewma) - rate) <= c * Abs(ewma - rate)
  {
    var e, b := ewma - rate, 1.0 - a;
    assert Smoothed(a, rate, ewma) - rate == b * e;
    var m := Abs(e);
    assert Abs(b * e) == b * m;
    MulMono(m, b, c);
  }

  /** At a constant rate the smoothing error shrinks at least geometrically, whichever decay branch each window takes. */
  lemma {:induction false} EwmaConverges(cfg: Config, t: Target, ws: seq<Window>, rate: real)
    requires ValidConfig(cfg)
    requires forall i :: 0 <= i < |ws| ==> ws[i].rate == rate
    ensures Abs(After(cfg, t, ws).ewma - rate) <= Pow(1.0 - cfg.alpha, |ws|) * Abs(t.ewma - rate)
  {
    hide Close, VerdictOf, ActiveAlpha, Smoothed, Abs, IsRoot;
    var c := 1.0 - cfg.alpha;
    if ws == [] {
      MulOne(Pow(c, 0), Abs(t.ewma - rate));
    } else {
      hide Pow;
      var p, w := ws[..|ws| - 1], ws[|ws| - 1];
      EwmaConverges(cfg, t, p, rate);
      var s := After(cfg, t, p);
      CloseEwma(cfg, s, w);
      AlphaInUnit(cfg, s.ewma, s.cooldown, rate);
      SmoothedError(ActiveAlpha(cfg, s.ewma, s.cooldown, rate), c, rate, s.ewma);
      ChainError(c, Abs(s.ewma - rate), Pow(c, |p|), Abs(t.ewma - rate), Pow(c, |ws|)) by {
        PowStep(c, |p|);
      }
    }
  }

  lemma ChainError(c: real, e: real, p: real, e0: real, p': real)
    requires 0.0 <= c && e <= p * e0 && p' == c * p
    ensures c * e <= p' * e0
  {
  }

  lemma CloseEwma(cfg: Config, t: Target, w: Window)
    requires 0.0 < cfg.entropyKFallback
    ensures Close(cfg, t, w).ewma == VerdictOf(cfg, t, w).r == SmoothedRate(cfg, t, w)
  {
    hide SmoothedRate;
  }

  // ----- bounded forever -----

  /** The whole target stays within what it was shown. */
  ghost predicate Sane(t: Target, hi: real) {
    && 0.0 <= t.ewma <= hi
    && t.rate.n <= MAX_N && Bounded(t.rate, hi)
    && t.entropy.n <= MAX_N && Bounded(t.entropy, 1.0)
    && (t.rateRef.Some? ==> 0.0 <= t.rateRef.value <= hi)
    && (t.entropyRef.Some? ==> 0.0 <= t.entropyRef.value <= 1.0)
  }

  lemma RefWithin(weight: real, x: real, reference: Option<real>, seed: real, hi: real)
    requires 0.0 < weight <= 1.0 && 0.0 <= x <= hi && 0.0 <= seed <= hi
    requires reference.Some? ==> 0.0 <= reference.value <= hi
    ensures 0.0 <= RefStep(weight, x, reference, seed) <= hi
  {
    Blend(weight, x, if reference.Some? then reference.value else seed, 0.0, hi);
  }

  lemma LearnSane(cfg: Config, t: Target, r: real, h: real, escaped: bool, hi: real)
    requires 0.0 < cfg.peacetimeWeight <= 1.0
    requires Sane(t, hi) && 0.0 <= r <= hi && 0.0 <= h <= 1.0
    ensures Sane(Learn(cfg, t, r, h, escaped), hi)
  {
    hide Updated, SigmaR, SigmaH, IsOutlier, HasDrifted, RefStep;
    UpdatedBounded(t.rate, r, MAX_N, hi);
    UpdatedBounded(t.entropy, h, MAX_N, 1.0);
    RefWithin(cfg.peacetimeWeight, r, t.rateRef, LearnedRate(cfg, t, r, escaped).mean, hi);
    RefWithin(cfg.peacetimeWeight, h, t.entropyRef, LearnedEntropy(cfg, t, h, escaped).mean, 1.0);
  }

  lemma CloseSane(cfg: Config, t: Target, w: Window, hi: real)
    requires ValidConfig(cfg) && cfg.peacetimeWeight <= 1.0
    requires Sane(t, hi) && 0.0 <= w.rate <= hi && 0.0 <= w.h <= 1.0
    ensures Sane(Close(cfg, t, w), hi)
  {
    hide Updated, Judge, Learn, SmoothedRate, Bounded;
    SmoothedWithin(cfg, t, w, 0.0, hi);
    var r := SmoothedRate(cfg, t, w);
    UpdatedBounded(t.rate, r, MAX_N, hi);
    UpdatedBounded(t.entropy, w.h, MAX_N, 1.0);
    LearnSane(cfg, t.(ewma := r), r, w.h, !Judge(cfg, t, r, w).natural, hi);
  }

  /**
   For every run of any length on rates in [0, hi]: smoothed rate, mean and reference stay
   in [0, hi], M2 never goes negative, and the variance never exceeds hi^2 -- also past the
   recency cap, with M2 decaying, and across any number of mean reverts.
   */
  lemma {:induction false} BoundedForever(cfg: Config, t: Target, ws: seq<Window>, hi: real)
    requires ValidConfig(cfg) && cfg.peacetimeWeight <= 1.0
    requires Sane(t, hi) && WindowsWithin(ws, 0.0, hi)
    ensures var u := After(cfg, t, ws);
            && Sane(u, hi)
            && (u.rate.n >= 2 ==> Variance(u.rate).Some? && Variance(u.rate).value <= hi * hi)
            && (u.entropy.n >= 2 ==> Variance(u.entropy).Some? && Variance(u.entropy).value <= 1.0)
  {
    hide Close, Variance, Bounded;
    if ws != [] {
      var p := ws[..|ws| - 1];
      BoundedForever(cfg, t, p, hi);
      CloseSane(cfg, After(cfg, t, p), ws[|ws| - 1], hi);
    }
    var u := After(cfg, t, ws);
    if u.rate.n >= 2 {
      BoundedVariance(u.rate, hi);
    }
    if u.entropy.n >= 2 {
      BoundedVariance(u.entropy, 1.0);
    }
  }

  // ----- what one window can teach -----

  /**
   A window that is clean on its own moves the rate mean by at most `outlierSigma` deviations over the
   sample count, or not at all; a freeze escape is never rejected as an outlier.
   */
  lemma OneWindowTeaches(cfg: Config, t: Target, r: real)
    requires ValidConfig(cfg) && 0.0 < cfg.rateSigmaFloor
    ensures var m := LearnedRate(cfg, t, r, false);
            m == t.rate || Abs(m.mean - t.rate.mean) * m.n as real <= cfg.outlierSigma * SigmaR(cfg, t.rate)
    ensures t.rate.mean < cfg.rateMeanCap ==> LearnedRate(cfg, t, r, true) == Updated(t.rate, r, MAX_N)
    ensures t.rate.mean >= cfg.rateMeanCap ==> LearnedRate(cfg, t, r, true) == LearnedRate(cfg, t, r, false) == t.rate
  {
    hide SigmaR, Updated;
    SigmaRPositive(cfg, t.rate);
    MeanStep(t.rate, r);
  }

  /** An update moves the mean by the deviation over the sample count. */
  lemma MeanStep(s: Moments, x: real)
    ensures var m := Updated(s, x, MAX_N);
            Abs(m.mean - s.mean) * m.n as real == Abs(x - s.mean)
  {
    var m := Updated(s, x, MAX_N);
    var n, d := m.n as real, x - s.mean;
    DivMul(d, n);
    assert m.mean - s.mean == d / n;
    assert d < 0.0 ==> (-(d / n)) * n == -d;
  }

  // ----- the band around the reference -----

  /** The rate mean sits within half of its slow reference. */
  ghost predicate InBand(t: Target) {
    t.rateRef.Some? ==>
      && 0.0 <= t.rateRef.value
      && 0.5 * t.rateRef.value <= t.rate.mean <= 1.5 * t.rateRef.value
  }

  lemma DriftBand(m: Moments, reference: real)
    requires 0.0 < reference
    ensures 0.5 * reference <= Reverted(m, reference).mean <= 1.5 * reference
  {
  }

  /** The reference is never negative, and zero only if both the sample and what it was before are. */
  lemma RefPositive(weight: real, x: real, reference: Option<real>, seed: real)
    requires 0.0 < weight <= 1.0 && 0.0 <= x && 0.0 <= seed
    requires reference.Some? ==> 0.0 <= reference.value
    ensures 0.0 <= RefStep(weight, x, reference, seed)
    ensures RefStep(weight, x, reference, seed) == 0.0 ==>
              x == 0.0 && (weight < 1.0 ==> (if reference.Some? then reference.value else seed) == 0.0)
  {
    var base := if reference.Some? then reference.value else seed;
    Blend(weight, x, base, 0.0, Max(x, base));
    if RefStep(weight, x, reference, seed) == 0.0 && weight < 1.0 {
      BlendZero(weight, x, base);
    }
  }

  /** For every weight: a learned mean is in the band exactly when the reference is positive, or it and the mean are 0. */
  lemma LearnBandIff(cfg: Config, t: Target, r: real, h: real, escaped: bool)
    ensures var u := Learn(cfg, t, r, h, escaped);
            u.rateRef.Some?
            && (InBand(u) <==>
                  u.rateRef.value > 0.0
                  || (u.rateRef.value == 0.0 && LearnedRate(cfg, t, r, escaped).mean == 0.0))
  {
    hide LearnedRate, LearnedEntropy, HasDrifted, Reverted, RefStep;
    var rate := LearnedRate(cfg, t, r, escaped);
    var reference := RefStep(cfg.peacetimeWeight, r, t.rateRef, rate.mean);
    if reference > 0.0 {
      DriftBand(rate, reference);
    } else {
      NoRevertBelow(rate, reference);
    }
  }

  /** So with a weight below 1 every clean window stays in the band, and with weight 1 every one at a positive rate. */
  lemma LearnBand(cfg: Config, t: Target, r: real, h: real, escaped: bool)
    requires 0.0 < cfg.peacetimeWeight <= 1.0 && (cfg.peacetimeWeight < 1.0 || r > 0.0)
    requires 0.0 <= r && 0.0 <= t.rate.mean && InBand(t)
    ensures InBand(Learn(cfg, t, r, h, escaped))
  {
    hide SigmaR, SigmaH, IsOutlier, LearnedEntropy, Updated, Reverted, RefStep;
    var rate := LearnedRate(cfg, t, r, escaped);
    UpdatedMean(t.rate, r);
    RefPositive(cfg.peacetimeWeight, r, t.rateRef, rate.mean);
    LearnBandIff(cfg, t, r, h, escaped);
  }

  lemma UpdatedMean(s: Moments, x: real)
    requires 0.0 <= x && 0.0 <= s.mean
    ensures 0.0 <= Updated(s, x, MAX_N).mean
    ensures x == 0.0 && s.mean == 0.0 ==> Updated(s, x, MAX_N).mean == 0.0
  {
    var n := Min(s.n + 1, MAX_N) as real;
    assert Updated(s, x, MAX_N).mean == s.mean + (x - s.mean) / n;
    QuotientBetween(x - s.mean, n, (x - s.mean) / n);
  }

  lemma QuotientBetween(d: real, n: real, q: real)
    requires n >= 1.0 && q == d / n
    ensures if d >= 0.0 then 0.0 <= q <= d else d <= q <= 0.0
  {
  }

  /**
   From weight 1 up the band can be left: a frozen target that has seen nothing but rate 1 escapes on a silent
   window, with the mean still positive and the reference 0 or, above weight 1, negative.
   */
  lemma BandNeedsSmallWeight(cfg: Config) returns (t: Target, w: Window)
    requires ValidConfig(cfg) && 1.0 <= cfg.peacetimeWeight
    ensures Warm(t) && InBand(t) && Sane(t, 1.0) && w == Window(0.0, 0.0, 0, 0.0)
    ensures t.ewma == 0.0 && t.rateRef == Some(1.0) && t.frozen == cfg.maxFreeze
    ensures VerdictOf(cfg, t, w).clean && !InBand(Close(cfg, t, w))
    ensures cfg.peacetimeWeight > 1.0 ==> Close(cfg, t, w).rateRef.Some? && Close(cfg, t, w).rateRef.value < 0.0
  {
    hide SigmaR, SigmaH, IsOutlier, LearnedEntropy, Updated, RefStep, Reverted, Judge, Smoothed, ActiveAlpha;
    var m := Moments(WARMUP_WINDOWS, 1.0, 0.0);
    t, w := Target(0.0, m, m, Some(1.0), Some(1.0), 0, cfg.maxFreeze), Window(0.0, 0.0, 0, 0.0);
    SteadySmoothing(cfg, t, w);
    JudgeShape(cfg, t, 0.0, w);
    assert VerdictOf(cfg, t, w) == Judge(cfg, t, 0.0, w);
    assert Judge(cfg, t, 0.0, w).clean;
    var s, escaped := t.(ewma := 0.0), !Judge(cfg, t, 0.0, w).natural;
    LearnBandIff(cfg, s, 0.0, 0.0, escaped);
    SilentUpdate(m);
    SilentRef(cfg.peacetimeWeight, LearnedRate(cfg, s, 0.0, escaped).mean);
  }

  lemma SilentUpdate(m: Moments)
    requires m == Moments(WARMUP_WINDOWS, 1.0, 0.0)
    ensures Updated(m, 0.0, MAX_N).mean > 0.0
  {
  }

  lemma SilentRef(weight: real, seed: real)
    ensures RefStep(weight, 0.0, Some(1.0), seed) == 1.0 - weight
  {
  }

  lemma NoRevertBelow(m: Moments, reference: real)
    requires reference <= 0.0
    ensures Reverted(m, reference) == m
  {
  }

  // ----- the speed limit -----

  /** Where a reference starting at `start` gets after m steps of the given weight, all pulling at b. */
  ghost function Dragged(weight: real, m: nat, b: real, start: real): real {
    b - Pow(1.0 - weight, m) * (b - start)
  }

  lemma DragStep(weight: real, m: nat, b: real, start: real)
    ensures Dragged(weight, m + 1, b, start) == weight * b + (1.0 - weight) * Dragged(weight, m, b, start)
    ensures Dragged(weight, 0, b, start) == start
  {
  }

  ghost function Cleans(vs: seq<Verdict>): nat {
    if vs == [] then 0 else Cleans(vs[..|vs| - 1]) + if vs[|vs| - 1].clean then 1 else 0
  }

  /** What the speed limit says about a target after m clean windows. */
  ghost predicate Limited(cfg: Config, t: Target, m: nat, lo: real, hi: real, start: real) {
    var w := cfg.peacetimeWeight;
    && t.rateRef.Some?
    && Dragged(w, m, lo, start) <= t.rateRef.value <= Dragged(w, m, hi, start)
    && (Banded(cfg, lo) ==> InBand(t))
  }

  /** When the mean is held to the reference: a weight below 1, or positive rates. */
  ghost predicate Banded(cfg: Config, lo: real) {
    cfg.peacetimeWeight < 1.0 || lo > 0.0
  }

  /** One close: a clean window moves the reference one step, any other leaves it alone. */
  lemma CloseMovesRef(cfg: Config, t: Target, w: Window)
    requires 0.0 < cfg.entropyKFallback && Warm(t) && t.rateRef.Some?
    ensures var u, v := Close(cfg, t, w), VerdictOf(cfg, t, w);
            && v.r == SmoothedRate(cfg, t, w)
            && u.rateRef == if v.clean then Some(RefStep(cfg.peacetimeWeight, v.r, t.rateRef, 0.0)) else t.rateRef
  {
    hide Judge, SmoothedRate, LearnedRate, LearnedEntropy, RefStep, Reverted;
    var r := SmoothedRate(cfg, t, w);
    JudgeShape(cfg, t, r, w);
    RefIgnoresSeed(cfg.peacetimeWeight, r, t.rateRef, LearnedRate(cfg, t.(ewma := r), r, !Judge(cfg, t, r, w).natural).mean);
  }

  /** And the band is kept. */
  lemma CloseRef(cfg: Config, t: Target, w: Window)
    requires ValidConfig(cfg) && cfg.peacetimeWeight <= 1.0
    requires Warm(t) && t.rateRef.Some? && 0.0 <= SmoothedRate(cfg, t, w)
    ensures var u, v := Close(cfg, t, w), VerdictOf(cfg, t, w);
            && v.r == SmoothedRate(cfg, t, w)
            && u.rateRef == (if v.clean then Some(RefStep(cfg.peacetimeWeight, v.r, t.rateRef, 0.0)) else t.rateRef)
            && (InBand(t) && Banded(cfg, v.r) ==> InBand(u))
  {
    hide Judge, SmoothedRate, LearnedRate, LearnedEntropy, RefStep, Reverted;
    CloseMovesRef(cfg, t, w);
    var r := SmoothedRate(cfg, t, w);
    if InBand(t) && Banded(cfg, r) {
      LearnBand(cfg, t.(ewma := r), r, w.h, !Judge(cfg, t, r, w).natural);
    }
  }

  lemma RefIgnoresSeed(weight: real, x: real, reference: Option<real>, seed: real)
    requires reference.Some?
    ensures RefStep(weight, x, reference, seed) == RefStep(weight, x, reference, 0.0)
  {
  }

  lemma LimitedClose(cfg: Config, t: Target, w: Window, m: nat, lo: real, hi: real, start: real)
    requires ValidConfig(cfg) && cfg.peacetimeWeight <= 1.0
    requires Warm(t) && Limited(cfg, t, m, lo, hi, start)
    requires 0.0 <= lo <= SmoothedRate(cfg, t, w) <= hi
    ensures var m' := m + if VerdictOf(cfg, t, w).clean then 1 else 0;
            Limited(cfg, Close(cfg, t, w), m', lo, hi, start)
  {
    hide Close, VerdictOf, Dragged, SmoothedRate, RefStep, InBand;
    CloseRef(cfg, t, w);
    LimitStep(cfg.peacetimeWeight, m, lo, hi, start, SmoothedRate(cfg, t, w), t.rateRef);
  }

  /** Every smoothed rate of the run lies in [lo, hi]. */
  ghost predicate RatesWithin(vs: seq<Verdict>, lo: real, hi: real) {
    forall i :: 0 <= i < |vs| ==> lo <= vs[i].r <= hi
  }

  /** Which holds, for one, when the smoothed rate starts there and every window's rate lies there. */
  lemma {:induction false} WindowsBoundRates(cfg: Config, t: Target, ws: seq<Window>, lo: real, hi: real)
    requires ValidConfig(cfg) && lo <= t.ewma <= hi && WindowsWithin(ws, lo, hi)
    ensures RatesWithin(Verdicts(cfg, t, ws), lo, hi) && lo <= After(cfg, t, ws).ewma <= hi
  {
    hide Close, VerdictOf, SmoothedRate;
    if ws != [] {
      var p, w := ws[..|ws| - 1], ws[|ws| - 1];
      WindowsBoundRates(cfg, t, p, lo, hi);
      SmoothedWithin(cfg, After(cfg, t, p), w, lo, hi);
      CloseEwma(cfg, After(cfg, t, p), w);
    }
  }

  /**
   Poisoning speed limit.  If every smoothed rate of a run lies in [lo, hi], then whatever the
   mix of clean, flagged and escaped windows, after m clean ones the reference lies between
   the two drags of m steps towards lo and towards hi, and the learned mean within half of it.
   */
  lemma {:induction false} PoisoningLimit(cfg: Config, t: Target, ws: seq<Window>, lo: real, hi: real)
    requires ValidConfig(cfg) && cfg.peacetimeWeight <= 1.0
    requires Warm(t) && t.rateRef.Some? && InBand(t)
    requires 0.0 <= lo && RatesWithin(Verdicts(cfg, t, ws), lo, hi)
    ensures Limited(cfg, After(cfg, t, ws), Cleans(Verdicts(cfg, t, ws)), lo, hi, t.rateRef.value)
  {
    hide Close, VerdictOf, SmoothedRate;
    if ws == [] {
      LimitStart(cfg, t, lo, hi);
    } else {
      var p, w := ws[..|ws| - 1], ws[|ws| - 1];
      var vs := Verdicts(cfg, t, ws);
      assert vs[..|vs| - 1] == Verdicts(cfg, t, p);
      PoisoningLimit(cfg, t, p, lo, hi);
      var s := After(cfg, t, p);
      StaysWarm(cfg, t, p);
      CloseEwma(cfg, s, w);
      assert vs[|vs| - 1] == VerdictOf(cfg, s, w);
      hide Limited;
      LimitedClose(cfg, s, w, Cleans(Verdicts(cfg, t, p)), lo, hi, t.rateRef.value);
    }
  }

  lemma LimitStart(cfg: Config, t: Target, lo: real, hi: real)
    requires t.rateRef.Some? && InBand(t)
    ensures Limited(cfg, t, 0, lo, hi, t.rateRef.value)
  {
  }

  /** From any smoothed rate up to hi some window takes it to hi exactly. */
  lemma SteerTo(cfg: Config, t: Target, hi: real) returns (w: Window)
    requires ValidConfig(cfg) && 0.0 <= t.ewma <= hi
    ensures hi <= w.rate && SmoothedRate(cfg, t, w) == hi
  {
    hide Smoothed;
    var a := if t.cooldown == 0 then cfg.alpha else Max(0.5, cfg.alpha);
    var d := (hi - t.ewma) / a;
    w := Window(t.ewma + d, 0.0, 0, 0.0);
    SteerAlgebra(a, t.ewma, hi, d);
    assert ActiveAlpha(cfg, t.ewma, t.cooldown, w.rate) == a;
  }

  lemma SteerAlgebra(a: real, e: real, hi: real, d: real)
    requires 0.0 < a < 1.0 && e <= hi && d == (hi - e) / a
    ensures d >= 0.0 && hi <= e + d && Smoothed(a, e + d, e) == hi
  {
    DivMul(hi - e, a);
    assert a * d == hi - e;
    assert a * (e + d) == a * e + a * d;
    OneMinus(a, e);
    if d < 0.0 {
      MulMono(a, d, 0.0);
      MulZero(a, d);
      assert false;
    }
    MulLeSelf(d, a);
  }

  lemma {:induction false} CleansHead(v: Verdict, vs: seq<Verdict>)
    ensures Cleans([v] + vs) == Cleans(vs) + if v.clean then 1 else 0
  {
    var all := [v] + vs;
    if vs == [] {
      assert all[..0] == [];
    } else {
      CleansHead(v, vs[..|vs| - 1]);
      assert all[..|all| - 1] == [v] + vs[..|vs| - 1];
    }
  }

  /** A warm target can always be led to its next clean window with every smoothed rate at hi: the freeze ends by itself. */
  lemma {:induction false} NextClean(cfg: Config, t: Target, hi: real) returns (ws: seq<Window>)
    requires ValidConfig(cfg) && Warm(t) && t.rateRef.Some? && 0.0 <= t.ewma <= hi && t.frozen <= cfg.maxFreeze
    ensures RatesWithin(Verdicts(cfg, t, ws), hi, hi) && Cleans(Verdicts(cfg, t, ws)) == 1
    ensures After(cfg, t, ws).rateRef == Some(RefStep(cfg.peacetimeWeight, hi, t.rateRef, 0.0))
    decreases cfg.maxFreeze - t.frozen
  {
    hide Close, VerdictOf, SmoothedRate, RefStep, After, Verdicts, Cleans;
    var w := SteerTo(cfg, t, hi);
    var u, v := Close(cfg, t, w), VerdictOf(cfg, t, w);
    StepShape(cfg, t, w);
    CloseMovesRef(cfg, t, w);
    var rest := [];
    if v.clean {
      NoWindows(cfg, u);
    } else {
      rest := NextClean(cfg, u, hi);
    }
    ws := [w] + rest;
    AfterHead(cfg, t, w, rest);
    CleansHead(v, Verdicts(cfg, u, rest));
  }

  lemma NoWindows(cfg: Config, t: Target)
    requires 0.0 < cfg.entropyKFallback
    ensures After(cfg, t, []) == t && Verdicts(cfg, t, []) == [] && Cleans([]) == 0
  {
  }

  /**
   Above weight 1 the limit fails, for every configuration and every hi: a silent window that ends a freeze and then
   windows at hi up to the next clean one take a reference of 1 past two drags.
   */
  lemma LimitNeedsWeight(cfg: Config, hi: real) returns (t: Target, ws: seq<Window>)
    requires ValidConfig(cfg) && cfg.peacetimeWeight > 1.0 && hi > 0.0
    ensures Warm(t) && t.rateRef == Some(1.0) && InBand(t) && RatesWithin(Verdicts(cfg, t, ws), 0.0, hi)
    ensures !Limited(cfg, After(cfg, t, ws), Cleans(Verdicts(cfg, t, ws)), 0.0, hi, 1.0)
  {
    hide Close, VerdictOf, SmoothedRate, After, Verdicts, Cleans, RefStep, Dragged, Warm;
    var silent;
    t, silent := BandNeedsSmallWeight(cfg);
    SteadySmoothing(cfg, t, silent);
    StepShape(cfg, t, silent);
    CloseMovesRef(cfg, t, silent);
    var u := Close(cfg, t, silent);
    var rest := NextClean(cfg, u, hi);
    ws := [silent] + rest;
    AfterHead(cfg, t, silent, rest);
    CleansHead(VerdictOf(cfg, t, silent), Verdicts(cfg, u, rest));
    TwoSteps(cfg.peacetimeWeight, hi);
  }

  lemma TwoSteps(weight: real, hi: real)
    requires weight > 1.0 && hi > 0.0
    ensures RefStep(weight, hi, Some(RefStep(weight, 0.0, Some(1.0), 0.0)), 0.0) > Dragged(weight, 2, hi, 1.0)
  {
    var a := 1.0 - weight;
    assert RefStep(weight, 0.0, Some(1.0), 0.0) == a;
    assert Pow(a, 2) == a * a by {
      PowStep(a, 1);
      PowStep(a, 0);
    }
    var q := a * a;
    assert RefStep(weight, hi, Some(a), 0.0) == weight * hi + q;
    assert Dragged(weight, 2, hi, 1.0) == hi - q * (hi - 1.0);
    PastTwoDrags(weight, q, hi);
  }

  lemma PastTwoDrags(w: real, q: real, hi: real)
    requires w > 1.0 && q >= 0.0 && hi > 0.0
    ensures w * hi + q > hi - q * (hi - 1.0)
  {
    assert q * (hi - 1.0) == q * hi - q;
    assert (w - 1.0) * hi > 0.0;
    assert (w - 1.0) * hi == w * hi - hi;
  }

  lemma LimitStep(weight: real, m: nat, lo: real, hi: real, start: real, r: real, reference: Option<real>)
    requires 0.0 < weight <= 1.0 && lo <= r <= hi && reference.Some?
    requires Dragged(weight, m, lo, start) <= reference.value <= Dragged(weight, m, hi, start)
    ensures Dragged(weight, m + 1, lo, start) <= RefStep(weight, r, reference, 0.0) <= Dragged(weight, m + 1, hi, start)
  {
    hide Dragged;
    DragStep(weight, m, lo, start);
    DragStep(weight, m, hi, start);
    var dl, dh := Dragged(weight, m, lo, start), Dragged(weight, m, hi, start);
    BlendMono(weight, lo, dl, r, reference.value);
    BlendMono(weight, r, reference.value, hi, dh);
  }

  /** Seeding: the first clean window of a target without a reference behaves as if its learned mean had been the reference. */
  lemma SeedStep(cfg: Config, t: Target, w: Window)
    requires ValidConfig(cfg) && cfg.peacetimeWeight <= 1.0
    requires Warm(t) && t.rateRef.None? && 0.0 <= t.rate.mean && 0.0 <= SmoothedRate(cfg, t, w)
    requires VerdictOf(cfg, t, w).clean
    ensures var v := VerdictOf(cfg, t, w);
            var seed := LearnedRate(cfg, t, v.r, !v.natural).mean;
            && Close(cfg, t, w).rateRef == Some(RefStep(cfg.peacetimeWeight, v.r, Some(seed), 0.0))
            && (Banded(cfg, v.r) ==> InBand(Close(cfg, t, w)))
  {
    hide Judge, SmoothedRate, LearnedRate, LearnedEntropy, Reverted, RefStep;
    var r := SmoothedRate(cfg, t, w);
    JudgeShape(cfg, t, r, w);
    var escaped := !Judge(cfg, t, r, w).natural;
    if Banded(cfg, r) {
      LearnBand(cfg, t.(ewma := r), r, w.h, escaped);
    }
    LearnedIgnoresEwma(cfg, t, r, escaped);
    SeedIsRef(cfg.peacetimeWeight, r, LearnedRate(cfg, t, r, escaped).mean);
  }

  lemma LearnedIgnoresEwma(cfg: Config, t: Target, r: real, escaped: bool)
    ensures LearnedRate(cfg, t.(ewma := r), r, escaped) == LearnedRate(cfg, t, r, escaped)
  {
  }

  lemma SeedIsRef(weight: real, x: real, seed: real)
    ensures RefStep(weight, x, None, seed) == RefStep(weight, x, Some(seed), 0.0)
  {
  }

  /** Until the first clean window nothing is learned. */
  lemma {:induction false} NothingLearned(cfg: Config, t: Target, ws: seq<Window>)
    requires ValidConfig(cfg) && Warm(t) && Cleans(Verdicts(cfg, t, ws)) == 0
    ensures After(cfg, t, ws).rate == t.rate && After(cfg, t, ws).rateRef == t.rateRef
  {
    hide Close, VerdictOf;
    if ws != [] {
      var p := ws[..|ws| - 1];
      var vs := Verdicts(cfg, t, ws);
      assert vs[..|vs| - 1] == Verdicts(cfg, t, p);
      NothingLearned(cfg, t, p);
      StaysWarm(cfg, t, p);
      StepShape(cfg, After(cfg, t, p), ws[|ws| - 1]);
    }
  }

  /** The mean that window i learns, which is what an absent reference is seeded from. */
  ghost function SeedAt(cfg: Config, t: Target, ws: seq<Window>, i: nat): real
    requires 0.0 < cfg.entropyKFallback && i < |ws|
  {
    var s := After(cfg, t, ws[..i]);
    var v := VerdictOf(cfg, s, ws[i]);
    LearnedRate(cfg, s, v.r, !v.natural).mean
  }

  /**
   The speed limit from a target that has no reference yet: from its first clean window, i, on,
   the limit holds with the mean learned there as the starting point.
   */
  lemma {:induction false} FreshPoisoningLimit(cfg: Config, t: Target, ws: seq<Window>, lo: real, hi: real) returns (i: nat)
    requires ValidConfig(cfg) && cfg.peacetimeWeight <= 1.0
    requires Warm(t) && t.rateRef.None? && 0.0 <= t.rate.mean
    requires 0.0 <= lo && RatesWithin(Verdicts(cfg, t, ws), lo, hi) && Cleans(Verdicts(cfg, t, ws)) > 0
    ensures var vs := Verdicts(cfg, t, ws);
            i < |ws| && vs[i].clean && forall j :: 0 <= j < i ==> !vs[j].clean
    ensures Limited(cfg, After(cfg, t, ws), Cleans(Verdicts(cfg, t, ws)), lo, hi, SeedAt(cfg, t, ws, i))
  {
    hide Close, VerdictOf, SmoothedRate, Limited, InBand, SeedAt, After, Verdicts, Cleans;
    CleansNeedWindows(Verdicts(cfg, t, ws));
    var p, w := ws[..|ws| - 1], ws[|ws| - 1];
    LastStep(cfg, t, p, w);
    assert ws == p + [w];
    var s, us := After(cfg, t, p), Verdicts(cfg, t, p);
    StaysWarm(cfg, t, p);
    CloseEwma(cfg, s, w);
    assert us == Verdicts(cfg, t, ws)[..|p|] && Verdicts(cfg, t, ws)[|p|] == VerdictOf(cfg, s, w);
    if Cleans(us) == 0 {
      i := |p|;
      NoCleans(us);
      NothingLearned(cfg, t, p);
      SeedLimited(cfg, s, w, lo, hi);
      LastSeed(cfg, t, p, w);
    } else {
      i := FreshPoisoningLimit(cfg, t, p, lo, hi);
      SeedSame(cfg, t, p, w, i);
      LimitedClose(cfg, s, w, Cleans(us), lo, hi, SeedAt(cfg, t, p, i));
    }
  }

  lemma CleansNeedWindows(vs: seq<Verdict>)
    requires Cleans(vs) > 0
    ensures vs != []
  {
  }

  lemma LastStep(cfg: Config, t: Target, p: seq<Window>, w: Window)
    requires 0.0 < cfg.entropyKFallback
    ensures After(cfg, t, p + [w]) == Close(cfg, After(cfg, t, p), w)
    ensures Verdicts(cfg, t, p + [w]) == Verdicts(cfg, t, p) + [VerdictOf(cfg, After(cfg, t, p), w)]
    ensures Cleans(Verdicts(cfg, t, p + [w])) ==
              Cleans(Verdicts(cfg, t, p)) + if VerdictOf(cfg, After(cfg, t, p), w).clean then 1 else 0
  {
    hide Close, VerdictOf;
    assert (p + [w])[..|p|] == p;
    var vs := Verdicts(cfg, t, p) + [VerdictOf(cfg, After(cfg, t, p), w)];
    assert vs[..|p|] == Verdicts(cfg, t, p);
  }

  lemma LastSeed(cfg: Config, t: Target, p: seq<Window>, w: Window)
    requires 0.0 < cfg.entropyKFallback
    ensures var s := After(cfg, t, p);
            var v := VerdictOf(cfg, s, w);
            SeedAt(cfg, t, p + [w], |p|) == LearnedRate(cfg, s, v.r, !v.natural).mean
  {
    hide VerdictOf, LearnedRate;
    assert (p + [w])[..|p|] == p;
  }

  lemma SeedSame(cfg: Config, t: Target, p: seq<Window>, w: Window, i: nat)
    requires 0.0 < cfg.entropyKFallback && i < |p|
    ensures SeedAt(cfg, t, p + [w], i) == SeedAt(cfg, t, p, i)
  {
    hide VerdictOf, LearnedRate;
    assert (p + [w])[..i] == p[..i];
  }

  /** The seeding window is the first drag. */
  lemma SeedLimited(cfg: Config, t: Target, w: Window, lo: real, hi: real)
    requires ValidConfig(cfg) && cfg.peacetimeWeight <= 1.0
    requires Warm(t) && t.rateRef.None? && 0.0 <= t.rate.mean && VerdictOf(cfg, t, w).clean
    requires 0.0 <= lo <= SmoothedRate(cfg, t, w) <= hi
    ensures var v := VerdictOf(cfg, t, w);
            Limited(cfg, Close(cfg, t, w), 1, lo, hi, LearnedRate(cfg, t, v.r, !v.natural).mean)
  {
    hide Close, VerdictOf, SmoothedRate, RefStep, Dragged, LearnedRate;
    CloseEwma(cfg, t, w);
    SeedStep(cfg, t, w);
    var v := VerdictOf(cfg, t, w);
    var seed := LearnedRate(cfg, t, v.r, !v.natural).mean;
    DragStep(cfg.peacetimeWeight, 0, lo, seed);
    DragStep(cfg.peacetimeWeight, 0, hi, seed);
    LimitStep(cfg.peacetimeWeight, 0, lo, hi, seed, v.r, Some(seed));
  }

  lemma {:induction false} NoCleans(vs: seq<Verdict>)
    requires Cleans(vs) == 0
    ensures forall i :: 0 <= i < |vs| ==> !vs[i].clean
  {
    if vs != [] {
      NoCleans(vs[..|vs| - 1]);
    }
  }

  lemma DragGrows(weight: real, d: nat, e: nat, b: real, start: real)
    requires 0.0 < weight <= 1.0 && d <= e && start <= b
    ensures Dragged(weight, d, b, start) <= Dragged(weight, e, b, start)
  {
    PowAntitone(1.0 - weight, d, e);
    var g := b - start;
    MulMono(g, Pow(1.0 - weight, e), Pow(1.0 - weight, d));
  }

  lemma {:induction false} CleansAreEscapes(vs: seq<Verdict>)
    requires forall i :: 0 <= i < |vs| ==> !vs[i].natural && !vs[i].warmup
    ensures Cleans(vs) == Escapes(vs)
  {
    if vs != [] {
      CleansAreEscapes(vs[..|vs| - 1]);
    }
  }

  lemma NoWarmup(cfg: Config, t: Target, ws: seq<Window>, i: nat)
    requires 0.0 < cfg.entropyKFallback && Warm(t) && i < |ws|
    ensures !Verdicts(cfg, t, ws)[i].warmup
  {
    hide Close, VerdictOf, After, Verdicts;
    VerdictsPrefix(cfg, t, ws, i);
    StaysWarm(cfg, t, ws[..i]);
    StepShape(cfg, After(cfg, t, ws[..i]), ws[i]);
  }

  /**
   A sustained flood.  If not one of T windows is clean on its own, the only samples learned
   are freeze escapes, so the reference moves by at most T / (cap + 1) drags towards the
   flood's own rate, and the mean, where it is held to the reference, to one and a half times that.
   */
  lemma FloodLimit(cfg: Config, t: Target, ws: seq<Window>, lo: real, hi: real)
    requires ValidConfig(cfg) && cfg.peacetimeWeight <= 1.0
    requires Warm(t) && t.rateRef.Some? && t.rateRef.value <= hi && InBand(t) && t.frozen == 0
    requires 0.0 <= lo && RatesWithin(Verdicts(cfg, t, ws), lo, hi)
    requires forall i :: 0 <= i < |ws| ==> !Verdicts(cfg, t, ws)[i].natural
    ensures var limit := Dragged(cfg.peacetimeWeight, |ws| / (cfg.maxFreeze + 1), hi, t.rateRef.value);
            var u := After(cfg, t, ws);
            u.rateRef.Some? && u.rateRef.value <= limit && (Banded(cfg, lo) ==> u.rate.mean <= 1.5 * limit)
  {
    hide Verdicts, After, Dragged;
    var vs := Verdicts(cfg, t, ws);
    PoisoningLimit(cfg, t, ws, lo, hi);
    forall i | 0 <= i < |vs|
      ensures !vs[i].natural && !vs[i].warmup
    {
      NoWarmup(cfg, t, ws, i);
    }
    CleansAreEscapes(vs);
    EscapesBounded(cfg, t, ws);
    DragGrows(cfg.peacetimeWeight, Cleans(vs), |ws| / (cfg.maxFreeze + 1), hi, t.rateRef.value);
  }
}
