/**
 One protected host's baseline and the step that closes a window on it.

 `Close` is the window-close pipeline of the analysis thread as a function of the
 target's state and what the window observed.  `TargetState` is the same pipeline
 updating its accumulators in place, proved to compute `Close`.  What holds over whole
 runs of windows is in `BaselineRuns`.
 */
module Baseline {
  import opened Arith
  import opened Options
  import opened Welford

  /** Tuning in force.  `root` is the square root used for standard deviations. */
  datatype Config = Config(
    k: real,
    alpha: real,
    entropySigmaFloor: real,
    entropySigmaCeiling: real,
    rateSigmaFloor: real,
    rateSigmaFloorRatio: real,
    distributedDominance: real,
    entropyMinPackets: nat,
    emergencySigma: real,
    entropyKFallback: real,
    rateCeilingRatio: real,
    rateCeilingFloor: real,
    outlierSigma: real,
    rateMeanCap: real,
    cooldownWindows: nat,
    cooldownKFactor: real,
    peacetimeWeight: real,
    maxFreeze: nat,
    root: real -> real)

  /**
   The settings a window close can run with.  The command line asks for positive values of the options named here and
   the smoothing state asserts its weight; an entropy floor above the ceiling is only warned about and makes the
   clamp panic.
   */
  ghost predicate ValidConfig(cfg: Config) {
    && 0.0 < cfg.alpha < 1.0
    && cfg.entropySigmaFloor <= cfg.entropySigmaCeiling
    && 0.0 < cfg.rateCeilingFloor
    && 0.0 < cfg.entropyKFallback
    && 0.0 < cfg.peacetimeWeight
    && IsRoot(cfg.root)
  }

  ghost predicate IsRoot(root: real -> real) {
    forall v :: 0.0 <= v ==> 0.0 <= root(v) && root(v) * root(v) == v
  }

  /** What one window observed; everything else is carried in the target. */
  datatype Window = Window(rate: real, h: real, packets: nat, dominance: real)

  datatype Target = Target(
    ewma: real,
    rate: Moments,
    entropy: Moments,
    rateRef: Option<real>,
    entropyRef: Option<real>,
    cooldown: nat,
    frozen: nat)

  /** What is written to disk for one target: everything but the freeze counter. */
  datatype PersistedBaseline = PersistedBaseline(
    rate: Moments,
    entropy: Moments,
    ewma: real,
    cooldown: nat,
    rateRef: Option<real>,
    entropyRef: Option<real>)

  function ToPersisted(t: Target): PersistedBaseline {
    PersistedBaseline(t.rate, t.entropy, t.ewma, t.cooldown, t.rateRef, t.entropyRef)
  }

  /** A target built at first sight of its address, from a saved baseline when there is one. */
  function Restored(p: Option<PersistedBaseline>): Target {
    match p
    case None => FRESH
    case Some(b) => Target(b.ewma, b.rate, b.entropy, b.rateRef, b.entropyRef, b.cooldown, 0)
  }

  const FRESH := Target(0.0, EMPTY, EMPTY, None, None, 0, 0)

  /** What closing a window decided.  `natural` is clean on its own merits, `clean` also counts a freeze escape. */
  datatype Verdict = Verdict(
    warmup: bool,
    r: real,
    rateFlag: bool,
    entropyFlag: bool,
    realRate: bool,
    realEntropy: bool,
    natural: bool,
    clean: bool)
  {
    predicate RealAnomaly() {
      realRate || realEntropy
    }

    predicate Escaped() {
      clean && !natural && !warmup
    }

    /** Windows that feed the accumulators. */
    predicate Learns() {
      warmup || clean
    }
  }

  function Abs(a: real): real {
    if a < 0.0 then -a else a
  }

  function Clamp(x: real, lo: real, hi: real): real {
    if x < lo then lo else if x > hi then hi else x
  }

  // ----- smoothed rate -----

  /** Asymmetric decay: a cliff drop outside cooldown flushes, a fall or a cooldown recovers, else the configured weight. */
  function ActiveAlpha(cfg: Config, ewma: real, cooldown: nat, rate: real): real {
    if rate < 0.1 * ewma && cooldown == 0 then Max(0.8, cfg.alpha)
    else if rate < ewma || cooldown > 0 then Max(0.5, cfg.alpha)
    else cfg.alpha
  }

  function Smoothed(alpha: real, rate: real, ewma: real): real {
    alpha * rate + (1.0 - alpha) * ewma
  }

  // ----- boundaries -----

  function RateSigmaFloor(cfg: Config, mean: real): real {
    ProductAtLeast(cfg.rateSigmaFloorRatio, mean, cfg.rateSigmaFloor)
  }

  function RateSigmaCeiling(cfg: Config, mean: real): real {
    ProductAtLeast(cfg.rateCeilingRatio, mean, cfg.rateCeilingFloor)
  }

  /** The rate deviation in force: floored, then capped; the cap wins when the two cross. */
  function SigmaR(cfg: Config, rate: Moments): real {
    MinReal(Max(StdDev(rate, cfg.root), RateSigmaFloor(cfg, rate.mean)), RateSigmaCeiling(cfg, rate.mean))
  }

  function SigmaH(cfg: Config, entropy: Moments): real {
    Clamp(StdDev(entropy, cfg.root), cfg.entropySigmaFloor, cfg.entropySigmaCeiling)
  }

  function CooldownK(cfg: Config): real {
    ProductAtLeast(cfg.k, cfg.cooldownKFactor, 1.0)
  }

  function BaseK(cfg: Config, cooldown: nat): real {
    if cooldown > 0 then CooldownK(cfg) else cfg.k
  }

  /** Entropy-guided scaling of k, bypassed by a rate past the emergency volume. */
  function ScaledRateK(cfg: Config, baseK: real, r: real, mean: real, sigma: real, h: real, meanH: real): real
    requires 0.0 < cfg.entropyKFallback
  {
    if r > mean + cfg.emergencySigma * sigma then baseK
    else
      var divisor := if meanH > 0.0 then meanH else cfg.entropyKFallback;
      baseK * Max(h / divisor, 1.0)
  }

  function RateBoundary(cfg: Config, baseK: real, t: Target, r: real, h: real): real
    requires 0.0 < cfg.entropyKFallback
  {
    var sigma := SigmaR(cfg, t.rate);
    t.rate.mean + ScaledRateK(cfg, baseK, r, t.rate.mean, sigma, h, t.entropy.mean) * sigma
  }

  function EntropyBoundary(cfg: Config, baseK: real, t: Target): real {
    t.entropy.mean - baseK * SigmaH(cfg, t.entropy)
  }

  predicate EntropyAnomalyFires(h: real, boundary: real, packets: nat, minPackets: nat) {
    packets >= minPackets && h < boundary
  }

  predicate WindowIsClean(rateFlag: bool, entropyFlag: bool, cooldown: nat, dominance: real,
                          distributedDominance: real, r: real, ceiling: real)
  {
    if cooldown > 0 then false
    else if !rateFlag && !entropyFlag then true
    else !rateFlag && entropyFlag && dominance < distributedDominance && r <= ceiling
  }

  /** The freeze counter and whether the window counts as clean after all. */
  function ApplyFreezeEscape(natural: bool, frozen: nat, cap: nat): (nat, bool) {
    if natural then (0, true)
    else if frozen + 1 > cap then (0, true)
    else (frozen + 1, false)
  }

  /** Everything decided about a post warm-up window whose smoothed rate is r. */
  function Judge(cfg: Config, t: Target, r: real, w: Window): Verdict
    requires 0.0 < cfg.entropyKFallback
  {
    var baseK := BaseK(cfg, t.cooldown);
    var rateFlag := r > RateBoundary(cfg, baseK, t, r, w.h);
    var entropyFlag := EntropyAnomalyFires(w.h, EntropyBoundary(cfg, baseK, t), w.packets, cfg.entropyMinPackets);
    var natural := WindowIsClean(rateFlag, entropyFlag, t.cooldown, w.dominance, cfg.distributedDominance,
                                 r, t.rate.mean + SigmaR(cfg, t.rate));
    Verdict(false, r, rateFlag, entropyFlag,
            r > RateBoundary(cfg, cfg.k, t, r, w.h),
            w.h < EntropyBoundary(cfg, cfg.k, t),
            natural, ApplyFreezeEscape(natural, t.frozen, cfg.maxFreeze).1)
  }

  // ----- learning -----

  predicate IsOutlier(escaped: bool, x: real, mean: real, sigma: real, outlierSigma: real) {
    !escaped && sigma > 0.0 && Abs(x - mean) > outlierSigma * sigma
  }

  /** More than half away from a positive reference. */
  predicate HasDrifted(mean: real, reference: real) {
    reference > 0.0 && Abs(mean - reference) / reference > 0.50
  }

  /** One step of a slow average, seeded from the mean it will be compared against. */
  function RefStep(weight: real, x: real, reference: Option<real>, seed: real): real {
    var base := if reference.Some? then reference.value else seed;
    weight * x + (1.0 - weight) * base
  }

  function LearnedRate(cfg: Config, t: Target, r: real, escaped: bool): Moments {
    if !IsOutlier(escaped, r, t.rate.mean, SigmaR(cfg, t.rate), cfg.outlierSigma) && t.rate.mean < cfg.rateMeanCap
    then Updated(t.rate, r, MAX_N) else t.rate
  }

  function LearnedEntropy(cfg: Config, t: Target, h: real, escaped: bool): Moments {
    if !IsOutlier(escaped, h, t.entropy.mean, SigmaH(cfg, t.entropy), cfg.outlierSigma)
    then Updated(t.entropy, h, MAX_N) else t.entropy
  }

  function Reverted(m: Moments, reference: real): Moments {
    if HasDrifted(m.mean, reference) then m.(mean := reference) else m
  }

  /** A clean window feeds the accumulators and the slow references, then reverts a drifted rate mean. */
  function Learn(cfg: Config, t: Target, r: real, h: real, escaped: bool): Target {
    var rate := LearnedRate(cfg, t, r, escaped);
    var entropy := LearnedEntropy(cfg, t, h, escaped);
    var rateRef := RefStep(cfg.peacetimeWeight, r, t.rateRef, rate.mean);
    var entropyRef := RefStep(cfg.peacetimeWeight, h, t.entropyRef, entropy.mean);
    t.(rate := Reverted(rate, rateRef), entropy := entropy, rateRef := Some(rateRef), entropyRef := Some(entropyRef))
  }

  /** A real anomaly restarts the cooldown, otherwise it counts down. */
  function CooldownStep(real_: bool, cooldown: nat, windows: nat): nat {
    if real_ then windows else if cooldown > 0 then cooldown - 1 else 0
  }

  // ----- the window close -----

  predicate Warm(t: Target) {
    IsWarm(t.rate) && IsWarm(t.entropy)
  }

  function SmoothedRate(cfg: Config, t: Target, w: Window): real {
    Smoothed(ActiveAlpha(cfg, t.ewma, t.cooldown, w.rate), w.rate, t.ewma)
  }

  function VerdictOf(cfg: Config, t: Target, w: Window): Verdict
    requires 0.0 < cfg.entropyKFallback
  {
    var r := SmoothedRate(cfg, t, w);
    if !Warm(t) then Verdict(true, r, false, false, false, false, false, false)
    else Judge(cfg, t, r, w)
  }

  function Close(cfg: Config, t: Target, w: Window): Target
    requires 0.0 < cfg.entropyKFallback
  {
    var r := SmoothedRate(cfg, t, w);
    var s := t.(ewma := r);
    if !Warm(t) then
      s.(rate := Updated(t.rate, r, MAX_N), entropy := Updated(t.entropy, w.h, MAX_N))
    else
      var v := Judge(cfg, t, r, w);
      var u := if v.clean then Learn(cfg, s, r, w.h, !v.natural) else s;
      u.(frozen := ApplyFreezeEscape(v.natural, t.frozen, cfg.maxFreeze).0,
         cooldown := CooldownStep(v.RealAnomaly(), t.cooldown, cfg.cooldownWindows))
  }

  /** The smoothed rate estimate, a single number overwritten at every window close. */
  class EwmaState {
    var value: real

    constructor ()
      ensures value == 0.0
    {
      value := 0.0;
    }

    method UpdateRateWithAlpha(rate: real, alpha: real)
      modifies this
      ensures value == Smoothed(alpha, rate, old(value))
    {
      value := alpha * rate + (1.0 - alpha) * value;
    }

    method SetValue(v: real)
      modifies this
      ensures value == v
    {
      value := v;
    }
  }

  /** The target as the analysis thread holds it: accumulators owned and updated in place. */
  class TargetState {
    const ewma: EwmaState
    const rate: WelfordAccumulator
    const entropy: WelfordAccumulator
    var rateRef: Option<real>
    var entropyRef: Option<real>
    var cooldown: nat
    var frozen: nat

    ghost predicate Valid()
      reads this, rate, entropy
    {
      && rate != entropy
      && rate.Valid() && entropy.Valid()
      && rate.maxN == entropy.maxN == MAX_N
    }

    ghost function View(): Target
      reads this, ewma, rate, entropy
    {
      Target(ewma.value, rate.State(), entropy.State(), rateRef, entropyRef, cooldown, frozen)
    }

    constructor (persisted: Option<PersistedBaseline>)
      ensures Valid() && View() == Restored(persisted)
      ensures fresh(ewma) && fresh(rate) && fresh(entropy)
    {
      var e := new EwmaState();
      var r := new WelfordAccumulator(MAX_N);
      var h := new WelfordAccumulator(MAX_N);
      rateRef, entropyRef, cooldown, frozen := None, None, 0, 0;
      if persisted.Some? {
        var p := persisted.value;
        r.n, r.mean, r.m2 := p.rate.n, p.rate.mean, p.rate.m2;
        h.n, h.mean, h.m2 := p.entropy.n, p.entropy.mean, p.entropy.m2;
        e.SetValue(p.ewma);
        cooldown, rateRef, entropyRef := p.cooldown, p.rateRef, p.entropyRef;
      }
      ewma, rate, entropy := e, r, h;
    }

    /** The snapshot taken of this target when any target closes a clean window. */
    method Snapshot() returns (p: PersistedBaseline)
      ensures p == ToPersisted(View())
    {
      p := PersistedBaseline(rate.State(), entropy.State(), ewma.value, cooldown, rateRef, entropyRef);
    }

    /** One window close. */
    method CloseWindow(cfg: Config, w: Window) returns (v: Verdict)
      requires Valid() && 0.0 < cfg.entropyKFallback
      modifies this, ewma, rate, entropy
      ensures Valid()
      ensures v == VerdictOf(cfg, old(View()), w)
      ensures View() == Close(cfg, old(View()), w)
    {
      hide Judge, Updated, SigmaR, SigmaH, IsOutlier, HasDrifted, ActiveAlpha, Smoothed;
      ghost var t := View();
      var alpha := ActiveAlpha(cfg, ewma.value, cooldown, w.rate);
      ewma.UpdateRateWithAlpha(w.rate, alpha);
      var r := ewma.value;

      if rate.n < WARMUP_WINDOWS || entropy.n < WARMUP_WINDOWS {
        rate.Update(r);
        entropy.Update(w.h);
        return Verdict(true, r, false, false, false, false, false, false);
      }

      var before := Target(r, rate.State(), entropy.State(), rateRef, entropyRef, cooldown, frozen);
      assert before == t.(ewma := r);
      v := Judge(cfg, before, r, w);
      JudgeIgnoresEwma(cfg, t, r, w);
      frozen := ApplyFreezeEscape(v.natural, frozen, cfg.maxFreeze).0;
      if v.clean {
        Absorb(cfg, r, w.h, !v.natural);
      }
      if v.RealAnomaly() {
        cooldown := cfg.cooldownWindows;
      } else if cooldown > 0 {
        cooldown := cooldown - 1;
      }
    }

    /** The learning half of a clean window. */
    method Absorb(cfg: Config, r: real, h: real, escaped: bool)
      requires Valid()
      modifies this`rateRef, this`entropyRef, rate, entropy
      ensures Valid()
      ensures View() == Learn(cfg, old(View()), r, h, escaped)
    {
      hide Updated, SigmaR, SigmaH, IsOutlier, HasDrifted;
      var sigmaR := SigmaR(cfg, rate.State());
      var sigmaH := SigmaH(cfg, entropy.State());
      if !IsOutlier(escaped, r, rate.mean, sigmaR, cfg.outlierSigma) && rate.mean < cfg.rateMeanCap {
        rate.Update(r);
      }
      if !IsOutlier(escaped, h, entropy.mean, sigmaH, cfg.outlierSigma) {
        entropy.Update(h);
      }
      var weight := cfg.peacetimeWeight;
      var reference := RefStep(weight, r, rateRef, rate.mean);
      rateRef := Some(reference);
      entropyRef := Some(RefStep(weight, h, entropyRef, entropy.mean));
      if HasDrifted(rate.mean, reference) {
        rate.mean := reference;
      }
    }
  }

  lemma JudgeIgnoresEwma(cfg: Config, t: Target, r: real, w: Window)
    requires 0.0 < cfg.entropyKFallback
    ensures Judge(cfg, t.(ewma := r), r, w) == Judge(cfg, t, r, w)
  {
    hide SigmaR, SigmaH, ScaledRateK;
  }
}
