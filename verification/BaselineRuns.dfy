/**
 What every run of windows keeps, whatever the windows contain: the freeze is bounded, the
 cooldown looks back exactly as far as configured, and a real anomaly raises its flag.
 */
module BaselineRuns {
  import opened Options
  import opened Arith
  import opened Welford
  import opened Baseline

  /** The target after a list of windows. */
  ghost function After(cfg: Config, t: Target, ws: seq<Window>): Target
    requires 0.0 < cfg.entropyKFallback
  {
    if ws == [] then t else Close(cfg, After(cfg, t, ws[..|ws| - 1]), ws[|ws| - 1])
  }

  /** The verdict of each window of the run, in order. */
  ghost function Verdicts(cfg: Config, t: Target, ws: seq<Window>): (vs: seq<Verdict>)
    requires 0.0 < cfg.entropyKFallback
    ensures |vs| == |ws|
  {
    if ws == [] then []
    else Verdicts(cfg, t, ws[..|ws| - 1]) + [VerdictOf(cfg, After(cfg, t, ws[..|ws| - 1]), ws[|ws| - 1])]
  }

  lemma {:induction false} VerdictsPrefix(cfg: Config, t: Target, ws: seq<Window>, i: nat)
    requires 0.0 < cfg.entropyKFallback && i <= |ws|
    ensures Verdicts(cfg, t, ws)[..i] == Verdicts(cfg, t, ws[..i])
    ensures i < |ws| ==> Verdicts(cfg, t, ws)[i] == VerdictOf(cfg, After(cfg, t, ws[..i]), ws[i])
  {
    hide VerdictOf, Close;
    if i < |ws| {
      var p := ws[..|ws| - 1];
      VerdictsPrefix(cfg, t, p, i);
      assert p[..i] == ws[..i];
    } else {
      assert ws[..i] == ws;
    }
  }

  /** Running a window and then the rest. */
  lemma {:induction false} AfterHead(cfg: Config, t: Target, w: Window, ws: seq<Window>)
    requires 0.0 < cfg.entropyKFallback
    ensures After(cfg, t, [w] + ws) == After(cfg, Close(cfg, t, w), ws)
    ensures Verdicts(cfg, t, [w] + ws) == [VerdictOf(cfg, t, w)] + Verdicts(cfg, Close(cfg, t, w), ws)
  {
    hide VerdictOf, Close;
    var all := [w] + ws;
    if ws == [] {
      assert all[..0] == [];
    } else {
      var p := ws[..|ws| - 1];
      AfterHead(cfg, t, w, p);
      assert all[..|all| - 1] == [w] + p;
    }
  }

  // ----- one step -----

  // A target is past warm-up when `Warm`; a restored one may carry any sample counts, cooldown and references.

  lemma AlphaInUnit(cfg: Config, ewma: real, cooldown: nat, rate: real)
    requires ValidConfig(cfg)
    ensures cfg.alpha <= ActiveAlpha(cfg, ewma, cooldown, rate) < 1.0
  {
  }

  lemma JudgeShape(cfg: Config, t: Target, r: real, w: Window)
    requires 0.0 < cfg.entropyKFallback
    ensures var v := Judge(cfg, t, r, w);
            && !v.warmup && v.r == r
            && v.clean == ApplyFreezeEscape(v.natural, t.frozen, cfg.maxFreeze).1
            && (v.natural ==> t.cooldown == 0 && !v.rateFlag)
  {
  }

  /** What one post warm-up close does to the counters, and that only a clean window touches the baseline. */
  lemma StepShape(cfg: Config, t: Target, w: Window)
    requires 0.0 < cfg.entropyKFallback && Warm(t)
    ensures var u, v := Close(cfg, t, w), VerdictOf(cfg, t, w);
            && Warm(u) && !v.warmup && u.ewma == v.r
            && (u.frozen, v.clean) == ApplyFreezeEscape(v.natural, t.frozen, cfg.maxFreeze)
            && u.cooldown == CooldownStep(v.RealAnomaly(), t.cooldown, cfg.cooldownWindows)
            && (v.natural ==> t.cooldown == 0 && !v.rateFlag)
            && (!v.clean ==> u.rate == t.rate && u.entropy == t.entropy && u.rateRef == t.rateRef && u.entropyRef == t.entropyRef)
  {
  }

  lemma {:induction false} StaysWarm(cfg: Config, t: Target, ws: seq<Window>)
    requires 0.0 < cfg.entropyKFallback && Warm(t)
    ensures Warm(After(cfg, t, ws))
  {
    hide Close;
    if ws != [] {
      StaysWarm(cfg, t, ws[..|ws| - 1]);
      StepShape(cfg, After(cfg, t, ws[..|ws| - 1]), ws[|ws| - 1]);
    }
  }

  // ----- bounded freeze -----

  /** How many of the latest windows in a row were not clean on their own merits. */
  ghost function Streak(vs: seq<Verdict>): nat {
    if vs == [] || vs[|vs| - 1].natural then 0 else 1 + Streak(vs[..|vs| - 1])
  }

  /**
   The freeze counter in closed form: the length of the current streak of windows that
   were not clean on their own, modulo cap + 1; and a window escapes exactly when that
   length is a positive multiple of cap + 1.
   */
  lemma {:induction false} FreezeIsStreak(cfg: Config, t: Target, ws: seq<Window>)
    requires 0.0 < cfg.entropyKFallback && Warm(t) && t.frozen == 0
    ensures var vs := Verdicts(cfg, t, ws);
            && After(cfg, t, ws).frozen == Streak(vs) % (cfg.maxFreeze + 1)
            && (ws != [] ==>
                  var v := vs[|vs| - 1];
                  v.clean <==> v.natural || Streak(vs) % (cfg.maxFreeze + 1) == 0)
  {
    hide Close, VerdictOf;
    if ws != [] {
      var p, w := ws[..|ws| - 1], ws[|ws| - 1];
      FreezeIsStreak(cfg, t, p);
      StaysWarm(cfg, t, p);
      StepShape(cfg, After(cfg, t, p), w);
      var vs := Verdicts(cfg, t, ws);
      assert vs[..|vs| - 1] == Verdicts(cfg, t, p);
      ModStep(Streak(Verdicts(cfg, t, p)), cfg.maxFreeze + 1);
    }
  }

  lemma {:induction false} StreakNotNatural(vs: seq<Verdict>, i: nat)
    requires |vs| - Streak(vs) <= i < |vs|
    ensures !vs[i].natural
  {
    if i < |vs| - 1 {
      StreakNotNatural(vs[..|vs| - 1], i);
    }
  }

  lemma {:induction false} FreezeBounded(cfg: Config, t: Target, ws: seq<Window>)
    requires 0.0 < cfg.entropyKFallback && Warm(t) && t.frozen <= cfg.maxFreeze
    ensures After(cfg, t, ws).frozen <= cfg.maxFreeze
  {
    hide Close, VerdictOf;
    if ws != [] {
      var p := ws[..|ws| - 1];
      FreezeBounded(cfg, t, p);
      StaysWarm(cfg, t, p);
      StepShape(cfg, After(cfg, t, p), ws[|ws| - 1]);
    }
  }

  /** While nothing is clean the counter counts every window. */
  lemma {:induction false} FreezeCounts(cfg: Config, t: Target, ws: seq<Window>, i: nat)
    requires 0.0 < cfg.entropyKFallback && Warm(t) && i <= |ws|
    requires forall k :: i <= k < |ws| ==> !Verdicts(cfg, t, ws)[k].clean
    ensures After(cfg, t, ws).frozen == After(cfg, t, ws[..i]).frozen + |ws| - i
  {
    hide Close, VerdictOf;
    if i == |ws| {
      assert ws[..i] == ws;
    } else {
      var p := ws[..|ws| - 1];
      var vs := Verdicts(cfg, t, ws);
      assert vs[..|p|] == Verdicts(cfg, t, p);
      forall k | i <= k < |p|
        ensures !Verdicts(cfg, t, p)[k].clean
      {
        assert Verdicts(cfg, t, p)[k] == vs[k];
      }
      FreezeCounts(cfg, t, p, i);
      assert p[..i] == ws[..i];
      StaysWarm(cfg, t, p);
      StepShape(cfg, After(cfg, t, p), ws[|ws| - 1]);
      assert !vs[|ws| - 1].clean;
    }
  }

  /** Any cap + 1 consecutive windows contain one that updates the baseline. */
  lemma FreezeEnds(cfg: Config, t: Target, ws: seq<Window>, i: nat)
    requires 0.0 < cfg.entropyKFallback && Warm(t) && t.frozen <= cfg.maxFreeze
    requires i + cfg.maxFreeze < |ws|
    ensures exists k :: i <= k <= i + cfg.maxFreeze && Verdicts(cfg, t, ws)[k].clean
  {
    hide Close, VerdictOf;
    var j := i + cfg.maxFreeze + 1;
    var vs, us := Verdicts(cfg, t, ws), ws[..j];
    VerdictsPrefix(cfg, t, ws, j);
    assert vs[..j] == Verdicts(cfg, t, us);
    if forall k :: i <= k < j ==> !vs[k].clean {
      forall k | i <= k < |us|
        ensures !Verdicts(cfg, t, us)[k].clean
      {
        assert Verdicts(cfg, t, us)[k] == vs[k];
      }
      FreezeCounts(cfg, t, us, i);
      FreezeBounded(cfg, t, us);
      assert false;
    }
  }

  ghost function Escapes(vs: seq<Verdict>): nat {
    if vs == [] then 0 else Escapes(vs[..|vs| - 1]) + if vs[|vs| - 1].Escaped() then 1 else 0
  }

  /** Escapes are paid for: each one uses up cap + 1 windows, counting the freeze in progress. */
  lemma {:induction false} EscapesPaidFor(cfg: Config, t: Target, ws: seq<Window>)
    requires 0.0 < cfg.entropyKFallback && Warm(t)
    ensures (cfg.maxFreeze + 1) * Escapes(Verdicts(cfg, t, ws)) + After(cfg, t, ws).frozen <= |ws| + t.frozen
  {
    hide Close, VerdictOf;
    if ws != [] {
      var p := ws[..|ws| - 1];
      EscapesPaidFor(cfg, t, p);
      StaysWarm(cfg, t, p);
      StepShape(cfg, After(cfg, t, p), ws[|ws| - 1]);
      var vs := Verdicts(cfg, t, ws);
      assert vs[..|vs| - 1] == Verdicts(cfg, t, p);
      PayOnce(cfg.maxFreeze + 1, Escapes(Verdicts(cfg, t, p)));
    }
  }

  lemma PayOnce(cost: nat, e: nat)
    ensures cost * (e + 1) == cost * e + cost
  {
  }

  /** So T windows hold at most T / (cap + 1) samples that were not clean on their own. */
  lemma EscapesBounded(cfg: Config, t: Target, ws: seq<Window>)
    requires 0.0 < cfg.entropyKFallback && Warm(t) && t.frozen == 0
    ensures Escapes(Verdicts(cfg, t, ws)) <= |ws| / (cfg.maxFreeze + 1)
  {
    hide Close, VerdictOf, Escapes, Verdicts, After;
    EscapesPaidFor(cfg, t, ws);
    DivBound(Escapes(Verdicts(cfg, t, ws)), cfg.maxFreeze + 1, |ws|);
  }

  ghost predicate NaturalWithin(vs: seq<Verdict>, i: nat, cap: nat) {
    exists k :: i <= k <= i + cap && k < |vs| && vs[k].natural
  }

  /** A run never escapes exactly when windows clean on their own keep recurring within the cap. */
  lemma NoEscapeIff(cfg: Config, t: Target, ws: seq<Window>)
    requires 0.0 < cfg.entropyKFallback && Warm(t) && t.frozen == 0
    ensures var vs := Verdicts(cfg, t, ws);
            (forall i :: 0 <= i < |vs| ==> !vs[i].Escaped()) <==>
            (forall i: nat :: i + cfg.maxFreeze < |vs| ==> NaturalWithin(vs, i, cfg.maxFreeze))
  {
    hide Close, VerdictOf, Verdicts, After;
    var vs := Verdicts(cfg, t, ws);
    forall i: nat | i + cfg.maxFreeze < |vs| && forall j :: 0 <= j < |vs| ==> !vs[j].Escaped()
      ensures NaturalWithin(vs, i, cfg.maxFreeze)
    {
      FreezeEnds(cfg, t, ws, i);
      var k :| i <= k <= i + cfg.maxFreeze && vs[k].clean;
      StaysWarm(cfg, t, ws[..k]);
      VerdictsPrefix(cfg, t, ws, k);
      StepShape(cfg, After(cfg, t, ws[..k]), ws[k]);
      assert !vs[k].Escaped();
    }
    forall j: nat | j < |vs| && vs[j].Escaped()
      ensures j >= cfg.maxFreeze && !NaturalWithin(vs, j - cfg.maxFreeze, cfg.maxFreeze)
    {
      EscapeNeedsStreak(cfg, t, ws, j);
    }
  }

  lemma EscapeNeedsStreak(cfg: Config, t: Target, ws: seq<Window>, j: nat)
    requires 0.0 < cfg.entropyKFallback && Warm(t) && t.frozen == 0
    requires j < |ws| && Verdicts(cfg, t, ws)[j].Escaped()
    ensures cfg.maxFreeze <= j
    ensures forall k :: j - cfg.maxFreeze <= k <= j ==> !Verdicts(cfg, t, ws)[k].natural
  {
    hide Close, VerdictOf, After;
    var vs, us := Verdicts(cfg, t, ws), ws[..j + 1];
    VerdictsPrefix(cfg, t, ws, j + 1);
    var ps := Verdicts(cfg, t, us);
    assert vs[..j + 1] == ps;
    assert ps[j] == vs[j];
    FreezeIsStreak(cfg, t, us);
    StreakLength(ps);
    var s, m := Streak(ps), cfg.maxFreeze + 1;
    assert s >= 1 && s % m == 0;
    assert s >= m by {
      if s < m {
        ModUnique(s, m, 0, s);
        assert false;
      }
    }
    forall k | j - cfg.maxFreeze <= k <= j
      ensures !vs[k].natural
    {
      StreakNotNatural(ps, k);
      assert ps[k] == vs[k];
    }
  }

  lemma StreakLength(vs: seq<Verdict>)
    ensures Streak(vs) <= |vs|
  {
  }

  // ----- cooldown look-back -----

  /** Windows since the last real anomaly, if the run had one. */
  ghost function SinceAnomaly(vs: seq<Verdict>): Option<nat> {
    if vs == [] then None
    else if vs[|vs| - 1].RealAnomaly() then Some(0)
    else match SinceAnomaly(vs[..|vs| - 1])
      case None => None
      case Some(q) => Some(q + 1)
  }

  ghost function CooldownLeft(since: Option<nat>, windows: nat): nat {
    if since.Some? && since.value < windows then windows - since.value else 0
  }

  /** What is left after n windows: counted from the last real anomaly, or from the start if there was none. */
  ghost function CooldownAfter(since: Option<nat>, windows: nat, start: nat, n: nat): nat {
    if since.Some? then CooldownLeft(since, windows) else if start > n then start - n else 0
  }

  /**
   The cooldown in closed form, from any starting value.  A start within the configured length never
   outlasts an anomaly, so then it is the larger of what the anomaly and what the start leaves.
   */
  lemma {:induction false} CooldownIsLookBack(cfg: Config, t: Target, ws: seq<Window>)
    requires 0.0 < cfg.entropyKFallback && Warm(t)
    ensures var since := SinceAnomaly(Verdicts(cfg, t, ws));
            && After(cfg, t, ws).cooldown == CooldownAfter(since, cfg.cooldownWindows, t.cooldown, |ws|)
            && (since.Some? ==> since.value < |ws|)
            && (t.cooldown <= cfg.cooldownWindows ==>
                  var a, b := CooldownLeft(since, cfg.cooldownWindows), t.cooldown - |ws|;
                  After(cfg, t, ws).cooldown == if a >= b then a else b)
  {
    hide Close, VerdictOf;
    if ws != [] {
      var p := ws[..|ws| - 1];
      CooldownIsLookBack(cfg, t, p);
      StaysWarm(cfg, t, p);
      StepShape(cfg, After(cfg, t, p), ws[|ws| - 1]);
      var vs := Verdicts(cfg, t, ws);
      assert vs[..|vs| - 1] == Verdicts(cfg, t, p);
    }
  }

  ghost predicate QuietFor(vs: seq<Verdict>, windows: nat) {
    forall j :: |vs| - windows <= j < |vs| && 0 <= j ==> !vs[j].RealAnomaly()
  }

  lemma {:induction false} SinceMeansQuiet(vs: seq<Verdict>, windows: nat)
    ensures CooldownLeft(SinceAnomaly(vs), windows) == 0 <==> QuietFor(vs, windows)
  {
    if vs != [] && windows > 0 && !vs[|vs| - 1].RealAnomaly() {
      var p := vs[..|vs| - 1];
      SinceMeansQuiet(p, windows - 1);
      assert QuietFor(vs, windows) ==> QuietFor(p, windows - 1) by {
        assert forall j :: 0 <= j < |p| ==> p[j] == vs[j];
      }
    } else if vs != [] && windows > 0 {
      assert vs[|vs| - 1].RealAnomaly();
    }
  }

  lemma {:induction false} NoAnomalyAtAll(vs: seq<Verdict>)
    ensures SinceAnomaly(vs).None? <==> forall i :: 0 <= i < |vs| ==> !vs[i].RealAnomaly()
  {
    if vs != [] {
      var p := vs[..|vs| - 1];
      NoAnomalyAtAll(p);
      assert forall i :: 0 <= i < |p| ==> p[i] == vs[i];
      if vs[|vs| - 1].RealAnomaly() {
        assert !(forall i :: 0 <= i < |vs| ==> !vs[i].RealAnomaly());
      }
    }
  }

  /**
   The cooldown is over exactly when the last `cooldownWindows` windows held no real anomaly and, in a
   run without any, the starting cooldown has been counted down.
   */
  lemma CooldownOverIff(cfg: Config, t: Target, ws: seq<Window>)
    requires 0.0 < cfg.entropyKFallback && Warm(t)
    ensures var vs := Verdicts(cfg, t, ws);
            After(cfg, t, ws).cooldown == 0 <==>
              QuietFor(vs, cfg.cooldownWindows)
              && ((forall i :: 0 <= i < |vs| ==> !vs[i].RealAnomaly()) ==> t.cooldown <= |ws|)
  {
    hide After, Verdicts;
    CooldownIsLookBack(cfg, t, ws);
    SinceMeansQuiet(Verdicts(cfg, t, ws), cfg.cooldownWindows);
    NoAnomalyAtAll(Verdicts(cfg, t, ws));
  }

  /** A window that is clean on its own has no rate flag and no real anomaly in the look-back before it. */
  lemma NaturalMeansQuiet(cfg: Config, t: Target, ws: seq<Window>, i: nat)
    requires 0.0 < cfg.entropyKFallback && Warm(t)
    requires i < |ws| && Verdicts(cfg, t, ws)[i].natural
    ensures !Verdicts(cfg, t, ws)[i].rateFlag
    ensures QuietFor(Verdicts(cfg, t, ws)[..i], cfg.cooldownWindows)
  {
    hide After, Verdicts, Close, VerdictOf;
    VerdictsPrefix(cfg, t, ws, i);
    StaysWarm(cfg, t, ws[..i]);
    StepShape(cfg, After(cfg, t, ws[..i]), ws[i]);
    CooldownOverIff(cfg, t, ws[..i]);
  }

  /** When a post warm-up window is clean on its own: outside cooldown, and calm or spread out at an ordinary rate. */
  lemma NaturalIff(cfg: Config, t: Target, w: Window)
    requires 0.0 < cfg.entropyKFallback && Warm(t)
    ensures var v := VerdictOf(cfg, t, w);
            v.natural <==>
              t.cooldown == 0 && !v.rateFlag &&
              (v.entropyFlag ==> w.dominance < cfg.distributedDominance && v.r <= t.rate.mean + SigmaR(cfg, t.rate))
  {
    hide SigmaR, RateBoundary, EntropyBoundary, SmoothedRate;
  }

  // ----- flags and real anomalies -----

  /** The deviations in force neither collapse nor grow without limit. */
  lemma SigmasBounded(cfg: Config, rate: Moments, entropy: Moments)
    requires ValidConfig(cfg) && 0.0 < cfg.rateSigmaFloor
    ensures var ceiling := RateSigmaCeiling(cfg, rate.mean);
            0.0 < MinReal(RateSigmaFloor(cfg, rate.mean), ceiling) <= SigmaR(cfg, rate) <= ceiling
    ensures cfg.entropySigmaFloor <= SigmaH(cfg, entropy) <= cfg.entropySigmaCeiling
  {
    hide StdDev;
  }

  lemma SigmaRNonNeg(cfg: Config, m: Moments)
    requires ValidConfig(cfg)
    ensures 0.0 <= SigmaR(cfg, m)
  {
  }

  lemma ScaledKMonotone(cfg: Config, r: real, mean: real, sigma: real, h: real, meanH: real, a: real, b: real)
    requires 0.0 < cfg.entropyKFallback && a <= b
    ensures ScaledRateK(cfg, a, r, mean, sigma, h, meanH) <= ScaledRateK(cfg, b, r, mean, sigma, h, meanH)
  {
  }

  lemma RateBoundaryMono(cfg: Config, t: Target, r: real, h: real, a: real, b: real)
    requires ValidConfig(cfg) && a <= b
    ensures RateBoundary(cfg, a, t, r, h) <= RateBoundary(cfg, b, t, r, h)
  {
    hide SigmaR, ScaledRateK;
    var sigma := SigmaR(cfg, t.rate);
    SigmaRNonNeg(cfg, t.rate);
    ScaledKMonotone(cfg, r, t.rate.mean, sigma, h, t.entropy.mean, a, b);
    var x := ScaledRateK(cfg, a, r, t.rate.mean, sigma, h, t.entropy.mean);
    var y := ScaledRateK(cfg, b, r, t.rate.mean, sigma, h, t.entropy.mean);
    MulMono(sigma, x, y);
  }

  ghost predicate Gentle(cfg: Config) {
    cfg.k >= 1.0 && cfg.cooldownKFactor <= 1.0
  }

  lemma GentleBaseK(cfg: Config, cooldown: nat)
    requires Gentle(cfg)
    ensures BaseK(cfg, cooldown) <= cfg.k
  {
  }

  /** With k at least 1 and a cooldown factor at most 1, a real rate anomaly is always flagged and never clean on its own. */
  lemma RealRateIsFlagged(cfg: Config, t: Target, w: Window)
    requires ValidConfig(cfg) && Gentle(cfg) && Warm(t)
    ensures var v := VerdictOf(cfg, t, w);
            v.realRate ==> v.rateFlag && !v.natural
  {
    hide RateBoundary, EntropyBoundary, SigmaR, SmoothedRate;
    GentleBaseK(cfg, t.cooldown);
    RateBoundaryMono(cfg, t, SmoothedRate(cfg, t, w), w.h, BaseK(cfg, t.cooldown), cfg.k);
  }

  /** Outside that range some target and window show a real rate anomaly that raises no flag. */
  lemma RealRateCanBeMissed(cfg: Config) returns (t: Target, w: Window)
    requires ValidConfig(cfg) && !Gentle(cfg)
    requires 0.0 < cfg.rateSigmaFloor
    ensures Warm(t) && VerdictOf(cfg, t, w).realRate && !VerdictOf(cfg, t, w).rateFlag
  {
    hide RateBoundary, SigmaR, SmoothedRate, ActiveAlpha, BaseK, EntropyBoundary;
    var m := Moments(WARMUP_WINDOWS, 0.0, 0.0);
    var baseK := BaseK(cfg, 1);
    var r := baseK * SigmaR(cfg, m);
    t := Target(r, m, m, None, None, 1, 0);
    w := Window(r, 0.0, 0, 0.0);
    SteadySmoothing(cfg, t, w);
    MissedBoundary(cfg, t, r, baseK);
    MissedBoundary(cfg, t, r, cfg.k);
    SigmaRPositive(cfg, m);
    MissedBaseK(cfg);
    StrictMul(SigmaR(cfg, m), cfg.k, baseK);
  }

  lemma SteadySmoothing(cfg: Config, t: Target, w: Window)
    requires t.ewma == w.rate
    ensures SmoothedRate(cfg, t, w) == w.rate
  {
  }

  lemma StrictMul(s: real, a: real, b: real)
    requires 0.0 < s && a < b
    ensures a * s < b * s
  {
  }

  lemma SigmaRPositive(cfg: Config, m: Moments)
    requires ValidConfig(cfg) && 0.0 < cfg.rateSigmaFloor
    ensures 0.0 < SigmaR(cfg, m)
  {
  }

  lemma MissedBaseK(cfg: Config)
    requires !Gentle(cfg)
    ensures cfg.k < BaseK(cfg, 1)
  {
  }

  lemma MissedBoundary(cfg: Config, t: Target, r: real, baseK: real)
    requires 0.0 < cfg.entropyKFallback && t.rate.mean == 0.0 && t.entropy.mean == 0.0
    ensures RateBoundary(cfg, baseK, t, r, 0.0) == baseK * SigmaR(cfg, t.rate)
  {
  }

  /** With those settings a real entropy anomaly is flagged exactly when the window has enough packets. */
  lemma RealEntropyIsFlagged(cfg: Config, t: Target, w: Window)
    requires ValidConfig(cfg) && Gentle(cfg) && 0.0 <= cfg.entropySigmaFloor && Warm(t)
    ensures var v := VerdictOf(cfg, t, w);
            v.realEntropy ==> (v.entropyFlag <==> w.packets >= cfg.entropyMinPackets)
  {
    hide RateBoundary, SmoothedRate, StdDev;
    GentleBaseK(cfg, t.cooldown);
    MulMono(SigmaH(cfg, t.entropy), BaseK(cfg, t.cooldown), cfg.k);
  }

  /** Past the emergency volume no entropy value raises the bar: the window is flagged. */
  lemma EmergencyIsFlagged(cfg: Config, t: Target, w: Window)
    requires ValidConfig(cfg) && Warm(t)
    requires BaseK(cfg, t.cooldown) <= cfg.emergencySigma
    requires SmoothedRate(cfg, t, w) > t.rate.mean + cfg.emergencySigma * SigmaR(cfg, t.rate)
    ensures VerdictOf(cfg, t, w).rateFlag
  {
    hide SigmaR, SmoothedRate, EntropyBoundary;
    SigmaRNonNeg(cfg, t.rate);
    MulMono(SigmaR(cfg, t.rate), BaseK(cfg, t.cooldown), cfg.emergencySigma);
  }
}
