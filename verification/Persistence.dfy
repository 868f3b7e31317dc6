/**
 Saving every target's baseline when one target closes a clean window, and restoring
 it at the next start.  A restart is invisible to a target saved at its own clean
 window; a snapshot that another target triggers may catch a target in the middle of
 a freeze, and then the restart is visible: `OtherTargetTransparentIff` says exactly when,
 and `MidFreezeSaved` that it happens.
 */
module Persistence {
  import opened Options
  import opened Welford
  import opened Baseline
  import opened BaselineRuns

  /** The file: one timestamp for the whole snapshot and a baseline per victim. */
  datatype PersistedState<!Ip> = PersistedState(savedAt: real, victims: map<Ip, PersistedBaseline>)

  /** The staleness decision; a missing or unreadable file is None already. */
  function Load<Ip>(file: Option<PersistedState<Ip>>, now: real, ttl: real): Option<PersistedState<Ip>> {
    if file.Some? && now - file.value.savedAt <= ttl then file else None
  }

  function Lookup<Ip>(state: Option<PersistedState<Ip>>, ip: Ip): Option<PersistedBaseline> {
    if state.Some? && ip in state.value.victims then Some(state.value.victims[ip]) else None
  }

  // ----- all targets together -----

  /**
   A packet to a victim, or one window of one victim closing; `due` says the save interval has passed, `now` is the
   wall clock.
   */
  datatype Event<!Ip> =
    | Sight(ip: Ip)
    | Closed(ip: Ip, w: Window, due: bool, now: real)

  const MAX_UNCONFIGURED: nat := 100

  /**
   The tracked targets, what was loaded at start, and the file as this process last wrote it, if it has.
   `open` says that no targets are configured, so that only so many are tracked.
   */
  datatype Sensor<!Ip> = Sensor(
    open: bool, targets: map<Ip, Target>, loaded: Option<PersistedState<Ip>>, disk: Option<PersistedState<Ip>>)

  /** A victim's target, built at first sight from what was loaded. */
  function TargetOf<Ip(==)>(s: Sensor<Ip>, ip: Ip): Target {
    if ip in s.targets then s.targets[ip] else Restored(Lookup(s.loaded, ip))
  }

  predicate HasRoom<Ip>(s: Sensor<Ip>) {
    s.open ==> |s.targets| < MAX_UNCONFIGURED
  }

  ghost function SnapshotAll<Ip>(targets: map<Ip, Target>, now: real): PersistedState<Ip> {
    PersistedState(now, map ip | ip in targets :: ToPersisted(targets[ip]))
  }

  /** A first packet starts tracking while there is room; a close of a tracked victim's clean window may save everybody. */
  ghost function SensorStep<Ip>(cfg: Config, s: Sensor<Ip>, e: Event<Ip>): Sensor<Ip>
    requires 0.0 < cfg.entropyKFallback
  {
    match e
    case Sight(ip) =>
      if ip in s.targets || !HasRoom(s) then s else s.(targets := s.targets[ip := TargetOf(s, ip)])
    case Closed(ip, w, due, now) =>
      if ip !in s.targets then s
      else
        var targets := s.targets[ip := Close(cfg, s.targets[ip], w)];
        s.(targets := targets,
           disk := if VerdictOf(cfg, s.targets[ip], w).clean && due then Some(SnapshotAll(targets, now)) else s.disk)
  }

  ghost function SensorAfter<Ip>(cfg: Config, s: Sensor<Ip>, es: seq<Event<Ip>>): Sensor<Ip>
    requires 0.0 < cfg.entropyKFallback
  {
    if es == [] then s else SensorStep(cfg, SensorAfter(cfg, s, es[..|es| - 1]), es[|es| - 1])
  }

  /** The windows one victim closed while tracked, in order. */
  ghost function WindowsOf<Ip>(cfg: Config, s: Sensor<Ip>, es: seq<Event<Ip>>, ip: Ip): seq<Window>
    requires 0.0 < cfg.entropyKFallback
  {
    if es == [] then []
    else
      var p, e := es[..|es| - 1], es[|es| - 1];
      WindowsOf(cfg, s, p, ip) + if e.Closed? && e.ip == ip && ip in SensorAfter(cfg, s, p).targets then [e.w] else []
  }

  /** Tracked from the start, or since a packet that came when targets were configured or fewer than 100 were tracked. */
  ghost predicate Tracked<Ip>(cfg: Config, s: Sensor<Ip>, es: seq<Event<Ip>>, ip: Ip)
    requires 0.0 < cfg.entropyKFallback
  {
    ip in s.targets
    || exists i :: 0 <= i < |es| && es[i] == Sight(ip) && (!s.open || |SensorAfter(cfg, s, es[..i]).targets| < 100)
  }

  /** Targets do not disturb each other: each follows its own windows from where it started. */
  lemma {:induction false} TargetsIndependent<Ip>(cfg: Config, s: Sensor<Ip>, es: seq<Event<Ip>>, ip: Ip)
    requires 0.0 < cfg.entropyKFallback
    ensures SensorAfter(cfg, s, es).loaded == s.loaded && SensorAfter(cfg, s, es).open == s.open
    ensures TargetOf(SensorAfter(cfg, s, es), ip) == After(cfg, TargetOf(s, ip), WindowsOf(cfg, s, es, ip))
  {
    hide Close, VerdictOf, SnapshotAll, Restored, Lookup, HasRoom;
    if es != [] {
      var p, e := es[..|es| - 1], es[|es| - 1];
      TargetsIndependent(cfg, s, p, ip);
      var ws := WindowsOf(cfg, s, es, ip);
      if e.Closed? && e.ip == ip && ip in SensorAfter(cfg, s, p).targets {
        assert ws[..|ws| - 1] == WindowsOf(cfg, s, p, ip);
      } else {
        assert ws == WindowsOf(cfg, s, p, ip);
      }
    }
  }

  lemma StepTracks<Ip>(cfg: Config, s: Sensor<Ip>, e: Event<Ip>, ip: Ip)
    requires 0.0 < cfg.entropyKFallback
    ensures var t := SensorStep(cfg, s, e);
            && (ip in t.targets <==> ip in s.targets || (e == Sight(ip) && (!s.open || |s.targets| < 100)))
            && (s.open && |s.targets| <= MAX_UNCONFIGURED ==> |t.targets| <= MAX_UNCONFIGURED)
  {
    hide Close, VerdictOf, SnapshotAll, Restored, Lookup;
    KeysKept(s.targets, e.ip, SensorStep(cfg, s, e).targets);
  }

  lemma KeysKept<Ip>(m: map<Ip, Target>, ip: Ip, n: map<Ip, Target>)
    ensures ip in m && n.Keys == m.Keys + {ip} ==> |n| == |m|
  {
    if ip in m && n.Keys == m.Keys + {ip} {
      assert n.Keys == m.Keys;
      assert |n| == |n.Keys| && |m| == |m.Keys|;
    }
  }

  lemma TrackedStep<Ip>(cfg: Config, s: Sensor<Ip>, es: seq<Event<Ip>>, ip: Ip)
    requires 0.0 < cfg.entropyKFallback && es != []
    ensures var p, e := es[..|es| - 1], es[|es| - 1];
            Tracked(cfg, s, es, ip) <==>
              Tracked(cfg, s, p, ip) || (e == Sight(ip) && (!s.open || |SensorAfter(cfg, s, p).targets| < 100))
  {
    hide SensorAfter;
    var n := |es| - 1;
    assert forall i :: 0 <= i < n ==> es[..n][i] == es[i] && es[..n][..i] == es[..i];
  }

  /** Exactly the victims seen while there was room are tracked, and never more than the limit allows. */
  lemma {:induction false} TrackedIff<Ip>(cfg: Config, s: Sensor<Ip>, es: seq<Event<Ip>>, ip: Ip)
    requires 0.0 < cfg.entropyKFallback
    ensures ip in SensorAfter(cfg, s, es).targets <==> Tracked(cfg, s, es, ip)
    ensures s.open && |s.targets| <= MAX_UNCONFIGURED ==> |SensorAfter(cfg, s, es).targets| <= MAX_UNCONFIGURED
  {
    hide SensorStep, TargetOf;
    if es != [] {
      hide Tracked;
      var p := es[..|es| - 1];
      TrackedIff(cfg, s, p, ip);
      TrackedStep(cfg, s, es, ip);
      TargetsIndependent(cfg, s, p, ip);
      StepTracks(cfg, SensorAfter(cfg, s, p), es[|es| - 1], ip);
    }
  }

  /** How many windows of a run up to and including the last that fed the accumulators. */
  ghost function LastLearning(vs: seq<Verdict>): nat {
    if vs == [] || vs[|vs| - 1].Learns() then |vs| else LastLearning(vs[..|vs| - 1])
  }

  lemma FrozenMoments(cfg: Config, t: Target, w: Window)
    requires 0.0 < cfg.entropyKFallback && !VerdictOf(cfg, t, w).Learns()
    ensures Close(cfg, t, w).rate == t.rate && Close(cfg, t, w).entropy == t.entropy
  {
  }

  /** A target's Welford fields are those of its own last clean or warm-up window, whatever came since. */
  lemma {:induction false} MomentsFromLastLearning(cfg: Config, t: Target, ws: seq<Window>)
    requires 0.0 < cfg.entropyKFallback
    ensures var j := LastLearning(Verdicts(cfg, t, ws));
            && j <= |ws|
            && After(cfg, t, ws).rate == After(cfg, t, ws[..j]).rate
            && After(cfg, t, ws).entropy == After(cfg, t, ws[..j]).entropy
  {
    hide Close, VerdictOf;
    var vs := Verdicts(cfg, t, ws);
    if ws == [] || vs[|vs| - 1].Learns() {
      assert ws[..|ws|] == ws;
    } else {
      var p := ws[..|ws| - 1];
      MomentsFromLastLearning(cfg, t, p);
      assert vs[..|vs| - 1] == Verdicts(cfg, t, p);
      FrozenMoments(cfg, After(cfg, t, p), ws[|ws| - 1]);
      assert p[..LastLearning(vs)] == ws[..LastLearning(vs)];
    }
  }

  /** A clean window of a tracked victim closes when a save is due. */
  ghost predicate Saves<Ip>(cfg: Config, s: Sensor<Ip>, e: Event<Ip>)
    requires 0.0 < cfg.entropyKFallback
  {
    e.Closed? && e.ip in s.targets && VerdictOf(cfg, s.targets[e.ip], e.w).clean && e.due
  }

  /** Where the file on disk came from: the last clean, due close of some tracked victim. */
  lemma {:induction false} DiskOrigin<Ip>(cfg: Config, s: Sensor<Ip>, es: seq<Event<Ip>>) returns (k: nat)
    requires 0.0 < cfg.entropyKFallback && s.disk.None? && SensorAfter(cfg, s, es).disk.Some?
    ensures k < |es| && Saves(cfg, SensorAfter(cfg, s, es[..k]), es[k])
    ensures SensorAfter(cfg, s, es).disk.value == SnapshotAll(SensorAfter(cfg, s, es[..k + 1]).targets, es[k].now)
  {
    hide Close, VerdictOf, SnapshotAll, TargetOf, HasRoom;
    var n := |es| - 1;
    var p, e := es[..n], es[n];
    assert es[..n + 1] == es;
    if Saves(cfg, SensorAfter(cfg, s, p), e) {
      k := n;
    } else {
      k := DiskOrigin(cfg, s, p);
      assert p[..k] == es[..k] && p[..k + 1] == es[..k + 1];
    }
  }

  /**
   Whatever window of whatever victim triggered the save, the file holds exactly the victims tracked at the
   time, also those that have not closed a window yet, and the saved Welford fields of each are those it had right after its own last clean or
   warm-up window before the save.
   */
  lemma SnapshotCarriesLearnedMoments<Ip>(cfg: Config, s: Sensor<Ip>, es: seq<Event<Ip>>, ip: Ip) returns (k: nat, j: nat)
    requires 0.0 < cfg.entropyKFallback && s.disk.None? && SensorAfter(cfg, s, es).disk.Some?
    ensures k < |es| && Saves(cfg, SensorAfter(cfg, s, es[..k]), es[k]) && j <= |WindowsOf(cfg, s, es[..k + 1], ip)|
    ensures var victims, t := SensorAfter(cfg, s, es).disk.value.victims, TargetOf(s, ip);
            var ws := WindowsOf(cfg, s, es[..k + 1], ip);
            && (ip in victims <==> Tracked(cfg, s, es[..k + 1], ip))
            && j == LastLearning(Verdicts(cfg, t, ws))
            && (ip in victims ==> victims[ip] == ToPersisted(After(cfg, t, ws)))
            && After(cfg, t, ws).rate == After(cfg, t, ws[..j]).rate
            && After(cfg, t, ws).entropy == After(cfg, t, ws[..j]).entropy
  {
    hide Close, VerdictOf, After, Verdicts, WindowsOf, SensorAfter, Tracked, Saves;
    k := DiskOrigin(cfg, s, es);
    TargetsIndependent(cfg, s, es[..k + 1], ip);
    TrackedIff(cfg, s, es[..k + 1], ip);
    var ws := WindowsOf(cfg, s, es[..k + 1], ip);
    j := LastLearning(Verdicts(cfg, TargetOf(s, ip), ws));
    MomentsFromLastLearning(cfg, TargetOf(s, ip), ws);
  }

  // ----- transparency of a restart -----

  /** What the next process makes of a victim from the file, `now` seconds and a TTL later. */
  function AfterRestart<Ip(==)>(s: Sensor<Ip>, now: real, ttl: real, ip: Ip): Target {
    Restored(Lookup(Load(s.disk, now, ttl), ip))
  }

  /** Saved at its own clean window and restored within the TTL, a target is exactly what it was. */
  lemma RestartTransparent<Ip>(cfg: Config, s: Sensor<Ip>, e: Event<Ip>, now: real, ttl: real, ws: seq<Window>)
    requires 0.0 < cfg.entropyKFallback && Saves(cfg, s, e) && now - e.now <= ttl
    ensures var after := SensorStep(cfg, s, e);
            var live, back := TargetOf(after, e.ip), AfterRestart(after, now, ttl, e.ip);
            && After(cfg, back, ws) == After(cfg, live, ws)
            && Verdicts(cfg, back, ws) == Verdicts(cfg, live, ws)
  {
  }

  /** Without a file, or past the TTL, the target starts from nothing. */
  lemma StaleStartsFresh<Ip>(file: Option<PersistedState<Ip>>, now: real, ttl: real, ip: Ip)
    requires file.None? || now - file.value.savedAt > ttl
    ensures Restored(Lookup(Load(file, now, ttl), ip)) == FRESH
  {
  }

  lemma JudgeIgnoresFrozen(cfg: Config, t: Target, f: nat, r: real, w: Window)
    requires 0.0 < cfg.entropyKFallback
    ensures var v, v' := Judge(cfg, t, r, w), Judge(cfg, t.(frozen := f), r, w);
            v' == v.(clean := v'.clean)
  {
    hide SigmaR, SigmaH, ScaledRateK;
    var t' := t.(frozen := f);
    var baseK := BaseK(cfg, t.cooldown);
    assert RateBoundary(cfg, baseK, t', r, w.h) == RateBoundary(cfg, baseK, t, r, w.h);
    assert RateBoundary(cfg, cfg.k, t', r, w.h) == RateBoundary(cfg, cfg.k, t, r, w.h);
    assert EntropyBoundary(cfg, baseK, t') == EntropyBoundary(cfg, baseK, t);
    assert EntropyBoundary(cfg, cfg.k, t') == EntropyBoundary(cfg, cfg.k, t);
  }

  /** Two targets that differ only in the freeze counter stay so while neither window is clean. */
  lemma FrozenTwins(cfg: Config, t: Target, f: nat, w: Window)
    requires 0.0 < cfg.entropyKFallback && Warm(t)
    requires !VerdictOf(cfg, t, w).natural && t.frozen < cfg.maxFreeze && f < cfg.maxFreeze
    ensures Close(cfg, t.(frozen := f), w) == Close(cfg, t, w).(frozen := f + 1)
    ensures Close(cfg, t, w).frozen == t.frozen + 1
    ensures VerdictOf(cfg, t.(frozen := f), w) == VerdictOf(cfg, t, w)
  {
    hide Judge, Learn, ActiveAlpha, Smoothed;
    var t' := t.(frozen := f);
    var r := SmoothedRate(cfg, t, w);
    assert SmoothedRate(cfg, t', w) == r;
    JudgeIgnoresFrozen(cfg, t, f, r, w);
    JudgeShape(cfg, t, r, w);
    JudgeShape(cfg, t', r, w);
  }

  /** From any state some window raises a rate flag: a rate far enough above the boundary, from one source. */
  lemma FloodWindow(cfg: Config, t: Target) returns (w: Window)
    requires ValidConfig(cfg) && Warm(t)
    ensures VerdictOf(cfg, t, w).rateFlag && !VerdictOf(cfg, t, w).natural
  {
    hide SigmaR, SmoothedRate, BaseK, EntropyBoundary, ScaledRateK;
    var bar := t.rate.mean + BaseK(cfg, t.cooldown) * SigmaR(cfg, t.rate);
    var gap := Abs(bar - t.ewma) + 1.0;
    w := Window(t.ewma + gap / cfg.alpha, 0.0, 0, 0.0);
    FloodRate(cfg, t, w, gap);
    FloodBoundary(cfg, t, SmoothedRate(cfg, t, w), BaseK(cfg, t.cooldown));
  }

  lemma FloodRate(cfg: Config, t: Target, w: Window, gap: real)
    requires ValidConfig(cfg) && 0.0 < gap && w.rate == t.ewma + gap / cfg.alpha
    ensures SmoothedRate(cfg, t, w) >= t.ewma + gap
  {
    hide ActiveAlpha;
    var a, d := ActiveAlpha(cfg, t.ewma, t.cooldown, w.rate), gap / cfg.alpha;
    AlphaInUnit(cfg, t.ewma, t.cooldown, w.rate);
    FloodAlgebra(cfg.alpha, a, d, gap, t.ewma);
  }

  lemma FloodAlgebra(alpha: real, a: real, d: real, gap: real, e: real)
    requires 0.0 < alpha <= a && 0.0 < gap && d == gap / alpha
    ensures a * (e + d) + (1.0 - a) * e >= e + gap
  {
  }

  lemma FloodBoundary(cfg: Config, t: Target, r: real, baseK: real)
    requires 0.0 < cfg.entropyKFallback
    ensures RateBoundary(cfg, baseK, t, r, 0.0) == t.rate.mean + baseK * SigmaR(cfg, t.rate)
  {
  }

  /** Two targets that differ only in the freeze counter tell themselves apart on some windows. */
  lemma {:induction false} FreezeIsVisible(cfg: Config, t: Target, f: nat) returns (ws: seq<Window>)
    requires ValidConfig(cfg) && Warm(t) && f < t.frozen <= cfg.maxFreeze
    ensures Verdicts(cfg, t.(frozen := f), ws) != Verdicts(cfg, t, ws)
    decreases cfg.maxFreeze - t.frozen
  {
    hide Close, VerdictOf;
    var t' := t.(frozen := f);
    var w := FloodWindow(cfg, t);
    if t.frozen == cfg.maxFreeze {
      ws := [w];
      StepShape(cfg, t, w);
      StepShape(cfg, t', w);
      assert VerdictOf(cfg, t', w) != VerdictOf(cfg, t, w) by {
        if VerdictOf(cfg, t', w).natural == VerdictOf(cfg, t, w).natural {
          assert !VerdictOf(cfg, t', w).clean && VerdictOf(cfg, t, w).clean;
        }
      }
      assert ws[..0] == [];
      assert Verdicts(cfg, t', ws)[0] != Verdicts(cfg, t, ws)[0];
    } else {
      StepShape(cfg, t, w);
      FrozenTwins(cfg, t, f, w);
      var rest := FreezeIsVisible(cfg, Close(cfg, t, w), f + 1);
      ws := [w] + rest;
      AfterHead(cfg, t, w, rest);
      AfterHead(cfg, t', w, rest);
      var a, b := Verdicts(cfg, Close(cfg, t', w), rest), Verdicts(cfg, Close(cfg, t, w), rest);
      assert ([VerdictOf(cfg, t', w)] + a)[1..] == a && ([VerdictOf(cfg, t, w)] + b)[1..] == b;
    }
  }

  /**
   A restart is transparent to every later list of windows exactly when the target was not
   in the middle of a freeze when it was saved; the freeze counter is the one thing lost.
   */
  lemma TransparentIff(cfg: Config, t: Target)
    requires ValidConfig(cfg) && Warm(t) && t.frozen <= cfg.maxFreeze
    ensures (forall ws :: Verdicts(cfg, Restored(Some(ToPersisted(t))), ws) == Verdicts(cfg, t, ws)) <==> t.frozen == 0
  {
    hide Verdicts;
    var back := Restored(Some(ToPersisted(t)));
    assert back == t.(frozen := 0);
    if t.frozen > 0 {
      var ws := FreezeIsVisible(cfg, t, 0);
      assert Verdicts(cfg, back, ws) != Verdicts(cfg, t, ws);
    } else {
      assert back == t;
    }
  }

  /**
   What every other victim gets from the file that e.ip's clean window wrote: a restart within the TTL is
   transparent to it, on every later list of windows, exactly when it was not in the middle of a freeze.
   */
  lemma OtherTargetTransparentIff<Ip>(cfg: Config, s: Sensor<Ip>, e: Event<Ip>, now: real, ttl: real, ip: Ip)
    requires ValidConfig(cfg) && ip in s.targets && ip != e.ip
    requires Warm(s.targets[ip]) && s.targets[ip].frozen <= cfg.maxFreeze
    requires Saves(cfg, s, e) && now - e.now <= ttl
    ensures var after := SensorStep(cfg, s, e);
            (forall ws :: Verdicts(cfg, AfterRestart(after, now, ttl, ip), ws) == Verdicts(cfg, TargetOf(after, ip), ws))
            <==> s.targets[ip].frozen == 0
  {
    hide Verdicts, VerdictOf, Close;
    var after, t := SensorStep(cfg, s, e), s.targets[ip];
    assert TargetOf(after, ip) == t && AfterRestart(after, now, ttl, ip) == Restored(Some(ToPersisted(t)));
    TransparentIff(cfg, t);
  }

  /**
   And that case is reached: from a target that is not frozen and one about to end its freeze, a flood on
   the first and then a window of the second write a file from which the first comes back different.
   */
  lemma MidFreezeSaved<Ip>(cfg: Config, a: Ip, b: Ip, now: real, ttl: real)
    returns (s: Sensor<Ip>, es: seq<Event<Ip>>, ws: seq<Window>)
    requires ValidConfig(cfg) && cfg.maxFreeze >= 1 && a != b && 0.0 <= ttl
    ensures s.disk.None? && a in s.targets && s.targets[a].frozen == 0
    ensures var after := SensorAfter(cfg, s, es);
            && after.disk.Some? && a in after.disk.value.victims && TargetOf(after, a).frozen == 1
            && Verdicts(cfg, AfterRestart(after, now, ttl, a), ws) != Verdicts(cfg, TargetOf(after, a), ws)
  {
    hide Close, VerdictOf, Verdicts;
    var m := Moments(WARMUP_WINDOWS, 1.0, 0.0);
    var t := Target(1.0, m, m, None, None, 0, 0);
    s := Sensor(false, map[a := t, b := t.(frozen := cfg.maxFreeze)], None, None);
    var flood := FloodWindow(cfg, t);
    var first, second := Closed(a, flood, false, now), Closed(b, flood, true, now);
    es := [first, second];
    assert es[..1] == [first] && [first][..0] == [];
    StepShape(cfg, t, flood);
    StepShape(cfg, t.(frozen := cfg.maxFreeze), flood);
    var mid := SensorStep(cfg, s, first);
    assert SensorAfter(cfg, s, [first]) == mid;
    assert SensorAfter(cfg, s, es) == SensorStep(cfg, mid, second);
    assert mid.targets[a].frozen == 1;
    OtherTargetTransparentIff(cfg, mid, second, now, ttl, a);
    ws :| Verdicts(cfg, AfterRestart(SensorStep(cfg, mid, second), now, ttl, a), ws)
          != Verdicts(cfg, TargetOf(SensorStep(cfg, mid, second), a), ws);
  }
}
