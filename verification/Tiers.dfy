/**
 Tiered enforcement: how a window's class becomes block and rate-limit calls.  Traffic is summed
 by source, a counter of consecutive DDoS windows gates blocking, and four tiers pick the sources.

 `ActFor` says what each source gets; `Enforce` is the four loops and is proved to make exactly
 those calls.  The run theorems tie blocking to the victim's window history.
 */
module Tiers {
  import opened Arith
  import opened Options
  import opened Lists

  type Ip = string

  datatype Config = Config(
    dominantBlockRatio: real, dominantExtremeRatio: real, blockRateFloor: real, ratelimitRateFloor: real,
    blockSigma: real, blockHysteresis: nat, flowsMaxAge: real)

  datatype Flow = Flow(ip: Option<Ip>, dst: Option<Ip>, rate: real)

  /** The sensor's flow file: its timestamp, when readable, and its entries. */
  datatype FlowFile = FlowFile(timestamp: Option<real>, flows: seq<Flow>)

  datatype Window = Window(
    victim: Ip, predicted: int, dominant: Ip, entropy: real, ewmaRate: real, meanR: real, sigmaR: real,
    meanH: real, sigmaH: real, dominantRatio: real, k: real, flows: Option<FlowFile>, now: real)

  /** Addresses that stand for no attributable source. */
  predicate Placeholder(ip: Ip) {
    ip == "Unknown" || ip == "0.0.0.0" || ip == "::"
  }

  function DominantRate(w: Window): real {
    w.ewmaRate * w.dominantRatio
  }

  function RateBoundary(w: Window): real {
    w.meanR + w.k * w.sigmaR
  }

  /** The bar for blocking a single source, also used by the safety overrides. */
  function BlockBar(c: Config, w: Window): real {
    Max(c.blockRateFloor, w.meanR + c.blockSigma * w.sigmaR)
  }

  function LimitBar(c: Config, w: Window): real {
    Max(c.ratelimitRateFloor, w.meanR + w.sigmaR)
  }

  // ----- safety overrides -----

  function ApplySafetyOverrides(c: Config, w: Window): int {
    if (w.predicted == 0 || w.predicted == 1) && w.ewmaRate > RateBoundary(w) then
      if DominantRate(w) > BlockBar(c, w) then 2
      else if w.entropy < w.meanH - w.k * w.sigmaH || w.dominantRatio > c.dominantExtremeRatio then 2
      else 1
    else w.predicted
  }

  /** The overrides only ever raise a class, and no model can wave an anomalous rate through as Normal. */
  lemma OverridesEscalate(c: Config, w: Window)
    requires 0 <= w.predicted <= 2
    ensures w.predicted <= ApplySafetyOverrides(c, w) <= 2
    ensures w.ewmaRate > RateBoundary(w) ==> ApplySafetyOverrides(c, w) >= 1
    ensures w.ewmaRate > RateBoundary(w) && DominantRate(w) > BlockBar(c, w) ==> ApplySafetyOverrides(c, w) == 2
    ensures w.ewmaRate <= RateBoundary(w) ==> ApplySafetyOverrides(c, w) == w.predicted
  {
  }

  /** The class of a window, from its numbers: DDoS, flash crowd, or what the model said. */
  lemma ClassByNumbers(c: Config, w: Window)
    ensures var anomalous := (w.predicted == 0 || w.predicted == 1) && w.ewmaRate > w.meanR + w.k * w.sigmaR;
            var fast := w.ewmaRate * w.dominantRatio;
            var attack := (fast > c.blockRateFloor && fast > w.meanR + c.blockSigma * w.sigmaR)
                          || w.entropy < w.meanH - w.k * w.sigmaH || w.dominantRatio > c.dominantExtremeRatio;
            ClassOf(c, w) == if anomalous then (if attack then 2 else 1) else w.predicted
  {
  }

  /** The bars and the concentration test, from the window's numbers. */
  lemma BarsByNumbers(c: Config, w: Window, x: real)
    ensures x >= BlockBar(c, w) <==> x >= c.blockRateFloor && x >= w.meanR + c.blockSigma * w.sigmaR
    ensures x >= LimitBar(c, w) <==> x >= c.ratelimitRateFloor && x >= w.meanR + w.sigmaR
    ensures Concentrated(c, w) <==>
              w.dominantRatio >= c.dominantBlockRatio && w.ewmaRate * w.dominantRatio >= w.meanR + w.k * w.sigmaR
  {
  }

  // ----- traffic by source -----

  predicate Attributable(f: Flow, victim: Ip) {
    f.dst == Some(victim) && f.ip.Some? && f.ip.value != "" && !Placeholder(f.ip.value)
  }

  /** Total rate of one source toward the victim. */
  function RateOf(flows: seq<Flow>, victim: Ip, ip: Ip): real {
    if flows == [] then 0.0
    else
      var f := flows[|flows| - 1];
      RateOf(flows[..|flows| - 1], victim, ip)
      + if Attributable(f, victim) && f.ip.value == ip then f.rate else 0.0
  }

  predicate Seen(flows: seq<Flow>, victim: Ip, ip: Ip) {
    exists i :: 0 <= i < |flows| && Attributable(flows[i], victim) && flows[i].ip.value == ip
  }

  /** The per-source totals, with the order in which the sources first appeared. */
  method LoadVictimFlowRates(c: Config, file: Option<FlowFile>, victim: Ip, now: real)
    returns (rates: map<Ip, real>, order: seq<Ip>)
    ensures var flows := LiveFlows(c, file, now);
            && (forall ip :: ip in rates <==> Seen(flows, victim, ip))
            && (forall ip :: ip in rates ==> rates[ip] == RateOf(flows, victim, ip))
    ensures NoRepeats(order) && forall ip :: ip in order <==> ip in rates
  {
    hide LiveFlows, Placeholder;
    rates, order := map[], [];
    var flows := LiveFlows(c, file, now);
    for i := 0 to |flows|
      invariant forall ip :: ip in rates <==> Seen(flows[..i], victim, ip)
      invariant forall ip :: ip in rates ==> rates[ip] == RateOf(flows[..i], victim, ip)
      invariant forall ip :: ip !in rates ==> RateOf(flows[..i], victim, ip) == 0.0
      invariant NoRepeats(order) && forall ip :: ip in order <==> ip in rates
    {
      var f := flows[i];
      SeenStep(flows, i, victim);
      assert flows[..i + 1][..i] == flows[..i];
      if Attributable(f, victim) {
        var ip := f.ip.value;
        if ip !in rates {
          order := order + [ip];
        }
        rates := rates[ip := (if ip in rates then rates[ip] else 0.0) + f.rate];
      }
    }
    assert flows[..|flows|] == flows;
  }

  lemma SeenStep(flows: seq<Flow>, i: nat, victim: Ip)
    requires i < |flows|
    ensures forall ip :: Seen(flows[..i + 1], victim, ip) <==>
                           Seen(flows[..i], victim, ip) || (Attributable(flows[i], victim) && flows[i].ip.value == ip)
  {
    forall ip
      ensures Seen(flows[..i + 1], victim, ip) <==>
                Seen(flows[..i], victim, ip) || (Attributable(flows[i], victim) && flows[i].ip.value == ip)
    {
      if Seen(flows[..i], victim, ip) {
        var j :| 0 <= j < i && Attributable(flows[..i][j], victim) && flows[..i][j].ip.value == ip;
        assert flows[..i + 1][j] == flows[j];
      }
      if Attributable(flows[i], victim) && flows[i].ip.value == ip {
        assert flows[..i + 1][i] == flows[i];
      }
    }
  }

  /** A flow from the source to the victim. */
  predicate FlowsTo(f: Flow, victim: Ip, ip: Ip) {
    f.dst == Some(victim) && f.ip == Some(ip)
  }

  /** Addresses that name a source. */
  predicate Names(ip: Ip) {
    ip != "" && ip != "Unknown" && ip != "0.0.0.0" && ip != "::"
  }

  /** A victim sees exactly the named sources of the flows to it, each at the total rate of its own flows to it. */
  lemma TrafficByFields(flows: seq<Flow>, f: Flow, victim: Ip, ip: Ip)
    ensures Seen(flows, victim, ip) <==> Names(ip) && exists i :: 0 <= i < |flows| && FlowsTo(flows[i], victim, ip)
    ensures RateOf([], victim, ip) == 0.0
    ensures RateOf(flows + [f], victim, ip) ==
              RateOf(flows, victim, ip) + if Names(ip) && FlowsTo(f, victim, ip) then f.rate else 0.0
  {
    hide RateOf;
    RateStep(flows, f, victim, ip);
    if Names(ip) && exists i :: 0 <= i < |flows| && FlowsTo(flows[i], victim, ip) {
      var i :| 0 <= i < |flows| && FlowsTo(flows[i], victim, ip);
      assert Attributable(flows[i], victim);
    }
  }

  lemma RateStep(flows: seq<Flow>, f: Flow, victim: Ip, ip: Ip)
    ensures RateOf([], victim, ip) == 0.0
    ensures RateOf(flows + [f], victim, ip) ==
              RateOf(flows, victim, ip) + if Attributable(f, victim) && f.ip.value == ip then f.rate else 0.0
  {
    assert (flows + [f])[..|flows|] == flows;
  }

  function ToHost(victim: Ip): Flow -> bool {
    (f: Flow) => f.dst == Some(victim)
  }

  /** Flows to other hosts do not count. */
  lemma {:induction false} OtherHostsIrrelevant(flows: seq<Flow>, victim: Ip, ip: Ip)
    ensures Seen(Select(ToHost(victim), flows), victim, ip) <==> Seen(flows, victim, ip)
    ensures RateOf(Select(ToHost(victim), flows), victim, ip) == RateOf(flows, victim, ip)
  {
    hide Attributable;
    if flows != [] {
      var init, f := flows[..|flows| - 1], flows[|flows| - 1];
      var own := Select(ToHost(victim), init);
      OtherHostsIrrelevant(init, victim, ip);
      RateStep(init, f, victim, ip);
      RateStep(own, f, victim, ip);
      assert flows == init + [f];
      SelectStep(ToHost(victim), init, f);
      SeenStep(flows, |init|, victim);
      assert flows[..|init| + 1] == flows;
      SeenStep(own + [f], |own|, victim);
      assert (own + [f])[..|own|] == own && (own + [f])[..|own| + 1] == own + [f];
      assert own + [] == own;
      AttributableHost(f, victim);
    }
  }

  lemma AttributableHost(f: Flow, victim: Ip)
    ensures Attributable(f, victim) ==> f.dst == Some(victim)
  {
  }

  /** A missing, undated or old file describes no current traffic. */
  function LiveFlows(c: Config, file: Option<FlowFile>, now: real): seq<Flow> {
    if file.None? || file.value.timestamp.None? || now - file.value.timestamp.value > c.flowsMaxAge then []
    else file.value.flows
  }

  lemma {:induction false} RateConcat(a: seq<Flow>, b: seq<Flow>, victim: Ip, ip: Ip)
    ensures RateOf(a + b, victim, ip) == RateOf(a, victim, ip) + RateOf(b, victim, ip)
  {
    if b == [] {
      assert a + b == a;
    } else {
      RateConcat(a, b[..|b| - 1], victim, ip);
      assert (a + b)[..|a + b| - 1] == a + b[..|b| - 1];
    }
  }

  /** One flow replaced by any non-empty group of flows of the same source with the same total. */
  lemma SplittingKeepsRates(a: seq<Flow>, f: Flow, parts: seq<Flow>, b: seq<Flow>, victim: Ip, ip: Ip)
    requires parts != [] && forall i :: 0 <= i < |parts| ==> parts[i].ip == f.ip && parts[i].dst == f.dst
    requires f.ip.Some? ==> RateOf(parts, victim, f.ip.value) == RateOf([f], victim, f.ip.value)
    ensures RateOf(a + parts + b, victim, ip) == RateOf(a + [f] + b, victim, ip)
    ensures Seen(a + parts + b, victim, ip) <==> Seen(a + [f] + b, victim, ip)
  {
    RateConcat(a + parts, b, victim, ip);
    RateConcat(a, parts, victim, ip);
    RateConcat(a + [f], b, victim, ip);
    RateConcat(a, [f], victim, ip);
    if f.ip != Some(ip) {
      OtherSources(parts, victim, ip);
      OtherSources([f], victim, ip);
    }
    SeenConcat(a + parts, b, victim, ip);
    SeenConcat(a, parts, victim, ip);
    SeenConcat(a + [f], b, victim, ip);
    SeenConcat(a, [f], victim, ip);
    assert Seen([f], victim, ip) <==> Attributable([f][0], victim) && f.ip.value == ip;
    assert Attributable(f, victim) ==> Attributable(parts[0], victim);
  }

  lemma {:induction false} OtherSources(flows: seq<Flow>, victim: Ip, ip: Ip)
    requires forall i :: 0 <= i < |flows| ==> flows[i].ip != Some(ip)
    ensures RateOf(flows, victim, ip) == 0.0
  {
    if flows != [] {
      OtherSources(flows[..|flows| - 1], victim, ip);
    }
  }

  lemma SeenConcat(a: seq<Flow>, b: seq<Flow>, victim: Ip, ip: Ip)
    ensures Seen(a + b, victim, ip) <==> Seen(a, victim, ip) || Seen(b, victim, ip)
  {
    if Seen(a, victim, ip) {
      var i :| 0 <= i < |a| && Attributable(a[i], victim) && a[i].ip.value == ip;
      assert (a + b)[i] == a[i];
    }
    if Seen(b, victim, ip) {
      var i :| 0 <= i < |b| && Attributable(b[i], victim) && b[i].ip.value == ip;
      assert (a + b)[|a| + i] == b[i];
    }
  }

  // ----- the four tiers -----

  /** What the tiers of one class 2 window look at. */
  datatype Plan = Plan(
    ready: bool, concentrated: bool, dominant: Ip, dominantRate: real, blockBar: real, limitBar: real, rates: map<Ip, real>)

  datatype Act = Block(tier: nat, rate: real) | Limit(tier: nat, rate: real)

  datatype Call = Call(ip: Ip, act: Act)

  predicate FastPath(p: Plan) {
    p.ready && p.concentrated
  }

  predicate OverBar(p: Plan, ip: Ip) {
    ip in p.rates && ((p.ready && p.rates[ip] >= p.blockBar) || p.rates[ip] >= p.limitBar)
  }

  /** Some source stands out. */
  ghost predicate Attributed(p: Plan) {
    FastPath(p) || exists ip :: OverBar(p, ip)
  }

  ghost function ActFor(p: Plan, ip: Ip): Option<Act> {
    if FastPath(p) && ip == p.dominant then Some(Block(1, p.dominantRate))
    else if ip !in p.rates then None
    else if p.ready && p.rates[ip] >= p.blockBar then Some(Block(2, p.rates[ip]))
    else if p.rates[ip] >= p.limitBar then Some(Limit(3, p.rates[ip]))
    else if !Attributed(p) then Some(Limit(4, p.rates[ip]))
    else None
  }

  ghost predicate Planned(p: Plan, calls: seq<Call>) {
    forall i :: 0 <= i < |calls| ==> ActFor(p, calls[i].ip) == Some(calls[i].act)
  }

  function Sources(calls: seq<Call>): (r: seq<Ip>)
    ensures |r| == |calls| && forall i :: 0 <= i < |calls| ==> r[i] == calls[i].ip
  {
    seq(|calls|, i requires 0 <= i < |calls| => calls[i].ip)
  }

  ghost predicate Highest(calls: seq<Call>, tier: nat) {
    && (forall i :: 0 <= i < |calls| ==> 1 <= calls[i].act.tier <= tier)
    && (tier > 0 ==> exists i :: 0 <= i < |calls| && calls[i].act.tier == tier)
  }

  /**
   The four tiers in order: each source gets exactly the action `ActFor` gives it, at most once, and
   the reported tier is the highest that fired.
   */
  method Enforce(p: Plan, order: seq<Ip>) returns (calls: seq<Call>, tier: nat)
    requires NoRepeats(order) && forall ip :: ip in order <==> ip in p.rates
    ensures Planned(p, calls) && NoRepeats(Sources(calls))
    ensures forall ip :: ip in Sources(calls) <==> ActFor(p, ip).Some?
    ensures Highest(calls, tier)
  {
    hide Attributed, ActFor, OverBar;
    calls, tier := [], 0;
    if FastPath(p) {
      calls, tier := [Call(p.dominant, Block(1, p.dominantRate))], 1;
    }
    if p.ready {
      calls, tier := BlockFast(p, order, calls, tier);
    }
    calls, tier := LimitElevated(p, order, calls, tier);
    AttributedIff(p, calls);
    if calls == [] {
      calls, tier := CapEveryone(p, order);
    }
    forall ip {
      WhoIsActedOn(p, ip);
    }
  }

  /** Tier 4: nobody stood out, so everyone is limited. */
  method CapEveryone(p: Plan, order: seq<Ip>) returns (calls: seq<Call>, tier: nat)
    requires NoRepeats(order) && (forall ip :: ip in order <==> ip in p.rates) && !Attributed(p)
    ensures Planned(p, calls) && Sources(calls) == order && Highest(calls, tier)
  {
    hide Attributed, ActFor;
    calls, tier := [], 0;
    for i := 0 to |order|
      invariant Planned(p, calls) && |calls| == i && forall j :: 0 <= j < i ==> calls[j].ip == order[j]
      invariant forall j :: 0 <= j < i ==> calls[j].act.tier == 4
    {
      WhoIsActedOn(p, order[i]);
      calls := calls + [Call(order[i], Limit(4, p.rates[order[i]]))];
    }
    if calls != [] {
      tier := 4;
      assert calls[0].act.tier == tier;
    }
  }

  lemma WhoIsActedOn(p: Plan, ip: Ip)
    ensures Attributed(p) ==> (ActFor(p, ip).Some? <==> (FastPath(p) && ip == p.dominant) || OverBar(p, ip))
    ensures !Attributed(p) ==> ActFor(p, ip) == if ip in p.rates then Some(Limit(4, p.rates[ip])) else None
  {
    if !Attributed(p) {
      assert !OverBar(p, ip);
    }
  }

  /** Tier 2: sources at or above the block bar. */
  method BlockFast(p: Plan, order: seq<Ip>, before: seq<Call>, tierBefore: nat) returns (calls: seq<Call>, tier: nat)
    requires p.ready && (forall ip :: ip in order <==> ip in p.rates)
    requires before == if FastPath(p) then [Call(p.dominant, Block(1, p.dominantRate))] else []
    requires tierBefore == |before|
    ensures Planned(p, calls) && NoRepeats(Sources(calls)) && Highest(calls, tier) && tier <= 2
    ensures forall ip :: ip in Sources(calls) <==>
                           (FastPath(p) && ip == p.dominant) || (ip in p.rates && p.rates[ip] >= p.blockBar)
  {
    hide Attributed;
    calls, tier := before, tierBefore;
    assert FastPath(p) ==> before[0].ip == p.dominant && before[0].act.tier == 1;
    for i := 0 to |order|
      invariant Planned(p, calls) && NoRepeats(Sources(calls)) && Highest(calls, tier) && tier <= 2
      invariant forall ip :: ip in Sources(calls) <==>
                               (FastPath(p) && ip == p.dominant) || (ip in order[..i] && p.rates[ip] >= p.blockBar)
    {
      var ip := order[i];
      ghost var prev := calls;
      if ip !in Sources(calls) && p.rates[ip] >= p.blockBar {
        calls, tier := calls + [Call(ip, Block(2, p.rates[ip]))], 2;
        assert Sources(calls) == Sources(prev) + [ip];
        assert calls[|prev|].act.tier == 2;
      }
    }
  }

  /** Tier 3: sources not acted on yet, at or above the rate-limit bar. */
  method LimitElevated(p: Plan, order: seq<Ip>, before: seq<Call>, tierBefore: nat) returns (calls: seq<Call>, tier: nat)
    requires forall ip :: ip in order <==> ip in p.rates
    requires Planned(p, before) && NoRepeats(Sources(before)) && Highest(before, tierBefore) && tierBefore <= 2
    requires forall ip :: ip in Sources(before) <==>
                            (FastPath(p) && ip == p.dominant) || (p.ready && ip in p.rates && p.rates[ip] >= p.blockBar)
    ensures Planned(p, calls) && NoRepeats(Sources(calls)) && Highest(calls, tier)
    ensures forall ip :: ip in Sources(calls) <==> (FastPath(p) && ip == p.dominant) || OverBar(p, ip)
  {
    hide Attributed;
    calls, tier := before, tierBefore;
    for i := 0 to |order|
      invariant Planned(p, calls) && NoRepeats(Sources(calls)) && Highest(calls, tier) && tier <= 3
      invariant forall ip :: ip in Sources(calls) <==>
                               ip in Sources(before) || (ip in order[..i] && p.rates[ip] >= p.limitBar)
    {
      var ip := order[i];
      ghost var prev := calls;
      if ip !in Sources(calls) && p.rates[ip] >= p.limitBar {
        calls, tier := calls + [Call(ip, Limit(3, p.rates[ip]))], 3;
        assert Sources(calls) == Sources(prev) + [ip];
        assert calls[|prev|].act.tier == 3;
      }
    }
  }

  lemma AttributedIff(p: Plan, calls: seq<Call>)
    requires forall ip :: ip in Sources(calls) <==> (FastPath(p) && ip == p.dominant) || OverBar(p, ip)
    ensures calls != [] <==> Attributed(p)
  {
    if calls != [] {
      assert Sources(calls)[0] in Sources(calls);
    }
    if FastPath(p) {
      assert p.dominant in Sources(calls);
    }
  }

  // ----- what the tiers guarantee -----

  /** Blocks need the streak; with it, every source at or above the bar is blocked. */
  lemma BlocksExactly(p: Plan, ip: Ip)
    ensures ActFor(p, ip).Some? && ActFor(p, ip).value.Block? <==>
              p.ready && ((p.concentrated && ip == p.dominant) || (ip in p.rates && p.rates[ip] >= p.blockBar))
  {
  }

  /** A plan acts on someone exactly when there is traffic to act on or a concentrated source to block. */
  lemma PlanActsIff(p: Plan)
    ensures (exists ip :: ActFor(p, ip).Some?) <==> p.rates != map[] || FastPath(p)
  {
    if FastPath(p) {
      assert ActFor(p, p.dominant).Some?;
    } else if ip :| OverBar(p, ip) {
      assert ActFor(p, ip).Some?;
    } else if ip :| ip in p.rates {
      WhoIsActedOn(p, ip);
      assert ActFor(p, ip).Some?;
    }
  }

  // ----- windows and their history -----

  function ClassOf(c: Config, w: Window): int {
    ApplySafetyOverrides(c, w)
  }

  /** Consecutive class 2 windows of each victim. */
  function Counted(c: Config, counts: map<Ip, nat>, w: Window): map<Ip, nat> {
    counts[w.victim := if ClassOf(c, w) == 2 then (if w.victim in counts then counts[w.victim] else 0) + 1 else 0]
  }

  ghost predicate IsRates(c: Config, w: Window, rates: map<Ip, real>) {
    var flows := LiveFlows(c, w.flows, w.now);
    (forall ip :: ip in rates <==> Seen(flows, w.victim, ip))
    && forall ip :: ip in rates ==> rates[ip] == RateOf(flows, w.victim, ip)
  }

  /** The totals by source of the window's live flows. */
  ghost function RatesOf(c: Config, w: Window): map<Ip, real> {
    var flows := LiveFlows(c, w.flows, w.now);
    map ip | ip in SourcesOf(flows, w.victim) :: RateOf(flows, w.victim, ip)
  }

  ghost function SourcesOf(flows: seq<Flow>, victim: Ip): set<Ip> {
    set f | f in flows && Attributable(f, victim) :: f.ip.value
  }

  lemma RatesUnique(c: Config, w: Window, rates: map<Ip, real>)
    ensures IsRates(c, w, rates) <==> rates == RatesOf(c, w)
  {
    hide RateOf, LiveFlows;
    var flows := LiveFlows(c, w.flows, w.now);
    forall ip
      ensures ip in SourcesOf(flows, w.victim) <==> Seen(flows, w.victim, ip)
    {
      if ip in SourcesOf(flows, w.victim) {
        var f :| f in flows && Attributable(f, w.victim) && f.ip.value == ip;
        var i :| 0 <= i < |flows| && flows[i] == f;
        assert Seen(flows, w.victim, ip);
      }
    }
    if IsRates(c, w, rates) {
      assert rates.Keys == RatesOf(c, w).Keys;
    }
  }

  /** One source clearly drives the window: both a large share and fast. */
  predicate Concentrated(c: Config, w: Window) {
    w.dominantRatio >= c.dominantBlockRatio && DominantRate(w) >= RateBoundary(w)
  }

  /** The plan of a class 2 window with a known dominant source. */
  function PlanOf(c: Config, w: Window, count: nat, rates: map<Ip, real>): Plan {
    Plan(count >= c.blockHysteresis, Concentrated(c, w), w.dominant, DominantRate(w), BlockBar(c, w), LimitBar(c, w), rates)
  }

  /** What a window does about a source: the tiers on class 2, a precaution on class 1, nothing if the dominant source is unknown. */
  ghost function WindowAct(c: Config, w: Window, count: nat, rates: map<Ip, real>, ip: Ip): Option<Act> {
    if Placeholder(w.dominant) then None
    else if ClassOf(c, w) == 2 then ActFor(PlanOf(c, w, count, rates), ip)
    else if ClassOf(c, w) == 1 && Concentrated(c, w) && ip == w.dominant then Some(Limit(0, DominantRate(w)))
    else None
  }

  /** The calls a window makes, `count` being the victim's consecutive class 2 windows with this one. */
  ghost predicate Made(c: Config, w: Window, count: nat, calls: seq<Call>) {
    && NoRepeats(Sources(calls))
    && MadeFrom(c, w, count, RatesOf(c, w), calls)
  }

  ghost predicate MadeFrom(c: Config, w: Window, count: nat, rates: map<Ip, real>, calls: seq<Call>) {
    && (forall i :: 0 <= i < |calls| ==> WindowAct(c, w, count, rates, calls[i].ip) == Some(calls[i].act))
    && forall ip :: ip in Sources(calls) <==> WindowAct(c, w, count, rates, ip).Some?
  }

  /**
   Spreading one flow of a source over any number of flows with the same total gives the tiers the
   same totals, so the same actions for everyone.
   */
  lemma SplittingChangesNothing(c: Config, w: Window, v: Window, a: seq<Flow>, f: Flow, parts: seq<Flow>, b: seq<Flow>,
                                rates: map<Ip, real>, split: map<Ip, real>, count: nat, ip: Ip)
    requires w.flows.Some? && w.flows.value.flows == a + [f] + b
    requires v == w.(flows := Some(w.flows.value.(flows := a + parts + b)))
    requires parts != [] && forall i :: 0 <= i < |parts| ==> parts[i].ip == f.ip && parts[i].dst == f.dst
    requires f.ip.Some? ==> RateOf(parts, w.victim, f.ip.value) == RateOf([f], w.victim, f.ip.value)
    requires IsRates(c, w, rates) && IsRates(c, v, split)
    ensures rates == split
    ensures ActFor(PlanOf(c, w, count, rates), ip) == ActFor(PlanOf(c, v, count, split), ip)
  {
    hide RateOf, Seen, BlockBar, LimitBar, ActFor;
    forall s: Ip
      ensures s in rates <==> s in split
      ensures s in rates ==> rates[s] == split[s]
    {
      SplittingKeepsRates(a, f, parts, b, w.victim, s);
    }
    assert rates.Keys == split.Keys;
    SameNumbers(c, w, v);
  }

  /** The receiver's per-victim records, updated window by window. */
  class Receiver {
    const config: Config
    var consecutive: map<Ip, nat>
    var lastTier: map<Ip, nat>

    constructor (config: Config)
      ensures this.config == config && consecutive == map[] && lastTier == map[]
    {
      this.config, this.consecutive, this.lastTier := config, map[], map[];
    }

    /** Counts the window, then runs the tiers on a class 2 window or the precaution on a class 1 window. */
    method ProcessWindow(w: Window) returns (calls: seq<Call>)
      modifies this
      ensures consecutive == Counted(config, old(consecutive), w)
      ensures Made(config, w, consecutive[w.victim], calls)
      ensures w.victim in lastTier && lastTier == old(lastTier)[w.victim := lastTier[w.victim]]
      ensures if ClassOf(config, w) == 2 then Highest(calls, lastTier[w.victim]) else lastTier[w.victim] == 0
    {
      hide DominantRate, Concentrated, PlanOf, ClassOf, IsRates, RatesOf, ActFor, Made;
      var cls := ClassOf(config, w);
      calls := [];
      var count := if cls == 2 then (if w.victim in consecutive then consecutive[w.victim] else 0) + 1 else 0;
      consecutive := consecutive[w.victim := count];
      lastTier := lastTier[w.victim := 0];
      if cls == 2 {
        if !Placeholder(w.dominant) {
          var rates, order := LoadVictimFlowRates(config, w.flows, w.victim, w.now);
          PlanRates(config, w, count, rates);
          var tier;
          calls, tier := Enforce(PlanOf(config, w, count, rates), order);
          lastTier := lastTier[w.victim := tier];
          MadeByTiers(config, w, count, calls);
          return;
        }
      } else if cls == 1 {
        if !Placeholder(w.dominant) && Concentrated(config, w) {
          calls := [Call(w.dominant, Limit(0, DominantRate(w)))];
        }
      }
      MadeOtherwise(config, w, count, calls);
    }
  }

  lemma MadeByTiers(c: Config, w: Window, count: nat, calls: seq<Call>)
    requires ClassOf(c, w) == 2 && !Placeholder(w.dominant)
    requires NoRepeats(Sources(calls)) && Planned(PlanOf(c, w, count, RatesOf(c, w)), calls)
    requires forall ip :: ip in Sources(calls) <==> ActFor(PlanOf(c, w, count, RatesOf(c, w)), ip).Some?
    ensures Made(c, w, count, calls)
  {
    hide ActFor, PlanOf, RatesOf, ClassOf;
  }

  lemma MadeOtherwise(c: Config, w: Window, count: nat, calls: seq<Call>)
    requires ClassOf(c, w) == 2 ==> Placeholder(w.dominant)
    requires calls == if ClassOf(c, w) == 1 && !Placeholder(w.dominant) && Concentrated(c, w)
                      then [Call(w.dominant, Limit(0, DominantRate(w)))] else []
    ensures Made(c, w, count, calls)
  {
    hide RatesOf, ClassOf, Concentrated, DominantRate;
    assert calls != [] ==> Sources(calls) == [w.dominant];
  }

  lemma PlanRates(c: Config, w: Window, count: nat, rates: map<Ip, real>)
    requires var flows := LiveFlows(c, w.flows, w.now);
             (forall ip :: ip in rates <==> Seen(flows, w.victim, ip))
             && forall ip :: ip in rates ==> rates[ip] == RateOf(flows, w.victim, ip)
    ensures rates == RatesOf(c, w) == PlanOf(c, w, count, rates).rates
  {
    hide RateOf, Seen, LiveFlows, RatesOf;
    RatesUnique(c, w, rates);
  }

  function CountsAfter(c: Config, ws: seq<Window>): map<Ip, nat> {
    if ws == [] then map[] else Counted(c, CountsAfter(c, ws[..|ws| - 1]), ws[|ws| - 1])
  }

  function CountOf(c: Config, ws: seq<Window>, victim: Ip): nat {
    var counts := CountsAfter(c, ws);
    if victim in counts then counts[victim] else 0
  }

  function ForVictim(victim: Ip): Window -> bool {
    (w: Window) => w.victim == victim
  }

  /** The victim's last n windows exist and were all class 2. */
  ghost predicate LastWindowsDdos(c: Config, ws: seq<Window>, victim: Ip, n: nat) {
    var own := Select(ForVictim(victim), ws);
    |own| >= n && forall i :: |own| - n <= i < |own| ==> ClassOf(c, own[i]) == 2
  }

  /** The counter is the length of the victim's current streak: it reaches n exactly when the last n windows qualify. */
  lemma {:induction false} CounterIsStreak(c: Config, ws: seq<Window>, victim: Ip, n: nat)
    ensures CountOf(c, ws, victim) >= n <==> LastWindowsDdos(c, ws, victim, n)
  {
    hide ClassOf;
    if ws == [] || n == 0 {
    } else {
      var init, w := ws[..|ws| - 1], ws[|ws| - 1];
      var before, own := Select(ForVictim(victim), init), Select(ForVictim(victim), ws);
      if w.victim != victim {
        CounterIsStreak(c, init, victim, n);
      } else {
        CounterIsStreak(c, init, victim, n - 1);
        assert own == before + [w];
        assert own[|own| - 1] == w;
        if LastWindowsDdos(c, ws, victim, n) {
          forall i | |before| - (n - 1) <= i < |before|
            ensures ClassOf(c, before[i]) == 2
          {
            assert own[i] == before[i];
          }
        }
      }
    }
  }

  ghost predicate Blocked(calls: seq<Call>, ip: Ip) {
    exists i :: 0 <= i < |calls| && calls[i].ip == ip && calls[i].act.Block?
  }

  lemma BlockedByPlan(c: Config, w: Window, count: nat, rates: map<Ip, real>, calls: seq<Call>, ip: Ip)
    requires MadeFrom(c, w, count, rates, calls)
    ensures Blocked(calls, ip) <==>
              WindowAct(c, w, count, rates, ip).Some? && WindowAct(c, w, count, rates, ip).value.Block?
  {
    hide WindowAct;
    if WindowAct(c, w, count, rates, ip).Some? {
      assert ip in Sources(calls);
      var i :| 0 <= i < |calls| && Sources(calls)[i] == ip;
      assert calls[i].ip == ip;
    }
  }

  /** Windows that differ in flows to other hosts only, or in flows of an old or undated file, lead to the same actions. */
  lemma OnlyLiveOwnFlowsMatter(c: Config, w: Window, count: nat, ip: Ip)
    ensures var flows := LiveFlows(c, w.flows, w.now);
            var own := w.(flows := Some(FlowFile(Some(w.now), Select(ToHost(w.victim), flows))));
            0.0 <= c.flowsMaxAge ==>
              WindowAct(c, own, count, RatesOf(c, own), ip) == WindowAct(c, w, count, RatesOf(c, w), ip)
    ensures (w.flows.Some? && (w.flows.value.timestamp.None? || w.now - w.flows.value.timestamp.value > c.flowsMaxAge)) ==>
              var none := w.(flows := None);
              WindowAct(c, none, count, RatesOf(c, none), ip) == WindowAct(c, w, count, RatesOf(c, w), ip)
  {
    hide RateOf, Seen, ActFor, Select, ToHost, BlockBar, LimitBar, DominantRate, RateBoundary, ApplySafetyOverrides, RatesOf;
    var flows := LiveFlows(c, w.flows, w.now);
    var own, none := w.(flows := Some(FlowFile(Some(w.now), Select(ToHost(w.victim), flows)))), w.(flows := None);
    SameNumbers(c, w, own);
    SameNumbers(c, w, none);
    if 0.0 <= c.flowsMaxAge {
      RatesUnique(c, w, RatesOf(c, w));
      forall s: Ip {
        OtherHostsIrrelevant(flows, w.victim, s);
      }
      RatesUnique(c, own, RatesOf(c, w));
    }
    SameRates(c, w, none);
  }

  lemma SameNumbers(c: Config, w: Window, v: Window)
    requires v == w.(flows := v.flows)
    ensures ClassOf(c, v) == ClassOf(c, w) && Concentrated(c, v) == Concentrated(c, w)
    ensures DominantRate(v) == DominantRate(w) && BlockBar(c, v) == BlockBar(c, w) && LimitBar(c, v) == LimitBar(c, w)
  {
  }

  lemma SameRates(c: Config, w: Window, v: Window)
    requires v == w.(flows := v.flows)
    ensures LiveFlows(c, v.flows, v.now) == LiveFlows(c, w.flows, w.now) ==> RatesOf(c, v) == RatesOf(c, w)
  {
    hide RateOf, SourcesOf;
  }

  /** The dominant source holds a large share of the traffic and is itself past the rate boundary. */
  ghost predicate DominantStandsOut(c: Config, w: Window) {
    w.dominantRatio >= c.dominantBlockRatio && w.ewmaRate * w.dominantRatio >= w.meanR + w.k * w.sigmaR
  }

  ghost predicate FastEnoughToBlock(c: Config, w: Window, ip: Ip) {
    var flows := LiveFlows(c, w.flows, w.now);
    var rate := RateOf(flows, w.victim, ip);
    Seen(flows, w.victim, ip) && rate >= c.blockRateFloor && rate >= w.meanR + c.blockSigma * w.sigmaR
  }

  ghost predicate FastEnoughToLimit(c: Config, w: Window, ip: Ip) {
    var flows := LiveFlows(c, w.flows, w.now);
    var rate := RateOf(flows, w.victim, ip);
    Seen(flows, w.victim, ip) && rate >= c.ratelimitRateFloor && rate >= w.meanR + w.sigmaR
  }

  /** The last window of a run can block the source, by the numbers. */
  ghost predicate Blockable(c: Config, ws: seq<Window>, ip: Ip)
    requires ws != []
  {
    var w := ws[|ws| - 1];
    && ClassOf(c, w) == 2 && !Placeholder(w.dominant) && LastWindowsDdos(c, ws, w.victim, c.blockHysteresis)
    && ((DominantStandsOut(c, w) && ip == w.dominant) || FastEnoughToBlock(c, w, ip))
  }

  /**
   In every run: a source is blocked in the last window exactly when that window is class 2 with a known dominant
   source, the victim's last `blockHysteresis` windows were class 2, and the source is the concentrated dominant one
   or sends at or above the bar.
   */
  lemma BlockedIff(c: Config, ws: seq<Window>, calls: seq<Call>, ip: Ip)
    requires ws != [] && Made(c, ws[|ws| - 1], CountOf(c, ws, ws[|ws| - 1].victim), calls)
    ensures Blocked(calls, ip) <==> Blockable(c, ws, ip)
  {
    hide RatesOf, Concentrated, BlockBar, ClassOf, Seen, RateOf, LastWindowsDdos, CountOf, LimitBar, DominantRate, ActFor, Blocked;
    var w := ws[|ws| - 1];
    var count := CountOf(c, ws, w.victim);
    var rates := RatesOf(c, w);
    RatesUnique(c, w, rates);
    BlockedByPlan(c, w, count, rates, calls, ip);
    BlocksExactly(PlanOf(c, w, count, rates), ip);
    CounterIsStreak(c, ws, w.victim, c.blockHysteresis);
    BarsByNumbers(c, w, RateOf(LiveFlows(c, w.flows, w.now), w.victim, ip));
  }

  ghost predicate RateLimited(calls: seq<Call>, ip: Ip) {
    exists i :: 0 <= i < |calls| && calls[i].ip == ip && calls[i].act.Limit?
  }

  /** The last window of a run can limit the source, by the numbers: as a precaution, for its rate, or because nobody stands out. */
  ghost predicate Limitable(c: Config, ws: seq<Window>, ip: Ip)
    requires ws != []
  {
    var w := ws[|ws| - 1];
    && !Placeholder(w.dominant)
    && if ClassOf(c, w) == 2 then
         && !Blockable(c, ws, ip)
         && (FastEnoughToLimit(c, w, ip)
             || (Seen(LiveFlows(c, w.flows, w.now), w.victim, ip)
                 && forall x :: !Blockable(c, ws, x) && !FastEnoughToLimit(c, w, x)))
       else ClassOf(c, w) == 1 && DominantStandsOut(c, w) && ip == w.dominant
  }

  ghost predicate StandsOut(p: Plan, ip: Ip) {
    (ActFor(p, ip).Some? && ActFor(p, ip).value.Block?) || (ip in p.rates && p.rates[ip] >= p.limitBar)
  }

  lemma AttributedIsStandingOut(p: Plan)
    ensures Attributed(p) <==> exists ip :: StandsOut(p, ip)
  {
    if FastPath(p) {
      assert StandsOut(p, p.dominant);
    }
    forall ip
      ensures OverBar(p, ip) ==> StandsOut(p, ip)
      ensures StandsOut(p, ip) ==> Attributed(p)
    {
      BlocksExactly(p, ip);
      assert StandsOut(p, ip) && !FastPath(p) ==> OverBar(p, ip);
    }
  }

  lemma LimitsExactly(p: Plan, ip: Ip)
    ensures ActFor(p, ip).Some? && ActFor(p, ip).value.Limit? <==>
              && !(ActFor(p, ip).Some? && ActFor(p, ip).value.Block?) && ip in p.rates
              && (p.rates[ip] >= p.limitBar || !exists x :: StandsOut(p, x))
  {
    hide Attributed, StandsOut;
    AttributedIsStandingOut(p);
  }

  /**
   In every run: a source is rate-limited in the last window exactly as a precaution on a flash crowd, or on a class 2
   window when it is not blocked and is fast enough or nobody is fast enough for anything.
   */
  lemma LimitedIff(c: Config, ws: seq<Window>, calls: seq<Call>, ip: Ip)
    requires ws != [] && Made(c, ws[|ws| - 1], CountOf(c, ws, ws[|ws| - 1].victim), calls)
    ensures RateLimited(calls, ip) <==> Limitable(c, ws, ip)
  {
    hide RatesOf, Concentrated, BlockBar, ClassOf, Seen, RateOf, LastWindowsDdos, CountOf, LimitBar, DominantRate, ActFor, RateLimited,
      FastEnoughToLimit, FastEnoughToBlock, DominantStandsOut, Blockable, StandsOut;
    var w := ws[|ws| - 1];
    var count := CountOf(c, ws, w.victim);
    var rates := RatesOf(c, w);
    var plan := PlanOf(c, w, count, rates);
    RatesUnique(c, w, rates);
    LimitedByPlan(c, w, count, rates, calls, ip);
    LimitsExactly(plan, ip);
    PlanByNumbers(c, ws, rates, ip);
    if ClassOf(c, w) == 2 && !Placeholder(w.dominant) {
      forall x
        ensures StandsOut(plan, x) <==> Blockable(c, ws, x) || FastEnoughToLimit(c, w, x)
      {
        PlanByNumbers(c, ws, rates, x);
      }
    } else {
      BarsByNumbers(c, w, 0.0);
      DominantIs(c, w);
    }
  }

  lemma DominantIs(c: Config, w: Window)
    ensures Concentrated(c, w) <==> DominantStandsOut(c, w)
  {
  }

  lemma PlanByNumbers(c: Config, ws: seq<Window>, rates: map<Ip, real>, ip: Ip)
    requires ws != [] && IsRates(c, ws[|ws| - 1], rates)
    ensures var w := ws[|ws| - 1];
            var plan := PlanOf(c, w, CountOf(c, ws, w.victim), rates);
            ClassOf(c, w) == 2 && !Placeholder(w.dominant) ==>
              && ((ActFor(plan, ip).Some? && ActFor(plan, ip).value.Block?) <==> Blockable(c, ws, ip))
              && (ip in plan.rates && plan.rates[ip] >= plan.limitBar <==> FastEnoughToLimit(c, w, ip))
              && (StandsOut(plan, ip) <==> Blockable(c, ws, ip) || FastEnoughToLimit(c, w, ip))
              && (ip in plan.rates <==> Seen(LiveFlows(c, w.flows, w.now), w.victim, ip))
  {
    hide Concentrated, BlockBar, ClassOf, Seen, RateOf, LastWindowsDdos, CountOf, LimitBar, DominantRate, ActFor, LiveFlows;
    var w := ws[|ws| - 1];
    BlocksExactly(PlanOf(c, w, CountOf(c, ws, w.victim), rates), ip);
    BarsByNumbers(c, w, RateOf(LiveFlows(c, w.flows, w.now), w.victim, ip));
    CounterIsStreak(c, ws, w.victim, c.blockHysteresis);
  }

  lemma LimitedByPlan(c: Config, w: Window, count: nat, rates: map<Ip, real>, calls: seq<Call>, ip: Ip)
    requires MadeFrom(c, w, count, rates, calls)
    ensures RateLimited(calls, ip) <==>
              WindowAct(c, w, count, rates, ip).Some? && WindowAct(c, w, count, rates, ip).value.Limit?
  {
    hide WindowAct;
    if WindowAct(c, w, count, rates, ip).Some? {
      assert ip in Sources(calls);
      var i :| 0 <= i < |calls| && Sources(calls)[i] == ip;
      assert calls[i].ip == ip;
    }
  }

  /** The rate a call reports: the dominant share of the smoothed rate for the dominant source singled out, else the source's own total. */
  lemma CallRates(c: Config, w: Window, count: nat, calls: seq<Call>, i: nat)
    requires Made(c, w, count, calls) && i < |calls|
    ensures calls[i].act.rate ==
              if ClassOf(c, w) == 1 || (count >= c.blockHysteresis && DominantStandsOut(c, w) && calls[i].ip == w.dominant)
              then w.ewmaRate * w.dominantRatio
              else RateOf(LiveFlows(c, w.flows, w.now), w.victim, calls[i].ip)
  {
    hide RatesOf, BlockBar, ClassOf, Seen, RateOf, LimitBar, Concentrated, NoRepeats, Attributed;
    var rates := RatesOf(c, w);
    RatesUnique(c, w, rates);
    BarsByNumbers(c, w, 0.0);
    assert WindowAct(c, w, count, rates, calls[i].ip) == Some(calls[i].act);
  }

  /**
   In every run: the last window acts on someone exactly when its dominant source is known and it is class 2 with live
   flows or a concentrated source and the streak, or class 1 with a concentrated source.
   */
  lemma ActedOnIff(c: Config, ws: seq<Window>, calls: seq<Call>)
    requires ws != [] && Made(c, ws[|ws| - 1], CountOf(c, ws, ws[|ws| - 1].victim), calls)
    ensures var w := ws[|ws| - 1];
            var flows := LiveFlows(c, w.flows, w.now);
            calls != [] <==>
              && !Placeholder(w.dominant)
              && ((ClassOf(c, w) == 2
                   && ((exists ip :: Seen(flows, w.victim, ip))
                       || (Concentrated(c, w) && LastWindowsDdos(c, ws, w.victim, c.blockHysteresis))))
                  || (ClassOf(c, w) == 1 && Concentrated(c, w)))
  {
    hide RatesOf, Concentrated, BlockBar, ClassOf, Seen, RateOf, LastWindowsDdos, CountOf, LimitBar, DominantRate, ActFor;
    var w := ws[|ws| - 1];
    var count := CountOf(c, ws, w.victim);
    var rates := RatesOf(c, w);
    RatesUnique(c, w, rates);
    PlanActsIff(PlanOf(c, w, count, rates));
    CounterIsStreak(c, ws, w.victim, c.blockHysteresis);
    SomeoneCalled(c, w, count, rates, calls);
    assert rates != map[] <==> exists ip :: ip in rates;
  }

  lemma SomeoneCalled(c: Config, w: Window, count: nat, rates: map<Ip, real>, calls: seq<Call>)
    requires MadeFrom(c, w, count, rates, calls)
    ensures calls != [] <==> exists ip :: WindowAct(c, w, count, rates, ip).Some?
    ensures !Placeholder(w.dominant) && ClassOf(c, w) == 2 ==>
              (calls != [] <==> exists ip :: ActFor(PlanOf(c, w, count, rates), ip).Some?)
    ensures !Placeholder(w.dominant) && ClassOf(c, w) == 1 ==> (calls != [] <==> Concentrated(c, w))
  {
    hide ActFor, PlanOf, ClassOf, Concentrated, DominantRate;
    if calls != [] {
      assert Sources(calls)[0] in Sources(calls);
      assert WindowAct(c, w, count, rates, calls[0].ip).Some?;
    }
    if !Placeholder(w.dominant) && ClassOf(c, w) == 1 && Concentrated(c, w) {
      assert WindowAct(c, w, count, rates, w.dominant).Some?;
    }
    if ip :| WindowAct(c, w, count, rates, ip).Some? {
      assert ip in Sources(calls);
    }
    forall ip | !Placeholder(w.dominant) && ClassOf(c, w) == 2
      ensures WindowAct(c, w, count, rates, ip) == ActFor(PlanOf(c, w, count, rates), ip)
    {
    }
  }

  /** Warm-up windows name no dominant source, so nothing they show leads to a call. */
  lemma UnknownDominantActsOnNobody(c: Config, w: Window, count: nat, calls: seq<Call>)
    requires Placeholder(w.dominant) && Made(c, w, count, calls)
    ensures calls == []
  {
    assert calls != [] ==> WindowAct(c, w, count, RatesOf(c, w), calls[0].ip).Some?;
  }

  /**
   Such a window can be class 2 through the safety overrides alone, with a source above the block bar in the flow
   file: for every configuration, whatever the streak, it blocks and limits nobody.
   */
  lemma WarmupIsUnenforced(c: Config, victim: Ip, attacker: Ip, now: real) returns (w: Window)
    requires attacker != "" && !Placeholder(attacker) && 0.0 <= c.flowsMaxAge
    ensures w.predicted == 0 && w.dominant == "0.0.0.0" && w.victim == victim && ClassOf(c, w) == 2
    ensures var flows := LiveFlows(c, w.flows, now);
            w.now == now && Seen(flows, victim, attacker) && RateOf(flows, victim, attacker) >= BlockBar(c, w)
    ensures forall count, calls :: Made(c, w, count, calls) ==> calls == []
  {
    var flow := Flow(Some(attacker), Some(victim), Max(c.blockRateFloor, 0.0));
    w := Window(victim, 0, "0.0.0.0", 0.0, 1.0, 0.0, 0.0, 1.0, 0.0, 0.0, 0.0, Some(FlowFile(Some(now), [flow])), now);
    assert [flow][..0] == [];
    assert RateOf([], victim, attacker) == 0.0;
    assert Attributable([flow][0], victim);
    forall count, calls | Made(c, w, count, calls)
      ensures calls == []
    {
      UnknownDominantActsOnNobody(c, w, count, calls);
    }
  }
}
