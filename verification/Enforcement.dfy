/**
 Block and rate-limit calls: debounce, whitelist, shared (NAT) addresses, the incident log and the
 record of attacking sources, over any sequence of calls under fixed lists.

 A call carries its clock readings.  A block of a shared address reads the clock twice, once itself
 and once in the rate-limit call it turns into.
 */
module Enforcement {
  import opened Options
  import opened Lists

  type Ip = string

  const DEBOUNCE: real := 10.0

  datatype Kind = Blocked | RateLimited | RateLimitedFlash | Released

  datatype Incident = Incident(ip: Ip, kind: Kind, victim: Ip, rate: Option<real>, when: real)

  datatype Source = Source(victim: Ip, rate: Option<real>, when: real)

  /** An address put into one of the kernel sets, and the clock reading of the call that put it there. */
  datatype Add = Add(ip: Ip, when: real)

  /** The lists and the cap; `newest` is the sort-and-cut that pruning uses. */
  datatype Env = Env(whitelist: set<Ip>, shared: set<Ip>, max: nat, newest: map<Ip, Source> -> map<Ip, Source>)

  datatype State = State(
    blocklist: set<Ip>, ratelimit: set<Ip>, recent: map<Ip, real>, sources: map<Ip, Source>,
    log: seq<Incident>, adds: seq<Add>)

  const QUIET := State({}, {}, map[], map[], [], [])

  function Keep(max: nat): nat {
    max * 9 / 10
  }

  /** r holds `keep` of m's entries, none older than an entry left out. */
  ghost predicate IsNewest(m: map<Ip, Source>, r: map<Ip, Source>, keep: nat) {
    && |r| == keep && r.Keys <= m.Keys
    && (forall ip :: ip in r ==> r[ip] == m[ip])
    && forall a, b :: a in r && b in m && b !in r ==> m[a].when >= m[b].when
  }

  ghost predicate ValidEnv(env: Env) {
    forall m: map<Ip, Source> :: |m| > env.max ==> IsNewest(m, env.newest(m), Keep(env.max))
  }

  /** The i newest keys on one side, the rest on the other. */
  ghost predicate Divided(m: map<Ip, Source>, taken: set<Ip>, rest: set<Ip>, i: nat) {
    && |taken| == i && taken !! rest && taken + rest == m.Keys
    && forall a, b :: a in taken && b in rest ==> m[a].when >= m[b].when
  }

  lemma DividedStep(m: map<Ip, Source>, taken: set<Ip>, rest: set<Ip>, i: nat, top: Ip)
    requires Divided(m, taken, rest, i)
    requires top in rest && forall ip :: ip in rest ==> m[ip].when <= m[top].when
    ensures Divided(m, taken + {top}, rest - {top}, i + 1)
  {
  }

  lemma DividedRest(m: map<Ip, Source>, taken: set<Ip>, rest: set<Ip>, i: nat)
    requires Divided(m, taken, rest, i)
    ensures rest <= m.Keys && (i < |m| ==> rest != {})
  {
  }

  lemma DividedNewest(m: map<Ip, Source>, taken: set<Ip>, rest: set<Ip>, i: nat, r: map<Ip, Source>)
    requires Divided(m, taken, rest, i) && r.Keys == taken && forall ip :: ip in r ==> ip in m && r[ip] == m[ip]
    ensures IsNewest(m, r, i)
  {
  }

  /** Cutting a sorted list: the newest remaining entry is taken until enough are kept. */
  method TakeNewest(m: map<Ip, Source>, keep: nat) returns (r: map<Ip, Source>)
    requires keep <= |m|
    ensures IsNewest(m, r, keep)
  {
    hide IsNewest;
    var rest, taken: set<Ip> := m.Keys, {};
    for i := 0 to keep
      invariant Divided(m, taken, rest, i)
    {
      hide Divided;
      DividedRest(m, taken, rest, i);
      var top := NewestOf(m, rest);
      DividedStep(m, taken, rest, i, top);
      taken, rest := taken + {top}, rest - {top};
    }
    r := map ip | ip in taken :: m[ip];
    DividedNewest(m, taken, rest, keep, r);
  }

  method NewestOf(m: map<Ip, Source>, among: set<Ip>) returns (top: Ip)
    requires among != {} && among <= m.Keys
    ensures top in among && forall ip :: ip in among ==> m[ip].when <= m[top].when
  {
    var todo := among;
    top :| top in todo;
    todo := todo - {top};
    while todo != {}
      invariant todo <= among && top in among && top !in todo
      invariant forall ip :: ip in among && ip !in todo ==> m[ip].when <= m[top].when
      decreases |todo|
    {
      var ip :| ip in todo;
      if m[ip].when > m[top].when {
        top := ip;
      }
      todo := todo - {ip};
    }
  }

  // ----- one call -----

  /** A block names its address as an attacker; any lesser action clears it. */
  function Recorded(env: Env, sources: map<Ip, Source>, inc: Incident): map<Ip, Source> {
    if inc.kind != Blocked then sources - {inc.ip}
    else
      var m := sources[inc.ip := Source(inc.victim, inc.rate, inc.when)];
      if |m| > env.max then env.newest(m) else m
  }

  predicate Debounced(s: State, ip: Ip, now: real) {
    ip in s.recent && now - s.recent[ip] < DEBOUNCE
  }

  function Logged(env: Env, s: State, inc: Incident): State {
    s.(sources := Recorded(env, s.sources, inc), log := s.log + [inc], adds := s.adds + [Add(inc.ip, inc.when)])
  }

  function LimitIp(env: Env, s: State, ip: Ip, victim: Ip, rate: Option<real>, kind: Kind, now: real, ok: bool): State {
    if Debounced(s, ip, now) then s
    else
      var t := if ip in env.whitelist || !ok then s
               else Logged(env, s, Incident(ip, kind, victim, rate, now)).(ratelimit := s.ratelimit + {ip});
      t.(recent := t.recent[ip := now])
  }

  function BlockIp(env: Env, s: State, ip: Ip, victim: Ip, rate: Option<real>, now: real, later: real, ok: bool): State {
    if Debounced(s, ip, now) then s
    else
      var t := if ip in env.whitelist then s
               else if ip in env.shared then LimitIp(env, s, ip, victim, rate, RateLimited, later, ok)
               else if !ok then s
               else Logged(env, s, Incident(ip, Blocked, victim, rate, now)).(blocklist := s.blocklist + {ip});
      t.(recent := t.recent[ip := now])
  }

  function ReleaseIp(s: State, ip: Ip, victim: Ip, now: real): State {
    if ip in s.blocklist || ip in s.ratelimit
    then s.(blocklist := s.blocklist - {ip}, ratelimit := s.ratelimit - {ip},
            log := s.log + [Incident(ip, Released, victim, None, now)])
    else s
  }

  /** The running process.  `ok` is whether the kernel set accepted the address. */
  class Enforcer {
    const env: Env
    var blocklist: set<Ip>
    var ratelimit: set<Ip>
    var recent: map<Ip, real>
    var sources: map<Ip, Source>
    var log: seq<Incident>
    ghost var adds: seq<Add>

    constructor (env: Env)
      ensures this.env == env && View() == QUIET
    {
      this.env := env;
      blocklist, ratelimit, recent, sources, log, adds := {}, {}, map[], map[], [], [];
    }

    ghost function View(): State
      reads this
    {
      State(blocklist, ratelimit, recent, sources, log, adds)
    }

    method RecordDdosSource(inc: Incident)
      modifies this`sources
      ensures sources == Recorded(env, old(sources), inc)
    {
      if inc.kind != Blocked {
        sources := sources - {inc.ip};
        return;
      }
      sources := sources[inc.ip := Source(inc.victim, inc.rate, inc.when)];
      if |sources| > env.max {
        sources := env.newest(sources);
      }
    }

    method RatelimitIp(ip: Ip, victim: Ip, rate: Option<real>, kind: Kind, now: real, ok: bool)
      modifies this
      ensures View() == LimitIp(env, old(View()), ip, victim, rate, kind, now, ok)
    {
      hide Recorded;
      if ip in recent && now - recent[ip] < DEBOUNCE {
        return;
      }
      if ip !in env.whitelist && ok {
        var inc := Incident(ip, kind, victim, rate, now);
        ratelimit := ratelimit + {ip};
        log := log + [inc];
        adds := adds + [Add(ip, now)];
        RecordDdosSource(inc);
      }
      recent := recent[ip := now];
    }

    method Block(ip: Ip, victim: Ip, rate: Option<real>, now: real, later: real, ok: bool)
      modifies this
      ensures View() == BlockIp(env, old(View()), ip, victim, rate, now, later, ok)
    {
      hide Recorded, LimitIp;
      if ip in recent && now - recent[ip] < DEBOUNCE {
        return;
      }
      if ip !in env.whitelist {
        if ip in env.shared {
          RatelimitIp(ip, victim, rate, RateLimited, later, ok);
        } else if ok {
          var inc := Incident(ip, Blocked, victim, rate, now);
          blocklist := blocklist + {ip};
          log := log + [inc];
          adds := adds + [Add(ip, now)];
          RecordDdosSource(inc);
        }
      }
      recent := recent[ip := now];
    }
  }

  // ----- sequences of calls -----

  datatype Call =
    | Block(ip: Ip, victim: Ip, rate: Option<real>, now: real, later: real, ok: bool)
    | Limit(ip: Ip, victim: Ip, rate: Option<real>, flash: bool, now: real, ok: bool)
    | Release(ip: Ip, victim: Ip, now: real)

  function Step(env: Env, s: State, c: Call): State {
    match c
    case Block(ip, victim, rate, now, later, ok) => BlockIp(env, s, ip, victim, rate, now, later, ok)
    case Limit(ip, victim, rate, flash, now, ok) =>
      LimitIp(env, s, ip, victim, rate, if flash then RateLimitedFlash else RateLimited, now, ok)
    case Release(ip, victim, now) => ReleaseIp(s, ip, victim, now)
  }

  function After(env: Env, calls: seq<Call>): State {
    if calls == [] then QUIET else Step(env, After(env, calls[..|calls| - 1]), calls[|calls| - 1])
  }

  /** The second clock reading of a block comes at most d seconds after the first. */
  predicate Within(c: Call, d: real) {
    c.Block? ==> c.now <= c.later <= c.now + d
  }

  ghost predicate Safe(env: Env, s: State) {
    && (forall ip :: ip in s.blocklist ==> ip !in env.whitelist && ip !in env.shared)
    && (forall ip :: ip in s.ratelimit ==> ip !in env.whitelist)
    && (forall ip :: ip in s.sources ==> ip !in env.whitelist && ip !in env.shared)
    && |s.sources| <= env.max
  }

  ghost predicate Spaced(s: State, d: real) {
    && (forall i :: 0 <= i < |s.adds| ==> s.adds[i].ip in s.recent && s.adds[i].when <= s.recent[s.adds[i].ip] + d)
    && forall i, j :: 0 <= i < j < |s.adds| && s.adds[i].ip == s.adds[j].ip ==>
                        s.adds[j].when - s.adds[i].when >= DEBOUNCE - d
  }

  lemma RecordedBounded(env: Env, sources: map<Ip, Source>, inc: Incident)
    requires ValidEnv(env) && |sources| <= env.max
    ensures |Recorded(env, sources, inc)| <= env.max
    ensures forall ip :: ip in Recorded(env, sources, inc) ==> ip in sources || (ip == inc.ip && inc.kind == Blocked)
  {
  }

  /**
   A block of an address that takes the record over its cap leaves nine tenths of the cap, none of them older than one
   left out; any other block just adds its address, and any lesser action just removes it.
   */
  lemma RecordAfter(env: Env, sources: map<Ip, Source>, inc: Incident)
    requires ValidEnv(env)
    ensures var r, m := Recorded(env, sources, inc), sources[inc.ip := Source(inc.victim, inc.rate, inc.when)];
            if inc.kind != Blocked then r.Keys == sources.Keys - {inc.ip} && forall ip :: ip in r ==> r[ip] == sources[ip]
            else if |m| <= env.max then r == m
            else
              && 10 * |r| <= 9 * env.max < 10 * |r| + 10 && r.Keys <= m.Keys
              && forall ip, out :: ip in r && out in m && out !in r ==> r[ip] == m[ip] && m[ip].when >= m[out].when
  {
    assert 10 * Keep(env.max) <= 9 * env.max < 10 * Keep(env.max) + 10;
  }

  lemma {:induction false} SmallerKeys<T>(a: set<T>, b: set<T>)
    requires a <= b
    ensures |a| <= |b|
  {
    if x :| x in a {
      SmallerKeys(a - {x}, b - {x});
    }
  }

  lemma LimitSafe(env: Env, s: State, ip: Ip, victim: Ip, rate: Option<real>, kind: Kind, now: real, ok: bool)
    requires ValidEnv(env) && Safe(env, s) && kind != Blocked
    ensures Safe(env, LimitIp(env, s, ip, victim, rate, kind, now, ok))
  {
    hide Recorded, Debounced, ValidEnv;
    RecordedBounded(env, s.sources, Incident(ip, kind, victim, rate, now));
  }

  lemma BlockSafe(env: Env, s: State, ip: Ip, victim: Ip, rate: Option<real>, now: real, later: real, ok: bool)
    requires ValidEnv(env) && Safe(env, s)
    ensures Safe(env, BlockIp(env, s, ip, victim, rate, now, later, ok))
  {
    hide Recorded, Debounced, ValidEnv, LimitIp;
    LimitSafe(env, s, ip, victim, rate, RateLimited, later, ok);
    RecordedBounded(env, s.sources, Incident(ip, Blocked, victim, rate, now));
  }

  lemma StepSafe(env: Env, s: State, c: Call)
    requires ValidEnv(env) && Safe(env, s)
    ensures Safe(env, Step(env, s, c))
  {
    hide LimitIp, BlockIp, ValidEnv;
    match c {
      case Block(ip, victim, rate, now, later, ok) => BlockSafe(env, s, ip, victim, rate, now, later, ok);
      case Limit(ip, victim, rate, flash, now, ok) =>
        LimitSafe(env, s, ip, victim, rate, if flash then RateLimitedFlash else RateLimited, now, ok);
      case Release(_, _, _) =>
    }
  }

  /**
   Over any calls: no whitelisted address is in either kernel set or named an attacker, no shared
   address is in the blocklist or named an attacker, and the attacker record stays within its cap.
   */
  lemma {:induction false} AlwaysSafe(env: Env, calls: seq<Call>)
    requires ValidEnv(env)
    ensures Safe(env, After(env, calls))
  {
    hide ValidEnv, Step, Safe;
    if calls == [] {
      assert Safe(env, QUIET) by { QuietSafe(env); }
    } else {
      AlwaysSafe(env, calls[..|calls| - 1]);
      StepSafe(env, After(env, calls[..|calls| - 1]), calls[|calls| - 1]);
    }
  }

  lemma QuietSafe(env: Env)
    ensures Safe(env, QUIET)
  {
  }

  /** An add comes at least the debounce time after the address was last noted. */
  lemma AddSpaced(s: State, t: State, ip: Ip, when: real, noted: real, d: real)
    requires Spaced(s, d) && 0.0 <= d <= DEBOUNCE && noted <= when <= noted + d
    requires ip in s.recent ==> noted - s.recent[ip] >= DEBOUNCE
    requires t.recent == s.recent[ip := noted] && (t.adds == s.adds || t.adds == s.adds + [Add(ip, when)])
    ensures Spaced(t, d)
  {
  }

  lemma StepSpaced(env: Env, s: State, c: Call, d: real)
    requires Spaced(s, d) && 0.0 <= d <= DEBOUNCE && Within(c, d)
    ensures Spaced(Step(env, s, c), d)
  {
    hide Spaced, Recorded;
    var t := Step(env, s, c);
    match c {
      case Block(ip, victim, rate, now, later, ok) =>
        if !Debounced(s, ip, now) {
          var shared := ip !in env.whitelist && ip in env.shared;
          AddSpaced(s, t, ip, if shared then later else now, now, d);
        }
      case Limit(ip, victim, rate, flash, now, ok) =>
        if !Debounced(s, ip, now) {
          AddSpaced(s, t, ip, now, now, d);
        }
      case Release(_, _, _) =>
        ReleaseSpaced(s, t, d);
    }
  }

  lemma ReleaseSpaced(s: State, t: State, d: real)
    requires Spaced(s, d) && t.adds == s.adds && t.recent == s.recent
    ensures Spaced(t, d)
  {
  }

  /**
   Adds for one address are at least 10 - d seconds apart, d being the longest delay between a block
   call's two clock readings: 10 seconds with one reading per call.
   */
  lemma {:induction false} AddsSpaced(env: Env, calls: seq<Call>, d: real)
    requires 0.0 <= d <= DEBOUNCE && forall i :: 0 <= i < |calls| ==> Within(calls[i], d)
    ensures Spaced(After(env, calls), d)
  {
    hide Step, Within;
    if calls != [] {
      AddsSpaced(env, calls[..|calls| - 1], d);
      StepSpaced(env, After(env, calls[..|calls| - 1]), calls[|calls| - 1], d);
    }
  }

  /** The bound is reached: a block and a rate limit of a shared address can be exactly 10 - d seconds apart. */
  lemma SpacingIsTight(env: Env, ip: Ip, d: real)
    requires 0.0 <= d <= DEBOUNCE && ip in env.shared && ip !in env.whitelist
    ensures exists calls ::
              (forall i :: 0 <= i < |calls| ==> Within(calls[i], d)) &&
              var adds := After(env, calls).adds;
              |adds| == 2 && adds[0].ip == adds[1].ip == ip && adds[1].when - adds[0].when == DEBOUNCE - d
  {
    hide Recorded;
    var a := Block(ip, ip, None, 0.0, d, true);
    var b := Limit(ip, ip, None, false, DEBOUNCE, true);
    var calls := [a, b];
    assert calls[..1] == [a] && [a][..0] == [];
    assert After(env, [a]) == Step(env, QUIET, a);
    var s := After(env, [a]);
    assert s.adds == [Add(ip, d)] && s.recent == map[ip := 0.0];
    assert After(env, calls).adds == [Add(ip, d), Add(ip, DEBOUNCE)];
    assert Within(calls[0], d) && Within(calls[1], d);
  }

  // ----- who is in the kernel sets -----

  /** The call gets past the debounce, so its time is noted. */
  predicate Passes(s: State, c: Call) {
    !c.Release? && !Debounced(s, c.ip, c.now)
  }

  /** It puts its address into the blocklist: an accepted block of an address on neither list. */
  predicate Blocks(env: Env, s: State, c: Call) {
    Passes(s, c) && c.Block? && c.ok && c.ip !in env.whitelist && c.ip !in env.shared
  }

  /**
   It puts its address into the rate-limit set: an accepted limit, or an accepted block of a shared address whose
   second clock reading also gets past the debounce.
   */
  predicate Limits(env: Env, s: State, c: Call) {
    Passes(s, c) && c.ok && c.ip !in env.whitelist && (c.Block? ==> c.ip in env.shared && !Debounced(s, c.ip, c.later))
  }

  lemma SetsStep(env: Env, s: State, c: Call, ip: Ip)
    ensures var t := Step(env, s, c);
            if c.Release? && c.ip == ip then ip !in t.blocklist && ip !in t.ratelimit
            else
              && (ip in t.blocklist <==> ip in s.blocklist || (c.ip == ip && Blocks(env, s, c)))
              && (ip in t.ratelimit <==> ip in s.ratelimit || (c.ip == ip && Limits(env, s, c)))
  {
    hide Recorded;
  }

  lemma RecentStep(env: Env, s: State, c: Call, ip: Ip)
    ensures var t := Step(env, s, c);
            if c.ip == ip && Passes(s, c) then ip in t.recent && t.recent[ip] == c.now
            else (ip in t.recent <==> ip in s.recent) && (ip in s.recent ==> t.recent[ip] == s.recent[ip])
  {
    hide Recorded;
  }

  ghost predicate PassedAt(env: Env, calls: seq<Call>, ip: Ip, i: nat) {
    i < |calls| && calls[i].ip == ip && Passes(After(env, calls[..i]), calls[i])
  }

  ghost predicate BlockedAt(env: Env, calls: seq<Call>, ip: Ip, i: nat) {
    i < |calls| && calls[i].ip == ip && Blocks(env, After(env, calls[..i]), calls[i])
  }

  ghost predicate LimitedAt(env: Env, calls: seq<Call>, ip: Ip, i: nat) {
    i < |calls| && calls[i].ip == ip && Limits(env, After(env, calls[..i]), calls[i])
  }

  /** The latest call about the address that got past the debounce is the i-th. */
  ghost predicate LastPass(env: Env, calls: seq<Call>, ip: Ip, i: nat) {
    PassedAt(env, calls, ip, i) && forall j :: i < j < |calls| ==> !PassedAt(env, calls, ip, j)
  }

  ghost predicate NotReleasedSince(calls: seq<Call>, ip: Ip, i: nat) {
    forall j :: i < j < |calls| && calls[j].Release? ==> calls[j].ip != ip
  }

  lemma PrefixAt(env: Env, calls: seq<Call>, n: nat, ip: Ip, i: nat)
    requires i < n <= |calls|
    ensures PassedAt(env, calls[..n], ip, i) <==> PassedAt(env, calls, ip, i)
    ensures BlockedAt(env, calls[..n], ip, i) <==> BlockedAt(env, calls, ip, i)
    ensures LimitedAt(env, calls[..n], ip, i) <==> LimitedAt(env, calls, ip, i)
  {
    hide After, Passes, Blocks, Limits;
    assert calls[..n][..i] == calls[..i];
  }

  lemma LastPassStep(env: Env, calls: seq<Call>, ip: Ip, i: nat)
    requires calls != []
    ensures var n := |calls| - 1;
            LastPass(env, calls, ip, i) <==>
              if PassedAt(env, calls, ip, n) then i == n else i < n && LastPass(env, calls[..n], ip, i)
  {
    hide PassedAt;
    var n := |calls| - 1;
    forall j: nat | j < n
      ensures PassedAt(env, calls[..n], ip, j) <==> PassedAt(env, calls, ip, j)
    {
      PrefixAt(env, calls, n, ip, j);
    }
    assert i >= |calls| ==> !PassedAt(env, calls, ip, i) by {
      NotBeyond(env, calls, ip, i);
    }
  }

  lemma NotBeyond(env: Env, calls: seq<Call>, ip: Ip, i: nat)
    ensures PassedAt(env, calls, ip, i) ==> i < |calls|
  {
  }

  /** The noted time of an address is that of the latest call about it that got past the debounce. */
  lemma {:induction false} NotedLast(env: Env, calls: seq<Call>, ip: Ip)
    ensures ip in After(env, calls).recent ==> exists i: nat :: LastPass(env, calls, ip, i)
    ensures forall i: nat :: LastPass(env, calls, ip, i) ==>
                               i < |calls| && ip in After(env, calls).recent && After(env, calls).recent[ip] == calls[i].now
  {
    hide Step, LastPass, Passes;
    if calls == [] {
      forall i: nat
        ensures !LastPass(env, calls, ip, i)
      {
        NothingPassed(env, ip, i);
      }
    } else {
      var n := |calls| - 1;
      var p := calls[..n];
      NotedLast(env, p, ip);
      RecentStep(env, After(env, p), calls[n], ip);
      forall i: nat
        ensures LastPass(env, calls, ip, i) <==>
                  if PassedAt(env, calls, ip, n) then i == n else i < n && LastPass(env, p, ip, i)
      {
        LastPassStep(env, calls, ip, i);
      }
      assert PassedAt(env, calls, ip, n) ==> LastPass(env, calls, ip, n);
    }
  }

  lemma NothingPassed(env: Env, ip: Ip, i: nat)
    ensures !LastPass(env, [], ip, i)
  {
  }

  /** A call is debounced exactly when it comes less than 10 seconds after the latest one about its address that was not. */
  lemma DebouncedIff(env: Env, calls: seq<Call>, ip: Ip, now: real)
    ensures Debounced(After(env, calls), ip, now) <==>
              exists i: nat :: LastPass(env, calls, ip, i) && i < |calls| && now - calls[i].now < 10.0
  {
    hide After, LastPass;
    NotedLast(env, calls, ip);
  }

  lemma SinceStep(calls: seq<Call>, ip: Ip, i: nat)
    requires i < |calls|
    ensures var n := |calls| - 1;
            NotReleasedSince(calls, ip, i) <==>
              i == n || (NotReleasedSince(calls[..n], ip, i) && !(calls[n].Release? && calls[n].ip == ip))
  {
    var n := |calls| - 1;
    assert forall j :: 0 <= j < n ==> calls[..n][j] == calls[j];
  }

  /** After any calls an address is blocked exactly when some call blocked it and none released it since. */
  lemma {:induction false} BlocklistIff(env: Env, calls: seq<Call>, ip: Ip)
    ensures ip in After(env, calls).blocklist <==>
              exists i: nat :: BlockedAt(env, calls, ip, i) && NotReleasedSince(calls, ip, i)
  {
    hide Step, NotReleasedSince, Blocks, Limits;
    if calls != [] {
      var n := |calls| - 1;
      BlocklistIff(env, calls[..n], ip);
      SetsStep(env, After(env, calls[..n]), calls[n], ip);
      forall i: nat | i < n
        ensures BlockedAt(env, calls[..n], ip, i) <==> BlockedAt(env, calls, ip, i)
      {
        PrefixAt(env, calls, n, ip, i);
      }
      forall i: nat | i < |calls|
        ensures NotReleasedSince(calls, ip, i) <==>
                  i == n || (NotReleasedSince(calls[..n], ip, i) && !(calls[n].Release? && calls[n].ip == ip))
      {
        SinceStep(calls, ip, i);
      }
      ReleaseDoesNotBlock(env, After(env, calls[..n]), calls[n]);
      assert BlockedAt(env, calls, ip, n) ==> NotReleasedSince(calls, ip, n);
      assert ip in After(env, calls[..n]).blocklist && !(calls[n].Release? && calls[n].ip == ip) ==>
          exists i: nat :: BlockedAt(env, calls, ip, i) && NotReleasedSince(calls, ip, i);
    }
  }

  /** And rate-limited exactly when some call limited it and none released it since. */
  lemma {:induction false} RatelimitIff(env: Env, calls: seq<Call>, ip: Ip)
    ensures ip in After(env, calls).ratelimit <==>
              exists i: nat :: LimitedAt(env, calls, ip, i) && NotReleasedSince(calls, ip, i)
  {
    hide Step, NotReleasedSince, Blocks, Limits;
    if calls != [] {
      var n := |calls| - 1;
      RatelimitIff(env, calls[..n], ip);
      SetsStep(env, After(env, calls[..n]), calls[n], ip);
      forall i: nat | i < n
        ensures LimitedAt(env, calls[..n], ip, i) <==> LimitedAt(env, calls, ip, i)
      {
        PrefixAt(env, calls, n, ip, i);
      }
      forall i: nat | i < |calls|
        ensures NotReleasedSince(calls, ip, i) <==>
                  i == n || (NotReleasedSince(calls[..n], ip, i) && !(calls[n].Release? && calls[n].ip == ip))
      {
        SinceStep(calls, ip, i);
      }
      ReleaseDoesNotBlock(env, After(env, calls[..n]), calls[n]);
      assert LimitedAt(env, calls, ip, n) ==> NotReleasedSince(calls, ip, n);
      assert ip in After(env, calls[..n]).ratelimit && !(calls[n].Release? && calls[n].ip == ip) ==>
          exists i: nat :: LimitedAt(env, calls, ip, i) && NotReleasedSince(calls, ip, i);
    }
  }

  lemma ReleaseDoesNotBlock(env: Env, s: State, c: Call)
    ensures c.Release? ==> !Blocks(env, s, c) && !Limits(env, s, c)
  {
  }

  // ----- the log -----

  /** What a call writes to the log, if it takes effect. */
  function Entry(env: Env, s: State, c: Call): Option<Incident> {
    match c
    case Block(ip, victim, rate, now, later, _) =>
      if Blocks(env, s, c) then Some(Incident(ip, Blocked, victim, rate, now))
      else if Limits(env, s, c) then Some(Incident(ip, RateLimited, victim, rate, later)) else None
    case Limit(ip, victim, rate, flash, now, _) =>
      if Limits(env, s, c) then Some(Incident(ip, if flash then RateLimitedFlash else RateLimited, victim, rate, now)) else None
    case Release(ip, victim, now) =>
      if ip in s.blocklist || ip in s.ratelimit then Some(Incident(ip, Released, victim, None, now)) else None
  }

  /** A call that takes effect adds exactly one entry to the log, and to the adds unless it releases; no other adds any. */
  lemma LogGrows(env: Env, s: State, c: Call)
    ensures var t, e := Step(env, s, c), Entry(env, s, c);
            && t.log == s.log + (if e.Some? then [e.value] else [])
            && t.adds == s.adds + if e.Some? && e.value.kind != Released then [Add(e.value.ip, e.value.when)] else []
  {
    hide Recorded;
    assert s.log + [] == s.log && s.adds + [] == s.adds;
  }

  // ----- restart -----

  /** What the log says about each address: its latest action, when that was a block. */
  function Latest(log: seq<Incident>): map<Ip, Source> {
    if log == [] then map[]
    else
      var m, inc := Latest(log[..|log| - 1]), log[|log| - 1];
      if inc.kind == Released then m
      else if inc.kind == Blocked then m[inc.ip := Source(inc.victim, inc.rate, inc.when)]
      else m - {inc.ip}
  }

  ghost predicate BelowCap(env: Env, log: seq<Incident>) {
    forall k :: 0 <= k <= |log| ==> |Latest(log[..k])| <= env.max
  }

  lemma BelowCapPrefix(env: Env, log: seq<Incident>, inc: Incident)
    requires BelowCap(env, log + [inc])
    ensures BelowCap(env, log) && |Latest(log + [inc])| <= env.max && (log + [inc])[..|log|] == log
  {
    hide Latest;
    var all := log + [inc];
    assert all[..|all|] == all;
    forall k | 0 <= k <= |log|
      ensures |Latest(log[..k])| <= env.max
    {
      assert all[..k] == log[..k];
    }
  }

  /** Below the cap the live record is exactly what the log says. */
  lemma LoggedIsLatest(env: Env, s: State, inc: Incident)
    requires inc.kind != Released && BelowCap(env, s.log + [inc]) && s.sources == Latest(s.log)
    ensures Logged(env, s, inc).sources == Latest(s.log + [inc])
  {
    BelowCapPrefix(env, s.log, inc);
  }

  lemma StepIsLatest(env: Env, s: State, c: Call)
    requires BelowCap(env, Step(env, s, c).log) && (BelowCap(env, s.log) ==> s.sources == Latest(s.log))
    ensures Step(env, s, c).sources == Latest(Step(env, s, c).log)
  {
    hide Recorded, BelowCap, Latest;
    match c {
      case Block(ip, victim, rate, now, later, ok) =>
        var inc := Incident(ip, if ip in env.shared then RateLimited else Blocked, victim, rate,
                            if ip in env.shared then later else now);
        if Step(env, s, c).log == s.log + [inc] {
          BelowCapPrefix(env, s.log, inc);
          LoggedIsLatest(env, s, inc);
        }
      case Limit(ip, victim, rate, flash, now, ok) =>
        var inc := Incident(ip, if flash then RateLimitedFlash else RateLimited, victim, rate, now);
        if Step(env, s, c).log == s.log + [inc] {
          BelowCapPrefix(env, s.log, inc);
          LoggedIsLatest(env, s, inc);
        }
      case Release(ip, victim, now) =>
        var inc := Incident(ip, Released, victim, None, now);
        if Step(env, s, c).log == s.log + [inc] {
          BelowCapPrefix(env, s.log, inc);
          ReleasedKeepsLatest(s.log, inc);
        }
    }
  }

  lemma ReleasedKeepsLatest(log: seq<Incident>, inc: Incident)
    requires inc.kind == Released
    ensures Latest(log + [inc]) == Latest(log)
  {
  }

  lemma {:induction false} LiveIsLatest(env: Env, calls: seq<Call>)
    ensures BelowCap(env, After(env, calls).log) ==> After(env, calls).sources == Latest(After(env, calls).log)
  {
    hide Step, BelowCap;
    if calls != [] {
      var s := After(env, calls[..|calls| - 1]);
      LiveIsLatest(env, calls[..|calls| - 1]);
      if BelowCap(env, After(env, calls).log) {
        StepIsLatest(env, s, calls[|calls| - 1]);
      }
    }
  }

  predicate Relevant(inc: Incident) {
    inc.kind != Released
  }

  lemma {:induction false} LatestRelevant(log: seq<Incident>)
    ensures Latest(Select(Relevant, log)) == Latest(log)
  {
    if log != [] {
      var init, inc := log[..|log| - 1], log[|log| - 1];
      LatestRelevant(init);
      var sel := Select(Relevant, init);
      assert (sel + [inc])[..|sel|] == sel;
    }
  }

  /** An address's last relevant row decides whether it is in the record. */
  lemma {:induction false} LatestByLast(log: seq<Incident>, k: nat)
    requires k < |log| && (forall i :: 0 <= i < |log| ==> Relevant(log[i]))
    requires forall j :: k < j < |log| ==> log[j].ip != log[k].ip
    ensures var m, inc := Latest(log), log[k];
            if inc.kind == Blocked then inc.ip in m && m[inc.ip] == Source(inc.victim, inc.rate, inc.when) else inc.ip !in m
  {
    if k < |log| - 1 {
      LatestByLast(log[..|log| - 1], k);
      assert log[..|log| - 1][k] == log[k];
    }
  }

  lemma {:induction false} LatestMentioned(log: seq<Incident>, ip: Ip)
    requires ip in Latest(log)
    ensures exists k :: 0 <= k < |log| && log[k].ip == ip
  {
    var inc := log[|log| - 1];
    if inc.ip != ip {
      LatestMentioned(log[..|log| - 1], ip);
      var k :| 0 <= k < |log| - 1 && log[..|log| - 1][k].ip == ip;
      assert log[k].ip == ip;
    }
  }

  /** The addresses of the rows from index n on. */
  ghost function IpsFrom(rows: seq<Incident>, n: int): set<Ip> {
    set j | 0 <= j < |rows| && n <= j :: rows[j].ip
  }

  /** The record agrees with the goal on the addresses seen, and holds nothing else. */
  ghost predicate Rebuilt(sources: map<Ip, Source>, goal: map<Ip, Source>, seen: set<Ip>) {
    forall ip :: (ip in sources <==> ip in seen && ip in goal) && (ip in sources ==> sources[ip] == goal[ip])
  }

  /**
   The restart replay, newest row first, one row per address.  When the log fits the query limit and
   the record fits the cap, it rebuilds exactly what the log says.
   */
  method LoadDdosSources(env: Env, log: seq<Incident>) returns (sources: map<Ip, Source>)
    requires ValidEnv(env)
    ensures |sources| <= env.max
    ensures |Select(Relevant, log)| <= 4 * env.max && |Latest(log)| <= env.max ==> sources == Latest(log)
  {
    hide ValidEnv, Recorded, Latest, Rebuilt, IpsFrom, Select, Relevant, AllRelevant;
    var rows := Select(Relevant, log);
    LatestRelevant(log);
    RelevantRows(log);
    var count := if |rows| <= 4 * env.max then |rows| else 4 * env.max;
    ghost var goal := Latest(rows);
    sources := map[];
    var seen: set<Ip> := {};
    ReplayStart(rows, goal);
    for i := 0 to count
      invariant |sources| <= env.max && seen == IpsFrom(rows, |rows| - i)
      invariant |goal| <= env.max ==> Rebuilt(sources, goal, seen)
    {
      var k := |rows| - 1 - i;
      var inc := rows[k];
      IpsStep(rows, k);
      if inc.ip !in seen {
        RecordedBounded(env, sources, inc);
        if |goal| <= env.max {
          ReplayStep(env, rows, k, sources, seen);
        }
        sources := Recorded(env, sources, inc);
        seen := seen + {inc.ip};
      }
    }
    if count == |rows| && |goal| <= env.max {
      ReplayEnd(rows, sources, seen);
    }
  }

  lemma ReplayStart(rows: seq<Incident>, goal: map<Ip, Source>)
    ensures IpsFrom(rows, |rows|) == {} && Rebuilt(map[], goal, {})
  {
  }

  lemma IpsStep(rows: seq<Incident>, k: nat)
    requires k < |rows|
    ensures IpsFrom(rows, k) == IpsFrom(rows, k + 1) + {rows[k].ip}
  {
  }

  lemma ReplayEnd(rows: seq<Incident>, sources: map<Ip, Source>, seen: set<Ip>)
    requires seen == IpsFrom(rows, 0) && Rebuilt(sources, Latest(rows), seen)
    ensures sources == Latest(rows)
  {
    hide Latest;
    var goal := Latest(rows);
    forall ip | ip in goal
      ensures ip in sources
    {
      LatestMentioned(rows, ip);
    }
    assert sources.Keys == goal.Keys;
  }

  ghost predicate AllRelevant(rows: seq<Incident>) {
    forall i :: 0 <= i < |rows| ==> Relevant(rows[i])
  }

  lemma RelevantRows(log: seq<Incident>)
    ensures AllRelevant(Select(Relevant, log))
  {
  }

  /** Replaying an address's newest row settles it for good, without pruning. */
  lemma ReplayStep(env: Env, rows: seq<Incident>, k: nat, sources: map<Ip, Source>, seen: set<Ip>)
    requires k < |rows| && AllRelevant(rows)
    requires |Latest(rows)| <= env.max && seen == IpsFrom(rows, k + 1) && rows[k].ip !in seen
    requires Rebuilt(sources, Latest(rows), seen)
    ensures Rebuilt(Recorded(env, sources, rows[k]), Latest(rows), seen + {rows[k].ip})
  {
    hide Latest, Rebuilt, Recorded;
    var goal, inc := Latest(rows), rows[k];
    forall j | k < j < |rows|
      ensures rows[j].ip != inc.ip
    {
      assert rows[j].ip in IpsFrom(rows, k + 1);
    }
    LatestByLast(rows, k);
    SettleOne(env, goal, inc, sources, seen);
  }

  lemma SettleOne(env: Env, goal: map<Ip, Source>, inc: Incident, sources: map<Ip, Source>, seen: set<Ip>)
    requires |goal| <= env.max && inc.ip !in seen && Rebuilt(sources, goal, seen)
    requires if inc.kind == Blocked then inc.ip in goal && goal[inc.ip] == Source(inc.victim, inc.rate, inc.when)
             else inc.ip !in goal
    ensures Rebuilt(Recorded(env, sources, inc), goal, seen + {inc.ip})
  {
    var m := sources[inc.ip := Source(inc.victim, inc.rate, inc.when)];
    if inc.kind == Blocked {
      assert m.Keys == sources.Keys + {inc.ip};
      SmallerKeys(m.Keys, goal.Keys);
    }
  }

  /** Below the cap and the log limit, a restart holds exactly the map the live process held. */
  method Restart(env: Env, ghost calls: seq<Call>, log: seq<Incident>) returns (sources: map<Ip, Source>)
    requires ValidEnv(env) && log == After(env, calls).log
    ensures BelowCap(env, log) && |Select(Relevant, log)| <= 4 * env.max ==> sources == After(env, calls).sources
  {
    hide After, Latest, ValidEnv;
    sources := LoadDdosSources(env, log);
    LiveIsLatest(env, calls);
    assert log[..|log|] == log;
  }
}
