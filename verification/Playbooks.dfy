/**
 Playbook runs: a trigger starts a run, and once per window every running run fires its current
 stage when that stage's delay has passed.  The two tables hold runs and fired stages; a run's id is
 its position.  Stored definitions are fixed; one that does not validate is `None`.
 */
module Playbooks {
  import opened Options
  import opened Lists

  datatype Trigger = TierReached(min: int) | Persistence(windows: int) | Scale(hosts: int)

  datatype Stage = Stage(kind: string, delay: real)

  datatype Definition = Definition(triggers: seq<Trigger>, all: bool, stages: seq<Stage>)

  datatype Scope = All | Host(host: string) | Subnet(cidr: string)

  datatype Playbook = Playbook(enabled: bool, scope: Scope, definition: Option<Definition>)

  datatype Run = Run(playbook: nat, host: string, source: string, index: nat, running: bool, started: real, updated: real)

  datatype Event = Event(run: nat, stage: nat, at: real)

  datatype State = State(runs: seq<Run>, events: seq<Event>)

  /** What a window tells the triggers. */
  datatype Signal = Signal(host: string, tier: int, consecutive: int, hosts: int, source: string)

  ghost predicate ValidDefinition(d: Definition) {
    d.triggers != [] && d.stages != [] && forall i :: 0 <= i < |d.stages| ==> d.stages[i].delay >= 0.0
  }

  ghost predicate ValidTable(ps: seq<Playbook>) {
    forall i :: 0 <= i < |ps| && ps[i].definition.Some? ==> ValidDefinition(ps[i].definition.value)
  }

  // ----- triggers -----

  predicate TriggerFires(t: Trigger, w: Signal) {
    match t
    case TierReached(min) => w.tier >= min
    case Persistence(n) => w.consecutive >= n
    case Scale(n) => w.hosts >= n
  }

  predicate EvaluateTriggers(d: Definition, w: Signal) {
    if d.all then forall i :: 0 <= i < |d.triggers| ==> TriggerFires(d.triggers[i], w)
    else exists i :: 0 <= i < |d.triggers| && TriggerFires(d.triggers[i], w)
  }

  /** A worse window fires whatever a milder one fires. */
  lemma TriggersMonotone(d: Definition, mild: Signal, worse: Signal)
    requires mild.tier <= worse.tier && mild.consecutive <= worse.consecutive && mild.hosts <= worse.hosts
    requires EvaluateTriggers(d, mild)
    ensures EvaluateTriggers(d, worse)
  {
    if d.all {
      assert forall i :: 0 <= i < |d.triggers| ==> TriggerFires(d.triggers[i], mild);
    } else {
      var i :| 0 <= i < |d.triggers| && TriggerFires(d.triggers[i], mild);
      assert TriggerFires(d.triggers[i], worse);
    }
  }

  /** The three kinds of trigger, in the window's numbers. */
  ghost predicate Met(t: Trigger, w: Signal) {
    && (t.TierReached? ==> t.min <= w.tier)
    && (t.Persistence? ==> t.windows <= w.consecutive)
    && (t.Scale? ==> t.hosts <= w.hosts)
  }

  /** A playbook with mode "all" fires when no trigger is unmet, any other when some trigger is met. */
  lemma TriggersByNumbers(d: Definition, w: Signal)
    ensures d.all ==> (EvaluateTriggers(d, w) <==> forall t :: t in d.triggers ==> Met(t, w))
    ensures !d.all ==> (EvaluateTriggers(d, w) <==> exists t :: t in d.triggers && Met(t, w))
  {
    forall i | 0 <= i < |d.triggers|
      ensures TriggerFires(d.triggers[i], w) <==> Met(d.triggers[i], w)
      ensures d.triggers[i] in d.triggers
    {
    }
  }

  predicate AppliesTo(p: Playbook, host: string) {
    p.enabled && (p.scope.All? || (p.scope.Host? && p.scope.host == host))
  }

  /** A running run of this playbook for this host. */
  predicate Active(s: State, playbook: nat, host: string) {
    exists i :: 0 <= i < |s.runs| && s.runs[i].running && s.runs[i].playbook == playbook && s.runs[i].host == host
  }

  predicate Starts(ps: seq<Playbook>, s: State, k: nat, w: Signal)
    requires k < |ps|
  {
    AppliesTo(ps[k], w.host) && !Active(s, k, w.host) && ps[k].definition.Some? && EvaluateTriggers(ps[k].definition.value, w)
  }

  function StartOne(ps: seq<Playbook>, s: State, k: nat, w: Signal, now: real): State
    requires k < |ps|
  {
    if Starts(ps, s, k, w) then s.(runs := s.runs + [Run(k, w.host, w.source, 0, true, now, now)]) else s
  }

  function StartUpTo(ps: seq<Playbook>, s: State, k: nat, w: Signal, now: real): State
    requires k <= |ps|
  {
    if k == 0 then s else StartOne(ps, StartUpTo(ps, s, k - 1, w, now), k - 1, w, now)
  }

  /**
   A window's check starts exactly the runs it should: afterwards a playbook is active for the host
   if it was before or its trigger fired, and the tables are otherwise only extended.
   */
  lemma {:induction false} StartsExactly(ps: seq<Playbook>, s: State, n: nat, w: Signal, now: real, k: nat)
    requires n <= |ps| && k < |ps|
    ensures var t := StartUpTo(ps, s, n, w, now);
            && (Active(t, k, w.host) <==> Active(s, k, w.host) || (k < n && Starts(ps, s, k, w)))
            && s.runs <= t.runs && t.events == s.events
  {
    hide EvaluateTriggers, AppliesTo;
    if n > 0 {
      StartsExactly(ps, s, n - 1, w, now, k);
      StartsExactly(ps, s, n - 1, w, now, n - 1);
      var t := StartUpTo(ps, s, n - 1, w, now);
      if Starts(ps, t, n - 1, w) {
        StartActive(t, Run(n - 1, w.host, w.source, 0, true, now, now), k, w.host);
      }
    }
  }

  /** Every run a check adds is a fresh one, of a playbook that starts, for the window's host and source. */
  lemma {:induction false} NewRunsAre(ps: seq<Playbook>, s: State, n: nat, w: Signal, now: real, i: nat)
    requires n <= |ps| && |s.runs| <= i < |StartUpTo(ps, s, n, w, now).runs|
    ensures var r := StartUpTo(ps, s, n, w, now).runs[i];
            r.playbook < n && Starts(ps, s, r.playbook, w) && r == Run(r.playbook, w.host, w.source, 0, true, now, now)
  {
    hide EvaluateTriggers, AppliesTo, Active;
    if n > 0 {
      var t := StartUpTo(ps, s, n - 1, w, now);
      StartsExactly(ps, s, n - 1, w, now, n - 1);
      if i < |t.runs| {
        NewRunsAre(ps, s, n - 1, w, now, i);
      }
    }
  }

  /** Which playbooks start: enabled, for this host, not running for it, readable, with their triggers fired. */
  lemma StartsByFields(ps: seq<Playbook>, s: State, k: nat, w: Signal)
    requires k < |ps|
    ensures Starts(ps, s, k, w) <==>
              && ps[k].enabled && (ps[k].scope == All || ps[k].scope == Host(w.host))
              && (forall i :: 0 <= i < |s.runs| && s.runs[i].playbook == k && s.runs[i].host == w.host ==> !s.runs[i].running)
              && ps[k].definition.Some? && EvaluateTriggers(ps[k].definition.value, w)
  {
    hide EvaluateTriggers;
  }

  lemma StartActive(s: State, r: Run, k: nat, host: string)
    requires r.running
    ensures Active(s.(runs := s.runs + [r]), k, host) <==> Active(s, k, host) || (r.playbook == k && r.host == host)
  {
    var t := s.(runs := s.runs + [r]);
    if Active(s, k, host) {
      var i :| 0 <= i < |s.runs| && s.runs[i].running && s.runs[i].playbook == k && s.runs[i].host == host;
      assert t.runs[i] == s.runs[i];
    }
    if r.playbook == k && r.host == host {
      assert t.runs[|s.runs|] == r;
    }
  }

  // ----- stages -----

  function StagesOf(ps: seq<Playbook>, r: Run): Option<seq<Stage>> {
    if r.playbook < |ps| && ps[r.playbook].definition.Some? then Some(ps[r.playbook].definition.value.stages) else None
  }

  /** One run at one moment: nothing, or its current stage fires and the run moves on or completes. */
  function AdvanceOne(ps: seq<Playbook>, s: State, id: nat, now: real): State
    requires id < |s.runs|
  {
    var r := s.runs[id];
    var stages := StagesOf(ps, r);
    if !r.running || stages.None? then s
    else if r.index >= |stages.value| then s.(runs := s.runs[id := r.(running := false, updated := now)])
    else if now - r.updated < stages.value[r.index].delay then s
    else
      var next := if r.index + 1 < |stages.value| then r.(index := r.index + 1, updated := now)
                  else r.(running := false, updated := now);
      State(s.runs[id := next], s.events + [Event(id, r.index, now)])
  }

  function AdvanceUpTo(ps: seq<Playbook>, s: State, n: nat, now: real): (t: State)
    requires n <= |s.runs|
    ensures |t.runs| == |s.runs|
  {
    if n == 0 then s else AdvanceOne(ps, AdvanceUpTo(ps, s, n - 1, now), n - 1, now)
  }

  /** The tables, and the two passes made every window. */
  class PlaybookStore {
    const playbooks: seq<Playbook>
    var runs: seq<Run>
    var events: seq<Event>

    constructor (playbooks: seq<Playbook>)
      ensures this.playbooks == playbooks && Tables() == State([], [])
    {
      this.playbooks, this.runs, this.events := playbooks, [], [];
    }

    function Tables(): State
      reads this
    {
      State(runs, events)
    }

    method CheckAndStartRuns(w: Signal, now: real)
      modifies this
      ensures Tables() == StartUpTo(playbooks, old(Tables()), |playbooks|, w, now)
    {
      hide EvaluateTriggers;
      for k := 0 to |playbooks|
        invariant Tables() == StartUpTo(playbooks, old(Tables()), k, w, now)
      {
        var p := playbooks[k];
        if AppliesTo(p, w.host) && !Active(Tables(), k, w.host) && p.definition.Some? {
          if EvaluateTriggers(p.definition.value, w) {
            runs := runs + [Run(k, w.host, w.source, 0, true, now, now)];
          }
        }
      }
    }

    method AdvanceRuns(now: real)
      modifies this
      ensures Tables() == AdvanceUpTo(playbooks, old(Tables()), |old(runs)|, now)
    {
      hide StagesOf;
      for id := 0 to |runs|
        invariant |runs| == |old(runs)| && Tables() == AdvanceUpTo(playbooks, old(Tables()), id, now)
      {
        var r := runs[id];
        var stages := StagesOf(playbooks, r);
        if r.running && stages.Some? {
          if r.index >= |stages.value| {
            runs := runs[id := r.(running := false, updated := now)];
          } else if now - r.updated >= stages.value[r.index].delay {
            events := events + [Event(id, r.index, now)];
            var next := r.index + 1;
            runs := runs[id := if next < |stages.value| then r.(index := next, updated := now)
                               else r.(running := false, updated := now)];
          }
        }
      }
    }
  }

  // ----- runs of the whole engine -----

  datatype Op = Check(w: Signal, now: real) | Advance(now: real)

  function Step(ps: seq<Playbook>, s: State, op: Op): State {
    match op
    case Check(w, now) => StartUpTo(ps, s, |ps|, w, now)
    case Advance(now) => AdvanceUpTo(ps, s, |s.runs|, now)
  }

  function After(ps: seq<Playbook>, ops: seq<Op>): State {
    if ops == [] then State([], []) else Step(ps, After(ps, ops[..|ops| - 1]), ops[|ops| - 1])
  }

  function ForRun(id: nat): Event -> bool {
    (e: Event) => e.run == id
  }

  function EventsOf(s: State, id: nat): seq<Event> {
    Select(ForRun(id), s.events)
  }

  /** Delays of the first k stages together. */
  function DelayOf(stages: seq<Stage>, k: nat): real
    requires k <= |stages|
  {
    if k == 0 then 0.0 else DelayOf(stages, k - 1) + stages[k - 1].delay
  }

  /** How many stages a run has fired. */
  function Fired(r: Run, stages: seq<Stage>): nat {
    if r.running then r.index else |stages|
  }

  /**
   A run in order: its events are exactly the stages fired so far, in order and once each; stage k
   came no earlier than the start plus the delays up to k; a completed run fired every stage.
   */
  ghost predicate RunInOrder(ps: seq<Playbook>, r: Run, own: seq<Event>) {
    StagesOf(ps, r).Some? &&
    var stages := StagesOf(ps, r).value;
    && r.index < |stages| && |own| == Fired(r, stages)
    && (forall k :: 0 <= k < |own| ==> own[k].stage == k && own[k].at >= r.started + DelayOf(stages, k + 1))
    && r.updated >= r.started + DelayOf(stages, |own|)
  }

  ghost predicate OneRunEach(s: State) {
    forall i, j :: 0 <= i < j < |s.runs| && s.runs[i].running && s.runs[j].running ==>
                     s.runs[i].playbook != s.runs[j].playbook || s.runs[i].host != s.runs[j].host
  }

  ghost predicate Orderly(ps: seq<Playbook>, s: State) {
    && (forall id :: 0 <= id < |s.runs| ==> RunInOrder(ps, s.runs[id], EventsOf(s, id)))
    && (forall i :: 0 <= i < |s.events| ==> s.events[i].run < |s.runs|)
    && OneRunEach(s)
  }

  lemma NoEventsYet(s: State, id: nat)
    requires forall i :: 0 <= i < |s.events| ==> s.events[i].run < id
    ensures EventsOf(s, id) == []
  {
    if EventsOf(s, id) != [] {
      SelectMember(ForRun(id), s.events, EventsOf(s, id)[0]);
    }
  }

  lemma StartOrderly(ps: seq<Playbook>, s: State, k: nat, w: Signal, now: real)
    requires ValidTable(ps) && k < |ps| && Orderly(ps, s)
    ensures Orderly(ps, StartOne(ps, s, k, w, now))
  {
    hide EvaluateTriggers, AppliesTo, EventsOf;
    var t := StartOne(ps, s, k, w, now);
    if Starts(ps, s, k, w) {
      var n := |s.runs|;
      NoEventsYet(t, n);
      forall id | 0 <= id < n
        ensures t.runs[id] == s.runs[id] && EventsOf(t, id) == EventsOf(s, id)
      {
        SameEvents(s, t, id);
      }
      assert StagesOf(ps, t.runs[n]).Some? && |StagesOf(ps, t.runs[n]).value| >= 1;
      assert DelayOf(StagesOf(ps, t.runs[n]).value, 0) == 0.0;
    }
  }

  lemma SameEvents(s: State, t: State, id: nat)
    requires s.events == t.events
    ensures EventsOf(s, id) == EventsOf(t, id)
  {
  }

  /** Advancing one run leaves every other run and its events alone. */
  lemma AdvanceFrame(ps: seq<Playbook>, s: State, id: nat, now: real, other: nat)
    requires id < |s.runs| && other < |s.runs| && other != id
    ensures var t := AdvanceOne(ps, s, id, now);
            |t.runs| == |s.runs| && t.runs[other] == s.runs[other] && EventsOf(t, other) == EventsOf(s, other)
  {
  }

  /** The advanced run stays in order, and when it fires exactly one more stage has been fired. */
  lemma AdvanceInOrder(ps: seq<Playbook>, s: State, id: nat, now: real)
    requires id < |s.runs| && RunInOrder(ps, s.runs[id], EventsOf(s, id))
    ensures var t := AdvanceOne(ps, s, id, now);
            RunInOrder(ps, t.runs[id], EventsOf(t, id))
    ensures var t, r, stages := AdvanceOne(ps, s, id, now), s.runs[id], StagesOf(ps, s.runs[id]).value;
            if r.running && now - r.updated >= stages[r.index].delay
            then EventsOf(t, id) == EventsOf(s, id) + [Event(id, r.index, now)] && t.runs[id].updated == now
                 && t.runs[id] == r.(index := t.runs[id].index, running := t.runs[id].running, updated := now)
            else t == s
  {
  }

  lemma AdvanceOrderly(ps: seq<Playbook>, s: State, id: nat, now: real)
    requires id < |s.runs| && Orderly(ps, s)
    ensures Orderly(ps, AdvanceOne(ps, s, id, now))
  {
    hide EventsOf, RunInOrder;
    var t := AdvanceOne(ps, s, id, now);
    AdvanceInOrder(ps, s, id, now);
    forall other | 0 <= other < |t.runs|
      ensures RunInOrder(ps, t.runs[other], EventsOf(t, other))
      ensures t.runs[other].running ==> s.runs[other].running
      ensures t.runs[other].playbook == s.runs[other].playbook && t.runs[other].host == s.runs[other].host
    {
      if other != id {
        AdvanceFrame(ps, s, id, now, other);
      }
    }
  }

  lemma {:induction false} StartUpToOrderly(ps: seq<Playbook>, s: State, k: nat, w: Signal, now: real)
    requires ValidTable(ps) && k <= |ps| && Orderly(ps, s)
    ensures Orderly(ps, StartUpTo(ps, s, k, w, now))
  {
    hide Orderly, StartOne, ValidTable;
    if k > 0 {
      StartUpToOrderly(ps, s, k - 1, w, now);
      StartOrderly(ps, StartUpTo(ps, s, k - 1, w, now), k - 1, w, now);
    }
  }

  lemma {:induction false} AdvanceUpToOrderly(ps: seq<Playbook>, s: State, n: nat, now: real)
    requires n <= |s.runs| && Orderly(ps, s)
    ensures Orderly(ps, AdvanceUpTo(ps, s, n, now))
  {
    hide Orderly, AdvanceOne;
    if n > 0 {
      AdvanceUpToOrderly(ps, s, n - 1, now);
      AdvanceOrderly(ps, AdvanceUpTo(ps, s, n - 1, now), n - 1, now);
    }
  }

  /**
   In every reachable state, whatever the clock did: at most one running run per playbook and host,
   and every run is in order.
   */
  lemma {:induction false} AlwaysOrderly(ps: seq<Playbook>, ops: seq<Op>)
    requires ValidTable(ps)
    ensures Orderly(ps, After(ps, ops))
  {
    hide Orderly, ValidTable;
    if ops == [] {
      assert Orderly(ps, State([], [])) by { EmptyOrderly(ps); }
    } else {
      var s, op := After(ps, ops[..|ops| - 1]), ops[|ops| - 1];
      AlwaysOrderly(ps, ops[..|ops| - 1]);
      match op {
        case Check(w, now) => StartUpToOrderly(ps, s, |ps|, w, now);
        case Advance(now) => AdvanceUpToOrderly(ps, s, |s.runs|, now);
      }
    }
  }

  lemma EmptyOrderly(ps: seq<Playbook>)
    ensures Orderly(ps, State([], []))
  {
  }

  // ----- progress -----

  /** A pass over all runs does to one run what advancing it alone does. */
  lemma {:induction false} PassOnOne(ps: seq<Playbook>, s: State, n: nat, now: real, id: nat)
    requires n <= |s.runs| && id < |s.runs|
    ensures var t := AdvanceUpTo(ps, s, n, now);
            t.runs[id] == (if id < n then AdvanceOne(ps, s, id, now) else s).runs[id]
            && EventsOf(t, id) == EventsOf(if id < n then AdvanceOne(ps, s, id, now) else s, id)
  {
    hide EventsOf, AdvanceOne;
    if n > 0 {
      var t := AdvanceUpTo(ps, s, n - 1, now);
      PassOnOne(ps, s, n - 1, now, id);
      if id == n - 1 {
        AdvanceSame(ps, t, s, id, now);
      } else {
        AdvanceFrame(ps, t, n - 1, now, id);
      }
    }
  }

  /** What advancing does to a run depends on that run and its events only. */
  lemma AdvanceSame(ps: seq<Playbook>, s: State, t: State, id: nat, now: real)
    requires id < |s.runs| && |s.runs| == |t.runs| && s.runs[id] == t.runs[id] && EventsOf(s, id) == EventsOf(t, id)
    ensures AdvanceOne(ps, s, id, now).runs[id] == AdvanceOne(ps, t, id, now).runs[id]
    ensures EventsOf(AdvanceOne(ps, s, id, now), id) == EventsOf(AdvanceOne(ps, t, id, now), id)
  {
    hide Select, StagesOf, ForRun;
    var e := Event(id, s.runs[id].index, now);
    SelectStep(ForRun(id), s.events, e);
    SelectStep(ForRun(id), t.events, e);
  }

  function Passes(ps: seq<Playbook>, s: State, times: seq<real>): (t: State)
    ensures |t.runs| == |s.runs|
  {
    if times == [] then s
    else
      var t := Passes(ps, s, times[..|times| - 1]);
      AdvanceUpTo(ps, t, |t.runs|, times[|times| - 1])
  }

  /** Passes that come at least d apart, the first at least d after the run's stage began. */
  ghost predicate Paced(from: real, times: seq<real>, d: real) {
    forall i :: 0 <= i < |times| ==> times[i] - Previous(from, times, i) >= d
  }

  function Previous(from: real, times: seq<real>, i: nat): real
    requires i <= |times|
  {
    if i == 0 then from else times[i - 1]
  }

  /**
   Every pass that comes at least the longest delay after the one before fires one stage, so a run
   completes after exactly as many such passes as it has stages left.
   */
  lemma {:induction false} Completes(ps: seq<Playbook>, s: State, id: nat, times: seq<real>, d: real)
    requires id < |s.runs| && RunInOrder(ps, s.runs[id], EventsOf(s, id)) && s.runs[id].running
    requires var stages := StagesOf(ps, s.runs[id]).value;
             (forall i :: 0 <= i < |stages| ==> stages[i].delay <= d)
             && |times| <= |stages| - s.runs[id].index
    requires Paced(s.runs[id].updated, times, d)
    ensures var t := Passes(ps, s, times);
            var stages := StagesOf(ps, s.runs[id]).value;
            && RunInOrder(ps, t.runs[id], EventsOf(t, id))
            && t.runs[id].playbook == s.runs[id].playbook
            && t.runs[id].updated == (if times == [] then s.runs[id].updated else times[|times| - 1])
            && Fired(t.runs[id], stages) == s.runs[id].index + |times|
            && (t.runs[id].running <==> s.runs[id].index + |times| < |stages|)
  {
    hide EventsOf, RunInOrder, Fired, Paced;
    if times == [] {
      NothingFired(ps, s, id);
    } else {
      var init, now := times[..|times| - 1], times[|times| - 1];
      PacedPrefix(s.runs[id].updated, times, d);
      Completes(ps, s, id, init, d);
      PassFires(ps, Passes(ps, s, init), id, now, d);
    }
  }

  lemma NothingFired(ps: seq<Playbook>, s: State, id: nat)
    requires id < |s.runs| && RunInOrder(ps, s.runs[id], EventsOf(s, id)) && s.runs[id].running
    ensures var stages := StagesOf(ps, s.runs[id]).value;
            Fired(s.runs[id], stages) == s.runs[id].index < |stages|
  {
  }

  lemma PacedPrefix(from: real, times: seq<real>, d: real)
    requires times != [] && Paced(from, times, d)
    ensures Paced(from, times[..|times| - 1], d)
    ensures times[|times| - 1] - Previous(from, times[..|times| - 1], |times| - 1) >= d
  {
  }

  /** A pass late enough fires one more stage of a running run. */
  lemma PassFires(ps: seq<Playbook>, t: State, id: nat, now: real, d: real)
    requires id < |t.runs| && RunInOrder(ps, t.runs[id], EventsOf(t, id)) && t.runs[id].running
    requires var stages := StagesOf(ps, t.runs[id]).value;
             forall i :: 0 <= i < |stages| ==> stages[i].delay <= d
    requires now - t.runs[id].updated >= d
    ensures var u := AdvanceUpTo(ps, t, |t.runs|, now);
            var stages := StagesOf(ps, t.runs[id]).value;
            && RunInOrder(ps, u.runs[id], EventsOf(u, id))
            && u.runs[id].playbook == t.runs[id].playbook && u.runs[id].updated == now
            && Fired(u.runs[id], stages) == Fired(t.runs[id], stages) + 1
            && (u.runs[id].running <==> Fired(t.runs[id], stages) + 1 < |stages|)
  {
    hide EventsOf, AdvanceUpTo;
    AdvanceInOrder(ps, t, id, now);
    PassOnOne(ps, t, |t.runs|, now, id);
  }
}
