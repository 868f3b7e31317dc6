/**
 The capture queue: one receiver that appends rows and never waits for the file's lock, and one
 labeler that snapshots the file under the lock, scores with no lock held and swaps the result
 in under the lock.  A run is any interleaving of their steps.

 `Conserved` is the law: at every point of every run each row handed to the receiver is in
 exactly one of the pending queue, the capture file, the staged file and the accounted drops;
 only while a swap is half done are the rows it has staged so far still in the file as well.
 */
module CaptureQueue {
  import opened Options
  import opened Lists
  import opened AutoLabel

  /**
   Limits and the sizes of lines in bytes; every line has at least its newline.  `torn` is what reading from the
   middle of a line would give.
   */
  datatype Setup = Setup(
    pendingMax: nat, fileMaxBytes: nat, queueMax: nat, header: seq<string>, headerBytes: nat, bytes: Row -> nat,
    torn: (seq<Row>, nat) -> seq<Row>)

  ghost predicate ValidSetup(c: Setup) {
    forall r: Row :: c.bytes(r) >= 1
  }

  datatype File = Missing | File(rows: seq<Row>)

  datatype Reason = Overflow | SizeCap | ReadBound | WrongWidth

  datatype Drop = Drop(row: Row, why: Reason)

  /** The receiver's side; `received` and `dropped` are the history. */
  datatype Queue = Queue(file: File, pending: seq<Row>, received: seq<Row>, dropped: seq<Drop>)

  function RowsIn(f: File): seq<Row> {
    if f.Missing? then [] else f.rows
  }

  function RowsBytes(c: Setup, rows: seq<Row>): nat {
    if rows == [] then 0 else RowsBytes(c, rows[..|rows| - 1]) + c.bytes(rows[|rows| - 1])
  }

  function Size(c: Setup, rows: seq<Row>): nat {
    c.headerBytes + RowsBytes(c, rows)
  }

  function Drops(rows: seq<Row>, why: Reason): seq<Drop> {
    seq(|rows|, i requires 0 <= i < |rows| => Drop(rows[i], why))
  }

  function DroppedRows(ds: seq<Drop>): seq<Row> {
    seq(|ds|, i requires 0 <= i < |ds| => ds[i].row)
  }

  function Newest<T>(max: nat, xs: seq<T>): seq<T> {
    if |xs| <= max then xs else xs[|xs| - max..]
  }

  function Oldest<T>(max: nat, xs: seq<T>): seq<T> {
    if |xs| <= max then [] else xs[..|xs| - max]
  }

  // ----- the receiver -----

  /** Queue the row, drop the oldest beyond the bound, then write everything if the lock is free. */
  function Received(c: Setup, q: Queue, row: Row, locked: bool): Queue {
    var all := q.pending + [row];
    var pending := Newest(c.pendingMax, all);
    var dropped := q.dropped + Drops(Oldest(c.pendingMax, all), Overflow);
    var received := q.received + [row];
    if locked then Queue(q.file, pending, received, dropped)
    else if q.file.File? && Size(c, q.file.rows) >= c.fileMaxBytes
    then Queue(q.file, [], received, dropped + Drops(pending, SizeCap))
    else Queue(File(RowsIn(q.file) + pending), [], received, dropped)
  }

  class CaptureWriter {
    const setup: Setup
    var file: File
    var pending: seq<Row>
    var received: seq<Row>
    var dropped: seq<Drop>

    constructor (setup: Setup, file: File)
      ensures this.setup == setup && State() == Queue(file, [], RowsIn(file), [])
    {
      this.setup, this.file, this.pending, this.received, this.dropped := setup, file, [], RowsIn(file), [];
    }

    function State(): Queue
      reads this
    {
      Queue(file, pending, received, dropped)
    }

    /** `locked` is the outcome of trying the lock without waiting. */
    method AppendCsvRow(row: Row, locked: bool)
      modifies this
      ensures State() == Received(setup, old(State()), row, locked)
    {
      received := received + [row];
      pending := pending + [row];
      var overflow := |pending| - setup.pendingMax;
      if overflow > 0 {
        dropped := dropped + Drops(pending[..overflow], Overflow);
        pending := pending[overflow..];
      } else {
        assert dropped + Drops([], Overflow) == dropped;
      }
      if locked {
        return;
      }
      if file.File? && Size(setup, file.rows) >= setup.fileMaxBytes {
        dropped := dropped + Drops(pending, SizeCap);
        pending := [];
        return;
      }
      var writeHeader := file.Missing?;
      file := File((if writeHeader then [] else file.rows) + pending);
      pending := [];
    }
  }

  // ----- the labeler -----

  /** Reading keeps the newest rows only, through a bounded queue. */
  method ReadRows(lines: seq<Row>, maxRows: nat) returns (rows: seq<Row>, wasBounded: bool)
    ensures rows == Newest(maxRows, lines) && |rows| <= maxRows
    ensures wasBounded <==> |lines| > maxRows
  {
    rows := [];
    var total := 0;
    for i := 0 to |lines|
      invariant total == i && rows == Newest(maxRows, lines[..i])
    {
      rows := rows + [lines[i]];
      if |rows| > maxRows {
        rows := rows[1..];
      }
      total := total + 1;
    }
    assert lines[..|lines|] == lines;
    wasBounded := total > maxRows;
  }

  /** The rows of the lines from byte `offset` on, if a line starts there. */
  function LinesFrom(c: Setup, rows: seq<Row>, offset: nat): Option<seq<Row>> {
    if Size(c, rows) == offset then Some([])
    else if rows == [] then None
    else
      var rest := LinesFrom(c, rows[..|rows| - 1], offset);
      if rest.None? then None else Some(rest.value + [rows[|rows| - 1]])
  }

  /** The rows after the first `offset` bytes, or None if the file is shorter than that. */
  function ReadAppended(c: Setup, rows: seq<Row>, offset: nat): Option<seq<Row>> {
    if Size(c, rows) < offset then None
    else if LinesFrom(c, rows, offset).Some? then LinesFrom(c, rows, offset)
    else Some(c.torn(rows, offset))
  }

  lemma {:induction false} SizeConcat(c: Setup, a: seq<Row>, b: seq<Row>)
    requires ValidSetup(c)
    ensures Size(c, a + b) >= Size(c, a) + |b|
  {
    if b == [] {
      assert a + b == a;
    } else {
      SizeConcat(c, a, b[..|b| - 1]);
      assert (a + b)[..|a + b| - 1] == a + b[..|b| - 1];
      assert c.bytes(b[|b| - 1]) >= 1;
    }
  }

  lemma {:induction false} LinesFound(c: Setup, a: seq<Row>, b: seq<Row>)
    requires ValidSetup(c)
    ensures LinesFrom(c, a + b, Size(c, a)) == Some(b)
  {
    if b == [] {
      assert a + b == a;
    } else {
      var init := b[..|b| - 1];
      LinesFound(c, a, init);
      SizeConcat(c, a, b);
      assert (a + b)[..|a + b| - 1] == a + init;
      assert init + [b[|b| - 1]] == b;
    }
  }

  /** Seeking to the old size of a file that has only grown finds exactly the rows added since. */
  lemma AppendedFound(c: Setup, a: seq<Row>, b: seq<Row>)
    requires ValidSetup(c)
    ensures ReadAppended(c, a + b, Size(c, a)) == Some(b)
  {
    hide LinesFrom, Size;
    SizeConcat(c, a, b);
    LinesFound(c, a, b);
  }

  /** The outcome of a swap: the file, the staged lines and the number staged. */
  datatype Swapped = Swapped(file: File, lines: seq<Row>, count: nat)

  /** Nothing if the file shrank; otherwise every labeled row staged and the kept and appended rows left. */
  function SwapOf(c: Setup, file: File, lines: seq<Row>, kept: seq<Row>, labeled: seq<Row>, offset: nat): Swapped {
    var appended := ReadAppended(c, RowsIn(file), offset);
    if appended.None? then Swapped(file, lines, 0)
    else Swapped(File(kept + appended.value), lines + labeled, |labeled|)
  }

  /** The swap itself, made while the lock is held: stage every labeled row, then replace the file. */
  class CaptureFiles {
    const setup: Setup
    var file: File
    var staged: seq<Row>

    constructor (setup: Setup, file: File, staged: seq<Row>)
      ensures this.setup == setup && this.file == file && this.staged == staged
    {
      this.setup, this.file, this.staged := setup, file, staged;
    }

    method SwapIn(kept: seq<Row>, labeled: seq<Row>, offset: nat) returns (count: nat)
      modifies this
      ensures Swapped(file, staged, count) == SwapOf(setup, old(file), old(staged), kept, labeled, offset)
    {
      var appended := ReadAppended(setup, RowsIn(file), offset);
      if appended.None? {
        return 0;
      }
      for i := 0 to |labeled|
        invariant staged == old(staged) + labeled[..i] && file == old(file)
      {
        staged := staged + [labeled[i]];
      }
      file := File(kept + appended.value);
      count := |labeled|;
    }
  }

  /** A line of the staged file, and the history of it: the captured row it came from and the gate that labeled it. */
  datatype Staged = Staged(line: Row, origin: Timed, gate: Gate)

  function Lines(ss: seq<Staged>): (r: seq<Row>)
    ensures |r| == |ss|
  {
    seq(|ss|, i requires 0 <= i < |ss| => ss[i].line)
  }

  function Origins(ss: seq<Staged>): (r: seq<Row>)
    ensures |r| == |ss|
  {
    seq(|ss|, i requires 0 <= i < |ss| => ss[i].origin.row)
  }

  datatype Phase =
    | Idle
    | Reading
    | Scoring(snapshot: seq<Row>, offset: nat)
    | Swapping(snapshot: seq<Row>, gate: Gate, clock: nat -> real, appended: seq<Row>, done: nat)

  predicate Locked(p: Phase) {
    p.Reading? || p.Swapping?
  }

  datatype State = State(q: Queue, staged: seq<Staged>, phase: Phase)

  datatype Event =
    | Receive(row: Row) | LockForRead | Snapshot | Score(gate: Gate, clock: nat -> real) | StageOne | Rewrite

  // What scoring a snapshot does with its rows.

  function ReadBack(c: Setup, clock: nat -> real, snapshot: seq<Row>): seq<Timed> {
    Stamped(Newest(c.queueMax, snapshot), clock)
  }

  function Keeps(c: Setup, g: Gate, clock: nat -> real, snapshot: seq<Row>): seq<Row> {
    KeptRows(g, c.header, ReadBack(c, clock, snapshot))
  }

  /** The captured rows that get a label, and the lines written for them. */
  function Labels(c: Setup, g: Gate, clock: nat -> real, snapshot: seq<Row>): seq<Timed> {
    Select(LabeledRow(g, c.header), ReadBack(c, clock, snapshot))
  }

  function NewLines(c: Setup, g: Gate, clock: nat -> real, snapshot: seq<Row>): (r: seq<Row>)
    ensures |r| == |Labels(c, g, clock, snapshot)|
  {
    StagedAreLabeled(g, c.header, ReadBack(c, clock, snapshot));
    StagedRows(g, c.header, ReadBack(c, clock, snapshot))
  }

  function Corrupts(c: Setup, g: Gate, clock: nat -> real, snapshot: seq<Row>): seq<Row> {
    Rows(Select(CorruptRow(g, c.header), ReadBack(c, clock, snapshot)))
  }

  predicate NothingToDo(c: Setup, g: Gate, clock: nat -> real, snapshot: seq<Row>) {
    |snapshot| <= c.queueMax && NewLines(c, g, clock, snapshot) == [] && Corrupts(c, g, clock, snapshot) == []
  }

  /** One step; a step that is not enabled changes nothing. */
  function Step(c: Setup, s: State, e: Event): State {
    match e
    case Receive(row) => s.(q := Received(c, s.q, row, Locked(s.phase)))
    case LockForRead => if s.phase.Idle? then s.(phase := Reading) else s
    case Snapshot =>
      if !s.phase.Reading? then s
      else if s.q.file.Missing? then s.(phase := Idle)
      else s.(phase := Scoring(s.q.file.rows, Size(c, s.q.file.rows)))
    case Score(g, clock) =>
      if !s.phase.Scoring? then s
      else if NothingToDo(c, g, clock, s.phase.snapshot) then s.(phase := Idle)
      else
        var appended := ReadAppended(c, RowsIn(s.q.file), s.phase.offset);
        if appended.None? then s.(phase := Idle)
        else s.(phase := Swapping(s.phase.snapshot, g, clock, appended.value, 0))
    case StageOne =>
      if !s.phase.Swapping? then s
      else
        var Swapping(snapshot, g, clock, _, k) := s.phase;
        var lines, from := NewLines(c, g, clock, snapshot), Labels(c, g, clock, snapshot);
        if k >= |lines| then s
        else s.(staged := s.staged + [Staged(lines[k], from[k], g)], phase := s.phase.(done := k + 1))
    case Rewrite =>
      if !s.phase.Swapping? then s
      else
        var Swapping(snapshot, g, clock, appended, k) := s.phase;
        if k < |NewLines(c, g, clock, snapshot)| then s
        else
          var dropped := s.q.dropped + Drops(Oldest(c.queueMax, snapshot), ReadBound)
                         + Drops(Corrupts(c, g, clock, snapshot), WrongWidth);
          State(s.q.(file := File(Keeps(c, g, clock, snapshot) + appended), dropped := dropped), s.staged, Idle)
  }

  function Start(file: File): State {
    State(Queue(file, [], RowsIn(file), []), [], Idle)
  }

  function After(c: Setup, file: File, run: seq<Event>): State {
    if run == [] then Start(file) else Step(c, After(c, file, run[..|run| - 1]), run[|run| - 1])
  }

  // ----- conservation -----

  /** Captured rows staged by a swap that has not rewritten the file yet. */
  ghost function InBoth(c: Setup, s: State): seq<Row> {
    if !s.phase.Swapping? then []
    else
      var todo := Rows(Labels(c, s.phase.gate, s.phase.clock, s.phase.snapshot));
      if s.phase.done <= |todo| then todo[..s.phase.done] else todo
  }

  ghost function Held(q: Queue, staged: seq<Staged>): multiset<Row> {
    multiset(q.pending) + multiset(RowsIn(q.file)) + multiset(Origins(staged)) + multiset(DroppedRows(q.dropped))
  }

  ghost predicate Balanced(c: Setup, s: State) {
    multiset(s.q.received) + multiset(InBoth(c, s)) == Held(s.q, s.staged)
  }

  /** A staged line is the staged form of a row its gate labeled. */
  ghost predicate Genuine(c: Setup, l: Staged) {
    FateOf(l.gate, c.header, l.origin).Labeled?
    && l.line == StagedRow(l.gate, l.origin.row, FateOf(l.gate, c.header, l.origin).cls)
  }

  ghost predicate Tracked(c: Setup, s: State) {
    && |s.q.pending| <= c.pendingMax
    && (forall i :: 0 <= i < |s.staged| ==> Genuine(c, s.staged[i]))
    && (s.phase.Scoring? ==>
          s.q.file.File? && s.phase.snapshot <= s.q.file.rows && s.phase.offset == Size(c, s.phase.snapshot))
    && (s.phase.Swapping? ==>
          s.q.file == File(s.phase.snapshot + s.phase.appended)
          && s.phase.done <= |Labels(c, s.phase.gate, s.phase.clock, s.phase.snapshot)|)
  }

  lemma DropsAdd(ds: seq<Drop>, rows: seq<Row>, why: Reason)
    ensures multiset(DroppedRows(ds + Drops(rows, why))) == multiset(DroppedRows(ds)) + multiset(rows)
  {
    assert DroppedRows(ds + Drops(rows, why)) == DroppedRows(ds) + rows;
  }

  lemma NewestOldest<T>(max: nat, xs: seq<T>)
    ensures multiset(xs) == multiset(Oldest(max, xs)) + multiset(Newest(max, xs))
    ensures |Newest(max, xs)| <= max
  {
    assert xs == Oldest(max, xs) + Newest(max, xs);
  }

  lemma ReceiveBalanced(c: Setup, q: Queue, staged: seq<Staged>, extra: multiset<Row>, row: Row, locked: bool)
    requires multiset(q.received) + extra == Held(q, staged)
    ensures var r := Received(c, q, row, locked);
            multiset(r.received) + extra == Held(r, staged) && |r.pending| <= c.pendingMax
    ensures var r := Received(c, q, row, locked);
            if locked then r.file == q.file
            else r.pending == [] && RowsIn(q.file) <= RowsIn(r.file) && (q.file.File? ==> r.file.File?)
  {
    hide Drops, DroppedRows, Newest, Oldest, Size;
    var all := q.pending + [row];
    var pending, over := Newest(c.pendingMax, all), Oldest(c.pendingMax, all);
    NewestOldest(c.pendingMax, all);
    DropsAdd(q.dropped, over, Overflow);
    DropsAdd(q.dropped + Drops(over, Overflow), pending, SizeCap);
    var r := Received(c, q, row, locked);
    assert multiset(all) == multiset(q.pending) + multiset{row};
    assert multiset(r.received) == multiset(q.received) + multiset{row};
    assert multiset(RowsIn(q.file) + pending) == multiset(RowsIn(q.file)) + multiset(pending);
    var f, d := multiset(RowsIn(q.file)), multiset(DroppedRows(q.dropped));
    Regroup(multiset(q.pending), row, multiset(over), multiset(pending), f, multiset(Origins(staged)), d,
            multiset(q.received), extra);
    assert multiset(r.pending) == if locked then multiset(pending) else multiset{};
    assert Held(r, staged) == multiset(pending) + f + multiset(Origins(staged)) + (d + multiset(over));
  }

  lemma Regroup<T>(p: multiset<T>, row: T, over: multiset<T>, kept: multiset<T>, f: multiset<T>, st: multiset<T>,
                   d: multiset<T>, rec: multiset<T>, extra: multiset<T>)
    requires p + multiset{row} == over + kept && rec + extra == p + f + st + d
    ensures (rec + multiset{row}) + extra == kept + f + st + (d + over)
  {
    assert (rec + multiset{row}) + extra == (rec + extra) + multiset{row};
    assert (p + f + st + d) + multiset{row} == (p + multiset{row}) + f + st + d;
  }

  /** Scoring partitions what the snapshot read keeps; the rest are its oldest rows. */
  lemma SnapshotPartition(c: Setup, g: Gate, clock: nat -> real, snapshot: seq<Row>)
    ensures multiset(snapshot) ==
              multiset(Oldest(c.queueMax, snapshot)) + multiset(Keeps(c, g, clock, snapshot))
              + multiset(Rows(Labels(c, g, clock, snapshot))) + multiset(Corrupts(c, g, clock, snapshot))
  {
    hide KeptRows, Select, Rows, Stamped;
    NewestOldest(c.queueMax, snapshot);
    ScorePartition(g, c.header, ReadBack(c, clock, snapshot));
    StampedRows(Newest(c.queueMax, snapshot), clock);
  }

  lemma RewriteBalanced(c: Setup, s: State)
    requires Tracked(c, s) && Balanced(c, s) && s.phase.Swapping?
    ensures Tracked(c, Step(c, s, Rewrite)) && Balanced(c, Step(c, s, Rewrite))
  {
    hide Keeps, Labels, Corrupts, Oldest, Drops, DroppedRows, Newest, NewLines, Origins, Genuine, Rows;
    var Swapping(snapshot, g, clock, appended, done) := s.phase;
    var todo := Rows(Labels(c, g, clock, snapshot));
    if done == |todo| {
      assert todo[..done] == todo;
      SnapshotPartition(c, g, clock, snapshot);
      var bound, corrupt := Oldest(c.queueMax, snapshot), Corrupts(c, g, clock, snapshot);
      DropsAdd(s.q.dropped, bound, ReadBound);
      DropsAdd(s.q.dropped + Drops(bound, ReadBound), corrupt, WrongWidth);
      var kept := Keeps(c, g, clock, snapshot);
      assert multiset(kept + appended) == multiset(kept) + multiset(appended);
      assert multiset(snapshot + appended) == multiset(snapshot) + multiset(appended);
      Resettle(multiset(bound), multiset(kept), multiset(todo), multiset(corrupt), multiset(appended),
               multiset(s.q.pending), multiset(Origins(s.staged)), multiset(DroppedRows(s.q.dropped)), multiset(s.q.received));
    }
  }

  lemma Resettle<T>(bound: multiset<T>, kept: multiset<T>, todo: multiset<T>, corrupt: multiset<T>, app: multiset<T>,
                    p: multiset<T>, st: multiset<T>, d: multiset<T>, rec: multiset<T>)
    requires rec + todo == p + ((bound + kept + todo + corrupt) + app) + st + d
    ensures rec == p + (kept + app) + st + (d + bound + corrupt)
  {
    assert p + ((bound + kept + todo + corrupt) + app) + st + d ==
      (p + (kept + app) + st + (d + bound + corrupt)) + todo;
    assert rec == (rec + todo) - todo;
  }

  lemma StageBalanced(c: Setup, s: State)
    requires Tracked(c, s) && Balanced(c, s) && s.phase.Swapping?
    ensures Tracked(c, Step(c, s, StageOne)) && Balanced(c, Step(c, s, StageOne))
  {
    hide Labels, Held, NewLines, Rows, Genuine;
    var Swapping(snapshot, g, clock, _, k) := s.phase;
    var lines, from := NewLines(c, g, clock, snapshot), Labels(c, g, clock, snapshot);
    var todo := Rows(from);
    if k < |lines| {
      assert todo[..k + 1] == todo[..k] + [todo[k]];
      var t := Step(c, s, StageOne);
      var l := Staged(lines[k], from[k], g);
      NewLineGenuine(c, g, clock, snapshot, k);
      assert multiset(InBoth(c, t)) == multiset(InBoth(c, s)) + multiset{todo[k]};
      HeldStage(s.q, s.staged, l);
    }
  }

  lemma NewLineGenuine(c: Setup, g: Gate, clock: nat -> real, snapshot: seq<Row>, k: nat)
    requires k < |NewLines(c, g, clock, snapshot)|
    ensures Genuine(c, Staged(NewLines(c, g, clock, snapshot)[k], Labels(c, g, clock, snapshot)[k], g))
    ensures Rows(Labels(c, g, clock, snapshot))[k] == Labels(c, g, clock, snapshot)[k].row
  {
    hide FateOf, StagedRow, StagedRows, Select;
    StagedAreLabeled(g, c.header, ReadBack(c, clock, snapshot));
  }

  lemma HeldStage(q: Queue, staged: seq<Staged>, l: Staged)
    ensures Held(q, staged + [l]) == Held(q, staged) + multiset{l.origin.row}
  {
    hide DroppedRows, RowsIn;
    assert Origins(staged + [l]) == Origins(staged) + [l.origin.row];
  }

  /** Between snapshot and swap the file has only grown, so the swap always finds what was added. */
  lemma ScoreTracked(c: Setup, s: State, g: Gate, clock: nat -> real)
    requires ValidSetup(c) && Tracked(c, s) && s.phase.Scoring?
    ensures Tracked(c, Step(c, s, Score(g, clock)))
    ensures NothingToDo(c, g, clock, s.phase.snapshot) || Step(c, s, Score(g, clock)).phase.Swapping?
  {
    hide ReadAppended, Size, Labels, Corrupts, NewLines, Genuine;
    var snapshot, rows := s.phase.snapshot, s.q.file.rows;
    var added := rows[|snapshot|..];
    assert snapshot + added == rows;
    AppendedFound(c, snapshot, added);
  }

  /** An idle labeler takes the lock, snapshots the whole file with its size and scores; without a file it goes back to idle. */
  lemma RoundBegins(c: Setup, s: State)
    requires s.phase.Idle?
    ensures var t := Step(c, s, LockForRead);
            && t == s.(phase := Reading) && Locked(t.phase)
            && Step(c, t, Snapshot) ==
                 if s.q.file.Missing? then s
                 else s.(phase := Scoring(s.q.file.rows, c.headerBytes + RowsBytes(c, s.q.file.rows)))
  {
  }

  /** Scoring leads to a swap exactly when the read was bounded or some row read does not stay as it is. */
  lemma ScoreSwapsIff(c: Setup, s: State, g: Gate, clock: nat -> real)
    requires ValidSetup(c) && Tracked(c, s) && s.phase.Scoring?
    ensures var read := ReadBack(c, clock, s.phase.snapshot);
            Step(c, s, Score(g, clock)).phase.Swapping? <==>
              |s.phase.snapshot| > c.queueMax || exists i :: 0 <= i < |read| && !FateOf(g, c.header, read[i]).Stays?
  {
    hide Tracked, ReadAppended, FateOf, Select, StagedRows, ReadBack;
    var read := ReadBack(c, clock, s.phase.snapshot);
    ScoreTracked(c, s, g, clock);
    StagedAreLabeled(g, c.header, read);
    SelectNone(LabeledRow(g, c.header), read);
    SelectNone(CorruptRow(g, c.header), read);
  }

  lemma ReceiveTracked(c: Setup, s: State, row: Row)
    requires Tracked(c, s) && Balanced(c, s)
    ensures Tracked(c, Step(c, s, Receive(row))) && Balanced(c, Step(c, s, Receive(row)))
  {
    hide Received, Held, Labels, Size, Genuine;
    ReceiveBalanced(c, s.q, s.staged, multiset(InBoth(c, s)), row, Locked(s.phase));
  }

  /** Every row ever received is accounted for exactly once, in every state of every interleaving. */
  lemma {:induction false} Conserved(c: Setup, file: File, run: seq<Event>)
    requires ValidSetup(c)
    ensures Tracked(c, After(c, file, run)) && Balanced(c, After(c, file, run))
  {
    hide Tracked, Balanced, Step, Start, ValidSetup;
    if run == [] {
      StartBalanced(c, file);
    } else {
      var s, e := After(c, file, run[..|run| - 1]), run[|run| - 1];
      Conserved(c, file, run[..|run| - 1]);
      StepBalanced(c, s, e);
    }
  }

  lemma StartBalanced(c: Setup, file: File)
    ensures Tracked(c, Start(file)) && Balanced(c, Start(file))
  {
  }

  lemma StepBalanced(c: Setup, s: State, e: Event)
    requires ValidSetup(c) && Tracked(c, s) && Balanced(c, s)
    ensures Tracked(c, Step(c, s, e)) && Balanced(c, Step(c, s, e))
  {
    hide Held, Labels, Corrupts, ReadAppended, Size, ValidSetup, Received, Keeps, NewLines, Genuine;
    match e {
      case Receive(row) => ReceiveTracked(c, s, row);
      case Score(g, clock) => if s.phase.Scoring? { ScoreTracked(c, s, g, clock); }
      case StageOne => if s.phase.Swapping? { StageBalanced(c, s); }
      case Rewrite => if s.phase.Swapping? { RewriteBalanced(c, s); }
      case LockForRead =>
      case Snapshot =>
    }
  }

  /** Whenever no swap is half done, the four places hold exactly the received rows, staged ones in their staged form. */
  lemma ConservedWhenNotSwapping(c: Setup, file: File, run: seq<Event>)
    requires ValidSetup(c) && !After(c, file, run).phase.Swapping?
    ensures var s := After(c, file, run);
            && multiset(s.q.received) ==
                 multiset(s.q.pending) + multiset(RowsIn(s.q.file))
                 + multiset(Origins(s.staged)) + multiset(DroppedRows(s.q.dropped))
            && forall i :: 0 <= i < |s.staged| ==> Genuine(c, s.staged[i])
  {
    hide Genuine;
    Conserved(c, file, run);
  }

  /** A swap leaves the kept rows followed by every row appended since the snapshot, once and in order. */
  lemma SwapKeepsAppended(c: Setup, file: File, run: seq<Event>)
    requires ValidSetup(c)
    requires var s := After(c, file, run);
             s.phase.Swapping? && s.phase.done == |NewLines(c, s.phase.gate, s.phase.clock, s.phase.snapshot)|
    ensures var s := After(c, file, run);
            s.phase.snapshot <= RowsIn(s.q.file)
            && Step(c, s, Rewrite).q.file ==
                 File(Keeps(c, s.phase.gate, s.phase.clock, s.phase.snapshot) + RowsIn(s.q.file)[|s.phase.snapshot|..])
  {
    hide Keeps, Labels, Corrupts, Held, NewLines, Genuine;
    Conserved(c, file, run);
  }

  // ----- the swap as steps and as one method -----

  function StageMany(c: Setup, s: State, n: nat): State {
    if n == 0 then s else Step(c, StageMany(c, s, n - 1), StageOne)
  }

  lemma {:induction false} StagedSoFar(c: Setup, s: State, n: nat)
    requires s.phase.Swapping? && s.phase.done == 0
    requires n <= |NewLines(c, s.phase.gate, s.phase.clock, s.phase.snapshot)|
    ensures var t := StageMany(c, s, n);
            && t.q == s.q && t.phase == s.phase.(done := n)
            && Lines(t.staged) == Lines(s.staged) + NewLines(c, s.phase.gate, s.phase.clock, s.phase.snapshot)[..n]
  {
    hide NewLines, Labels;
    if n > 0 {
      StagedSoFar(c, s, n - 1);
      var lines := NewLines(c, s.phase.gate, s.phase.clock, s.phase.snapshot);
      assert lines[..n] == lines[..n - 1] + [lines[n - 1]];
      var t, u := StageMany(c, s, n - 1), StageMany(c, s, n);
      assert u.staged[..|t.staged|] == t.staged && u.staged[|t.staged|].line == lines[n - 1];
      assert Lines(u.staged) == Lines(t.staged) + [lines[n - 1]];
    }
  }

  /** Scoring, staging line by line and rewriting, with no one in between, are one call of the swap. */
  lemma StepsAreSwap(c: Setup, s: State, g: Gate, clock: nat -> real)
    requires s.phase.Scoring? && !NothingToDo(c, g, clock, s.phase.snapshot)
    ensures var lines, kept := NewLines(c, g, clock, s.phase.snapshot), Keeps(c, g, clock, s.phase.snapshot);
            var t := Step(c, StageMany(c, Step(c, s, Score(g, clock)), |lines|), Rewrite);
            var swap := SwapOf(c, s.q.file, Lines(s.staged), kept, lines, s.phase.offset);
            t.phase.Idle? && t.q.file == swap.file && Lines(t.staged) == swap.lines
  {
    hide NewLines, Labels, Keeps, ReadAppended, Corrupts, NothingToDo;
    var u := Step(c, s, Score(g, clock));
    var lines := NewLines(c, g, clock, s.phase.snapshot);
    if u.phase.Swapping? {
      StagedSoFar(c, u, |lines|);
      assert lines[..|lines|] == lines;
    } else {
      IdleStays(c, u, |lines|);
    }
  }

  lemma {:induction false} IdleStays(c: Setup, s: State, n: nat)
    requires s.phase.Idle?
    ensures StageMany(c, s, n) == s
  {
    if n > 0 {
      IdleStays(c, s, n - 1);
    }
  }

  /** How many waiting rows the next one pushes out. */
  function Excess(c: Setup, q: Queue): nat {
    if |q.pending| + 1 <= c.pendingMax then 0 else |q.pending| + 1 - c.pendingMax
  }

  /**
   The receiver never waits: in every state its step is taken at once, the queue stays within its
   bound, and with the lock free nothing is left waiting; with the lock held the file is untouched
   and only the oldest waiting rows beyond the bound are given up.
   */
  lemma ReceiverNeverWaits(c: Setup, s: State, row: Row)
    ensures var t := Step(c, s, Receive(row));
            && t.q.received == s.q.received + [row] && t.phase == s.phase && t.staged == s.staged
            && |t.q.pending| <= c.pendingMax
            && if !Locked(s.phase) then t.q.pending == []
               else t.q.file == s.q.file && t.q.pending == (s.q.pending + [row])[Excess(c, s.q)..]
  {
  }

  lemma ReceiveInOrder(c: Setup, q: Queue, row: Row, locked: bool)
    requires Received(c, q, row, locked).dropped == []
    ensures var r := Received(c, q, row, locked);
            q.dropped == [] && RowsIn(r.file) + r.pending == RowsIn(q.file) + q.pending + [row]
  {
  }

  /** Until a swap, and while nothing is dropped, the file followed by the queue is what was received, in order. */
  lemma {:induction false} ReceivedInOrder(c: Setup, file: File, run: seq<Event>)
    requires After(c, file, run).q.dropped == [] && forall i :: 0 <= i < |run| ==> run[i] != Rewrite
    ensures var q := After(c, file, run).q;
            RowsIn(q.file) + q.pending == q.received
  {
    hide Received, RowsIn, ReadAppended;
    if run == [] {
      assert RowsIn(file) + [] == RowsIn(file);
    } else {
      var s, e := After(c, file, run[..|run| - 1]), run[|run| - 1];
      if e.Receive? {
        ReceiveInOrder(c, s.q, e.row, Locked(s.phase));
        ReceivedHistory(c, s.q, e.row, Locked(s.phase));
      }
      ReceivedInOrder(c, file, run[..|run| - 1]);
    }
  }

  lemma ReceivedHistory(c: Setup, q: Queue, row: Row, locked: bool)
    ensures Received(c, q, row, locked).received == q.received + [row]
  {
  }

  // ----- what is lost, and when -----

  /** The capture file is there and its header and rows fill it. */
  ghost predicate AtCap(c: Setup, f: File) {
    f.File? && c.headerBytes + RowsBytes(c, f.rows) >= c.fileMaxBytes
  }

  /** The bytes of a file's rows are those of each row. */
  lemma {:induction false} BytesAdd(c: Setup, a: seq<Row>, b: seq<Row>)
    ensures RowsBytes(c, a + b) == RowsBytes(c, a) + RowsBytes(c, b)
    ensures forall r :: RowsBytes(c, [r]) == c.bytes(r)
  {
    forall r
      ensures RowsBytes(c, [r]) == c.bytes(r)
    {
      assert [r][..0] == [];
    }
    if b == [] {
      assert a + b == a;
    } else {
      BytesAdd(c, a, b[..|b| - 1]);
      assert (a + b)[..|a + b| - 1] == a + b[..|b| - 1];
    }
  }

  /**
   Where a received row and those waiting go: the oldest beyond the bound are given up; of the rest all wait while the
   lock is held, all are given up when the file is full, and all are appended otherwise.
   */
  lemma ReceivedGoes(c: Setup, s: State, row: Row)
    ensures var t, all, k := Step(c, s, Receive(row)), s.q.pending + [row], Excess(c, s.q);
            var lost := Drops(all[..k], Overflow);
            if Locked(s.phase) then t.q == Queue(s.q.file, all[k..], s.q.received + [row], s.q.dropped + lost)
            else if AtCap(c, s.q.file) then
              t.q == Queue(s.q.file, [], s.q.received + [row], s.q.dropped + lost + Drops(all[k..], SizeCap))
            else t.q == Queue(File(RowsIn(s.q.file) + all[k..]), [], s.q.received + [row], s.q.dropped + lost)
  {
    var all, k := s.q.pending + [row], Excess(c, s.q);
    assert all[k..] == Newest(c.pendingMax, all) && all[..k] == Oldest(c.pendingMax, all);
  }

  function WrongWidthRow(c: Setup): Row -> bool {
    (r: Row) => |r| != |c.header|
  }

  /** A swap whose labeled rows are all staged, so that rewriting takes effect. */
  ghost predicate Rewrites(c: Setup, s: State) {
    s.phase.Swapping? && s.phase.done >= |NewLines(c, s.phase.gate, s.phase.clock, s.phase.snapshot)|
  }

  lemma {:induction false} CorruptsAreWrongWidth(c: Setup, g: Gate, rows: seq<Row>, clock: nat -> real)
    ensures Rows(Select(CorruptRow(g, c.header), Stamped(rows, clock))) == Select(WrongWidthRow(c), rows)
  {
    hide Scorable, LabelOf, Rows;
    if rows == [] {
      assert Rows([]) == [];
    } else {
      var init, r := rows[..|rows| - 1], rows[|rows| - 1];
      var t := Timed(r, clock(|rows| - 1));
      CorruptsAreWrongWidth(c, g, init, clock);
      assert Stamped(rows, clock) == Stamped(init, clock) + [t];
      SelectStep(CorruptRow(g, c.header), Stamped(init, clock), t);
      RowsStep(Select(CorruptRow(g, c.header), Stamped(init, clock)), t);
      assert rows == init + [r];
      SelectStep(WrongWidthRow(c), init, r);
      assert Select(CorruptRow(g, c.header), Stamped(init, clock)) + [] == Select(CorruptRow(g, c.header), Stamped(init, clock));
    }
  }

  /** What rewriting gives up: the rows beyond the bounded read, and of those read the ones not as wide as the header. */
  lemma RewriteDrops(c: Setup, s: State)
    requires Rewrites(c, s)
    ensures var rows := s.phase.snapshot;
            var k := if |rows| <= c.queueMax then 0 else |rows| - c.queueMax;
            Step(c, s, Rewrite).q.dropped ==
              s.q.dropped + Drops(rows[..k], ReadBound) + Drops(Select(WrongWidthRow(c), rows[k..]), WrongWidth)
  {
    hide Keeps, NewLines, Drops, Rows, Select, Stamped, CorruptRow, WrongWidthRow;
    var rows := s.phase.snapshot;
    var k := if |rows| <= c.queueMax then 0 else |rows| - c.queueMax;
    assert rows[k..] == Newest(c.queueMax, rows) && rows[..k] == Oldest(c.queueMax, rows);
    CorruptsAreWrongWidth(c, s.phase.gate, rows[k..], s.phase.clock);
  }

  /** A step that gives up nothing. */
  ghost predicate Harmless(c: Setup, s: State, e: Event) {
    match e
    case Receive(_) => |s.q.pending| < c.pendingMax && (Locked(s.phase) || !AtCap(c, s.q.file))
    case Rewrite =>
      Rewrites(c, s) ==>
        |s.phase.snapshot| <= c.queueMax && forall i :: 0 <= i < |s.phase.snapshot| ==> |s.phase.snapshot[i]| == |c.header|
    case _ => true
  }

  lemma DropsSome(rows: seq<Row>, why: Reason)
    ensures Drops(rows, why) == [] <==> rows == []
  {
  }

  lemma SelectNone<T>(p: T -> bool, xs: seq<T>)
    ensures Select(p, xs) == [] <==> forall i :: 0 <= i < |xs| ==> !p(xs[i])
  {
    if x :| x in Select(p, xs) {
      SelectMember(p, xs, x);
    }
    forall i | 0 <= i < |xs| && p(xs[i])
      ensures Select(p, xs) != []
    {
      SelectMember(p, xs, xs[i]);
    }
  }

  lemma HarmlessIff(c: Setup, s: State, e: Event)
    ensures s.q.dropped <= Step(c, s, e).q.dropped
    ensures Step(c, s, e).q.dropped == s.q.dropped <==> Harmless(c, s, e)
  {
    hide Received, NewLines, Corrupts, Keeps, Labels, Drops, ReadAppended, Select;
    match e {
      case Receive(row) =>
        var all, k := s.q.pending + [row], Excess(c, s.q);
        ReceivedGoes(c, s, row);
        DropsSome(all[..k], Overflow);
        DropsSome(all[k..], SizeCap);
      case Rewrite =>
        if Rewrites(c, s) {
          var rows := s.phase.snapshot;
          var k := if |rows| <= c.queueMax then 0 else |rows| - c.queueMax;
          RewriteDrops(c, s);
          DropsSome(rows[..k], ReadBound);
          DropsSome(Select(WrongWidthRow(c), rows[k..]), WrongWidth);
          SelectNone(WrongWidthRow(c), rows[k..]);
        }
      case _ =>
    }
  }

  ghost predicate HarmlessRun(c: Setup, file: File, run: seq<Event>) {
    forall i :: 0 <= i < |run| ==> Harmless(c, After(c, file, run[..i]), run[i])
  }

  lemma HarmlessRunStep(c: Setup, file: File, run: seq<Event>)
    requires run != []
    ensures var n := |run| - 1;
            HarmlessRun(c, file, run) <==> HarmlessRun(c, file, run[..n]) && Harmless(c, After(c, file, run[..n]), run[n])
  {
    hide After, Harmless;
    var n := |run| - 1;
    assert forall i :: 0 <= i < n ==> run[..n][i] == run[i] && run[..n][..i] == run[..i];
  }

  /**
   Over every interleaving: nothing is lost exactly when every row was received with room in the queue and either the
   lock held or the file below its cap, and every rewrite found no more rows than it may read and none of a wrong width.
   */
  lemma {:induction false} NothingLostIff(c: Setup, file: File, run: seq<Event>)
    ensures After(c, file, run).q.dropped == [] <==> HarmlessRun(c, file, run)
  {
    hide Step, Harmless;
    if run != [] {
      hide HarmlessRun;
      var n := |run| - 1;
      NothingLostIff(c, file, run[..n]);
      HarmlessIff(c, After(c, file, run[..n]), run[n]);
      HarmlessRunStep(c, file, run);
    }
  }

  /** So while that holds and no swap is made, the file followed by the queue is what was received, in order. */
  lemma HarmlessInOrder(c: Setup, file: File, run: seq<Event>)
    requires HarmlessRun(c, file, run) && forall i :: 0 <= i < |run| ==> run[i] != Rewrite
    ensures var q := After(c, file, run).q;
            q.dropped == [] && RowsIn(q.file) + q.pending == q.received
  {
    hide After, HarmlessRun;
    NothingLostIff(c, file, run);
    ReceivedInOrder(c, file, run);
  }
}
