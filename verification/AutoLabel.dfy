/**
 Automatic labeling of captured rows: which rows two independently trained models may label,
 and how scoring splits a capture file.  A classifier is any function from features to one
 probability per class; reading a number from text and writing a label are parameters.
 */
module AutoLabel {
  import opened Options
  import opened Lists

  type Row = seq<string>

  const BASE_WIDTH: nat := 13
  const TIMESTAMP_COL: nat := 11
  const LABEL_COL: nat := 12

  /** What reading a number can give. */
  datatype Float = Finite(value: real) | PosInf | NegInf | NaN

  datatype Features = Features(
    entropy: real, ewmaRate: real, meanH: real, meanR: real, sigmaH: real, sigmaR: real,
    protoRatio: real, dominantIpRatio: real, deltaRate: real, deltaEntropy: real,
    dominantRate: real, sourcePortEntropy: real, ttlVariance: real, fingerprintDiversity: real)

  datatype Model = Model(classes: seq<int>, proba: Features -> seq<real>)

  /** Everything a scoring pass is given besides the rows and the clock. */
  datatype Gate = Gate(
    delayHours: real, mtimes: seq<real>, threshold: real,
    parse: string -> Option<Float>, show: int -> string, forest: Model, second: Model)

  // ----- age and freshness -----

  predicate TooYoung(t: Float, now: real, delayHours: real) {
    match t
    case Finite(ts) => (now - ts) / 3600.0 < delayHours
    case PosInf => true
    case NegInf => false
    case NaN => false
  }

  predicate TrainedAfter(mtime: real, t: Float) {
    match t
    case Finite(ts) => mtime > ts
    case PosInf => false
    case NegInf => true
    case NaN => false
  }

  predicate IsRowEligible(t: Float, mtimes: seq<real>, delayHours: real, now: real) {
    !TooYoung(t, now, delayHours) && forall i :: 0 <= i < |mtimes| ==> TrainedAfter(mtimes[i], t)
  }

  // ----- features -----

  /** The cell a header names; a repeated name means its last column. */
  function Lookup(header: seq<string>, row: Row, name: string): Option<string>
    requires |header| == |row|
  {
    if header == [] then None
    else if header[|header| - 1] == name then Some(row[|row| - 1])
    else Lookup(header[..|header| - 1], row[..|row| - 1], name)
  }

  /** A named number; None for a missing column, an unreadable value or a non-finite one. */
  function Number(g: Gate, header: seq<string>, row: Row, name: string): Option<real>
    requires |header| == |row|
  {
    var cell := Lookup(header, row, name);
    if cell.None? then None
    else
      var v := g.parse(cell.value);
      if v.Some? && v.value.Finite? then Some(v.value.value) else None
  }

  function RowToFeatures(g: Gate, header: seq<string>, row: Row): Option<Features>
    requires |header| == |row|
  {
    var e, r := Number(g, header, row, "entropy"), Number(g, header, row, "ewma_rate");
    var mh, mr := Number(g, header, row, "mean_h"), Number(g, header, row, "mean_r");
    var sh, sr := Number(g, header, row, "sigma_h"), Number(g, header, row, "sigma_r");
    var pr, dr := Number(g, header, row, "proto_ratio"), Number(g, header, row, "dominant_ip_ratio");
    var pe, tv := Number(g, header, row, "source_port_entropy"), Number(g, header, row, "ttl_variance");
    var fd := Number(g, header, row, "fingerprint_diversity");
    if e.Some? && r.Some? && mh.Some? && mr.Some? && sh.Some? && sr.Some? && pr.Some? && dr.Some?
       && pe.Some? && tv.Some? && fd.Some?
    then Some(Features(
                e.value, r.value, mh.value, mr.value, sh.value, sr.value, pr.value, dr.value,
                r.value - mr.value, e.value - mh.value, r.value * dr.value, pe.value, tv.value, fd.value))
    else None
  }

  const BASE_CSV_HEADER: seq<string> := [
    "entropy", "ewma_rate", "mean_h", "mean_r", "sigma_h", "sigma_r", "proto_ratio", "dominant_ip_ratio",
    "source_port_entropy", "ttl_variance", "fingerprint_diversity", "timestamp", "label"]

  /** The header of anomalous captures: three context columns more. */
  const ANOMALOUS_CSV_HEADER: seq<string> := BASE_CSV_HEADER + ["victim_ip", "if_score", "rf_verdict"]

  lemma {:induction false} LookupAt(header: seq<string>, row: Row, k: nat)
    requires |header| == |row| && k < |header|
    requires forall j :: k < j < |header| ==> header[j] != header[k]
    ensures Lookup(header, row, header[k]) == Some(row[k])
  {
    if k < |header| - 1 {
      LookupAt(header[..|header| - 1], row[..|row| - 1], k);
    }
  }

  /** On either capture header, features are read by position and the three derived ones computed from them. */
  lemma FeaturesByPosition(g: Gate, h: seq<string>, row: Row, v: seq<real>)
    requires h == BASE_CSV_HEADER || h == ANOMALOUS_CSV_HEADER
    requires |row| == |h| && |v| == 11 && forall k :: 0 <= k < 11 ==> g.parse(row[k]) == Some(Finite(v[k]))
    ensures RowToFeatures(g, h, row) ==
              Some(Features(v[0], v[1], v[2], v[3], v[4], v[5], v[6], v[7],
                            v[1] - v[3], v[0] - v[2], v[1] * v[7], v[8], v[9], v[10]))
    ensures IsRowDegenerate(RowToFeatures(g, h, row).value) <==>
              v[0] == 0.0 && forall k :: 6 <= k < 11 ==> v[k] == 0.0
  {
    hide Number;
    NumbersByName(g, h, row, v);
    var x := RowToFeatures(g, h, row);
    assert x.Some?;
    assert x.value.deltaRate == v[1] - v[3] && x.value.deltaEntropy == v[0] - v[2];
    assert x.value.dominantRate == v[1] * v[7];
    assert x.value.entropy == v[0];
  }

  /** The columns by name: where the timestamp and the label are, and that the label is the last of the base columns. */
  lemma Columns()
    ensures BASE_CSV_HEADER[TIMESTAMP_COL] == "timestamp" && BASE_CSV_HEADER[LABEL_COL] == "label"
    ensures |BASE_CSV_HEADER| == BASE_WIDTH == LABEL_COL + 1
  {
  }

  /** A row has features exactly when all eleven columns read as finite numbers. */
  lemma FeaturesIff(g: Gate, h: seq<string>, row: Row)
    requires (h == BASE_CSV_HEADER || h == ANOMALOUS_CSV_HEADER) && |row| == |h|
    ensures RowToFeatures(g, h, row).Some? <==>
              forall k :: 0 <= k < 11 ==> g.parse(row[k]).Some? && g.parse(row[k]).value.Finite?
  {
    hide Number;
    if forall k :: 0 <= k < 11 ==> g.parse(row[k]).Some? && g.parse(row[k]).value.Finite? {
      var v := seq(11, k requires 0 <= k < 11 => g.parse(row[k]).value.value);
      FeaturesByPosition(g, h, row, v);
    } else {
      var k: nat :| k < 11 && !(g.parse(row[k]).Some? && g.parse(row[k]).value.Finite?);
      UnreadableColumn(g, h, row, k);
    }
  }

  lemma UnreadableColumn(g: Gate, h: seq<string>, row: Row, k: nat)
    requires (h == BASE_CSV_HEADER || h == ANOMALOUS_CSV_HEADER) && |row| == |h| && k < 11
    requires !(g.parse(row[k]).Some? && g.parse(row[k]).value.Finite?)
    ensures RowToFeatures(g, h, row).None?
  {
    hide Lookup;
    ColumnFound(h, row, k);
    assert Number(g, h, row, h[k]).None?;
    assert h[k] == BASE_CSV_HEADER[k];
  }

  lemma ColumnFound(h: seq<string>, row: Row, k: nat)
    requires (h == BASE_CSV_HEADER || h == ANOMALOUS_CSV_HEADER) && |row| == |h| && k < 11
    ensures Lookup(h, row, h[k]) == Some(row[k])
  {
    NamesDistinct(k);
    forall j | k < j < |h|
      ensures h[j] != h[k]
    {
      assert h[j] == ANOMALOUS_CSV_HEADER[j] && h[k] == ANOMALOUS_CSV_HEADER[k];
    }
    LookupAt(h, row, k);
  }

  lemma NumbersByName(g: Gate, h: seq<string>, row: Row, v: seq<real>)
    requires h == BASE_CSV_HEADER || h == ANOMALOUS_CSV_HEADER
    requires |row| == |h| && |v| == 11 && forall k :: 0 <= k < 11 ==> g.parse(row[k]) == Some(Finite(v[k]))
    ensures Number(g, h, row, "entropy") == Some(v[0])
    ensures Number(g, h, row, "ewma_rate") == Some(v[1])
    ensures Number(g, h, row, "mean_h") == Some(v[2])
    ensures Number(g, h, row, "mean_r") == Some(v[3])
    ensures Number(g, h, row, "sigma_h") == Some(v[4])
    ensures Number(g, h, row, "sigma_r") == Some(v[5])
    ensures Number(g, h, row, "proto_ratio") == Some(v[6])
    ensures Number(g, h, row, "dominant_ip_ratio") == Some(v[7])
    ensures Number(g, h, row, "source_port_entropy") == Some(v[8])
    ensures Number(g, h, row, "ttl_variance") == Some(v[9])
    ensures Number(g, h, row, "fingerprint_diversity") == Some(v[10])
  {
    hide Number;
    NumbersByPosition(g, h, row, v);
    assert h[0] == "entropy" && h[1] == "ewma_rate" && h[2] == "mean_h" && h[3] == "mean_r" && h[4] == "sigma_h" && h[5] == "sigma_r";
    assert h[6] == "proto_ratio" && h[7] == "dominant_ip_ratio" && h[8] == "source_port_entropy";
    assert h[9] == "ttl_variance" && h[10] == "fingerprint_diversity";
  }

  lemma NumbersByPosition(g: Gate, h: seq<string>, row: Row, v: seq<real>)
    requires h == BASE_CSV_HEADER || h == ANOMALOUS_CSV_HEADER
    requires |row| == |h| && |v| == 11 && forall k :: 0 <= k < 11 ==> g.parse(row[k]) == Some(Finite(v[k]))
    ensures forall k :: 0 <= k < 11 ==> Number(g, h, row, h[k]) == Some(v[k])
  {
    hide Lookup;
    forall k | 0 <= k < 11
      ensures Number(g, h, row, h[k]) == Some(v[k])
    {
      NamesDistinct(k);
      forall j | k < j < |h|
        ensures h[j] != h[k]
      {
        assert h[j] == ANOMALOUS_CSV_HEADER[j] && h[k] == ANOMALOUS_CSV_HEADER[k];
      }
      LookupAt(h, row, k);
    }
  }

  lemma NamesDistinct(k: nat)
    requires k < 11
    ensures forall j :: k < j < |ANOMALOUS_CSV_HEADER| ==> ANOMALOUS_CSV_HEADER[j] != ANOMALOUS_CSV_HEADER[k]
  {
    assert "mean_h"[5] != "mean_r"[5] && "sigma_h"[6] != "sigma_r"[6];
    assert "victim_ip"[0] != "ewma_rate"[0] && "timestamp"[0] != "ewma_rate"[0];
  }

  /** The signature of a window without traffic. */
  predicate IsRowDegenerate(x: Features) {
    x.entropy == 0.0 && x.protoRatio == 0.0 && x.dominantIpRatio == 0.0
    && x.sourcePortEntropy == 0.0 && x.ttlVariance == 0.0 && x.fingerprintDiversity == 0.0
  }

  // ----- agreement of the two models -----

  /** The first index of a largest entry. */
  function ArgMax(p: seq<real>): (i: nat)
    ensures p != [] ==> IsTop(p, i) && forall j :: 0 <= j < i ==> p[j] < p[i]
  {
    if |p| <= 1 then 0
    else
      var i := ArgMax(p[..|p| - 1]);
      if p[|p| - 1] > p[i] then |p| - 1 else i
  }

  predicate IsTop(p: seq<real>, i: nat) {
    i < |p| && forall j :: 0 <= j < |p| ==> p[j] <= p[i]
  }

  /** The decision when the two models' top indices are i and j. */
  function Decide(p: seq<real>, pc: seq<int>, q: seq<real>, qc: seq<int>, threshold: real, i: nat, j: nat): Option<int> {
    if pc != qc || i != j then None
    else if i >= |p| || i >= |q| || i >= |pc| then None
    else if p[i] < threshold || q[j] < threshold then None
    else Some(pc[i])
  }

  function DecideLabel(p: seq<real>, pc: seq<int>, q: seq<real>, qc: seq<int>, threshold: real): Option<int> {
    Decide(p, pc, q, qc, threshold, ArgMax(p), ArgMax(q))
  }

  function Sum(p: seq<real>): real {
    if p == [] then 0.0 else Sum(p[..|p| - 1]) + p[|p| - 1]
  }

  ghost predicate Distribution(p: seq<real>) {
    Sum(p) == 1.0 && forall i :: 0 <= i < |p| ==> p[i] >= 0.0
  }

  lemma {:induction false} SumAtLeast(p: seq<real>, i: nat)
    requires i < |p| && forall k :: 0 <= k < |p| ==> p[k] >= 0.0
    ensures Sum(p) >= p[i]
  {
    var init := p[..|p| - 1];
    if i < |p| - 1 {
      SumAtLeast(init, i);
    } else if init != [] {
      SumAtLeast(init, 0);
    }
  }

  lemma {:induction false} SumAtLeastTwo(p: seq<real>, i: nat, j: nat)
    requires i < j < |p| && forall k :: 0 <= k < |p| ==> p[k] >= 0.0
    ensures Sum(p) >= p[i] + p[j]
  {
    if j < |p| - 1 {
      SumAtLeastTwo(p[..|p| - 1], i, j);
    } else {
      SumAtLeast(p[..|p| - 1], i);
    }
  }

  /** Two different top indices share at most 1/2 each. */
  lemma TiesAreSmall(p: seq<real>, i: nat, j: nat)
    requires Distribution(p) && IsTop(p, i) && IsTop(p, j) && i != j
    ensures p[i] == p[j] <= 0.5
  {
    SumAtLeastTwo(p, if i < j then i else j, if i < j then j else i);
  }

  /** With a threshold above 1/2 the label does not depend on which top index argmax returns. */
  lemma TieBreakIrrelevant(p: seq<real>, q: seq<real>, classes: seq<int>, threshold: real, i: nat, j: nat)
    requires threshold > 0.5 && Distribution(p) && Distribution(q)
    requires IsTop(p, i) && IsTop(q, j)
    ensures Decide(p, classes, q, classes, threshold, i, j) == DecideLabel(p, classes, q, classes, threshold)
  {
    if i != ArgMax(p) {
      TiesAreSmall(p, i, ArgMax(p));
    }
    if j != ArgMax(q) {
      TiesAreSmall(q, j, ArgMax(q));
    }
  }

  /** At any threshold of 1/2 or less it can. */
  lemma TieBreakMatters(threshold: real)
    requires threshold <= 0.5
    ensures exists p, classes, i ::
              Distribution(p) && IsTop(p, i) &&
              Decide(p, classes, p, classes, threshold, i, i) != DecideLabel(p, classes, p, classes, threshold)
  {
    var p: seq<real> := [0.5, 0.5];
    assert p[..1] == [0.5] && [0.5][..0] == [];
    assert Sum([0.5]) == 0.5;
    assert Distribution(p) && IsTop(p, 1);
    assert Decide(p, [0, 1], p, [0, 1], threshold, 1, 1) == Some(1);
    assert DecideLabel(p, [0, 1], p, [0, 1], threshold) == Some(0);
  }

  // ----- the fate of a row -----

  /** A captured row and the clock reading its age is judged by. */
  datatype Timed = Timed(row: Row, now: real)

  function Stamped(rows: seq<Row>, clock: nat -> real): (ts: seq<Timed>)
    ensures |ts| == |rows|
  {
    seq(|rows|, i requires 0 <= i < |rows| => Timed(rows[i], clock(i)))
  }

  function Rows(ts: seq<Timed>): (rows: seq<Row>)
    ensures |rows| == |ts|
  {
    seq(|ts|, i requires 0 <= i < |ts| => ts[i].row)
  }

  datatype Fate = Corrupt | Stays | Labeled(cls: int)

  /** Stays rows come in two kinds: refused before scoring, and scored without a label. */
  predicate Scorable(g: Gate, header: seq<string>, t: Timed) {
    |t.row| == |header| && TIMESTAMP_COL < |t.row| &&
    var ts := g.parse(t.row[TIMESTAMP_COL]);
    ts.Some? && IsRowEligible(ts.value, g.mtimes, g.delayHours, t.now) &&
    var x := RowToFeatures(g, header, t.row);
    x.Some? && !IsRowDegenerate(x.value)
  }

  function LabelOf(g: Gate, header: seq<string>, t: Timed): Option<int>
    requires Scorable(g, header, t)
  {
    var x := RowToFeatures(g, header, t.row).value;
    DecideLabel(g.forest.proba(x), g.forest.classes, g.second.proba(x), g.second.classes, g.threshold)
  }

  function FateOf(g: Gate, header: seq<string>, t: Timed): Fate {
    if |t.row| != |header| then Corrupt
    else if !Scorable(g, header, t) then Stays
    else
      var cls := LabelOf(g, header, t);
      if cls.None? then Stays else Labeled(cls.value)
  }

  function ScorableRow(g: Gate, header: seq<string>): Timed -> bool {
    t => Scorable(g, header, t)
  }

  function RefusedRow(g: Gate, header: seq<string>): Timed -> bool {
    (t: Timed) => |t.row| == |header| && !Scorable(g, header, t)
  }

  function UnlabeledRow(g: Gate, header: seq<string>): Timed -> bool {
    t => Scorable(g, header, t) && LabelOf(g, header, t).None?
  }

  function LabeledRow(g: Gate, header: seq<string>): Timed -> bool {
    t => FateOf(g, header, t).Labeled?
  }

  function CorruptRow(g: Gate, header: seq<string>): Timed -> bool {
    t => FateOf(g, header, t).Corrupt?
  }

  /** The staged form of a labeled row: the 13 base columns, with the label written in. */
  function StagedRow(g: Gate, row: Row, cls: int): Row {
    if |row| < BASE_WIDTH then row else row[..BASE_WIDTH][LABEL_COL := g.show(cls)]
  }

  function StagedRows(g: Gate, header: seq<string>, ts: seq<Timed>): seq<Row> {
    if ts == [] then []
    else
      var rest, t := StagedRows(g, header, ts[..|ts| - 1]), ts[|ts| - 1];
      var fate := FateOf(g, header, t);
      if fate.Labeled? then rest + [StagedRow(g, t.row, fate.cls)] else rest
  }

  /** Rows that stay: those refused before scoring, then those scored without a label. */
  function KeptRows(g: Gate, header: seq<string>, ts: seq<Timed>): seq<Row> {
    Rows(Select(RefusedRow(g, header), ts)) + Rows(Select(UnlabeledRow(g, header), ts))
  }

  lemma RowsStep(ts: seq<Timed>, t: Timed)
    ensures Rows(ts + [t]) == Rows(ts) + [t.row]
  {
  }

  /** The two passes; `clock` gives the reading made for each row. */
  method ScoreRows(g: Gate, header: seq<string>, rows: seq<Row>, clock: nat -> real)
    returns (kept: seq<Row>, labeled: seq<Row>, corrupt: nat)
    ensures kept == KeptRows(g, header, Stamped(rows, clock))
    ensures labeled == StagedRows(g, header, Stamped(rows, clock))
    ensures corrupt == |Select(CorruptRow(g, header), Stamped(rows, clock))|
  {
    hide Scorable, LabelOf, StagedRow, Rows;
    kept, labeled, corrupt := [], [], 0;
    var scorable: seq<Timed> := [];
    ghost var ts := Stamped(rows, clock);
    assert Rows([]) == [];
    for i := 0 to |rows|
      invariant kept == Rows(Select(RefusedRow(g, header), ts[..i]))
      invariant scorable == Select(ScorableRow(g, header), ts[..i])
      invariant corrupt == |Select(CorruptRow(g, header), ts[..i])|
    {
      var t := Timed(rows[i], clock(i));
      assert ts[..i + 1] == ts[..i] + [t];
      SelectStep(RefusedRow(g, header), ts[..i], t);
      SelectStep(ScorableRow(g, header), ts[..i], t);
      SelectStep(CorruptRow(g, header), ts[..i], t);
      RowsStep(Select(RefusedRow(g, header), ts[..i]), t);
      ScorableWidth(g, header, t);
      if |t.row| != |header| {
        corrupt := corrupt + 1;
      } else if Scorable(g, header, t) {
        scorable := scorable + [t];
      } else {
        kept := kept + [t.row];
      }
    }
    assert ts[..|rows|] == ts;
    var refused := kept;
    var unlabeled: seq<Row>;
    unlabeled, labeled := LabelScorable(g, header, scorable, ts);
    kept := refused + unlabeled;
    SelectSelect(UnlabeledRow(g, header), ScorableRow(g, header), ts);
    StagedScorable(g, header, ts);
  }

  /** The second pass, over the scorable rows. */
  method LabelScorable(g: Gate, header: seq<string>, scorable: seq<Timed>, ghost ts: seq<Timed>)
    returns (unlabeled: seq<Row>, labeled: seq<Row>)
    requires scorable == Select(ScorableRow(g, header), ts)
    ensures unlabeled == Rows(Select(UnlabeledRow(g, header), scorable))
    ensures labeled == StagedRows(g, header, scorable)
  {
    hide Scorable, LabelOf, StagedRow, Rows;
    unlabeled, labeled := [], [];
    assert Rows([]) == [];
    for j := 0 to |scorable|
      invariant unlabeled == Rows(Select(UnlabeledRow(g, header), scorable[..j]))
      invariant labeled == StagedRows(g, header, scorable[..j])
    {
      var t := scorable[j];
      assert scorable[..j + 1] == scorable[..j] + [t];
      SelectStep(UnlabeledRow(g, header), scorable[..j], t);
      RowsStep(Select(UnlabeledRow(g, header), scorable[..j]), t);
      SelectMember(ScorableRow(g, header), ts, t);
      ScorableWidth(g, header, t);
      assert scorable[..j + 1][..j] == scorable[..j];
      var cls := LabelOf(g, header, t);
      if cls.None? {
        unlabeled := unlabeled + [t.row];
      } else {
        labeled := labeled + [StagedRow(g, t.row, cls.value)];
      }
    }
    assert scorable[..|scorable|] == scorable;
  }

  lemma ScorableWidth(g: Gate, header: seq<string>, t: Timed)
    ensures Scorable(g, header, t) ==> |t.row| == |header|
  {
  }

  lemma {:induction false} StagedScorable(g: Gate, header: seq<string>, ts: seq<Timed>)
    ensures StagedRows(g, header, Select(ScorableRow(g, header), ts)) == StagedRows(g, header, ts)
  {
    hide Scorable, LabelOf, StagedRow;
    if ts != [] {
      var init, t := ts[..|ts| - 1], ts[|ts| - 1];
      StagedScorable(g, header, init);
      ScorableWidth(g, header, t);
      var s := Select(ScorableRow(g, header), init);
      assert (s + [t])[..|s|] == s;
    }
  }

  /** The staged list is the labeled rows, one by one and in order, each in its staged form. */
  lemma {:induction false} StagedAreLabeled(g: Gate, header: seq<string>, ts: seq<Timed>)
    ensures var staged, from := StagedRows(g, header, ts), Select(LabeledRow(g, header), ts);
            && |staged| == |from|
            && forall i :: 0 <= i < |from| ==>
                             FateOf(g, header, from[i]).Labeled?
                             && staged[i] == StagedRow(g, from[i].row, FateOf(g, header, from[i]).cls)
  {
    hide StagedRow, FateOf;
    if ts != [] {
      StagedAreLabeled(g, header, ts[..|ts| - 1]);
    }
  }

  /** Every input row is in exactly one of kept, labeled and corrupt. */
  lemma {:induction false} ScorePartition(g: Gate, header: seq<string>, ts: seq<Timed>)
    ensures multiset(Rows(ts)) ==
              multiset(KeptRows(g, header, ts))
              + multiset(Rows(Select(LabeledRow(g, header), ts)))
              + multiset(Rows(Select(CorruptRow(g, header), ts)))
  {
    hide Scorable, LabelOf, Rows;
    if ts == [] {
      assert Rows([]) == [];
    } else {
      var init, t := ts[..|ts| - 1], ts[|ts| - 1];
      ScorePartition(g, header, init);
      ScorableWidth(g, header, t);
      assert ts == init + [t];
      RowsStep(init, t);
      SelectedStep(RefusedRow(g, header), init, t);
      SelectedStep(UnlabeledRow(g, header), init, t);
      SelectedStep(LabeledRow(g, header), init, t);
      SelectedStep(CorruptRow(g, header), init, t);
    }
  }

  /** Rows that stay are first those refused before scoring and then those scored without a label, each in their order. */
  lemma KeptOrder(g: Gate, header: seq<string>, ts: seq<Timed>)
    ensures var k, kept := |Select(RefusedRow(g, header), ts)|, KeptRows(g, header, ts);
            && k <= |kept| && kept[..k] == Rows(Select(RefusedRow(g, header), ts))
            && kept[k..] == Rows(Select(UnlabeledRow(g, header), ts))
  {
  }

  lemma SelectedStep(p: Timed -> bool, ts: seq<Timed>, t: Timed)
    ensures multiset(Rows(Select(p, ts + [t]))) == multiset(Rows(Select(p, ts))) + if p(t) then multiset{t.row} else multiset{}
  {
    hide Rows, Select;
    var s := Select(p, ts);
    SelectStep(p, ts, t);
    if p(t) {
      RowsStep(s, t);
    } else {
      assert s + [] == s;
    }
  }

  lemma StampedRows(rows: seq<Row>, clock: nat -> real)
    ensures Rows(Stamped(rows, clock)) == rows
  {
  }

  // ----- the gate -----

  /** Old enough, captured before both models were trained. */
  ghost predicate Aged(g: Gate, t: Float, now: real) {
    t.NegInf? || (t.Finite? && now - t.value >= 3600.0 * g.delayHours
                  && forall i :: 0 <= i < |g.mtimes| ==> g.mtimes[i] > t.value)
  }

  ghost predicate FirstTop(p: seq<real>, i: nat) {
    IsTop(p, i) && forall j :: 0 <= j < i ==> p[j] < p[i]
  }

  /** Both models rank the class top, at or above the threshold; `first` asks for the first of equal tops. */
  ghost predicate Agreed(g: Gate, x: Features, cls: int, first: bool) {
    var p, q := g.forest.proba(x), g.second.proba(x);
    g.forest.classes == g.second.classes &&
    exists i: nat ::
      IsTop(p, i) && IsTop(q, i) && (first ==> FirstTop(p, i) && FirstTop(q, i))
      && i < |g.forest.classes| && g.forest.classes[i] == cls && p[i] >= g.threshold && q[i] >= g.threshold
  }

  ghost predicate OneProbabilityPerClass(m: Model) {
    |m.classes| >= 1 && forall x :: |m.proba(x)| == |m.classes|
  }

  lemma EligibleMeansAged(g: Gate, t: Float, now: real)
    requires |g.mtimes| >= 1
    ensures IsRowEligible(t, g.mtimes, g.delayHours, now) <==> Aged(g, t, now)
  {
    if t.PosInf? || t.NaN? {
      assert !TrainedAfter(g.mtimes[0], t);
    }
  }

  /**
   The gate, at every threshold: a row gets a label exactly when it has the header's width, is older than the delay
   and older than both models, has finite features that are not all zero, and carries a class both models rank top,
   first among equals, at or above the threshold.
   */
  lemma LabeledIff(g: Gate, header: seq<string>, t: Timed, cls: int)
    requires |g.mtimes| >= 1 && OneProbabilityPerClass(g.forest) && OneProbabilityPerClass(g.second)
    ensures FateOf(g, header, t) == Labeled(cls) <==>
              && |t.row| == |header| && TIMESTAMP_COL < |t.row|
              && g.parse(t.row[TIMESTAMP_COL]).Some? && Aged(g, g.parse(t.row[TIMESTAMP_COL]).value, t.now)
              && RowToFeatures(g, header, t.row).Some?
              && !IsRowDegenerate(RowToFeatures(g, header, t.row).value)
              && Agreed(g, RowToFeatures(g, header, t.row).value, cls, true)
  {
    hide RowToFeatures, IsRowDegenerate, IsRowEligible, Aged, Agreed;
    if |t.row| == |header| && TIMESTAMP_COL < |t.row| && g.parse(t.row[TIMESTAMP_COL]).Some? {
      EligibleMeansAged(g, g.parse(t.row[TIMESTAMP_COL]).value, t.now);
      var x := RowToFeatures(g, header, t.row);
      if x.Some? {
        DecideIff(g, x.value, cls);
      }
    }
  }

  lemma DecideIff(g: Gate, x: Features, cls: int)
    requires OneProbabilityPerClass(g.forest) && OneProbabilityPerClass(g.second)
    ensures DecideLabel(g.forest.proba(x), g.forest.classes, g.second.proba(x), g.second.classes, g.threshold) == Some(cls)
            <==> Agreed(g, x, cls, true)
  {
    var p, q := g.forest.proba(x), g.second.proba(x);
    assert FirstTop(p, ArgMax(p)) && FirstTop(q, ArgMax(q));
    if Agreed(g, x, cls, true) {
      var i: nat :| IsTop(p, i) && IsTop(q, i) && FirstTop(p, i) && FirstTop(q, i)
                    && i < |g.forest.classes| && g.forest.classes[i] == cls && p[i] >= g.threshold && q[i] >= g.threshold;
      FirstTopUnique(p, i, ArgMax(p));
      FirstTopUnique(q, i, ArgMax(q));
    }
  }

  lemma FirstTopUnique(p: seq<real>, i: nat, j: nat)
    requires FirstTop(p, i) && FirstTop(p, j)
    ensures i == j
  {
    assert p[i] == p[j];
  }

  /** Above 1/2, with real probabilities, being first among equals is no condition at all. */
  lemma AnyTopAgrees(g: Gate, x: Features, cls: int)
    requires g.threshold > 0.5 && Distribution(g.forest.proba(x)) && Distribution(g.second.proba(x))
    ensures Agreed(g, x, cls, false) <==> Agreed(g, x, cls, true)
  {
    var p, q := g.forest.proba(x), g.second.proba(x);
    if Agreed(g, x, cls, false) {
      var i: nat :| IsTop(p, i) && IsTop(q, i) && i < |g.forest.classes| && g.forest.classes[i] == cls
                    && p[i] >= g.threshold && q[i] >= g.threshold;
      assert FirstTop(p, ArgMax(p)) && FirstTop(q, ArgMax(q));
      if i != ArgMax(p) {
        TiesAreSmall(p, i, ArgMax(p));
      }
      if i != ArgMax(q) {
        TiesAreSmall(q, i, ArgMax(q));
      }
    }
  }

  /** No label without the gate, whatever the models return. */
  lemma LabeledOnlyThroughGate(g: Gate, header: seq<string>, t: Timed)
    requires FateOf(g, header, t).Labeled? && |g.mtimes| >= 1
    ensures |t.row| == |header| && TIMESTAMP_COL < |t.row|
    ensures g.parse(t.row[TIMESTAMP_COL]).Some? && Aged(g, g.parse(t.row[TIMESTAMP_COL]).value, t.now)
    ensures var x := RowToFeatures(g, header, t.row);
            x.Some? && !IsRowDegenerate(x.value) && Agreed(g, x.value, FateOf(g, header, t).cls, true)
  {
    hide RowToFeatures, Aged;
    var x := RowToFeatures(g, header, t.row).value;
    EligibleMeansAged(g, g.parse(t.row[TIMESTAMP_COL]).value, t.now);
    assert FirstTop(g.forest.proba(x), ArgMax(g.forest.proba(x))) && FirstTop(g.second.proba(x), ArgMax(g.second.proba(x)));
  }

  /** Above 1/2, with real probabilities, every row that passes with any top class is labeled with it. */
  lemma GateLabels(g: Gate, header: seq<string>, t: Timed, cls: int)
    requires |t.row| == |header| && TIMESTAMP_COL < |t.row| && |g.mtimes| >= 1
    requires g.parse(t.row[TIMESTAMP_COL]).Some? && Aged(g, g.parse(t.row[TIMESTAMP_COL]).value, t.now)
    requires RowToFeatures(g, header, t.row).Some?
    requires var x := RowToFeatures(g, header, t.row).value;
             !IsRowDegenerate(x) && Agreed(g, x, cls, false)
             && Distribution(g.forest.proba(x)) && Distribution(g.second.proba(x))
    requires OneProbabilityPerClass(g.forest) && OneProbabilityPerClass(g.second) && g.threshold > 0.5
    ensures FateOf(g, header, t) == Labeled(cls)
  {
    hide RowToFeatures, Agreed, Aged, FateOf, IsRowDegenerate, Distribution;
    AnyTopAgrees(g, RowToFeatures(g, header, t.row).value, cls);
    LabeledIff(g, header, t, cls);
  }

  /** What is staged of a labeled row: 13 columns, all but the label as captured. */
  lemma StagedForm(g: Gate, header: seq<string>, t: Timed)
    requires FateOf(g, header, t).Labeled? && |header| >= BASE_WIDTH
    ensures var s := StagedRow(g, t.row, FateOf(g, header, t).cls);
            && |s| == BASE_WIDTH && LABEL_COL < |t.row| && s[..LABEL_COL] == t.row[..LABEL_COL]
            && s[LABEL_COL] == g.show(FateOf(g, header, t).cls)
  {
    hide Scorable, LabelOf;
  }
}
