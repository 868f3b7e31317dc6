/**
 Capping the DDoS rows of the training set by dropping whole capture sessions: sort by time,
 segment into sessions, pick DDoS sessions greedily in shuffled order while they fit under the cap.
 The shuffle is any permutation.  Both implementations of the trim are modelled.
 */
module TrainingBalance {
  import opened Arith
  import opened Lists

  const SESSION_GAP: real := 30.0

  datatype Class = Normal | FlashCrowd | Ddos | Unlisted(name: string)

  datatype Row = Row(ts: real, cls: Class, data: string)

  // ----- sorting by time, stably -----

  ghost predicate Sorted(rows: seq<Row>) {
    forall i, j :: 0 <= i < j < |rows| ==> rows[i].ts <= rows[j].ts
  }

  /** Into a sorted list, after every row that is not later. */
  function Insert(s: seq<Row>, r: Row): seq<Row> {
    if s == [] || s[|s| - 1].ts <= r.ts then s + [r]
    else Insert(s[..|s| - 1], r) + [s[|s| - 1]]
  }

  function SortByTime(rows: seq<Row>): seq<Row> {
    if rows == [] then [] else Insert(SortByTime(rows[..|rows| - 1]), rows[|rows| - 1])
  }

  lemma {:induction false} InsertContents(s: seq<Row>, r: Row)
    ensures multiset(Insert(s, r)) == multiset(s) + multiset{r}
  {
    if s != [] && s[|s| - 1].ts > r.ts {
      InsertContents(s[..|s| - 1], r);
      assert s == s[..|s| - 1] + [s[|s| - 1]];
    }
  }

  lemma {:induction false} InsertSorted(s: seq<Row>, r: Row)
    requires Sorted(s)
    ensures Sorted(Insert(s, r))
  {
    if s != [] && s[|s| - 1].ts > r.ts {
      var init, last := s[..|s| - 1], s[|s| - 1];
      InsertSorted(init, r);
      InsertContents(init, r);
      var t := Insert(init, r);
      forall i | 0 <= i < |t|
        ensures t[i].ts <= last.ts
      {
        assert t[i] in multiset(t);
        assert t[i] in init || t[i] == r;
      }
    }
  }

  /** Rows with the same time keep their order. */
  lemma {:induction false} InsertStable(s: seq<Row>, r: Row, t: real)
    requires Sorted(s)
    ensures Select(AtTime(t), Insert(s, r)) == Select(AtTime(t), s) + if r.ts == t then [r] else []
  {
    if s == [] || s[|s| - 1].ts <= r.ts {
      SelectStep(AtTime(t), s, r);
    } else {
      var init, last := s[..|s| - 1], s[|s| - 1];
      InsertStable(init, r, t);
      SelectStep(AtTime(t), Insert(init, r), last);
      if r.ts == t {
        assert last.ts != t;
      }
    }
  }

  function AtTime(t: real): Row -> bool {
    (r: Row) => r.ts == t
  }

  /** A stable sort: ordered by time, the same rows, and rows of one time in their given order. */
  lemma {:induction false} SortCorrect(rows: seq<Row>)
    ensures Sorted(SortByTime(rows)) && multiset(SortByTime(rows)) == multiset(rows)
    ensures forall t :: Select(AtTime(t), SortByTime(rows)) == Select(AtTime(t), rows)
  {
    hide Insert, Sorted, Select;
    if rows != [] {
      var init, r := rows[..|rows| - 1], rows[|rows| - 1];
      SortCorrect(init);
      InsertSorted(SortByTime(init), r);
      InsertContents(SortByTime(init), r);
      assert rows == init + [r];
      forall t: real
        ensures Select(AtTime(t), SortByTime(rows)) == Select(AtTime(t), rows)
      {
        InsertStable(SortByTime(init), r, t);
        SelectStep(AtTime(t), init, r);
      }
    } else {
      SortNothing();
    }
  }

  lemma SortNothing()
    ensures Sorted([])
  {
  }

  lemma {:induction false} SortSorted(rows: seq<Row>)
    requires Sorted(rows)
    ensures SortByTime(rows) == rows
  {
    hide Insert;
    if rows != [] {
      var init, last := rows[..|rows| - 1], rows[|rows| - 1];
      SortSorted(init);
      InsertLast(init, last);
      assert rows == init + [last];
    }
  }

  lemma InsertLast(s: seq<Row>, r: Row)
    requires s == [] || s[|s| - 1].ts <= r.ts
    ensures Insert(s, r) == s + [r]
  {
  }

  // ----- sessions -----

  /** A session ends at a gap of more than 30 seconds or a change of class. */
  predicate Breaks(a: Row, b: Row) {
    b.ts - a.ts > SESSION_GAP || b.cls != a.cls
  }

  function SessionIds(rows: seq<Row>): (ids: seq<nat>)
    ensures |ids| == |rows|
  {
    if rows == [] then []
    else
      var ids := SessionIds(rows[..|rows| - 1]);
      var n := |rows| - 1;
      ids + [if n == 0 then 1 else ids[n - 1] + if Breaks(rows[n - 1], rows[n]) then 1 else 0]
  }

  method AssignSessions(rows: seq<Row>) returns (sorted: seq<Row>, ids: seq<nat>)
    ensures sorted == SortByTime(rows) && ids == SessionIds(sorted)
  {
    sorted := SortByTime(rows);
    ids := [];
    var session := 0;
    for i := 0 to |sorted|
      invariant ids == SessionIds(sorted[..i])
      invariant session == if i == 0 then 0 else ids[i - 1]
    {
      assert sorted[..i + 1][..i] == sorted[..i];
      if i == 0 || Breaks(sorted[i - 1], sorted[i]) {
        session := session + 1;
      }
      ids := ids + [session];
    }
    assert sorted[..|sorted|] == sorted;
  }

  lemma {:induction false} IdStep(rows: seq<Row>, i: nat)
    requires i + 1 < |rows|
    ensures SessionIds(rows)[i + 1] == SessionIds(rows)[i] + if Breaks(rows[i], rows[i + 1]) then 1 else 0
  {
    if i + 1 < |rows| - 1 {
      IdStep(rows[..|rows| - 1], i);
    }
  }

  lemma {:induction false} IdsMonotone(rows: seq<Row>, i: nat, j: nat)
    requires i <= j < |rows|
    ensures SessionIds(rows)[i] <= SessionIds(rows)[j]
    decreases j
  {
    if i < j {
      IdsMonotone(rows, i, j - 1);
      IdStep(rows, j - 1);
    }
  }

  /** Two rows are in one session exactly when between them no gap exceeds 30 seconds and the class never changes. */
  lemma SessionByTimes(rows: seq<Row>, i: nat, j: nat)
    requires i <= j < |rows|
    ensures SessionIds(rows)[i] == SessionIds(rows)[j] <==>
              forall m :: i <= m < j ==> rows[m + 1].ts - rows[m].ts <= 30.0 && rows[m + 1].cls == rows[m].cls
  {
    hide SessionIds;
    SameSession(rows, i, j);
    forall m | i <= m < j
      ensures !Breaks(rows[m], rows[m + 1]) <==> rows[m + 1].ts - rows[m].ts <= 30.0 && rows[m + 1].cls == rows[m].cls
    {
    }
  }

  /** Two rows are in one session exactly when no break lies between them. */
  lemma {:induction false} SameSession(rows: seq<Row>, i: nat, j: nat)
    requires i <= j < |rows|
    ensures SessionIds(rows)[i] == SessionIds(rows)[j] <==> forall m :: i <= m < j ==> !Breaks(rows[m], rows[m + 1])
    decreases j
  {
    if i < j {
      SameSession(rows, i, j - 1);
      IdsMonotone(rows, i, j - 1);
      IdStep(rows, j - 1);
      assert Breaks(rows[j - 1], rows[j - 1 + 1]) <==> Breaks(rows[j - 1], rows[j]);
    }
  }

  lemma {:induction false} OneClass(rows: seq<Row>, i: nat, j: nat)
    requires i <= j < |rows| && forall m :: i <= m < j ==> !Breaks(rows[m], rows[m + 1])
    ensures rows[i].cls == rows[j].cls
    decreases j
  {
    if i < j {
      OneClass(rows, i, j - 1);
      assert !Breaks(rows[j - 1], rows[j - 1 + 1]);
    }
  }

  lemma SessionHasOneClass(rows: seq<Row>, i: nat, j: nat)
    requires i < |rows| && j < |rows| && SessionIds(rows)[i] == SessionIds(rows)[j]
    ensures rows[i].cls == rows[j].cls
  {
    hide SessionIds;
    var lo, hi := if i <= j then i else j, if i <= j then j else i;
    SameSession(rows, lo, hi);
    OneClass(rows, lo, hi);
  }

  // ----- the trim -----

  function CountOf(rows: seq<Row>, c: Class): nat {
    if rows == [] then 0 else CountOf(rows[..|rows| - 1], c) + if rows[|rows| - 1].cls == c then 1 else 0
  }

  function CapOf(rows: seq<Row>): nat {
    Min(CountOf(rows, Normal), CountOf(rows, FlashCrowd))
  }

  /** DDoS rows in the first n whose session is in ks. */
  function RowsIn(rows: seq<Row>, ids: seq<nat>, ks: set<nat>, n: nat): nat
    requires |ids| == |rows| && n <= |rows|
  {
    if n == 0 then 0
    else RowsIn(rows, ids, ks, n - 1) + if rows[n - 1].cls == Ddos && ids[n - 1] in ks then 1 else 0
  }

  function SizeOf(rows: seq<Row>, ids: seq<nat>, ks: set<nat>): nat
    requires |ids| == |rows|
  {
    RowsIn(rows, ids, ks, |rows|)
  }

  /** The DDoS sessions, in order of appearance. */
  function DdosSessions(rows: seq<Row>, ids: seq<nat>, n: nat): seq<nat>
    requires |ids| == |rows| && n <= |rows|
  {
    if n == 0 then []
    else
      var prev := DdosSessions(rows, ids, n - 1);
      if rows[n - 1].cls == Ddos && ids[n - 1] !in prev then prev + [ids[n - 1]] else prev
  }

  /** Sessions taken in the given order while they still fit. */
  function Greedy(rows: seq<Row>, ids: seq<nat>, order: seq<nat>, cap: nat): set<nat>
    requires |ids| == |rows|
  {
    if order == [] then {}
    else
      var ks, k := Greedy(rows, ids, order[..|order| - 1], cap), order[|order| - 1];
      if SizeOf(rows, ids, ks) + SizeOf(rows, ids, {k}) <= cap then ks + {k} else ks
  }

  predicate Stays(rows: seq<Row>, ids: seq<nat>, ks: set<nat>, i: nat)
    requires |ids| == |rows| && i < |rows|
  {
    rows[i].cls != Ddos || ids[i] in ks
  }

  /** The rows that stay, among the first n. */
  function Keeps(rows: seq<Row>, ids: seq<nat>, ks: set<nat>, n: nat): seq<Row>
    requires |ids| == |rows| && n <= |rows|
  {
    if n == 0 then []
    else
      var prev := Keeps(rows, ids, ks, n - 1);
      if Stays(rows, ids, ks, n - 1) then prev + [rows[n - 1]] else prev
  }

  datatype Trimmed = Trimmed(rows: seq<Row>, dropped: nat, cap: nat)

  ghost predicate IsShuffle(shuffle: seq<nat> -> seq<nat>) {
    forall xs: seq<nat> :: multiset(shuffle(xs)) == multiset(xs)
  }

  /** The sessions a trim keeps, on sorted rows. */
  function KeptSessions(rows: seq<Row>, shuffle: seq<nat> -> seq<nat>): set<nat> {
    var ids := SessionIds(rows);
    Greedy(rows, ids, shuffle(DdosSessions(rows, ids, |rows|)), CapOf(rows))
  }

  /** Trimming sorted rows that are over the cap. */
  function TrimSorted(rows: seq<Row>, shuffle: seq<nat> -> seq<nat>): Trimmed {
    var ids, ks := SessionIds(rows), KeptSessions(rows, shuffle);
    var kept, all := SizeOf(rows, ids, ks), CountOf(rows, Ddos);
    Trimmed(Keeps(rows, ids, ks, |rows|), if kept <= all then all - kept else 0, CapOf(rows))
  }

  /** The service's trim: rows within the cap are returned as given. */
  function TrimService(rows: seq<Row>, shuffle: seq<nat> -> seq<nat>): Trimmed {
    if CountOf(rows, Ddos) <= CapOf(rows) then Trimmed(rows, 0, CapOf(rows))
    else TrimSorted(SortByTime(rows), shuffle)
  }

  /** The script's trim: rows are sorted first. */
  function TrimScript(rows: seq<Row>, shuffle: seq<nat> -> seq<nat>): Trimmed {
    var sorted := SortByTime(rows);
    if CountOf(sorted, Ddos) <= CapOf(sorted) then Trimmed(sorted, 0, CapOf(sorted))
    else TrimSorted(sorted, shuffle)
  }

  method CountClasses(rows: seq<Row>) returns (normal: nat, flash: nat, ddos: nat)
    ensures normal == CountOf(rows, Normal) && flash == CountOf(rows, FlashCrowd) && ddos == CountOf(rows, Ddos)
  {
    normal, flash, ddos := 0, 0, 0;
    for i := 0 to |rows|
      invariant normal == CountOf(rows[..i], Normal) && flash == CountOf(rows[..i], FlashCrowd)
      invariant ddos == CountOf(rows[..i], Ddos)
    {
      assert rows[..i + 1][..i] == rows[..i];
      match rows[i].cls {
        case Normal => normal := normal + 1;
        case FlashCrowd => flash := flash + 1;
        case Ddos => ddos := ddos + 1;
        case Unlisted(_) =>
      }
    }
    assert rows[..|rows|] == rows;
  }

  /** The DDoS sessions and how many rows each has. */
  method CollectSessions(rows: seq<Row>, ids: seq<nat>) returns (order: seq<nat>, sizes: map<nat, nat>)
    requires |ids| == |rows|
    ensures order == DdosSessions(rows, ids, |rows|)
    ensures sizes.Keys == set k | k in order
    ensures forall k :: k in sizes ==> sizes[k] == SizeOf(rows, ids, {k})
  {
    order, sizes := [], map[];
    for i := 0 to |rows|
      invariant order == DdosSessions(rows, ids, i)
      invariant sizes.Keys == set k | k in order
      invariant forall k :: k in sizes ==> sizes[k] == RowsIn(rows, ids, {k}, i)
      invariant forall k :: k !in sizes ==> RowsIn(rows, ids, {k}, i) == 0
    {
      if rows[i].cls == Ddos {
        var k := ids[i];
        if k !in order {
          order := order + [k];
        }
        sizes := sizes[k := (if k in sizes then sizes[k] else 0) + 1];
      }
    }
  }

  /** Sessions taken in shuffled order while they fit, with a running total. */
  method TakeSessions(rows: seq<Row>, ids: seq<nat>, order: seq<nat>, sizes: map<nat, nat>, cap: nat)
    returns (kept: set<nat>, total: nat)
    requires |ids| == |rows| && NoRepeats(order)
    requires forall k :: k in order ==> k in sizes && sizes[k] == SizeOf(rows, ids, {k})
    ensures kept == Greedy(rows, ids, order, cap) && total == SizeOf(rows, ids, kept)
  {
    hide RowsIn;
    kept, total := {}, 0;
    NoneIn(rows, ids, |rows|);
    for i := 0 to |order|
      invariant kept == Greedy(rows, ids, order[..i], cap)
      invariant total == SizeOf(rows, ids, kept) && forall k :: k in kept ==> k in order[..i]
    {
      var k := order[i];
      assert order[..i + 1][..i] == order[..i];
      if total + sizes[k] <= cap {
        RowsInAdd(rows, ids, kept, k, |rows|);
        kept, total := kept + {k}, total + sizes[k];
      }
    }
    assert order[..|order|] == order;
  }

  /** What both implementations do once the rows are over the cap: choose sessions, then filter. */
  method TrimOverCap(sorted: seq<Row>, ids: seq<nat>, ddos: nat, cap: nat, shuffle: seq<nat> -> seq<nat>) returns (r: Trimmed)
    requires IsShuffle(shuffle) && ids == SessionIds(sorted) && ddos == CountOf(sorted, Ddos) && cap == CapOf(sorted)
    ensures r == TrimSorted(sorted, shuffle)
  {
    hide SessionIds, DdosSessions, CountOf, RowsIn, Stays, Greedy, IsShuffle;
    var found, sizes := CollectSessions(sorted, ids);
    var order := shuffle(found);
    ShuffledSessions(sorted, ids, shuffle);
    var kept, total := TakeSessions(sorted, ids, order, sizes, cap);
    var result := [];
    for i := 0 to |sorted|
      invariant result == Keeps(sorted, ids, kept, i)
    {
      if Stays(sorted, ids, kept, i) {
        result := result + [sorted[i]];
      }
    }
    RowsInBound(sorted, ids, kept, |sorted|);
    assert sorted[..|sorted|] == sorted;
    r := Trimmed(result, ddos - total, cap);
  }

  /** The service counts first and sorts only when it has to trim. */
  method TrimDdosSessions(rows: seq<Row>, shuffle: seq<nat> -> seq<nat>) returns (r: Trimmed)
    requires IsShuffle(shuffle)
    ensures r == TrimService(rows, shuffle)
  {
    hide SortByTime, SessionIds, CountOf, TrimSorted, IsShuffle;
    var normal, flash, ddos := CountClasses(rows);
    var cap := Min(normal, flash);
    if ddos <= cap {
      return Trimmed(rows, 0, cap);
    }
    var sorted, ids := AssignSessions(rows);
    SortCounts(rows);
    r := TrimOverCap(sorted, ids, ddos, cap, shuffle);
  }

  /** The script sorts first, then counts. */
  method TrimDdosSessionsInScript(rows: seq<Row>, shuffle: seq<nat> -> seq<nat>) returns (r: Trimmed)
    requires IsShuffle(shuffle)
    ensures r == TrimScript(rows, shuffle)
  {
    hide SortByTime, SessionIds, CountOf, TrimSorted, IsShuffle;
    var sorted, ids := AssignSessions(rows);
    var normal, flash, ddos := CountClasses(sorted);
    var cap := Min(normal, flash);
    if ddos <= cap {
      return Trimmed(sorted, 0, cap);
    }
    r := TrimOverCap(sorted, ids, ddos, cap, shuffle);
  }

  // ----- counting -----

  lemma {:induction false} InsertCount(s: seq<Row>, r: Row, c: Class)
    ensures CountOf(Insert(s, r), c) == CountOf(s, c) + if r.cls == c then 1 else 0
  {
    hide CountOf;
    CountStep(s, r, c);
    if s != [] && s[|s| - 1].ts > r.ts {
      var init, last := s[..|s| - 1], s[|s| - 1];
      InsertCount(init, r, c);
      CountStep(Insert(init, r), last, c);
      CountStep(init, last, c);
      assert s == init + [last];
    }
  }

  lemma {:induction false} SortCount(rows: seq<Row>, c: Class)
    ensures CountOf(SortByTime(rows), c) == CountOf(rows, c)
  {
    if rows != [] {
      SortCount(rows[..|rows| - 1], c);
      InsertCount(SortByTime(rows[..|rows| - 1]), rows[|rows| - 1], c);
    }
  }

  lemma SortCounts(rows: seq<Row>)
    ensures forall c :: CountOf(SortByTime(rows), c) == CountOf(rows, c)
    ensures CapOf(SortByTime(rows)) == CapOf(rows)
  {
    forall c {
      SortCount(rows, c);
    }
  }

  lemma {:induction false} NoneIn(rows: seq<Row>, ids: seq<nat>, n: nat)
    requires |ids| == |rows| && n <= |rows|
    ensures RowsIn(rows, ids, {}, n) == 0
  {
    if n > 0 {
      NoneIn(rows, ids, n - 1);
    }
  }

  lemma {:induction false} RowsInAdd(rows: seq<Row>, ids: seq<nat>, ks: set<nat>, k: nat, n: nat)
    requires |ids| == |rows| && n <= |rows| && k !in ks
    ensures RowsIn(rows, ids, ks + {k}, n) == RowsIn(rows, ids, ks, n) + RowsIn(rows, ids, {k}, n)
  {
    if n > 0 {
      RowsInAdd(rows, ids, ks, k, n - 1);
    }
  }

  lemma {:induction false} RowsInMonotone(rows: seq<Row>, ids: seq<nat>, ks: set<nat>, more: set<nat>, n: nat)
    requires |ids| == |rows| && n <= |rows| && ks <= more
    ensures RowsIn(rows, ids, ks, n) <= RowsIn(rows, ids, more, n)
  {
    if n > 0 {
      RowsInMonotone(rows, ids, ks, more, n - 1);
    }
  }

  lemma {:induction false} RowsInBound(rows: seq<Row>, ids: seq<nat>, ks: set<nat>, n: nat)
    requires |ids| == |rows| && n <= |rows|
    ensures RowsIn(rows, ids, ks, n) <= CountOf(rows[..n], Ddos)
  {
    if n > 0 {
      RowsInBound(rows, ids, ks, n - 1);
      assert rows[..n][..n - 1] == rows[..n - 1];
    }
  }

  lemma {:induction false} DistinctSessions(rows: seq<Row>, ids: seq<nat>, n: nat)
    requires |ids| == |rows| && n <= |rows|
    ensures forall k :: multiset(DdosSessions(rows, ids, n))[k] <= 1
    ensures forall i :: 0 <= i < n && rows[i].cls == Ddos ==> ids[i] in DdosSessions(rows, ids, n)
  {
    if n > 0 {
      DistinctSessions(rows, ids, n - 1);
    }
  }

  lemma ShuffledSessions(rows: seq<Row>, ids: seq<nat>, shuffle: seq<nat> -> seq<nat>)
    requires |ids| == |rows| && IsShuffle(shuffle)
    ensures var found := DdosSessions(rows, ids, |rows|);
            NoRepeats(shuffle(found)) && forall k :: k in shuffle(found) <==> k in found
  {
    hide DdosSessions;
    DistinctSessions(rows, ids, |rows|);
    var found := DdosSessions(rows, ids, |rows|);
    var order := shuffle(found);
    assert multiset(order) == multiset(found);
    forall k
      ensures k in order <==> k in found
    {
      assert k in order <==> k in multiset(order);
    }
    OnceEach(order);
  }

  lemma {:induction false} OnceEach<T>(xs: seq<T>)
    requires forall k :: k in xs ==> multiset(xs)[k] <= 1
    ensures NoRepeats(xs)
  {
    if xs != [] {
      var init, last := xs[..|xs| - 1], xs[|xs| - 1];
      assert xs == init + [last];
      forall k | k in init
        ensures multiset(init)[k] <= 1 && k != last
      {
        assert multiset(xs)[k] == multiset(init)[k] + multiset{last}[k];
        assert k in multiset(init);
      }
      OnceEach(init);
      forall i, j | 0 <= i < j < |xs|
        ensures xs[i] != xs[j]
      {
        assert init[i] in init;
        if j < |init| {
          assert init[i] != init[j];
        }
      }
    }
  }

  /** The greedy choice never exceeds the cap. */
  lemma {:induction false} GreedyFits(rows: seq<Row>, ids: seq<nat>, order: seq<nat>, cap: nat)
    requires |ids| == |rows|
    ensures SizeOf(rows, ids, Greedy(rows, ids, order, cap)) <= cap
  {
    if order == [] {
      NoneIn(rows, ids, |rows|);
    } else {
      var init, k := order[..|order| - 1], order[|order| - 1];
      GreedyFits(rows, ids, init, cap);
      var ks := Greedy(rows, ids, init, cap);
      if k in ks {
        assert ks + {k} == ks;
      } else {
        RowsInAdd(rows, ids, ks, k, |rows|);
      }
    }
  }

  /** A session passed over would still not fit at the end. */
  lemma {:induction false} GreedyMaximal(rows: seq<Row>, ids: seq<nat>, order: seq<nat>, cap: nat, k: nat)
    requires |ids| == |rows| && k in order && k !in Greedy(rows, ids, order, cap)
    ensures SizeOf(rows, ids, Greedy(rows, ids, order, cap)) + SizeOf(rows, ids, {k}) > cap
  {
    var init, last := order[..|order| - 1], order[|order| - 1];
    var ks := Greedy(rows, ids, init, cap);
    if k in init {
      GreedyMaximal(rows, ids, init, cap, k);
      RowsInMonotone(rows, ids, ks, Greedy(rows, ids, order, cap), |rows|);
    } else {
      assert order == init + [last];
    }
  }

  lemma {:induction false} KeepsCount(rows: seq<Row>, ids: seq<nat>, ks: set<nat>, n: nat, c: Class)
    requires |ids| == |rows| && n <= |rows|
    ensures CountOf(Keeps(rows, ids, ks, n), c) == if c == Ddos then RowsIn(rows, ids, ks, n) else CountOf(rows[..n], c)
  {
    hide CountOf;
    CountStep([], Row(0.0, c, ""), c);
    if n > 0 {
      KeepsCount(rows, ids, ks, n - 1, c);
      CountStep(Keeps(rows, ids, ks, n - 1), rows[n - 1], c);
      CountStep(rows[..n - 1], rows[n - 1], c);
      assert rows[..n] == rows[..n - 1] + [rows[n - 1]];
    }
  }

  function NotDdos(): Row -> bool {
    (r: Row) => r.cls != Ddos
  }

  /** Every row of another class survives, in order. */
  lemma {:induction false} OthersSurvive(rows: seq<Row>, ids: seq<nat>, ks: set<nat>, n: nat)
    requires |ids| == |rows| && n <= |rows|
    ensures Select(NotDdos(), Keeps(rows, ids, ks, n)) == Select(NotDdos(), rows[..n])
  {
    if n > 0 {
      OthersSurvive(rows, ids, ks, n - 1);
      var prev := Keeps(rows, ids, ks, n - 1);
      assert rows[..n][..n - 1] == rows[..n - 1];
      SelectStep(NotDdos(), prev, rows[n - 1]);
    }
  }

  lemma {:induction false} KeepsLength(rows: seq<Row>, ids: seq<nat>, ks: set<nat>, n: nat)
    requires |ids| == |rows| && n <= |rows|
    ensures |Keeps(rows, ids, ks, n)| + CountOf(rows[..n], Ddos) == n + RowsIn(rows, ids, ks, n)
  {
    if n > 0 {
      KeepsLength(rows, ids, ks, n - 1);
      assert rows[..n][..n - 1] == rows[..n - 1];
    }
  }

  // ----- what a trim guarantees -----

  /**
   After a trim: the DDoS count is at or below the cap, which the trim does not change; kept plus
   dropped is what there was; every other row survives in time order; no removed session would fit.
   */
  lemma TrimGuarantees(rows: seq<Row>, shuffle: seq<nat> -> seq<nat>)
    requires IsShuffle(shuffle)
    ensures var t := TrimService(rows, shuffle);
            && CountOf(t.rows, Ddos) <= t.cap == CapOf(rows) == CapOf(t.rows)
            && |t.rows| + t.dropped == |rows|
            && CountOf(t.rows, Ddos) + t.dropped == CountOf(rows, Ddos)
            && CountOf(t.rows, Ddos) <= CountOf(t.rows, Normal) && CountOf(t.rows, Ddos) <= CountOf(t.rows, FlashCrowd)
    ensures CountOf(rows, Ddos) > CapOf(rows) ==>
              Select(NotDdos(), TrimService(rows, shuffle).rows) == Select(NotDdos(), SortByTime(rows))
  {
    hide SessionIds, KeptSessions, CountOf, Keeps, SortByTime, Select;
    if CountOf(rows, Ddos) > CapOf(rows) {
      SortCounts(rows);
      SortCorrect(rows);
      var s := SortByTime(rows);
      assert |multiset(s)| == |multiset(rows)|;
      var ids, ks := SessionIds(s), KeptSessions(s, shuffle);
      assert s[..|s|] == s;
      KeptFits(s, shuffle);
      KeepsCount(s, ids, ks, |s|, Ddos);
      KeepsCount(s, ids, ks, |s|, Normal);
      KeepsCount(s, ids, ks, |s|, FlashCrowd);
      KeepsLength(s, ids, ks, |s|);
      RowsInBound(s, ids, ks, |s|);
      OthersSurvive(s, ids, ks, |s|);
    }
  }

  lemma KeptFits(rows: seq<Row>, shuffle: seq<nat> -> seq<nat>)
    ensures SizeOf(rows, SessionIds(rows), KeptSessions(rows, shuffle)) <= CapOf(rows)
  {
    var ids := SessionIds(rows);
    GreedyFits(rows, ids, shuffle(DdosSessions(rows, ids, |rows|)), CapOf(rows));
  }

  /** A session stays whole or goes whole, whatever sessions are kept. */
  lemma SessionsWhole(rows: seq<Row>, ks: set<nat>, i: nat, j: nat)
    requires i < |rows| && j < |rows| && SessionIds(rows)[i] == SessionIds(rows)[j]
    ensures Stays(rows, SessionIds(rows), ks, i) <==> Stays(rows, SessionIds(rows), ks, j)
  {
    hide SessionIds;
    SessionHasOneClass(rows, i, j);
  }

  /** No removed session would still fit under the cap. */
  lemma NothingMoreFits(rows: seq<Row>, shuffle: seq<nat> -> seq<nat>, i: nat)
    requires IsShuffle(shuffle) && i < |rows| && rows[i].cls == Ddos
    requires SessionIds(rows)[i] !in KeptSessions(rows, shuffle)
    ensures SizeOf(rows, SessionIds(rows), KeptSessions(rows, shuffle))
            + SizeOf(rows, SessionIds(rows), {SessionIds(rows)[i]}) > CapOf(rows)
  {
    var ids := SessionIds(rows);
    DistinctSessions(rows, ids, |rows|);
    ShuffledSessions(rows, ids, shuffle);
    GreedyMaximal(rows, ids, shuffle(DdosSessions(rows, ids, |rows|)), CapOf(rows), ids[i]);
  }

  /** A second trim drops nothing. */
  lemma TrimIdempotent(rows: seq<Row>, shuffle: seq<nat> -> seq<nat>, again: seq<nat> -> seq<nat>)
    requires IsShuffle(shuffle)
    ensures var t := TrimService(rows, shuffle);
            TrimService(t.rows, again) == Trimmed(t.rows, 0, t.cap)
  {
    hide CountOf, TrimSorted, SortByTime, Select;
    TrimGuarantees(rows, shuffle);
  }

  /** The two implementations agree exactly when the trim removes something or the rows came sorted. */
  lemma ImplementationsAgree(rows: seq<Row>, shuffle: seq<nat> -> seq<nat>)
    ensures TrimService(rows, shuffle) == TrimScript(rows, shuffle) <==>
              CountOf(rows, Ddos) > CapOf(rows) || Sorted(rows)
  {
    hide CountOf, SortByTime, TrimSorted, Select;
    SortCounts(rows);
    SortCorrect(rows);
    if Sorted(rows) {
      SortSorted(rows);
    }
  }

  // ----- detecting sessions again -----

  /** Where each row that stays came from. */
  function Positions(rows: seq<Row>, ids: seq<nat>, ks: set<nat>, n: nat): seq<nat>
    requires |ids| == |rows| && n <= |rows|
  {
    if n == 0 then []
    else
      var prev := Positions(rows, ids, ks, n - 1);
      if Stays(rows, ids, ks, n - 1) then prev + [n - 1] else prev
  }

  lemma {:induction false} PositionsSpec(rows: seq<Row>, ids: seq<nat>, ks: set<nat>, n: nat)
    requires |ids| == |rows| && n <= |rows|
    ensures var ps, out := Positions(rows, ids, ks, n), Keeps(rows, ids, ks, n);
            && |out| == |ps|
            && (forall j :: 0 <= j < |ps| ==> ps[j] < n && Stays(rows, ids, ks, ps[j]) && out[j] == rows[ps[j]])
            && (forall j, k :: 0 <= j < k < |ps| ==> ps[j] < ps[k])
            && (forall i :: 0 <= i < n && Stays(rows, ids, ks, i) ==> i in ps)
  {
    if n > 0 {
      PositionsSpec(rows, ids, ks, n - 1);
    }
  }

  /** Nothing that stays lies between neighbours. */
  lemma NothingBetween(rows: seq<Row>, ids: seq<nat>, ks: set<nat>, j: nat, i: nat)
    requires |ids| == |rows|
    requires var ps := Positions(rows, ids, ks, |rows|);
             j + 1 < |ps| && ps[j] < i < ps[j + 1]
    requires i < |rows|
    ensures !Stays(rows, ids, ks, i)
  {
    hide Positions, Stays, Keeps;
    PositionsSpec(rows, ids, ks, |rows|);
    var ps := Positions(rows, ids, ks, |rows|);
    if Stays(rows, ids, ks, i) {
      var k :| 0 <= k < |ps| && ps[k] == i;
      assert false;
    }
  }

  /** Two sessions of one class other than DDoS, with only removed rows between and a short gap. */
  predicate Bridged(rows: seq<Row>, a: nat, b: nat)
    requires a < b < |rows|
  {
    a + 1 < b && rows[a].cls == rows[b].cls && rows[a].cls != Ddos && rows[b].ts - rows[a].ts <= SESSION_GAP
  }

  /**
   Neighbours after a trim are split by a new session detection exactly when they were in different
   sessions before, except for bridged ones.
   */
  lemma NeighboursBreak(rows: seq<Row>, ks: set<nat>, a: nat, b: nat)
    requires Sorted(rows) && a < b < |rows|
    requires var ids := SessionIds(rows);
             && Stays(rows, ids, ks, a) && Stays(rows, ids, ks, b)
             && forall i :: a < i < b ==> !Stays(rows, ids, ks, i)
    ensures Breaks(rows[a], rows[b]) <==> SessionIds(rows)[a] != SessionIds(rows)[b] && !Bridged(rows, a, b)
  {
    hide SessionIds, Sorted, Stays;
    var ids := SessionIds(rows);
    SameSession(rows, a, b);
    if ids[a] == ids[b] {
      SameMeansAdjacent(rows, ks, a, b);
      assert !Breaks(rows[a], rows[a + 1]);
    } else {
      var m :| a <= m < b && Breaks(rows[m], rows[m + 1]);
      if rows[a].cls == rows[b].cls == Ddos {
        DdosBetween(rows, ids, ks, a, b, m);
      }
    }
  }

  lemma SameMeansAdjacent(rows: seq<Row>, ks: set<nat>, a: nat, b: nat)
    requires a < b < |rows| && SessionIds(rows)[a] == SessionIds(rows)[b]
    requires var ids := SessionIds(rows);
             Stays(rows, ids, ks, a) && forall i :: a < i < b ==> !Stays(rows, ids, ks, i)
    ensures b == a + 1
  {
    hide SessionIds;
    if a + 1 < b {
      assert !Stays(rows, SessionIds(rows), ks, a + 1);
      IdsMonotone(rows, a, a + 1);
      IdsMonotone(rows, a + 1, b);
      SessionHasOneClass(rows, a, a + 1);
    }
  }

  lemma DdosBetween(rows: seq<Row>, ids: seq<nat>, ks: set<nat>, a: nat, b: nat, m: nat)
    requires Sorted(rows) && |ids| == |rows| && a <= m < b < |rows| && rows[a].cls == rows[b].cls == Ddos
    requires forall i :: a < i < b ==> !Stays(rows, ids, ks, i)
    requires Breaks(rows[m], rows[m + 1])
    ensures Breaks(rows[a], rows[b])
  {
    assert m == a || !Stays(rows, ids, ks, m);
    assert m + 1 == b || !Stays(rows, ids, ks, m + 1);
    assert rows[a].ts <= rows[m].ts && rows[m + 1].ts <= rows[b].ts;
  }

  /** The same neighbours, by their place in the output. */
  lemma OutputBreak(rows: seq<Row>, ks: set<nat>, j: nat)
    requires Sorted(rows)
    requires j + 1 < |Keeps(rows, SessionIds(rows), ks, |rows|)|
    ensures var ids := SessionIds(rows);
            var ps, out := Positions(rows, ids, ks, |rows|), Keeps(rows, ids, ks, |rows|);
            && |ps| == |out| && ps[j] < ps[j + 1] < |rows|
            && (Breaks(out[j], out[j + 1]) <==> ids[ps[j]] != ids[ps[j + 1]] && !Bridged(rows, ps[j], ps[j + 1]))
            && out[j] == rows[ps[j]] && out[j + 1] == rows[ps[j + 1]]
  {
    hide SessionIds, Keeps, Positions, Stays, Bridged, Breaks;
    var ids := SessionIds(rows);
    PositionsSpec(rows, ids, ks, |rows|);
    var ps := Positions(rows, ids, ks, |rows|);
    forall i | ps[j] < i < ps[j + 1]
      ensures !Stays(rows, ids, ks, i)
    {
      NothingBetween(rows, ids, ks, j, i);
    }
    NeighboursBreak(rows, ks, ps[j], ps[j + 1]);
  }

  /** No kept session is split: rows of one session are in one session of the output. */
  lemma SessionsNeverSplit(rows: seq<Row>, ks: set<nat>, j: nat, k: nat)
    requires Sorted(rows) && j <= k < |Positions(rows, SessionIds(rows), ks, |rows|)|
    requires var ids := SessionIds(rows);
             var ps := Positions(rows, ids, ks, |rows|);
             ps[j] < |rows| && ps[k] < |rows| && ids[ps[j]] == ids[ps[k]]
    ensures var out := Keeps(rows, SessionIds(rows), ks, |rows|);
            k < |out| && SessionIds(out)[j] == SessionIds(out)[k]
  {
    hide SessionIds, Keeps, Positions, Stays, Bridged, Breaks;
    var ids := SessionIds(rows);
    PositionsSpec(rows, ids, ks, |rows|);
    var ps, out := Positions(rows, ids, ks, |rows|), Keeps(rows, ids, ks, |rows|);
    forall m | j <= m < k
      ensures !Breaks(out[m], out[m + 1])
    {
      OutputBreak(rows, ks, m);
      IdsMonotone(rows, ps[j], ps[m]);
      IdsMonotone(rows, ps[m], ps[m + 1]);
      IdsMonotone(rows, ps[m + 1], ps[k]);
    }
    SameSession(out, j, k);
  }

  /** No two DDoS sessions are merged. */
  lemma {:induction false} DdosSessionsNeverMerge(rows: seq<Row>, ks: set<nat>, j: nat, k: nat)
    requires Sorted(rows) && j <= k < |Keeps(rows, SessionIds(rows), ks, |rows|)|
    requires var out := Keeps(rows, SessionIds(rows), ks, |rows|);
             out[j].cls == Ddos && SessionIds(out)[j] == SessionIds(out)[k]
    ensures var ids := SessionIds(rows);
            var ps := Positions(rows, ids, ks, |rows|);
            k < |ps| && ps[j] < |rows| && ps[k] < |rows| && ids[ps[j]] == ids[ps[k]]
    decreases k
  {
    hide SessionIds, Keeps, Positions, Stays, Breaks;
    var ids := SessionIds(rows);
    PositionsSpec(rows, ids, ks, |rows|);
    var out := Keeps(rows, ids, ks, |rows|);
    if j < k {
      IdsMonotone(out, j, k - 1);
      IdsMonotone(out, k - 1, k);
      DdosSessionsNeverMerge(rows, ks, j, k - 1);
      SessionHasOneClass(out, j, k - 1);
      SameSession(out, k - 1, k);
      OutputBreak(rows, ks, k - 1);
      assert !Breaks(out[k - 1], out[k - 1 + 1]);
    }
  }

  /** Sessions of another class can merge: the DDoS session that kept two Normal ones apart is gone. */
  lemma NormalSessionsCanMerge(shuffle: seq<nat> -> seq<nat>)
    ensures var a, b, c := Row(0.0, Normal, ""), Row(1.0, Ddos, ""), Row(2.0, Normal, "");
            && TrimService([a, b, c], shuffle).rows == [a, c]
            && SessionIds([a, b, c]) == [1, 2, 3] && SessionIds([a, c]) == [1, 1]
  {
    hide CountOf, TrimSorted, SortByTime;
    var a, b, c := Row(0.0, Normal, ""), Row(1.0, Ddos, ""), Row(2.0, Normal, "");
    var rows := [a, b, c];
    assert rows[..2] == [a, b] && [a, b][..1] == [a] && [a][..0] == [] && [a, c][..1] == [a];
    assert SessionIds([a]) == [1] && SessionIds([a, b]) == [1, 2];
    CountStep([], a, Ddos);
    CountStep([a], b, Ddos);
    CountStep([a, b], c, Ddos);
    CountStep([], a, FlashCrowd);
    CountStep([a], b, FlashCrowd);
    CountStep([a, b], c, FlashCrowd);
    assert [a] + [b] == [a, b] && [a, b] + [c] == rows && [] + [a] == [a];
    SortSorted(rows);
    MergeExample(rows, shuffle);
  }

  lemma CountStep(rows: seq<Row>, r: Row, c: Class)
    ensures CountOf([], c) == 0 && CountOf(rows + [r], c) == CountOf(rows, c) + if r.cls == c then 1 else 0
  {
  }

  lemma MergeExample(rows: seq<Row>, shuffle: seq<nat> -> seq<nat>)
    requires |rows| == 3 && rows[0].cls == Normal && rows[1].cls == Ddos && rows[2].cls == Normal
    requires SessionIds(rows) == [1, 2, 3] && CapOf(rows) == 0
    ensures TrimSorted(rows, shuffle).rows == [rows[0], rows[2]]
  {
    hide CountOf, Greedy, DdosSessions, SessionIds;
    KeptFits(rows, shuffle);
    var ids, ks := SessionIds(rows), KeptSessions(rows, shuffle);
    assert RowsIn(rows, ids, ks, 3) == RowsIn(rows, ids, ks, 2);
    assert RowsIn(rows, ids, ks, 2) == RowsIn(rows, ids, ks, 1) + if ids[1] in ks then 1 else 0;
    assert Keeps(rows, ids, ks, 1) == [rows[0]];
    assert Keeps(rows, ids, ks, 2) == [rows[0]];
  }
}
