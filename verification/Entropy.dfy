/**
 Normalized Shannon entropy of a histogram, and the accumulator that fills one.

 The logarithm is a parameter.  `IsLog` lists the laws used: the product law and the
 tangent at 1, strict away from 1.  The base 2 logarithm satisfies them with slope 1 / ln 2.
 */
module Entropy {
  import opened Arith

  ghost predicate IsLog(log: real -> real, slope: real) {
    && 0.0 < slope
    && (forall x, y :: 0.0 < x && 0.0 < y ==> log(x * y) == log(x) + log(y))
    && (forall x :: 0.0 < x ==> log(x) <= slope * (x - 1.0))
    && (forall x :: 0.0 < x && x != 1.0 ==> log(x) < slope * (x - 1.0))
  }

  // ----- laws of the logarithm -----

  lemma LogProduct(log: real -> real, slope: real, x: real, y: real, z: real)
    requires IsLog(log, slope) && 0.0 < x && 0.0 < y && z == x * y
    ensures log(z) == log(x) + log(y)
  {
  }

  lemma LogOne(log: real -> real, slope: real)
    requires IsLog(log, slope)
    ensures log(1.0) == 0.0
  {
  }

  lemma LogInverse(log: real -> real, slope: real, x: real, y: real)
    requires IsLog(log, slope) && 0.0 < x && 0.0 < y && x * y == 1.0
    ensures log(y) == -log(x)
  {
    LogProduct(log, slope, x, y, 1.0);
    LogOne(log, slope);
  }

  lemma Tangent(log: real -> real, slope: real, x: real, y: real)
    requires IsLog(log, slope) && 0.0 < x && y == x - 1.0
    ensures log(x) <= slope * y
    ensures x != 1.0 ==> log(x) < slope * y
  {
  }

  /** Below 1 the logarithm is negative. */
  lemma LogBelowOne(log: real -> real, slope: real, x: real)
    requires IsLog(log, slope) && 0.0 < x <= 1.0
    ensures log(x) <= 0.0
    ensures x < 1.0 ==> log(x) < 0.0
  {
  }

  lemma LogMonotone(log: real -> real, slope: real, x: real, y: real)
    requires IsLog(log, slope) && 0.0 < x <= y
    ensures log(x) <= log(y)
  {
    hide IsLog;
    var q := x / y;
    DivMul(x, y);
    assert 0.0 < q <= 1.0 by {
      RatioInUnit(x, y);
    }
    LogProduct(log, slope, q, y, x);
    LogBelowOne(log, slope, q);
  }

  lemma RatioInUnit(x: real, y: real)
    requires 0.0 < x <= y
    ensures 0.0 < x / y <= 1.0
    ensures x < y ==> x / y < 1.0
  {
  }

  /** Above 1 the logarithm is positive. */
  lemma LogAboveOne(log: real -> real, slope: real, x: real)
    requires IsLog(log, slope) && 1.0 < x
    ensures 0.0 < log(x)
  {
    hide IsLog;
    var q := 1.0 / x;
    RatioInUnit(1.0, x);
    DivMul(1.0, x);
    LogInverse(log, slope, x, q);
    LogBelowOne(log, slope, q);
  }

  // ----- sums over a histogram -----

  /** Sum of f over the values of the given keys; their order does not matter (`SumAny`). */
  ghost function SumOver<K>(f: nat -> real, m: map<K, nat>, ks: set<K>): real
    requires ks <= m.Keys
    decreases |ks|
  {
    if ks == {} then 0.0
    else
      var k :| k in ks;
      f(m[k]) + SumOver(f, m, ks - {k})
  }

  ghost function SumTerms<K>(f: nat -> real, m: map<K, nat>): real {
    SumOver(f, m, m.Keys)
  }

  lemma {:induction false} SumAny<K>(f: nat -> real, m: map<K, nat>, ks: set<K>, k: K)
    requires ks <= m.Keys && k in ks
    ensures SumOver(f, m, ks) == f(m[k]) + SumOver(f, m, ks - {k})
    decreases |ks|
  {
    var j :| j in ks && SumOver(f, m, ks) == f(m[j]) + SumOver(f, m, ks - {j});
    if j != k {
      SumAny(f, m, ks - {j}, k);
      SumAny(f, m, ks - {k}, j);
      assert ks - {j} - {k} == ks - {k} - {j};
    }
  }

  /** Term by term the same sum, over the same keys of two histograms. */
  lemma {:induction false} SumSame<K>(g: nat -> real, m: map<K, nat>, h: nat -> real, m': map<K, nat>, ks: set<K>)
    requires ks <= m.Keys && ks <= m'.Keys
    requires forall k :: k in ks ==> g(m[k]) == h(m'[k])
    ensures SumOver(g, m, ks) == SumOver(h, m', ks)
    decreases |ks|
  {
    if ks != {} {
      var k :| k in ks;
      SumAny(g, m, ks, k);
      SumAny(h, m', ks, k);
      SumSame(g, m, h, m', ks - {k});
    }
  }

  lemma {:induction false} SumMono<K>(f: nat -> real, g: nat -> real, m: map<K, nat>, ks: set<K>)
    requires ks <= m.Keys && forall k :: k in ks ==> f(m[k]) <= g(m[k])
    ensures SumOver(f, m, ks) <= SumOver(g, m, ks)
    decreases |ks|
  {
    if ks != {} {
      var k :| k in ks;
      SumAny(f, m, ks, k);
      SumAny(g, m, ks, k);
      SumMono(f, g, m, ks - {k});
    }
  }

  lemma SumStrict<K>(f: nat -> real, g: nat -> real, m: map<K, nat>, k: K)
    requires k in m && f(m[k]) < g(m[k])
    requires forall j :: j in m ==> f(m[j]) <= g(m[j])
    ensures SumTerms(f, m) < SumTerms(g, m)
  {
    SumAny(f, m, m.Keys, k);
    SumAny(g, m, m.Keys, k);
    SumMono(f, g, m, m.Keys - {k});
  }

  function Count(): nat -> real {
    c => c as real
  }

  /** The packets a histogram accounts for. */
  ghost function Total<K>(m: map<K, nat>): real {
    SumTerms(Count(), m)
  }

  function Affine(a: real, b: real): nat -> real {
    c => a * c as real + b
  }

  ghost function Line(a: real, total: real, b: real, keys: nat): real {
    a * total + b * keys as real
  }

  lemma {:induction false} SumAffine<K>(a: real, b: real, m: map<K, nat>, ks: set<K>)
    requires ks <= m.Keys
    ensures SumOver(Affine(a, b), m, ks) == Line(a, SumOver(Count(), m, ks), b, |ks|)
    decreases |ks|
  {
    hide Affine, Line;
    if ks == {} {
      LineStep(a, 0.0, b, 0, 0);
    } else {
      var k :| k in ks;
      SumAny(Affine(a, b), m, ks, k);
      SumAny(Count(), m, ks, k);
      SumAffine(a, b, m, ks - {k});
      LineStep(a, SumOver(Count(), m, ks - {k}), b, |ks| - 1, m[k]);
    }
  }

  lemma LineStep(a: real, total: real, b: real, keys: nat, c: nat)
    ensures Line(a, 0.0, b, 0) == 0.0
    ensures Line(a, total + c as real, b, keys + 1) == Line(a, total, b, keys) + Affine(a, b)(c)
  {
  }

  // ----- the entropy -----

  /** One term of the Shannon sum for a key seen c times in n packets. */
  function Term(log: real -> real, n: nat): nat -> real
    requires n >= 1
  {
    c => if c > 0 then -(c as real / n as real) * log(c as real / n as real) else 0.0
  }

  /** Normalized entropy; 0 for an empty window and for at most one key. */
  ghost function NormalizedEntropy<K>(log: real -> real, slope: real, counts: map<K, nat>, total: nat): real
    requires IsLog(log, slope)
  {
    if total == 0 || |counts| <= 1 then 0.0
    else
      LogAboveOne(log, slope, |counts| as real);
      SumTerms(Term(log, total), counts) / log(|counts| as real)
  }

  /** The fold over the map, in whatever order the map yields its keys. */
  method RawEntropy<K(==)>(log: real -> real, counts: map<K, nat>, total: nat) returns (raw: real)
    requires total >= 1
    ensures raw == SumTerms(Term(log, total), counts)
  {
    hide Term;
    raw := 0.0;
    var rest := counts.Keys;
    assert counts.Keys - rest == {};
    while rest != {}
      invariant rest <= counts.Keys
      invariant raw == SumOver(Term(log, total), counts, counts.Keys - rest)
      decreases |rest|
    {
      var k :| k in rest;
      ghost var done := counts.Keys - rest;
      SumAny(Term(log, total), counts, done + {k}, k);
      assert done + {k} - {k} == done;
      raw := raw + Term(log, total)(counts[k]);
      rest := rest - {k};
      assert counts.Keys - rest == done + {k};
    }
    assert counts.Keys - rest == counts.Keys;
  }

  method ComputeNormalizedEntropy<K(==)>(log: real -> real, ghost slope: real, counts: map<K, nat>, total: nat) returns (h: real)
    requires IsLog(log, slope)
    ensures h == NormalizedEntropy(log, slope, counts, total)
  {
    hide IsLog, Term, SumTerms;
    if total == 0 {
      return 0.0;
    }
    var unique := |counts|;
    if unique <= 1 {
      return 0.0;
    }
    var raw := RawEntropy(log, counts, total);
    LogAboveOne(log, slope, unique as real);
    h := raw / log(unique as real);
  }

  /** A histogram as the accumulator keeps it: no empty bucket, and `total` packets in all. */
  ghost predicate Histogram<K>(counts: map<K, nat>, total: nat) {
    && Total(counts) == total as real
    && forall k :: k in counts ==> counts[k] >= 1
  }

  lemma {:induction false} TotalAtLeast<K>(counts: map<K, nat>, ks: set<K>)
    requires ks <= counts.Keys && forall k :: k in ks ==> counts[k] >= 1
    ensures SumOver(Count(), counts, ks) >= |ks| as real
    decreases |ks|
  {
    if ks != {} {
      var k :| k in ks;
      SumAny(Count(), counts, ks, k);
      TotalAtLeast(counts, ks - {k});
    }
  }

  /** With two keys or more, no key holds everything. */
  lemma PartBelowTotal<K>(counts: map<K, nat>, total: nat, k: K)
    requires Histogram(counts, total) && |counts| >= 2 && k in counts
    ensures 1 <= counts[k] < total
  {
    SumAny(Count(), counts, counts.Keys, k);
    TotalAtLeast(counts, counts.Keys - {k});
    assert |counts.Keys - {k}| >= 1;
  }

  /** A key whose share is at most p carries at least log(1 / p) per packet. */
  lemma TermAtLeast(log: real -> real, slope: real, n: nat, c: nat, p: real)
    requires IsLog(log, slope) && 1 <= c <= n && 0.0 < p && c as real / n as real <= p
    ensures Term(log, n)(c) >= Affine(-log(p) / n as real, 0.0)(c)
  {
    hide IsLog;
    var x, y := c as real, n as real;
    var q := x / y;
    RatioInUnit(x, y);
    LogMonotone(log, slope, q, p);
    var a, b := -log(q), -log(p);
    MulMono(q, b, a);
    assert b / y * x == q * b;
  }

  /**
   Low entropy means concentration: if no key holds more than the share p, the raw entropy is
   at least log(1 / p).
   */
  lemma SpreadMeansEntropy<K>(log: real -> real, slope: real, counts: map<K, nat>, total: nat, p: real)
    requires IsLog(log, slope) && Histogram(counts, total) && total >= 1 && 0.0 < p
    requires forall k :: k in counts ==> counts[k] <= total && counts[k] as real / total as real <= p
    ensures SumTerms(Term(log, total), counts) >= -log(p)
  {
    hide IsLog, Term, Affine;
    var a := -log(p) / total as real;
    forall k | k in counts
      ensures Affine(a, 0.0)(counts[k]) <= Term(log, total)(counts[k])
    {
      TermAtLeast(log, slope, total, counts[k], p);
    }
    SumMono(Affine(a, 0.0), Term(log, total), counts, counts.Keys);
    SumAffine(a, 0.0, counts, counts.Keys);
    LineAt(a, -log(p), total, |counts|);
  }

  lemma LineAt(a: real, l: real, total: nat, keys: nat)
    requires total >= 1 && a == l / total as real
    ensures Line(a, total as real, 0.0, keys) == l
  {
  }

  /** The line that bounds every term from above: it touches at c == n / u, where the bound is tight. */
  ghost function Chord(log: real -> real, slope: real, n: nat, u: nat): nat -> real
    requires n >= 1 && u >= 1
  {
    Affine((log(u as real) - slope) / n as real, slope / u as real)
  }

  /** Gibbs: a term is at most its chord, and strictly below it unless the key has exactly its fair share. */
  lemma TermAtMost(log: real -> real, slope: real, n: nat, c: nat, u: nat)
    requires IsLog(log, slope) && 1 <= c <= n && 1 <= u
    ensures Term(log, n)(c) <= Chord(log, slope, n, u)(c)
    ensures c * u != n ==> Term(log, n)(c) < Chord(log, slope, n, u)(c)
  {
    hide IsLog, Term, Chord;
    var x, y, z := c as real, n as real, u as real;
    var p := x / y;
    var v, w := Deficit(n, c, u);
    ShareLog(log, slope, p, z, v);
    Tangent(log, slope, v, w);
    TermValue(log, n, c, p);
    ChordAt(log, slope, n, u, c);
    TermBound(p, log(v), slope, w, log(z), -log(p), c * u != n);
    ChordValue(log(z), slope, x, y, z, p, v, w);
  }

  lemma TermValue(log: real -> real, n: nat, c: nat, p: real)
    requires 1 <= n && 1 <= c && p == c as real / n as real
    ensures Term(log, n)(c) == p * -log(p)
  {
  }

  lemma ChordAt(log: real -> real, slope: real, n: nat, u: nat, c: nat)
    requires 1 <= n && 1 <= u
    ensures Chord(log, slope, n, u)(c) == (log(u as real) - slope) / n as real * c as real + slope / u as real
  {
  }

  /** How far a key with c of n packets falls short of a fair share among u keys, as a ratio. */
  lemma Deficit(n: nat, c: nat, u: nat) returns (v: real, w: real)
    requires 1 <= c <= n && 1 <= u
    ensures var p := c as real / n as real;
            0.0 < p <= 1.0 && 0.0 < v && v * p * u as real == 1.0
    ensures c * u != n ==> v != 1.0
    ensures w == v - 1.0
  {
    var x, y, z := c as real, n as real, u as real;
    var p, q := x / y, x * z;
    DivMul(x, y);
    RatioInUnit(x, y);
    assert q > 0.0;
    v := y / q;
    w := v - 1.0;
    DivMul(y, q);
    assert v > 0.0;
    FairShare(v, x, y, z, p);
    CastMul(c, u);
  }

  lemma ShareLog(log: real -> real, slope: real, p: real, z: real, v: real)
    requires IsLog(log, slope) && 0.0 < p && 0.0 < z && 0.0 < v && v * p * z == 1.0
    ensures -log(p) == log(v) + log(z)
  {
    hide IsLog;
    var s := p * z;
    assert s > 0.0;
    assert v * s == 1.0;
    LogInverse(log, slope, v, s);
    LogProduct(log, slope, p, z, s);
  }

  lemma FairShare(v: real, x: real, y: real, z: real, p: real)
    requires v * (x * z) == y && p * y == x && y > 0.0
    ensures v * p * z == 1.0
  {
  }

  lemma TermBound(p: real, lv: real, slope: real, w: real, lz: real, t: real, strict: bool)
    requires 0.0 < p && lv <= slope * w && t == lv + lz
    requires strict ==> lv < slope * w
    ensures p * t <= p * (slope * w) + p * lz
    ensures strict ==> p * t < p * (slope * w) + p * lz
  {
  }

  lemma ChordValue(lz: real, slope: real, x: real, y: real, z: real, p: real, v: real, w: real)
    requires y > 0.0 && z > 0.0 && p == x / y && v * p * z == 1.0 && w == v - 1.0
    ensures p * (slope * w) + p * lz == (lz - slope) / y * x + slope / z
  {
  }

  /** Raw entropy never exceeds log of the number of keys, and reaches it only on equal counts. */
  lemma EntropyAtMost<K>(log: real -> real, slope: real, counts: map<K, nat>, total: nat)
    requires IsLog(log, slope) && Histogram(counts, total) && |counts| >= 2
    ensures total >= 1
    ensures SumTerms(Term(log, total), counts) <= log(|counts| as real)
    ensures (exists k :: k in counts && counts[k] * |counts| != total) ==>
              SumTerms(Term(log, total), counts) < log(|counts| as real)
  {
    hide IsLog, Term, Chord;
    var u := |counts|;
    var k0 :| k0 in counts;
    PartBelowTotal(counts, total, k0);
    var f, g := Term(log, total), Chord(log, slope, total, u);
    forall k | k in counts
      ensures f(counts[k]) <= g(counts[k])
      ensures counts[k] * u != total ==> f(counts[k]) < g(counts[k])
    {
      PartBelowTotal(counts, total, k);
      TermAtMost(log, slope, total, counts[k], u);
    }
    SumMono(f, g, counts, counts.Keys);
    if k :| k in counts && counts[k] * u != total {
      SumStrict(f, g, counts, k);
    }
    ChordSum(log, slope, counts, total);
  }

  lemma ChordSum<K>(log: real -> real, slope: real, counts: map<K, nat>, total: nat)
    requires Total(counts) == total as real && total >= 1 && |counts| >= 1
    ensures SumTerms(Chord(log, slope, total, |counts|), counts) == log(|counts| as real)
  {
    hide Affine;
    var l, n, u := log(|counts| as real), total as real, |counts| as real;
    var a, b := (l - slope) / n, slope / u;
    SumAffine(a, b, counts, counts.Keys);
    DivMul(l - slope, n);
    DivMul(slope, u);
  }

  lemma EntropyPositive<K>(log: real -> real, slope: real, counts: map<K, nat>, total: nat)
    requires IsLog(log, slope) && Histogram(counts, total) && |counts| >= 2
    ensures total >= 1 && SumTerms(Term(log, total), counts) > 0.0
  {
    hide IsLog, Term, Affine;
    var k :| k in counts;
    PartBelowTotal(counts, total, k);
    var zero := Affine(0.0, 0.0);
    forall j | j in counts
      ensures zero(counts[j]) < Term(log, total)(counts[j])
    {
      PartBelowTotal(counts, total, j);
      TermPositive(log, slope, total, counts[j]);
    }
    SumStrict(zero, Term(log, total), counts, k);
    SumAffine(0.0, 0.0, counts, counts.Keys);
    assert Line(0.0, Total(counts), 0.0, |counts|) == 0.0;
  }

  lemma TermPositive(log: real -> real, slope: real, n: nat, c: nat)
    requires IsLog(log, slope) && 1 <= c < n
    ensures Affine(0.0, 0.0)(c) < Term(log, n)(c)
  {
  }

  /** The normalized entropy of any window lies in [0, 1]; 0 means one source, 1 means an even spread, and nothing else does. */
  lemma EntropyInUnit<K>(log: real -> real, slope: real, counts: map<K, nat>, total: nat)
    requires IsLog(log, slope) && Histogram(counts, total)
    ensures 0.0 <= NormalizedEntropy(log, slope, counts, total) <= 1.0
    ensures NormalizedEntropy(log, slope, counts, total) == 0.0 <==> |counts| <= 1
    ensures NormalizedEntropy(log, slope, counts, total) == 1.0 <==>
              |counts| >= 2 && forall j, k :: j in counts && k in counts ==> counts[j] == counts[k]
  {
    hide IsLog, Term, SumTerms;
    if |counts| >= 2 {
      LogAboveOne(log, slope, |counts| as real);
      EntropyAtMost(log, slope, counts, total);
      EntropyPositive(log, slope, counts, total);
      var l, raw := log(|counts| as real), SumTerms(Term(log, total), counts);
      RatioInUnit(raw, l);
      if forall j, k :: j in counts && k in counts ==> counts[j] == counts[k] {
        UniformEntropy(log, slope, counts, total);
        Quotient(raw, l, 1.0);
      } else {
        UnevenShare(counts, total);
      }
    }
  }

  lemma UnevenShare<K>(counts: map<K, nat>, total: nat)
    requires exists j, k :: j in counts && k in counts && counts[j] != counts[k]
    ensures exists k :: k in counts && counts[k] * |counts| != total
  {
  }

  function Multiple(n: nat, y: real): real {
    n as real * y
  }

  lemma MultipleStep(n: nat, y: real)
    ensures Multiple(0, y) == 0.0 && Multiple(n + 1, y) == Multiple(n, y) + y
  {
    assert (n + 1) as real * y == n as real * y + y;
  }

  lemma {:induction false} UniformTotal<K>(counts: map<K, nat>, ks: set<K>, c: nat, f: nat -> real)
    requires ks <= counts.Keys && forall k :: k in ks ==> counts[k] == c
    ensures SumOver(f, counts, ks) == Multiple(|ks|, f(c))
    decreases |ks|
  {
    hide Multiple;
    MultipleStep(if ks == {} then 0 else |ks| - 1, f(c));
    if ks != {} {
      var k :| k in ks;
      SumAny(f, counts, ks, k);
      UniformTotal(counts, ks - {k}, c, f);
    }
  }

  /** Equal counts reach the maximum. */
  lemma UniformEntropy<K>(log: real -> real, slope: real, counts: map<K, nat>, total: nat)
    requires IsLog(log, slope) && Histogram(counts, total) && |counts| >= 2 && total >= 1
    requires forall j, k :: j in counts && k in counts ==> counts[j] == counts[k]
    ensures SumTerms(Term(log, total), counts) == log(|counts| as real)
  {
    hide IsLog;
    var k :| k in counts;
    var c, u := counts[k], |counts| as real;
    PartBelowTotal(counts, total, k);
    var x, n := c as real, total as real;
    UniformTotal(counts, counts.Keys, c, Count());
    var p := x / n;
    RatioInUnit(x, n);
    UniformShare(u, x, n, p);
    LogInverse(log, slope, p, u);
    UniformTotal(counts, counts.Keys, c, Term(log, total));
    UniformValue(u, p, log(u));
  }

  lemma UniformShare(u: real, x: real, n: real, p: real)
    requires 0.0 < x && n == u * x && n > 0.0 && p == x / n
    ensures p * u == 1.0
  {
  }

  lemma UniformValue(u: real, p: real, l: real)
    requires p * u == 1.0
    ensures u * (-p * (-l)) == l
  {
  }

  // ----- rate independence -----

  ghost function Times<K>(m: map<K, nat>, f: nat): map<K, nat> {
    map k | k in m :: f * m[k]
  }

  lemma ShareTimes(n: nat, c: nat, f: nat)
    requires 1 <= n && 1 <= f
    ensures f * n >= 1 && (f * c) as real / (f * n) as real == c as real / n as real
  {
  }

  lemma TermTimes(log: real -> real, n: nat, c: nat, f: nat)
    requires 1 <= n && 1 <= f
    ensures f * n >= 1
    ensures Term(log, f * n)(f * c) == Term(log, n)(c)
  {
    ShareTimes(n, c, f);
    if c == 0 {
      assert f * c == 0;
    } else {
      assert f * c >= 1;
      hide Term;
      var p := c as real / n as real;
      TermValue(log, n, c, p);
      TermValue(log, f * n, f * c, p);
    }
  }

  lemma TimesSize<K>(m: map<K, nat>, f: nat)
    ensures Times(m, f).Keys == m.Keys && |Times(m, f)| == |m|
  {
  }

  /** Multiplying every count by the same factor leaves the entropy unchanged. */
  lemma RateIndependent<K>(log: real -> real, slope: real, counts: map<K, nat>, total: nat, f: nat)
    requires IsLog(log, slope) && 1 <= f
    ensures NormalizedEntropy(log, slope, Times(counts, f), f * total) == NormalizedEntropy(log, slope, counts, total)
  {
    hide IsLog, Term;
    TimesSize(counts, f);
    if total == 0 {
      assert f * total == 0;
    } else {
      assert f * total >= 1 by {
        TermTimes(log, total, 0, f);
      }
      forall k | k in counts
        ensures Term(log, f * total)(f * counts[k]) == Term(log, total)(counts[k])
      {
        TermTimes(log, total, counts[k], f);
      }
      SumSame(Term(log, f * total), Times(counts, f), Term(log, total), counts, counts.Keys);
    }
  }

  // ----- the accumulator -----

  /** `count` more packets of one key; a zero count must not open a bucket. */
  function Added<K>(counts: map<K, nat>, key: K, count: nat): map<K, nat> {
    if count == 0 then counts
    else counts[key := (if key in counts then counts[key] else 0) + count]
  }

  lemma AddedHistogram<K>(counts: map<K, nat>, total: nat, key: K, count: nat)
    requires Histogram(counts, total)
    ensures Histogram(Added(counts, key, count), total + count)
  {
    if count > 0 {
      var next := Added(counts, key, count);
      var others := counts.Keys - {key};
      SumAny(Count(), next, next.Keys, key);
      SumSame(Count(), next, Count(), counts, others);
      assert next.Keys - {key} == others;
      if key in counts {
        SumAny(Count(), counts, counts.Keys, key);
      } else {
        assert others == counts.Keys;
      }
    }
  }

  class EntropyAccumulator<K(==)> {
    var counts: map<K, nat>
    var packetCount: nat

    /** No empty bucket, and packetCount is the sum of the counts. */
    ghost predicate Valid()
      reads this
    {
      Histogram(counts, packetCount)
    }

    constructor ()
      ensures Valid() && counts == map[] && packetCount == 0
    {
      counts, packetCount := map[], 0;
    }

    method AddPackets(key: K, count: nat)
      requires Valid()
      modifies this
      ensures Valid()
      ensures counts == Added(old(counts), key, count)
      ensures packetCount == old(packetCount) + count
    {
      AddedHistogram(counts, packetCount, key, count);
      if count == 0 {
        return;
      }
      counts := counts[key := (if key in counts then counts[key] else 0) + count];
      packetCount := packetCount + count;
    }

    method AddPacket(key: K)
      requires Valid()
      modifies this
      ensures Valid()
      ensures counts == Added(old(counts), key, 1)
      ensures packetCount == old(packetCount) + 1
    {
      AddPackets(key, 1);
    }

    /** The window's entropy, always in [0, 1]; the accumulator is empty again afterwards. */
    method ComputeAndReset(log: real -> real, ghost slope: real) returns (h: real)
      requires Valid() && IsLog(log, slope)
      modifies this
      ensures Valid() && counts == map[] && packetCount == 0
      ensures h == NormalizedEntropy(log, slope, old(counts), old(packetCount))
      ensures 0.0 <= h <= 1.0
    {
      hide IsLog, NormalizedEntropy;
      EntropyInUnit(log, slope, counts, packetCount);
      h := ComputeNormalizedEntropy(log, slope, counts, packetCount);
      counts, packetCount := map[], 0;
    }
  }
}
