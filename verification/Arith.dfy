/** Larger and smaller of two numbers, small facts about products and quotients of reals, and powers with a natural exponent. */
module Arith {

  function Max(a: real, b: real): real {
    if a >= b then a else b
  }

  function MinReal(a: real, b: real): real {
    if a <= b then a else b
  }

  function Min(a: nat, b: nat): nat {
    if a <= b then a else b
  }

  /** A product, but not less than the given number. */
  function ProductAtLeast(a: real, b: real, least: real): real {
    Max(a * b, least)
  }

  lemma ProductAtLeastIs(a: real, b: real, least: real)
    ensures ProductAtLeast(a, b, least) == if a * b >= least then a * b else least
  {
  }

  lemma MulNonNeg(a: real, b: real)
    requires 0.0 <= a && 0.0 <= b
    ensures 0.0 <= a * b
  {
  }

  lemma MulMono(a: real, b: real, c: real)
    requires 0.0 <= a && b <= c
    ensures a * b <= a * c
  {
  }

  lemma MulLeSelf(a: real, b: real)
    requires 0.0 <= a && b <= 1.0
    ensures a * b <= a
  {
  }

  /** Monotonicity of the factor 1 - a, over the plain products. */
  lemma CoMulMono(a: real, b: real, c: real)
    requires a <= 1.0 && b <= c
    ensures b - a * b <= c - a * c
  {
  }

  lemma MulZero(a: real, b: real)
    requires a * b == 0.0 && a != 0.0
    ensures b == 0.0
  {
  }

  lemma DivMul(p: real, q: real)
    requires q != 0.0
    ensures p / q * q == p
  {
  }

  lemma Quotient(p: real, q: real, r: real)
    requires q != 0.0 && p == q * r
    ensures p / q == r
  {
  }

  lemma OneMinus(a: real, y: real)
    ensures (1.0 - a) * y == y - a * y
  {
  }

  lemma MulOne(a: real, b: real)
    requires a == 1.0
    ensures a * b == b
  {
  }

  /** A weighted average lies between its ends. */
  lemma Blend(a: real, x: real, y: real, lo: real, hi: real)
    requires 0.0 <= a <= 1.0 && lo <= x <= hi && lo <= y <= hi
    ensures lo <= a * x + (1.0 - a) * y <= hi
  {
    BlendMono(a, lo, lo, x, y);
    BlendMono(a, x, y, hi, hi);
    OneMinus(a, lo);
    OneMinus(a, hi);
  }

  lemma BlendMono(a: real, x: real, y: real, x': real, y': real)
    requires 0.0 <= a <= 1.0 && x <= x' && y <= y'
    ensures a * x + (1.0 - a) * y <= a * x' + (1.0 - a) * y'
  {
    calc {
      a * x + (1.0 - a) * y;
    ==  { OneMinus(a, y); }
      a * x + (y - a * y);
    <=  { MulMono(a, x, x'); }
      a * x' + (y - a * y);
    <=  { CoMulMono(a, y, y'); }
      a * x' + (y' - a * y');
    ==  { OneMinus(a, y'); }
      a * x' + (1.0 - a) * y';
    }
  }

  lemma BlendZero(a: real, x: real, y: real)
    requires 0.0 < a < 1.0 && 0.0 <= x && 0.0 <= y && a * x + (1.0 - a) * y == 0.0
    ensures x == 0.0 && y == 0.0
  {
    var b := 1.0 - a;
    MulNonNeg(a, x);
    MulNonNeg(b, y);
    assert b * y == (1.0 - a) * y;
    MulZero(a, x);
    MulZero(b, y);
  }

  lemma SquareBound(d: real, hi: real)
    requires -hi <= d <= hi
    ensures 0.0 <= d * d <= hi * hi
  {
  }

  function Pow(b: real, e: nat): real {
    if e == 0 then 1.0 else b * Pow(b, e - 1)
  }

  lemma PowStep(b: real, e: nat)
    ensures Pow(b, e + 1) == b * Pow(b, e)
  {
  }

  lemma UnitMul(a: real, b: real)
    requires 0.0 <= a <= 1.0 && 0.0 <= b <= 1.0
    ensures 0.0 <= a * b <= 1.0
  {
    MulNonNeg(a, b);
    MulLeSelf(a, b);
  }

  lemma {:induction false} PowInUnit(b: real, e: nat)
    requires 0.0 <= b <= 1.0
    ensures 0.0 <= Pow(b, e) <= 1.0
  {
    if e > 0 {
      PowInUnit(b, e - 1);
      PowStep(b, e - 1);
      UnitMul(b, Pow(b, e - 1));
    }
  }

  lemma {:induction false} PowAntitone(b: real, d: nat, e: nat)
    requires 0.0 <= b <= 1.0 && d <= e
    ensures Pow(b, e) <= Pow(b, d)
  {
    if d < e {
      PowAntitone(b, d, e - 1);
      PowInUnit(b, e - 1);
      MulLeSelf(Pow(b, e - 1), b);
    }
  }

  lemma {:induction false} CastMul(a: nat, b: nat)
    ensures (a * b) as real == a as real * b as real
  {
  }

  // ----- quotient and remainder of natural numbers -----

  lemma IntMulGe(m: nat, k: int)
    requires 1 <= k
    ensures m * k >= m
  {
  }

  lemma DivisionUnique(m: nat, q: int, r: nat, q': int, r': nat)
    requires r < m && r' < m && m * q + r == m * q' + r'
    ensures q == q' && r == r'
  {
    var d, e := q' - q, q - q';
    assert m * d == m * q' - m * q && m * e == m * q - m * q';
    if d >= 1 {
      IntMulGe(m, d);
      assert false;
    } else if e >= 1 {
      IntMulGe(m, e);
      assert false;
    }
  }

  lemma ModUnique(a: nat, m: nat, q: nat, r: nat)
    requires 1 <= m && a == m * q + r && r < m
    ensures a % m == r && a / m == q
  {
    var q', r' := a / m, a % m;
    assert a == m * q' + r';
    DivisionUnique(m, q, r, q', r');
  }

  lemma ModStep(a: nat, m: nat)
    requires 1 <= m
    ensures (a + 1) % m == if a % m + 1 < m then a % m + 1 else 0
  {
    var q, r := a / m, a % m;
    assert a == m * q + r;
    if r + 1 < m {
      ModUnique(a + 1, m, q, r + 1);
    } else {
      var p := q + 1;
      assert m * p == m * q + m;
      ModUnique(a + 1, m, p, 0);
    }
  }

  lemma DivBound(e: nat, m: nat, n: nat)
    requires 1 <= m && m * e <= n
    ensures e <= n / m
  {
    var q, r := n / m, n % m;
    assert n == m * q + r;
    if e > q {
      var d := e - q;
      assert m * d == m * e - m * q;
      IntMulGe(m, d);
      assert false;
    }
  }
}
