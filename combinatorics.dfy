/**
  Reference definitions for the theoretical overlay of the discrete scripts:
  binomial coefficients by Pascal's rule, real powers with natural exponents
  (`Math.pow(x, k)` for an integer k), and the facts that tie the source's
  multiplicative coefficient loop and its PMF to them.
 */
module Combinatorics {

  /** C(n, k) by Pascal's rule; it is 0 when k > n. */
  function Binom(n: nat, k: nat): nat {
    if k == 0 then 1
    else if n == 0 then 0
    else Binom(n - 1, k - 1) + Binom(n - 1, k)
  }

  /** `Math.pow(x, e)` for a natural exponent, computed exactly. */
  function Power(x: real, e: nat): real {
    if e == 0 then 1.0 else x * Power(x, e - 1)
  }

  lemma {:induction false} BinomAboveIsZero(n: nat, k: nat)
    requires k > n
    ensures Binom(n, k) == 0
  {
    if n > 0 {
      BinomAboveIsZero(n - 1, k - 1);
      BinomAboveIsZero(n - 1, k);
    }
  }

  lemma {:induction false} BinomDiagonal(n: nat)
    ensures Binom(n, n) == 1
  {
    if n > 0 {
      BinomDiagonal(n - 1);
      BinomAboveIsZero(n - 1, n);
    }
  }

  /**
    The absorption identity k * C(n, k) == n * C(n - 1, k - 1). It is what makes
    each step `c = c * (n - (k - i)) / i` of the coefficient loop exact.
   */
  lemma {:induction false} Absorption(n: nat, k: nat)
    requires 1 <= k && 1 <= n
    ensures k * Binom(n, k) == n * Binom(n - 1, k - 1)
  {
    if n == 1 {
      if k > 1 {
        BinomAboveIsZero(1, k);
        BinomAboveIsZero(0, k - 1);
      }
    } else if k == 1 {
      // C(n, 1) == C(n - 1, 0) + C(n - 1, 1) == 1 + (n - 1)
      Absorption(n - 1, 1);
    } else {
      var a, b := Binom(n - 1, k - 1), Binom(n - 1, k);
      var c, d := Binom(n - 2, k - 2), Binom(n - 2, k - 1);
      assert a == c + d;
      Absorption(n - 1, k);      // k b == (n - 1) d
      Absorption(n - 1, k - 1);  // (k - 1) a == (n - 1) c
      Distribute(k, a, b);
      Distribute(n - 1, c, d);
      assert k * a == a + (k - 1) * a;
      assert n * a == a + (n - 1) * a;
    }
  }

  lemma {:induction false} Distribute(x: int, y: int, z: int)
    ensures x * (y + z) == x * y + x * z
  {
  }

  /** One step of the source's coefficient loop, over the reals. */
  lemma {:induction false} CoefficientStep(m: nat, i: nat)
    requires 1 <= i && 1 <= m
    ensures Binom(m, i) as real == Binom(m - 1, i - 1) as real * m as real / i as real
  {
    Absorption(m, i);
    RealQuotient(Binom(m, i), Binom(m - 1, i - 1), m, i);
  }

  /** From i b == m c over the integers, b == c m / i over the reals. */
  lemma {:induction false} RealQuotient(b: int, c: int, m: int, i: int)
    requires i >= 1 && i * b == m * c
    ensures b as real == c as real * m as real / i as real
  {
    CastProduct(i, b);
    CastProduct(m, c);
    DivideOut(b as real, c as real * m as real, i as real);
  }

  lemma {:induction false} CastProduct(x: int, y: int)
    ensures (x * y) as real == x as real * y as real
  {
  }

  lemma {:induction false} DivideOut(x: real, y: real, z: real)
    requires z != 0.0 && z * x == y
    ensures x == y / z
  {
  }

  lemma {:induction false} PowerUnitInterval(x: real, e: nat)
    requires 0.0 <= x <= 1.0
    ensures 0.0 <= Power(x, e) <= 1.0
  {
    if e > 0 {
      PowerUnitInterval(x, e - 1);
      var y := Power(x, e - 1);
      assert 0.0 <= x * y;
      assert (1.0 - x) * y >= 0.0;
    }
  }

  lemma {:induction false} PowerOfOne(e: nat)
    ensures Power(1.0, e) == 1.0
  {
    if e > 0 {
      PowerOfOne(e - 1);
    }
  }

  /** C(n, k) as a real number, by the same rule. */
  function RealBinom(n: nat, k: nat): real {
    if k == 0 then 1.0
    else if n == 0 then 0.0
    else RealBinom(n - 1, k - 1) + RealBinom(n - 1, k)
  }

  lemma {:induction false} RealBinomIsBinom(n: nat, k: nat)
    ensures RealBinom(n, k) == Binom(n, k) as real
  {
    if k > 0 && n > 0 {
      RealBinomIsBinom(n - 1, k - 1);
      RealBinomIsBinom(n - 1, k);
    }
  }

  /** One term of the binomial expansion of (a + b)^n; zero outside 0..n. */
  function Term(a: real, b: real, n: nat, k: int): real {
    if 0 <= k <= n then RealBinom(n, k) * Power(a, k) * Power(b, n - k) else 0.0
  }

  /** Pascal's rule lifted to terms: T(n + 1, k) == a T(n, k - 1) + b T(n, k). */
  lemma {:induction false} TermPascal(a: real, b: real, n: nat, k: nat)
    requires 1 <= k <= n + 1
    ensures Term(a, b, n + 1, k) == a * Term(a, b, n, k - 1) + b * Term(a, b, n, k)
  {
    var c1, c2 := RealBinom(n, k - 1), RealBinom(n, k);
    assert RealBinom(n + 1, k) == c1 + c2;
    var pa, pb := Power(a, k - 1), Power(b, n + 1 - k);
    assert Power(a, k) == a * pa;
    calc {
      Term(a, b, n + 1, k);
      (c1 + c2) * (a * pa) * pb;
      a * (c1 * pa * pb) + c2 * (a * pa) * pb;
    }
    assert Term(a, b, n, k - 1) == c1 * pa * pb;
    if k == n + 1 {
      BinomAboveIsZero(n, k);
      RealBinomIsBinom(n, k);
    } else {
      assert Power(b, n + 1 - k) == b * Power(b, n - k);
      assert b * Term(a, b, n, k) == c2 * (a * pa) * pb;
    }
  }

  /** f(0) + f(1) + ... + f(j - 1), added in order. */
  function SumTo(f: int -> real, j: nat): real {
    if j == 0 then 0.0 else SumTo(f, j - 1) + f(j - 1)
  }

  /**
    If every g(k) is a f(k - 1) + b f(k) and f(-1) is 0, the sums of g are the
    same combination of the sums of f.
   */
  lemma {:induction false} SumToPascal(f: int -> real, g: int -> real, a: real, b: real, j: nat)
    requires 1 <= j
    requires f(-1) == 0.0
    requires forall k {:trigger g(k)} :: 0 <= k < j ==> g(k) == a * f(k - 1) + b * f(k)
    ensures SumTo(g, j) == a * SumTo(f, j - 1) + b * SumTo(f, j)
  {
    if j == 1 {
      assert SumTo(g, 1) == g(0) == b * f(0);
      assert SumTo(f, 1) == f(0);
    } else {
      SumToPascal(f, g, a, b, j - 1);
      var x, tx, ty := SumTo(f, j - 2), f(j - 2), f(j - 1);
      Regroup(a, b, x, x + tx, tx, ty, SumTo(g, j - 1), g(j - 1));
    }
  }

  /** The algebra of one step of SumToPascal. */
  lemma {:induction false} Regroup(a: real, b: real, x: real, y: real, tx: real, ty: real, s: real, t: real)
    requires s == a * x + b * y && t == a * tx + b * ty
    ensures s + t == a * (x + tx) + b * (y + ty)
  {
  }

  /** The terms of the expansion of (a + b)^n, as a function of k. */
  function Terms(a: real, b: real, n: nat): int -> real {
    k => Term(a, b, n, k)
  }

  /** Sum of the n + 1 terms of the expansion of (a + b)^n. */
  function Expansion(a: real, b: real, n: nat): real {
    SumTo(Terms(a, b, n), n + 1)
  }

  /** The binomial theorem: the n + 1 terms add up to (a + b)^n. */
  lemma {:induction false} BinomialTheorem(a: real, b: real, n: nat)
    ensures Expansion(a, b, n) == Power(a + b, n)
  {
    if n == 0 {
      assert Term(a, b, 0, 0) == 1.0;
    } else {
      BinomialTheorem(a, b, n - 1);
      ExpansionStep(a, b, n);
    }
  }

  /** Expanding one more factor (a + b) multiplies the expansion by it. */
  lemma {:induction false} ExpansionStep(a: real, b: real, n: nat)
    requires n >= 1
    ensures Expansion(a, b, n) == (a + b) * Expansion(a, b, n - 1)
  {
    var f, g := Terms(a, b, n - 1), Terms(a, b, n);
    TermsPascal(a, b, n);
    assert f(-1) == 0.0;
    SumToPascal(f, g, a, b, n + 1);
    var e := SumTo(f, n);
    assert SumTo(f, n + 1) == e + f(n) && f(n) == 0.0;
    Regroup(a, b, 0.0, 0.0, e, e, 0.0, a * e + b * e);
  }

  lemma {:induction false} TermsPascal(a: real, b: real, n: nat)
    requires n >= 1
    ensures forall k :: 0 <= k < n + 1 ==> Terms(a, b, n)(k) == a * Terms(a, b, n - 1)(k - 1) + b * Terms(a, b, n - 1)(k)
  {
    forall k | 0 <= k < n + 1
      ensures Term(a, b, n, k) == a * Term(a, b, n - 1, k - 1) + b * Term(a, b, n - 1, k)
    {
      if k == 0 {
        assert Term(a, b, n, 0) == b * Power(b, n - 1);
      } else {
        TermPascal(a, b, n - 1, k);
      }
    }
  }

  /** The binomial probabilities of Binom(n, q) add up to 1 (as polynomials in q, so for every real q). */
  lemma {:induction false} BinomialProbabilitiesSumToOne(q: real, n: nat)
    ensures Expansion(q, 1.0 - q, n) == 1.0
  {
    BinomialTheorem(q, 1.0 - q, n);
    PowerOfOne(n);
  }
}
