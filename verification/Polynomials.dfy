/**
 Polynomials with coefficients in the field of two elements, highest power first.

 They are sequences of fixed length, so leading zeros are kept.
*/
module Polynomials {

  type Poly = seq<bool>

  function Zeros(n: nat): (z: Poly)
    ensures |z| == n && forall k | 0 <= k < n :: !z[k]
  {
    seq(n, k => false)
  }

  function Sum(a: Poly, b: Poly): (c: Poly)
    requires |a| == |b|
    ensures |c| == |a| && forall k | 0 <= k < |c| :: c[k] <==> (a[k] != b[k])
  {
    seq(|a|, k requires 0 <= k < |a| => a[k] != b[k])
  }

  /** The divisor when its turn comes and nothing otherwise. */
  function Scaled(c: bool, g: Poly): (s: Poly)
    ensures |s| == |g|
  {
    if c then g else Zeros(|g|)
  }

  /** Long multiplication. */
  function Product(q: Poly, g: Poly): (p: Poly)
    requires |g| > 0
    ensures |p| == |q| + |g| - 1
  {
    if q == [] then
      Zeros(|g| - 1)
    else
      Sum(Scaled(q[0], g) + Zeros(|q| - 1), [false] + Product(q[1..], g))
  }

  /** The polynomial is q times g plus r. */
  predicate Quotient(dividend: Poly, g: Poly, q: Poly, r: Poly) {
    |g| > 0 && |r| == |g| - 1 && |dividend| == |q| + |r| &&
    dividend == Sum(Product(q, g), Zeros(|q|) + r)
  }

  /** Division by g leaves r, whose degree is below that of g. */
  ghost predicate Remainder(dividend: Poly, g: Poly, r: Poly) {
    exists q :: Quotient(dividend, g, q, r)
  }

  lemma SumCancels(a: Poly, b: Poly, c: Poly)
    requires |a| == |b| == |c| && Sum(a, b) == Sum(a, c)
    ensures b == c
  {
    forall k | 0 <= k < |a| ensures b[k] == c[k] {
      assert Sum(a, b)[k] == Sum(a, c)[k];
    }
  }

  lemma ProductStep(q: Poly, g: Poly, c: bool)
    requires |g| > 0
    ensures Product([c] + q, g) == Sum(Scaled(c, g) + Zeros(|q|), [false] + Product(q, g))
  {
    assert ([c] + q)[1..] == q;
  }

  /** Behind its first coefficient, one line of the long division leaves the division of the rest. */
  lemma LinePointwise(s: Poly, p: Poly, z: Poly, k: nat)
    requires |p| == |z| && |s| == |p| + 1 && k < |s|
    ensures Sum(s, [false] + Sum(p, z))[k] == Sum(Sum(s, [false] + p), [false] + z)[k]
  {
    if k > 0 {
      assert ([false] + Sum(p, z))[k] == Sum(p, z)[k - 1];
      assert ([false] + p)[k] == p[k - 1] && ([false] + z)[k] == z[k - 1];
    }
  }

  /** One line of the long division. */
  lemma QuotientStep(dividend: Poly, g: Poly, q: Poly, r: Poly, c: bool, rest: Poly)
    requires |g| > 0 && Quotient(rest, g, q, r)
    requires |dividend| == |rest| + 1
    requires dividend == Sum(Scaled(c, g) + Zeros(|q|), [false] + rest)
    ensures Quotient(dividend, g, [c] + q, r)
  {
    hide Sum, Zeros, Scaled, Product;
    var s, p, z := Scaled(c, g) + Zeros(|q|), Product(q, g), Zeros(|q|) + r;
    ProductStep(q, g, c);
    forall k | 0 <= k < |dividend| ensures dividend[k] == Sum(Sum(s, [false] + p), [false] + z)[k] {
      LinePointwise(s, p, z, k);
    }
    assert [false] + z == Zeros(|q| + 1) + r;
  }

  /** The first coefficient of the quotient is forced, and so is what is left to divide. */
  lemma QuotientUnstep(dividend: Poly, g: Poly, q: Poly, r: Poly)
    requires Quotient(dividend, g, q, r) && q != [] && g[0]
    ensures q[0] == dividend[0]
    ensures Quotient(Sum(dividend, Scaled(q[0], g) + Zeros(|q| - 1))[1..], g, q[1..], r)
  {
    var p, s := Product(q, g), Scaled(q[0], g) + Zeros(|q| - 1);
    var rest := Sum(dividend, s)[1..];
    var less := Sum(Product(q[1..], g), Zeros(|q| - 1) + r);
    forall k | 0 <= k < |rest| ensures rest[k] == less[k] {
      assert dividend[k + 1] == Sum(p, Zeros(|q|) + r)[k + 1];
      assert (Zeros(|q|) + r)[k + 1] == (Zeros(|q| - 1) + r)[k];
      assert p[k + 1] == (s[k + 1] != Product(q[1..], g)[k]);
    }
  }

  /** A divisor with leading coefficient one leaves at most one quotient and one remainder. */
  lemma {:induction false} DivisionIsUnique(dividend: Poly, g: Poly, q: Poly, r: Poly, q': Poly, r': Poly)
    requires Quotient(dividend, g, q, r) && Quotient(dividend, g, q', r') && g[0]
    ensures q == q' && r == r'
    decreases |q|
  {
    if q == [] {
      assert Zeros(0) + r == r && Zeros(0) + r' == r';
      SumCancels(Zeros(|r|), r, r');
    } else {
      QuotientUnstep(dividend, g, q, r);
      QuotientUnstep(dividend, g, q', r');
      DivisionIsUnique(Sum(dividend, Scaled(q[0], g) + Zeros(|q| - 1))[1..], g, q[1..], r, q'[1..], r');
      assert q == [q[0]] + q[1..] && q' == [q'[0]] + q'[1..];
    }
  }
}
