/** The 2x2 chi-squared statistic every pipeline variant computes, with Python's
    true division on integers modelled as exact `real` division that raises
    `ZeroDivisionError` on a zero denominator. */
module Contingency {
  import opened Common

  /** `N * (A*D - B*C)**2`. */
  function Numerator(n: int, a: int, b: int, c: int, d: int): int
  {
    n * ((a * d - b * c) * (a * d - b * c))
  }

  /** `(A+B) * (A+C) * (B+D) * (C+D)`: the product of the four marginals. */
  function Denominator(a: int, b: int, c: int, d: int): int
  {
    (a + b) * (a + c) * (b + d) * (c + d)
  }

  /** `N * (A*D - B*C)**2 / ((A+B)*(A+C)*(B+D)*(C+D))`, unguarded. */
  function Chi(n: int, a: int, b: int, c: int, d: int): Result<real>
  {
    if Denominator(a, b, c, d) == 0 then Err(ZeroDivisionError)
    else Ok(Numerator(n, a, b, c, d) as real / Denominator(a, b, c, d) as real)
  }

  lemma MulPos(x: int, y: int)
    requires x > 0 && y > 0
    ensures x * y > 0
  {
  }

  lemma ProductZero(x: int, y: int)
    ensures x * y == 0 <==> x == 0 || y == 0
  {
    if x > 0 && y > 0 {
      MulPos(x, y);
    } else if x > 0 && y < 0 {
      MulPos(x, -y);
      assert x * (-y) == -(x * y);
    } else if x < 0 && y > 0 {
      MulPos(-x, y);
      assert (-x) * y == -(x * y);
    } else if x < 0 && y < 0 {
      MulPos(-x, -y);
      assert (-x) * (-y) == x * y;
    }
  }

  /** The division fails exactly when one of the four marginals is zero. */
  lemma ChiErrIffZeroMarginal(n: int, a: int, b: int, c: int, d: int)
    ensures Chi(n, a, b, c, d) == Err(ZeroDivisionError) <==> a + b == 0 || a + c == 0 || b + d == 0 || c + d == 0
    ensures Chi(n, a, b, c, d).Ok? <==> a + b != 0 && a + c != 0 && b + d != 0 && c + d != 0
  {
    ProductZero((a + b) * (a + c) * (b + d), c + d);
    ProductZero((a + b) * (a + c), b + d);
    ProductZero(a + b, a + c);
  }

  lemma NonNegProduct(x: int, y: int)
    requires x >= 0 && y >= 0
    ensures x * y >= 0
  {
  }

  lemma SquareNonNeg(x: int)
    ensures x * x >= 0
  {
    if x < 0 {
      NonNegProduct(-x, -x);
    }
  }

  lemma MulMono(x: int, y: int, z: int)
    requires 0 <= x <= y && z >= 0
    ensures x * z <= y * z
  {
    assert y * z - x * z == (y - x) * z;
  }

  /** For non-negative cells the squared cross difference `(A*D - B*C)**2` is at
      most `(A*D + B*C)**2`, which is at most the product of the marginals. */
  lemma CrossBound(a: int, b: int, c: int, d: int)
    requires a >= 0 && b >= 0 && c >= 0 && d >= 0
    ensures (a * d - b * c) * (a * d - b * c) <= Denominator(a, b, c, d)
  {
    var x := a * d;
    var y := b * c;
    assert x >= 0 && y >= 0;
    var p1 := (a + b) * (c + d);
    var p2 := (a + c) * (b + d);
    assert p1 == a * c + x + y + b * d;
    assert p2 == a * b + x + y + c * d;
    assert a * c >= 0 && b * d >= 0 && a * b >= 0 && c * d >= 0;
    assert (x + y) * (x + y) - (x - y) * (x - y) == 4 * (x * y);
    assert x * y >= 0;
    MulMono(x + y, p1, x + y);
    MulMono(x + y, p2, p1);
    assert (x + y) * p1 == p1 * (x + y);
    Reassociate(a + b, a + c, b + d, c + d);
  }

  lemma Reassociate(p: int, q: int, r: int, s: int)
    ensures p * q * r * s == (p * s) * (q * r)
  {
  }

  /** With non-negative cells and N their sum, a defined score lies in [0, N]. */
  lemma ChiBounds(n: int, a: int, b: int, c: int, d: int)
    requires a >= 0 && b >= 0 && c >= 0 && d >= 0 && n == a + b + c + d
    requires Chi(n, a, b, c, d).Ok?
    ensures 0.0 <= Chi(n, a, b, c, d).value <= n as real
  {
    var s := (a * d - b * c) * (a * d - b * c);
    var den := Denominator(a, b, c, d);
    DenominatorNonNeg(a, b, c, d);
    CrossBound(a, b, c, d);
    SquareNonNeg(a * d - b * c);
    ScaledBound(n, s, den);
  }

  lemma DenominatorNonNeg(a: int, b: int, c: int, d: int)
    requires a >= 0 && b >= 0 && c >= 0 && d >= 0
    ensures Denominator(a, b, c, d) >= 0
  {
    NonNegProduct(a + b, a + c);
    NonNegProduct((a + b) * (a + c), b + d);
    NonNegProduct((a + b) * (a + c) * (b + d), c + d);
  }

  lemma ScaledBound(n: int, s: int, den: int)
    requires n >= 0 && 0 <= s <= den && den > 0
    ensures 0.0 <= (n * s) as real / den as real <= n as real
  {
    NonNegProduct(n, s);
    MulMono(s, den, n);
    assert s * n == n * s && den * n == n * den;
    ScaledQuotient(n * s, n * den, den, n);
  }

  /** `0 <= p <= q` and `q == den * n` with `den > 0` give `0 <= p / den <= n`. */
  lemma ScaledQuotient(p: int, q: int, den: int, n: int)
    requires den > 0 && 0 <= p <= q && q == n * den
    ensures 0.0 <= p as real / den as real <= n as real
  {
    var r := p as real / den as real;
    assert r * den as real == p as real;
    assert n as real * den as real == q as real;
  }

  /** Independence (A*D == B*C) scores zero whenever the score is defined. */
  lemma ChiZeroWhenIndependent(n: int, a: int, b: int, c: int, d: int)
    requires a * d == b * c && Chi(n, a, b, c, d).Ok?
    ensures Chi(n, a, b, c, d).value == 0.0
  {
  }

  /** The formula on the cells A = 2, B = 0, C = 0, D = 1; `DocFrequency.ExampleCounts`
      derives these cells for "good" in electronics from a three-review corpus. */
  lemma ChiExampleFirst()
    ensures Chi(3, 2, 0, 0, 1) == Ok(3.0)
  {
  }

  /** The formula on the cells A = 1, B = 1, C = 1, D = 0, those of "cheap" in the
      same corpus. */
  lemma ChiExampleSecond()
    ensures Chi(3, 1, 1, 1, 0) == Ok(0.75)
  {
  }
  /** The score of a (category, term) pair from its marginal counts: N reviews,
      N_c in the category, N_t with the term, N_ct in the category with the term,
      so that A = N_ct, B = N_t - N_ct, C = N_c - N_ct and D = N - A - B - C. */
  function CellScore(n: int, nc: int, nt: int, nct: int): Result<real>
  {
    Chi(n, nct, nt - nct, nc - nct, n - nc - nt + nct)
  }

  /** The score from the four cells, however a reducer arrives at them. */
  lemma CellScoreCells(n: int, nc: int, nt: int, nct: int, a: int, b: int, c: int, d: int)
    requires a == nct && b == nt - nct && c == nc - nct && d == n - nc - nt + nct
    ensures Chi(n, a, b, c, d) == CellScore(n, nc, nt, nct)
  {
  }

  /** The score is undefined exactly when the term or the category is absent or
      everywhere: the four marginals are N_t, N_c, N - N_c and N - N_t. */
  lemma CellScoreDefined(n: int, nc: int, nt: int, nct: int)
    ensures CellScore(n, nc, nt, nct).Err? <==> nt == 0 || nc == 0 || nc == n || nt == n
    ensures CellScore(n, nc, nt, nct).Err? ==> CellScore(n, nc, nt, nct).error == ZeroDivisionError
  {
    ChiErrIffZeroMarginal(n, nct, nt - nct, nc - nct, n - nc - nt + nct);
  }

  /** Counts that can come from a corpus give a score in [0, N]. */
  lemma CellScoreBounds(n: int, nc: int, nt: int, nct: int)
    requires 0 <= nct <= nc && nct <= nt && nc + nt - nct <= n
    requires CellScore(n, nc, nt, nct).Ok?
    ensures 0.0 <= CellScore(n, nc, nt, nct).value <= n as real
  {
    ChiBounds(n, nct, nt - nct, nc - nct, n - nc - nt + nct);
  }

  /** Perfect association: a term found in every review of the category and in
      no other scores exactly N, strictly positive and the largest score the
      bound of `CellScoreBounds` allows when 0 < N_c < N. */
  lemma PerfectAssociation(n: int, nc: int)
    requires 0 < nc < n
    ensures CellScore(n, nc, nc, nc) == Ok(n as real)
    ensures n as real > 0.0
  {
    var p := nc * (n - nc);
    MulPos(nc, n - nc);
    MulPos(p, p);
    assert Denominator(nc, 0, 0, n - nc) == p * p by {
      assert (nc + 0) * (nc + 0) * (0 + (n - nc)) * (0 + (n - nc)) == (nc * (n - nc)) * (nc * (n - nc));
    }
    assert Numerator(n, nc, 0, 0, n - nc) == n * (p * p);
    assert (n * (p * p)) as real / (p * p) as real == n as real by {
      assert (n * (p * p)) as real == n as real * (p * p) as real;
    }
  }

  /** No counts a corpus with the same N and N_c can produce score above a
      perfectly associated term. */
  lemma PerfectAssociationMaximal(n: int, nc: int, nt: int, nct: int)
    requires 0 < nc < n
    requires 0 <= nct <= nc && nct <= nt && nc + nt - nct <= n
    requires CellScore(n, nc, nt, nct).Ok?
    ensures CellScore(n, nc, nt, nct).value <= CellScore(n, nc, nc, nc).value
  {
    PerfectAssociation(n, nc);
    CellScoreBounds(n, nc, nt, nct);
  }
}
