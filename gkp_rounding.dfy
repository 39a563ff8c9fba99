/** Quadrature arithmetic of the GKP (Gottesman-Kitaev-Preskill) correction rules.
  * The lattice spacing sqrt(pi) has no closed form here: every member takes it
  * as a parameter `s` with `s > 0`.  numpy's `np.round` rounds to the nearest
  * integer and resolves ties to the even neighbour; `RoundHalfEven` models it. */
module GkpRounding {

  /** `np.round` on a float: the nearest integer, ties to the even one. */
  function RoundHalfEven(x: real): (r: int)
    ensures -0.5 <= x - r as real <= 0.5
    ensures (x - r as real == 0.5 || x - r as real == -0.5) ==> r % 2 == 0
  {
    var f := x.Floor;
    var d := x - f as real;
    if d < 0.5 then f
    else if d > 0.5 then f + 1
    else if f % 2 == 0 then f
    else f + 1
  }

  /** `x` sits exactly half-way between two integers. */
  predicate IsTie(x: real) {
    x - x.Floor as real == 0.5
  }

  /** The two clauses of RoundHalfEven's contract pin the result down:
    * any integer within 1/2 of x that is even on a tie is the rounded value. */
  lemma RoundHalfEvenUnique(x: real, n: int)
    requires -0.5 <= x - n as real <= 0.5
    requires (x - n as real == 0.5 || x - n as real == -0.5) ==> n % 2 == 0
    ensures n == RoundHalfEven(x)
  {
    // two distinct integers within 1/2 of x would both lie at distance exactly 1/2,
    // one on each side, and one of them would be odd
  }

  /** Rounding commutes with integer translation, except on a tie moved by an odd amount. */
  lemma {:induction false} RoundShift(x: real, k: int)
    requires !IsTie(x) || k % 2 == 0
    ensures RoundHalfEven(x + k as real) == RoundHalfEven(x) + k
  {
    var r := RoundHalfEven(x);
    assert (x + k as real).Floor == x.Floor + k;
    RoundHalfEvenUnique(x + k as real, r + k);
  }

  /** Dividing a lattice translate by the spacing gives the translated quotient. */
  lemma DivShift(m: real, s: real, k: int)
    requires s > 0.0
    ensures (m + k as real * s) / s == m / s + k as real
  {
    assert (m / s + k as real) * s == m + k as real * s;
  }

  /** A quotient within 1/2 of n puts m within s/2 of n cells. */
  lemma OffsetBound(m: real, s: real, n: int)
    requires s > 0.0
    requires -0.5 <= m / s - n as real <= 0.5
    ensures -s / 2.0 <= m - s * n as real <= s / 2.0
  {
    var d := m / s - n as real;
    assert m == (m / s) * s;
    assert m - s * n as real == d * s;
    if d >= 0.0 {
      assert d * s <= 0.5 * s;
    } else {
      assert d * s >= -0.5 * s;
    }
  }

  /** x is an integer multiple of the lattice spacing s. */
  predicate OnLattice(x: real, s: real)
    requires s > 0.0
  {
    (x / s).Floor as real == x / s
  }

  /** An integer number of cells is on the lattice. */
  lemma CellsOnLattice(k: int, s: real)
    requires s > 0.0
    ensures OnLattice(k as real * s, s)
  {
    assert (k as real * s) / s == k as real;
  }

  /** The GKP syndrome of a measured quadrature mean m:
    * m - s * round(m / s), the offset of m from its nearest lattice point. */
  function Residual(m: real, s: real): (r: real)
    requires s > 0.0
    ensures -s / 2.0 <= r <= s / 2.0
    ensures OnLattice(m - r, s)
  {
    var n := RoundHalfEven(m / s);
    OffsetBound(m, s, n);
    assert m - (m - s * n as real) == n as real * s;
    CellsOnLattice(n, s);
    m - s * n as real
  }

  /** Big-envelope correction of the qutip scripts: -round(m / s) * s. */
  function BigCorrection(m: real, s: real): (c: real)
    requires s > 0.0
    ensures m + c == Residual(m, s)
    ensures OnLattice(c, s)
    ensures -s / 2.0 <= m + c <= s / 2.0
  {
    var k := -RoundHalfEven(m / s);
    CellsOnLattice(k, s);
    k as real * s
  }

  /** Inside the half-cell around 0 (boundaries included, ties round to 0)
    * the syndrome is the mean itself and the big-envelope correction is 0. */
  lemma {:induction false} ResidualInsideCell(m: real, s: real)
    requires s > 0.0
    requires -s / 2.0 <= m <= s / 2.0
    ensures Residual(m, s) == m
    ensures BigCorrection(m, s) == 0.0
  {
    var q := m / s;
    assert m == q * s;
    NonNegativeFactor(0.5 - q, s);
    NonNegativeFactor(q + 0.5, s);
    RoundHalfEvenUnique(q, 0);
  }

  /** A product with a positive factor is non-negative only if the other factor is. */
  lemma NonNegativeFactor(d: real, s: real)
    requires s > 0.0 && d * s >= 0.0
    ensures d >= 0.0
  {
  }

  /** Shifting a mean by an even number of lattice cells never changes its syndrome. */
  lemma {:induction false} ResidualShiftEven(m: real, s: real, j: int)
    requires s > 0.0
    ensures Residual(m + (2 * j) as real * s, s) == Residual(m, s)
  {
    DivShift(m, s, 2 * j);
    RoundShift(m / s, 2 * j);
    var n := RoundHalfEven(m / s);
    assert RoundHalfEven((m + (2 * j) as real * s) / s) == n + 2 * j;
    assert s * (n + 2 * j) as real == s * n as real + (2 * j) as real * s;
  }

  /** Shifting by any number of cells keeps the syndrome unless m / s is a tie. */
  lemma {:induction false} ResidualShift(m: real, s: real, k: int)
    requires s > 0.0
    requires !IsTie(m / s)
    ensures Residual(m + k as real * s, s) == Residual(m, s)
    ensures BigCorrection(m + k as real * s, s) == BigCorrection(m, s) - k as real * s
  {
    DivShift(m, s, k);
    RoundShift(m / s, k);
    var n := RoundHalfEven(m / s);
    assert RoundHalfEven((m + k as real * s) / s) == n + k;
    assert s * (n + k) as real == s * n as real + k as real * s;
  }

  /** On a tie an odd shift flips the syndrome from +s/2 to -s/2: numpy's
    * half-to-even rule breaks exact lattice invariance at the cell boundary. */
  lemma ResidualTieFlip(s: real)
    requires s > 0.0
    ensures Residual(s / 2.0, s) == s / 2.0
    ensures Residual(s / 2.0 + s, s) == -s / 2.0
  {
    ResidualInsideCell(s / 2.0, s);
    assert (s / 2.0 + s) / s == 1.5;
    RoundHalfEvenUnique(1.5, 2);
  }

  /** Damped "small-envelope" step of the full-correction script, as written:
    * small = m - big, which ADDS round(m / s) * s back, then -0.8 * small. */
  function SmallResidualAsWritten(m: real, s: real): (small: real)
    requires s > 0.0
    ensures small == m + (RoundHalfEven(m / s) as real) * s
    ensures small == 2.0 * m - Residual(m, s)
  {
    m - BigCorrection(m, s)
  }

  /** The residual the small-envelope step evidently means: m + big, the offset
    * from the nearest lattice point, which stays inside the envelope. */
  function SmallResidualIntended(m: real, s: real): (small: real)
    requires s > 0.0
    ensures -s / 2.0 <= small <= s / 2.0
    ensures OnLattice(m - small, s)
  {
    m + BigCorrection(m, s)
  }

  /** With m one full cell away from 0 the as-written small residual is 2s,
    * far outside the envelope [-s/2, s/2]; the intended one is 0. */
  lemma SmallResidualOutsideEnvelope(s: real)
    requires s > 0.0
    ensures SmallResidualAsWritten(s, s) == 2.0 * s
    ensures SmallResidualAsWritten(s, s) > s / 2.0
    ensures SmallResidualIntended(s, s) == 0.0
  {
    assert s / s == 1.0;
    RoundHalfEvenUnique(1.0, 1);
  }

  /** Total per-quadrature correction of the full-correction script (as written):
    * big + (-0.8 * small). */
  function DampedTotalAsWritten(m: real, s: real): (c: real)
    requires s > 0.0
    ensures -s / 2.0 <= m <= s / 2.0 ==> c == -0.8 * m
  {
    assert -s / 2.0 <= m <= s / 2.0 ==> BigCorrection(m, s) == 0.0 && Residual(m, s) == m by {
      if -s / 2.0 <= m <= s / 2.0 { ResidualInsideCell(m, s); }
    }
    BigCorrection(m, s) + -0.8 * SmallResidualAsWritten(m, s)
  }

  /** The corrected total: moves m to a fifth of its residual, so the corrected
    * mean lies within s/10 of the origin of its cell. */
  function DampedTotalIntended(m: real, s: real): (c: real)
    requires s > 0.0
    ensures m + c == 0.2 * Residual(m, s)
    ensures -s / 10.0 <= m + c <= s / 10.0
    ensures -s / 2.0 <= m <= s / 2.0 ==> c == -0.8 * m
  {
    assert -s / 2.0 <= m <= s / 2.0 ==> BigCorrection(m, s) == 0.0 && Residual(m, s) == m by {
      if -s / 2.0 <= m <= s / 2.0 { ResidualInsideCell(m, s); }
    }
    BigCorrection(m, s) + -0.8 * SmallResidualIntended(m, s)
  }
}
