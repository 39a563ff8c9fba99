/** The Strawberry Fields helpers: the shift error, the GKP correction that
  * returns its syndrome pair, and the cat correction that samples a parity.
  * The quadrature means of a state (`x_mean`, `p_mean`) and the even-parity
  * probability are library results and enter as reals; the uniform draw of
  * `np.random.rand()` enters as `draw`. */
module BosonicQec {
  import opened BosonicState
  import opened GkpRounding

  /** `apply_shift_error`: one displacement with argument shift_p + i * shift_q on the single mode. */
  function ApplyShiftError(state: State, shiftP: real, shiftQ: real): (shifted: State)
    ensures shifted.Applied? && shifted.target == state
    ensures OnlyAt(shifted.op, 0, Displace(Complex(shiftP, shiftQ))) && |shifted.op| == 1
  {
    Applied([Displace(Complex(shiftP, shiftQ))], state)
  }

  datatype GkpOutcome = GkpOutcome(corrected: State, syndromeP: real, syndromeQ: real)

  /** `correct_gkp`.  The variable called p holds the position mean and q the momentum
    * mean; each syndrome is the offset of its mean from the nearest lattice point,
    * and the correcting displacement is the negated syndrome pair. */
  function CorrectGkp(state: State, xMean: real, pMean: real, s: real): (out: GkpOutcome)
    requires s > 0.0
    ensures -s / 2.0 <= out.syndromeP <= s / 2.0 && -s / 2.0 <= out.syndromeQ <= s / 2.0
    ensures OnLattice(xMean - out.syndromeP, s) && OnLattice(pMean - out.syndromeQ, s)
    ensures out.corrected == Applied([Displace(Complex(-out.syndromeP, -out.syndromeQ))], state)
  {
    var synP := Residual(xMean, s);
    var synQ := Residual(pMean, s);
    GkpOutcome(Applied([Displace(Complex(-synP, -synQ))], state), synP, synQ)
  }

  /** Means inside the half-cell around 0 are their own syndromes, so the
    * correction displaces by exactly minus the measured means. */
  lemma {:induction false} CorrectGkpInsideCell(state: State, xMean: real, pMean: real, s: real)
    requires s > 0.0
    requires -s / 2.0 <= xMean <= s / 2.0 && -s / 2.0 <= pMean <= s / 2.0
    ensures CorrectGkp(state, xMean, pMean, s).syndromeP == xMean
    ensures CorrectGkp(state, xMean, pMean, s).syndromeQ == pMean
  {
    ResidualInsideCell(xMean, s);
    ResidualInsideCell(pMean, s);
  }

  /** Moving both means by whole lattice cells leaves the returned syndrome pair and
    * the correcting displacement unchanged (off the half-integer ties of numpy's rounding). */
  lemma {:induction false} CorrectGkpLatticeInvariant(state: State, xMean: real, pMean: real, s: real, j: int, k: int)
    requires s > 0.0 && !IsTie(xMean / s) && !IsTie(pMean / s)
    ensures CorrectGkp(state, xMean + j as real * s, pMean + k as real * s, s) == CorrectGkp(state, xMean, pMean, s)
  {
    ResidualShift(xMean, s, j);
    ResidualShift(pMean, s, k);
  }

  datatype CatOutcome = CatOutcome(state: State, parity: nat)

  /** `correct_cat`: samples parity 0 exactly when the draw is below the even-parity
    * probability; the recovery program is empty, so the state comes back unchanged. */
  function CorrectCat(state: State, pEven: real, draw: real): (out: CatOutcome)
    ensures out.state == state
    ensures out.parity <= 1
    ensures out.parity == 0 <==> draw < pEven
  {
    var parity := if draw < pEven then 0 else 1;
    CatOutcome(state, parity)
  }
}
