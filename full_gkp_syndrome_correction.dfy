/** The qutip square-GKP script: lattice encoding with the squeeze argument
  * Δ/2 + iπ/4, a fixed shift error, homodyne syndromes, and the big-envelope
  * rounding correction. π is written s * s, since s stands for sqrt(π). */
module FullGkpSyndromeCorrection {
  import opened BosonicState
  import opened GkpRounding
  import opened GkpLattice

  const Delta: real := 0.25
  const K: nat := 15
  const IdealDelta: real := 0.01
  const IdealK: nat := 20
  const ShiftP: real := 0.3
  const ShiftQ: real := 0.18

  /** The squeeze argument Δ/2 + iπ/4 of every lattice term. */
  function Squeezing(delta: real, s: real): Complex {
    Complex(delta / 2.0, s * s / 4.0)
  }

  /** `gkp_logical_zero(Delta, K, N)`. */
  method GkpLogicalZero(delta: real, k: nat, s: real) returns (psi: State)
    ensures psi == GkpZero(k, s, Squeezing(delta, s))
    ensures |Summands(psi.inner)| == 2 * k + 2
  {
    psi := EncodeGkp(k, s, Squeezing(delta, s));
  }

  /** `apply_shift_error`: one displacement by shift_p + i * shift_q. */
  function ApplyShiftError(state: State, shiftP: real, shiftQ: real): (shifted: State)
    ensures shifted.Applied? && shifted.target == state
    ensures OnlyAt(shifted.op, 0, Displace(Complex(shiftP, shiftQ)))
  {
    Applied([Displace(Complex(shiftP, shiftQ))], state)
  }

  /** `measure_syndrome`: the tag "p" reads momentum; every other tag reads position. */
  function MeasureSyndrome(tag: string): (q: Quadrature)
    ensures q == Momentum <==> tag == "p"
    ensures q == Position <==> tag != "p"
  {
    if tag == "p" then Momentum else Position
  }

  /** `correct_shift`: exactly one displacement, whose real part moves the momentum
    * syndrome and whose imaginary part moves the position syndrome, each onto the
    * nearest lattice point by a whole number of cells. */
  function CorrectShift(state: State, syndromeP: real, syndromeQ: real, s: real): (corrected: State)
    requires s > 0.0
    ensures corrected.Applied? && corrected.target == state && |corrected.op| == 1 && corrected.op[0].Displace?
    ensures OnLattice(corrected.op[0].alpha.re, s) && OnLattice(corrected.op[0].alpha.im, s)
    ensures -s / 2.0 <= syndromeP + corrected.op[0].alpha.re <= s / 2.0
    ensures -s / 2.0 <= syndromeQ + corrected.op[0].alpha.im <= s / 2.0
  {
    var corrP := BigCorrection(syndromeP, s);
    var corrQ := BigCorrection(syndromeQ, s);
    Applied([Displace(Complex(corrP, corrQ))], state)
  }

  /** Syndromes inside the half-cell need no correction: the displacement is 0. */
  lemma {:induction false} CorrectShiftIdleInsideCell(state: State, syndromeP: real, syndromeQ: real, s: real)
    requires s > 0.0
    requires -s / 2.0 <= syndromeP <= s / 2.0 && -s / 2.0 <= syndromeQ <= s / 2.0
    ensures CorrectShift(state, syndromeP, syndromeQ, s) == Applied([Displace(Complex(0.0, 0.0))], state)
  {
    ResidualInsideCell(syndromeP, s);
    ResidualInsideCell(syndromeQ, s);
  }

  /** Shifting the syndromes by whole cells shifts the correction by the opposite
    * number of cells (off the ties of numpy's rounding). */
  lemma {:induction false} CorrectShiftFollowsLattice(state: State, syndromeP: real, syndromeQ: real, s: real, j: int, k: int)
    requires s > 0.0 && !IsTie(syndromeP / s) && !IsTie(syndromeQ / s)
    ensures var c := CorrectShift(state, syndromeP, syndromeQ, s).op[0].alpha;
      CorrectShift(state, syndromeP + j as real * s, syndromeQ + k as real * s, s).op[0].alpha
        == Complex(c.re - j as real * s, c.im - k as real * s)
  {
    ResidualShift(syndromeP, s, j);
    ResidualShift(syndromeQ, s, k);
  }

  /** The script body.  `mean(st, quad)` stands for `qt.expect` of that quadrature
    * and `fidelity` for `qt.fidelity`. */
  method Run(s: real, mean: (State, Quadrature) -> real, fidelity: (State, State) -> real)
    returns (ideal: State, state: State, noisy: State, corrected: State, gain: real)
    requires s > 0.0
    ensures ideal == GkpZero(IdealK, s, Squeezing(IdealDelta, s))
    ensures state == GkpZero(K, s, Squeezing(Delta, s))
    ensures noisy == ApplyShiftError(state, ShiftP, ShiftQ)
    ensures corrected == CorrectShift(noisy, mean(noisy, Momentum), mean(noisy, Position), s)
    ensures gain == fidelity(corrected, ideal) - fidelity(noisy, ideal)
  {
    ideal := GkpLogicalZero(IdealDelta, IdealK, s);
    state := GkpLogicalZero(Delta, K, s);
    noisy := ApplyShiftError(state, ShiftP, ShiftQ);
    var syndromeP := mean(noisy, MeasureSyndrome("p"));
    var syndromeQ := mean(noisy, MeasureSyndrome("q"));
    corrected := CorrectShift(noisy, syndromeP, syndromeQ, s);
    var fidPre := fidelity(noisy, ideal);
    var fidPost := fidelity(corrected, ideal);
    gain := fidPost - fidPre;
  }
}
