/** The GKP script with big- plus small-envelope correction.  The reference and
  * the encoded state are built by the same call, so the reference is the
  * noiseless code state.  The small step is modelled as written and as
  * evidently intended; the two quadrature rules live in GkpRounding. */
module GkpFullCorrection {
  import opened BosonicState
  import opened GkpRounding
  import opened GkpLattice

  const Delta: real := 0.25
  const K: nat := 18
  const Gamma: real := 0.2
  const ShiftP: real := 0.25
  const ShiftQ: real := 0.15

  /** With K = 18 the normalised lattice holds the vacuum plus 37 terms. */
  lemma LatticeSize(s: real)
    ensures |Summands(GkpZero(K, s, Complex(Delta / 2.0, 0.0)).inner)| == 38
    ensures Summands(GkpZero(K, s, Complex(Delta / 2.0, 0.0)).inner)[0] == Basis(0)
  {
    LatticeSummands(K, s, Complex(Delta / 2.0, 0.0), 2 * K + 1);
  }

  /** The correction argument of lines 49-58 as written:
    * (big_p + small_corr_p) + i (big_q + small_corr_q). */
  function CorrectionAsWritten(syndromeQ: real, syndromeP: real, s: real): (corr: Complex)
    requires s > 0.0
    ensures corr == Complex(DampedTotalAsWritten(syndromeP, s), DampedTotalAsWritten(syndromeQ, s))
    ensures -s / 2.0 <= syndromeP <= s / 2.0 && -s / 2.0 <= syndromeQ <= s / 2.0 ==>
      corr == Complex(-0.8 * syndromeP, -0.8 * syndromeQ)
  {
    var bigCorrQ := BigCorrection(syndromeQ, s);
    var bigCorrP := BigCorrection(syndromeP, s);
    var smallQ := syndromeQ - bigCorrQ;
    var smallP := syndromeP - bigCorrP;
    var smallCorrQ := -smallQ * 0.8;
    var smallCorrP := -smallP * 0.8;
    Complex(bigCorrP + smallCorrP, bigCorrQ + smallCorrQ)
  }

  /** The corrected rule: each syndrome plus the argument part the script pairs
    * with it (momentum with the real part, position with the imaginary part)
    * lies within s/10 of the cell origin. */
  function CorrectionIntended(syndromeQ: real, syndromeP: real, s: real): (corr: Complex)
    requires s > 0.0
    ensures -s / 10.0 <= syndromeP + corr.re <= s / 10.0
    ensures -s / 10.0 <= syndromeQ + corr.im <= s / 10.0
    ensures -s / 2.0 <= syndromeP <= s / 2.0 && -s / 2.0 <= syndromeQ <= s / 2.0 ==>
      corr == Complex(-0.8 * syndromeP, -0.8 * syndromeQ)
  {
    Complex(DampedTotalIntended(syndromeP, s), DampedTotalIntended(syndromeQ, s))
  }

  /** A momentum syndrome one cell above the origin: as written, the syndrome
    * plus its paired real part is -1.6 s, outside the half cell, while under the
    * intended rule it is 0. */
  lemma AsWrittenLeavesEnvelope(s: real)
    requires s > 0.0
    ensures s + CorrectionAsWritten(0.0, s, s).re == -1.6 * s
    ensures s + CorrectionAsWritten(0.0, s, s).re < -s / 2.0
    ensures s + CorrectionIntended(0.0, s, s).re == 0.0
  {
    SmallResidualOutsideEnvelope(s);
  }

  /** The first part of the script: the reference and the code state come
    * from the same encoder; the code state is shifted by 0.25 + 0.15i and then
    * loses photons at rate 0.2 over [0, 1] in 50 samples. */
  method Prepare(s: real) returns (ideal: State, noisy: State)
    ensures ideal == GkpZero(K, s, Complex(Delta / 2.0, 0.0))
    ensures noisy == Evolved(Applied([Displace(Complex(ShiftP, ShiftQ))], ideal), Loss(Gamma, 1.0, 50))
  {
    ideal := EncodeGkp(K, s, Complex(Delta / 2.0, 0.0));
    var state := EncodeGkp(K, s, Complex(Delta / 2.0, 0.0));
    state := Applied([Displace(Complex(ShiftP, ShiftQ))], state);
    noisy := Evolved(state, Loss(Gamma, 1.0, 50));
  }

  /** The script body as written: the syndromes are the position and momentum
    * means of the noisy state, and the displacement is the as-written
    * big- plus small-envelope argument. */
  method Run(s: real, mean: (State, Quadrature) -> real, fidelity: (State, State) -> real)
    returns (ideal: State, noisy: State, corrected: State, gain: real)
    requires s > 0.0
    ensures ideal == GkpZero(K, s, Complex(Delta / 2.0, 0.0))
    ensures noisy == Evolved(Applied([Displace(Complex(ShiftP, ShiftQ))], ideal), Loss(Gamma, 1.0, 50))
    ensures corrected == Applied([Displace(CorrectionAsWritten(mean(noisy, Position), mean(noisy, Momentum), s))], noisy)
    ensures gain == fidelity(corrected, ideal) - fidelity(noisy, ideal)
  {
    ideal, noisy := Prepare(s);
    var syndromeQ := mean(noisy, Position);
    var syndromeP := mean(noisy, Momentum);
    corrected := Applied([Displace(CorrectionAsWritten(syndromeQ, syndromeP, s))], noisy);
    gain := fidelity(corrected, ideal) - fidelity(noisy, ideal);
  }

  /** The script with the small-envelope step corrected: each noisy mean plus
    * the argument part paired with it lies within s/10 of the cell origin. */
  method RunIntended(s: real, mean: (State, Quadrature) -> real, fidelity: (State, State) -> real)
    returns (ideal: State, noisy: State, corrected: State, gain: real)
    requires s > 0.0
    ensures ideal == GkpZero(K, s, Complex(Delta / 2.0, 0.0))
    ensures noisy == Evolved(Applied([Displace(Complex(ShiftP, ShiftQ))], ideal), Loss(Gamma, 1.0, 50))
    ensures var corr := CorrectionIntended(mean(noisy, Position), mean(noisy, Momentum), s);
      && corrected == Applied([Displace(corr)], noisy)
      && -s / 10.0 <= mean(noisy, Momentum) + corr.re <= s / 10.0
      && -s / 10.0 <= mean(noisy, Position) + corr.im <= s / 10.0
    ensures gain == fidelity(corrected, ideal) - fidelity(noisy, ideal)
  {
    ideal, noisy := Prepare(s);
    var syndromeQ := mean(noisy, Position);
    var syndromeP := mean(noisy, Momentum);
    corrected := Applied([Displace(CorrectionIntended(syndromeQ, syndromeP, s))], noisy);
    gain := fidelity(corrected, ideal) - fidelity(noisy, ideal);
  }
}
