/** The GKP script with a loss channel: encode (squeeze argument Δ/2), shift
  * once, evolve under loss, read both quadratures from the evolved state and
  * apply the big-envelope correction. */
module GkpLossSyndromeCorrection {
  import opened BosonicState
  import opened GkpRounding
  import opened GkpLattice
  import FullGkpSyndromeCorrection

  const Delta: real := 0.3
  const K: nat := 15
  const IdealDelta: real := 0.01
  const IdealK: nat := 20
  const Gamma: real := 0.2
  const ShiftP: real := 0.2
  const ShiftQ: real := 0.15

  /** `gkp_logical_zero(Delta, K, N)` of this script: squeeze argument Δ/2, no phase. */
  method GkpLogicalZero(delta: real, k: nat, s: real) returns (psi: State)
    ensures psi == GkpZero(k, s, Complex(delta / 2.0, 0.0))
    ensures |Summands(psi.inner)| == 2 * k + 2
  {
    psi := EncodeGkp(k, s, Complex(delta / 2.0, 0.0));
  }

  /** The reference and the encoded state differ in both squeezing and lattice size. */
  lemma IdealDiffersFromEncoded(s: real)
    ensures GkpZero(IdealK, s, Complex(IdealDelta / 2.0, 0.0)) != GkpZero(K, s, Complex(Delta / 2.0, 0.0))
  {
    LatticeSummands(IdealK, s, Complex(IdealDelta / 2.0, 0.0), 2 * IdealK + 1);
    LatticeSummands(K, s, Complex(Delta / 2.0, 0.0), 2 * K + 1);
  }

  /** The script body: the shift is applied once, before the loss; both syndromes
    * are read from the evolved state; momentum drives the real part of the
    * correction and position the imaginary part. */
  method Run(s: real, mean: (State, Quadrature) -> real, fidelity: (State, State) -> real)
    returns (ideal: State, state0: State, noisy: State, corrected: State, gain: real)
    requires s > 0.0
    ensures ideal == GkpZero(IdealK, s, Complex(IdealDelta / 2.0, 0.0))
    ensures state0 == GkpZero(K, s, Complex(Delta / 2.0, 0.0))
    ensures noisy == Evolved(Applied([Displace(Complex(ShiftP, ShiftQ))], state0), Loss(Gamma, 1.0, 50))
    ensures corrected == Applied([Displace(Complex(BigCorrection(mean(noisy, Momentum), s),
                                                   BigCorrection(mean(noisy, Position), s)))], noisy)
    ensures corrected == FullGkpSyndromeCorrection.CorrectShift(noisy, mean(noisy, Momentum), mean(noisy, Position), s)
    ensures gain == fidelity(corrected, ideal) - fidelity(noisy, ideal)
  {
    ideal := GkpLogicalZero(IdealDelta, IdealK, s);
    state0 := GkpLogicalZero(Delta, K, s);
    var stateShifted := Applied([Displace(Complex(ShiftP, ShiftQ))], state0);
    noisy := Evolved(stateShifted, Loss(Gamma, 1.0, 50));
    var syndromeQ := mean(noisy, Position);
    var syndromeP := mean(noisy, Momentum);
    var corrQ := BigCorrection(syndromeQ, s);
    var corrP := BigCorrection(syndromeP, s);
    corrected := Applied([Displace(Complex(corrP, corrQ))], noisy);
    gain := fidelity(corrected, ideal) - fidelity(noisy, ideal);
  }
}
