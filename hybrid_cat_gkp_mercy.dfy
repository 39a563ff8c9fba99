/** The single-mode hybrid script with sequential correction: the parity step
  * may rotate the noisy state in place, and the GKP syndromes are then read
  * from that updated state (unlike the multi-mode scripts, which read every
  * syndrome from one noisy snapshot). */
module HybridCatGkpMercy {
  import opened BosonicState
  import opened GkpRounding
  import opened GkpLattice
  import CatCodeQecSim

  const Alpha: real := 2.0
  const Delta: real := 0.25
  const K: nat := 15
  const Gamma: real := 0.3
  const Shift: Complex := Complex(0.2, 0.15)

  /** The parity step: the state is rotated by π iff p_even < 0.5; at exactly 0.5 nothing happens. */
  function ParityStep(noisy: State, pEven: real): (next: State)
    ensures pEven < 0.5 ==> next == Applied([PhaseGatePi], noisy)
    ensures pEven >= 0.5 ==> next == noisy
  {
    if pEven < 0.5 then Applied([PhaseGatePi], noisy) else noisy
  }

  /** The script body.  The noise is the unnormalised sum of the lossy state and its
    * displaced copy; the syndromes come from the state after the parity step, and the
    * pre-correction fidelity is taken against that updated state too. */
  method Run(s: real, pEvenOf: State -> real, mean: (State, Quadrature) -> real, fidelity: (State, State) -> real)
    returns (ideal: State, noisy: State, corrected: State, gain: real)
    requires s > 0.0
    ensures ideal == Unit(Plus(CatCodeQecSim.CatPlus(Alpha), GkpZero(K, s, Complex(Delta / 2.0, 0.0))))
    ensures var lossy := Evolved(ideal, Loss(Gamma, 1.0, 50));
      noisy == ParityStep(Plus(lossy, Applied([Displace(Shift)], lossy)), pEvenOf(Plus(lossy, Applied([Displace(Shift)], lossy))))
    ensures corrected == Applied([Displace(Complex(BigCorrection(mean(noisy, Position), s), BigCorrection(mean(noisy, Momentum), s)))], noisy)
    ensures gain == fidelity(corrected, ideal) - fidelity(noisy, ideal)
  {
    ideal := HybridCatGkp(Alpha, K, s, Delta);
    var lossy := Evolved(ideal, Loss(Gamma, 1.0, 50));
    noisy := Plus(lossy, Applied([Displace(Shift)], lossy));
    var pEven := pEvenOf(noisy);
    if pEven < 0.5 {
      noisy := Applied([PhaseGatePi], noisy);
    }
    var syndromeQ := mean(noisy, Position);
    var syndromeP := mean(noisy, Momentum);
    var corr := Complex(BigCorrection(syndromeQ, s), BigCorrection(syndromeP, s));
    corrected := Applied([Displace(corr)], noisy);
    gain := fidelity(corrected, ideal) - fidelity(noisy, ideal);
  }
}
