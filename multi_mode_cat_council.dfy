/** Five entangled cat modes: an adjacent beam-splitter chain, loss on every
  * mode, and a per-mode parity rotation decided from the noisy snapshot.
  * The mixing angle π/4 is written s * s / 4, since s stands for sqrt(π). */
module MultiModeCatCouncil {
  import opened BosonicState
  import opened ModeSchedules
  import CatCodeQecSim

  const Alpha: real := 2.0
  const Modes: nat := 5
  const Gamma: real := 0.2

  /** The script body.  The reference is the entangled state itself, taken before
    * any noise; the noise is loss alone; every parity comes from `noisy`. */
  method Run(s: real, probe: (State, nat) -> Reading, fidelity: (State, State) -> real)
    returns (ideal: State, noisy: State, corrected: State, gain: real)
    ensures ideal == Unit(ApplyAll(Tensor(seq(Modes, _ => CatCodeQecSim.CatPlus(Alpha))), ChainSchedule(Modes, s * s / 4.0)))
    ensures noisy == Evolved(ideal, Loss(Gamma, 1.0, 50))
    ensures corrected == ApplyAll(noisy, ParityOnlySchedule(Snapshot(noisy, Modes, probe), Modes))
    ensures gain == fidelity(corrected, ideal) - fidelity(noisy, ideal)
  {
    var state := EntangleChain(seq(Modes, _ => CatCodeQecSim.CatPlus(Alpha)), s * s / 4.0);
    ideal := state;
    noisy := Evolved(state, Loss(Gamma, 1.0, 50));
    corrected := CorrectParityOnly(noisy, Modes, probe);
    gain := fidelity(corrected, ideal) - fidelity(noisy, ideal);
  }
}
