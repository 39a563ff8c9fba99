/** Five entangled hybrid modes (cat first, then lattice), shift noise in
  * [-0.25, 0.25) laid out two draws per mode, loss at rate 0.35, and per-mode
  * correction with the parity rotation BEFORE the GKP displacement. */
module HybridGkpCatMultiMode {
  import opened BosonicState
  import opened GkpLattice
  import opened ModeSchedules
  import CatCodeQecSim

  const Alpha: real := 2.0
  const Delta: real := 0.25
  const Modes: nat := 5
  const K: nat := 15
  const Gamma: real := 0.35
  const ShiftAmp: real := 0.25

  /** The script body; `shifts` are the ten uniform draws. */
  method Run(s: real, shifts: seq<real>, probe: (State, nat) -> Reading, fidelity: (State, State) -> real)
    returns (ideal: State, noisy: State, corrected: State, gain: real)
    requires s > 0.0 && |shifts| == 2 * Modes && DrawsIn(shifts, ShiftAmp)
    ensures ideal == Unit(ApplyAll(Tensor(seq(Modes, _ => Unit(Plus(CatCodeQecSim.CatPlus(Alpha), GkpZero(K, s, Complex(Delta / 2.0, 0.0)))))),
                                   ChainSchedule(Modes, s * s / 4.0)))
    ensures noisy == Evolved(ApplyAll(ideal, ShiftSchedule(shifts, Modes)), Loss(Gamma, 1.0, 50))
    ensures DisplacementsWithin(ShiftSchedule(shifts, Modes), ShiftAmp)
    ensures corrected == ApplyAll(noisy, ParityThenGkpSchedule(Snapshot(noisy, Modes, probe), Modes, s))
    ensures gain == fidelity(corrected, ideal) - fidelity(noisy, ideal)
  {
    ShiftScheduleWithin(shifts, Modes, ShiftAmp);
    var mode := HybridCatGkp(Alpha, K, s, Delta);
    var state := EntangleChain(seq(Modes, _ => mode), s * s / 4.0);
    ideal := state;
    noisy := ApplyShifts(state, shifts, Modes);
    noisy := Evolved(noisy, Loss(Gamma, 1.0, 50));
    corrected := CorrectParityThenGkp(noisy, Modes, probe, s);
    gain := fidelity(corrected, ideal) - fidelity(noisy, ideal);
  }
}
