/** Five entangled hybrid modes (lattice first, then cat), shift noise laid out
  * two draws per mode, loss, and per-mode correction with the GKP displacement
  * BEFORE the parity rotation. */
module HybridGkpCatCouncil {
  import opened BosonicState
  import opened GkpLattice
  import opened ModeSchedules
  import CatCodeQecSim

  const Delta: real := 0.25
  const AlphaCat: real := 2.0
  const Modes: nat := 5
  const K: nat := 15
  const Gamma: real := 0.25
  const ShiftAmp: real := 0.2

  /** `hybrid_gkp_cat_zero`: (gkp + cat).unit(), lattice k = -15 .. 15. */
  method HybridGkpCatZero(s: real) returns (h: State)
    ensures h == Unit(Plus(GkpZero(K, s, Complex(Delta / 2.0, 0.0)), CatCodeQecSim.CatPlus(AlphaCat)))
  {
    var gkp := EncodeGkp(K, s, Complex(Delta / 2.0, 0.0));
    var cat := CatCodeQecSim.CatPlus(AlphaCat);
    h := Unit(Plus(gkp, cat));
  }

  /** The script body; `shifts` are the ten uniform draws in [-0.2, 0.2). */
  method Run(s: real, shifts: seq<real>, probe: (State, nat) -> Reading, fidelity: (State, State) -> real)
    returns (ideal: State, noisy: State, corrected: State, gain: real)
    requires s > 0.0 && |shifts| == 2 * Modes && DrawsIn(shifts, ShiftAmp)
    ensures ideal == Unit(ApplyAll(Tensor(seq(Modes, _ => Unit(Plus(GkpZero(K, s, Complex(Delta / 2.0, 0.0)), CatCodeQecSim.CatPlus(AlphaCat))))),
                                   ChainSchedule(Modes, s * s / 4.0)))
    ensures noisy == Evolved(ApplyAll(ideal, ShiftSchedule(shifts, Modes)), Loss(Gamma, 1.0, 50))
    ensures DisplacementsWithin(ShiftSchedule(shifts, Modes), ShiftAmp)
    ensures corrected == ApplyAll(noisy, GkpThenParitySchedule(Snapshot(noisy, Modes, probe), Modes, s))
    ensures gain == fidelity(corrected, ideal) - fidelity(noisy, ideal)
  {
    ShiftScheduleWithin(shifts, Modes, ShiftAmp);
    var mode := HybridGkpCatZero(s);
    var state := EntangleChain(seq(Modes, _ => mode), s * s / 4.0);
    ideal := state;
    noisy := ApplyShifts(state, shifts, Modes);
    noisy := Evolved(noisy, Loss(Gamma, 1.0, 50));
    corrected := CorrectGkpThenParity(noisy, Modes, probe, s);
    gain := fidelity(corrected, ideal) - fidelity(noisy, ideal);
  }
}
