/** Thirteen entangled hybrid modes mixed by a full beam-splitter mesh (angle
  * π/6, written s * s / 6), shift noise in [-0.3, 0.3), loss at rate 0.35, and
  * per-mode correction with the parity rotation before the GKP displacement. */
module ThirteenModeCouncilMercyScale {
  import opened BosonicState
  import opened GkpLattice
  import opened ModeSchedules
  import CatCodeQecSim

  const Alpha: real := 2.0
  const Delta: real := 0.25
  const Modes: nat := 13
  const K: nat := 12
  const Gamma: real := 0.35
  const ShiftAmp: real := 0.3

  /** The mesh over 13 modes has 13 * 12 / 2 = 78 mixing steps, each pair i < j once. */
  lemma MeshSize()
    ensures |MeshPairs(Modes, Modes)| == 78
    ensures forall i, j :: 0 <= i < j < Modes ==> (i, j) in MeshPairs(Modes, Modes)
  {
    FullMeshCount(Modes);
    forall i, j | 0 <= i < j < Modes
      ensures (i, j) in MeshPairs(Modes, Modes)
    {
      MeshPairsComplete(Modes, Modes, i, j);
    }
  }

  /** The script body; `shifts` are the 26 uniform draws.  One normalisation
    * follows the whole mesh. */
  method Run(s: real, shifts: seq<real>, probe: (State, nat) -> Reading, fidelity: (State, State) -> real)
    returns (ideal: State, noisy: State, corrected: State, gain: real)
    requires s > 0.0 && |shifts| == 2 * Modes && DrawsIn(shifts, ShiftAmp)
    ensures ideal == Unit(ApplyAll(Tensor(seq(Modes, _ => Unit(Plus(CatCodeQecSim.CatPlus(Alpha), GkpZero(K, s, Complex(Delta / 2.0, 0.0)))))),
                                   PairGates(MeshPairs(Modes, Modes), s * s / 6.0, Modes)))
    ensures noisy == Evolved(ApplyAll(ideal, ShiftSchedule(shifts, Modes)), Loss(Gamma, 1.0, 50))
    ensures DisplacementsWithin(ShiftSchedule(shifts, Modes), ShiftAmp)
    ensures corrected == ApplyAll(noisy, ParityThenGkpSchedule(Snapshot(noisy, Modes, probe), Modes, s))
    ensures gain == fidelity(corrected, ideal) - fidelity(noisy, ideal)
  {
    ShiftScheduleWithin(shifts, Modes, ShiftAmp);
    var mode := HybridCatGkp(Alpha, K, s, Delta);
    var state := EntangleMesh(seq(Modes, _ => mode), s * s / 6.0);
    ideal := state;
    noisy := ApplyShifts(state, shifts, Modes);
    noisy := Evolved(noisy, Loss(Gamma, 1.0, 50));
    corrected := CorrectParityThenGkp(noisy, Modes, probe, s);
    gain := fidelity(corrected, ideal) - fidelity(noisy, ideal);
  }
}
