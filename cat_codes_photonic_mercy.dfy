/** The second cat-code script: the same cat, syndrome and correction rules,
  * a loss channel whose evolution window is fixed to [0, 1], and an odd-parity
  * projector that is built but never used. */
module CatCodesPhotonicMercy {
  import opened BosonicState
  import CatCodeQecSim

  /** `apply_loss` without a time argument: the window is always [0, 1]. */
  function ApplyLoss(cat: State, gamma: real): (noisy: State)
    ensures noisy == CatCodeQecSim.ApplyLoss(cat, gamma, 1.0)
  {
    Evolved(cat, Loss(gamma, 1.0, 50))
  }

  /** Asking the first script's loss for any other window gives a different evolution. */
  lemma LossWindowFixed(cat: State, gamma: real, t: real)
    requires t != 1.0
    ensures ApplyLoss(cat, gamma) != CatCodeQecSim.ApplyLoss(cat, gamma, t)
  {
  }

  /** `range(1, cutoff, 2)`: the Fock indices of the odd projector. */
  function OddIndices(cutoff: nat): (idx: seq<nat>)
    ensures |idx| == cutoff / 2
    ensures forall k :: 0 <= k < |idx| ==> idx[k] == 2 * k + 1
  {
    seq(cutoff / 2, k requires 0 <= k => 2 * k + 1)
  }

  /** `parity_syndrome`: builds the odd projector too, then decides on p_even alone. */
  function ParitySyndrome(pEven: real, cutoff: nat): (syndrome: string)
    ensures syndrome == "even" <==> pEven > 0.5
  {
    var odd := OddIndices(cutoff);
    if pEven > 0.5 then "even" else "odd"
  }

  /** The odd projector never influences the syndrome: it agrees with the first script's rule. */
  lemma OddProjectorUnused(pEven: real, cutoff: nat)
    ensures ParitySyndrome(pEven, cutoff) == CatCodeQecSim.ParitySyndrome(pEven)
  {
  }

  /** The script body; `correct_cat` here is line for line the first script's rule. */
  method Demo(pEvenOf: State -> real, fidelity: (State, State) -> real)
    returns (ideal: State, noisy: State, syndrome: string, corrected: State, gain: real)
    ensures ideal == CatCodeQecSim.CatPlus(CatCodeQecSim.Alpha)
    ensures noisy == Evolved(ideal, Loss(0.15, 1.0, 50))
    ensures syndrome == CatCodeQecSim.ParitySyndrome(pEvenOf(noisy))
    ensures syndrome == "even" <==> pEvenOf(noisy) > 0.5
    ensures syndrome == "odd" <==> pEvenOf(noisy) <= 0.5
    ensures corrected == CatCodeQecSim.CorrectCat(noisy, syndrome)
    ensures gain == fidelity(corrected, ideal) - fidelity(noisy, ideal)
  {
    ideal := CatCodeQecSim.CatPlus(CatCodeQecSim.Alpha);
    noisy := ApplyLoss(ideal, 0.15);
    syndrome := ParitySyndrome(pEvenOf(noisy), CatCodeQecSim.Cutoff);
    OddProjectorUnused(pEvenOf(noisy), CatCodeQecSim.Cutoff);
    corrected := CatCodeQecSim.CorrectCat(noisy, syndrome);
    gain := fidelity(corrected, ideal) - fidelity(noisy, ideal);
  }
}
