/** The single-mode cat code: the even cat |α> + |-α>, photon loss, the parity
  * syndrome read through the even-photon projector, and the π rotation that
  * undoes an odd syndrome. */
module CatCodeQecSim {
  import opened BosonicState

  const Alpha: real := 2.0
  const Cutoff: nat := 80
  const DefaultGamma: real := 0.15
  const DefaultT: real := 1.0

  /** `cat_plus`: the normalised sum of the coherent states at +α and -α. */
  function CatPlus(alpha: real): (cat: State)
    ensures cat.Unit? && Summands(cat.inner) == [Coherent(alpha), Coherent(-alpha)]
  {
    Unit(Plus(Coherent(alpha), Coherent(-alpha)))
  }

  /** The even cat does not depend on the sign of α: both orders hold the same two coherent states. */
  lemma CatPlusSignSymmetric(alpha: real)
    ensures multiset(Summands(CatPlus(-alpha).inner)) == multiset(Summands(CatPlus(alpha).inner))
  {
    assert Summands(CatPlus(-alpha).inner) == [Coherent(-alpha), Coherent(alpha)];
  }

  /** `apply_loss`: one collapse operator sqrt(gamma) * a, evolved over 50 sample times in [0, t]. */
  function ApplyLoss(cat: State, gamma: real, t: real): State {
    Evolved(cat, Loss(gamma, t, 50))
  }

  /** `range(0, cutoff, 2)`: the Fock indices the even projector keeps. */
  function EvenIndices(cutoff: nat): (idx: seq<nat>)
    ensures |idx| == (cutoff + 1) / 2
    ensures forall k :: 0 <= k < |idx| ==> idx[k] == 2 * k
  {
    seq((cutoff + 1) / 2, k requires 0 <= k => 2 * k)
  }

  /** The even projector selects exactly the even Fock indices below the cutoff. */
  lemma EvenIndicesExact(cutoff: nat, n: nat)
    ensures n in EvenIndices(cutoff) <==> n < cutoff && n % 2 == 0
  {
    if n < cutoff && n % 2 == 0 {
      assert EvenIndices(cutoff)[n / 2] == n;
    }
  }

  /** `parity_syndrome`: "even" exactly when the even-parity probability exceeds 0.5. */
  function ParitySyndrome(pEven: real): (syndrome: string)
    ensures syndrome == "even" || syndrome == "odd"
    ensures syndrome == "even" <==> pEven > 0.5
  {
    if pEven > 0.5 then "even" else "odd"
  }

  /** `correct_cat`: one π rotation for "odd", any other syndrome leaves the state as it is. */
  function CorrectCat(state: State, syndrome: string): (corrected: State)
    ensures syndrome == "odd" ==> corrected.Applied? && corrected.op == [PhaseGatePi] && corrected.target == state
    ensures syndrome != "odd" ==> corrected == state
  {
    if syndrome == "odd" then Applied([PhaseGatePi], state) else state
  }

  /** Syndrome then correction: a rotation happens exactly when p_even <= 0.5.
    * A tie of exactly 0.5 is rotated here, while the multi-mode scripts, which
    * rotate only below 0.5, leave it alone. */
  lemma RotatesIffAtMostHalf(state: State, pEven: real)
    ensures CorrectCat(state, ParitySyndrome(pEven)) != state <==> pEven <= 0.5
    ensures (CorrectCat(state, ParitySyndrome(pEven)) != state) != (pEven < 0.5) <==> pEven == 0.5
  {
    if pEven <= 0.5 {
      assert CorrectCat(state, ParitySyndrome(pEven)) == Applied([PhaseGatePi], state);
      StateGrows(state);
    }
  }

  /** Applying an operator never gives back the state it acted on. */
  lemma StateGrows(state: State)
    ensures Applied([PhaseGatePi], state) != state
  {
    assert state < Applied([PhaseGatePi], state);
  }

  /** The script body: encode, lose photons, read the syndrome, correct, compare. */
  method Demo(pEvenOf: State -> real, fidelity: (State, State) -> real)
    returns (ideal: State, noisy: State, syndrome: string, corrected: State, gain: real)
    ensures ideal == CatPlus(Alpha)
    ensures noisy == Evolved(ideal, Loss(DefaultGamma, DefaultT, 50))
    ensures syndrome == ParitySyndrome(pEvenOf(noisy))
    ensures syndrome == "even" <==> pEvenOf(noisy) > 0.5
    ensures syndrome == "odd" <==> pEvenOf(noisy) <= 0.5
    ensures corrected == CorrectCat(noisy, syndrome)
    ensures gain == fidelity(corrected, ideal) - fidelity(noisy, ideal)
  {
    ideal := CatPlus(Alpha);
    noisy := ApplyLoss(ideal, DefaultGamma, DefaultT);
    syndrome := ParitySyndrome(pEvenOf(noisy));
    corrected := CorrectCat(noisy, syndrome);
    var fidPre := fidelity(noisy, ideal);
    var fidPost := fidelity(corrected, ideal);
    gain := fidPost - fidPre;
  }
}
