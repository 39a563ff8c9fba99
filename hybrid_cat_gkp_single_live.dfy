/** The single-mode hybrid script on density matrices: random shifts in units of
  * sqrt(π), loss over 2/γ, a GKP correction applied as a sandwich, and an
  * even-parity projection post-selected with a vacuum fallback.  Traces,
  * expectations and fidelities are library results passed in as functions;
  * the two uniform draws enter as `u1` (position) and `u2` (momentum). */
module HybridCatGkpSingleLive {
  import opened BosonicState
  import opened GkpRounding
  import opened GkpLattice
  import CatCodeQecSim

  const Alpha: real := 2.5
  const Delta: real := 0.3
  const K: nat := 8
  const GammaLoss: real := 0.3
  const ShiftAmp: real := 0.5
  const SuccessFloor: real := 0.00000001

  /** `t_max = 2.0 / gamma_loss`. */
  const TMax: real := 2.0 / GammaLoss

  /** (-1)^n, the diagonal of the parity operator. */
  function ParitySign(n: nat): (sign: int)
    ensures sign == 1 || sign == -1
  {
    if n == 0 then 1 else -ParitySign(n - 1)
  }

  /** (-1)^n is +1 exactly on even n. */
  lemma {:induction false} ParitySignEven(n: nat)
    ensures ParitySign(n) == (if n % 2 == 0 then 1 else -1)
  {
    if n > 0 {
      ParitySignEven(n - 1);
    }
  }

  /** Diagonal entry n of (I + diag((-1)^n)) / 2. */
  function EvenDiagonal(n: nat): real {
    (1.0 + ParitySign(n) as real) / 2.0
  }

  /** The projector keeps even photon numbers with weight 1, drops odd ones, is
    * idempotent, and agrees with the projector onto `range(0, N, 2)` below the cutoff. */
  lemma EvenProjectorDiagonal(n: nat, cutoff: nat)
    requires n < cutoff
    ensures EvenDiagonal(n) == (if n % 2 == 0 then 1.0 else 0.0)
    ensures EvenDiagonal(n) * EvenDiagonal(n) == EvenDiagonal(n)
    ensures EvenDiagonal(n) == 1.0 <==> n in CatCodeQecSim.EvenIndices(cutoff)
  {
    ParitySignEven(n);
    CatCodeQecSim.EvenIndicesExact(cutoff, n);
  }

  /** Renormalise by the success probability when it exceeds 1e-8; otherwise the vacuum. */
  function PostSelect(projected: State, success: real): (rho: State)
    ensures success > SuccessFloor ==> rho == Divided(projected, success) && rho.divisor > 0.0
    ensures success <= SuccessFloor ==> rho == FockDm(0)
  {
    if success > SuccessFloor then Divided(projected, success) else FockDm(0)
  }

  /** A draw in [-amp, amp) scaled by s > 0 lies in [-amp * s, amp * s). */
  lemma ScaledDrawInRange(u: real, s: real)
    requires s > 0.0 && -ShiftAmp <= u < ShiftAmp
    ensures -ShiftAmp * s <= u * s < ShiftAmp * s
  {
  }

  /** The GKP correction of lines 56-60 as a sandwich: left factor D(cq + i cp),
    * right factor D(cq - i cp), the complex conjugate rather than the inverse D(-cq - i cp). */
  function GkpSandwich(rho: State, syndQ: real, syndP: real, s: real): (corrected: State)
    requires s > 0.0
    ensures corrected.Sandwich? && corrected.target == rho
    ensures |corrected.pre| == 1 && |corrected.post| == 1
    ensures corrected.pre[0] == Displace(Complex(BigCorrection(syndQ, s), BigCorrection(syndP, s)))
    ensures corrected.post[0] == Displace(Complex(BigCorrection(syndQ, s), -BigCorrection(syndP, s)))
  {
    var corrQ := BigCorrection(syndQ, s);
    var corrP := BigCorrection(syndP, s);
    Sandwich([Displace(Complex(corrQ, corrP))], rho, [Displace(Complex(corrQ, -corrP))])
  }

  /** The right factor is the inverse of the left one exactly when no position
    * correction is needed, e.g. whenever the position mean is inside the half-cell. */
  lemma {:induction false} SandwichInverseIffNoPositionCorrection(rho: State, syndQ: real, syndP: real, s: real)
    requires s > 0.0
    ensures var c := GkpSandwich(rho, syndQ, syndP, s);
      c.post[0].alpha == Complex(-c.pre[0].alpha.re, -c.pre[0].alpha.im) <==> BigCorrection(syndQ, s) == 0.0
    ensures -s / 2.0 <= syndQ <= s / 2.0 ==> BigCorrection(syndQ, s) == 0.0
  {
    if -s / 2.0 <= syndQ <= s / 2.0 {
      ResidualInsideCell(syndQ, s);
    }
  }

  /** The script body.  `hybrid` is the normalised sum of the normalised cat and the
    * normalised lattice (squeeze argument Δ itself); `u1` and `u2` are the two
    * uniform draws in [-0.5, 0.5), so each applied shift lies in [-s/2, s/2);
    * the reported fidelities are squared. */
  method Run(s: real, u1: real, u2: real, mean: (State, Quadrature) -> real,
             trace: State -> real, fidelity: (State, State) -> real)
    returns (hybrid: State, noisyFinal: State, rhoCorr: State, success: real, fidPre: real, fidPost: real)
    requires s > 0.0
    requires -ShiftAmp <= u1 < ShiftAmp && -ShiftAmp <= u2 < ShiftAmp
    ensures hybrid == Unit(Plus(CatCodeQecSim.CatPlus(Alpha), GkpZero(K, s, Complex(Delta, 0.0))))
    ensures noisyFinal == Evolved(Applied([Displace(Complex(u1 * s, u2 * s))], hybrid), Loss(GammaLoss, TMax, 30))
    ensures -ShiftAmp * s <= u1 * s < ShiftAmp * s && -ShiftAmp * s <= u2 * s < ShiftAmp * s
    ensures var rho := GkpSandwich(noisyFinal, mean(noisyFinal, Position), mean(noisyFinal, Momentum), s);
      var projected := Sandwich([EvenProjector], rho, [EvenProjector]);
      success == trace(projected) && rhoCorr == PostSelect(projected, success)
    ensures fidPre == fidelity(noisyFinal, hybrid) * fidelity(noisyFinal, hybrid)
    ensures fidPost == fidelity(rhoCorr, hybrid) * fidelity(rhoCorr, hybrid)
  {
    var cat := CatCodeQecSim.CatPlus(Alpha);
    var gkp0 := EncodeGkp(K, s, Complex(Delta, 0.0));
    hybrid := Unit(Plus(cat, gkp0));
    ScaledDrawInRange(u1, s);
    ScaledDrawInRange(u2, s);
    var shiftQ := u1 * s;
    var shiftP := u2 * s;
    var noisy := Applied([Displace(Complex(shiftQ, shiftP))], hybrid);
    noisyFinal := Evolved(noisy, Loss(GammaLoss, TMax, 30));
    var rho := noisyFinal;
    var syndQ := mean(rho, Position);
    var syndP := mean(rho, Momentum);
    rho := GkpSandwich(rho, syndQ, syndP, s);
    rhoCorr := Sandwich([EvenProjector], rho, [EvenProjector]);
    success := trace(rhoCorr);
    if success > SuccessFloor {
      rhoCorr := Divided(rhoCorr, success);
    } else {
      rhoCorr := FockDm(0);
    }
    var f := fidelity(noisyFinal, hybrid);
    fidPre := f * f;
    var g := fidelity(rhoCorr, hybrid);
    fidPost := g * g;
  }
}
