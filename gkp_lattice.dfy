/** The finite GKP lattice sum that every qutip script builds the same way:
  *   psi = basis(N, 0); for k in range(-K, K + 1): psi += displace(N, k*s) * squeeze(N, z) * basis(N, 0)
  * Only the squeeze argument z and the cut-off K differ between scripts. */
module GkpLattice {
  import opened BosonicState
  import CatCodeQecSim

  /** One lattice term: displace(N, k*s) * squeeze(N, z) * basis(N, 0). */
  function LatticeTerm(k: int, s: real, z: Complex): State {
    Applied([Displace(Complex(k as real * s, 0.0))], Applied([Squeeze(z)], Basis(0)))
  }

  /** The vacuum followed by the first n terms k = -K, ..., n - 1 - K, summed left to right. */
  function LatticeSum(K: nat, s: real, z: Complex, n: nat): State
    decreases n
  {
    if n == 0 then Basis(0) else Plus(LatticeSum(K, s, z, n - 1), LatticeTerm(n - 1 - K, s, z))
  }

  /** The sum of n terms has n + 1 summands: the initial vacuum, then in position
    * j >= 1 the term of lattice index j - 1 - K. */
  lemma {:induction false} LatticeSummands(K: nat, s: real, z: Complex, n: nat)
    ensures |Summands(LatticeSum(K, s, z, n))| == n + 1
    ensures Summands(LatticeSum(K, s, z, n))[0] == Basis(0)
    ensures forall j :: 1 <= j <= n ==> Summands(LatticeSum(K, s, z, n))[j] == LatticeTerm(j - 1 - K, s, z)
  {
    if n > 0 {
      LatticeSummands(K, s, z, n - 1);
    }
  }

  /** The accumulation loop.  The result is the vacuum plus 2K + 1 displaced,
    * squeezed vacua at k*s for k = -K .. K, in increasing k (summand j >= 1
    * holds k = j - 1 - K). */
  method Accumulate(K: nat, s: real, z: Complex) returns (psi: State)
    ensures psi == LatticeSum(K, s, z, 2 * K + 1)
    ensures |Summands(psi)| == 2 * K + 2 && Summands(psi)[0] == Basis(0)
    ensures forall j :: 1 <= j < |Summands(psi)| ==> Summands(psi)[j] == LatticeTerm(j - 1 - K, s, z)
  {
    psi := Basis(0);
    var k: int := -(K as int);
    while k <= K
      invariant -(K as int) <= k <= K + 1
      invariant psi == LatticeSum(K, s, z, k + K)
    {
      psi := Plus(psi, LatticeTerm(k, s, z));
      k := k + 1;
    }
    LatticeSummands(K, s, z, 2 * K + 1);
  }

  /** The normalised lattice state: `psi.unit()` after the accumulation. */
  function GkpZero(K: nat, s: real, z: Complex): State {
    Unit(LatticeSum(K, s, z, 2 * K + 1))
  }

  /** The encoder shared by the scripts: accumulate, then normalise once.
    * The normalised sum holds the vacuum and one term per lattice index. */
  method EncodeGkp(K: nat, s: real, z: Complex) returns (g: State)
    ensures g == GkpZero(K, s, z)
    ensures g.Unit? && |Summands(g.inner)| == 2 * K + 2
  {
    var psi := Accumulate(K, s, z);
    g := Unit(psi);
  }

  /** The hybrid mode of the cat-and-lattice scripts: the normalised sum of the
    * normalised even cat of amplitude alpha and the normalised lattice with
    * indices -K .. K and squeeze argument delta / 2. */
  method HybridCatGkp(alpha: real, K: nat, s: real, delta: real) returns (h: State)
    ensures h == Unit(Plus(CatCodeQecSim.CatPlus(alpha), GkpZero(K, s, Complex(delta / 2.0, 0.0))))
  {
    var cat := CatCodeQecSim.CatPlus(alpha);
    var gkp := EncodeGkp(K, s, Complex(delta / 2.0, 0.0));
    h := Unit(Plus(cat, gkp));
  }
}
