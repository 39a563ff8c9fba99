/** Symbolic quantum states of the qutip and Strawberry Fields scripts.
  * No matrix is ever evaluated: a state is a term that records how it was
  * built, which operator hit which mode and in what order.  A joint operator
  * is the list given to `qt.tensor`, one single-mode factor per mode. */
module BosonicState {

  datatype Complex = Complex(re: real, im: real)

  /** Single-mode operators of the truncated Fock space. */
  datatype ModeOp =
    | Identity                  // qt.identity(N)
    | Displace(alpha: Complex)  // qt.displace(N, alpha) / sf.ops.D(alpha)
    | Squeeze(z: Complex)       // qt.squeeze(N, z)
    | PhaseGatePi               // qt.phase_gate(np.pi), kept as an abstract "rotate by pi"
    | BeamSplitter(theta: real) // qt.beamsplitter(theta), placed by list position only
    | EvenProjector             // (I + diag((-1)^n)) / 2

  /** A tensor product of single-mode factors, one per mode. */
  type JointOp = seq<ModeOp>

  /** The collapse operators of a loss evolution: sqrt(rate) * a on every mode. */
  datatype Loss = Loss(rate: real, tEnd: real, samples: nat)

  datatype State =
    | Basis(n: nat)                                   // qt.basis(N, n)
    | Coherent(alpha: real)                           // qt.coherent(N, alpha)
    | FockDm(n: nat)                                  // qt.fock_dm(N, n)
    | Plus(left: State, right: State)                 // unnormalised sum
    | Unit(inner: State)                              // .unit()
    | Tensor(parts: seq<State>)                       // qt.tensor(parts)
    | Applied(op: JointOp, target: State)             // op * target
    | Sandwich(pre: JointOp, target: State, post: JointOp) // pre * target * post
    | Divided(target: State, divisor: real)           // target / divisor
    | Evolved(target: State, loss: Loss)              // mesolve(...).states[-1]

  /** The two quadratures a homodyne expectation can read. */
  datatype Quadrature = Position | Momentum   // qt.position(N) / qt.momentum(N)

  /** The joint operator with `op` at mode i and the identity on every other mode. */
  function Embed(op: ModeOp, i: nat, modes: nat): (o: JointOp)
    ensures |o| == modes
    ensures forall j :: 0 <= j < modes ==> o[j] == (if j == i then op else Identity)
  {
    seq(modes, j => if j == i then op else Identity)
  }

  /** The joint operator with `op` at modes i and j and the identity elsewhere. */
  function EmbedPair(op: ModeOp, i: nat, j: nat, modes: nat): (o: JointOp)
    ensures |o| == modes
    ensures forall k :: 0 <= k < modes ==> o[k] == (if k == i || k == j then op else Identity)
  {
    seq(modes, k => if k == i || k == j then op else Identity)
  }

  /** o acts on exactly mode i (identity on every other mode) with factor op. */
  predicate OnlyAt(o: JointOp, i: nat, op: ModeOp) {
    i < |o| && o[i] == op && forall j :: 0 <= j < |o| && j != i ==> o[j] == Identity
  }

  /** Applies the joint operators in list order: the last one acts last. */
  function ApplyAll(s: State, ops: seq<JointOp>): State
    decreases |ops|
  {
    if |ops| == 0 then s else Applied(ops[|ops| - 1], ApplyAll(s, ops[..|ops| - 1]))
  }

  /** Appending one operator to the schedule applies it on top. */
  lemma ApplyAllSnoc(s: State, ops: seq<JointOp>, o: JointOp)
    ensures ApplyAll(s, ops + [o]) == Applied(o, ApplyAll(s, ops))
  {
    assert (ops + [o])[..|ops|] == ops;
  }

  /** Running two schedules one after the other is running their concatenation. */
  lemma {:induction false} ApplyAllConcat(s: State, a: seq<JointOp>, b: seq<JointOp>)
    ensures ApplyAll(ApplyAll(s, a), b) == ApplyAll(s, a + b)
    decreases |b|
  {
    if |b| == 0 {
      assert a + b == a;
    } else {
      var b' := b[..|b| - 1];
      ApplyAllConcat(s, a, b');
      assert (a + b)[..|a + b| - 1] == a + b';
    }
  }

  /** The summands of an unnormalised sum, left to right. */
  function Summands(s: State): (terms: seq<State>)
    ensures |terms| >= 1
  {
    match s
    case Plus(a, b) => Summands(a) + [b]
    case _ => [s]
  }
}
