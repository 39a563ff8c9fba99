/** The multi-mode schedule shared by the council scripts: how the single-mode
  * states are entangled (an adjacent chain or a full mesh of beam splitters),
  * how shift noise is laid out over the modes, and which correction operator
  * each mode receives, in which order.  The per-mode readings (parity
  * probability and quadrature means of `noisy.ptrace(i)`) are numerics of the
  * library; they enter as a `probe` function of the state and the mode. */
module ModeSchedules {
  import opened BosonicState
  import opened GkpRounding

  /* ---------------- entangling ---------------- */

  /** The adjacent chain: mixer i acts on modes i and i + 1, for i = 0 .. modes - 2. */
  function ChainSchedule(modes: nat, theta: real): (sched: seq<JointOp>)
    ensures |sched| == if modes == 0 then 0 else modes - 1
  {
    seq(if modes == 0 then 0 else modes - 1, i requires 0 <= i => EmbedPair(BeamSplitter(theta), i, i + 1, modes))
  }

  /** Every chain step places the beam splitter at exactly two adjacent modes. */
  lemma ChainStepsAdjacent(modes: nat, theta: real, i: nat, k: nat)
    requires i < |ChainSchedule(modes, theta)| && k < modes
    ensures |ChainSchedule(modes, theta)[i]| == modes
    ensures ChainSchedule(modes, theta)[i][k] == BeamSplitter(theta) <==> k == i || k == i + 1
    ensures ChainSchedule(modes, theta)[i][k] != BeamSplitter(theta) ==> ChainSchedule(modes, theta)[i][k] == Identity
  {
  }

  /** `state = tensor(parts); for i in range(modes - 1): state = BS_i * state; state = state.unit()`. */
  method EntangleChain(parts: seq<State>, theta: real) returns (state: State)
    ensures state == Unit(ApplyAll(Tensor(parts), ChainSchedule(|parts|, theta)))
  {
    var modes := |parts|;
    state := Tensor(parts);
    var i := 0;
    while i < modes - 1
      invariant 0 <= i <= if modes == 0 then 0 else modes - 1
      invariant state == ApplyAll(Tensor(parts), ChainSchedule(modes, theta)[..i])
    {
      ApplyAllSnoc(Tensor(parts), ChainSchedule(modes, theta)[..i], EmbedPair(BeamSplitter(theta), i, i + 1, modes));
      assert ChainSchedule(modes, theta)[..i + 1] == ChainSchedule(modes, theta)[..i] + [EmbedPair(BeamSplitter(theta), i, i + 1, modes)];
      state := Applied(EmbedPair(BeamSplitter(theta), i, i + 1, modes), state);
      i := i + 1;
    }
    assert ChainSchedule(modes, theta)[..i] == ChainSchedule(modes, theta);
    state := Unit(state);
  }

  /** Row i of the mesh: the pairs (i, j) for j = i + 1 .. modes - 1. */
  function MeshRow(i: nat, modes: nat): (row: seq<(nat, nat)>)
    ensures |row| == if i < modes then modes - i - 1 else 0
  {
    seq(if i < modes then modes - i - 1 else 0, d => (i, i + 1 + d))
  }

  /** The pairs visited by the first `rows` outer iterations of the mesh loop. */
  function MeshPairs(rows: nat, modes: nat): seq<(nat, nat)>
    decreases rows
  {
    if rows == 0 then [] else MeshPairs(rows - 1, modes) + MeshRow(rows - 1, modes)
  }

  /** Mesh pairs are increasing (i < j < modes), visited row by row. */
  lemma {:induction false} MeshPairsInRange(rows: nat, modes: nat)
    ensures forall k :: 0 <= k < |MeshPairs(rows, modes)| ==>
      MeshPairs(rows, modes)[k].0 < MeshPairs(rows, modes)[k].1 < modes && MeshPairs(rows, modes)[k].0 < rows
  {
    if rows > 0 {
      MeshPairsInRange(rows - 1, modes);
    }
  }

  /** Every pair i < j < modes with i below `rows` is visited. */
  lemma {:induction false} MeshPairsComplete(rows: nat, modes: nat, i: nat, j: nat)
    requires i < j < modes && i < rows
    ensures (i, j) in MeshPairs(rows, modes)
  {
    if i == rows - 1 {
      assert MeshRow(i, modes)[j - i - 1] == (i, j);
    } else {
      MeshPairsComplete(rows - 1, modes, i, j);
    }
  }

  /** The mesh visits pairs in strictly increasing lexicographic order, so never twice. */
  lemma {:induction false} MeshPairsStrictlyOrdered(rows: nat, modes: nat)
    ensures forall a, b :: 0 <= a < b < |MeshPairs(rows, modes)| ==>
      MeshPairs(rows, modes)[a].0 < MeshPairs(rows, modes)[b].0 ||
      (MeshPairs(rows, modes)[a].0 == MeshPairs(rows, modes)[b].0 && MeshPairs(rows, modes)[a].1 < MeshPairs(rows, modes)[b].1)
  {
    if rows > 0 {
      MeshPairsStrictlyOrdered(rows - 1, modes);
      MeshPairsInRange(rows - 1, modes);
    }
  }

  /** Number of mesh steps after `rows` outer iterations: rows * modes - rows * (rows + 1) / 2. */
  lemma {:induction false} MeshPairsCount(rows: nat, modes: nat)
    requires rows <= modes
    ensures 2 * |MeshPairs(rows, modes)| == 2 * rows * modes - rows * (rows + 1)
  {
    if rows > 0 {
      MeshPairsCount(rows - 1, modes);
    }
  }

  /** The full mesh over n modes has n(n-1)/2 steps. */
  lemma FullMeshCount(modes: nat)
    ensures 2 * |MeshPairs(modes, modes)| == modes * (modes - 1)
  {
    MeshPairsCount(modes, modes);
  }

  /** The beam-splitter operators of a list of pairs. */
  function PairGates(pairs: seq<(nat, nat)>, theta: real, modes: nat): (gates: seq<JointOp>)
    ensures |gates| == |pairs|
  {
    seq(|pairs|, k requires 0 <= k < |pairs| => EmbedPair(BeamSplitter(theta), pairs[k].0, pairs[k].1, modes))
  }

  lemma PairGatesAppend(a: seq<(nat, nat)>, b: seq<(nat, nat)>, theta: real, modes: nat)
    ensures PairGates(a + b, theta, modes) == PairGates(a, theta, modes) + PairGates(b, theta, modes)
  {
  }

  /** One inner-loop step of the mesh appends the mixer of pair (i, j). */
  lemma MeshStep(i: nat, j: nat, modes: nat, theta: real)
    requires i < j < modes
    ensures PairGates(MeshPairs(i, modes) + MeshRow(i, modes)[..j - i], theta, modes)
         == PairGates(MeshPairs(i, modes) + MeshRow(i, modes)[..j - i - 1], theta, modes) + [EmbedPair(BeamSplitter(theta), i, j, modes)]
  {
    var row := MeshRow(i, modes);
    assert row[..j - i] == row[..j - i - 1] + [(i, j)];
    assert MeshPairs(i, modes) + row[..j - i] == (MeshPairs(i, modes) + row[..j - i - 1]) + [(i, j)];
    PairGatesAppend(MeshPairs(i, modes) + row[..j - i - 1], [(i, j)], theta, modes);
  }

  /** Finishing row i of the mesh completes the pairs of the first i + 1 rows. */
  lemma MeshRowDone(i: nat, modes: nat)
    requires i < modes
    ensures MeshPairs(i, modes) + MeshRow(i, modes)[..modes - i - 1] == MeshPairs(i + 1, modes)
    ensures MeshPairs(i, modes) + MeshRow(i, modes)[..0] == MeshPairs(i, modes)
  {
    assert MeshRow(i, modes)[..modes - i - 1] == MeshRow(i, modes);
  }

  /** `for i in range(modes): for j in range(i + 1, modes): state = BS_ij * state`, then one unit(). */
  method EntangleMesh(parts: seq<State>, theta: real) returns (state: State)
    ensures state == Unit(ApplyAll(Tensor(parts), PairGates(MeshPairs(|parts|, |parts|), theta, |parts|)))
  {
    var modes := |parts|;
    var base := Tensor(parts);
    state := base;
    var i := 0;
    while i < modes
      invariant 0 <= i <= modes
      invariant state == ApplyAll(base, PairGates(MeshPairs(i, modes), theta, modes))
    {
      MeshRowDone(i, modes);
      var j := i + 1;
      while j < modes
        invariant i + 1 <= j <= modes
        invariant state == ApplyAll(base, PairGates(MeshPairs(i, modes) + MeshRow(i, modes)[..j - i - 1], theta, modes))
      {
        MeshStep(i, j, modes, theta);
        ApplyAllSnoc(base, PairGates(MeshPairs(i, modes) + MeshRow(i, modes)[..j - i - 1], theta, modes), EmbedPair(BeamSplitter(theta), i, j, modes));
        state := Applied(EmbedPair(BeamSplitter(theta), i, j, modes), state);
        j := j + 1;
      }
      i := i + 1;
    }
    state := Unit(state);
  }

  /* ---------------- shift noise ---------------- */

  /** Mode i is displaced by shifts[2i] + 1j * shifts[2i + 1], embedded at position i. */
  function ShiftSchedule(shifts: seq<real>, modes: nat): (sched: seq<JointOp>)
    requires |shifts| == 2 * modes
    ensures |sched| == modes
  {
    seq(modes, i requires 0 <= i < modes => Embed(Displace(Complex(shifts[2 * i], shifts[2 * i + 1])), i, modes))
  }

  /** Each shift operator acts on its own mode only, with the draws of its slot. */
  lemma ShiftScheduleLayout(shifts: seq<real>, modes: nat, i: nat)
    requires |shifts| == 2 * modes && i < modes
    ensures OnlyAt(ShiftSchedule(shifts, modes)[i], i, Displace(Complex(shifts[2 * i], shifts[2 * i + 1])))
  {
  }

  /** All draws lie in [-amp, amp). */
  predicate DrawsIn(draws: seq<real>, amp: real) {
    forall k :: 0 <= k < |draws| ==> -amp <= draws[k] < amp
  }

  /** Draws in [-amp, amp) give displacement arguments with both parts in [-amp, amp). */
  lemma ShiftArgumentsBounded(shifts: seq<real>, modes: nat, amp: real, i: nat)
    requires |shifts| == 2 * modes && i < modes && DrawsIn(shifts, amp)
    ensures ShiftSchedule(shifts, modes)[i][i].Displace?
    ensures -amp <= ShiftSchedule(shifts, modes)[i][i].alpha.re < amp
    ensures -amp <= ShiftSchedule(shifts, modes)[i][i].alpha.im < amp
  {
  }

  /** Operator i of the schedule displaces mode i by an argument with both
    * parts in [-amp, amp). */
  predicate DisplacementsWithin(sched: seq<JointOp>, amp: real) {
    forall i :: 0 <= i < |sched| ==>
      && i < |sched[i]| && sched[i][i].Displace?
      && -amp <= sched[i][i].alpha.re < amp
      && -amp <= sched[i][i].alpha.im < amp
  }

  /** Draws in [-amp, amp) keep every displacement of the shift schedule in
    * [-amp, amp). */
  lemma ShiftScheduleWithin(shifts: seq<real>, modes: nat, amp: real)
    requires |shifts| == 2 * modes && DrawsIn(shifts, amp)
    ensures DisplacementsWithin(ShiftSchedule(shifts, modes), amp)
  {
    forall i | 0 <= i < modes
      ensures i < |ShiftSchedule(shifts, modes)[i]|
      ensures ShiftSchedule(shifts, modes)[i][i].Displace?
      ensures -amp <= ShiftSchedule(shifts, modes)[i][i].alpha.re < amp
      ensures -amp <= ShiftSchedule(shifts, modes)[i][i].alpha.im < amp
    {
      ShiftArgumentsBounded(shifts, modes, amp, i);
    }
  }

  /** `noisy = state; for D in D_list: noisy = D * noisy`. */
  method ApplyShifts(state: State, shifts: seq<real>, modes: nat) returns (noisy: State)
    requires |shifts| == 2 * modes
    ensures noisy == ApplyAll(state, ShiftSchedule(shifts, modes))
  {
    var dList := ShiftSchedule(shifts, modes);
    noisy := state;
    var i := 0;
    while i < modes
      invariant 0 <= i <= modes
      invariant noisy == ApplyAll(state, dList[..i])
    {
      ApplyAllSnoc(state, dList[..i], dList[i]);
      assert dList[..i + 1] == dList[..i] + [dList[i]];
      noisy := Applied(dList[i], noisy);
      i := i + 1;
    }
    assert dList[..i] == dList;
  }

  /* ---------------- per-mode correction ---------------- */

  /** What the scripts read from `noisy.ptrace(i)`: the even-parity probability
    * and the position and momentum means. */
  datatype Reading = Reading(pEven: real, meanQ: real, meanP: real)

  /** The readings of every mode, all taken from one state. */
  function Snapshot(st: State, modes: nat, probe: (State, nat) -> Reading): (rs: seq<Reading>)
    ensures |rs| == modes
    ensures forall i :: 0 <= i < modes ==> rs[i] == probe(st, i)
  {
    seq(modes, i requires 0 <= i < modes => probe(st, i))
  }

  /** The π rotation of mode i, present iff its even-parity probability is below 0.5. */
  function ParityOps(r: Reading, i: nat, modes: nat): (ops: seq<JointOp>)
    ensures |ops| <= 1
    ensures |ops| == 1 <==> r.pEven < 0.5
  {
    if r.pEven < 0.5 then [Embed(PhaseGatePi, i, modes)] else []
  }

  /** The GKP displacement argument of a reading: each mean rounded to the lattice and
    * negated, position as the real part and momentum as the imaginary part. */
  function GkpArgument(r: Reading, s: real): (alpha: Complex)
    requires s > 0.0
    ensures OnLattice(alpha.re, s) && OnLattice(alpha.im, s)
    ensures -s / 2.0 <= r.meanQ + alpha.re <= s / 2.0
    ensures -s / 2.0 <= r.meanP + alpha.im <= s / 2.0
  {
    Complex(BigCorrection(r.meanQ, s), BigCorrection(r.meanP, s))
  }

  function GkpOp(r: Reading, i: nat, modes: nat, s: real): JointOp
    requires s > 0.0
  {
    Embed(Displace(GkpArgument(r, s)), i, modes)
  }

  /** multi_mode_cat_council: a rotation per low-parity mode, modes in index order. */
  function ParityOnlySchedule(rs: seq<Reading>, modes: nat): seq<JointOp>
    decreases |rs|
  {
    if |rs| == 0 then [] else
    ParityOnlySchedule(rs[..|rs| - 1], modes) + ParityOps(rs[|rs| - 1], |rs| - 1, modes)
  }

  /** Parity step then GKP step for each mode, modes in index order. */
  function ParityThenGkpSchedule(rs: seq<Reading>, modes: nat, s: real): seq<JointOp>
    requires s > 0.0
    decreases |rs|
  {
    if |rs| == 0 then [] else
    var i := |rs| - 1;
    ParityThenGkpSchedule(rs[..i], modes, s) + ParityOps(rs[i], i, modes) + [GkpOp(rs[i], i, modes, s)]
  }

  /** GKP step then parity step for each mode, modes in index order. */
  function GkpThenParitySchedule(rs: seq<Reading>, modes: nat, s: real): seq<JointOp>
    requires s > 0.0
    decreases |rs|
  {
    if |rs| == 0 then [] else
    var i := |rs| - 1;
    GkpThenParitySchedule(rs[..i], modes, s) + [GkpOp(rs[i], i, modes, s)] + ParityOps(rs[i], i, modes)
  }

  /** Extending the readings by one mode extends each schedule by that mode's steps. */
  lemma ParityOnlySnoc(rs: seq<Reading>, r: Reading, modes: nat)
    ensures ParityOnlySchedule(rs + [r], modes) == ParityOnlySchedule(rs, modes) + ParityOps(r, |rs|, modes)
  {
    assert (rs + [r])[..|rs|] == rs;
  }

  lemma CombinedSnoc(rs: seq<Reading>, r: Reading, modes: nat, s: real)
    requires s > 0.0
    ensures ParityThenGkpSchedule(rs + [r], modes, s) == ParityThenGkpSchedule(rs, modes, s) + ParityOps(r, |rs|, modes) + [GkpOp(r, |rs|, modes, s)]
    ensures GkpThenParitySchedule(rs + [r], modes, s) == GkpThenParitySchedule(rs, modes, s) + [GkpOp(r, |rs|, modes, s)] + ParityOps(r, |rs|, modes)
  {
    assert (rs + [r])[..|rs|] == rs;
  }

  /** Number of modes whose even-parity probability is below 0.5. */
  function CountOdd(rs: seq<Reading>): (n: nat)
    ensures n <= |rs|
    decreases |rs|
  {
    if |rs| == 0 then 0 else CountOdd(rs[..|rs| - 1]) + (if rs[|rs| - 1].pEven < 0.5 then 1 else 0)
  }

  /** The parity loop applies one rotation per low-parity mode and nothing else. */
  lemma {:induction false} ParityOnlyLength(rs: seq<Reading>, modes: nat)
    ensures |ParityOnlySchedule(rs, modes)| == CountOdd(rs)
    decreases |rs|
  {
    if |rs| > 0 {
      ParityOnlyLength(rs[..|rs| - 1], modes);
    }
  }

  /** Both combined loops apply one displacement per mode plus one rotation per low-parity mode. */
  lemma {:induction false} CombinedLengths(rs: seq<Reading>, modes: nat, s: real)
    requires s > 0.0
    ensures |ParityThenGkpSchedule(rs, modes, s)| == |rs| + CountOdd(rs)
    ensures |GkpThenParitySchedule(rs, modes, s)| == |rs| + CountOdd(rs)
    decreases |rs|
  {
    if |rs| > 0 {
      CombinedLengths(rs[..|rs| - 1], modes, s);
    }
  }

  /** The schedule of the first j modes is the start of the schedule of all of them. */
  lemma {:induction false} CombinedPrefix(rs: seq<Reading>, modes: nat, s: real, j: nat)
    requires s > 0.0 && j <= |rs|
    ensures ParityThenGkpSchedule(rs[..j], modes, s) <= ParityThenGkpSchedule(rs, modes, s)
    ensures GkpThenParitySchedule(rs[..j], modes, s) <= GkpThenParitySchedule(rs, modes, s)
    decreases |rs| - j
  {
    if j < |rs| {
      var n := |rs| - 1;
      CombinedPrefix(rs[..n], modes, s, j);
      assert rs[..n][..j] == rs[..j];
    } else {
      assert rs[..j] == rs;
    }
  }

  /** Where mode i's steps sit in the parity-then-GKP schedule: after the steps of
    * modes 0 .. i-1, first the rotation (only when p_even < 0.5), then the displacement. */
  lemma ParityThenGkpLayout(rs: seq<Reading>, modes: nat, s: real, i: nat)
    requires s > 0.0 && i < |rs|
    ensures var at := i + CountOdd(rs[..i]);
      var sched := ParityThenGkpSchedule(rs, modes, s);
      if rs[i].pEven < 0.5 then
        at + 1 < |sched| && sched[at] == Embed(PhaseGatePi, i, modes) && sched[at + 1] == GkpOp(rs[i], i, modes, s)
      else
        at < |sched| && sched[at] == GkpOp(rs[i], i, modes, s)
  {
    var upTo := ParityThenGkpSchedule(rs[..i + 1], modes, s);
    var earlier := ParityThenGkpSchedule(rs[..i], modes, s);
    assert rs[..i + 1][..i] == rs[..i];
    assert upTo == earlier + ParityOps(rs[i], i, modes) + [GkpOp(rs[i], i, modes, s)];
    CombinedLengths(rs[..i], modes, s);
    CombinedPrefix(rs, modes, s, i + 1);
  }

  /** Where mode i's steps sit in the GKP-then-parity schedule: after the steps of
    * modes 0 .. i-1, first the displacement, then the rotation (only when p_even < 0.5).
    * Mode i + 1 starts right after, at i + 1 + CountOdd(rs[..i + 1]). */
  lemma GkpThenParityLayout(rs: seq<Reading>, modes: nat, s: real, i: nat)
    requires s > 0.0 && i < |rs|
    ensures var at := i + CountOdd(rs[..i]);
      var sched := GkpThenParitySchedule(rs, modes, s);
      at < |sched| && sched[at] == GkpOp(rs[i], i, modes, s) &&
      (rs[i].pEven < 0.5 ==> at + 1 < |sched| && sched[at + 1] == Embed(PhaseGatePi, i, modes))
  {
    var upTo := GkpThenParitySchedule(rs[..i + 1], modes, s);
    var earlier := GkpThenParitySchedule(rs[..i], modes, s);
    assert rs[..i + 1][..i] == rs[..i];
    assert upTo == earlier + [GkpOp(rs[i], i, modes, s)] + ParityOps(rs[i], i, modes);
    CombinedLengths(rs[..i], modes, s);
    CombinedPrefix(rs, modes, s, i + 1);
  }

  /** Mode i's steps take 1 + (1 if rotated) slots, so mode i + 1 starts right after them. */
  lemma CountOddNext(rs: seq<Reading>, i: nat)
    requires i < |rs|
    ensures CountOdd(rs[..i + 1]) == CountOdd(rs[..i]) + if rs[i].pEven < 0.5 then 1 else 0
  {
    assert rs[..i + 1] == rs[..i] + [rs[i]];
    CountOddSnoc(rs[..i], rs[i]);
  }

  lemma CountOddSnoc(rs: seq<Reading>, r: Reading)
    ensures CountOdd(rs + [r]) == CountOdd(rs) + if r.pEven < 0.5 then 1 else 0
  {
    assert (rs + [r])[..|rs|] == rs;
  }

  /** Embedding at different modes gives different operators (op is not the identity). */
  lemma EmbedInjective(op: ModeOp, i: nat, j: nat, modes: nat)
    requires op != Identity && i < modes && j < modes && i != j
    ensures Embed(op, i, modes) != Embed(op, j, modes)
  {
    assert Embed(op, i, modes)[i] != Embed(op, j, modes)[i];
  }

  /** A rotation for mode i is in the parity schedule iff mode i's reading is below 0.5. */
  lemma {:induction false} RotationIffLowParity(rs: seq<Reading>, modes: nat, i: nat)
    requires |rs| <= modes && i < |rs|
    ensures Embed(PhaseGatePi, i, modes) in ParityOnlySchedule(rs, modes) <==> rs[i].pEven < 0.5
    decreases |rs|
  {
    var n := |rs| - 1;
    if i < n {
      RotationIffLowParity(rs[..n], modes, i);
      assert rs[..n][i] == rs[i];
      if rs[n].pEven < 0.5 {
        EmbedInjective(PhaseGatePi, i, n, modes);
      }
    } else {
      RotationOnlyBelow(rs[..n], modes, n);
    }
  }

  /** The parity schedule of the first n readings never rotates a mode >= n. */
  lemma {:induction false} RotationOnlyBelow(rs: seq<Reading>, modes: nat, j: nat)
    requires |rs| <= j < modes
    ensures Embed(PhaseGatePi, j, modes) !in ParityOnlySchedule(rs, modes)
    decreases |rs|
  {
    if |rs| > 0 {
      var n := |rs| - 1;
      RotationOnlyBelow(rs[..n], modes, j);
      if rs[n].pEven < 0.5 {
        EmbedInjective(PhaseGatePi, n, j, modes);
      }
    }
  }

  /** The two combined orders apply the same operators (as a multiset). */
  lemma {:induction false} OrdersSameOperators(rs: seq<Reading>, modes: nat, s: real)
    requires s > 0.0
    ensures multiset(ParityThenGkpSchedule(rs, modes, s)) == multiset(GkpThenParitySchedule(rs, modes, s))
    decreases |rs|
  {
    if |rs| > 0 {
      OrdersSameOperators(rs[..|rs| - 1], modes, s);
    }
  }

  /** The two orders give the same schedule exactly when no mode needs a rotation. */
  lemma {:induction false} OrdersAgreeIffNoRotation(rs: seq<Reading>, modes: nat, s: real)
    requires s > 0.0 && |rs| <= modes
    ensures ParityThenGkpSchedule(rs, modes, s) == GkpThenParitySchedule(rs, modes, s) <==> CountOdd(rs) == 0
    decreases |rs|
  {
    if |rs| > 0 {
      var i := |rs| - 1;
      var rs' := rs[..i];
      OrdersAgreeIffNoRotation(rs', modes, s);
      CombinedLengths(rs', modes, s);
      var a := ParityThenGkpSchedule(rs', modes, s);
      var b := GkpThenParitySchedule(rs', modes, s);
      var g := GkpOp(rs[i], i, modes, s);
      var p := ParityOps(rs[i], i, modes);
      assert ParityThenGkpSchedule(rs, modes, s) == a + p + [g];
      assert GkpThenParitySchedule(rs, modes, s) == b + [g] + p;
      if rs[i].pEven < 0.5 {
        // position |a| holds the rotation in one order and the displacement in the other
        assert (a + p + [g])[|a|][i] == PhaseGatePi;
        assert (b + [g] + p)[|a|][i].Displace?;
      } else {
        assert p == [];
        assert a + p + [g] == a + [g] && b + [g] + p == b + [g];
        assert (a + [g])[..|a|] == a && (b + [g])[..|b|] == b;
      }
    }
  }

  /** `corrected = noisy; for i: p_even = expect(even, noisy.ptrace(i)); if p_even < 0.5: corrected = R_i * corrected`. */
  method CorrectParityOnly(noisy: State, modes: nat, probe: (State, nat) -> Reading) returns (corrected: State)
    ensures corrected == ApplyAll(noisy, ParityOnlySchedule(Snapshot(noisy, modes, probe), modes))
  {
    var rs := Snapshot(noisy, modes, probe);
    corrected := noisy;
    var i := 0;
    while i < modes
      invariant 0 <= i <= modes
      invariant corrected == ApplyAll(noisy, ParityOnlySchedule(rs[..i], modes))
    {
      var r := probe(noisy, i);
      assert rs[..i + 1] == rs[..i] + [r];
      ParityOnlySnoc(rs[..i], r, modes);
      var before := ParityOnlySchedule(rs[..i], modes);
      if r.pEven < 0.5 {
        ApplyAllSnoc(noisy, before, Embed(PhaseGatePi, i, modes));
        corrected := Applied(Embed(PhaseGatePi, i, modes), corrected);
      } else {
        assert before + ParityOps(r, i, modes) == before;
      }
      i := i + 1;
    }
    assert rs[..i] == rs;
  }

  /** Running the parity-then-GKP schedule of one more mode: its rotation when its
    * even-parity probability is below 0.5, then its displacement. */
  lemma ParityThenGkpStep(noisy: State, rs: seq<Reading>, i: nat, modes: nat, s: real)
    requires s > 0.0 && i < |rs|
    ensures var prior := ApplyAll(noisy, ParityThenGkpSchedule(rs[..i], modes, s));
      var rotated := if rs[i].pEven < 0.5 then Applied(Embed(PhaseGatePi, i, modes), prior) else prior;
      ApplyAll(noisy, ParityThenGkpSchedule(rs[..i + 1], modes, s)) == Applied(GkpOp(rs[i], i, modes, s), rotated)
  {
    assert rs[..i + 1] == rs[..i] + [rs[i]];
    CombinedSnoc(rs[..i], rs[i], modes, s);
    var prior := ParityThenGkpSchedule(rs[..i], modes, s);
    var p := ParityOps(rs[i], i, modes);
    if rs[i].pEven < 0.5 {
      ApplyAllSnoc(noisy, prior, Embed(PhaseGatePi, i, modes));
    } else {
      assert prior + p == prior;
    }
    ApplyAllSnoc(noisy, prior + p, GkpOp(rs[i], i, modes, s));
  }

  /** Per mode: the parity rotation (when p_even < 0.5), then the GKP displacement,
    * every reading taken from the noisy snapshot. */
  method CorrectParityThenGkp(noisy: State, modes: nat, probe: (State, nat) -> Reading, s: real)
    returns (corrected: State)
    requires s > 0.0
    ensures corrected == ApplyAll(noisy, ParityThenGkpSchedule(Snapshot(noisy, modes, probe), modes, s))
  {
    var rs := Snapshot(noisy, modes, probe);
    corrected := noisy;
    var i := 0;
    while i < modes
      invariant 0 <= i <= modes
      invariant corrected == ApplyAll(noisy, ParityThenGkpSchedule(rs[..i], modes, s))
    {
      var r := probe(noisy, i);
      ParityThenGkpStep(noisy, rs, i, modes, s);
      if r.pEven < 0.5 {
        corrected := Applied(Embed(PhaseGatePi, i, modes), corrected);
      }
      corrected := Applied(GkpOp(r, i, modes, s), corrected);
      i := i + 1;
    }
    assert rs[..i] == rs;
  }

  /** Running the GKP-then-parity schedule of one more mode: its displacement,
    * then its rotation when its even-parity probability is below 0.5. */
  lemma GkpThenParityStep(noisy: State, rs: seq<Reading>, i: nat, modes: nat, s: real)
    requires s > 0.0 && i < |rs|
    ensures var shifted := Applied(GkpOp(rs[i], i, modes, s), ApplyAll(noisy, GkpThenParitySchedule(rs[..i], modes, s)));
      ApplyAll(noisy, GkpThenParitySchedule(rs[..i + 1], modes, s))
        == if rs[i].pEven < 0.5 then Applied(Embed(PhaseGatePi, i, modes), shifted) else shifted
  {
    assert rs[..i + 1] == rs[..i] + [rs[i]];
    CombinedSnoc(rs[..i], rs[i], modes, s);
    var prior := GkpThenParitySchedule(rs[..i], modes, s);
    var g := GkpOp(rs[i], i, modes, s);
    ApplyAllSnoc(noisy, prior, g);
    if rs[i].pEven < 0.5 {
      ApplyAllSnoc(noisy, prior + [g], Embed(PhaseGatePi, i, modes));
    } else {
      assert prior + [g] + ParityOps(rs[i], i, modes) == prior + [g];
    }
  }

  /** Per mode: the GKP displacement, then the parity rotation (when p_even < 0.5),
    * every reading taken from the noisy snapshot. */
  method CorrectGkpThenParity(noisy: State, modes: nat, probe: (State, nat) -> Reading, s: real)
    returns (corrected: State)
    requires s > 0.0
    ensures corrected == ApplyAll(noisy, GkpThenParitySchedule(Snapshot(noisy, modes, probe), modes, s))
  {
    var rs := Snapshot(noisy, modes, probe);
    corrected := noisy;
    var i := 0;
    while i < modes
      invariant 0 <= i <= modes
      invariant corrected == ApplyAll(noisy, GkpThenParitySchedule(rs[..i], modes, s))
    {
      var r := probe(noisy, i);
      GkpThenParityStep(noisy, rs, i, modes, s);
      corrected := Applied(GkpOp(r, i, modes, s), corrected);
      if r.pEven < 0.5 {
        corrected := Applied(Embed(PhaseGatePi, i, modes), corrected);
      }
      i := i + 1;
    }
    assert rs[..i] == rs;
  }
}
