/** Octonion mercy shards: an octonion is eight real coefficients (the scalar
  * and the units e1..e7); products of distinct units are read off the Fano
  * plane table, and `normalize` scales a non-zero octonion to unit norm in
  * place. The square root in `norm` is an input. */
module OctonionMercyShards {

  datatype Option<T> = None | Some(value: T)

  /** `MUL_TABLE.get((i, j))`: e_i e_j = sign e_k for the entry (sign, k). */
  function MulTable(i: int, j: int): Option<(int, int)> {
    match i
    case 1 => (
      match j
      case 2 => Some((1, 3))
      case 3 => Some((-1, 2))
      case 4 => Some((1, 5))
      case 5 => Some((-1, 4))
      case 6 => Some((1, 7))
      case 7 => Some((-1, 6))
      case _ => None)
    case 2 => (
      match j
      case 1 => Some((-1, 3))
      case 3 => Some((1, 1))
      case 4 => Some((1, 6))
      case 5 => Some((-1, 7))
      case 6 => Some((-1, 4))
      case 7 => Some((1, 5))
      case _ => None)
    case 3 => (
      match j
      case 1 => Some((1, 2))
      case 2 => Some((-1, 1))
      case 4 => Some((1, 7))
      case 5 => Some((1, 6))
      case 6 => Some((-1, 5))
      case 7 => Some((-1, 4))
      case _ => None)
    case 4 => (
      match j
      case 1 => Some((-1, 5))
      case 2 => Some((-1, 6))
      case 3 => Some((-1, 7))
      case 5 => Some((1, 1))
      case 6 => Some((1, 2))
      case 7 => Some((1, 3))
      case _ => None)
    case 5 => (
      match j
      case 1 => Some((1, 4))
      case 2 => Some((1, 7))
      case 3 => Some((-1, 6))
      case 4 => Some((-1, 1))
      case 6 => Some((-1, 3))
      case 7 => Some((1, 2))
      case _ => None)
    case 6 => (
      match j
      case 1 => Some((-1, 7))
      case 2 => Some((1, 4))
      case 3 => Some((1, 5))
      case 4 => Some((-1, 2))
      case 5 => Some((1, 3))
      case 7 => Some((-1, 1))
      case _ => None)
    case 7 => (
      match j
      case 1 => Some((1, 6))
      case 2 => Some((-1, 5))
      case 3 => Some((1, 4))
      case 4 => Some((-1, 3))
      case 5 => Some((-1, 2))
      case 6 => Some((1, 1))
      case _ => None)
    case _ => None
  }

  predicate Unit(i: int) {
    1 <= i <= 7
  }

  /** The table has an entry for exactly the ordered pairs of distinct units
    * (7 * 6 = 42 entries). */
  lemma TableDomain()
    ensures forall i, j :: MulTable(i, j).Some? <==> Unit(i) && Unit(j) && i != j
  {
  }

  /** Each product is a unit other than its factors, with sign +1 or -1. */
  lemma TableRange()
    ensures forall i, j :: MulTable(i, j).Some? ==>
      var (sign, k) := MulTable(i, j).value;
      Unit(k) && k != i && k != j && (sign == 1 || sign == -1)
  {
  }

  /** Swapping the factors keeps the unit and flips the sign. */
  lemma TableAntisymmetric()
    ensures forall i, j :: MulTable(i, j).Some? ==>
      MulTable(j, i) == Some((-MulTable(i, j).value.0, MulTable(i, j).value.1))
  {
  }

  /** The seven lines of the Fano plane. */
  const Lines: set<(int, int, int)> := {(1,2,3), (1,4,5), (1,6,7), (2,4,6), (2,5,7), (3,4,7), (3,5,6)}

  function Sorted(i: int, j: int, k: int): (int, int, int) {
    if i <= j && j <= k then (i, j, k)
    else if i <= k && k <= j then (i, k, j)
    else if j <= i && i <= k then (j, i, k)
    else if j <= k && k <= i then (j, k, i)
    else if k <= i && i <= j then (k, i, j)
    else (k, j, i)
  }

  /** Every entry joins the two factors and their product on one line of the Fano plane. */
  lemma TableLines()
    ensures forall i, j :: MulTable(i, j).Some? ==> Sorted(i, j, MulTable(i, j).value.1) in Lines
  {
  }

  function Min(i: int, j: int): int {
    if i < j then i else j
  }

  function Max(i: int, j: int): int {
    if i < j then j else i
  }

  /** Eight coefficients: the scalar, then e1..e7. */
  type Coeffs = s: seq<real> | |s| == 8 witness seq(8, m => 0.0)

  /** `np.dot(a[1:], b[1:])` over the units below n. */
  function DotTo(a: Coeffs, b: Coeffs, n: int): real
    requires n <= 8
    decreases n
  {
    if n <= 1 then 0.0 else DotTo(a, b, n - 1) + a[n - 1] * b[n - 1]
  }

  function Dot(a: Coeffs, b: Coeffs): real {
    DotTo(a, b, 8)
  }

  /** A dot product whose terms vanish except at p is the term at p. */
  lemma {:induction false} DotSingle(a: Coeffs, b: Coeffs, p: int, n: int)
    requires Unit(p) && n <= 8
    requires forall m :: Unit(m) && m != p ==> a[m] * b[m] == 0.0
    ensures DotTo(a, b, n) == if p < n then a[p] * b[p] else 0.0
    decreases n
  {
    if n > 1 {
      DotSingle(a, b, p, n - 1);
      assert DotTo(a, b, n) == DotTo(a, b, n - 1) + a[n - 1] * b[n - 1];
      if n - 1 != p {
        assert a[n - 1] * b[n - 1] == 0.0;
      }
    }
  }

  /** The factor step (i, j) of the nested loop puts on a_i b_j in coefficient
    * k: the diagonal subtracts from the scalar again, and a distinct pair adds
    * +1 or -1 (by i < j) to the unit the table names, ignoring its sign. */
  function Weight(i: int, j: int, k: int): real {
    if !(Unit(i) && Unit(j)) then 0.0
    else if i == j then (if k == 0 then -1.0 else 0.0)
    else
      var entry := MulTable(Min(i, j), Max(i, j));
      if entry.Some? && entry.value.1 == k then (if i < j then 1.0 else -1.0) else 0.0
  }

  /** What step (i, j) of the loop adds to coefficient k. */
  function Term(w: (int, int, int) -> real, a: Coeffs, b: Coeffs, i: int, j: int, k: int): real {
    if Unit(i) && Unit(j) then w(i, j, k) * (a[i] * b[j]) else 0.0
  }

  /** Steps (i, 1) .. (i, n - 1) of the loop. */
  function RowTo(w: (int, int, int) -> real, a: Coeffs, b: Coeffs, k: int, i: int, n: int): real
    decreases n
  {
    if n <= 1 then 0.0 else RowTo(w, a, b, k, i, n - 1) + Term(w, a, b, i, n - 1, k)
  }

  /** Rows 1 .. n - 1 of the loop. */
  function GridTo(w: (int, int, int) -> real, a: Coeffs, b: Coeffs, k: int, n: int): real
    decreases n
  {
    if n <= 1 then 0.0 else GridTo(w, a, b, k, n - 1) + RowTo(w, a, b, k, n - 1, 8)
  }

  lemma {:induction false} RowSingle(w: (int, int, int) -> real, a: Coeffs, b: Coeffs, k: int, i: int, p: int, n: int)
    requires Unit(p) && n <= 8
    requires forall j :: Unit(j) && j != p ==> Term(w, a, b, i, j, k) == 0.0
    ensures RowTo(w, a, b, k, i, n) == if p < n then Term(w, a, b, i, p, k) else 0.0
    decreases n
  {
    if n > 1 {
      RowSingle(w, a, b, k, i, p, n - 1);
    }
  }

  lemma {:induction false} GridSingle(w: (int, int, int) -> real, a: Coeffs, b: Coeffs, k: int, p: int, n: int)
    requires Unit(p) && n <= 8
    requires forall i :: Unit(i) && i != p ==> RowTo(w, a, b, k, i, 8) == 0.0
    ensures GridTo(w, a, b, k, n) == if p < n then RowTo(w, a, b, k, p, 8) else 0.0
    decreases n
  {
    if n > 1 {
      GridSingle(w, a, b, k, p, n - 1);
    }
  }

  /** Coefficient k before the loop. */
  function Base(a: Coeffs, b: Coeffs, k: int): real {
    if k == 0 then a[0] * b[0] - Dot(a, b) else 0.0
  }

  /** `result[1:] += a[0]*b[1:] + b[0]*a[1:]` */
  function ScalarCross(a: Coeffs, b: Coeffs, k: int): real
    requires 0 <= k < 8
  {
    if k == 0 then 0.0 else a[0] * b[k] + b[0] * a[k]
  }

  /** The scalar part, the nested loop with weights w, and the crosses. */
  function ProductWith(w: (int, int, int) -> real, a: Coeffs, b: Coeffs): Coeffs {
    seq(8, k requires 0 <= k < 8 => Base(a, b, k) + GridTo(w, a, b, k, 8) + ScalarCross(a, b, k))
  }

  /** The product `__mul__` computes. */
  function Product(a: Coeffs, b: Coeffs): Coeffs {
    ProductWith(Weight, a, b)
  }

  /** The result array, for weights w, after rows 1 .. i - 1 and steps
    * (i, 1) .. (i, j - 1) of the nested loop. */
  function Partial(w: (int, int, int) -> real, a: Coeffs, b: Coeffs, i: int, j: int): Coeffs {
    seq(8, k requires 0 <= k < 8 => Base(a, b, k) + GridTo(w, a, b, k, i) + RowTo(w, a, b, k, i, j))
  }

  /** Weights w agree with the loop's own at step (i, j). */
  predicate LoopWeights(w: (int, int, int) -> real, i: int, j: int) {
    forall k :: 0 <= k < 8 ==> w(i, j, k) == Weight(i, j, k)
  }

  /** A step that adds d to coefficient t and nothing elsewhere updates the
    * array in that one place. */
  lemma Advance(w: (int, int, int) -> real, a: Coeffs, b: Coeffs, i: int, j: int, t: int, d: real)
    requires 0 <= t < 8
    requires forall k :: 0 <= k < 8 ==> Term(w, a, b, i, j, k) == if k == t then d else 0.0
    ensures var p := Partial(w, a, b, i, j);
      Partial(w, a, b, i, j + 1) == p[t := p[t] + d]
  {
  }

  /** A diagonal step of the loop subtracts a_i b_i from the scalar. */
  lemma DiagonalStep(w: (int, int, int) -> real, a: Coeffs, b: Coeffs, i: int)
    requires Unit(i) && LoopWeights(w, i, i)
    ensures var p := Partial(w, a, b, i, i);
      Partial(w, a, b, i, i + 1) == p[0 := p[0] - a[i] * b[i]]
  {
    forall k | 0 <= k < 8
      ensures Term(w, a, b, i, i, k) == if k == 0 then -(a[i] * b[i]) else 0.0
    {
      assert w(i, i, k) == Weight(i, i, k);
      if k != 0 {
        Vanish(1.0, 0.0, a[i] * b[i]);
      }
    }
    Advance(w, a, b, i, i, 0, -(a[i] * b[i]));
  }

  /** At a step (i, j) whose weights put s on coefficient t only, the loop
    * adds s a_i b_j to coefficient t. */
  lemma PairStep(w: (int, int, int) -> real, a: Coeffs, b: Coeffs, i: int, j: int, t: int, s: real)
    requires Unit(i) && Unit(j) && 0 <= t < 8
    requires forall k :: 0 <= k < 8 ==> w(i, j, k) == if k == t then s else 0.0
    ensures var p := Partial(w, a, b, i, j);
      Partial(w, a, b, i, j + 1) == p[t := p[t] + Signed(s, a[i], b[j])]
  {
    forall k | 0 <= k < 8
      ensures Term(w, a, b, i, j, k) == if k == t then Signed(s, a[i], b[j]) else 0.0
    {
      if k != t {
        Vanish(1.0, 0.0, a[i] * b[j]);
      }
    }
    Advance(w, a, b, i, j, t, Signed(s, a[i], b[j]));
  }

  /** The loop's weights for a distinct pair: the sign of i < j on the unit
    * the table names, nothing elsewhere. */
  lemma PairWeights(w: (int, int, int) -> real, i: int, j: int)
    requires Unit(i) && Unit(j) && i != j && LoopWeights(w, i, j)
    ensures Entry(i, j).Some? && Unit(Entry(i, j).value.1)
    ensures forall k :: 0 <= k < 8 ==>
      w(i, j, k) == if k == Entry(i, j).value.1 then Sign(i, j) else 0.0
  {
    PairTarget(i, j);
    forall k | 0 <= k < 8
      ensures w(i, j, k) == if k == Entry(i, j).value.1 then Sign(i, j) else 0.0
    {
      PairWeight(i, j, k);
    }
  }

  /** The unit a distinct pair of units writes to exists, and is a unit. */
  lemma PairTarget(i: int, j: int)
    requires Unit(i) && Unit(j) && i != j
    ensures MulTable(Min(i, j), Max(i, j)).Some? && Unit(MulTable(Min(i, j), Max(i, j)).value.1)
  {
    TableDomain();
    TableRange();
  }

  /** Before the loop the array holds the scalar part only. */
  lemma Start(w: (int, int, int) -> real, a: Coeffs, b: Coeffs)
    ensures forall k :: 0 <= k < 8 ==> Partial(w, a, b, 1, 1)[k] == Base(a, b, k)
  {
  }

  /** Finishing row i is starting row i + 1. */
  lemma NextRow(w: (int, int, int) -> real, a: Coeffs, b: Coeffs, i: int)
    requires i >= 1
    ensures Partial(w, a, b, i, 8) == Partial(w, a, b, i + 1, 1)
  {
  }

  /** The array once the scalar-imaginary crosses are added to the units. */
  function Crossed(p: Coeffs, a: Coeffs, b: Coeffs): Coeffs {
    seq(8, k requires 0 <= k < 8 => if k == 0 then p[0] else p[k] + ScalarCross(a, b, k))
  }

  /** After the loop, the crosses complete the product. */
  lemma Finish(w: (int, int, int) -> real, a: Coeffs, b: Coeffs)
    ensures ProductWith(w, a, b) == Crossed(Partial(w, a, b, 8, 1), a, b)
  {
    var p := Partial(w, a, b, 8, 1);
    forall k | 0 <= k < 8
      ensures ProductWith(w, a, b)[k] == Crossed(p, a, b)[k]
    {
      assert p[k] == Base(a, b, k) + GridTo(w, a, b, k, 8);
    }
  }

  /** The basis octonion e_i (e_0 = 1). */
  function E(i: int): Coeffs {
    seq(8, m requires 0 <= m < 8 => if m == i then 1.0 else 0.0)
  }

  function Scaled(s: real, x: Coeffs): Coeffs {
    seq(8, m requires 0 <= m < 8 => s * x[m])
  }

  lemma Vanish(w: real, x: real, y: real)
    requires x == 0.0 || y == 0.0
    ensures x * y == 0.0 && w * (x * y) == 0.0
  {
  }

  /** A row of the loop vanishes when one factor has no imaginary part. */
  lemma RowVanishes(w: (int, int, int) -> real, a: Coeffs, b: Coeffs, k: int, i: int)
    requires Unit(i)
    requires (forall m :: Unit(m) ==> a[m] == 0.0) || (forall m :: Unit(m) ==> b[m] == 0.0)
    ensures RowTo(w, a, b, k, i, 8) == 0.0
  {
    forall j | Unit(j)
      ensures Term(w, a, b, i, j, k) == 0.0
    {
      Vanish(w(i, j, k), a[i], b[j]);
    }
    RowSingle(w, a, b, k, i, 1, 8);
  }

  /** The imaginary dot product vanishes when one factor has no imaginary part. */
  lemma DotVanishes(a: Coeffs, b: Coeffs)
    requires (forall m :: Unit(m) ==> a[m] == 0.0) || (forall m :: Unit(m) ==> b[m] == 0.0)
    ensures Dot(a, b) == 0.0
  {
    forall m | Unit(m)
      ensures a[m] * b[m] == 0.0
    {
      Vanish(1.0, a[m], b[m]);
    }
    DotSingle(a, b, 1, 8);
  }

  /** Both loop sums vanish when one factor has no imaginary part. */
  lemma NoCrosses(w: (int, int, int) -> real, a: Coeffs, b: Coeffs, k: int)
    requires (forall m :: Unit(m) ==> a[m] == 0.0) || (forall m :: Unit(m) ==> b[m] == 0.0)
    ensures GridTo(w, a, b, k, 8) == 0.0 && Dot(a, b) == 0.0
  {
    forall i | Unit(i)
      ensures RowTo(w, a, b, k, i, 8) == 0.0
    {
      RowVanishes(w, a, b, k, i);
    }
    GridSingle(w, a, b, k, 1, 8);
    DotVanishes(a, b);
  }

  /** 1 is a left identity of `__mul__`. */
  lemma LeftIdentity(b: Coeffs)
    ensures Product(E(0), b) == b
  {
    forall k | 0 <= k < 8
      ensures Product(E(0), b)[k] == b[k]
    {
      NoCrosses(Weight, E(0), b, k);
    }
  }

  /** 1 is a right identity of `__mul__`. */
  lemma RightIdentity(a: Coeffs)
    ensures Product(a, E(0)) == a
  {
    forall k | 0 <= k < 8
      ensures Product(a, E(0))[k] == a[k]
    {
      NoCrosses(Weight, a, E(0), k);
    }
  }

  /** For two units only step (i, j) of the loop contributes, with its weight. */
  lemma UnitGrid(w: (int, int, int) -> real, i: int, j: int, k: int)
    requires Unit(i) && Unit(j)
    ensures GridTo(w, E(i), E(j), k, 8) == w(i, j, k)
  {
    var a, b := E(i), E(j);
    forall p | Unit(p)
      ensures RowTo(w, a, b, k, p, 8) == if p == i then w(i, j, k) else 0.0
    {
      forall m | Unit(m) && m != j
        ensures Term(w, a, b, p, m, k) == 0.0
      {
        Vanish(w(p, m, k), a[p], b[m]);
      }
      if p != i {
        Vanish(w(p, j, k), a[p], b[j]);
      }
      RowSingle(w, a, b, k, p, j, 8);
    }
    GridSingle(w, a, b, k, i, 8);
  }

  lemma UnitDot(i: int, j: int)
    requires Unit(i) && Unit(j)
    ensures Dot(E(i), E(j)) == if i == j then 1.0 else 0.0
  {
    forall m | Unit(m) && m != i
      ensures E(i)[m] * E(j)[m] == 0.0
    {
      Vanish(1.0, E(i)[m], E(j)[m]);
    }
    DotSingle(E(i), E(j), i, 8);
  }

  /** Coefficient m of the product of two units, for any weights: the loop's
    * weight, plus the -1 the dot product puts on the scalar of a square. */
  lemma UnitEntry(w: (int, int, int) -> real, i: int, j: int, m: int)
    requires Unit(i) && Unit(j) && 0 <= m < 8
    ensures Base(E(i), E(j), m) + GridTo(w, E(i), E(j), m, 8) + ScalarCross(E(i), E(j), m)
      == w(i, j, m) + (if i == j && m == 0 then -1.0 else 0.0)
  {
    UnitBase(i, j, m);
    UnitScalarCross(i, j, m);
    UnitGrid(w, i, j, m);
  }

  lemma UnitBase(i: int, j: int, m: int)
    requires Unit(i) && Unit(j)
    ensures Base(E(i), E(j), m) == if i == j && m == 0 then -1.0 else 0.0
  {
    UnitDot(i, j);
    Vanish(1.0, E(i)[0], E(j)[0]);
  }

  lemma UnitScalarCross(i: int, j: int, m: int)
    requires Unit(i) && Unit(j) && 0 <= m < 8
    ensures ScalarCross(E(i), E(j), m) == 0.0
  {
    Vanish(1.0, E(i)[0], E(j)[m]);
    Vanish(1.0, E(j)[0], E(i)[m]);
  }

  /** As written, e_i e_i has scalar part -2: the imaginary dot product is
    * subtracted before the loop and again on its diagonal. */
  lemma UnitSquareAsWritten(i: int)
    requires Unit(i)
    ensures Product(E(i), E(i)) == Scaled(-2.0, E(0))
  {
    forall m | 0 <= m < 8
      ensures Product(E(i), E(i))[m] == Scaled(-2.0, E(0))[m]
    {
      UnitEntry(Weight, i, i, m);
    }
  }

  /** The weight step (i, j) of the loop gives a distinct pair of units in
    * coefficient m: the sign of i < j on the unit the table names. */
  lemma PairWeight(i: int, j: int, m: int)
    requires Unit(i) && Unit(j) && i != j
    ensures var k := MulTable(Min(i, j), Max(i, j)).value.1;
      Weight(i, j, m) == if m == k then (if i < j then 1.0 else -1.0) else 0.0
  {
    TableDomain();
  }

  /** As written, e_i e_j is +e_k for i < j and -e_k for i > j, whatever sign
    * the table gives. */
  lemma UnitProductAsWritten(i: int, j: int)
    requires Unit(i) && Unit(j) && i != j
    ensures Product(E(i), E(j)) == Scaled(if i < j then 1.0 else -1.0, E(MulTable(Min(i, j), Max(i, j)).value.1))
  {
    TableDomain();
    var k := MulTable(Min(i, j), Max(i, j)).value.1;
    var s := if i < j then 1.0 else -1.0;
    forall m | 0 <= m < 8
      ensures Product(E(i), E(j))[m] == Scaled(s, E(k))[m]
    {
      UnitEntry(Weight, i, j, m);
      PairWeight(i, j, m);
    }
  }

  /** The table says e1 e3 = -e2, but the product as written gives +e2. */
  lemma SignDiscardedAsWritten()
    ensures MulTable(1, 3) == Some((-1, 2))
    ensures Product(E(1), E(3)) == E(2)
  {
    UnitProductAsWritten(1, 3);
    assert Scaled(1.0, E(2)) == E(2);
  }

  /** The weights the table and its comment describe: the diagonal adds
    * nothing (the dot product already made e_i e_i = -1) and each distinct
    * pair carries the table's own sign. */
  function IntendedWeight(i: int, j: int, k: int): real {
    if !(Unit(i) && Unit(j)) || i == j then 0.0
    else
      var entry := MulTable(i, j);
      if entry.Some? && entry.value.1 == k then entry.value.0 as real else 0.0
  }

  /** The corrected product. */
  function IntendedProduct(a: Coeffs, b: Coeffs): Coeffs {
    ProductWith(IntendedWeight, a, b)
  }

  /** Corrected, 1 is still a left identity. */
  lemma LeftIdentityIntended(b: Coeffs)
    ensures IntendedProduct(E(0), b) == b
  {
    forall k | 0 <= k < 8
      ensures IntendedProduct(E(0), b)[k] == b[k]
    {
      NoCrosses(IntendedWeight, E(0), b, k);
    }
  }

  /** Corrected, 1 is still a right identity. */
  lemma RightIdentityIntended(a: Coeffs)
    ensures IntendedProduct(a, E(0)) == a
  {
    forall k | 0 <= k < 8
      ensures IntendedProduct(a, E(0))[k] == a[k]
    {
      NoCrosses(IntendedWeight, a, E(0), k);
    }
  }

  /** Corrected, every unit squares to -1. */
  lemma UnitSquareIntended(i: int)
    requires Unit(i)
    ensures IntendedProduct(E(i), E(i)) == Scaled(-1.0, E(0))
  {
    forall m | 0 <= m < 8
      ensures IntendedProduct(E(i), E(i))[m] == Scaled(-1.0, E(0))[m]
    {
      UnitEntry(IntendedWeight, i, i, m);
    }
  }

  /** Corrected, e_i e_j is exactly what the table says, sign included. */
  lemma UnitProductIntended(i: int, j: int)
    requires Unit(i) && Unit(j) && i != j
    ensures IntendedProduct(E(i), E(j)) == Scaled(MulTable(i, j).value.0 as real, E(MulTable(i, j).value.1))
  {
    TableDomain();
    var (sign, k) := MulTable(i, j).value;
    forall m | 0 <= m < 8
      ensures IntendedProduct(E(i), E(j))[m] == Scaled(sign as real, E(k))[m]
    {
      UnitEntry(IntendedWeight, i, j, m);
    }
  }

  /** The sum of squares of the coefficients, `np.sum(self.c**2)`. */
  function SumSq(x: seq<real>): (s: real)
    ensures s >= 0.0
    decreases |x|
  {
    if |x| == 0 then 0.0 else SumSq(x[..|x| - 1]) + x[|x| - 1] * x[|x| - 1]
  }

  function Divided(x: seq<real>, n: real): (y: seq<real>)
    requires n != 0.0
    ensures |y| == |x|
  {
    seq(|x|, m requires 0 <= m < |x| => x[m] / n)
  }

  lemma CancelFactor(p: real, d: real)
    requires d != 0.0
    ensures p * d / d == p
  {
  }

  lemma SelfQuotient(d: real)
    requires d != 0.0
    ensures d / d == 1.0
  {
  }

  lemma AddQuotients(p: real, q: real, d: real)
    requires d != 0.0
    ensures p / d + q / d == (p + q) / d
  {
  }

  lemma SquareQuotient(x: real, n: real)
    requires n != 0.0
    ensures (x / n) * (x / n) == x * x / n / n
  {
    var q := x / n;
    assert x == q * n;
    var p := q * q;
    var r := p * n;
    assert x * x == r * n;
    CancelFactor(r, n);
    assert x * x / n == r;
    CancelFactor(p, n);
    assert r / n == p;
  }

  /** One step of the sum of squares, divided. */
  lemma QuotientStep(prev: real, prevDivided: real, xk: real, yk: real, n: real, total: real, totalDivided: real)
    requires n != 0.0 && prevDivided == prev / n / n && yk == xk / n
    requires total == prev + xk * xk && totalDivided == prevDivided + yk * yk
    ensures totalDivided == total / n / n
  {
    SquareQuotient(xk, n);
    AddQuotients(prev / n, xk * xk / n, n);
    AddQuotients(prev, xk * xk, n);
  }

  /** Dividing every coefficient by n divides the sum of squares by n twice. */
  lemma {:induction false} SumSqDivided(x: seq<real>, n: real)
    requires n != 0.0
    ensures SumSq(Divided(x, n)) == SumSq(x) / n / n
    decreases |x|
  {
    if |x| > 0 {
      var k := |x| - 1;
      var y := Divided(x, n);
      assert y[..k] == Divided(x[..k], n);
      SumSqDivided(x[..k], n);
      QuotientStep(SumSq(x[..k]), SumSq(y[..k]), x[k], y[k], n, SumSq(x), SumSq(y));
    }
  }

  /** Dividing by the norm gives norm 1. */
  lemma NormalizedIsUnit(x: seq<real>, n: real)
    requires n > 0.0 && n * n == SumSq(x)
    ensures SumSq(Divided(x, n)) == 1.0
  {
    SumSqDivided(x, n);
    CancelFactor(n, n);
    assert SumSq(x) / n == n;
    SelfQuotient(n);
  }

  /** `1 if i < j else -1` */
  function Sign(i: int, j: int): real {
    if i < j then 1.0 else -1.0
  }

  /** `sign * x * y`: what a pair adds to the unit it names. */
  function Signed(s: real, x: real, y: real): real {
    s * x * y
  }

  /** An entry that names a unit, or no entry. */
  predicate Names(entry: Option<(int, int)>) {
    entry.Some? ==> Unit(entry.value.1)
  }

  /** `MUL_TABLE.get((min(i, j), max(i, j)))`: the entry the loop looks up. */
  function Entry(i: int, j: int): (entry: Option<(int, int)>)
    ensures Names(entry)
    ensures entry.Some? <==> Unit(i) && Unit(j) && i != j
  {
    TableDomain();
    TableRange();
    MulTable(Min(i, j), Max(i, j))
  }

  /** The array after one pass of the inner loop body at (i, j), given the
    * table's entry for the sorted pair: a diagonal pair subtracts a_i b_i
    * from the scalar; any other pair with an entry adds +-a_i b_j to the unit
    * the entry names. */
  function Stepped(p: Coeffs, a: Coeffs, b: Coeffs, i: int, j: int, entry: Option<(int, int)>): Coeffs
    requires Unit(i) && Unit(j) && Names(entry)
  {
    if i == j then p[0 := p[0] - a[i] * b[i]]
    else
      match entry
      case None => p
      case Some((_, k)) => p[k := p[k] + Signed(Sign(i, j), a[i], b[j])]
  }

  /** One pass of the loop body takes the array from step (i, j) of the
    * nested loop to step (i, j + 1). */
  lemma StepAdvances(w: (int, int, int) -> real, a: Coeffs, b: Coeffs, i: int, j: int)
    requires Unit(i) && Unit(j) && LoopWeights(w, i, j)
    ensures Partial(w, a, b, i, j + 1) == Stepped(Partial(w, a, b, i, j), a, b, i, j, Entry(i, j))
  {
    if i == j {
      DiagonalAdvances(w, a, b, i, Entry(i, j));
    } else {
      PairWeights(w, i, j);
      PairAdvances(w, a, b, i, j, Entry(i, j));
    }
  }

  /** A diagonal pass advances the array one step. */
  lemma DiagonalAdvances(w: (int, int, int) -> real, a: Coeffs, b: Coeffs, i: int, entry: Option<(int, int)>)
    requires Unit(i) && LoopWeights(w, i, i) && Names(entry)
    ensures Partial(w, a, b, i, i + 1) == Stepped(Partial(w, a, b, i, i), a, b, i, i, entry)
  {
    DiagonalStep(w, a, b, i);
  }

  /** A pass over a distinct pair advances the array one step. */
  lemma PairAdvances(w: (int, int, int) -> real, a: Coeffs, b: Coeffs, i: int, j: int, entry: Option<(int, int)>)
    requires Unit(i) && Unit(j) && i != j && entry.Some? && Unit(entry.value.1)
    requires forall k :: 0 <= k < 8 ==> w(i, j, k) == if k == entry.value.1 then Sign(i, j) else 0.0
    ensures Partial(w, a, b, i, j + 1) == Stepped(Partial(w, a, b, i, j), a, b, i, j, entry)
  {
    PairStep(w, a, b, i, j, entry.value.1, Sign(i, j));
    PairStepped(Partial(w, a, b, i, j), a, b, i, j, entry);
  }

  /** Off the diagonal, an entry (s, k) makes a pass add +-a_i b_j to p[k]. */
  lemma PairStepped(p: Coeffs, a: Coeffs, b: Coeffs, i: int, j: int, entry: Option<(int, int)>)
    requires Unit(i) && Unit(j) && i != j && entry.Some? && Unit(entry.value.1)
    ensures Stepped(p, a, b, i, j, entry) == p[entry.value.1 := p[entry.value.1] + Signed(Sign(i, j), a[i], b[j])]
  {
  }


  /** On the diagonal, a pass subtracts a_i b_i from the scalar, whatever the entry. */
  lemma DiagonalStepped(p: Coeffs, a: Coeffs, b: Coeffs, i: int, entry: Option<(int, int)>)
    requires Unit(i) && Names(entry)
    ensures Stepped(p, a, b, i, i, entry) == p[0 := p[0] - a[i] * b[i]]
  {
  }

  /** The inner loop body: `result[0] -= ...` on the diagonal, otherwise a
    * look-up of the sorted pair and `result[k] += sign * ...` when it is in
    * the table. */
  method LoopStep(result: array<real>, a: Coeffs, b: Coeffs, i: int, j: int)
    requires Unit(i) && Unit(j) && result.Length == 8
    modifies result
    ensures result[..] == Stepped(old(result[..]), a, b, i, j, Entry(i, j))
  {
    if i == j {
      ghost var before := result[..];
      result[0] := result[0] - a[i] * b[i];
      assert result[..] == before[0 := before[0] - a[i] * b[i]];
      DiagonalStepped(before, a, b, i, Entry(i, j));
      return;
    }
    var key := (Min(i, j), Max(i, j));
    var sign := Sign(i, j);
    var entry := MulTable(key.0, key.1);
    if entry.Some? {
      var k := entry.value.1;
      result[k] := result[k] + sign * a[i] * b[j];
      assert result[..] == old(result[..])[k := old(result[k]) + Signed(sign, a[i], b[j])];
    }
  }

  /** `result[1:] += a[0]*b[1:] + b[0]*a[1:]` */
  method AddCrosses(result: array<real>, a: Coeffs, b: Coeffs)
    requires result.Length == 8
    modifies result
    ensures result[..] == Crossed(old(result[..]), a, b)
  {
    forall k | 1 <= k < 8 {
      result[k] := result[k] + (a[0] * b[k] + b[0] * a[k]);
    }
    assert forall k :: 0 <= k < 8 ==> result[k] == Crossed(old(result[..]), a, b)[k];
  }

  /** `MUL_TABLE.get((i, j))`: the entry the corrected loop looks up. */
  function IntendedEntry(i: int, j: int): (entry: Option<(int, int)>)
    ensures Names(entry)
    ensures entry.Some? <==> Unit(i) && Unit(j) && i != j
  {
    TableDomain();
    TableRange();
    MulTable(i, j)
  }

  /** The corrected loop body, given the table's entry for (i, j): a diagonal
    * pair adds nothing (the dot product already gave e_i e_i = -1), and a
    * distinct pair adds a_i b_j, with the entry's own sign, to the unit the
    * entry names. */
  function SteppedIntended(p: Coeffs, a: Coeffs, b: Coeffs, i: int, j: int, entry: Option<(int, int)>): Coeffs
    requires Unit(i) && Unit(j) && Names(entry)
  {
    match entry
    case None => p
    case Some((sign, k)) => p[k := p[k] + Signed(sign as real, a[i], b[j])]
  }

  /** The corrected weights of a distinct pair: the table's sign on the unit
    * the table names, nothing elsewhere. */
  lemma IntendedPairWeight(i: int, j: int, m: int)
    requires Unit(i) && Unit(j) && i != j
    ensures var entry := IntendedEntry(i, j);
      IntendedWeight(i, j, m) == if m == entry.value.1 then entry.value.0 as real else 0.0
  {
    TableDomain();
  }

  /** One pass of the corrected loop body advances the corrected partial
    * product from step (i, j) to step (i, j + 1). */
  lemma IntendedStepAdvances(a: Coeffs, b: Coeffs, i: int, j: int)
    requires Unit(i) && Unit(j)
    ensures Partial(IntendedWeight, a, b, i, j + 1) == SteppedIntended(Partial(IntendedWeight, a, b, i, j), a, b, i, j, IntendedEntry(i, j))
  {
    var entry := IntendedEntry(i, j);
    if i == j {
      IntendedDiagonalAdvances(a, b, i);
    } else {
      forall m | 0 <= m < 8
        ensures IntendedWeight(i, j, m) == if m == entry.value.1 then entry.value.0 as real else 0.0
      {
        IntendedPairWeight(i, j, m);
      }
      IntendedPairAdvances(a, b, i, j, entry);
    }
  }

  /** Corrected, a pass over a distinct pair advances the array one step. */
  lemma IntendedPairAdvances(a: Coeffs, b: Coeffs, i: int, j: int, entry: Option<(int, int)>)
    requires Unit(i) && Unit(j) && entry.Some? && Unit(entry.value.1)
    requires forall k :: 0 <= k < 8 ==> IntendedWeight(i, j, k) == if k == entry.value.1 then entry.value.0 as real else 0.0
    ensures Partial(IntendedWeight, a, b, i, j + 1) == SteppedIntended(Partial(IntendedWeight, a, b, i, j), a, b, i, j, entry)
  {
    PairStep(IntendedWeight, a, b, i, j, entry.value.1, entry.value.0 as real);
    IntendedPairStepped(Partial(IntendedWeight, a, b, i, j), a, b, i, j, entry);
  }

  /** Corrected, an entry (s, k) makes a pass add s a_i b_j to p[k]. */
  lemma IntendedPairStepped(p: Coeffs, a: Coeffs, b: Coeffs, i: int, j: int, entry: Option<(int, int)>)
    requires Unit(i) && Unit(j) && entry.Some? && Unit(entry.value.1)
    ensures SteppedIntended(p, a, b, i, j, entry) == p[entry.value.1 := p[entry.value.1] + Signed(entry.value.0 as real, a[i], b[j])]
  {
  }

  /** Corrected, a diagonal pass leaves the array as it is. */
  lemma IntendedDiagonalAdvances(a: Coeffs, b: Coeffs, i: int)
    requires Unit(i)
    ensures Partial(IntendedWeight, a, b, i, i + 1) == Partial(IntendedWeight, a, b, i, i)
  {
    Advance(IntendedWeight, a, b, i, i, 0, 0.0);
    var p := Partial(IntendedWeight, a, b, i, i);
    assert p[0 := p[0] + 0.0] == p;
  }

  /** The corrected inner loop body: the diagonal is skipped, and a distinct
    * pair looks up its own (unsorted) key and adds with the table's sign. */
  method LoopStepIntended(result: array<real>, a: Coeffs, b: Coeffs, i: int, j: int)
    requires Unit(i) && Unit(j) && result.Length == 8
    modifies result
    ensures result[..] == SteppedIntended(old(result[..]), a, b, i, j, IntendedEntry(i, j))
  {
    var entry := IntendedEntry(i, j);
    if entry.Some? {
      var sign := entry.value.0;
      var k := entry.value.1;
      result[k] := result[k] + sign as real * a[i] * b[j];
      assert result[..] == old(result[..])[k := old(result[k]) + Signed(sign as real, a[i], b[j])];
    }
  }

  /** Row i of the nested loop of `__mul__`. */
  method Row(result: array<real>, a: Coeffs, b: Coeffs, i: int)
    requires Unit(i) && result.Length == 8
    requires result[..] == Partial(Weight, a, b, i, 1)
    modifies result
    ensures result[..] == Partial(Weight, a, b, i + 1, 1)
  {
    var j := 1;
    while j < 8
      invariant 1 <= j <= 8 && result[..] == Partial(Weight, a, b, i, j)
    {
      RowStep(result, a, b, i, j);
      j := j + 1;
    }
    NextRow(Weight, a, b, i);
  }

  /** Pass (i, j) of the nested loop of `__mul__` advances the array by one step. */
  method RowStep(result: array<real>, a: Coeffs, b: Coeffs, i: int, j: int)
    requires Unit(i) && Unit(j) && result.Length == 8
    requires result[..] == Partial(Weight, a, b, i, j)
    modifies result
    ensures result[..] == Partial(Weight, a, b, i, j + 1)
  {
    StepAdvances(Weight, a, b, i, j);
    LoopStep(result, a, b, i, j);
  }

  /** Row i of the corrected nested loop. */
  method IntendedRow(result: array<real>, a: Coeffs, b: Coeffs, i: int)
    requires Unit(i) && result.Length == 8
    requires result[..] == Partial(IntendedWeight, a, b, i, 1)
    modifies result
    ensures result[..] == Partial(IntendedWeight, a, b, i + 1, 1)
  {
    var j := 1;
    while j < 8
      invariant 1 <= j <= 8 && result[..] == Partial(IntendedWeight, a, b, i, j)
    {
      IntendedRowStep(result, a, b, i, j);
      j := j + 1;
    }
    NextRow(IntendedWeight, a, b, i);
  }

  /** Pass (i, j) of the corrected nested loop advances the array by one step. */
  method IntendedRowStep(result: array<real>, a: Coeffs, b: Coeffs, i: int, j: int)
    requires Unit(i) && Unit(j) && result.Length == 8
    requires result[..] == Partial(IntendedWeight, a, b, i, j)
    modifies result
    ensures result[..] == Partial(IntendedWeight, a, b, i, j + 1)
  {
    IntendedStepAdvances(a, b, i, j);
    LoopStepIntended(result, a, b, i, j);
  }

  class Octonion {
    const c: array<real>

    predicate Valid()
      reads this
    {
      c.Length == 8
    }

    constructor(coeffs: Coeffs)
      ensures Valid() && fresh(c) && c[..] == coeffs
    {
      c := new real[8](m requires 0 <= m < 8 => coeffs[m]);
    }

    /** `__mul__`: the scalar part, then the nested loop over the unit pairs,
      * then the scalar-imaginary crosses. */
    method Mul(other: Octonion) returns (r: Octonion)
      requires Valid() && other.Valid()
      ensures r.Valid() && fresh(r) && fresh(r.c)
      ensures r.c[..] == Product(c[..], other.c[..])
    {
      var a: Coeffs := c[..];
      var b: Coeffs := other.c[..];
      var result := new real[8](m => 0.0);
      result[0] := c[0] * other.c[0] - Dot(a, b);
      Start(Weight, a, b);
      assert forall k :: 0 <= k < 8 ==> result[k] == Base(a, b, k);
      assert result[..] == Partial(Weight, a, b, 1, 1);
      for i := 1 to 8
        invariant result[..] == Partial(Weight, a, b, i, 1)
      {
        Row(result, a, b, i);
      }
      AddCrosses(result, a, b);
      Finish(Weight, a, b);
      r := new Octonion(result[..]);
    }

    /** `__mul__` with the two defects corrected: the same scalar part, loop
      * and crosses, but the loop body of `LoopStepIntended`. */
    method MulIntended(other: Octonion) returns (r: Octonion)
      requires Valid() && other.Valid()
      ensures r.Valid() && fresh(r) && fresh(r.c)
      ensures r.c[..] == IntendedProduct(c[..], other.c[..])
    {
      var a: Coeffs := c[..];
      var b: Coeffs := other.c[..];
      var result := new real[8](m => 0.0);
      result[0] := c[0] * other.c[0] - Dot(a, b);
      Start(IntendedWeight, a, b);
      assert forall k :: 0 <= k < 8 ==> result[k] == Base(a, b, k);
      assert result[..] == Partial(IntendedWeight, a, b, 1, 1);
      for i := 1 to 8
        invariant result[..] == Partial(IntendedWeight, a, b, i, 1)
      {
        IntendedRow(result, a, b, i);
      }
      AddCrosses(result, a, b);
      Finish(IntendedWeight, a, b);
      r := new Octonion(result[..]);
    }

    /** `normalize`, with `n` the value `norm()` returns: the zero octonion is
      * left alone, any other has every coefficient divided by the norm, in place. */
    method Normalize(n: real)
      requires Valid() && n >= 0.0 && n * n == SumSq(c[..])
      modifies c
      ensures n > 0.0 ==> c[..] == Divided(old(c[..]), n)
      ensures n == 0.0 ==> c[..] == old(c[..])
    {
      if n > 0.0 {
        forall m | 0 <= m < 8 {
          c[m] := c[m] / n;
        }
      }
    }
  }
}
