/** The buffered quantum random-number source of the bio voting module: a batch
  * of numbers is fetched from the preferred provider (Rigetti, else IonQ),
  * else from the ANU vacuum service, else drawn pseudo-randomly, and numbers
  * are handed out front first. What each provider and the service answer, and
  * the pseudo-random draws, are inputs. */
module BioVotingRng {
  import opened Powers

  datatype Option<T> = None | Some(value: T)

  /** The outcome of a call into a provider or the network: it raised, or it
    * returned a value. */
  datatype Call<T> = Raised | Returned(value: T)

  /** The decoded JSON answer of the ANU service. */
  datatype AnuReply = AnuReply(success: bool, data: seq<int>)

  /** Everything one `refill` can observe. */
  datatype Entropy = Entropy(
    rigettiBits: Call<seq<int>>, rigettiQubits: nat,
    ionqBits: Call<seq<int>>, ionqQubits: nat,
    anu: Call<AnuReply>,
    draws: seq<int>)

  datatype Source = RigettiSuperconducting | IonQTrappedIon | AnuQrng | PseudoRandom

  /** Whether provider modules imported, and whether their constructors succeeded. */
  datatype Setup = Setup(rigettiAvailable: bool, ionqAvailable: bool, rigettiStarts: bool, ionqStarts: bool)

  const Scale: real := 65536.0

  /** `[b / (2 ** qubits) * 65536 for b in bits]` */
  function Scaled(bits: seq<int>, qubits: nat): (xs: seq<real>)
    ensures |xs| == |bits|
  {
    seq(|bits|, k requires 0 <= k < |bits| => bits[k] as real / Pow2(qubits) as real * Scale)
  }

  /** A measured bit string below 2^qubits scales into [0, 65536). */
  lemma ScaledInRange(bits: seq<int>, qubits: nat)
    requires forall k :: 0 <= k < |bits| ==> 0 <= bits[k] < Pow2(qubits)
    ensures forall k :: 0 <= k < |bits| ==> 0.0 <= Scaled(bits, qubits)[k] < Scale
  {
    forall k | 0 <= k < |bits|
      ensures 0.0 <= Scaled(bits, qubits)[k] < Scale
    {
      DivBelowOne(bits[k] as real, Pow2(qubits) as real);
    }
  }

  lemma MulNonneg(x: real, y: real)
    requires x >= 0.0 && y >= 0.0
    ensures x * y >= 0.0
  {
  }

  lemma DivBelowOne(x: real, p: real)
    requires 0.0 <= x < p
    ensures 0.0 <= x / p < 1.0
  {
  }

  function Reals(xs: seq<int>): (ys: seq<real>)
    ensures |ys| == |xs|
  {
    seq(|xs|, k requires 0 <= k < |xs| => xs[k] as real)
  }

  /** The buffer and source after a refill. */
  datatype Refilled = Refilled(numbers: seq<real>, source: Source)

  /** The pseudo-random branch. */
  function Fallback(e: Entropy): Refilled {
    Refilled(Reals(e.draws), PseudoRandom)
  }

  /** The ANU branch, reached when no preferred provider gave bits. */
  function FromAnu(e: Entropy): Refilled {
    match e.anu
    case Raised => Fallback(e)
    case Returned(reply) => if reply.success then Refilled(Reals(reply.data), AnuQrng) else Fallback(e)
  }

  /** `refill`: a preferred provider that returns bits fills the buffer and keeps
    * the source; one that returns nothing falls through to ANU; any exception
    * ends in the pseudo-random branch. */
  function NextBatch(preferRigetti: bool, preferIonq: bool, source: Source, e: Entropy): Refilled {
    if preferRigetti then
      match e.rigettiBits
      case Raised => Fallback(e)
      case Returned(bits) => if |bits| > 0 then Refilled(Scaled(bits, e.rigettiQubits), source) else FromAnu(e)
    else if preferIonq then
      match e.ionqBits
      case Raised => Fallback(e)
      case Returned(bits) => if |bits| > 0 then Refilled(Scaled(bits, e.ionqQubits), source) else FromAnu(e)
    else FromAnu(e)
  }

  /** The refill ends in the pseudo-random branch. */
  predicate FallsBack(preferRigetti: bool, preferIonq: bool, e: Entropy) {
    var anuFails := e.anu.Raised? || !e.anu.value.success;
    if preferRigetti then
      e.rigettiBits.Raised? || (|e.rigettiBits.value| == 0 && anuFails)
    else if preferIonq then
      e.ionqBits.Raised? || (|e.ionqBits.value| == 0 && anuFails)
    else anuFails
  }

  /** The draws `refill` makes when it falls back: `batch_size` values of
    * `random.randint(0, 65535)`. */
  predicate DrawsFor(e: Entropy, batchSize: nat) {
    && |e.draws| == batchSize
    && forall k :: 0 <= k < |e.draws| ==> 0 <= e.draws[k] <= 65535
  }

  /** The pseudo-random branch stores one draw per batch slot, each in
    * 0..65535, and names the source "pseudo-random". */
  lemma FallbackNextBatch(preferRigetti: bool, preferIonq: bool, source: Source, e: Entropy, batchSize: nat)
    requires FallsBack(preferRigetti, preferIonq, e)
    requires DrawsFor(e, batchSize)
    ensures var r := NextBatch(preferRigetti, preferIonq, source, e);
      && |r.numbers| == batchSize
      && (forall k :: 0 <= k < batchSize ==> 0.0 <= r.numbers[k] <= 65535.0)
      && r.source == PseudoRandom
  {
  }

  /** When Rigetti is preferred, IonQ's answer is never consulted. */
  lemma RigettiShadowsIonq(preferIonq: bool, source: Source, e: Entropy, ionq: Call<seq<int>>)
    ensures NextBatch(true, preferIonq, source, e) == NextBatch(true, preferIonq, source, e.(ionqBits := ionq))
  {
  }

  /** An empty Rigetti answer falls through to ANU, skipping IonQ. */
  lemma EmptyRigettiGoesToAnu(preferIonq: bool, source: Source, e: Entropy)
    requires e.rigettiBits == Returned([])
    ensures NextBatch(true, preferIonq, source, e) == FromAnu(e)
  {
  }

  /** A provider's bits are stored scaled to 0..65536, in order, and a refill
    * never keeps anything of the old buffer (it takes no old buffer). */
  lemma ProviderRefill(preferIonq: bool, source: Source, e: Entropy)
    requires e.rigettiBits.Returned? && |e.rigettiBits.value| > 0
    ensures var r := NextBatch(true, preferIonq, source, e);
      && |r.numbers| == |e.rigettiBits.value|
      && (forall k :: 0 <= k < |r.numbers| ==>
            r.numbers[k] == e.rigettiBits.value[k] as real / Pow2(e.rigettiQubits) as real * 65536.0)
      && r.source == source
  {
  }

  /** `get_int() / 65536.0` lies in [0, 1) for an integer in 0..65535. */
  function ToUnit(v: real): (f: real)
    ensures 0.0 <= v < Scale ==> 0.0 <= f < 1.0
  {
    v / Scale
  }

  /** `a + (b - a) * f` lies between a and b for f in [0, 1). */
  function Interpolate(a: real, b: real, f: real): (u: real)
    ensures 0.0 <= f < 1.0 && a <= b ==> a <= u <= b
    ensures 0.0 <= f < 1.0 && b <= a ==> b <= u <= a
  {
    assert 0.0 <= f < 1.0 && a <= b ==> 0.0 <= (b - a) * f <= (b - a) by {
      if 0.0 <= f < 1.0 && a <= b {
        MulNonneg(b - a, 1.0 - f);
        MulNonneg(b - a, f);
      }
    }
    assert 0.0 <= f < 1.0 && b <= a ==> 0.0 <= (a - b) * f <= (a - b) by {
      if 0.0 <= f < 1.0 && b <= a {
        MulNonneg(a - b, 1.0 - f);
        MulNonneg(a - b, f);
      }
    }
    a + (b - a) * f
  }

  class QuantumRNG {
    var batchSize: nat
    var numbers: seq<real>
    var source: Source
    var preferRigetti: bool
    var preferIonq: bool

    /** Construction: a provider is preferred only when asked for and available,
      * a provider whose constructor fails is dropped, and the first refill
      * fills the buffer. */
    constructor(batchSize: nat, preferRigetti: bool, preferIonq: bool, setup: Setup, e: Entropy)
      requires DrawsFor(e, batchSize)
      ensures fresh(this) && this.batchSize == batchSize
      ensures this.preferRigetti == (preferRigetti && setup.rigettiAvailable && setup.rigettiStarts)
      ensures this.preferIonq == (preferIonq && setup.ionqAvailable &&
                                  (this.preferRigetti || setup.ionqStarts))
      ensures var started := if this.preferRigetti then RigettiSuperconducting
                             else if this.preferIonq then IonQTrappedIon
                             else PseudoRandom;
        Refilled(numbers, source) == NextBatch(this.preferRigetti, this.preferIonq, started, e)
      ensures FallsBack(this.preferRigetti, this.preferIonq, e) ==>
        && |numbers| == batchSize && source == PseudoRandom
        && forall k :: 0 <= k < |numbers| ==> 0.0 <= numbers[k] <= 65535.0
    {
      this.batchSize := batchSize;
      numbers := [];
      source := PseudoRandom;
      this.preferRigetti := preferRigetti && setup.rigettiAvailable;
      this.preferIonq := preferIonq && setup.ionqAvailable;
      new;
      if this.preferRigetti {
        if setup.rigettiStarts {
          source := RigettiSuperconducting;
        } else {
          this.preferRigetti := false;
        }
      }
      if !this.preferRigetti && this.preferIonq {
        if setup.ionqStarts {
          source := IonQTrappedIon;
        } else {
          this.preferIonq := false;
        }
      }
      Refill(e);
    }

    /** `refill`: the buffer is replaced, never extended. */
    method Refill(e: Entropy)
      requires DrawsFor(e, batchSize)
      modifies this
      ensures Refilled(numbers, source) == NextBatch(preferRigetti, preferIonq, old(source), e)
      ensures FallsBack(preferRigetti, preferIonq, e) ==>
        && |numbers| == batchSize && source == PseudoRandom
        && forall k :: 0 <= k < |numbers| ==> 0.0 <= numbers[k] <= 65535.0
      ensures batchSize == old(batchSize) && preferRigetti == old(preferRigetti) && preferIonq == old(preferIonq)
    {
      if FallsBack(preferRigetti, preferIonq, e) {
        FallbackNextBatch(preferRigetti, preferIonq, source, e, batchSize);
      }
      var r := NextBatch(preferRigetti, preferIonq, source, e);
      numbers := r.numbers;
      source := r.source;
    }

    /** `get_int`: a non-empty buffer hands out its front number without a
      * refill; an empty one is refilled first. Popping from a buffer that is
      * still empty raises, which is `None` here. */
    method GetInt(e: Entropy) returns (r: Option<real>)
      requires DrawsFor(e, batchSize)
      modifies this
      ensures old(numbers) != [] ==> r == Some(old(numbers)[0]) && numbers == old(numbers)[1..] && source == old(source)
      ensures old(numbers) == [] ==>
        var batch := NextBatch(preferRigetti, preferIonq, old(source), e);
        && source == batch.source
        && (batch.numbers != [] ==> r == Some(batch.numbers[0]) && numbers == batch.numbers[1..])
        && (batch.numbers == [] ==> r == None && numbers == [])
      ensures batchSize == old(batchSize) && preferRigetti == old(preferRigetti) && preferIonq == old(preferIonq)
    {
      if numbers == [] {
        Refill(e);
      }
      if numbers == [] {
        return None;
      }
      r := Some(numbers[0]);
      numbers := numbers[1..];
    }

    /** `get_float`: the number handed out, divided by 65536. */
    method GetFloat(e: Entropy) returns (r: Option<real>)
      requires DrawsFor(e, batchSize)
      modifies this
      ensures old(numbers) != [] ==> r == Some(ToUnit(old(numbers)[0])) && numbers == old(numbers)[1..] && source == old(source)
      ensures old(numbers) == [] ==>
        var batch := NextBatch(preferRigetti, preferIonq, old(source), e);
        && source == batch.source
        && (batch.numbers != [] ==> r == Some(ToUnit(batch.numbers[0])) && numbers == batch.numbers[1..])
        && (batch.numbers == [] ==> r == None && numbers == [])
      ensures batchSize == old(batchSize) && preferRigetti == old(preferRigetti) && preferIonq == old(preferIonq)
    {
      var n := GetInt(e);
      r := if n.Some? then Some(ToUnit(n.value)) else None;
    }

    /** `uniform(a, b)`: the float handed out, stretched onto [a, b). */
    method Uniform(a: real, b: real, e: Entropy) returns (r: Option<real>)
      requires DrawsFor(e, batchSize)
      modifies this
      ensures old(numbers) != [] ==> r == Some(Interpolate(a, b, ToUnit(old(numbers)[0]))) && numbers == old(numbers)[1..] && source == old(source)
      ensures old(numbers) == [] ==>
        var batch := NextBatch(preferRigetti, preferIonq, old(source), e);
        && source == batch.source
        && (batch.numbers != [] ==> r == Some(Interpolate(a, b, ToUnit(batch.numbers[0]))) && numbers == batch.numbers[1..])
        && (batch.numbers == [] ==> r == None && numbers == [])
      ensures batchSize == old(batchSize) && preferRigetti == old(preferRigetti) && preferIonq == old(preferIonq)
    {
      var f := GetFloat(e);
      r := if f.Some? then Some(Interpolate(a, b, f.value)) else None;
    }
  }
}
