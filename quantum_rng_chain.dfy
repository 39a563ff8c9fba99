/** The unified random-number chain: providers are asked in order for eight
  * random bytes, the first usable answer is read as a big-endian fraction of
  * 2^64, and when no provider answers a pseudo-random float is returned.
  * Each provider's answer to the request, and the pseudo-random fallback, are
  * inputs. The exact quotient by 2^64 is rounded to the nearest double, which, as
  * 2^64 is a power of two, is the integer rounded to a double and then scaled. */
module QuantumRngChain {

  datatype Option<T> = None | Some(value: T)

  /** What one `generate_random_bits(repetitions=8)` call did: it raised, or it
    * returned a list. */
  datatype Reply = Raised | Bits(bits: seq<int>)

  /** The providers whose modules could be imported and constructed. */
  datatype Provider = IbmSuperconducting | IonQTrappedIon

  const TwoTo64: real := 18446744073709551616.0

  function Pow256(n: nat): nat {
    if n == 0 then 1 else 256 * Pow256(n - 1)
  }

  /** `int.from_bytes(bs, 'big')`. */
  function BigEndian(bs: seq<int>): int
    decreases |bs|
  {
    if |bs| == 0 then 0 else BigEndian(bs[..|bs| - 1]) * 256 + bs[|bs| - 1]
  }

  predicate Bytes(bs: seq<int>) {
    forall k :: 0 <= k < |bs| ==> 0 <= bs[k] < 256
  }

  /** A byte string reads as a number below 256^length. */
  lemma {:induction false} BigEndianBound(bs: seq<int>)
    requires Bytes(bs)
    ensures 0 <= BigEndian(bs) < Pow256(|bs|)
    decreases |bs|
  {
    if |bs| > 0 {
      var n := |bs| - 1;
      BigEndianBound(bs[..n]);
      assert BigEndian(bs) <= (Pow256(n) - 1) * 256 + 255;
    }
  }

  /** At most the first eight entries, as Python's `bits[:8]`. */
  function FirstEight(bits: seq<int>): seq<int> {
    if |bits| <= 8 then bits else bits[..8]
  }

  const TwoTo64Nat: nat := 0x1_0000_0000_0000_0000

  /** The gap between neighbouring doubles at an integer n below 2^64: 1 below
    * 2^53, doubling at each further power of two up to 2^11 in [2^63, 2^64). */
  function Spacing(n: nat): nat
    requires n < TwoTo64Nat
  {
    if n < 0x20000000000000 then 1
    else if n < 0x40000000000000 then 2
    else if n < 0x80000000000000 then 4
    else if n < 0x100000000000000 then 8
    else if n < 0x200000000000000 then 16
    else if n < 0x400000000000000 then 32
    else if n < 0x800000000000000 then 64
    else if n < 0x1000000000000000 then 128
    else if n < 0x2000000000000000 then 256
    else if n < 0x4000000000000000 then 512
    else if n < 0x8000000000000000 then 1024
    else 2048
  }

  /** n rounded to the nearest double: a double keeps 53 significant bits, so
    * n goes to a multiple of its spacing, ties to the even quotient. Python's
    * `int / int` is correctly rounded, so dividing by 2^64 gives this value,
    * scaled. */
  function RoundToDouble(n: nat): nat
    requires n < TwoTo64Nat
  {
    RoundAt(n, Spacing(n))
  }

  /** n rounded to a multiple of the unit u, ties to the even quotient. */
  function RoundAt(n: nat, u: nat): nat
    requires u >= 1
  {
    Kept(n / u, n % u, u) * u
  }

  /** The quotient kept when the remainder r of n / u is rounded away: down
    * below half a unit, up above it, and to the even quotient on a tie. */
  function Kept(q: nat, r: nat, u: nat): nat {
    if 2 * r < u || (2 * r == u && q % 2 == 0) then q else q + 1
  }

  /** Every spacing divides 2^64. */
  lemma SpacingDivides(n: nat)
    requires n < TwoTo64Nat
    ensures Spacing(n) >= 1 && TwoTo64Nat % Spacing(n) == 0
  {
  }

  /** Integers below 2^53 are doubles already. */
  lemma RoundExactBelow(n: nat)
    requires n < 0x20_0000_0000_0000
    ensures RoundToDouble(n) == n
  {
  }

  /** Below 2^64 the rounded value is at most 2^64: rounding can reach 2^64
    * itself but never passes it. */
  lemma RoundAtMost(n: nat)
    requires n < TwoTo64Nat
    ensures RoundToDouble(n) <= TwoTo64Nat
  {
    SpacingDivides(n);
    var u := Spacing(n);
    var top := TwoTo64Nat / u;
    assert top * u == TwoTo64Nat;
    DivBelow(n, u, top);
    MulAtMost(Kept(n / u, n % u, u), top, u);
  }

  /** A factor whose product with a positive number is positive is positive. */
  lemma PositiveFactor(d: int, u: int)
    requires u > 0 && d * u > 0
    ensures d > 0
  {
  }

  lemma DivBelow(n: nat, u: nat, top: nat)
    requires u > 0 && n < top * u
    ensures n / u < top
  {
    var q := n / u;
    assert q * u <= n;
    assert (top - q) * u == top * u - q * u;
    PositiveFactor(top - q, u);
  }

  lemma MulAtMost(a: nat, b: nat, u: nat)
    requires a <= b
    ensures a * u <= b * u
  {
    assert b * u - a * u == (b - a) * u;
  }

  /** The top 1024 integers below 2^64 all round up to 2^64. */
  lemma RoundReachesTop(n: nat)
    requires TwoTo64Nat - 1024 <= n < TwoTo64Nat
    ensures RoundToDouble(n) == TwoTo64Nat
  {
    assert Spacing(n) == 2048;
    assert n / 2048 == 0x1F_FFFF_FFFF_FFFF;
  }

  /** At most eight bytes read as a number below 2^64. */
  lemma HeadBelow(bits: seq<int>)
    requires Bytes(FirstEight(bits))
    ensures 0 <= BigEndian(FirstEight(bits)) < TwoTo64Nat
  {
    var head := FirstEight(bits);
    BigEndianBound(head);
    Pow256Monotone(|head|, 8);
    assert Pow256(8) == TwoTo64Nat;
  }

  /** `int.from_bytes(bytes(bits[:8]), 'big') / 2**64`, the quotient rounded to
    * a double; `bytes` raises on an entry outside 0..255, which is `None` here. */
  function Decode(bits: seq<int>): Option<real> {
    var head := FirstEight(bits);
    if Bytes(head) then HeadBelow(bits); Some(RoundToDouble(BigEndian(head)) as real / TwoTo64) else None
  }

  /** A decoded value lies in [0, 1]: the rounding can reach 1.0. */
  lemma DecodeInUnit(bits: seq<int>)
    requires Decode(bits).Some?
    ensures 0.0 <= Decode(bits).value <= 1.0
  {
    HeadBelow(bits);
    RoundAtMost(BigEndian(FirstEight(bits)));
  }

  /** Every reply whose first eight bytes read at least 2^64 - 1024 (eight
    * bytes 255, for one) decodes to exactly 1.0. */
  lemma DecodeReachesOne(bits: seq<int>)
    requires Bytes(FirstEight(bits)) && BigEndian(FirstEight(bits)) >= TwoTo64Nat - 1024
    ensures Decode(bits) == Some(1.0)
  {
    HeadBelow(bits);
    RoundReachesTop(BigEndian(FirstEight(bits)));
  }

  /** k bytes 255 read as 256^k - 1, the largest k-byte number. */
  lemma {:induction false} AllOnesRead(k: nat)
    ensures BigEndian(seq(k, _ => 255)) == Pow256(k) - 1
    decreases k
  {
    if k > 0 {
      AllOnesRead(k - 1);
      assert seq(k, _ => 255)[..k - 1] == seq(k - 1, _ => 255);
    }
  }

  /** A reply of eight bytes 255 decodes to 1.0, outside [0, 1). */
  lemma DecodeAllOnes()
    ensures Decode([255, 255, 255, 255, 255, 255, 255, 255]) == Some(1.0)
  {
    var bs := [255, 255, 255, 255, 255, 255, 255, 255];
    assert bs == seq(8, _ => 255);
    AllOnesRead(8);
    assert Pow256(8) == TwoTo64Nat;
    DecodeReachesOne(bs);
  }

  /** The evidently intended reading: the top 53 of the 64 bits over 2^53,
    * `(int_val >> 11) / 2**53`, which a double holds exactly. */
  function DecodeIntended(bits: seq<int>): Option<real> {
    var head := FirstEight(bits);
    if Bytes(head) then HeadBelow(bits); Some(RoundToDouble(BigEndian(head) / 2048) as real / 9007199254740992.0) else None
  }

  /** The intended reading lies in [0, 1) and is within 2^-53 below the exact
    * fraction int_val / 2^64. */
  lemma DecodeIntendedInUnit(bits: seq<int>)
    requires DecodeIntended(bits).Some?
    ensures 0.0 <= DecodeIntended(bits).value < 1.0
    ensures var exact := BigEndian(FirstEight(bits)) as real / TwoTo64;
      exact - 1.0 / 9007199254740992.0 < DecodeIntended(bits).value <= exact
  {
    var n := BigEndian(FirstEight(bits));
    HeadBelow(bits);
    var m := n / 2048;
    assert m < 0x20_0000_0000_0000;
    RoundExactBelow(m);
    assert m * 2048 <= n < m * 2048 + 2048;
    assert (m * 2048) as real == m as real * 2048.0;
    assert DecodeIntended(bits).value == (m as real * 2048.0) / TwoTo64;
  }

  lemma {:induction false} Pow256Monotone(m: nat, n: nat)
    requires m <= n
    ensures Pow256(m) <= Pow256(n)
    decreases n
  {
    if m < n {
      Pow256Monotone(m, n - 1);
    }
  }

  /** Entries after the eighth never affect the value, nor whether it is read. */
  lemma DecodeIgnoresTail(bits: seq<int>, rest: seq<int>)
    requires |bits| == 8
    ensures Decode(bits + rest) == Decode(bits)
  {
    assert FirstEight(bits + rest) == bits;
  }

  /** The value a reply yields, if it yields one: a non-empty list whose first
    * eight entries are bytes. */
  function Answer(reply: Reply): Option<real> {
    match reply
    case Raised => None
    case Bits(bits) => if |bits| == 0 then None else Decode(bits)
  }

  /** `get_uniform_float`: the first reply with an answer decides, otherwise
    * the fallback. */
  function Uniform(replies: seq<Reply>, fallback: real): real
    decreases |replies|
  {
    if |replies| == 0 then fallback
    else match Answer(replies[0])
      case Some(v) => v
      case None => Uniform(replies[1..], fallback)
  }

  /** Replies without an answer are skipped: the result is the first answer. */
  lemma {:induction false} UniformIsFirstAnswer(replies: seq<Reply>, fallback: real, k: nat)
    requires k < |replies| && Answer(replies[k]).Some?
    requires forall j :: 0 <= j < k ==> Answer(replies[j]).None?
    ensures Uniform(replies, fallback) == Answer(replies[k]).value
    decreases k
  {
    if k > 0 {
      UniformIsFirstAnswer(replies[1..], fallback, k - 1);
    }
  }

  /** When no provider answers, the result is the fallback. */
  lemma {:induction false} UniformFallsBack(replies: seq<Reply>, fallback: real)
    requires forall j :: 0 <= j < |replies| ==> Answer(replies[j]).None?
    ensures Uniform(replies, fallback) == fallback
    decreases |replies|
  {
    if |replies| > 0 {
      UniformFallsBack(replies[1..], fallback);
    }
  }

  /** With a fallback in [0, 1) the result is in [0, 1]; only a provider's
    * answer can be 1.0. */
  lemma {:induction false} UniformInUnit(replies: seq<Reply>, fallback: real)
    requires 0.0 <= fallback < 1.0
    ensures 0.0 <= Uniform(replies, fallback) <= 1.0
    decreases |replies|
  {
    if |replies| > 0 {
      match Answer(replies[0])
      case Some(v) =>
        DecodeInUnit(replies[0].bits);
      case None =>
        UniformInUnit(replies[1..], fallback);
    }
  }

  class UnifiedQuantumRNG {
    var providers: seq<Provider>
    var active: string

    /** The lazy import chain: a provider whose module loads is appended, and
      * the first one to load names the active source. */
    constructor(ibmLoads: bool, ionqLoads: bool)
      ensures fresh(this)
      ensures providers == (if ibmLoads then [IbmSuperconducting] else []) + (if ionqLoads then [IonQTrappedIon] else [])
      ensures active == (if ibmLoads then "IBM superconducting"
                         else if ionqLoads then "IonQ trapped-ion"
                         else "pseudo-random")
    {
      providers := [];
      active := "pseudo-random";
      new;
      if ibmLoads {
        providers := providers + [IbmSuperconducting];
        active := "IBM superconducting";
      }
      if ionqLoads {
        providers := providers + [IonQTrappedIon];
        if active == "pseudo-random" {
          active := "IonQ trapped-ion";
        }
      }
    }

    /** `get_uniform_float`, with `replies[i]` the answer of the i-th provider
      * and `fallback` the value of `random.random()`. */
    method GetUniformFloat(replies: seq<Reply>, fallback: real) returns (r: real)
      requires |replies| == |providers|
      ensures r == Uniform(replies, fallback)
    {
      var i := 0;
      while i < |providers|
        invariant 0 <= i <= |replies|
        invariant Uniform(replies[i..], fallback) == Uniform(replies, fallback)
      {
        assert replies[i..][1..] == replies[i + 1..];
        if replies[i].Bits? && |replies[i].bits| > 0 {
          var head := FirstEight(replies[i].bits);
          if Bytes(head) {
            HeadBelow(replies[i].bits);
            return RoundToDouble(BigEndian(head)) as real / TwoTo64;
          }
        }
        i := i + 1;
      }
      r := fallback;
    }
  }
}
