/** The first odd-count law: round down to an odd number, never below 5.
  * Python's `//` floors; Dafny's `/` is Euclidean, which agrees with flooring
  * for the positive divisor 2, and `%` by 2 agrees as well. */
module EternalLaws {

  /** `enforce_odd`: max(5, 2 * ((n + 1) // 2) - 1). */
  function EnforceOdd(n: int): (r: int)
    ensures r % 2 == 1 && r >= 5
    ensures r == if n <= 5 then 5 else if n % 2 == 1 then n else n - 1
  {
    var down := 2 * ((n + 1) / 2) - 1;
    if down > 5 then down else 5
  }

  /** `is_odd_positive`. */
  predicate IsOddPositive(n: int) {
    n >= 5 && n % 2 == 1
  }

  /** Every result satisfies the law; the law's fixed points are exactly the odd n >= 5. */
  lemma EnforceOddSatisfiesLaw(n: int)
    ensures IsOddPositive(EnforceOdd(n))
    ensures EnforceOdd(n) == n <==> IsOddPositive(n)
  {
  }

  /** Enforcing twice is enforcing once. */
  lemma EnforceOddIdempotent(n: int)
    ensures EnforceOdd(EnforceOdd(n)) == EnforceOdd(n)
  {
  }

  /** Never more than n once n reaches 5, and never more than one below it. */
  lemma EnforceOddRoundsDown(n: int)
    requires n >= 5
    ensures n - 1 <= EnforceOdd(n) <= n
  {
  }

  /** `council_size = enforce_odd(12)`. */
  const CouncilSize: int := EnforceOdd(12)

  lemma CouncilSizeIsEleven()
    ensures CouncilSize == 11
  {
  }
}
