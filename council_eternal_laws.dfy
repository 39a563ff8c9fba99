/** The second odd-count law (AGi-Council-System/eternal_laws.py): round UP an
  * even count to the next odd number, leave odd counts alone. */
module CouncilEternalLaws {
  import EternalLaws

  const EternalVoterCount: int := 13

  /** `enforce_odd`: n + 1 when n is even, n otherwise. */
  function EnforceOdd(n: int): (r: int)
    ensures r % 2 == 1
    ensures r - n == 0 || r - n == 1
    ensures r == n <==> n % 2 == 1
  {
    if n % 2 == 0 then n + 1 else n
  }

  lemma EnforceOddIdempotent(n: int)
    ensures EnforceOdd(EnforceOdd(n)) == EnforceOdd(n)
  {
  }

  /** The voter count is a fixed point, and the printed `enforce_odd(12)` is 13. */
  lemma VoterCountFixed()
    ensures EnforceOdd(EternalVoterCount) == EternalVoterCount
    ensures EnforceOdd(12) == 13
  {
  }

  /** The two laws agree only on odd counts of at least 5 and on 4; on 12 they give 11 and 13. */
  lemma LawsDisagree(n: int)
    ensures EnforceOdd(n) == EternalLaws.EnforceOdd(n) <==> (n >= 5 && n % 2 == 1) || n == 4
    ensures EternalLaws.EnforceOdd(12) == 11 && EnforceOdd(12) == 13
  {
  }
}
