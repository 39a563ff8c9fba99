/** Powers of two, shared by the modules that read measured bit strings and
  * scale by `2 ** n`. */
module Powers {

  /** `2 ** n`. */
  function Pow2(n: nat): (p: nat)
    ensures p >= 1
  {
    if n == 0 then 1 else 2 * Pow2(n - 1)
  }

}
