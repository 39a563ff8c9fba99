/** Shares of a whole: a count divided by a total, as the `np.mean` of a
  * boolean array and the heavy-output fraction compute them. */
module Ratios {

  /** A part c of a positive whole n makes a share in [0, 1]. */
  lemma ShareInUnit(c: real, n: real)
    requires 0.0 <= c <= n && n > 0.0
    ensures 0.0 <= c / n <= 1.0
  {
  }

}
