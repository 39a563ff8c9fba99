/** The Mercy Shards loot pull with a pity counter: every miss raises the drop
  * chance, a drop resets the counter. The random number drawn for each pull is
  * an input. */
module PowrushMercyShards {

  const BaseChance: real := 0.01
  const MaxPity: nat := 900

  /** base_chance + (pity_counter / max_pity) * 0.99 */
  function Chance(base: real, pity: nat, maxPity: nat): real
    requires maxPity > 0
  {
    base + (pity as real / maxPity as real) * 0.99
  }

  /** A higher pity counter never lowers the chance. */
  lemma ChanceMonotone(base: real, p: nat, q: nat, maxPity: nat)
    requires maxPity > 0 && p <= q
    ensures Chance(base, p, maxPity) <= Chance(base, q, maxPity)
  {
    var m := maxPity as real;
    assert p as real / m <= q as real / m by {
      assert p as real / m * m == p as real;
      assert q as real / m * m == q as real;
    }
  }

  /** With the default rates the chance is exactly one at the pity cap. */
  lemma ChanceAtCap()
    ensures Chance(BaseChance, MaxPity, MaxPity) == 1.0
  {
  }

  /** The outcome of one pull: whether a shard dropped and the new counter. */
  datatype Pull = Pull(drop: bool, pity: nat)

  /** `mercy_shard_pull`, with the value of `random.random()` as `draw`. */
  function MercyShardPull(draw: real, base: real, pity: nat, maxPity: nat): Pull
    requires maxPity > 0
  {
    if draw < Chance(base, pity, maxPity) then Pull(true, 0) else Pull(false, pity + 1)
  }

  /** A drop resets the counter, a miss raises it by one, and a drop happens
    * exactly when the draw falls below the chance. */
  lemma PullOutcome(draw: real, base: real, pity: nat, maxPity: nat)
    requires maxPity > 0
    ensures var r := MercyShardPull(draw, base, pity, maxPity);
      && (r.drop <==> draw < Chance(base, pity, maxPity))
      && (r.drop ==> r.pity == 0)
      && (!r.drop ==> r.pity == pity + 1)
  {
  }

  /** At the pity cap and beyond, every draw in [0, 1) drops a shard. */
  lemma PullAtCapDrops(draw: real, pity: nat)
    requires 0.0 <= draw < 1.0 && pity >= MaxPity
    ensures MercyShardPull(draw, BaseChance, pity, MaxPity).drop
  {
    ChanceAtCap();
    ChanceMonotone(BaseChance, MaxPity, pity, MaxPity);
  }

  /** Drops and the final counter after pulling once per draw, from a zero counter. */
  function RunPulls(draws: seq<real>): (nat, nat)
    decreases |draws|
  {
    if |draws| == 0 then (0, 0)
    else
      var (drops, pity) := RunPulls(draws[..|draws| - 1]);
      var pull := MercyShardPull(draws[|draws| - 1], BaseChance, pity, MaxPity);
      (if pull.drop then drops + 1 else drops, pull.pity)
  }

  /** The 100-pull demo: each pull feeds its counter to the next. */
  method DemoPulls(draws: seq<real>) returns (drops: nat, pity: nat)
    ensures (drops, pity) == RunPulls(draws)
  {
    pity := 0;
    drops := 0;
    var i := 0;
    while i < |draws|
      invariant 0 <= i <= |draws|
      invariant (drops, pity) == RunPulls(draws[..i])
    {
      assert draws[..i + 1][..i] == draws[..i];
      var pull := MercyShardPull(draws[i], BaseChance, pity, MaxPity);
      pity := pull.pity;
      if pull.drop {
        drops := drops + 1;
      }
      i := i + 1;
    }
    assert draws[..i] == draws;
  }

  /** Every pull either drops or raises the counter: drops plus the final
    * counter never exceed the number of pulls. */
  lemma {:induction false} RunPullsBound(draws: seq<real>)
    ensures RunPulls(draws).0 + RunPulls(draws).1 <= |draws|
    decreases |draws|
  {
    if |draws| > 0 {
      RunPullsBound(draws[..|draws| - 1]);
    }
  }

  /** The pull that ends a prefix dropped exactly when that prefix leaves a zero counter. */
  ghost predicate DroppedAt(draws: seq<real>, k: nat)
    requires k < |draws|
  {
    RunPulls(draws[..k + 1]).1 == 0
  }

  /** The final counter is the number of pulls since the last drop: the last
    * `pity` pulls all missed, and the pull before them dropped. */
  lemma {:induction false} PityCountsSinceLastDrop(draws: seq<real>)
    ensures var pity := RunPulls(draws).1;
      && pity <= |draws|
      && (forall k :: |draws| - pity <= k < |draws| ==> !DroppedAt(draws, k))
      && (pity < |draws| ==> DroppedAt(draws, |draws| - pity - 1))
    decreases |draws|
  {
    if |draws| > 0 {
      var n := |draws| - 1;
      var prefix := draws[..n];
      PityCountsSinceLastDrop(prefix);
      RunPullsBound(draws);
      assert draws[..n + 1] == draws;
      var pity := RunPulls(draws).1;
      // a nonzero counter means the last pull missed and counted on from the prefix's
      assert pity > 0 ==> pity == RunPulls(prefix).1 + 1;
      forall k | |draws| - pity <= k < n
        ensures !DroppedAt(draws, k)
      {
        assert !DroppedAt(prefix, k);
        assert draws[..k + 1] == prefix[..k + 1];
      }
      if 0 < pity < |draws| {
        assert draws[..|draws| - pity] == prefix[..|prefix| - (pity - 1)];
      }
    }
  }

  /** With draws in [0, 1) the counter never passes the cap. */
  lemma {:induction false} PityCapped(draws: seq<real>)
    requires forall k :: 0 <= k < |draws| ==> 0.0 <= draws[k] < 1.0
    ensures RunPulls(draws).1 <= MaxPity
    decreases |draws|
  {
    if |draws| > 0 {
      var n := |draws| - 1;
      PityCapped(draws[..n]);
      var pity := RunPulls(draws[..n]).1;
      if pity == MaxPity {
        PullAtCapDrops(draws[n], pity);
      }
    }
  }
}
