/** The stand-alone council simulation: thirteen named forks, each voting "YES"
  * whatever the proposal says. */
module CouncilSimulation {

  const Forks: seq<string> := [
    "Quantum Cosmos", "Gaming Forge", "Powrush Divine", "Nexus Revelations",
    "Grandmasterism", "Space-Thriving", "Shogi Drops", "Go Territories",
    "Xiangqi River", "Makruk Promo", "Janggi Palace", "Astropy Cosmic",
    "Mega-Alchemist"]

  datatype Outcome = Outcome(unanimous: bool, score: string, votes: map<string, string>)

  /** The thirteen names are pairwise distinct. */
  lemma ForksDistinct()
    ensures |Forks| == 13
    ensures forall i, j :: 0 <= i < j < |Forks| ==> Forks[i] != Forks[j]
  {
    forall i, j | 0 <= i < j < |Forks|
      ensures Forks[i] != Forks[j]
    {
      // one case per first index; each closes on the concrete names
      if i == 0 {} else if i == 1 {} else if i == 2 {} else if i == 3 {}
      else if i == 4 {} else if i == 5 {} else if i == 6 {} else if i == 7 {}
      else if i == 8 {} else if i == 9 {} else if i == 10 {} else {}
    }
  }

  /** `deliberate`: every fork votes "YES", so the outcome is unanimous, scored
    * "5-0", and does not depend on the proposal. */
  method Deliberate(proposal: string) returns (r: Outcome)
    ensures r.votes.Keys == set i | 0 <= i < |Forks| :: Forks[i]
    ensures forall name :: name in r.votes ==> r.votes[name] == "YES"
    ensures r.unanimous && r.score == "5-0"
  {
    var votes: map<string, string> := map[];
    var i := 0;
    while i < |Forks|
      invariant 0 <= i <= |Forks|
      invariant votes.Keys == set k | 0 <= k < i :: Forks[k]
      invariant forall name :: name in votes ==> votes[name] == "YES"
    {
      var vote := "YES";
      votes := votes[Forks[i] := vote];
      i := i + 1;
    }
    var unanimous := forall name :: name in votes ==> votes[name] == "YES";
    r := Outcome(unanimous, if unanimous then "5-0" else "deadlock_bent", votes);
  }

  /** The returned map holds exactly the thirteen fork names. */
  lemma VoteCount()
    ensures |set i | 0 <= i < |Forks| :: Forks[i]| == 13
  {
    ForksDistinct();
    DistinctCount(Forks);
  }

  /** A sequence of pairwise distinct elements has as many distinct elements as entries. */
  lemma {:induction false} DistinctCount<T>(xs: seq<T>)
    requires forall i, j :: 0 <= i < j < |xs| ==> xs[i] != xs[j]
    ensures |set i | 0 <= i < |xs| :: xs[i]| == |xs|
    decreases |xs|
  {
    if |xs| > 0 {
      var n := |xs| - 1;
      DistinctCount(xs[..n]);
      var prefix := set i | 0 <= i < n :: xs[..n][i];
      assert (set i | 0 <= i < |xs| :: xs[i]) == prefix + {xs[n]};
      assert xs[n] !in prefix;
    }
  }
}
