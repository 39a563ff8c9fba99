/** The APAAGI council object: it keeps a prefix of the registered forks, asks
  * each one for a vote, keys the votes by fork name, and reports unanimity.
  * A fork is its name and its deliberation function; `sign_proposal` is a
  * parameter; `add_dynamic_fork` only prints, so the model reports whether
  * it would be called. */
module CouncilCore {

  datatype Option<T> = None | Some(value: T)

  /** What a fork returns: its vote and its free-text insight. */
  datatype Vote = Vote(vote: string, insight: string)

  datatype Fork = Fork(name: string, deliberate: string -> Vote)

  datatype Result = Result(
    proposal: string,
    votes: map<string, Vote>,
    unanimous: bool,
    score: string,
    signedHash: Option<string>,
    thrivingOutcome: string)

  /** Python's `xs[:n]`: a negative n counts from the end, and n is clamped to the length. */
  function SlicePrefix<T>(xs: seq<T>, n: int): (p: seq<T>)
    ensures 0 <= n ==> p == xs[..if n <= |xs| then n else |xs|]
    ensures n < 0 ==> p == xs[..if |xs| + n >= 0 then |xs| + n else 0]
  {
    var end := if n < 0 then |xs| + n else n;
    var clamped := if end < 0 then 0 else if end > |xs| then |xs| else end;
    xs[..clamped]
  }

  /** The votes dictionary after the forks have voted in order: a later fork with
    * the same name overwrites an earlier one. */
  function VotesOf(forks: seq<Fork>, proposal: string): map<string, Vote>
    decreases |forks|
  {
    if |forks| == 0 then map[]
    else
      var last := forks[|forks| - 1];
      VotesOf(forks[..|forks| - 1], proposal)[last.name := last.deliberate(proposal)]
  }

  /** Exactly one key per distinct fork name. */
  lemma {:induction false} VotesKeys(forks: seq<Fork>, proposal: string)
    ensures VotesOf(forks, proposal).Keys == set i | 0 <= i < |forks| :: forks[i].name
    decreases |forks|
  {
    if |forks| > 0 {
      var n := |forks| - 1;
      VotesKeys(forks[..n], proposal);
      assert forall i :: 0 <= i < n ==> forks[..n][i] == forks[i];
    }
  }

  /** A name's entry is the vote of the LAST fork carrying it. */
  lemma {:induction false} VotesLastWins(forks: seq<Fork>, proposal: string, i: nat)
    requires i < |forks|
    requires forall j :: i < j < |forks| ==> forks[j].name != forks[i].name
    ensures forks[i].name in VotesOf(forks, proposal)
    ensures VotesOf(forks, proposal)[forks[i].name] == forks[i].deliberate(proposal)
    decreases |forks|
  {
    var n := |forks| - 1;
    if i < n {
      VotesLastWins(forks[..n], proposal, i);
    }
  }

  /** `all(v["vote"] == "YES" for v in votes.values())`; true for no votes at all. */
  predicate AllYes(votes: map<string, Vote>) {
    forall name :: name in votes ==> votes[name].vote == "YES"
  }

  /** A "NO" from a fork whose name a later fork reuses is overwritten and cannot
    * break unanimity: two forks named "a", the first voting NO, the second YES. */
  lemma ShadowedNoIsLost(proposal: string)
    ensures var forks := [Fork("a", _ => Vote("NO", "")), Fork("a", _ => Vote("YES", ""))];
      AllYes(VotesOf(forks, proposal))
  {
    var forks := [Fork("a", _ => Vote("NO", "")), Fork("a", _ => Vote("YES", ""))];
    assert forks[..1][..0] == [];
    assert VotesOf(forks, proposal) == map["a" := Vote("YES", "")];
  }

  class APAGICouncil {
    var forks: seq<Fork>
    var mleActive: bool

    /** `__init__(forks=13)`: keeps `all_forks[:forks]`, in order, and activates self-play. */
    constructor (allForks: seq<Fork>, count: int)
      ensures forks == SlicePrefix(allForks, count)
      ensures mleActive
    {
      forks := SlicePrefix(allForks, count);
      mleActive := true;
    }

    /** `deliberate`: changes nothing on the council.  `addsFork` reports whether
      * `add_dynamic_fork` is called. */
    method Deliberate(proposal: string, sign: string -> string) returns (r: Result, addsFork: bool)
      ensures r.proposal == proposal
      ensures r.votes == VotesOf(forks, proposal)
      ensures r.unanimous <==> AllYes(r.votes)
      ensures r.unanimous ==> r.score == "5-0" && r.thrivingOutcome == "abundance_manifested" && r.signedHash == Some(sign(proposal))
      ensures !r.unanimous ==> r.score == "harmony_bent" && r.thrivingOutcome == "mercy_redirected" && r.signedHash == None
      ensures addsFork <==> mleActive && |forks| < 20
    {
      var votes: map<string, Vote> := map[];
      var i := 0;
      while i < |forks|
        invariant 0 <= i <= |forks|
        invariant votes == VotesOf(forks[..i], proposal)
      {
        var fork := forks[i];
        var vote := fork.deliberate(proposal);
        assert forks[..i + 1][..i] == forks[..i];
        votes := votes[fork.name := vote];
        i := i + 1;
      }
      assert forks[..i] == forks;
      var unanimous := AllYes(votes);
      var signed := if unanimous then Some(sign(proposal)) else None;
      r := Result(proposal, votes, unanimous,
                  if unanimous then "5-0" else "harmony_bent",
                  signed,
                  if unanimous then "abundance_manifested" else "mercy_redirected");
      addsFork := mleActive && |forks| < 20;
    }
  }
}
