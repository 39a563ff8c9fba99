# AGi Council System — a verified model of its deterministic core

The AGi Council System is a collection of Python scripts. They simulate bosonic quantum error correction for a "mercy council" of oscillator modes, run an odd-sized voting council, and drive a few small simulations. This project models, in Dafny, the part of the system whose behaviour is fixed once every random draw and every library result is given. It proves what that code promises.

- **Bosonic error-correction rules** (modules `GkpRounding`, `GkpLattice`, `BosonicState`, `ModeSchedules`, and one module per script):
  - the GKP (Gottesman-Kitaev-Preskill) lattice state, built as a finite sum of displaced squeezed vacua;
  - the big-envelope rounding correction, under numpy's round-half-to-even;
  - the damped small-envelope step;
  - the cat-code parity syndrome and its pi rotation;
  - the even-parity projection with post-selection;
  - the multi-mode schedules: the beam-splitter chain or full mesh, the shift layout, and per-mode correction in either order, every reading taken from one noisy snapshot.

  Quantum states are symbolic terms that record which operator hit which mode, in which order. The lattice spacing sqrt(pi) is a parameter `s > 0`. Quadrature means, parity probabilities and fidelities are library results and enter as function parameters.
- **Odd-count laws** (`EternalLaws`, `CouncilEternalLaws`): the two conflicting `enforce_odd` rules, one rounding down (never below 5) and one rounding up.
- **Council deliberation** (`CouncilCore`, `CouncilSimulation`, `ImmaculacyGuardian`):
  - the council's fork prefix and its name-keyed votes;
  - unanimity and the fields that follow from it;
  - the thirteen-fork simulation;
  - the Immaculacy Guardian's six string checks and its issue list.
- **Random-number plumbing** (`BioVotingRng`, `QuantumRngChain`):
  - the FIFO buffer with provider fall-through and refill;
  - the provider chain, which reads eight bytes as a big-endian fraction of 2^64.
- **Small state machines** (`PowrushMercyShards`, `MercyOverride`):
  - the pity counter of the Mercy Shards pull;
  - the leaky integrate-and-fire council with its human override.
- **Octonion product** (`OctonionMercyShards`): the multiplication table, the product as written and as intended, and normalisation.
- **Chess material evaluation** (`ChessEngineVariants`): the material count, and the variant-move simulator over an abstract chess library.
- **Quantum-volume loop** (`QuantumVolumeBenchmark`): heavy-output counting and the width sweep.
- **Mycelium cellular automaton** (`MyceliumGrowth`): neighbourhoods, growth, algal spread, maturation, radiation, and the run metrics, every draw an input.

Objects that the source updates in place are Dafny classes whose methods are proved against specification functions:
- `QuantumRNG`, `UnifiedQuantumRNG`, `LIFNeuron`, `MercyCouncil`, `Octonion`, `Engine` and `MyceliumGrowthSim`;
- the loops of the scripts, which become methods with loop invariants.

The model follows the code as written everywhere. In five places it also proves a discrepancy and gives the corrected definition beside the written one; see "Findings". These are the small-envelope correction of `gkp_full_correction.py`, the octonion product, the quantum-RNG decode, the heavy-output scoring of the quantum-volume benchmark, and the restraining override of the mercy council.

## Model

| member | source | states |
|---|---|---|
| EternalLaws.EnforceOdd | eternal_laws.py:1-2 | the result is odd and at least 5; it is 5 for n <= 5, n itself for odd n, n - 1 for even n |
| EternalLaws.EnforceOddSatisfiesLaw | eternal_laws.py:1-5 | every result passes `is_odd_positive`, and n is left unchanged exactly when it already passes |
| EternalLaws.EnforceOddIdempotent | eternal_laws.py:1-2 | enforcing twice gives the same count as enforcing once |
| EternalLaws.EnforceOddRoundsDown | eternal_laws.py:1-2 | from 5 upward the law rounds down, by at most one |
| EternalLaws.CouncilSizeIsEleven | eternal_laws.py:8 | `council_size = enforce_odd(12)` is 11 |
| CouncilEternalLaws.EnforceOdd | AGi-Council-System/eternal_laws.py:25-29 | the result is odd, is n or n + 1, and equals n exactly when n is odd |
| CouncilEternalLaws.EnforceOddIdempotent | AGi-Council-System/eternal_laws.py:25-29 | enforcing twice gives the same count as enforcing once |
| CouncilEternalLaws.VoterCountFixed | AGi-Council-System/eternal_laws.py:6-36 | the eternal voter count 13 is a fixed point, and the printed `enforce_odd(12)` is 13 |
| CouncilEternalLaws.LawsDisagree | AGi-Council-System/eternal_laws.py:25-29 | the two `enforce_odd` laws agree exactly on odd counts of at least 5 and on 4; on 12 they give 11 and 13 |
| CouncilCore.SlicePrefix | agi_council_system/core.py:11 | `all_forks[:forks]` keeps the first n forks, clamped to the list, and for a negative n drops the last -n |
| CouncilCore.VotesKeys | agi_council_system/core.py:16-19 | the votes dictionary has exactly one key per distinct fork name |
| CouncilCore.VotesLastWins | agi_council_system/core.py:16-19 | a name's entry is the vote of the last fork carrying that name |
| CouncilCore.ShadowedNoIsLost | agi_council_system/core.py:16-21 | a "NO" from a fork whose name a later fork reuses is overwritten, so the council still reads as unanimous |
| CouncilCore.APAGICouncil.constructor | agi_council_system/core.py:10-12 | the council keeps `all_forks[:forks]` in order and turns self-play on |
| CouncilCore.APAGICouncil.Deliberate | agi_council_system/core.py:15-40 | the votes are the forks' votes keyed by name; unanimity holds exactly when every vote is "YES"; the score, signature and outcome follow unanimity; a fork is added exactly when self-play is on and fewer than 20 forks sit |
| CouncilSimulation.ForksDistinct | agi_council_system/council_simulation.py:5-20 | the thirteen fork names are pairwise distinct |
| CouncilSimulation.Deliberate | agi_council_system/council_simulation.py:22-29 | every fork votes "YES", so the result is unanimous and scored "5-0" whatever the proposal |
| CouncilSimulation.VoteCount | agi_council_system/council_simulation.py:5-29 | the votes map holds exactly thirteen entries |
| ImmaculacyGuardian.ContainsIff | agi_council_system/forks/immaculacy_guardian.py:16-35 | the left-to-right scan used for every `in` test finds the needle exactly when it occurs at some position |
| ImmaculacyGuardian.Lower | agi_council_system/forks/immaculacy_guardian.py:16 | `output.lower()` keeps the length and lower-cases each ASCII capital, leaving every other character alone |
| ImmaculacyGuardian.SplitLines | agi_council_system/forks/immaculacy_guardian.py:23 | `splitlines()` gives no lines for empty text and no line holds a boundary character |
| ImmaculacyGuardian.LineCount | agi_council_system/forks/immaculacy_guardian.py:23 | the number of lines is the number of boundaries (a CR LF pair counting once), plus one when the text does not end on a boundary |
| ImmaculacyGuardian.LongLines | agi_council_system/forks/immaculacy_guardian.py:27 | the long lines are exactly the lines longer than 80 characters, no more of them than lines |
| ImmaculacyGuardian.NatToString | agi_council_system/forks/immaculacy_guardian.py:29 | the count in the long-line text is a non-empty digit string with a leading zero only for 0 |
| ImmaculacyGuardian.NatToStringRoundTrip | agi_council_system/forks/immaculacy_guardian.py:29 | reading the count's digits back gives the count |
| ImmaculacyGuardian.WordEnd | agi_council_system/forks/immaculacy_guardian.py:35 | a greedy `[a-z_]+` run ends where a non-word character or the text ends |
| ImmaculacyGuardian.MatchesAtIff | agi_council_system/forks/immaculacy_guardian.py:35 | the greedy attempt at a position succeeds exactly when the bold-path pattern matches there with some slash and extension position |
| ImmaculacyGuardian.SearchFromIff | agi_council_system/forks/immaculacy_guardian.py:35 | trying every start position from i on succeeds exactly when the pattern matches at some position at or after i |
| ImmaculacyGuardian.HasPathIff | agi_council_system/forks/immaculacy_guardian.py:35 | `re.search` of the bold-path pattern is truthy exactly when the pattern matches somewhere |
| ImmaculacyGuardian.SelectFacts | agi_council_system/forks/immaculacy_guardian.py:13-36 | the appended issues are the candidates whose check fired, in check order, and nothing else |
| ImmaculacyGuardian.ListReprEmbeds | agi_council_system/forks/immaculacy_guardian.py:40 | every issue text appears, quoted, inside the insight's rendering of the list |
| ImmaculacyGuardian.IssueTexts | agi_council_system/forks/immaculacy_guardian.py:17-36 | the reported list has one text per issue, in the same order |
| ImmaculacyGuardian.TextInjective | agi_council_system/forks/immaculacy_guardian.py:17-36 | different issues are reported with different texts |
| ImmaculacyGuardian.CandidatesDistinct | agi_council_system/forks/immaculacy_guardian.py:17-36 | the six possible issues are pairwise different |
| ImmaculacyGuardian.Get | agi_council_system/forks/immaculacy_guardian.py:12 | `proposal.get(key, "")` is the stored value, or the empty text for a missing key |
| ImmaculacyGuardian.ScansMeaning | agi_council_system/forks/immaculacy_guardian.py:16-35 | each of the placeholder, completeness, partial-code, fence and bold-path checks fires exactly when its declarative reading holds |
| ImmaculacyGuardian.CandidatesPicked | agi_council_system/forks/immaculacy_guardian.py:13-36 | each of the six issues is on the list exactly when its check fired |
| ImmaculacyGuardian.CandidatesOrdered | agi_council_system/forks/immaculacy_guardian.py:13-36 | the list keeps check order and has at most six entries |
| ImmaculacyGuardian.IssuesMeaning | agi_council_system/forks/immaculacy_guardian.py:12-36 | each issue is listed exactly when its condition holds of the proposal |
| ImmaculacyGuardian.AppendIssues | agi_council_system/forks/immaculacy_guardian.py:16-36 | the six conditional appends build the candidates whose flag is set, in order |
| ImmaculacyGuardian.FindIssues | agi_council_system/forks/immaculacy_guardian.py:12-36 | the checks run on the proposal's output and type build the issue list of their outcomes |
| ImmaculacyGuardian.Deliberate | agi_council_system/forks/immaculacy_guardian.py:11-45 | each issue is listed exactly when its check fires, in check order; the vote is NO exactly when an issue is listed and YES otherwise; the insight quotes the issue list or is the immaculate message |
| PowrushMercyShards.ChanceMonotone | powrush_mercy_shards_sim.py:8 | a higher pity counter never lowers the drop chance |
| PowrushMercyShards.ChanceAtCap | powrush_mercy_shards_sim.py:6-8 | with the default rates the chance reaches exactly 1 at the pity cap of 900 |
| PowrushMercyShards.PullOutcome | powrush_mercy_shards_sim.py:6-11 | a shard drops exactly when the draw is below the chance; a drop resets the counter to 0 and a miss raises it by one |
| PowrushMercyShards.PullAtCapDrops | powrush_mercy_shards_sim.py:6-11 | at or past the cap every draw in [0, 1) drops a shard |
| PowrushMercyShards.DemoPulls | powrush_mercy_shards_sim.py:14-19 | the demo loop, feeding each pull's counter to the next, ends with the drops and counter of the pull sequence |
| PowrushMercyShards.RunPullsBound | powrush_mercy_shards_sim.py:14-19 | drops plus the final counter never exceed the number of pulls |
| PowrushMercyShards.PityCountsSinceLastDrop | powrush_mercy_shards_sim.py:8-19 | the final counter is the number of pulls since the last drop: those pulls all missed and the one before them dropped |
| PowrushMercyShards.PityCapped | powrush_mercy_shards_sim.py:8-19 | with draws in [0, 1) the counter never exceeds the cap of 900 |
| BioVotingRng.Scaled | bio_voting_module.py:59 | a provider's bits are scaled one for one, keeping their number |
| BioVotingRng.ScaledInRange | bio_voting_module.py:59 | a measured bit string below 2^qubits scales into [0, 65536) |
| BioVotingRng.FallbackNextBatch | bio_voting_module.py:54-81 | when the preferred provider raises, or it returns nothing and ANU fails, the buffer holds one draw in 0..65535 per batch slot and the source is pseudo-random |
| BioVotingRng.RigettiShadowsIonq | bio_voting_module.py:56-65 | with Rigetti preferred the IonQ provider is never consulted |
| BioVotingRng.EmptyRigettiGoesToAnu | bio_voting_module.py:56-77 | an empty Rigetti answer falls through to the ANU service, skipping IonQ |
| BioVotingRng.ProviderRefill | bio_voting_module.py:56-60 | a non-empty provider answer replaces the buffer with its bits scaled by 65536 / 2^qubits, in order, and keeps the source |
| BioVotingRng.ToUnit | bio_voting_module.py:88-89 | a buffered number in [0, 65536) gives a float in [0, 1) |
| BioVotingRng.Interpolate | bio_voting_module.py:91-92 | for a float in [0, 1) the result lies between a and b, whichever is smaller |
| BioVotingRng.QuantumRNG.constructor | bio_voting_module.py:26-51 | a provider is preferred only when asked for and importable, a provider whose constructor fails is dropped, the source names the provider that started, and the first refill fills the buffer, with one pseudo-random draw per batch slot when it falls back |
| BioVotingRng.QuantumRNG.Refill | bio_voting_module.py:54-81 | the buffer and source become those of the provider cascade; on the fallback path the buffer holds batch_size draws in 0..65535 and the source is pseudo-random; the batch size and preferences are unchanged |
| BioVotingRng.QuantumRNG.GetInt | bio_voting_module.py:83-86 | a non-empty buffer hands out its front number and keeps the rest; an empty one is refilled first, and popping a still-empty buffer is the error result |
| BioVotingRng.QuantumRNG.GetFloat | bio_voting_module.py:88-89 | the number handed out, divided by 65536 |
| BioVotingRng.QuantumRNG.Uniform | bio_voting_module.py:91-92 | the float handed out, stretched onto the interval from a to b |
| QuantumRngChain.BigEndianBound | quantum_rng_chain.py:37 | a byte string of length n reads big-endian as a number in [0, 256^n) |
| QuantumRngChain.SpacingDivides | quantum_rng_chain.py:38 | the gap between neighbouring doubles near n is a power of two between 1 and 2048 |
| QuantumRngChain.RoundExactBelow | quantum_rng_chain.py:38 | an integer below 2^53 converts to a double exactly |
| QuantumRngChain.RoundAtMost | quantum_rng_chain.py:38 | an integer below 2^64 rounds to a double of at most 2^64 |
| QuantumRngChain.RoundReachesTop | quantum_rng_chain.py:38 | every integer from 2^64 - 1024 up rounds to 2^64 itself |
| QuantumRngChain.DecodeInUnit | quantum_rng_chain.py:37-38 | a decoded answer lies in [0, 1], 1 included because of the rounding |
| QuantumRngChain.DecodeReachesOne | quantum_rng_chain.py:37-38 | a head reading 2^64 - 1024 or more decodes to exactly 1.0, outside the promised [0, 1) |
| QuantumRngChain.AllOnesRead | quantum_rng_chain.py:37 | k bytes of 255 read big-endian as 256^k - 1 |
| QuantumRngChain.DecodeAllOnes | quantum_rng_chain.py:37-38 | eight bytes of 255 decode to 1.0 |
| QuantumRngChain.DecodeIntendedInUnit | quantum_rng_chain.py:37-38 | corrected: keeping the top 53 bits gives a value in [0, 1) within 2^-53 below the exact quotient |
| QuantumRngChain.DecodeIgnoresTail | quantum_rng_chain.py:37 | entries after the eighth never affect the value or whether it is read |
| QuantumRngChain.UniformIsFirstAnswer | quantum_rng_chain.py:32-39 | providers that raise, return nothing or return a non-byte are skipped; the first usable answer decides |
| QuantumRngChain.UniformFallsBack | quantum_rng_chain.py:32-43 | when no provider gives a usable answer the pseudo-random float is returned |
| QuantumRngChain.UniformInUnit | quantum_rng_chain.py:32-43 | with a fallback in [0, 1) the result lies in [0, 1]; only a provider's answer can be 1.0 |
| QuantumRngChain.UnifiedQuantumRNG.constructor | quantum_rng_chain.py:11-26 | each provider that loads is appended in order, and the first one to load names the active source |
| QuantumRngChain.UnifiedQuantumRNG.GetUniformFloat | quantum_rng_chain.py:32-43 | the loop over the providers returns the chain's first usable answer, else the fallback |
| MercyOverride.AfterBelowThreshold | Mercy-Override.py:21-26 | with a reset below the threshold, a neuron's voltage after any step is below the threshold |
| MercyOverride.LIFNeuron.constructor | Mercy-Override.py:14-19 | a new neuron starts at voltage 0 without a spike and keeps the given tau, threshold and reset |
| MercyOverride.LIFNeuron.Step | Mercy-Override.py:21-26 | the neuron spikes exactly when the charged voltage reaches the threshold; the voltage is then the reset, otherwise the charged voltage; the parameters are unchanged |
| MercyOverride.StepAll | Mercy-Override.py:42 | stepping the council gives one new voltage per neuron |
| MercyOverride.FiredBound | Mercy-Override.py:42 | no more neurons spike in one step than the council has |
| MercyOverride.RunBounds | Mercy-Override.py:39-43 | over k steps the council spikes at most k times its size, keeps its size, and after a step every voltage is below the threshold |
| MercyOverride.RestraintIsAuto | Mercy-Override.py:45-53 | an override of False decides exactly like the automatic council, since a step's count is zeroed only after it was added |
| MercyOverride.AllFire | Mercy-Override.py:42 | when every neuron reaches the threshold, the step's spike count is the council size |
| MercyOverride.RestraintBurstsAsWritten | Mercy-Override.py:45-53 | five resting neurons under error level 10 all spike in one step, so an override of False still bursts |
| MercyOverride.RunIntendedMatches | Mercy-Override.py:40-53 | with the zeroing moved before the addition, the neurons step exactly as written, and the count is the written one unrestrained and 0 restrained |
| MercyOverride.RestraintForbidsIntended | Mercy-Override.py:35-58 | corrected, an override of False never bursts, and every other override decides as written |
| MercyOverride.MercyCouncil.constructor | Mercy-Override.py:29-31 | a council of the requested odd size of at least five, made of distinct default neurons at voltage 0 |
| MercyOverride.MercyCouncil.StepNeurons | Mercy-Override.py:42 | every neuron steps once with the same current, and the count is the number that spiked |
| MercyOverride.MercyCouncil.MercyBurst | Mercy-Override.py:33-58 | an override of True forces a burst after the first step; otherwise the council bursts exactly when the spikes over all steps exceed half of steps times the council size; the voltages are those the steps leave behind |
| ChessEngineVariants.Push | grandmasterism/modules/chess_engine_variants.py:38 | pushing a move appends it to the board's move stack |
| ChessEngineVariants.MaterialAppend | grandmasterism/modules/chess_engine_variants.py:20-26 | the material of two runs of squares is the sum of their materials |
| ChessEngineVariants.MaterialOfEmpty | grandmasterism/modules/chess_engine_variants.py:20-26 | squares without pieces score 0 |
| ChessEngineVariants.MaterialOfRank | grandmasterism/modules/chess_engine_variants.py:19-26 | a rank of eight squares scores the sum of its squares' signed piece values |
| ChessEngineVariants.SwapNegates | grandmasterism/modules/chess_engine_variants.py:19-26 | swapping every piece's colour negates the evaluation |
| ChessEngineVariants.MaterialUpdate | grandmasterism/modules/chess_engine_variants.py:20-26 | replacing one square changes the score by the difference of the two squares' contributions |
| ChessEngineVariants.Relocate | grandmasterism/modules/chess_engine_variants.py:38 | a moved piece stands on its target, its origin is empty, and every other square is unchanged |
| ChessEngineVariants.QuietMoveKeepsMaterial | grandmasterism/modules/chess_engine_variants.py:20-26 | a move onto an empty square leaves the material unchanged |
| ChessEngineVariants.Start | grandmasterism/modules/chess_engine_variants.py:13 | the standard start has a white pawn on e2 and an empty e4 |
| ChessEngineVariants.StartBalanced | grandmasterism/modules/chess_engine_variants.py:13-26 | the standard starting position evaluates to 0 |
| ChessEngineVariants.NewBoard | grandmasterism/modules/chess_engine_variants.py:13-14 | a new board follows the rules it was made for and has no moves played |
| ChessEngineVariants.NewBoardsDiffer | grandmasterism/modules/chess_engine_variants.py:13-33 | the standard, crazyhouse and suicide starts hold the same balanced arrangement of pieces yet are three different boards |
| ChessEngineVariants.ChosenRules | grandmasterism/modules/chess_engine_variants.py:30-35 | "crazyhouse" plays by crazyhouse rules, "suicide" on a new suicide board, and any other name by the standard rules |
| ChessEngineVariants.E4Balanced | grandmasterism/modules/chess_engine_variants.py:66 | the position after 1. e4 evaluates to 0 |
| ChessEngineVariants.RespondMeaning | grandmasterism/modules/chess_engine_variants.py:36-49 | the reply is the invalid-move error exactly when the move does not parse; otherwise the board keeps its rules and the reply holds the variant, the FEN after the move, the first five legal moves (five whenever there are that many), the material, and "balanced_abundance" exactly when the material is 0 |
| ChessEngineVariants.E4Outcome | grandmasterism/modules/chess_engine_variants.py:66 | e4 on the standard board evaluates to 0 and reports "balanced_abundance" |
| ChessEngineVariants.Engine.constructor | grandmasterism/modules/chess_engine_variants.py:12-15 | the engine holds a new standard board and a new crazyhouse board, each with its own rules, and an empty evaluation cache |
| ChessEngineVariants.Engine.SimpleMinimaxEval | grandmasterism/modules/chess_engine_variants.py:17-26 | the loop over the 64 squares returns the material balance, whatever the depth |
| ChessEngineVariants.Engine.SimulateVariantMove | grandmasterism/modules/chess_engine_variants.py:28-49 | the reply is the one for the board the variant name selects; only an unknown name plays on, and keeps the move on, the engine's own standard board; the standard board keeps its rules, and the crazyhouse board and cache are unchanged |
| QuantumVolumeBenchmark.HeavyOutputs | quantum_volume_benchmark.py:45-51 | the heavy fraction of a non-empty sample matrix lies in [0, 1]; an empty one divides 0 by 0, which is the NaN result |
| QuantumVolumeBenchmark.HeavyIsZero | quantum_volume_benchmark.py:45-51 | a row of n entries never counts more than 2^(n-1) entries of -1, so the heavy fraction of every well-shaped non-empty matrix is 0 |
| QuantumVolumeBenchmark.TrialProbs | quantum_volume_benchmark.py:73-84 | one heavy fraction per trial, trial t of width n using seed t + 1000 n |
| QuantumVolumeBenchmark.KnownMeaning | quantum_volume_benchmark.py:86 | the trial list has a mean exactly when no entry is NaN, and then holds the entries' values in order |
| QuantumVolumeBenchmark.StoppedStays | quantum_volume_benchmark.py:98-101 | once a width fails, later widths are never tested |
| QuantumVolumeBenchmark.SweepFacts | quantum_volume_benchmark.py:66-101 | the achieved width is 0 or a width in 2..max_n; every width up to it succeeded; the sweep stops exactly at the first failing width; the rates hold the mean of every tested width, the failing one included, and of no other |
| QuantumVolumeBenchmark.WidthTwoFails | quantum_volume_benchmark.py:73-91 | with well-shaped non-empty samples at width 2 and at least one trial, every trial's heavy fraction is 0, so the mean is 0 and width 2 does not succeed |
| QuantumVolumeBenchmark.StopsAtTwo | quantum_volume_benchmark.py:45-106 | with well-shaped non-empty samples and at least one trial, width 2 fails: the result is volume 1 with the single rate 0 for width 2 |
| QuantumVolumeBenchmark.RunQuantumVolume | quantum_volume_benchmark.py:53-106 | the width loop returns 2 to the achieved width and the rates of the sweep |
| QuantumVolumeBenchmark.WidthBelowMedian | quantum_volume_benchmark.py:47-48 | a width n never exceeds its ideal median 2^(n-1) |
| QuantumVolumeBenchmark.NoHeavyRows | quantum_volume_benchmark.py:47-50 | when the width is at most the median, no row of that width counts as heavy |
| QuantumVolumeBenchmark.HeavyOutputsIntended | quantum_volume_benchmark.py:45-51 | corrected: the fraction of rows whose ideal probability exceeds the median, in [0, 1], NaN exactly for an empty matrix |
| QuantumVolumeBenchmark.HeavyCountIntendedExtremes | quantum_volume_benchmark.py:45-51 | corrected: all rows heavy count every row, and no row heavy counts none |
| QuantumVolumeBenchmark.IntendedCanPass | quantum_volume_benchmark.py:45-51 | samples whose rows are all heavy score 1 under the corrected scoring and 0 under the written one |
| OctonionMercyShards.TableDomain | octonion_mercy_shards.py:5-13 | the table has an entry for exactly the ordered pairs of distinct units 1..7 |
| OctonionMercyShards.TableRange | octonion_mercy_shards.py:5-13 | every entry names a unit other than its two factors, with sign +1 or -1 |
| OctonionMercyShards.TableAntisymmetric | octonion_mercy_shards.py:4-13 | swapping the factors keeps the product unit and flips the sign |
| OctonionMercyShards.TableLines | octonion_mercy_shards.py:4-13 | every entry puts its two factors and their product on one of the seven lines of the Fano plane |
| OctonionMercyShards.Entry | octonion_mercy_shards.py:29-32 | the looked-up key has an entry exactly for a pair of distinct units, and the entry names a unit |
| OctonionMercyShards.StepAdvances | octonion_mercy_shards.py:24-33 | one pass of the loop body takes the partial product from step (i, j) to step (i, j + 1) |
| OctonionMercyShards.LoopStep | octonion_mercy_shards.py:26-33 | the inner loop body subtracts a_i b_i from the scalar on the diagonal and otherwise adds sign a_i b_j to the unit the table names, changing nothing else |
| OctonionMercyShards.AddCrosses | octonion_mercy_shards.py:35 | the scalar-imaginary crosses are added to units 1..7 and the scalar is kept |
| OctonionMercyShards.LeftIdentity | octonion_mercy_shards.py:19-36 | 1 is a left identity of the product as written |
| OctonionMercyShards.RightIdentity | octonion_mercy_shards.py:19-36 | 1 is a right identity of the product as written |
| OctonionMercyShards.UnitSquareAsWritten | octonion_mercy_shards.py:22-28 | as written, every unit squares to -2, because its square is subtracted once in the dot product and again on the diagonal |
| OctonionMercyShards.UnitProductAsWritten | octonion_mercy_shards.py:29-33 | as written, e_i e_j is +e_k for i < j and -e_k for i > j, with k from the table and the table's sign ignored |
| OctonionMercyShards.SignDiscardedAsWritten | octonion_mercy_shards.py:29-33 | the table says e1 e3 = -e2, but the product as written gives +e2 |
| OctonionMercyShards.LeftIdentityIntended | octonion_mercy_shards.py:19-36 | the corrected product keeps 1 as a left identity |
| OctonionMercyShards.RightIdentityIntended | octonion_mercy_shards.py:19-36 | the corrected product keeps 1 as a right identity |
| OctonionMercyShards.UnitSquareIntended | octonion_mercy_shards.py:22-28 | corrected, every unit squares to -1 |
| OctonionMercyShards.UnitProductIntended | octonion_mercy_shards.py:4-33 | corrected, e_i e_j is exactly what the table says, sign included |
| OctonionMercyShards.SumSqDivided | octonion_mercy_shards.py:38-44 | dividing every coefficient by n divides the sum of squares by n twice |
| OctonionMercyShards.NormalizedIsUnit | octonion_mercy_shards.py:38-45 | dividing by a positive norm gives norm 1 |
| OctonionMercyShards.Octonion.constructor | octonion_mercy_shards.py:16-17 | a new octonion holds the eight given coefficients in a fresh array |
| OctonionMercyShards.Octonion.Mul | octonion_mercy_shards.py:19-36 | the scalar part, the nested loop over the unit pairs and the crosses give a fresh octonion holding the product |
| OctonionMercyShards.Octonion.Normalize | octonion_mercy_shards.py:41-45 | a non-zero octonion has every coefficient divided by its norm in place; the zero octonion is left alone |
| OctonionMercyShards.IntendedStepAdvances | octonion_mercy_shards.py:24-33 | one pass of the corrected loop body takes the corrected partial product from step (i, j) to step (i, j + 1) |
| OctonionMercyShards.LoopStepIntended | octonion_mercy_shards.py:26-33 | the corrected loop body adds nothing on the diagonal and adds a_i b_j with the table's sign for (i, j) to the unit the table names, changing nothing else |
| OctonionMercyShards.Octonion.MulIntended | octonion_mercy_shards.py:19-36 | the corrected `__mul__` returns a fresh octonion holding the corrected product |
| OctonionMercyShards.Row | octonion_mercy_shards.py:24-33 | one pass of the inner loop over j moves the accumulator from the state after row i - 1 to the state after row i, as the product as written defines it |
| OctonionMercyShards.IntendedRow | octonion_mercy_shards.py:24-33 | the same inner-loop pass with the table's signs and the unit squares kept, for the corrected product |
| OctonionMercyShards.RowStep | octonion_mercy_shards.py:25-33 | pass (i, j) of the loop as written moves the accumulator one step along the product the loop defines |
| OctonionMercyShards.IntendedRowStep | octonion_mercy_shards.py:25-33 | pass (i, j) of the corrected loop moves the accumulator one step along the corrected product |
| MyceliumGrowth.BoxMembers | mycelium_growth_sim.py:59-60 | a box of cells, as a slice visits it, holds exactly the cells within its bounds |
| MyceliumGrowth.AllCells | mycelium_growth_sim.py:59-60 | the cells of the whole grid are exactly the in-bounds cells |
| MyceliumGrowth.Where | mycelium_growth_sim.py:59-60 | `argwhere` finds no more cells than it scans |
| MyceliumGrowth.WhereMembers | mycelium_growth_sim.py:59-60 | `argwhere` finds exactly the scanned cells holding the value |
| MyceliumGrowth.AtLeast | mycelium_growth_sim.py:111 | a count of cells at or above a value is at most the number of cells scanned |
| MyceliumGrowth.WindowCells | mycelium_growth_sim.py:75 | the local window is the box from 3 below to 3 above the cell on each axis, clipped to the grid |
| MyceliumGrowth.Neighbors | mycelium_growth_sim.py:46-49 | 8 offsets in a single layer (all in the layer itself) and 26 otherwise, each a non-zero unit step |
| MyceliumGrowth.NeighborsComplete | mycelium_growth_sim.py:46-49 | every non-zero unit step (in the layer itself, for a single layer) is among the offsets |
| MyceliumGrowth.NeighborsDistinct | mycelium_growth_sim.py:46-49 | the offsets are pairwise distinct |
| MyceliumGrowth.GrowthProbRange | mycelium_growth_sim.py:69-77 | the growth chance lies in [0.24, 1.3]; nutrient and algal targets get more than empty ones; mercy adds exactly 0.5; the deep penalty never raises the chance |
| MyceliumGrowth.GrowAtDraws | mycelium_growth_sim.py:66-80 | a neighbour attempt takes no draw when out of bounds or not growable, two when the window is sparse and one otherwise |
| MyceliumGrowth.GrowRowWrites | mycelium_growth_sim.py:63-81 | the attempts from one hyphae cell change only cells that were empty, nutrient or algal in the old grid, to lichen (5) over algae and hyphae (2) otherwise, and never move the draw position back |
| MyceliumGrowth.GrowAllWrites | mycelium_growth_sim.py:63-81 | the same holds of the growth pass over all hyphae cells |
| MyceliumGrowth.SpreadRowWrites | mycelium_growth_sim.py:84-92 | the spread pass of one surface algal cell writes only algae (4) on surface cells that were empty |
| MyceliumGrowth.SpreadAllWrites | mycelium_growth_sim.py:84-92 | the same holds of the spread pass over all algal cells |
| MyceliumGrowth.DamageProbRange | mycelium_growth_sim.py:100 | the damage chance is 0.7 at the surface and falls with depth, staying positive inside the grid |
| MyceliumGrowth.StepOutcome | mycelium_growth_sim.py:54-105 | a step keeps the grid's shape and never moves the draw position back |
| MyceliumGrowth.StepCells | mycelium_growth_sim.py:54-105 | after a step a hit cell is 0; otherwise a maturing cell is 3, or stays 5 as lichen; otherwise the cell holds its old value, a growth write, or (symbiotic, surface, formerly empty) algae |
| MyceliumGrowth.StepValued | mycelium_growth_sim.py:54-105 | a step keeps every cell state in 0..5 |
| MyceliumGrowth.StepKeepsLife | mycelium_growth_sim.py:95-102 | a cell holding hyphae or more that radiation does not hit still holds hyphae or more, and lichen stays lichen |
| MyceliumGrowth.Evolve | mycelium_growth_sim.py:109-110 | the grid after any number of steps keeps its shape |
| MyceliumGrowth.Metrics | mycelium_growth_sim.py:111-112 | the binding share (cells at 3 or more) and the symbiosis share (cells at 5) both lie in [0, 1] |
| MyceliumGrowth.History | mycelium_growth_sim.py:108-113 | the history has one entry per step |
| MyceliumGrowth.MinBinding | mycelium_growth_sim.py:116 | the least binding is at most every entry's binding and equals one of them |
| MyceliumGrowth.RecoveryRange | mycelium_growth_sim.py:114-117 | the recovery, final binding minus the least binding, lies in [0, 1] |
| MyceliumGrowth.SeededCells | mycelium_growth_sim.py:29-34 | the seed loop writes hyphae on exactly the seed cells and leaves every other cell alone |
| MyceliumGrowth.InitialCells | mycelium_growth_sim.py:22-41 | the initial grid covers the whole shape with states in 0..5: algae on symbiotic surface cells that drew below 0.1, else hyphae on seeds, else nutrient where the draw is below 0.05, else empty |
| MyceliumGrowth.MyceliumGrowthSim.constructor | mycelium_growth_sim.py:14-41 | the simulator stores its parameters and the initial grid built from the nutrient, seed and algal draws |
| MyceliumGrowth.MyceliumGrowthSim.Step | mycelium_growth_sim.py:54-105 | the new grid is the step's outcome on the old grid, the states stay in 0..5, and the draws consumed are reported |
| MyceliumGrowth.MyceliumGrowthSim.GrowPass | mycelium_growth_sim.py:59-81 | the nested loop over hyphae cells and offsets gives the growth fold's grid and draw position |
| MyceliumGrowth.MyceliumGrowthSim.Chance | mycelium_growth_sim.py:69-77 | the chance of one attempt equals the growth-chance function with mercy exactly when the window is sparse and the mercy draw falls below the mercy rate; a draw is consumed only when the window is sparse |
| MyceliumGrowth.MyceliumGrowthSim.TryGrow | mycelium_growth_sim.py:69-81 | one attempt consumes the mercy draw (when sparse) and one growth draw, and grows the target exactly as the attempt function says |
| MyceliumGrowth.MyceliumGrowthSim.GrowInto | mycelium_growth_sim.py:64-81 | one neighbour attempt computes the bounds check, the chance, the mercy draw and the growth draw as the growth fold does |
| MyceliumGrowth.MyceliumGrowthSim.SpreadPass | mycelium_growth_sim.py:60-92 | the nested loop over algal cells and offsets gives the spread fold's grid and draw position |
| MyceliumGrowth.MyceliumGrowthSim.SpreadInto | mycelium_growth_sim.py:86-92 | one spread attempt writes algae exactly as the spread fold does |
| MyceliumGrowth.MyceliumGrowthSim.Simulate | mycelium_growth_sim.py:108-113 | the step loop leaves the grid after `steps` steps and records one binding and symbiosis pair per step, each in [0, 1] |
| MyceliumGrowth.MyceliumGrowthSim.Iterate | mycelium_growth_sim.py:108-113 | one pass of the loop takes the grid, draw index and history after `step` steps to those after `step + 1`, every metric pair staying in [0, 1] |
| MyceliumGrowth.MyceliumGrowthSim.Run | mycelium_growth_sim.py:107-119 | no report exactly when there are no steps (indexing an empty history raises); otherwise the history of every step and a recovery in [0, 1] equal to the final binding minus the least binding |
| BosonicQec.ApplyShiftError | bosonic_qec.py:53-59 | the shifted state is the input state with exactly one displacement, of argument shift_p + i shift_q, on mode 0 |
| BosonicQec.CorrectGkp | bosonic_qec.py:61-80 | each returned syndrome lies within half a lattice spacing of 0 and is the offset of its quadrature mean from a lattice point; the correction is the displacement by minus the syndrome pair |
| BosonicQec.CorrectGkpInsideCell | bosonic_qec.py:67-72 | means already within half a spacing of 0 are returned unchanged as their own syndromes |
| BosonicQec.CorrectGkpLatticeInvariant | bosonic_qec.py:70-78 | shifting either mean by whole lattice spacings leaves the syndrome pair and the correcting displacement unchanged (away from rounding ties) |
| BosonicQec.CorrectCat | bosonic_qec.py:102-114 | the sampled parity is 0 exactly when the draw is below the even-parity probability, 1 otherwise, and the state is returned unchanged |
| BosonicState.Embed | hybrid_cat_gkp_sim.py:53 | the joint operator has one factor per mode: the given operator at mode i and the identity everywhere else |
| BosonicState.EmbedPair | hybrid_cat_gkp_sim.py:40 | the joint operator has one factor per mode: the given operator at modes i and j and the identity everywhere else |
| BosonicState.ApplyAllSnoc | hybrid_cat_gkp_sim.py:39-41 | appending an operator to a schedule applies it on top of everything applied before |
| BosonicState.ApplyAllConcat | hybrid_cat_gkp_sim.py:39-41 | running two schedules one after the other equals running their concatenation |
| BosonicState.Summands | gkp_full_correction.py:19-24 | a state has at least one summand |
| GkpRounding.RoundHalfEven | gkp_full_correction.py:49-50 | np.round gives an integer within 1/2 of its argument, the even one on a tie |
| GkpRounding.RoundHalfEvenUnique | gkp_full_correction.py:49-50 | that contract determines np.round: any integer within 1/2 that is even on a tie is the rounded value |
| GkpRounding.RoundShift | gkp_full_correction.py:49-50 | rounding commutes with integer translation, except on a tie shifted by an odd amount |
| GkpRounding.DivShift | bosonic_qec.py:71-72 | a mean moved by k lattice spacings has quotient moved by k |
| GkpRounding.OffsetBound | bosonic_qec.py:71-72 | a quotient within 1/2 of n puts the mean within half a spacing of n spacings |
| GkpRounding.CellsOnLattice | bosonic_qec.py:71-72 | a whole number of spacings is a lattice point |
| GkpRounding.Residual | bosonic_qec.py:71-72 | the syndrome m - s round(m/s) lies within half a spacing of 0 and differs from m by a lattice point |
| GkpRounding.BigCorrection | gkp_full_correction.py:49-50 | the big-envelope correction is a lattice point and the mean plus it is the syndrome, inside the half cell |
| GkpRounding.ResidualInsideCell | gkp_full_correction.py:49-50 | a mean within half a spacing of 0 is its own syndrome and gets a big-envelope correction of 0 |
| GkpRounding.ResidualShiftEven | bosonic_qec.py:71-72 | shifting a mean by an even number of spacings never changes its syndrome |
| GkpRounding.ResidualShift | gkp_full_correction.py:49-50 | shifting a mean by k spacings keeps its syndrome and shifts the big-envelope correction by -k spacings, unless m/s is a tie |
| GkpRounding.ResidualTieFlip | bosonic_qec.py:71-72 | on a tie an odd shift flips the syndrome from +s/2 to -s/2 (half-to-even rounding) |
| GkpRounding.SmallResidualAsWritten | gkp_full_correction.py:53-54 | as written, the small residual adds the rounded lattice point back: it equals 2m minus the syndrome |
| GkpRounding.SmallResidualIntended | gkp_full_correction.py:52-54 | corrected: the small residual lies within the envelope [-s/2, s/2] and differs from m by a lattice point |
| GkpRounding.SmallResidualOutsideEnvelope | gkp_full_correction.py:52-54 | for a mean one spacing from 0 the as-written small residual is 2s, outside the envelope; the corrected one is 0 |
| GkpRounding.DampedTotalAsWritten | gkp_full_correction.py:49-58 | as written, inside the half cell the total correction is -0.8 m |
| GkpRounding.DampedTotalIntended | gkp_full_correction.py:49-58 | corrected: the mean plus the total correction is a fifth of the syndrome, within s/10 of the cell origin, and -0.8 m inside the half cell |
| GkpLattice.LatticeSummands | gkp_full_correction.py:18-24 | after n terms the sum holds n + 1 summands: the vacuum, then the term of lattice index j - 1 - K in position j |
| GkpLattice.Accumulate | gkp_full_correction.py:19-24 | the loop's sum is the vacuum followed by the 2K + 1 displaced squeezed vacua at k s for k = -K..K in increasing k |
| GkpLattice.EncodeGkp | gkp_full_correction.py:18-25 | the encoder normalises that sum once; the normalised state holds 2K + 2 summands |
| GkpFullCorrection.LatticeSize | gkp_full_correction.py:13-25 | with K = 18 the normalised lattice state holds the vacuum plus 37 terms |
| GkpFullCorrection.CorrectionAsWritten | gkp_full_correction.py:49-58 | as written, the correction argument is the damped total of the momentum syndrome plus i times that of the position syndrome, -0.8 times the pair inside the half cell |
| GkpFullCorrection.CorrectionIntended | gkp_full_correction.py:49-58 | corrected: each syndrome plus the argument part the script pairs with it (momentum with the real part, position with the imaginary part) lies within s/10 of the cell origin; -0.8 times the pair inside the half cell |
| GkpFullCorrection.AsWrittenLeavesEnvelope | gkp_full_correction.py:49-58 | for a momentum syndrome one spacing above 0, the syndrome plus its paired real part is -1.6 s under the as-written rule, outside the half cell, and 0 under the corrected rule |
| GkpFullCorrection.Prepare | gkp_full_correction.py:27-40 | the reference and the encoded state are the same lattice state; the noisy state is the shift 0.25 + 0.15i then the loss evolution at rate 0.2 |
| GkpFullCorrection.Run | gkp_full_correction.py:27-64 | as written: the syndromes are the noisy state's position and momentum means, the corrected state applies the as-written big- plus small-envelope displacement, and the gain is the fidelity difference |
| GkpFullCorrection.RunIntended | gkp_full_correction.py:42-64 | with the small-envelope step corrected, the noisy state's momentum mean plus the real part of the argument, and its position mean plus the imaginary part, lie within s/10 of the cell origin |
| ModeSchedules.ChainSchedule | hybrid_cat_gkp_sim.py:39-40 | the chain has one mixer per adjacent pair of modes, modes - 1 in all |
| ModeSchedules.ChainStepsAdjacent | hybrid_cat_gkp_sim.py:40 | chain step i places the beam splitter at exactly modes i and i + 1 and the identity on every other mode |
| ModeSchedules.EntangleChain | hybrid_cat_gkp_sim.py:38-42 | the entangled state is the tensor product with the chain's mixers applied in order, then normalised once |
| ModeSchedules.MeshRow | 13_mode_council_mercy_scale.py:37 | row i of the mesh has modes - i - 1 pairs |
| ModeSchedules.MeshPairsInRange | 13_mode_council_mercy_scale.py:36-37 | every visited pair (i, j) has i < j < modes |
| ModeSchedules.MeshPairsComplete | 13_mode_council_mercy_scale.py:36-37 | every pair i < j < modes is visited |
| ModeSchedules.MeshPairsStrictlyOrdered | 13_mode_council_mercy_scale.py:36-37 | pairs are visited in strictly increasing lexicographic order, so none twice |
| ModeSchedules.MeshPairsCount | 13_mode_council_mercy_scale.py:36-37 | after r rows the mesh has r modes - r (r + 1) / 2 steps |
| ModeSchedules.FullMeshCount | 13_mode_council_mercy_scale.py:36-37 | the full mesh over n modes has n (n - 1) / 2 steps |
| ModeSchedules.PairGates | 13_mode_council_mercy_scale.py:38 | one beam-splitter operator per pair |
| ModeSchedules.PairGatesAppend | 13_mode_council_mercy_scale.py:38 | the operators of concatenated pair lists are the concatenated operators |
| ModeSchedules.MeshStep | 13_mode_council_mercy_scale.py:37-39 | one inner step appends the mixer of pair (i, j) to the schedule |
| ModeSchedules.MeshRowDone | 13_mode_council_mercy_scale.py:36-39 | finishing row i completes the pairs of the first i + 1 rows |
| ModeSchedules.EntangleMesh | 13_mode_council_mercy_scale.py:35-40 | the entangled state is the tensor product with one mixer per pair i < j, in row order, then normalised once |
| ModeSchedules.ShiftSchedule | hybrid_cat_gkp_sim.py:53 | one shift operator per mode |
| ModeSchedules.ShiftScheduleLayout | hybrid_cat_gkp_sim.py:53 | shift i acts on mode i only, with argument shifts[2i] + i shifts[2i+1] |
| ModeSchedules.ShiftArgumentsBounded | hybrid_cat_gkp_sim.py:52-53 | draws in [-amp, amp) give shift arguments whose two parts lie in [-amp, amp) |
| ModeSchedules.ShiftScheduleWithin | hybrid_cat_gkp_sim.py:52-53 | with draws in [-amp, amp), every mode of the shift schedule is displaced by an argument whose two parts lie in [-amp, amp) |
| ModeSchedules.ApplyShifts | hybrid_cat_gkp_sim.py:55-57 | the noisy state is the state with the shifts applied in mode order |
| ModeSchedules.Snapshot | hybrid_cat_gkp_sim.py:63-65 | every mode's reading is taken from the same noisy state |
| ModeSchedules.ParityOps | hybrid_cat_gkp_sim.py:67-72 | a mode gets one pi rotation exactly when its even-parity probability is below 0.5 |
| ModeSchedules.GkpArgument | hybrid_cat_gkp_sim.py:75-78 | the displacement argument's parts are lattice points; the position mean plus the real part and the momentum mean plus the imaginary part lie in the half cell |
| ModeSchedules.ParityOnlySnoc | multi_mode_cat_council.py:43-50 | one more mode appends that mode's rotation step |
| ModeSchedules.CombinedSnoc | hybrid_cat_gkp_sim.py:64-79 | one more mode appends its rotation then displacement (or displacement then rotation in the other order) |
| ModeSchedules.CountOdd | multi_mode_cat_council.py:47 | the number of low-parity modes is at most the number of modes |
| ModeSchedules.ParityOnlyLength | multi_mode_cat_council.py:43-50 | the parity loop applies exactly one rotation per low-parity mode |
| ModeSchedules.CombinedLengths | hybrid_cat_gkp_sim.py:64-79 | both combined loops apply one displacement per mode plus one rotation per low-parity mode |
| ModeSchedules.CombinedPrefix | hybrid_cat_gkp_sim.py:64-79 | correcting the first j modes produces the start of the whole correction schedule, in both orders |
| ModeSchedules.ParityThenGkpLayout | hybrid_cat_gkp_sim.py:64-79 | mode i's steps sit right after those of the earlier modes: its rotation (when parity is low) and then its displacement |
| ModeSchedules.GkpThenParityLayout | hybrid_gkp_cat_council.py:62-76 | mode i's steps sit right after those of the earlier modes: its displacement and then its rotation (when parity is low) |
| ModeSchedules.CountOddNext | hybrid_cat_gkp_sim.py:64-79 | mode i + 1's steps start one slot, or two when mode i was rotated, after mode i's |
| ModeSchedules.CountOddSnoc | multi_mode_cat_council.py:47 | one more reading adds one to the count exactly when its parity is low |
| ModeSchedules.EmbedInjective | multi_mode_cat_council.py:49 | a rotation embedded at two different modes gives two different operators |
| ModeSchedules.RotationIffLowParity | multi_mode_cat_council.py:43-50 | the parity schedule rotates mode i exactly when mode i's even-parity probability is below 0.5 |
| ModeSchedules.RotationOnlyBelow | multi_mode_cat_council.py:43-50 | the parity steps of the first n modes never rotate a mode at or above n |
| ModeSchedules.OrdersSameOperators | hybrid_gkp_cat_council.py:62-76 | the two correction orders apply the same operators, counted with multiplicity |
| ModeSchedules.OrdersAgreeIffNoRotation | hybrid_gkp_cat_council.py:62-76 | the two orders give the same schedule exactly when no mode needs a rotation |
| ModeSchedules.CorrectParityOnly | multi_mode_cat_council.py:42-50 | the corrected state is the noisy state with the parity schedule of its own readings applied |
| ModeSchedules.CorrectParityThenGkp | hybrid_cat_gkp_sim.py:63-79 | the corrected state is the noisy state with, mode by mode, the rotation (when parity is low) and then the lattice displacement, all readings from the noisy state |
| ModeSchedules.ParityThenGkpStep | hybrid_cat_gkp_sim.py:64-79 | one more mode applies its rotation (when parity is low) and then its displacement |
| ModeSchedules.GkpThenParityStep | hybrid_gkp_cat_council.py:62-76 | one more mode applies its displacement and then, when parity is low, its rotation |
| ModeSchedules.CorrectGkpThenParity | hybrid_gkp_cat_council.py:61-76 | the corrected state is the noisy state with, mode by mode, the lattice displacement and then the rotation (when parity is low) |
| CatCodeQecSim.CatPlus | cat_code_qec_sim.py:15-19 | the even cat is the normalised sum of the coherent states at +alpha and -alpha, in that order |
| CatCodeQecSim.CatPlusSignSymmetric | cat_code_qec_sim.py:15-19 | the even cat built from -alpha holds the same two coherent states |
| CatCodeQecSim.EvenIndices | cat_code_qec_sim.py:28 | the even projector keeps (cutoff + 1) / 2 indices, the k-th being 2k |
| CatCodeQecSim.EvenIndicesExact | cat_code_qec_sim.py:28 | an index is kept exactly when it is even and below the cutoff |
| CatCodeQecSim.ParitySyndrome | cat_code_qec_sim.py:27-30 | the syndrome is "even" exactly when the even-parity probability exceeds 0.5, and "odd" otherwise |
| CatCodeQecSim.CorrectCat | cat_code_qec_sim.py:32-35 | an "odd" syndrome applies exactly one pi rotation; any other syndrome returns the state unchanged |
| CatCodeQecSim.RotatesIffAtMostHalf | cat_code_qec_sim.py:27-35 | syndrome then correction rotates exactly when p_even <= 0.5, which differs from the multi-mode rule (p_even < 0.5) only at exactly 0.5 |
| CatCodeQecSim.StateGrows | cat_code_qec_sim.py:34 | a rotated state is never the state it acted on |
| CatCodeQecSim.Demo | cat_code_qec_sim.py:37-43 | the script encodes the cat, evolves it under loss 0.15 over [0, 1], reads the syndrome from the noisy state ("even" iff p_even > 0.5, "odd" otherwise, so a state with p_even <= 0.5 is rotated), corrects it and reports the fidelity difference |
| CatCodesPhotonicMercy.ApplyLoss | cat_codes_photonic_mercy.py:21-25 | the loss here is the first script's loss over the window [0, 1] |
| CatCodesPhotonicMercy.LossWindowFixed | cat_codes_photonic_mercy.py:21-25 | no other window can be asked for: any other one gives a different evolution |
| CatCodesPhotonicMercy.OddIndices | cat_codes_photonic_mercy.py:30 | the odd projector keeps cutoff / 2 indices, the k-th being 2k + 1 |
| CatCodesPhotonicMercy.ParitySyndrome | cat_codes_photonic_mercy.py:27-32 | the syndrome is "even" exactly when the even-parity probability exceeds 0.5 |
| CatCodesPhotonicMercy.OddProjectorUnused | cat_codes_photonic_mercy.py:27-32 | the odd projector never changes the syndrome: the rule agrees with the first cat script |
| CatCodesPhotonicMercy.Demo | cat_codes_photonic_mercy.py:40-46 | the script encodes, applies loss 0.15 over [0, 1], reads the syndrome by the first script's rule ("odd" exactly when p_even <= 0.5), corrects with the first script's rule and reports the fidelity difference |
| FullGkpSyndromeCorrection.GkpLogicalZero | full_gkp_syndrome_correction.py:25-34 | the encoder's state is the normalised lattice sum with squeeze argument Delta/2 + i pi/4, 2K + 2 summands |
| FullGkpSyndromeCorrection.ApplyShiftError | full_gkp_syndrome_correction.py:36-39 | the shifted state is the state with one displacement of argument shift_p + i shift_q |
| FullGkpSyndromeCorrection.MeasureSyndrome | full_gkp_syndrome_correction.py:41-47 | the tag "p" reads momentum and every other tag reads position |
| FullGkpSyndromeCorrection.CorrectShift | full_gkp_syndrome_correction.py:49-57 | one displacement whose real and imaginary parts are lattice points; the momentum syndrome plus the real part and the position syndrome plus the imaginary part lie in the half cell |
| FullGkpSyndromeCorrection.CorrectShiftIdleInsideCell | full_gkp_syndrome_correction.py:49-57 | syndromes inside the half cell give a zero displacement |
| FullGkpSyndromeCorrection.CorrectShiftFollowsLattice | full_gkp_syndrome_correction.py:49-57 | moving the syndromes by whole spacings moves the correction by the opposite spacings (away from rounding ties) |
| FullGkpSyndromeCorrection.Run | full_gkp_syndrome_correction.py:59-81 | the reference uses Delta 0.01 and K 20, the code state Delta 0.25 and K 15; the noisy state is one shift; the correction reads momentum and position from it |
| GkpLossSyndromeCorrection.GkpLogicalZero | gkp_loss_syndrome_correction.py:24-31 | the encoder's state is the normalised lattice sum with squeeze argument Delta/2, 2K + 2 summands |
| GkpLossSyndromeCorrection.IdealDiffersFromEncoded | gkp_loss_syndrome_correction.py:33-37 | the reference and the code state differ (different lattice sizes) |
| GkpLossSyndromeCorrection.Run | gkp_loss_syndrome_correction.py:33-68 | the noisy state is the shift followed by the loss evolution; the correction rounds its momentum and position means as the first GKP script does |
| GkpLattice.HybridCatGkp | hybrid_cat_gkp_mercy.py:18-34 | the hybrid mode is the normalised sum of the normalised even cat and the normalised lattice with indices -K .. K and squeeze argument delta / 2; every hybrid script builds its modes with it, with its own constants (K = 15, or K = 12 in the thirteen-mode council) |
| HybridCatGkpMercy.ParityStep | hybrid_cat_gkp_mercy.py:49-52 | the noisy state is rotated by pi exactly when p_even < 0.5 and left alone otherwise, 0.5 included |
| HybridCatGkpMercy.Run | hybrid_cat_gkp_mercy.py:36-63 | the noise is the lossy state plus its shifted copy; the syndromes and the pre-correction fidelity come from the state after the parity step; position drives the real part of the correction |
| HybridCatGkpSim.Run | hybrid_cat_gkp_sim.py:37-83 | five hybrid modes entangled by the adjacent chain; the ten shifts are draws in [-0.2, 0.2), so each mode is displaced by an argument whose parts lie in that range; the noisy state is the shifts then loss 0.3; every mode is corrected rotation first, then displacement, from the noisy snapshot |
| HybridCatGkpSingleLive.ParitySign | hybrid_cat_gkp_single_live.py:63 | each diagonal entry of the parity operator is +1 or -1 |
| HybridCatGkpSingleLive.ParitySignEven | hybrid_cat_gkp_single_live.py:63 | the parity operator's entry n is +1 exactly on even n |
| HybridCatGkpSingleLive.EvenProjectorDiagonal | hybrid_cat_gkp_single_live.py:63-64 | (I + parity)/2 keeps even photon numbers with weight 1, drops odd ones, is idempotent, and keeps the same indices as the projector onto range(0, N, 2) |
| HybridCatGkpSingleLive.PostSelect | hybrid_cat_gkp_single_live.py:66-70 | a success probability above 1e-8 renormalises by a positive divisor; otherwise the result is the vacuum density matrix |
| HybridCatGkpSingleLive.ScaledDrawInRange | hybrid_cat_gkp_single_live.py:36-40 | each shift lies in [-0.5 sqrt(pi), 0.5 sqrt(pi)) |
| HybridCatGkpSingleLive.GkpSandwich | hybrid_cat_gkp_single_live.py:56-60 | the density matrix is sandwiched between D(cq + i cp) on the left and D(cq - i cp) on the right, each part rounded to the lattice |
| HybridCatGkpSingleLive.SandwichInverseIffNoPositionCorrection | hybrid_cat_gkp_single_live.py:58-60 | the right factor is the inverse of the left exactly when the position correction is 0, which holds whenever the position mean is inside the half cell |
| HybridCatGkpSingleLive.Run | hybrid_cat_gkp_single_live.py:18-74 | the hybrid uses squeeze argument Delta itself; noise is one shift, each part a draw in [-0.5, 0.5) scaled by s and so in [-s/2, s/2), then loss over 2/gamma; correction is the sandwich, then the even projection post-selected; fidelities against the hybrid are squared |
| HybridGkpCatCouncil.HybridGkpCatZero | hybrid_gkp_cat_council.py:19-33 | one mode is the normalised sum of the normalised lattice (k = -15..15) and the normalised cat, lattice first |
| HybridGkpCatCouncil.Run | hybrid_gkp_cat_council.py:35-80 | five modes entangled by the chain; the shifts are draws in [-0.2, 0.2), so each mode is displaced by an argument whose parts lie in that range; shifts then loss 0.25; every mode is corrected displacement first, then rotation, from the noisy snapshot |
| HybridGkpCatMultiMode.Run | hybrid_gkp_cat_multi_mode.py:37-83 | five modes entangled by the chain; the ten shifts are draws in [-0.25, 0.25), so each mode is displaced by an argument whose parts lie in that range; shifts then loss 0.35; every mode is corrected rotation first, then displacement, from the noisy snapshot |
| MultiModeCatCouncil.Run | multi_mode_cat_council.py:23-54 | five even cats entangled by the chain; the reference is taken before the noise; the noise is loss alone; each mode is rotated when its own parity reading is low |
| ThirteenModeCouncilMercyScale.MeshSize | 13_mode_council_mercy_scale.py:36-39 | the 13-mode mesh has 78 steps and mixes every pair i < j |
| ThirteenModeCouncilMercyScale.Run | 13_mode_council_mercy_scale.py:34-81 | thirteen modes mixed by the full mesh at angle pi/6, normalised once; the shifts are draws in [-0.3, 0.3), so each mode is displaced by an argument whose parts lie in that range; shifts then loss 0.35; every mode is corrected rotation first, then displacement |

## Left out

- Library numerics are inputs, never computed. These include qutip and Strawberry Fields state construction, the displacement, squeeze, position and momentum matrices, `mesolve` Lindblad integration, `ptrace`, `expect`, `fidelity` and `.unit()`. A state is a symbolic term, so normalisation, fidelity values and matrix equalities are not modelled.
- A displacement is a symbolic operator, so its effect on the quadrature means is not modelled. Where a contract says a correction brings a mean into the half cell or within s/10, it states that the mean plus the argument part the script pairs with it lies there. In qutip, D(alpha) moves the position mean by sqrt(2) Re alpha and the momentum mean by sqrt(2) Im alpha. So the scripts that pair momentum with the real part would in fact move the other quadrature, and by a factor sqrt(2).
- GkpFullCorrection.CorrectionIntended, GkpFullCorrection.AsWrittenLeavesEnvelope and GkpFullCorrection.RunIntended: they bound each syndrome plus its paired argument part, not the means of the displaced state, for the reason above.
- The Hamiltonian passed to `mesolve` is not recorded: `qt.qeye` in most scripts, `qt.qzero` in `gkp_loss_syndrome_correction.py`. A loss evolution records only its rate, its end time and its number of sample times.
- `qt.phase_gate(np.pi)` is kept as an abstract "rotate by pi" operator, and `qt.beamsplitter` only by where it sits in the tensor list.
- bosonic_qec.py `gkp_logical_zero`, `cat_logical_zero`, `apply_photon_loss` and `gkp_pennylane_circuit` are not modelled. They hold no decision logic; each only builds a library program.
- BosonicQec.ApplyShiftError and BosonicQec.CorrectGkp: these follow the evident intent, one displacement on mode 0. The Strawberry Fields operations in the source are created without being attached to a mode, and `state.apply` is not a library method, so the literal library behaviour is not modelled.
- The bosonic scripts without syndrome or decision logic are not part of this model: `multi_mode_gkp_council.py`, `multi_mode_gkp_fidelity.py`, `multi_mode_hex_gkp_council.py`, `gkp_advanced_corrections.py`, `bosonic_gkp_expanded.py`, `xanadu_photonic_mercy.py`, `hybrid_photonic_bosonic.py` and `hybrid_bosonic_council.py`.
- Every `np.random`, `random` and quantum-provider draw is an input (a real, a sequence or a function of the step and cell).
- All `print` and logging output is left out, along with `list_laws`, `main.py`'s command-line dispatch and `generate_qv_circuit`.
- Floating-point arithmetic is modelled as exact real arithmetic throughout, except for the division in QuantumRngChain.Decode and QuantumRngChain.UnifiedQuantumRNG.GetUniformFloat, where the rounding of the 64-bit integer to a double is modelled (round to nearest, ties to even). `numpy.round` is modelled as round half to even.
- CouncilCore: `sign_proposal` is a parameter (the ecdsa signing lives in `enc_protection.py`, which is not part of this model). `add_dynamic_fork` only prints, so the model reports whether it would be called.
- ImmaculacyGuardian.Lower: lower-cases only the ASCII letters. Python's `str.lower()` also folds other letters. No phrase the guardian looks for contains one.
- ImmaculacyGuardian.Deliberate: the issue list is embedded as its `repr`, each text in single quotes. This relies on no issue text holding a quote or a backslash, which holds for the six texts.
- PowrushMercyShards.Chance and PowrushMercyShards.MercyShardPull: require `max_pity > 0`. The source divides by it and would raise on 0.
- PowrushMercyShards.DemoPulls: takes the draws as a sequence (100 in the demo), not a count.
- MercyOverride.LIFNeuron.Step: requires `tau != 0`, where the source would divide by zero.
- MercyOverride.MercyCouncil.constructor: the source's assertion of an odd count of at least 5 is a precondition.
- MercyOverride.MercyCouncil.MercyBurst: `steps` is a natural number, and the Gaussian noise of each step is an input sequence.
- OctonionMercyShards.Octonion.constructor: requires exactly 8 coefficients, which the source assumes. A shorter list would make the product raise.
- OctonionMercyShards.Octonion.Normalize: takes the norm as an input, because the square root has no closed form over the reals here. `generate_mercy_shard`, `simulate_octonion_mercy_resolution` and `__repr__` are random or printing only, and are left out.
- ChessEngineVariants.Engine.SimulateVariantMove: only a SAN that does not parse leads to the error reply. Other exceptions the bare `except` would catch inside the chess library are not modelled. The library itself is a parameter: the state it keeps beside the pieces for each set of rules (side to move, crazyhouse pockets and the like), parsing, moves, legal moves and FEN. A board carries its rules, so the three starting boards differ, but the material evaluation sees only the 64 squares, as the source's does. `quantum_classical_fusion` is not part of this model, since it depends on `QuantumChessBoard`, which is not in the source.
- QuantumVolumeBenchmark.RunQuantumVolume: the backend's sample matrices and the standard error (a floating-point square root) are inputs. NaN is `None`. `generate_qv_circuit` and the PennyLane device loading are left out.
- BioVotingRng and QuantumRngChain: the network, the provider SDKs and logging are inputs or left out. Each provider call is either raised or returned. Only the reply shapes the source reads are modelled.
- MyceliumGrowth: the model leaves out `visualize`, `council_optimize_habitat` (it calls a missing `bio_council_vote`) and logging. Draws, including the choice between `QuantumRNG` and numpy, are inputs. The grid is a map from cells to values, not a numpy array.
- MyceliumGrowth.MyceliumGrowthSim.constructor: requires size and depth of at least 1 and five in-bounds seed cells. The source's `np.random.randint(0, depth)` and `randint(0, size)` raise for smaller sizes, and they always place the seeds in bounds.
- MyceliumGrowth.MyceliumGrowthSim.Run: an empty history, where the source raises `IndexError`, returns `None`. The recovery the source only logs is returned in the report.

## Findings

| source | as written | input that shows it | evidently intended | confidence | as-written member | corrected member |
|---|---|---|---|---|---|---|
| gkp_full_correction.py:53-54 | `small = syndrome - big_corr`, where `big_corr` is already negated, so the "residual" is m + round(m/sqrt(pi)) sqrt(pi) = 2m minus the syndrome | a momentum mean of exactly one spacing, m = s: the small residual is 2s, outside the envelope the comment at line 52 promises, and the syndrome plus the real part of the argument is -1.6 s | `small = syndrome + big_corr`, the offset from the nearest lattice point; each syndrome plus its paired argument part then lies within s/10 of the cell origin | not executed | GkpRounding.SmallResidualAsWritten, GkpFullCorrection.CorrectionAsWritten, GkpFullCorrection.AsWrittenLeavesEnvelope (used by GkpFullCorrection.Run) | GkpRounding.SmallResidualIntended, GkpRounding.DampedTotalIntended, GkpFullCorrection.CorrectionIntended (used by GkpFullCorrection.RunIntended) |
| octonion_mercy_shards.py:22-28 | the scalar part subtracts the imaginary dot product before the loop, then the loop's diagonal subtracts each c_i c_i again | e_i times e_i for any unit i gives -2 instead of -1 | each diagonal term counted once, so every unit squares to -1 | not executed | OctonionMercyShards.UnitSquareAsWritten (OctonionMercyShards.Octonion.Mul) | OctonionMercyShards.UnitSquareIntended (OctonionMercyShards.Octonion.MulIntended) |
| octonion_mercy_shards.py:29-33 | the table's sign is discarded (`_, k = MUL_TABLE[key]`) and replaced by +1 for i < j | e1 times e3: the table says -e2, the product gives +e2 | the table's own sign for (i, j), negated for (j, i) | not executed | OctonionMercyShards.SignDiscardedAsWritten, OctonionMercyShards.UnitProductAsWritten (OctonionMercyShards.Octonion.Mul) | OctonionMercyShards.UnitProductIntended (OctonionMercyShards.Octonion.MulIntended) |
| quantum_rng_chain.py:37-38 | `int_val / (2 ** 64)` rounds the exact quotient to the nearest double; since 2^64 is a power of two this equals rounding `int_val` to a double, and every `int_val` from 2^64 - 1024 up gives 1.0 | eight bytes of 255: the value is exactly 1.0, outside the promised [0, 1) | keep the top 53 bits, `(int_val >> 11) / 2 ** 53`, which lies in [0, 1) | not executed | QuantumRngChain.Decode, QuantumRngChain.DecodeReachesOne, QuantumRngChain.DecodeAllOnes | QuantumRngChain.DecodeIntended, QuantumRngChain.DecodeIntendedInUnit |
| quantum_volume_benchmark.py:45-51 | a row is heavy when its count of -1 entries exceeds `2**(n-1)`, but a row of n entries holds at most n of them and n <= 2^(n-1) | any well-shaped sample matrix, e.g. width 2 with the row [-1, -1]: 2 does not exceed 2, so the score is 0, width 2 fails, and the volume is always 1 | a row is heavy when its ideal output probability exceeds the median of the ideal probabilities, as the docstring says | not executed | QuantumVolumeBenchmark.HeavyOutputs, QuantumVolumeBenchmark.HeavyIsZero, QuantumVolumeBenchmark.StopsAtTwo | QuantumVolumeBenchmark.HeavyOutputsIntended, QuantumVolumeBenchmark.HeavyCountIntendedExtremes, QuantumVolumeBenchmark.IntendedCanPass |
| Mercy-Override.py:45-53 | an override of False zeroes `step_spikes` after it was already added to `spikes`, so the zeroing has no effect | five resting neurons, error level 10, no noise, one step: all five spike, 5 > 2, and the council bursts although the override "forbids" it | zero the step's spikes before adding them, so an override of False never bursts | not executed | MercyOverride.RestraintIsAuto, MercyOverride.RestraintBurstsAsWritten (MercyOverride.MercyCouncil.MercyBurst) | MercyOverride.RunIntendedMatches, MercyOverride.RestraintForbidsIntended |
