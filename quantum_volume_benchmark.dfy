/** The quantum-volume benchmark: for widths n = 2, 3, ... it runs a batch of
  * random square circuits, scores each sample matrix by its fraction of heavy
  * outputs, and stops at the first width whose mean is not confidently above
  * 2/3. The backend's sample matrices and the standard error (a floating-point
  * square root) are inputs. */
module QuantumVolumeBenchmark {
  import opened Powers
  import opened Ratios

  datatype Option<T> = None | Some(value: T)

  /** A two-dimensional sample array as `heavy_outputs` receives it:
    * `width` is `samples.shape[1]`. */
  datatype Matrix = Matrix(width: nat, rows: seq<seq<int>>)

  predicate Rectangular(m: Matrix) {
    forall i :: 0 <= i < |m.rows| ==> |m.rows[i]| == m.width
  }

  /** What the backend supplies: the sample matrix of the circuit generated with
    * a given width and seed, and `np.std(xs) / np.sqrt(trials)`. */
  datatype Backend = Backend(samplesOf: (int, int) -> Matrix, stdErr: seq<real> -> real)

  /** `2**(n-1)`, which Python evaluates to 0.5 for n = 0. */
  function IdealMedian(width: nat): real {
    if width == 0 then 0.5 else Pow2(width - 1) as real
  }

  /** How many entries of a row are -1. */
  function MinusOnes(row: seq<int>): (c: nat)
    ensures c <= |row|
    decreases |row|
  {
    if |row| == 0 then 0
    else MinusOnes(row[..|row| - 1]) + (if row[|row| - 1] == -1 then 1 else 0)
  }

  /** How many rows have more -1 entries than the median. */
  function HeavyCount(rows: seq<seq<int>>, median: real): (c: nat)
    ensures c <= |rows|
    decreases |rows|
  {
    if |rows| == 0 then 0
    else HeavyCount(rows[..|rows| - 1], median) + (if MinusOnes(rows[|rows| - 1]) as real > median then 1 else 0)
  }

  /** `heavy_outputs`: the fraction of rows that are heavy, a value in [0, 1];
    * an empty matrix divides 0 by 0, which is NaN, here `None`. */
  function HeavyOutputs(m: Matrix): (h: Option<real>)
    ensures h.None? <==> |m.rows| == 0
    ensures h.Some? ==> 0.0 <= h.value <= 1.0
  {
    if |m.rows| == 0 then None
    else
      var heavy := HeavyCount(m.rows, IdealMedian(m.width));
      ShareInUnit(heavy as real, |m.rows| as real);
      Some(heavy as real / |m.rows| as real)
  }

  /** A row never holds more entries than its width's median: n <= 2^(n-1). */
  lemma {:induction false} WidthBelowMedian(width: nat)
    ensures width as real <= IdealMedian(width)
    decreases width
  {
    if width > 1 {
      WidthBelowMedian(width - 1);
    }
  }

  lemma {:induction false} NoHeavyRows(rows: seq<seq<int>>, width: nat, median: real)
    requires forall i :: 0 <= i < |rows| ==> |rows[i]| == width
    requires width as real <= median
    ensures HeavyCount(rows, median) == 0
    decreases |rows|
  {
    if |rows| > 0 {
      NoHeavyRows(rows[..|rows| - 1], width, median);
    }
  }

  /** No row of a well-shaped matrix is ever heavy: `heavy_outputs` of any
    * non-empty matrix is 0. */
  lemma HeavyIsZero(m: Matrix)
    requires Rectangular(m) && |m.rows| > 0
    ensures HeavyOutputs(m) == Some(0.0)
  {
    WidthBelowMedian(m.width);
    NoHeavyRows(m.rows, m.width, IdealMedian(m.width));
  }

  /** Heavy-output counting as the docstring of `heavy_outputs` describes it:
    * a sampled row is heavy when its ideal probability, an input here,
    * exceeds the median of the ideal output probabilities. */
  function HeavyCountIntended(rows: seq<seq<int>>, prob: seq<int> -> real, median: real): (c: nat)
    ensures c <= |rows|
    decreases |rows|
  {
    if |rows| == 0 then 0
    else HeavyCountIntended(rows[..|rows| - 1], prob, median) + (if prob(rows[|rows| - 1]) > median then 1 else 0)
  }

  /** The corrected `heavy_outputs`: the fraction of rows whose ideal
    * probability is above the median, NaN (`None`) for an empty matrix. */
  function HeavyOutputsIntended(m: Matrix, prob: seq<int> -> real, median: real): (h: Option<real>)
    ensures h.None? <==> |m.rows| == 0
    ensures h.Some? ==> 0.0 <= h.value <= 1.0
  {
    if |m.rows| == 0 then None
    else
      var heavy := HeavyCountIntended(m.rows, prob, median);
      ShareInUnit(heavy as real, |m.rows| as real);
      Some(heavy as real / |m.rows| as real)
  }

  /** Every row heavy counts every row; no row heavy counts none. */
  lemma {:induction false} HeavyCountIntendedExtremes(rows: seq<seq<int>>, prob: seq<int> -> real, median: real)
    ensures (forall i :: 0 <= i < |rows| ==> prob(rows[i]) > median) ==> HeavyCountIntended(rows, prob, median) == |rows|
    ensures (forall i :: 0 <= i < |rows| ==> prob(rows[i]) <= median) ==> HeavyCountIntended(rows, prob, median) == 0
    decreases |rows|
  {
    if |rows| > 0 {
      var init := rows[..|rows| - 1];
      assert forall i :: 0 <= i < |init| ==> init[i] == rows[i];
      HeavyCountIntendedExtremes(init, prob, median);
    }
  }

  /** Corrected, a matrix whose rows are all heavy scores 1, which clears the
    * 2/3 threshold, where the written scoring gives 0 for the same samples. */
  lemma IntendedCanPass(m: Matrix, prob: seq<int> -> real, median: real)
    requires Rectangular(m) && |m.rows| > 0
    requires forall i :: 0 <= i < |m.rows| ==> prob(m.rows[i]) > median
    ensures HeavyOutputsIntended(m, prob, median) == Some(1.0)
    ensures HeavyOutputs(m) == Some(0.0)
  {
    HeavyCountIntendedExtremes(m.rows, prob, median);
    assert |m.rows| as real / |m.rows| as real == 1.0;
    HeavyIsZero(m);
  }

  /** The heavy-output fractions of the first `count` trials at width n; trial
    * t uses seed t + 1000 n. */
  function TrialProbs(n: int, count: nat, b: Backend): (probs: seq<Option<real>>)
    ensures |probs| == count
  {
    seq(count, t requires 0 <= t < count => HeavyOutputs(b.samplesOf(n, t + n * 1000)))
  }

  /** The numbers of a list, or `None` when one of them is NaN. */
  function Known(probs: seq<Option<real>>): Option<seq<real>>
    decreases |probs|
  {
    if |probs| == 0 then Some([])
    else
      var front := Known(probs[..|probs| - 1]);
      var last := probs[|probs| - 1];
      if front.Some? && last.Some? then Some(front.value + [last.value]) else None
  }

  /** A list is known exactly when none of its entries is NaN, and then it
    * holds their values in order. */
  lemma {:induction false} KnownMeaning(probs: seq<Option<real>>)
    ensures Known(probs).Some? <==> forall t :: 0 <= t < |probs| ==> probs[t].Some?
    ensures Known(probs).Some? ==>
      |Known(probs).value| == |probs| && forall t :: 0 <= t < |probs| ==> Known(probs).value[t] == probs[t].value
    decreases |probs|
  {
    if |probs| > 0 {
      KnownMeaning(probs[..|probs| - 1]);
    }
  }

  function Sum(xs: seq<real>): real
    decreases |xs|
  {
    if |xs| == 0 then 0.0 else Sum(xs[..|xs| - 1]) + xs[|xs| - 1]
  }

  lemma {:induction false} SumOfZeros(xs: seq<real>)
    requires forall t :: 0 <= t < |xs| ==> xs[t] == 0.0
    ensures Sum(xs) == 0.0
    decreases |xs|
  {
    if |xs| > 0 {
      SumOfZeros(xs[..|xs| - 1]);
    }
  }

  /** `np.mean`: NaN for an empty list or a list holding NaN. */
  function Mean(probs: seq<Option<real>>): Option<real> {
    match Known(probs)
    case None => None
    case Some(xs) => if |xs| == 0 then None else Some(Sum(xs) / |xs| as real)
  }

  /** `mean_h > 2/3 and mean_h - 2*std_h > 2/3` */
  predicate Succeeds(mean: real, stdErr: real) {
    mean > 2.0 / 3.0 && mean - 2.0 * stdErr > 2.0 / 3.0
  }

  /** Whether a width with these trial results succeeds; a NaN mean compares false. */
  predicate Judge(probs: seq<Option<real>>, b: Backend) {
    match Known(probs)
    case None => false
    case Some(xs) => |xs| > 0 && Succeeds(Sum(xs) / |xs| as real, b.stdErr(xs))
  }

  /** `range(trials)` is empty for a negative count. */
  function Trials(trials: int): nat {
    if trials < 0 then 0 else trials
  }

  /** The outcome of testing one width: success, and the mean recorded. */
  datatype Verdict = Verdict(passes: bool, mean: Option<real>)

  /** The verdict on every width, for a given trial count and backend. */
  function Widths(trials: int, b: Backend): int -> Verdict {
    n => var probs := TrialProbs(n, Trials(trials), b); Verdict(Judge(probs, b), Mean(probs))
  }

  /** The benchmark's state after widths 2..n have been dealt with. */
  datatype Sweep = Sweep(achieved: nat, rates: map<int, Option<real>>, stopped: bool)

  function SweepTo(n: int, widths: int -> Verdict): Sweep
    decreases if n < 2 then 0 else n
  {
    if n < 2 then Sweep(0, map[], false)
    else
      var s := SweepTo(n - 1, widths);
      if s.stopped then s
      else if widths(n).passes then Sweep(n, s.rates[n := widths(n).mean], false)
      else Sweep(s.achieved, s.rates[n := widths(n).mean], true)
  }

  /** Once a width fails, later widths are never tested. */
  lemma {:induction false} StoppedStays(n: int, m: int, widths: int -> Verdict)
    requires n <= m && SweepTo(n, widths).stopped
    ensures SweepTo(m, widths) == SweepTo(n, widths)
    decreases m - n
  {
    if n < m {
      StoppedStays(n, m - 1, widths);
    }
  }

  function Last(achieved: nat): nat {
    if achieved == 0 then 1 else achieved
  }

  /** `achieved_n` is 0 or a width in 2..n, every width up to it succeeded,
    * the sweep stopped exactly at the first failing width, and the rates hold
    * the mean of every tested width, the failing one included. */
  lemma {:induction false} SweepFacts(n: int, widths: int -> Verdict)
    ensures var s := SweepTo(n, widths);
      && (s.achieved == 0 || 2 <= s.achieved <= n)
      && (forall k :: 2 <= k <= s.achieved ==> widths(k).passes)
      && (!s.stopped ==> s.achieved == (if n >= 2 then n else 0))
      && (s.stopped ==> Last(s.achieved) < n && !widths(Last(s.achieved) + 1).passes)
      && (forall k :: k in s.rates <==> 2 <= k <= n && k <= Last(s.achieved) + 1)
      && (forall k :: k in s.rates ==> s.rates[k] == widths(k).mean)
    decreases if n < 2 then 0 else n
  {
    if n >= 2 {
      SweepFacts(n - 1, widths);
    }
  }

  /** With well-shaped, non-empty matrices at width 2 and at least one trial,
    * width 2 fails with a mean of 0. */
  lemma WidthTwoFails(trials: int, b: Backend)
    requires trials > 0
    requires forall seed :: Rectangular(b.samplesOf(2, seed)) && |b.samplesOf(2, seed).rows| > 0
    ensures Widths(trials, b)(2) == Verdict(false, Some(0.0))
  {
    var probs := TrialProbs(2, trials, b);
    forall t | 0 <= t < trials
      ensures probs[t] == Some(0.0)
    {
      HeavyIsZero(b.samplesOf(2, t + 2 * 1000));
    }
    KnownMeaning(probs);
    var xs := Known(probs).value;
    SumOfZeros(xs);
    assert Sum(xs) / |xs| as real == 0.0;
    assert Mean(probs) == Some(0.0);
    assert !Judge(probs, b);
  }

  /** With a backend whose matrices are well shaped and non-empty, and at least
    * one trial, width 2 always fails: the benchmark reports n = 0, volume 1,
    * and a single rate of 0 for width 2. */
  lemma StopsAtTwo(maxN: int, trials: int, b: Backend)
    requires maxN >= 2 && trials > 0
    requires forall n, seed :: Rectangular(b.samplesOf(n, seed)) && |b.samplesOf(n, seed).rows| > 0
    ensures SweepTo(maxN, Widths(trials, b)) == Sweep(0, map[2 := Some(0.0)], true)
  {
    WidthTwoFails(trials, b);
    var widths := Widths(trials, b);
    assert SweepTo(1, widths) == Sweep(0, map[], false);
    StoppedStays(2, maxN, widths);
  }

  /** `run_quantum_volume`: returns 2^achieved_n and the rate of every tested width. */
  method RunQuantumVolume(maxN: int, trials: int, b: Backend) returns (achievedQv: nat, successRates: map<int, Option<real>>)
    ensures var s := SweepTo(maxN, Widths(trials, b));
      achievedQv == Pow2(s.achieved) && successRates == s.rates
  {
    ghost var widths := Widths(trials, b);
    successRates := map[];
    var achievedN := 0;
    var n := 2;
    while n <= maxN
      invariant 2 <= n && (n <= maxN + 1 || n == 2)
      invariant SweepTo(n - 1, widths) == Sweep(achievedN, successRates, false)
      decreases maxN - n
    {
      var heavyProbs: seq<Option<real>> := [];
      var t := 0;
      while t < trials
        invariant 0 <= t && (t <= trials || t == 0)
        invariant heavyProbs == TrialProbs(n, t, b)
      {
        var seed := t + n * 1000;
        var h := HeavyOutputs(b.samplesOf(n, seed));
        heavyProbs := heavyProbs + [h];
        t := t + 1;
      }
      assert t == Trials(trials);
      assert widths(n) == Verdict(Judge(heavyProbs, b), Mean(heavyProbs));
      var meanH := Mean(heavyProbs);
      var success := Judge(heavyProbs, b);
      successRates := successRates[n := meanH];
      if success {
        achievedN := n;
      } else {
        StoppedStays(n, maxN, widths);
        break;
      }
      n := n + 1;
    }
    achievedQv := Pow2(achievedN);
  }
}
