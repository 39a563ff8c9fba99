/** The Mercy-Override spiking council: leaky-integrate-and-fire neurons charge
  * with an error current, spike at a threshold and reset; the council bursts
  * when more than half of all possible spikes fired, unless a human override
  * forces the burst. The Gaussian noise added to each step's current is an
  * input. */
module MercyOverride {

  datatype Option<T> = None | Some(value: T)

  const Tau: real := 10.0
  const Threshold: real := 1.0
  const Reset: real := 0.0

  /** The voltage after charging with `current`. */
  function Charged(v: real, current: real, tau: real): real
    requires tau != 0.0
  {
    v + current / tau
  }

  /** A neuron spikes when the charged voltage reaches the threshold. */
  predicate Fires(v: real, current: real, tau: real, threshold: real)
    requires tau != 0.0
  {
    Charged(v, current, tau) >= threshold
  }

  /** The voltage after a step: reset after a spike, charged otherwise. */
  function After(v: real, current: real, tau: real, threshold: real, reset: real): real
    requires tau != 0.0
  {
    if Fires(v, current, tau, threshold) then reset else Charged(v, current, tau)
  }

  /** With a reset below the threshold, the voltage after any step is below the threshold. */
  lemma AfterBelowThreshold(v: real, current: real, tau: real, threshold: real, reset: real)
    requires tau != 0.0 && reset < threshold
    ensures After(v, current, tau, threshold, reset) < threshold
  {
  }

  class LIFNeuron {
    var voltage: real
    var tau: real
    var threshold: real
    var reset: real
    var spike: bool

    constructor(tau: real, threshold: real, reset: real)
      ensures voltage == 0.0 && !spike
      ensures this.tau == tau && this.threshold == threshold && this.reset == reset
    {
      voltage := 0.0;
      this.tau := tau;
      this.threshold := threshold;
      this.reset := reset;
      spike := false;
    }

    /** `step`: charge by current / tau, spike at the threshold, reset on a spike. */
    method Step(current: real) returns (fired: bool)
      requires tau != 0.0
      modifies this
      ensures tau == old(tau) && threshold == old(threshold) && reset == old(reset)
      ensures fired == spike == Fires(old(voltage), current, tau, threshold)
      ensures voltage == After(old(voltage), current, tau, threshold, reset)
    {
      voltage := voltage + current / tau;
      spike := voltage >= threshold;
      if spike {
        voltage := reset;
      }
      fired := spike;
    }
  }

  /** Every neuron of a council, with the default parameters, stepped with the same current. */
  function StepAll(vs: seq<real>, current: real): (next: seq<real>)
    ensures |next| == |vs|
  {
    seq(|vs|, i requires 0 <= i < |vs| => After(vs[i], current, Tau, Threshold, Reset))
  }

  /** How many of the neurons spike under `current`. */
  function Fired(vs: seq<real>, current: real): nat
    decreases |vs|
  {
    if |vs| == 0 then 0
    else Fired(vs[..|vs| - 1], current) + (if Fires(vs[|vs| - 1], current, Tau, Threshold) then 1 else 0)
  }

  /** No more neurons spike in a step than the council has. */
  lemma {:induction false} FiredBound(vs: seq<real>, current: real)
    ensures Fired(vs, current) <= |vs|
    decreases |vs|
  {
    if |vs| > 0 {
      FiredBound(vs[..|vs| - 1], current);
    }
  }

  /** Voltages and total spikes after the first k steps, step t using current
    * level + noise[t]. */
  function Run(vs: seq<real>, level: real, noise: seq<real>, k: nat): (seq<real>, nat)
    requires k <= |noise|
    decreases k
  {
    if k == 0 then (vs, 0)
    else
      var (before, spikes) := Run(vs, level, noise, k - 1);
      var current := level + noise[k - 1];
      (StepAll(before, current), spikes + Fired(before, current))
  }

  /** One more step extends the run by stepping every neuron and counting its spikes. */
  lemma RunNext(vs: seq<real>, level: real, noise: seq<real>, t: nat, before: seq<real>, spikes: nat)
    requires t < |noise| && Run(vs, level, noise, t) == (before, spikes)
    ensures Run(vs, level, noise, t + 1) == (StepAll(before, level + noise[t]), spikes + Fired(before, level + noise[t]))
  {
  }

  /** Over k steps the council spikes at most k times its size, keeps its size,
    * and (after at least one step) every voltage is below the threshold. */
  lemma {:induction false} RunBounds(vs: seq<real>, level: real, noise: seq<real>, k: nat)
    requires k <= |noise|
    ensures |Run(vs, level, noise, k).0| == |vs|
    ensures Run(vs, level, noise, k).1 <= k * |vs|
    ensures k > 0 ==> forall i :: 0 <= i < |vs| ==> Run(vs, level, noise, k).0[i] < Threshold
    decreases k
  {
    if k > 0 {
      RunBounds(vs, level, noise, k - 1);
      var (before, spikes) := Run(vs, level, noise, k - 1);
      var current := level + noise[k - 1];
      FiredBound(before, current);
      assert (k - 1) * |vs| + |vs| == k * |vs|;
      forall i | 0 <= i < |vs|
        ensures StepAll(before, current)[i] < Threshold
      {
        AfterBelowThreshold(before[i], current, Tau, Threshold, Reset);
      }
    }
  }

  /** The result of `mercy_burst`: forced true by an override of True once a
    * step has run, otherwise a strict majority of all possible spikes. */
  function BurstResult(vs: seq<real>, level: real, steps: nat, humanOverride: Option<bool>, noise: seq<real>): bool
    requires steps <= |noise|
  {
    if humanOverride == Some(true) && steps > 0 then true
    else Run(vs, level, noise, steps).1 > (steps * |vs|) / 2
  }

  /** The voltages `mercy_burst` leaves behind: one step under a forcing
    * override, all of them otherwise. */
  function BurstVoltages(vs: seq<real>, level: real, steps: nat, humanOverride: Option<bool>, noise: seq<real>): seq<real>
    requires steps <= |noise|
  {
    if humanOverride == Some(true) && steps > 0 then Run(vs, level, noise, 1).0
    else Run(vs, level, noise, steps).0
  }

  /** An override of False decides like the automatic council: suppressing a
    * step's spikes after they were counted changes nothing. */
  lemma RestraintIsAuto(vs: seq<real>, level: real, steps: nat, noise: seq<real>)
    requires steps <= |noise|
    ensures BurstResult(vs, level, steps, Some(false), noise) == BurstResult(vs, level, steps, None, noise)
  {
  }

  /** Five resting neurons under an error level of 10 all reach the threshold
    * in one step, so an override of False still bursts, against its promise
    * to forbid the burst. */
  lemma RestraintBurstsAsWritten()
    ensures BurstResult([0.0, 0.0, 0.0, 0.0, 0.0], 10.0, 1, Some(false), [0.0])
  {
    var vs := [0.0, 0.0, 0.0, 0.0, 0.0];
    AllFire(vs, 10.0);
  }

  /** When every neuron reaches the threshold, all of them spike. */
  lemma {:induction false} AllFire(vs: seq<real>, current: real)
    requires forall i :: 0 <= i < |vs| ==> Fires(vs[i], current, Tau, Threshold)
    ensures Fired(vs, current) == |vs|
    decreases |vs|
  {
    if |vs| > 0 {
      AllFire(vs[..|vs| - 1], current);
    }
  }

  /** Voltages and counted spikes after k steps when a restraining override
    * zeroes each step's spikes before they are added: the neurons step as
    * before, and a restrained step counts nothing. */
  function RunIntended(vs: seq<real>, level: real, noise: seq<real>, k: nat, restrained: bool): (seq<real>, nat)
    requires k <= |noise|
    decreases k
  {
    if k == 0 then (vs, 0)
    else
      var (before, spikes) := RunIntended(vs, level, noise, k - 1, restrained);
      var current := level + noise[k - 1];
      (StepAll(before, current), spikes + (if restrained then 0 else Fired(before, current)))
  }

  /** The corrected `mercy_burst` result: True forces the burst once a step
    * has run, and the majority is taken over the spikes counted. */
  function BurstResultIntended(vs: seq<real>, level: real, steps: nat, humanOverride: Option<bool>, noise: seq<real>): bool
    requires steps <= |noise|
  {
    if humanOverride == Some(true) && steps > 0 then true
    else RunIntended(vs, level, noise, steps, humanOverride == Some(false)).1 > (steps * |vs|) / 2
  }

  /** The corrected run steps the neurons exactly as the written one does; it
    * counts the same spikes when unrestrained and none when restrained. */
  lemma {:induction false} RunIntendedMatches(vs: seq<real>, level: real, noise: seq<real>, k: nat, restrained: bool)
    requires k <= |noise|
    ensures RunIntended(vs, level, noise, k, restrained).0 == Run(vs, level, noise, k).0
    ensures RunIntended(vs, level, noise, k, restrained).1 == (if restrained then 0 else Run(vs, level, noise, k).1)
    decreases k
  {
    if k > 0 {
      RunIntendedMatches(vs, level, noise, k - 1, restrained);
    }
  }

  /** Corrected, an override of False forbids the burst whatever the neurons
    * do, and every other override decides as the written code does. */
  lemma RestraintForbidsIntended(vs: seq<real>, level: real, steps: nat, humanOverride: Option<bool>, noise: seq<real>)
    requires steps <= |noise|
    ensures humanOverride == Some(false) ==> !BurstResultIntended(vs, level, steps, humanOverride, noise)
    ensures humanOverride != Some(false) ==>
      BurstResultIntended(vs, level, steps, humanOverride, noise) == BurstResult(vs, level, steps, humanOverride, noise)
  {
    RunIntendedMatches(vs, level, noise, steps, humanOverride == Some(false));
  }

  /** An odd number, at least five, of distinct neurons. */
  ghost predicate Distinct(neurons: seq<LIFNeuron>) {
    && |neurons| % 2 == 1 && |neurons| >= 5
    && forall i, j :: 0 <= i < j < |neurons| ==> neurons[i] != neurons[j]
  }

  class MercyCouncil {
    var neurons: seq<LIFNeuron>

    /** An odd council of at least five distinct default neurons. */
    ghost predicate Valid()
      reads this, neurons
    {
      && Distinct(neurons)
      && (forall i :: 0 <= i < |neurons| ==>
            neurons[i].tau == Tau && neurons[i].threshold == Threshold && neurons[i].reset == Reset)
    }

    function Voltages(): (vs: seq<real>)
      reads this, neurons
      ensures |vs| == |neurons|
    {
      seq(|neurons|, i reads this, neurons requires 0 <= i < |neurons| => neurons[i].voltage)
    }

    /** The constructor's assertion becomes its precondition. */
    constructor(numNeurons: nat)
      requires numNeurons % 2 == 1 && numNeurons >= 5
      ensures Valid() && fresh(neurons) && |neurons| == numNeurons
      ensures forall i :: 0 <= i < numNeurons ==> Voltages()[i] == 0.0
    {
      var made: seq<LIFNeuron> := [];
      while |made| < numNeurons
        invariant |made| <= numNeurons
        invariant fresh(made)
        invariant forall i, j :: 0 <= i < j < |made| ==> made[i] != made[j]
        invariant forall i :: 0 <= i < |made| ==>
          made[i].tau == Tau && made[i].threshold == Threshold && made[i].reset == Reset && made[i].voltage == 0.0
      {
        var n := new LIFNeuron(Tau, Threshold, Reset);
        made := made + [n];
      }
      neurons := made;
    }

    /** One neuron of the council steps; the others keep their voltages. */
    method StepNeuron(j: nat, current: real) returns (fired: bool)
      requires Valid() && j < |neurons|
      modifies neurons[j]
      ensures Valid()
      ensures fired == Fires(old(neurons[j].voltage), current, Tau, Threshold)
      ensures neurons[j].voltage == After(old(neurons[j].voltage), current, Tau, Threshold, Reset)
      ensures forall i :: 0 <= i < |neurons| && i != j ==> neurons[i].voltage == old(neurons[i].voltage)
    {
      fired := neurons[j].Step(current);
    }

    /** `sum(n.step(current) for n in self.neurons)`: every neuron steps once,
      * in order, and the spikes are counted. */
    method StepNeurons(current: real) returns (stepSpikes: nat)
      requires Valid()
      modifies neurons
      ensures Valid()
      ensures Voltages() == StepAll(old(Voltages()), current)
      ensures stepSpikes == Fired(old(Voltages()), current)
    {
      ghost var before := Voltages();
      stepSpikes := 0;
      var j := 0;
      while j < |neurons|
        invariant 0 <= j <= |neurons| && Valid()
        invariant forall i :: 0 <= i < j ==> neurons[i].voltage == After(before[i], current, Tau, Threshold, Reset)
        invariant forall i :: j <= i < |neurons| ==> neurons[i].voltage == before[i]
        invariant stepSpikes == Fired(before[..j], current)
      {
        assert before[..j + 1][..j] == before[..j];
        var fired := StepNeuron(j, current);
        if fired {
          stepSpikes := stepSpikes + 1;
        }
        j := j + 1;
      }
      assert before[..j] == before;
    }

    /** Step t of `mercy_burst`: the council moves from the state after t steps
      * to the state after t + 1, and the step's spikes are counted. */
    method StepOnce(ghost start: seq<real>, errorLevel: real, noise: seq<real>, t: nat, ghost spikes: nat) returns (stepSpikes: nat)
      requires Valid() && t < |noise| && Run(start, errorLevel, noise, t) == (Voltages(), spikes)
      modifies neurons
      ensures Valid() && Run(start, errorLevel, noise, t + 1) == (Voltages(), spikes + stepSpikes)
    {
      var current := errorLevel + noise[t];
      RunNext(start, errorLevel, noise, t, Voltages(), spikes);
      stepSpikes := StepNeurons(current);
    }

    /** `mercy_burst`: each step charges every neuron with error_level plus
      * that step's noise and counts the spikes. An override of False zeroes
      * a step's count only after it was added, so it decides like the
      * automatic council. */
    method MercyBurst(errorLevel: real, steps: nat, humanOverride: Option<bool>, noise: seq<real>) returns (burst: bool)
      requires Valid() && steps <= |noise|
      modifies neurons
      ensures Valid()
      ensures burst == BurstResult(old(Voltages()), errorLevel, steps, humanOverride, noise)
      ensures Voltages() == BurstVoltages(old(Voltages()), errorLevel, steps, humanOverride, noise)
    {
      ghost var start := Voltages();
      var spikes := 0;
      var t := 0;
      while t < steps
        invariant 0 <= t <= steps && Valid()
        invariant Run(start, errorLevel, noise, t) == (Voltages(), spikes)
        invariant humanOverride == Some(true) ==> t == 0
      {
        var stepSpikes := StepOnce(start, errorLevel, noise, t, spikes);
        spikes := spikes + stepSpikes;
        if humanOverride == Some(true) {
          return true;
        }
        if humanOverride == Some(false) && stepSpikes > 0 {
          stepSpikes := 0;
        }
        t := t + 1;
      }
      burst := spikes > (steps * |neurons|) / 2;
    }
  }
}
