/**
 * The superadditive and linear-perturbed value functions. Unperturbed, a
 * coalition is worth its size. Perturbed, the constructor draws one sample
 * s_i from U(1, 2) per agent and stores (i + 1) * |s_i|; a coalition of
 * size k is then worth entry k - 1 (entry 0 for the empty coalition).
 * Task and location play no part.
 */
module LinearPerturbed {
  import opened Wrappers
  import opened Locations
  import opened Tasks
  import opened Agents
  import opened ValueTables

  /** `cValues` is allocated only for a perturbed instance. */
  datatype LinearPerturbedProblem = LinearPerturbedProblem(perturbed: bool, cValues: Option<seq<real>>)

  predicate WellFormed(p: LinearPerturbedProblem) {
    p.perturbed <==> p.cValues.Some?
  }

  /** The constructor's entry for position i from its sample. */
  function Scaled(i: nat, sample: real): real {
    (i + 1) as real * RealAbs(sample)
  }

  /**
   * The constructor: one call of the sampler per agent, in agent order,
   * given here as `samples`. `cValues` holds exactly one entry per agent.
   */
  method New(agents: seq<Agent>, perturbed: bool, samples: seq<real>) returns (p: LinearPerturbedProblem)
    requires perturbed ==> |samples| == |agents|
    ensures WellFormed(p) && p.perturbed == perturbed
    ensures perturbed ==>
      && |p.cValues.value| == |agents|
      && forall i :: 0 <= i < |agents| ==> p.cValues.value[i] == Scaled(i, samples[i])
  {
    if !perturbed {
      return LinearPerturbedProblem(false, None);
    }
    var cValues := new real[|agents|];
    for i := 0 to |agents|
      invariant forall k :: 0 <= k < i ==> cValues[k] == Scaled(k, samples[k])
    {
      cValues[i] := (i + 1) as real * RealAbs(samples[i]);
    }
    p := LinearPerturbedProblem(true, Some(cValues[..]));
  }

  /** getValue: the coalition's size, or the table entry for its size. */
  function GetValue(p: LinearPerturbedProblem, task: Task, location: Location, coalition: seq<Agent>): (r: real)
    requires WellFormed(p)
    requires p.perturbed ==> SizeIndex(|coalition|) < |p.cValues.value|
  {
    if !p.perturbed then |coalition| as real else p.cValues.value[SizeIndex(|coalition|)]
  }

  /** An entry lies between its scale and twice it when its sample comes from U(1, 2). */
  lemma ScaledBounds(i: nat, sample: real)
    requires 1.0 <= sample <= 2.0
    ensures (i + 1) as real <= Scaled(i, sample) <= 2.0 * (i + 1) as real
  {
    var k := (i + 1) as real;
    assert RealAbs(sample) == sample;
    var up := 2.0 - sample;
    assert k * sample - k == k * (sample - 1.0) >= 0.0;
    assert k * up >= 0.0;
    assert 2.0 * k - k * sample == k * up;
  }

  /**
   * The value depends on the coalition's size alone. Unperturbed it is the
   * size; perturbed, with samples from U(1, 2), a coalition of k >= 1 agents
   * is worth between k and 2k, so the perturbation at most doubles the
   * superadditive value.
   */
  lemma ValueBySize(p: LinearPerturbedProblem, agents: seq<Agent>, samples: seq<real>,
                    task: Task, location: Location, coalition: seq<Agent>)
    requires WellFormed(p) && 1 <= |coalition| <= |agents|
    requires p.perturbed ==>
      && |samples| == |agents| && |p.cValues.value| == |agents|
      && (forall i :: 0 <= i < |agents| ==> p.cValues.value[i] == Scaled(i, samples[i]))
      && (forall i :: 0 <= i < |samples| ==> 1.0 <= samples[i] <= 2.0)
    ensures !p.perturbed ==> GetValue(p, task, location, coalition) == |coalition| as real
    ensures p.perturbed ==>
      |coalition| as real <= GetValue(p, task, location, coalition) <= 2.0 * |coalition| as real
  {
    if p.perturbed {
      ScaledBounds(|coalition| - 1, samples[|coalition| - 1]);
    }
  }
}
