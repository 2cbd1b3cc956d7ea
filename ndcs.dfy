/**
 * The NDCS value function with urgency and congestion perturbations. The
 * constructor draws one base value per agent, |N(i + 1, (i + 1)^0.25)|. A
 * coalition of size k starts from base value k - 1; with `urgent` or
 * `congested` set, rolls of `nextInt(101)` against chances of the form
 * `(int) ceil(x) * 100` may subtract draws from U(f / 10, f / 5). Results
 * are cached under the task id and the coalition's agents, so a repeated
 * call returns the first result even for another location.
 */
module Ndcs {
  import opened Locations
  import opened Tasks
  import opened Agents
  import opened Marsc
  import opened ValueTables
  import Growth

  /** The draws of one uncached call: each roll of `nextInt(101)` and each sample of U(f / 10, f / 5). */
  datatype Perturbation = Perturbation(
    deadlineRoll: int, deadlineCut: real,
    travelRoll: int, travelCut: real,
    congestionRoll: int, congestionCut: real)

  /** `(int) Math.ceil(x) * 100`: the threshold a roll must not exceed. */
  function Chance(x: real): int {
    Growth.Ceil(x) * 100
  }

  /**
   * The perturbed value of an uncached call, from the base value f: the
   * deadline and travel subtractions when urgent, then the congestion one
   * when congested.
   */
  function Perturbed(f: real, urgent: bool, congested: bool, hard: int, horizon: nat, travel: nat,
                     size: nat, agentCount: nat, d: Perturbation): real
  {
    var f1 := if urgent && d.deadlineRoll <= Chance(hard as real / (horizon + 1) as real) then f - d.deadlineCut else f;
    var f2 := if urgent && d.travelRoll <= Chance(travel as real / (horizon + 1) as real) then f1 - d.travelCut else f1;
    if congested && d.congestionRoll <= Chance(size as real / (agentCount + 1) as real) then f2 - d.congestionCut else f2
  }

  /** Every sample of U(f / 10, f / 5) lies in that range, and every roll of `nextInt(101)` in 0..100. */
  predicate InSupport(f: real, d: Perturbation) {
    && f / 10.0 <= d.deadlineCut <= f / 5.0
    && f / 10.0 <= d.travelCut <= f / 5.0
    && f / 10.0 <= d.congestionCut <= f / 5.0
    && 0 <= d.deadlineRoll <= 100 && 0 <= d.travelRoll <= 100 && 0 <= d.congestionRoll <= 100
  }

  /**
   * Without either flag the base value is returned unchanged. The
   * perturbations only subtract: with the draws in range, the value lies
   * between two fifths of the base value and the base value.
   */
  lemma PerturbedBounds(f: real, urgent: bool, congested: bool, hard: int, horizon: nat, travel: nat,
                        size: nat, agentCount: nat, d: Perturbation)
    ensures !urgent && !congested ==> Perturbed(f, urgent, congested, hard, horizon, travel, size, agentCount, d) == f
    ensures f >= 0.0 && InSupport(f, d) ==>
      0.4 * f <= Perturbed(f, urgent, congested, hard, horizon, travel, size, agentCount, d) <= f
  {
  }

  /** A positive ratio of at most 1 has chance exactly 100, and any positive ratio at least 100. */
  lemma ChanceOfPositive(x: real)
    requires x > 0.0
    ensures Chance(x) >= 100
    ensures x <= 1.0 ==> Chance(x) == 100
  {
    var c := Growth.Ceil(x);
    assert (c - 1) as real < x <= c as real;
  }

  /**
   * Because every roll is at most 100, two subtractions always happen once
   * their ratios are positive: the first urgent one for a positive hard
   * deadline, and the congested one for a non-empty coalition of at most
   * all the agents. Only the travel subtraction depends on its roll.
   */
  lemma TwoSubtractions(f: real, hard: int, horizon: nat, travel: nat, size: nat, agentCount: nat, d: Perturbation)
    requires hard > 0 && 1 <= size <= agentCount && InSupport(f, d)
    ensures var travelled := d.travelRoll <= Chance(travel as real / (horizon + 1) as real);
      Perturbed(f, true, true, hard, horizon, travel, size, agentCount, d)
        == f - d.deadlineCut - (if travelled then d.travelCut else 0.0) - d.congestionCut
  {
    ChanceOfPositive(hard as real / (horizon + 1) as real);
    assert 0.0 < size as real / (agentCount + 1) as real <= 1.0;
    ChanceOfPositive(size as real / (agentCount + 1) as real);
  }

  /** The base values: the absolute value of one normal sample per agent. */
  method DrawPreValues(draws: seq<real>) returns (pre: seq<real>)
    ensures |pre| == |draws| && forall i :: 0 <= i < |draws| ==> pre[i] == RealAbs(draws[i])
  {
    var preValues := new real[|draws|];
    for i := 0 to |draws|
      invariant forall k :: 0 <= k < i ==> preValues[k] == RealAbs(draws[k])
    {
      preValues[i] := RealAbs(draws[i]);
    }
    pre := preValues[..];
  }

  class NdcsProblem {
    const problem: Problem
    const urgent: bool
    const congested: bool
    const preValues: seq<real>
    var coalitionValueMap: map<CacheKey, real>

    /** One base value per agent, and a horizon of at least 0, as the instance's constructor leaves it. */
    ghost predicate Valid()
      reads this
    {
      |preValues| == |problem.agents| && problem.maximumProblemCompletionTime >= 0
    }

    /** Every cached value is at most the base value for its coalition's size. */
    ghost predicate Bounded()
      reads this
    {
      forall k :: k in coalitionValueMap ==>
        1 <= |k.coalition| <= |preValues| && coalitionValueMap[k] <= preValues[|k.coalition| - 1]
    }

    constructor (problem: Problem, urgent: bool, congested: bool, draws: seq<real>)
      requires |draws| == |problem.agents| && problem.maximumProblemCompletionTime >= 0
      ensures Valid() && Bounded()
      ensures this.problem == problem && this.urgent == urgent && this.congested == congested
      ensures forall i :: 0 <= i < |draws| ==> preValues[i] == RealAbs(draws[i])
      ensures coalitionValueMap == map[]
    {
      var pre := DrawPreValues(draws);
      this.problem := problem;
      this.urgent := urgent;
      this.congested := congested;
      preValues := pre;
      coalitionValueMap := map[];
    }

    /**
     * getValue: a cached value is returned as it is, whatever the location;
     * otherwise the perturbed value of base value k - 1 is computed, from the
     * task's hard deadline, the travel time of the coalition's last agent
     * from its current location, and the coalition's size, and cached.
     * With the draws in range, every cached value stays at most its base
     * value.
     */
    method GetValue(task: Task, location: Location, coalition: seq<Agent>, d: Perturbation) returns (r: real)
      requires Valid() && 1 <= |coalition| <= |preValues|
      modifies this
      ensures Valid()
      ensures CacheKey(task.id, Ids(coalition)) in old(coalitionValueMap) ==>
        r == old(coalitionValueMap)[CacheKey(task.id, Ids(coalition))] && coalitionValueMap == old(coalitionValueMap)
      ensures CacheKey(task.id, Ids(coalition)) !in old(coalitionValueMap) ==>
        && r == Perturbed(preValues[|coalition| - 1], urgent, congested, task.demand.timeWindow.hardLatestTime,
                          problem.maximumProblemCompletionTime,
                          TravelTimeTo(coalition[|coalition| - 1], location, problem.travel),
                          |coalition|, |problem.agents|, d)
        && coalitionValueMap == old(coalitionValueMap)[CacheKey(task.id, Ids(coalition)) := r]
      ensures old(Bounded()) && preValues[|coalition| - 1] >= 0.0 && InSupport(preValues[|coalition| - 1], d) ==> Bounded()
    {
      var key := CacheKey(task.id, Ids(coalition));
      if key in coalitionValueMap {
        return coalitionValueMap[key];
      }
      var f := preValues[|coalition| - 1];
      ghost var base := f;
      var horizon: nat := problem.maximumProblemCompletionTime;
      if urgent || congested {
        if urgent {
          var probability := Chance(task.demand.timeWindow.hardLatestTime as real / (horizon + 1) as real);
          if d.deadlineRoll <= probability {
            f := f - d.deadlineCut;
          }
          var travel := TravelTimeTo(coalition[|coalition| - 1], location, problem.travel);
          probability := Chance(travel as real / (horizon + 1) as real);
          if d.travelRoll <= probability {
            f := f - d.travelCut;
          }
        }
        if congested {
          var probability := Chance(|coalition| as real / (|problem.agents| + 1) as real);
          if d.congestionRoll <= probability {
            f := f - d.congestionCut;
          }
        }
      }
      PerturbedBounds(base, urgent, congested, task.demand.timeWindow.hardLatestTime, horizon,
                      TravelTimeTo(coalition[|coalition| - 1], location, problem.travel), |coalition|, |problem.agents|, d);
      coalitionValueMap := coalitionValueMap[key := f];
      return f;
    }
  }
}
