/**
 * The agent-based value function: each agent gets a performance at
 * construction, and a coalition is worth the sum of its members'
 * performances. Results are cached under a key made of the task id and the
 * coalition's agents in array order; the location is not part of the key.
 */
module AgentBased {
  import opened Locations
  import opened Tasks
  import opened Agents
  import opened ValueTables

  /** The performance map the constructor fills: a later agent with an id already seen overwrites it. */
  function Performance(agents: seq<Agent>, draws: seq<real>): (perf: map<int, real>)
    requires |draws| == |agents|
  {
    if |agents| == 0 then map[]
    else
      var n := |agents| - 1;
      Performance(agents[..n], draws[..n])[agents[n].id := RealAbs(draws[n])]
  }

  /** Every agent's id is a key and no other is; all performances are at least 0; distinct ids keep their own draw. */
  lemma PerformanceMeaning(agents: seq<Agent>, draws: seq<real>)
    requires |draws| == |agents|
    ensures Performance(agents, draws).Keys == IdSet(agents)
    ensures forall id :: id in Performance(agents, draws) ==> Performance(agents, draws)[id] >= 0.0
    ensures DistinctIds(agents) ==>
      forall k :: 0 <= k < |agents| ==> Performance(agents, draws)[agents[k].id] == RealAbs(draws[k])
  {
    PerformanceKeys(agents, draws);
    PerformanceNonNegative(agents, draws);
    if DistinctIds(agents) {
      PerformanceOwnDraw(agents, draws);
    }
  }

  lemma {:induction false} PerformanceKeys(agents: seq<Agent>, draws: seq<real>)
    requires |draws| == |agents|
    ensures Performance(agents, draws).Keys == IdSet(agents)
  {
    if |agents| > 0 {
      var n := |agents| - 1;
      PerformanceKeys(agents[..n], draws[..n]);
      assert IdSet(agents) == IdSet(agents[..n]) + {agents[n].id} by {
        forall x | x in IdSet(agents) ensures x in IdSet(agents[..n]) + {agents[n].id} {
          var k :| 0 <= k < |agents| && agents[k].id == x;
          if k < n {
            assert agents[..n][k].id == x;
          }
        }
      }
    }
  }

  lemma {:induction false} PerformanceNonNegative(agents: seq<Agent>, draws: seq<real>)
    requires |draws| == |agents|
    ensures forall id :: id in Performance(agents, draws) ==> Performance(agents, draws)[id] >= 0.0
  {
    if |agents| > 0 {
      var n := |agents| - 1;
      PerformanceNonNegative(agents[..n], draws[..n]);
    }
  }

  lemma {:induction false} PerformanceOwnDraw(agents: seq<Agent>, draws: seq<real>)
    requires |draws| == |agents| && DistinctIds(agents)
    ensures forall k :: 0 <= k < |agents| ==>
      agents[k].id in Performance(agents, draws) && Performance(agents, draws)[agents[k].id] == RealAbs(draws[k])
  {
    if |agents| > 0 {
      var n := |agents| - 1;
      assert DistinctIds(agents[..n]) by {
        forall i, j | 0 <= i < j < n ensures agents[..n][i].id != agents[..n][j].id {
          assert agents[..n][i] == agents[i] && agents[..n][j] == agents[j];
        }
      }
      PerformanceKeys(agents[..n], draws[..n]);
      PerformanceOwnDraw(agents[..n], draws[..n]);
      forall k | 0 <= k < n
        ensures agents[k].id in Performance(agents, draws) && Performance(agents, draws)[agents[k].id] == RealAbs(draws[k])
      {
        assert agents[..n][k] == agents[k] && draws[..n][k] == draws[k];
      }
    }
  }

  /** The constructor's loop over the agents with one draw each. */
  method DrawPerformance(agents: seq<Agent>, draws: seq<real>) returns (perf: map<int, real>)
    requires |draws| == |agents|
    ensures perf == Performance(agents, draws)
  {
    perf := map[];
    for k := 0 to |agents|
      invariant perf == Performance(agents[..k], draws[..k])
    {
      assert agents[..k + 1][..k] == agents[..k] && draws[..k + 1][..k] == draws[..k];
      perf := perf[agents[k].id := RealAbs(draws[k])];
    }
    assert agents[..|agents|] == agents && draws[..|draws|] == draws;
  }

  /** Every id of the list has a performance. */
  predicate Known(perf: map<int, real>, ids: seq<int>) {
    forall j :: 0 <= j < |ids| ==> ids[j] in perf
  }

  /** The sum of the performances of the listed agents, in list order. */
  function SumOf(perf: map<int, real>, ids: seq<int>): real
    requires Known(perf, ids)
  {
    if |ids| == 0 then 0.0 else SumOf(perf, ids[..|ids| - 1]) + perf[ids[|ids| - 1]]
  }

  /** With performances at least 0, so is every coalition's value, and adding a member never lowers it. */
  lemma {:induction false} SumMonotone(perf: map<int, real>, ids: seq<int>, m: nat)
    requires Known(perf, ids) && m <= |ids|
    requires forall id :: id in perf ==> perf[id] >= 0.0
    ensures 0.0 <= SumOf(perf, ids[..m]) <= SumOf(perf, ids)
    decreases |ids|
  {
    if |ids| > 0 {
      var n := |ids| - 1;
      if m <= n {
        assert ids[..n][..m] == ids[..m];
        SumMonotone(perf, ids[..n], m);
      } else {
        assert ids[..m] == ids;
        SumMonotone(perf, ids[..n], n);
        assert ids[..n][..n] == ids[..n];
      }
    }
  }

  class AgentBasedProblem {
    const agentPerformance: map<int, real>
    var coalitionValueMap: map<CacheKey, real>

    /** Every cached value is the sum of the performances its key lists. */
    ghost predicate Valid()
      reads this
    {
      forall k :: k in coalitionValueMap ==>
        Known(agentPerformance, k.coalition) && coalitionValueMap[k] == SumOf(agentPerformance, k.coalition)
    }

    /** The constructor: one draw per agent, in agent order, and an empty cache. */
    constructor (agents: seq<Agent>, draws: seq<real>)
      requires |draws| == |agents|
      ensures Valid() && agentPerformance == Performance(agents, draws) && coalitionValueMap == map[]
    {
      var perf := DrawPerformance(agents, draws);
      agentPerformance := perf;
      coalitionValueMap := map[];
    }

    /**
     * getValue: a cached value is returned as it is; otherwise the sum of
     * the members' performances is computed and cached. Either way the
     * result is that sum, so the cache never changes what a coalition is
     * worth, and neither the location nor (beyond its id) the task matters.
     */
    method GetValue(task: Task, location: Location, coalition: seq<Agent>) returns (r: real)
      requires Valid() && Known(agentPerformance, Ids(coalition))
      modifies this
      ensures Valid() && r == SumOf(agentPerformance, Ids(coalition))
      ensures CacheKey(task.id, Ids(coalition)) in old(coalitionValueMap) ==>
        r == old(coalitionValueMap)[CacheKey(task.id, Ids(coalition))] && coalitionValueMap == old(coalitionValueMap)
      ensures CacheKey(task.id, Ids(coalition)) !in old(coalitionValueMap) ==>
        coalitionValueMap == old(coalitionValueMap)[CacheKey(task.id, Ids(coalition)) := r]
    {
      var key := CacheKey(task.id, Ids(coalition));
      if key in coalitionValueMap {
        return coalitionValueMap[key];
      }
      ghost var ids := Ids(coalition);
      var f := 0.0;
      for k := 0 to |coalition|
        invariant f == SumOf(agentPerformance, ids[..k])
      {
        assert ids[..k + 1][..k] == ids[..k];
        f := f + agentPerformance[coalition[k].id];
      }
      assert ids[..|coalition|] == ids;
      coalitionValueMap := coalitionValueMap[key := f];
      return f;
    }
  }
}
