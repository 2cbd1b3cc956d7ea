/** A solution: the tasks it completes, the agents involved, its allocations and its score. */
module Solutions {
  import opened Tasks
  import opened Agents
  import opened Allocations
  import opened Scores

  /**
   * Tasks and agents are identified by id. `score` is the stored score, -1
   * until it is computed or given; `taskCompletionTime` maps a task id to its
   * completion time and is empty unless an engine fills it.
   */
  datatype Solution = Solution(
    tasks: set<int>,
    agents: set<int>,
    coalitionAllocations: seq<CoalitionAllocation>,
    score: real,
    taskCompletionTime: map<int, int>)

  const UNSET_SCORE: real := -1.0

  /** The ids of the agents of every coalition, added allocation by allocation. */
  function AgentsOf(cas: seq<CoalitionAllocation>): set<int>
    decreases |cas|
  {
    if |cas| == 0 then {} else AgentsOf(cas[..|cas| - 1]) + IdSet(cas[|cas| - 1].coalition)
  }

  /** `agents` is exactly the union of the coalitions. */
  lemma {:induction false} AgentsOfIsUnion(cas: seq<CoalitionAllocation>, x: int)
    ensures x in AgentsOf(cas) <==>
      exists k, j :: 0 <= k < |cas| && 0 <= j < |cas[k].coalition| && cas[k].coalition[j].id == x
    decreases |cas|
  {
    if |cas| > 0 {
      var init := cas[..|cas| - 1];
      AgentsOfIsUnion(init, x);
      if x in AgentsOf(cas) {
        if x in AgentsOf(init) {
          var k, j :| 0 <= k < |init| && 0 <= j < |init[k].coalition| && init[k].coalition[j].id == x;
          assert cas[k] == init[k];
        }
      }
      if exists k, j :: 0 <= k < |cas| && 0 <= j < |cas[k].coalition| && cas[k].coalition[j].id == x {
        var k, j :| 0 <= k < |cas| && 0 <= j < |cas[k].coalition| && cas[k].coalition[j].id == x;
        if k < |init| {
          assert init[k] == cas[k];
        }
      }
    }
  }

  /** The solution the two-argument constructor builds. */
  function Build(tasks: set<int>, cas: seq<CoalitionAllocation>): (s: Solution)
    ensures s.tasks == tasks && s.coalitionAllocations == cas && s.agents == AgentsOf(cas)
    ensures s.score == UNSET_SCORE && s.taskCompletionTime == map[]
  {
    Solution(tasks, AgentsOf(cas), cas, UNSET_SCORE, map[])
  }

  /** The two-argument constructor: collects the agents coalition by coalition. */
  method New(tasks: set<int>, cas: seq<CoalitionAllocation>) returns (s: Solution)
    ensures s == Build(tasks, cas)
  {
    var agents: set<int> := {};
    var k := 0;
    while k < |cas|
      invariant 0 <= k <= |cas|
      invariant agents == AgentsOf(cas[..k])
    {
      var coalition := cas[k].coalition;
      var j := 0;
      while j < |coalition|
        invariant 0 <= j <= |coalition|
        invariant agents == AgentsOf(cas[..k]) + IdSet(coalition[..j])
      {
        agents := agents + {coalition[j].id};
        j := j + 1;
      }
      assert coalition[..j] == coalition;
      assert cas[..k + 1][..k] == cas[..k];
      k := k + 1;
    }
    assert cas[..k] == cas;
    s := Solution(tasks, agents, cas, UNSET_SCORE, map[]);
  }

  /** The three-argument constructor: as the two-argument one, with the given stored score. */
  method NewWithScore(tasks: set<int>, cas: seq<CoalitionAllocation>, score: real) returns (s: Solution)
    ensures s == Build(tasks, cas).(score := score)
  {
    s := New(tasks, cas);
    s := s.(score := score);
  }

  /**
   * The end time of the last allocation in the array; when the allocations
   * are in order of end time, it is the latest end time of them all.
   */
  function LastWorkingTime(s: Solution): (r: int)
    requires |s.coalitionAllocations| > 0
    ensures r == s.coalitionAllocations[|s.coalitionAllocations| - 1].endTime
    ensures (forall i, j :: 0 <= i < j < |s.coalitionAllocations| ==>
               s.coalitionAllocations[i].endTime <= s.coalitionAllocations[j].endTime) ==>
            forall k :: 0 <= k < |s.coalitionAllocations| ==> s.coalitionAllocations[k].endTime <= r
  {
    s.coalitionAllocations[|s.coalitionAllocations| - 1].endTime
  }

  /** Same tasks completed. */
  predicate ShallowEquals(s: Solution, other: Solution) {
    s.tasks == other.tasks
  }

  /** Same tasks and the same allocations in the same order. */
  predicate Equals(s: Solution, other: Solution) {
    ShallowEquals(s, other) && s.coalitionAllocations == other.coalitionAllocations
  }

  /** Equal solutions complete the same tasks, but not conversely; both are equivalences. */
  lemma EqualsRefinesShallowEquals(s: Solution, other: Solution, cas: seq<CoalitionAllocation>)
    ensures Equals(s, other) ==> ShallowEquals(s, other)
    ensures ShallowEquals(s, s.(coalitionAllocations := cas))
    ensures Equals(s, s.(coalitionAllocations := cas)) <==> cas == s.coalitionAllocations
    ensures Equals(s, other) <==> Equals(other, s)
  {
  }

  /* ---------- score ---------- */

  /** Every allocation can be scored without dividing by zero. */
  predicate AllScorable(cas: seq<CoalitionAllocation>) {
    forall k :: 0 <= k < |cas| ==> AllocationScorable(cas[k])
  }

  /** An allocation can be scored: it is empty, or the decay is defined where it is evaluated. */
  predicate AllocationScorable(ca: CoalitionAllocation) {
    ca.endTime < ca.startTime || Scorable(ca.task.demand.timeWindow, ca.endTime)
  }

  function AllocationScore(ca: CoalitionAllocation): real
    requires AllocationScorable(ca)
  {
    IntervalScore(ca.task.demand.timeWindow, ca.task.demand.profit, ca.startTime, ca.endTime)
  }

  /** The score `getScore(true)` computes: every unit of every allocation, in order. */
  function ScoreOf(cas: seq<CoalitionAllocation>): real
    requires AllScorable(cas)
    decreases |cas|
  {
    if |cas| == 0 then 0.0 else ScoreOf(cas[..|cas| - 1]) + AllocationScore(cas[|cas| - 1])
  }

  /** The score of a concatenation is the sum of the scores. */
  lemma {:induction false} ScoreOfAppend(a: seq<CoalitionAllocation>, b: seq<CoalitionAllocation>)
    requires AllScorable(a) && AllScorable(b)
    ensures AllScorable(a + b)
    ensures ScoreOf(a + b) == ScoreOf(a) + ScoreOf(b)
    decreases |b|
  {
    assert AllScorable(a + b) by {
      forall k | 0 <= k < |a + b|
        ensures AllocationScorable((a + b)[k])
      {
        if k < |a| { assert (a + b)[k] == a[k]; } else { assert (a + b)[k] == b[k - |a|]; }
      }
    }
    if |b| == 0 {
      assert a + b == a;
    } else {
      var b' := b[..|b| - 1];
      assert AllScorable(b');
      ScoreOfAppend(a, b');
      assert (a + b)[..|a + b| - 1] == a + b';
      assert (a + b)[|a + b| - 1] == b[|b| - 1];
    }
  }

  /** The work of an allocation that ends by its hard deadline, priced at full profit. */
  function FullProfit(ca: CoalitionAllocation): real {
    (if ca.endTime < ca.startTime then 0 else Interval(ca)) as real * ca.task.demand.profit
  }

  function SumFullProfit(cas: seq<CoalitionAllocation>): real
    decreases |cas|
  {
    if |cas| == 0 then 0.0 else SumFullProfit(cas[..|cas| - 1]) + FullProfit(cas[|cas| - 1])
  }

  /**
   * When every allocation ends by its hard deadline, the score is the full
   * profit of every unit worked: the decay never takes anything away.
   */
  lemma {:induction false} ScoreWithinDeadlines(cas: seq<CoalitionAllocation>)
    requires forall k :: 0 <= k < |cas| ==> cas[k].endTime <= cas[k].task.demand.timeWindow.hardLatestTime
    ensures AllScorable(cas)
    ensures ScoreOf(cas) == SumFullProfit(cas)
    decreases |cas|
  {
    forall k | 0 <= k < |cas|
      ensures AllocationScorable(cas[k])
    {
      UnitFullProfitUntilHard(cas[k].task.demand.timeWindow, cas[k].task.demand.profit, cas[k].endTime);
    }
    if |cas| > 0 {
      var last := cas[|cas| - 1];
      ScoreWithinDeadlines(cas[..|cas| - 1]);
      IntervalFullProfitUntilHard(last.task.demand.timeWindow, last.task.demand.profit, last.startTime, last.endTime);
    }
  }

  /** `getScore(true)`: the double loop over allocations and their time units. */
  method ComputeScore(cas: seq<CoalitionAllocation>) returns (score: real)
    requires AllScorable(cas)
    ensures score == ScoreOf(cas)
  {
    score := 0.0;
    var k := 0;
    while k < |cas|
      invariant 0 <= k <= |cas|
      invariant AllScorable(cas[..k])
      invariant score == ScoreOf(cas[..k])
    {
      var ca := cas[k];
      var base := score;
      score := AccumulateInterval(ca.task.demand.timeWindow, ca.task.demand.profit, ca.startTime, ca.endTime, score);
      assert score == base + AllocationScore(ca);
      assert cas[..k + 1][..k] == cas[..k];
      k := k + 1;
    }
    assert cas[..k] == cas;
  }

  /** `getScore(compute)`: recomputes and stores the score, or returns the stored one. */
  method GetScore(s: Solution, compute: bool) returns (score: real, after: Solution)
    requires compute ==> AllScorable(s.coalitionAllocations)
    ensures compute ==> score == ScoreOf(s.coalitionAllocations) && after == s.(score := score)
    ensures !compute ==> score == s.score && after == s
  {
    if compute {
      score := ComputeScore(s.coalitionAllocations);
      after := s.(score := score);
    } else {
      score := s.score;
      after := s;
    }
  }

  /* ---------- sort ---------- */

  /** Start time first; on equal starts, end time; on equal both, the left one first (never 0). */
  function CompareByStartTime(a: CoalitionAllocation, b: CoalitionAllocation): (r: int)
    ensures r != 0
    ensures r < 0 <==> StartsNoLater(a, b)
  {
    if a.startTime == b.startTime then
      if a.endTime == b.endTime then -1 else a.endTime - b.endTime
    else a.startTime - b.startTime
  }

  predicate StartsNoLater(a: CoalitionAllocation, b: CoalitionAllocation) {
    a.startTime < b.startTime || (a.startTime == b.startTime && a.endTime <= b.endTime)
  }

  /** Start times non-decreasing and, among equal starts, end times non-decreasing. */
  predicate SortedByStartTime(s: seq<CoalitionAllocation>) {
    forall i, j :: 0 <= i < j < |s| ==> StartsNoLater(s[i], s[j])
  }

  /**
   * `Arrays.sort` with the comparator above: reorders the array in place.
   * This is a stable insertion sort. The source's comparator answers −1 in
   * both directions on a tie of start and end, so the library sort may place
   * tied allocations in another order; the contract does not fix the order
   * of ties, so it holds of either.
   */
  method SortAllocations(a: array<CoalitionAllocation>)
    modifies a
    ensures SortedByStartTime(a[..])
    ensures multiset(a[..]) == multiset(old(a[..]))
  {
    if a.Length == 0 {
      return;
    }
    var i := 1;
    while i < a.Length
      invariant 1 <= i <= a.Length
      invariant SortedByStartTime(a[..i])
      invariant multiset(a[..]) == multiset(old(a[..]))
    {
      InsertDown(a, i);
      i := i + 1;
    }
    assert a[..a.Length] == a[..];
  }

  /** Moves a[i] down past every later-starting allocation of the sorted prefix a[..i]. */
  method InsertDown(a: array<CoalitionAllocation>, i: nat)
    requires i < a.Length && SortedByStartTime(a[..i])
    modifies a
    ensures SortedByStartTime(a[..i + 1])
    ensures multiset(a[..]) == multiset(old(a[..]))
  {
    var j := i;
    while j > 0 && CompareByStartTime(a[j - 1], a[j]) > 0
      invariant 0 <= j <= i
      invariant forall p, q :: 0 <= p < q <= i && q != j && p != j ==> StartsNoLater(a[p], a[q])
      invariant forall p, q :: 0 <= p < j < q <= i ==> StartsNoLater(a[p], a[q])
      invariant forall q :: j < q <= i ==> StartsNoLater(a[j], a[q])
      invariant multiset(a[..]) == multiset(old(a[..]))
    {
      SwapDown(a, j);
      j := j - 1;
    }
  }

  /** Exchanges a[j - 1] and a[j]. */
  method SwapDown(a: array<CoalitionAllocation>, j: nat)
    requires 0 < j < a.Length
    modifies a
    ensures a[..] == old(a[..])[j - 1 := old(a[j])][j := old(a[j - 1])]
    ensures multiset(a[..]) == multiset(old(a[..]))
  {
    a[j - 1], a[j] := a[j], a[j - 1];
  }

  /** `sort()`: the same solution with its allocations sorted by start time. */
  method Sort(s: Solution) returns (r: Solution)
    ensures r == s.(coalitionAllocations := r.coalitionAllocations)
    ensures SortedByStartTime(r.coalitionAllocations)
    ensures multiset(r.coalitionAllocations) == multiset(s.coalitionAllocations)
  {
    var cas := s.coalitionAllocations;
    var a := new CoalitionAllocation[|cas|](k requires 0 <= k < |cas| => cas[k]);
    assert a[..] == cas;
    SortAllocations(a);
    r := s.(coalitionAllocations := a[..]);
  }
}
