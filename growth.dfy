/**
 * Growing a coalition until a task's workload is done, the routine behind
 * both `getSingletonSolution(task, location, agents)` overloads. Agents join
 * in arrival order: step i has arrival time `arrivals[i]` and sub-coalition
 * `subs[i]`. The sub-coalition works from `arrivals[i]` until the next
 * arrival, or until the hard deadline at the last step. The first step whose
 * cumulative work reaches the workload ends the search. It either produces
 * a one-task solution, or nothing when its end time is past the hard
 * deadline. BNT starts each allocation at the arrival time and CTS one unit
 * later (`offset` 0 and 1).
 */
module Growth {
  import opened Wrappers
  import opened Locations
  import opened TimeWindows
  import opened Tasks
  import opened Agents
  import opened Allocations
  import opened Scores
  import opened Solutions
  import opened Marsc
  import SolverCore

  /** `Math.ceil` on reals: the least integer at or above x. */
  function Ceil(x: real): (c: int)
    ensures (c - 1) as real < x <= c as real
  {
    -((-x).Floor)
  }

  /** The steps of one growth: task, location, arrival times and sub-coalitions, start offset. */
  datatype Steps = Steps(task: Task, location: Location, arrivals: seq<int>, subs: seq<seq<Agent>>, offset: int)

  /**
   * What the routine needs: one sub-coalition per arrival, a positive value
   * for each (it divides by it) and a decay that can be evaluated.
   */
  predicate WellFormed(st: Steps, value: ValueFunction) {
    && |st.arrivals| == |st.subs|
    && (forall k :: 0 <= k < |st.subs| ==> value(st.task, st.location, st.subs[k]) > 0.0)
    && DecayDefined(st.task.demand.timeWindow)
  }

  function Value(st: Steps, value: ValueFunction, i: nat): real
    requires WellFormed(st, value) && i < |st.arrivals|
  {
    value(st.task, st.location, st.subs[i])
  }

  /** Work the sub-coalition of step i does before the next arrival (or the hard deadline). */
  function Contribution(st: Steps, value: ValueFunction, i: nat): real
    requires WellFormed(st, value) && i < |st.arrivals|
  {
    var until := if i + 1 < |st.arrivals| then st.arrivals[i + 1] else st.task.demand.timeWindow.hardLatestTime;
    (until - st.arrivals[i]) as real * Value(st, value, i)
  }

  /** Cumulative work of the steps before step i. */
  function WorkBefore(st: Steps, value: ValueFunction, i: nat): real
    requires WellFormed(st, value) && i <= |st.arrivals|
  {
    if i == 0 then 0.0 else WorkBefore(st, value, i - 1) + Contribution(st, value, i - 1)
  }

  /** The last time unit the sub-coalition of step i needs to finish what `done` leaves. */
  function EndFrom(st: Steps, value: ValueFunction, i: nat, done: real): int
    requires WellFormed(st, value) && i < |st.arrivals|
  {
    Ceil(st.arrivals[i] as real + (st.task.demand.workload - done) / Value(st, value, i)) - 1
  }

  /** The start of step i's allocation: the arrival plus the offset, but not before the earliest time. */
  function StartAt(st: Steps, i: nat): int
    requires i < |st.arrivals|
  {
    var s := st.arrivals[i] + st.offset;
    if s < st.task.demand.timeWindow.earliestTime then st.task.demand.timeWindow.earliestTime else s
  }

  /** The end of the completing allocation is never before its start. */
  function ClampedEnd(st: Steps, value: ValueFunction, i: nat, done: real): int
    requires WellFormed(st, value) && i < |st.arrivals|
  {
    var e := EndFrom(st, value, i, done);
    if e < StartAt(st, i) then StartAt(st, i) else e
  }

  /** The crossing end time of step i when it is reached by the loop. */
  function CrossingEnd(st: Steps, value: ValueFunction, i: nat): int
    requires WellFormed(st, value) && i < |st.arrivals|
  {
    EndFrom(st, value, i, WorkBefore(st, value, i))
  }

  function EndAt(st: Steps, value: ValueFunction, i: nat): int
    requires WellFormed(st, value) && i < |st.arrivals|
  {
    ClampedEnd(st, value, i, WorkBefore(st, value, i))
  }

  /** The allocation of a step that does not complete the work: it runs until the next arrival. */
  function StepAllocation(st: Steps, value: ValueFunction, i: nat): CoalitionAllocation
    requires WellFormed(st, value) && i + 1 < |st.arrivals|
  {
    CoalitionAllocation(st.task, st.location, st.subs[i], Value(st, value, i), StartAt(st, i), st.arrivals[i + 1])
  }

  /** The allocation of the step that completes the work, given the work done before it. */
  function FinalFrom(st: Steps, value: ValueFunction, i: nat, done: real): CoalitionAllocation
    requires WellFormed(st, value) && i < |st.arrivals|
  {
    CoalitionAllocation(st.task, st.location, st.subs[i], Value(st, value, i), StartAt(st, i), ClampedEnd(st, value, i, done))
  }

  function FinalAllocation(st: Steps, value: ValueFunction, i: nat): CoalitionAllocation
    requires WellFormed(st, value) && i < |st.arrivals|
  {
    FinalFrom(st, value, i, WorkBefore(st, value, i))
  }

  /** Allocations of the task can always be scored. */
  lemma AllocationsScorable(st: Steps, value: ValueFunction, cas: seq<CoalitionAllocation>)
    requires WellFormed(st, value)
    requires forall k :: 0 <= k < |cas| ==> cas[k].task == st.task
    ensures AllScorable(cas)
  {
  }

  /**
   * The loop of the source, step by step, carrying the work done, the score
   * and the allocations so far. A step that does not reach the workload adds
   * its allocation unless it is the last; the step that reaches it adds the
   * completing allocation and ends the loop.
   */
  function Grow(st: Steps, value: ValueFunction, i: nat, done: real, score: real, l: seq<CoalitionAllocation>)
    : Option<Solution>
    requires WellFormed(st, value) && i <= |st.arrivals|
    requires forall k :: 0 <= k < |l| ==> l[k].task == st.task
    decreases |st.arrivals| - i
  {
    if i == |st.arrivals| then None
    else
      var done' := done + Contribution(st, value, i);
      if done' < st.task.demand.workload then
        if i + 1 < |st.arrivals| then
          var ca := StepAllocation(st, value, i);
          Grow(st, value, i + 1, done', score + AllocationScore(ca), l + [ca])
        else
          Grow(st, value, i + 1, done', score, l)
      else
        var ca := FinalFrom(st, value, i, done);
        var l' := l + [ca];
        if ca.endTime <= st.task.demand.timeWindow.hardLatestTime then
          Some(Solution({st.task.id}, AgentsOf(l'), l', score + AllocationScore(ca), map[st.task.id := ca.endTime]))
        else None
  }

  /** What a run of the routine returns. */
  function GrowAll(st: Steps, value: ValueFunction): Option<Solution>
    requires WellFormed(st, value)
  {
    Grow(st, value, 0, 0.0, 0.0, [])
  }

  /* ---------- characterisation ---------- */

  /** The cumulative work after step i reaches the workload. */
  predicate Crosses(st: Steps, value: ValueFunction, i: nat)
    requires WellFormed(st, value) && i < |st.arrivals|
  {
    WorkBefore(st, value, i + 1) >= st.task.demand.workload
  }

  /** Step i is the first whose cumulative work reaches the workload. */
  predicate FirstCrossing(st: Steps, value: ValueFunction, i: nat)
    requires WellFormed(st, value)
  {
    i < |st.arrivals| && Crosses(st, value, i) && forall k :: 0 <= k < i ==> !Crosses(st, value, k)
  }

  function Prefix(st: Steps, value: ValueFunction, i: nat): (r: seq<CoalitionAllocation>)
    requires WellFormed(st, value) && i < |st.arrivals|
    ensures |r| == i
  {
    seq(i, k requires 0 <= k < i => StepAllocation(st, value, k))
  }

  /** The allocations when step i is the first crossing: the steps before it, then the final one. */
  function OutcomeAllocations(st: Steps, value: ValueFunction, i: nat): (r: seq<CoalitionAllocation>)
    requires WellFormed(st, value) && i < |st.arrivals|
    ensures |r| == i + 1
  {
    Prefix(st, value, i) + [FinalAllocation(st, value, i)]
  }

  /** The one-task solution when step i is the first crossing, scored by the recomputation. */
  function Outcome(st: Steps, value: ValueFunction, i: nat): Solution
    requires WellFormed(st, value) && i < |st.arrivals|
  {
    var cas := OutcomeAllocations(st, value, i);
    AllocationsScorable(st, value, cas);
    Solution({st.task.id}, AgentsOf(cas), cas, ScoreOf(cas), map[st.task.id := EndAt(st, value, i)])
  }

  /** From a step j at or before the first crossing i, with the loop state as expected, the loop returns the outcome of i. */
  lemma {:induction false} GrowReachesCrossing(st: Steps, value: ValueFunction, i: nat, j: nat, score: real, l: seq<CoalitionAllocation>)
    requires WellFormed(st, value) && FirstCrossing(st, value, i) && j <= i
    requires l == Prefix(st, value, j) && AllScorable(l) && score == ScoreOf(l)
    ensures Grow(st, value, j, WorkBefore(st, value, j), score, l) ==
      if EndAt(st, value, i) <= st.task.demand.timeWindow.hardLatestTime then Some(Outcome(st, value, i)) else None
    decreases i - j
  {
    if j < i {
      var ca := StepAllocation(st, value, j);
      GrowStepsOn(st, value, i, j, score, l);
      GrowReachesCrossing(st, value, i, j + 1, score + AllocationScore(ca), l + [ca]);
    } else {
      GrowAtCrossing(st, value, i, score, l);
    }
  }

  /** Before the first crossing the loop records step j's allocation and moves on. */
  lemma GrowStepsOn(st: Steps, value: ValueFunction, i: nat, j: nat, score: real, l: seq<CoalitionAllocation>)
    requires WellFormed(st, value) && FirstCrossing(st, value, i) && j < i
    requires l == Prefix(st, value, j) && AllScorable(l) && score == ScoreOf(l)
    ensures var ca := StepAllocation(st, value, j);
      && l + [ca] == Prefix(st, value, j + 1) && AllScorable(l + [ca]) && score + AllocationScore(ca) == ScoreOf(l + [ca])
      && Grow(st, value, j, WorkBefore(st, value, j), score, l)
         == Grow(st, value, j + 1, WorkBefore(st, value, j + 1), score + AllocationScore(ca), l + [ca])
  {
    assert !Crosses(st, value, j);
    var ca := StepAllocation(st, value, j);
    var l' := l + [ca];
    assert l' == Prefix(st, value, j + 1);
    AllocationsScorable(st, value, l');
    assert l'[..|l'| - 1] == l;
  }

  /** At the first crossing the loop ends with the final allocation, kept only within the hard deadline. */
  lemma GrowAtCrossing(st: Steps, value: ValueFunction, i: nat, score: real, l: seq<CoalitionAllocation>)
    requires WellFormed(st, value) && FirstCrossing(st, value, i)
    requires l == Prefix(st, value, i) && AllScorable(l) && score == ScoreOf(l)
    ensures Grow(st, value, i, WorkBefore(st, value, i), score, l) ==
      if EndAt(st, value, i) <= st.task.demand.timeWindow.hardLatestTime then Some(Outcome(st, value, i)) else None
  {
    var cas := OutcomeAllocations(st, value, i);
    AllocationsScorable(st, value, cas);
    assert cas[..|cas| - 1] == l;
    assert cas == l + [FinalFrom(st, value, i, WorkBefore(st, value, i))];
  }

  /** When no step reaches the workload, the loop from any step returns nothing. */
  lemma {:induction false} GrowNeverCrosses(st: Steps, value: ValueFunction, j: nat, score: real, l: seq<CoalitionAllocation>)
    requires WellFormed(st, value) && j <= |st.arrivals|
    requires forall k :: 0 <= k < |st.arrivals| ==> !Crosses(st, value, k)
    requires forall k :: 0 <= k < |l| ==> l[k].task == st.task
    ensures Grow(st, value, j, WorkBefore(st, value, j), score, l) == None
    decreases |st.arrivals| - j
  {
    if j < |st.arrivals| {
      assert !Crosses(st, value, j);
      if j + 1 < |st.arrivals| {
        var ca := StepAllocation(st, value, j);
        GrowNeverCrosses(st, value, j + 1, score + AllocationScore(ca), l + [ca]);
      } else {
        GrowNeverCrosses(st, value, j + 1, score, l);
      }
    }
  }

  /** Some step crosses, so a first one exists. */
  lemma {:induction false} FirstCrossingExists(st: Steps, value: ValueFunction, k: nat)
    requires WellFormed(st, value) && k < |st.arrivals| && Crosses(st, value, k)
    ensures exists i: nat :: i <= k && FirstCrossing(st, value, i)
    decreases k
  {
    if forall m :: 0 <= m < k ==> !Crosses(st, value, m) {
      assert FirstCrossing(st, value, k);
    } else {
      var m :| 0 <= m < k && Crosses(st, value, m);
      FirstCrossingExists(st, value, m);
    }
  }

  /**
   * The routine returns a solution exactly when some step is the first to
   * reach the workload and its end time is within the hard deadline; that
   * solution is the closed-form outcome of that step.
   */
  lemma GrowCharacterisation(st: Steps, value: ValueFunction)
    requires WellFormed(st, value)
    ensures GrowAll(st, value).Some? <==>
      exists i: nat :: FirstCrossing(st, value, i) && EndAt(st, value, i) <= st.task.demand.timeWindow.hardLatestTime
    ensures forall i: nat :: FirstCrossing(st, value, i) && EndAt(st, value, i) <= st.task.demand.timeWindow.hardLatestTime ==>
      GrowAll(st, value) == Some(Outcome(st, value, i))
  {
    if exists k :: 0 <= k < |st.arrivals| && Crosses(st, value, k) {
      var k :| 0 <= k < |st.arrivals| && Crosses(st, value, k);
      FirstCrossingExists(st, value, k);
      var i: nat :| i <= k && FirstCrossing(st, value, i);
      GrowReachesCrossing(st, value, i, 0, 0.0, []);
      UniqueFirstCrossing(st, value, i);
    } else {
      GrowNeverCrosses(st, value, 0, 0.0, []);
    }
  }

  lemma UniqueFirstCrossing(st: Steps, value: ValueFunction, i: nat)
    requires WellFormed(st, value) && FirstCrossing(st, value, i)
    ensures forall i': nat :: FirstCrossing(st, value, i') ==> i' == i
  {
  }

  /* ---------- properties of the outcome ---------- */

  /**
   * The outcome covers exactly the task; every allocation is for the task at
   * the location with the step's sub-coalition and starts at
   * max(arrival + offset, earliest); the steps before the crossing end at
   * the next arrival and the last one ends at or after its start; the
   * completion time is the last end time; the stored score is the
   * recomputed one.
   */
  lemma OutcomeShape(st: Steps, value: ValueFunction, i: nat)
    requires WellFormed(st, value) && i < |st.arrivals|
    ensures var s := Outcome(st, value, i);
      && s.tasks == {st.task.id}
      && |s.coalitionAllocations| == i + 1
      && (forall k :: 0 <= k <= i ==>
            var ca := s.coalitionAllocations[k];
            ca.task == st.task && ca.location == st.location && ca.coalition == st.subs[k]
            && ca.value == value(st.task, st.location, st.subs[k]) && ca.startTime == StartAt(st, k))
      && (forall k :: 0 <= k < i ==> s.coalitionAllocations[k].endTime == st.arrivals[k + 1])
      && s.coalitionAllocations[i].endTime >= s.coalitionAllocations[i].startTime
      && s.taskCompletionTime == map[st.task.id := LastWorkingTime(s)]
      && AllScorable(s.coalitionAllocations) && s.score == ScoreOf(s.coalitionAllocations)
  {
  }

  /**
   * When arrivals are at or after the earliest time and non-negative, each
   * next arrival is at least offset later, and the location is one of the
   * task's, every allocation of the outcome passes the allocation
   * constructor's checks.
   */
  lemma OutcomeAllocationsValid(st: Steps, value: ValueFunction, i: nat)
    requires WellFormed(st, value) && i < |st.arrivals|
    requires st.location in st.task.demand.possibleLocations
    requires forall k :: 0 <= k < |st.subs| ==> |st.subs[k]| > 0
    requires forall k :: 0 <= k < |st.arrivals| ==> 0 <= st.arrivals[k] && st.task.demand.timeWindow.earliestTime <= st.arrivals[k]
    requires forall k :: 0 <= k < |st.arrivals| - 1 ==> st.arrivals[k] + st.offset <= st.arrivals[k + 1]
    requires st.offset >= 0
    ensures forall k :: 0 <= k <= i ==> Allocations.Valid(Outcome(st, value, i).coalitionAllocations[k])
  {
  }

  /**
   * The crossing end time is minimal: the sub-coalition of the crossing step,
   * working from its arrival through that unit, does the remaining work, and
   * one unit fewer would not.
   */
  lemma CrossingEndIsFirstSufficientUnit(st: Steps, value: ValueFunction, i: nat)
    requires WellFormed(st, value) && i < |st.arrivals|
    ensures var remaining := st.task.demand.workload - WorkBefore(st, value, i);
      var v := Value(st, value, i);
      && (CrossingEnd(st, value, i) + 1 - st.arrivals[i]) as real * v >= remaining
      && (CrossingEnd(st, value, i) - st.arrivals[i]) as real * v < remaining
  {
    var a := st.arrivals[i];
    var r := st.task.demand.workload - WorkBefore(st, value, i);
    var v := Value(st, value, i);
    CeilingUnits(a, r, v);
    assert CrossingEnd(st, value, i) == Ceil(a as real + r / v) - 1;
  }

  /** With c = ceil(a + r / v) and v > 0, c - a units of v cover r and c - a - 1 units do not. */
  lemma CeilingUnits(a: int, r: real, v: real)
    requires v > 0.0
    ensures (Ceil(a as real + r / v) - a) as real * v >= r
    ensures (Ceil(a as real + r / v) - 1 - a) as real * v < r
  {
    var q := r / v;
    var c := Ceil(a as real + q);
    assert q * v == r;
    var n := (c - a) as real;
    assert n >= q;
    assert n - 1.0 < q;
    MultiplyMonotone(n, q, v);
    MultiplyStrict(n - 1.0, q, v);
    assert (c - 1 - a) as real == n - 1.0;
    assert (c - 1 - a) as real * v == (n - 1.0) * v;
    assert (n - 1.0) * v < r;
  }

  lemma MultiplyMonotone(a: real, b: real, v: real)
    requires a >= b && v > 0.0
    ensures a * v >= b * v
  {
    assert a * v - b * v == (a - b) * v;
  }

  lemma MultiplyStrict(a: real, b: real, v: real)
    requires a < b && v > 0.0
    ensures a * v < b * v
  {
    assert b * v - a * v == (b - a) * v;
  }

  /* ---------- the loop ---------- */

  lemma ContributionUnfolds(st: Steps, value: ValueFunction, i: nat)
    requires WellFormed(st, value) && i < |st.arrivals|
    ensures Contribution(st, value, i) ==
      if i + 1 < |st.arrivals| then (st.arrivals[i + 1] - st.arrivals[i]) as real * value(st.task, st.location, st.subs[i])
      else (st.task.demand.timeWindow.hardLatestTime - st.arrivals[i]) as real * value(st.task, st.location, st.subs[i])
  {
  }

  lemma EndFromUnfolds(st: Steps, value: ValueFunction, i: nat, done: real)
    requires WellFormed(st, value) && i < |st.arrivals|
    ensures EndFrom(st, value, i, done) ==
      Ceil(st.arrivals[i] as real + (st.task.demand.workload - done) / value(st.task, st.location, st.subs[i])) - 1
  {
  }

  /** One unfolding of the loop at a step that does not reach the workload and is not the last. */
  lemma GrowContinues(st: Steps, value: ValueFunction, i: nat, done: real, score: real, l: seq<CoalitionAllocation>)
    requires WellFormed(st, value) && i + 1 < |st.arrivals|
    requires forall k :: 0 <= k < |l| ==> l[k].task == st.task
    requires done + Contribution(st, value, i) < st.task.demand.workload
    ensures Grow(st, value, i, done, score, l) ==
      Grow(st, value, i + 1, done + Contribution(st, value, i),
           score + AllocationScore(StepAllocation(st, value, i)), l + [StepAllocation(st, value, i)])
  {
  }

  /** One unfolding of the loop at the last step when it does not reach the workload. */
  lemma GrowRunsOut(st: Steps, value: ValueFunction, i: nat, done: real, score: real, l: seq<CoalitionAllocation>)
    requires WellFormed(st, value) && i + 1 == |st.arrivals|
    requires forall k :: 0 <= k < |l| ==> l[k].task == st.task
    requires done + Contribution(st, value, i) < st.task.demand.workload
    ensures Grow(st, value, i, done, score, l) == None
  {
  }

  /** One unfolding of the loop at the step that reaches the workload. */
  lemma GrowFinishes(st: Steps, value: ValueFunction, i: nat, done: real, score: real, l: seq<CoalitionAllocation>)
    requires WellFormed(st, value) && i < |st.arrivals|
    requires forall k :: 0 <= k < |l| ==> l[k].task == st.task
    requires done + Contribution(st, value, i) >= st.task.demand.workload
    ensures var ca := FinalFrom(st, value, i, done);
      Grow(st, value, i, done, score, l) ==
        if ca.endTime <= st.task.demand.timeWindow.hardLatestTime then
          Some(Solution({st.task.id}, AgentsOf(l + [ca]), l + [ca], score + AllocationScore(ca), map[st.task.id := ca.endTime]))
        else None
  {
  }

  /**
   * The arithmetic of one step: the sub-coalition's value, its contribution,
   * and the clamped start and end times of its allocation.
   */
  method StepTimes(st: Steps, value: ValueFunction, i: nat, done: real)
    returns (v: real, contribution: real, startTime: int, endTime: int)
    requires WellFormed(st, value) && i < |st.arrivals|
    ensures v == Value(st, value, i) && contribution == Contribution(st, value, i)
    ensures startTime == StartAt(st, i) && endTime == ClampedEnd(st, value, i, done)
  {
    var tw := st.task.demand.timeWindow;
    v := value(st.task, st.location, st.subs[i]);
    if i + 1 < |st.arrivals| {
      contribution := (st.arrivals[i + 1] - st.arrivals[i]) as real * v;
    } else {
      contribution := (tw.hardLatestTime - st.arrivals[i]) as real * v;
    }
    ContributionUnfolds(st, value, i);
    var workloadDone := done + contribution;
    // in exact arithmetic `workloadDone - contribution` is the work done before this step
    endTime := Ceil(st.arrivals[i] as real + (st.task.demand.workload - (workloadDone - contribution)) / v) - 1;
    EndFromUnfolds(st, value, i, done);
    assert workloadDone - contribution == done;
    startTime := st.arrivals[i] + st.offset;
    if startTime < tw.earliestTime {
      startTime := tw.earliestTime;
    }
    if endTime < startTime {
      endTime := startTime;
    }
  }

  /** The source's loop: one step per arrival, returning as soon as the work is done. */
  method GrowCoalition(st: Steps, value: ValueFunction) returns (r: Option<Solution>)
    requires WellFormed(st, value)
    ensures r == GrowAll(st, value)
  {
    var tw := st.task.demand.timeWindow;
    var workload := st.task.demand.workload;
    var l: seq<CoalitionAllocation> := [];
    var workloadDone := 0.0;
    var score := 0.0;
    var i := 0;
    while i < |st.arrivals|
      invariant 0 <= i <= |st.arrivals|
      invariant forall k :: 0 <= k < |l| ==> l[k].task == st.task
      invariant Grow(st, value, i, workloadDone, score, l) == GrowAll(st, value)
    {
      var before, scoreBefore, lBefore := workloadDone, score, l;
      var v, contribution, startTime, endTime := StepTimes(st, value, i, workloadDone);
      workloadDone := workloadDone + contribution;
      if workloadDone < workload {
        if i + 1 < |st.arrivals| {
          var ca := CoalitionAllocation(st.task, st.location, st.subs[i], v, startTime, st.arrivals[i + 1]);
          assert ca == StepAllocation(st, value, i);
          l := l + [ca];
          var marginal := SolverCore.MarginalScore(st.task, startTime, st.arrivals[i + 1]);
          score := score + marginal;
          GrowContinues(st, value, i, before, scoreBefore, lBefore);
        } else {
          GrowRunsOut(st, value, i, before, scoreBefore, lBefore);
        }
      } else {
        var ca := CoalitionAllocation(st.task, st.location, st.subs[i], v, startTime, endTime);
        assert ca == FinalFrom(st, value, i, before);
        l := l + [ca];
        var marginal := SolverCore.MarginalScore(st.task, startTime, endTime);
        score := score + marginal;
        GrowFinishes(st, value, i, before, scoreBefore, lBefore);
        if endTime <= tw.hardLatestTime {
          var s := NewWithScore({st.task.id}, l, score);
          s := s.(taskCompletionTime := map[st.task.id := endTime]);
          return Some(s);
        }
        return None;
      }
      i := i + 1;
    }
    return None;
  }
}
